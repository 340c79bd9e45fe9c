/** The controller test's scenarios, stated as client code of the registry
    and the service (each starts from an empty registry, as the test's reset
    does), and the lemmas that cover the scenarios about many calls. */
module Scenarios {
  import opened Wrappers
  import opened Domain
  import opened Repository
  import opened TransferRequest
  import opened Transfer
  import opened Service

  /** Create "Id-123" with 1000, then read it back: the stored account
      carries the id and balance it was created with. */
  method CreateThenGet() returns (created: Outcome<AccountsError>, accountId: string, balance: real)
    ensures created == Pass && accountId == "Id-123" && balance == 1000.0
  {
    var repository := new AccountsRepositoryInMemory();
    created := repository.CreateAccount("Id-123", 1000.0);
    var found := repository.GetAccount("Id-123");
    accountId, balance := found.value.accountId, found.value.balance;
  }

  /** A second create of "Id-123" fails, and the first account keeps its balance. */
  method CreateDuplicate() returns (first: Outcome<AccountsError>, second: Outcome<AccountsError>, balance: real)
    ensures first == Pass && second == Fail(DuplicateAccountId("Id-123")) && balance == 1000.0
  {
    var repository := new AccountsRepositoryInMemory();
    first := repository.CreateAccount("Id-123", 1000.0);
    second := repository.CreateAccount("Id-123", 2000.0);
    var found := repository.GetAccount("Id-123");
    balance := found.value.balance;
  }

  /** After clearAccounts, an id created before is no longer found. */
  method ClearThenGet() returns (found: Result<Account, AccountsError>)
    ensures found == Failure(AccountDoesNotExist("Id-123"))
  {
    var repository := new AccountsRepositoryInMemory();
    var created := repository.CreateAccount("Id-123", 1000.0);
    repository.ClearAccounts();
    found := repository.GetAccount("Id-123");
  }

  /** A registry with the test's two accounts and a service over it. */
  method TwoAccounts(fromBalance: real, toBalance: real) returns (service: AccountsService)
    ensures fresh(service) && fresh(service.accountsRepository) && fresh(service.accountsRepository.accounts.Values)
    ensures service.accountsRepository.Valid()
    ensures service.accountsRepository.Balances() == map["Id-fromAccount" := fromBalance, "Id-toAccount" := toBalance]
  {
    var repository := new AccountsRepositoryInMemory();
    var createdFrom := repository.CreateAccount("Id-fromAccount", fromBalance);
    var createdTo := repository.CreateAccount("Id-toAccount", toBalance);
    service := new AccountsService(repository);
  }

  /** 1050 and 950; moving 50 leaves 1000 on each side. */
  method TransferFifty() returns (r: Outcome<AccountsError>, fromBalance: real, toBalance: real)
    ensures r == Pass && fromBalance == 1000.0 && toBalance == 1000.0
  {
    var service := TwoAccounts(1050.0, 950.0);
    var request := AmountTransferRequest(Some("Id-fromAccount"), Some("Id-toAccount"), Some(50.0));
    r := service.AmountTransfer(request, Acquired, Acquired);
    var from := service.accountsRepository.GetAccount("Id-fromAccount");
    var to := service.accountsRepository.GetAccount("Id-toAccount");
    fromBalance, toBalance := from.value.balance, to.value.balance;
  }

  /** 5000 from an account holding 1000 fails, and both balances stay at 1000. */
  method TransferMoreThanBalance() returns (r: Outcome<AccountsError>, fromBalance: real, toBalance: real)
    ensures r == Fail(InsufficientAccountBalance("Id-fromAccount"))
    ensures fromBalance == 1000.0 && toBalance == 1000.0
  {
    var service := TwoAccounts(1000.0, 1000.0);
    var request := AmountTransferRequest(Some("Id-fromAccount"), Some("Id-toAccount"), Some(5000.0));
    r := service.AmountTransfer(request, Acquired, Acquired);
    var from := service.accountsRepository.GetAccount("Id-fromAccount");
    var to := service.accountsRepository.GetAccount("Id-toAccount");
    fromBalance, toBalance := from.value.balance, to.value.balance;
  }

  /** A transfer between two unknown ids fails on the "from" id. */
  method TransferBetweenUnknownAccounts() returns (r: Outcome<AccountsError>)
    ensures r == Fail(AccountDoesNotExist("Id-fromAccount"))
  {
    var repository := new AccountsRepositoryInMemory();
    var service := new AccountsService(repository);
    var request := AmountTransferRequest(Some("Id-fromAccount"), Some("Id-toAccount"), Some(100.0));
    r := service.AmountTransfer(request, Acquired, Acquired);
  }

  /** The two test threads' 50 unit transfers each way, in any order in which
      they reach the service: every call is accepted and both accounts end at 1000. */
  lemma FiftyEachWay(legs: seq<bool>)
    requires Count(legs, true) == 50 && Count(legs, false) == 50
    ensures
      var initial := map["Id-fromAccount" := 1000.0, "Id-toAccount" := 1000.0];
      var r := Run(initial, UnitTransfers("Id-fromAccount", "Id-toAccount", legs));
      (forall i :: 0 <= i < |r.outcomes| ==> r.outcomes[i] == Pass) && r.balances == initial
  {
    var initial := map["Id-fromAccount" := 1000.0, "Id-toAccount" := 1000.0];
    OppositeUnitTransfersCancel(initial, "Id-fromAccount", "Id-toAccount", legs);
  }

  /** As written, the insufficient-balance test leaves both accounts' locks
      held by the request that threw. */
  lemma InsufficientBalanceLeavesLocksHeld()
    ensures
      var initial := map["Id-fromAccount" := 1000.0, "Id-toAccount" := 1000.0];
      && AmountTransfer(initial, "Id-fromAccount", "Id-toAccount", 5000.0, Acquired, Acquired).outcome
           == Fail(InsufficientAccountBalance("Id-fromAccount"))
      && LocksLeftHeldAsWritten(initial, "Id-fromAccount", "Id-toAccount", 5000.0, Acquired, Acquired)
           == multiset{"Id-fromAccount", "Id-toAccount"}
  {
  }
}
