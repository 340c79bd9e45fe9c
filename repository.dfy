/** The in-memory account registry: a map from account id to the live
    account object, with create-once insertion. */
module Repository {
  import opened Wrappers
  import opened Domain

  class AccountsRepositoryInMemory {
    var accounts: map<string, Account>

    /** Every entry is stored under its own account's id; hence two ids
        never share one account object. */
    ghost predicate Valid()
      reads this
    {
      forall id :: id in accounts ==> accounts[id].accountId == id
    }

    /** The balance of every registered account, by id. */
    ghost function Balances(): map<string, real>
      reads this, accounts.Values`balance
    {
      map id | id in accounts :: accounts[id].balance
    }

    constructor ()
      ensures Valid() && accounts == map[]
    {
      accounts := map[];
    }

    /** ConcurrentHashMap.putIfAbsent: stores value under key only when key
        is absent, and returns what was there before. */
    method PutIfAbsent(key: string, value: Account) returns (previous: Option<Account>)
      modifies this
      ensures key in old(accounts) ==> previous == Some(old(accounts)[key]) && accounts == old(accounts)
      ensures key !in old(accounts) ==> previous == None && accounts == old(accounts)[key := value]
    {
      if key in accounts {
        previous := Some(accounts[key]);
      } else {
        previous := None;
        accounts := accounts[key := value];
      }
    }

    /** Registers a fresh account with the given id and balance, or fails
        with DuplicateAccountId and leaves the existing entry as it was. */
    method CreateAccount(accountId: string, balance: real) returns (r: Outcome<AccountsError>)
      requires Valid()
      modifies this
      ensures Valid()
      ensures accountId in accounts
      ensures r.Pass? <==> accountId !in old(accounts)
      ensures r.Fail? ==> r.error == DuplicateAccountId(accountId)
      ensures r.Fail? ==> accounts == old(accounts) && Balances() == old(Balances())
      ensures r.Pass? ==> fresh(accounts[accountId]) && accounts[accountId].lockHolds == 0
      ensures r.Pass? ==> accounts == old(accounts)[accountId := accounts[accountId]]
      ensures r.Pass? ==> Balances() == old(Balances())[accountId := balance]
    {
      var accountRuntime := new Account(accountId, balance);
      var previousAccount := PutIfAbsent(accountId, accountRuntime);
      if previousAccount.Some? {
        r := Fail(DuplicateAccountId(accountId));
      } else {
        r := Pass;
      }
    }

    /** Returns the stored account object itself, or fails with
        AccountDoesNotExist; the registry is not modified. */
    method GetAccount(accountId: string) returns (r: Result<Account, AccountsError>)
      ensures r.Success? <==> accountId in accounts
      ensures r.Success? ==> r.value == accounts[accountId]
      ensures r.Failure? ==> r.error == AccountDoesNotExist(accountId)
    {
      if accountId in accounts {
        r := Success(accounts[accountId]);
      } else {
        r := Failure(AccountDoesNotExist(accountId));
      }
    }

    /** Empties the registry. */
    method ClearAccounts()
      modifies this
      ensures Valid() && accounts == map[]
    {
      accounts := map[];
    }
  }
}
