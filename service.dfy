/** AccountsService: resolves both ids through the registry, locks the two
    live account objects and moves the amount between them in place. */
module Service {
  import opened Wrappers
  import opened Domain
  import opened Repository
  import opened TransferRequest
  import Transfer

  class AccountsService {
    const accountsRepository: AccountsRepositoryInMemory

    constructor (accountsRepository: AccountsRepositoryInMemory)
      ensures this.accountsRepository == accountsRepository
    {
      this.accountsRepository := accountsRepository;
    }

    /** Runs with both locks held: debit "from" and credit "to" (which may be
        the same object), or throw InsufficientAccountBalance and change nothing. */
    method TransferAmount(amountToTransfer: real, fromAccount: Account, toAccount: Account) returns (r: Outcome<AccountsError>)
      requires fromAccount.lockHolds > 0 && toAccount.lockHolds > 0
      modifies fromAccount`balance, toAccount`balance
      ensures r.Pass? <==> old(fromAccount.balance) >= amountToTransfer
      ensures r.Fail? ==> r.error == InsufficientAccountBalance(fromAccount.accountId)
      ensures r.Fail? ==> fromAccount.balance == old(fromAccount.balance) && toAccount.balance == old(toAccount.balance)
      ensures r.Pass? && fromAccount != toAccount ==>
        && fromAccount.balance == old(fromAccount.balance) - amountToTransfer
        && toAccount.balance == old(toAccount.balance) + amountToTransfer
      ensures r.Pass? && fromAccount == toAccount ==> fromAccount.balance == old(fromAccount.balance)
    {
      if fromAccount.balance >= amountToTransfer {
        fromAccount.balance := fromAccount.balance - amountToTransfer;
        toAccount.balance := toAccount.balance + amountToTransfer;
        r := Pass;
      } else {
        r := Fail(InsufficientAccountBalance(fromAccount.accountId));
      }
    }

    /** The two tryLock calls and what runs under them, on the resolved
        account objects: the second lock is attempted only once the first is
        held, the transfer runs only with both held, and every lock taken is
        released on every path, including the throwing ones. */
    method TransferUnderLocks(amountToTransfer: real, fromAccount: Account, toAccount: Account,
                              fromLock: Transfer.LockAttempt, toLock: Transfer.LockAttempt)
      returns (r: Outcome<AccountsError>)
      modifies fromAccount, toAccount
      ensures fromAccount.lockHolds == old(fromAccount.lockHolds) && toAccount.lockHolds == old(toAccount.lockHolds)
      ensures fromLock.Interrupted? || (fromLock.Acquired? && toLock.Interrupted?) ==> r == Fail(ServerError)
      ensures fromLock.TimedOut? || (fromLock.Acquired? && toLock.TimedOut?) ==> r == Pass
      ensures !(fromLock.Acquired? && toLock.Acquired?) ==>
        fromAccount.balance == old(fromAccount.balance) && toAccount.balance == old(toAccount.balance)
      ensures fromLock.Acquired? && toLock.Acquired? ==>
        && (r.Pass? <==> old(fromAccount.balance) >= amountToTransfer)
        && (r.Fail? ==> r.error == InsufficientAccountBalance(fromAccount.accountId))
        && (r.Fail? ==> fromAccount.balance == old(fromAccount.balance) && toAccount.balance == old(toAccount.balance))
        && (r.Pass? && fromAccount != toAccount ==>
              && fromAccount.balance == old(fromAccount.balance) - amountToTransfer
              && toAccount.balance == old(toAccount.balance) + amountToTransfer)
        && (r.Pass? && fromAccount == toAccount ==> fromAccount.balance == old(fromAccount.balance))
    {
      match fromLock {
        case Interrupted =>
          r := Fail(ServerError);
        case TimedOut =>
          r := Pass;
        case Acquired =>
          fromAccount.lockHolds := fromAccount.lockHolds + 1;
          match toLock {
            case Interrupted =>
              r := Fail(ServerError);
            case TimedOut =>
              r := Pass;
            case Acquired =>
              toAccount.lockHolds := toAccount.lockHolds + 1;
              r := TransferAmount(amountToTransfer, fromAccount, toAccount);
              // released whether or not TransferAmount threw
              toAccount.lockHolds := toAccount.lockHolds - 1;
          }
          // released on every path once held, including an interrupted second attempt
          fromAccount.lockHolds := fromAccount.lockHolds - 1;
      }
    }

    /** A validated transfer request: resolve "from" then "to" through the
        registry, then lock and transfer. The result and the new balances are
        those of Transfer.AmountTransfer, and no lock is left held. */
    method AmountTransfer(request: AmountTransferRequest, fromLock: Transfer.LockAttempt, toLock: Transfer.LockAttempt)
      returns (r: Outcome<AccountsError>)
      requires request.Valid() && accountsRepository.Valid()
      modifies accountsRepository.accounts.Values
      ensures accountsRepository.accounts == old(accountsRepository.accounts) && accountsRepository.Valid()
      ensures
        var spec := Transfer.AmountTransfer(old(accountsRepository.Balances()), request.fromAccountId.value,
                                            request.toAccountId.value, request.amountToTransfer.value, fromLock, toLock);
        r == spec.outcome && accountsRepository.Balances() == spec.balances
      ensures forall account :: account in accountsRepository.accounts.Values ==> account.lockHolds == old(account.lockHolds)
    {
      var fromId, toId, amount := request.fromAccountId.value, request.toAccountId.value, request.amountToTransfer.value;
      var fromResult := accountsRepository.GetAccount(fromId);
      if fromResult.Failure? {
        return Fail(fromResult.error);
      }
      var toResult := accountsRepository.GetAccount(toId);
      if toResult.Failure? {
        return Fail(toResult.error);
      }
      var fromAccount, toAccount := fromResult.value, toResult.value;
      ghost var before := accountsRepository.Balances();
      r := TransferUnderLocks(amount, fromAccount, toAccount, fromLock, toLock);
      ghost var spec := Transfer.AmountTransfer(before, fromId, toId, amount, fromLock, toLock);
      forall id | id in accountsRepository.accounts
        ensures accountsRepository.accounts[id].balance == spec.balances[id]
      {
        if id != fromId && id != toId {
          assert accountsRepository.accounts[id].accountId == id;
        }
      }
      assert accountsRepository.Balances() == spec.balances;
    }
  }
}
