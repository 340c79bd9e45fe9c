/** The entities shared by the registry and the transfer service: the live
    account object and the exceptions of the core. */
module Domain {

  /** The exceptions the core throws, each carrying the account id its
      message names. ServerError is the RuntimeException that replaces an
      InterruptedException raised while waiting for a lock. */
  datatype AccountsError =
    | DuplicateAccountId(accountId: string)
    | AccountDoesNotExist(accountId: string)
    | InsufficientAccountBalance(accountId: string)
    | ServerError

  /** A live account as the registry stores it (an AccountRuntime): the id is
      fixed at creation, the balance is updated in place by transfers, and
      lockHolds is the hold count of the account's own reentrant lock. */
  class Account {
    const accountId: string
    var balance: real
    var lockHolds: nat

    constructor (accountId: string, balance: real)
      ensures this.accountId == accountId && this.balance == balance
      ensures lockHolds == 0
    {
      this.accountId := accountId;
      this.balance := balance;
      lockHolds := 0;
    }
  }
}
