# Account registry and balance-checked transfer

A Dafny model of the core of a small money-transfer service: the in-memory
account registry (`AccountsRepositoryInMemory`), the transfer of
`AccountsService` (`amountTransfer`, which resolves both ids and takes the two
account locks, and `transferAmount`, which checks the balance and moves the
money), and the validity predicate that the annotations of
`AmountTransferRequest` amount to.

Modules, one per part of the program:

- `Wrappers` (wrappers.dfy): `Option`, `Result` and `Outcome`. A `void` Java
  method that may throw becomes a method returning `Outcome<AccountsError>`.
- `Domain` (domain.dfy): the exceptions of the core (`AccountsError`) and the live
  account object `Account` (an `AccountRuntime`): `const accountId`,
  `var balance`, and `var lockHolds`, the hold count of the account's own
  reentrant lock.
- `TransferRequest` (transfer_request.dfy): the request as a datatype (Java's
  `null` is `None`), the annotations it breaks (`Violations`) and `Valid`.
- `Repository` (repository.dfy): the registry as a class whose `accounts` map
  the methods reassign; `GetAccount` hands out the stored object itself.
- `Ledger` (ledger.dfy): the total of all balances, used to state
  conservation of money.
- `Transfer` (transfer.dfy): the transfer as functions on the registry's
  balances (`map<string, real>`), with the lock attempts as inputs, and the
  lemmas about it: conservation, non-negativity, undoing by the reverse
  transfer, any interleaving of opposite unit transfers.
- `Service` (service.dfy): `AccountsService` as a class that updates the two
  account objects in place (they may be one object), proved to agree with
  `Transfer.AmountTransfer`.
- `Scenarios` (scenarios.dfy): the controller test's scenarios as client code
  and lemmas.

Balances and amounts are `BigDecimal` in the source, exact decimal numbers;
they are `real` here and compared by value. Each `tryLock` call is an input
of type `LockAttempt`: it acquires the lock, times out, or is interrupted
(the `InterruptedException` that the service turns into a `RuntimeException`,
here `ServerError`).

The model follows the code also where a safer design of the transfer would differ:

- The locks are taken in request order, "from" then "to", not in a canonical
  order by id. Nothing here claims freedom from deadlock.
- A lock attempt that times out ends the call normally, with nothing moved;
  the caller sees success (`Pass`), not a lock-timeout error.
- A self-transfer (`fromAccountId == toAccountId`) is accepted: the same
  object is locked twice (the lock is reentrant), the balance check runs, and
  the credit reads the already-debited balance, so the balance ends unchanged.
  The lock attempts are independent inputs, so the model also admits a
  self-transfer whose second attempt times out, which ends in `Pass` with no
  balance check; a reentrant `tryLock` by the thread that already holds the
  lock succeeds at once, so the source never takes that path.
- The one departure from the code is the lock release: see "## Findings".

## Model

| member | source | states |
|---|---|---|
| `TransferRequest.AmountTransferRequest.Violations` | src/main/java/com/db/awmd/challenge/domain/AmountTransferRequest.java:15-25 | each annotation is broken exactly when its condition fails: @NotNull on an id exactly when it is null, @NotEmpty on an id exactly when it is null or empty, @NotNull on the amount exactly when it is null, @Min(1) exactly when the amount is present and below 1 (a null amount passes @Min) |
| `TransferRequest.AmountTransferRequest.Valid` | src/main/java/com/db/awmd/challenge/domain/AmountTransferRequest.java:15-25 | a request passes validation exactly when both ids are non-null and non-empty and the amount is non-null and at least 1 |
| `Domain.Account.constructor` | src/main/java/com/db/awmd/challenge/domain/AccountRuntime.java:17-26 | a new account carries the given id and balance and its lock is not held |
| `Repository.AccountsRepositoryInMemory.constructor` | src/main/java/com/db/awmd/challenge/repository/AccountsRepositoryInMemory.java:14 | the registry starts empty |
| `Repository.AccountsRepositoryInMemory.PutIfAbsent` | src/main/java/com/db/awmd/challenge/repository/AccountsRepositoryInMemory.java:21 | returns the entry already under the key and changes nothing, or returns none and adds exactly that key |
| `Repository.AccountsRepositoryInMemory.CreateAccount` | src/main/java/com/db/awmd/challenge/repository/AccountsRepositoryInMemory.java:17-26 | succeeds exactly when the id is absent, then adds only that id, mapped to a fresh account with the given id and balance, other entries and balances untouched; on a present id fails with DuplicateAccountId and changes nothing, the existing balance included; keeps every entry stored under its own id |
| `Repository.AccountsRepositoryInMemory.GetAccount` | src/main/java/com/db/awmd/challenge/repository/AccountsRepositoryInMemory.java:29-36 | succeeds exactly when the id is present and then returns the stored object itself; otherwise fails with AccountDoesNotExist for that id; modifies nothing |
| `Repository.AccountsRepositoryInMemory.ClearAccounts` | src/main/java/com/db/awmd/challenge/repository/AccountsRepositoryInMemory.java:39-41 | afterwards the registry is empty, so every lookup fails |
| `Transfer.TransferAmount` | src/main/java/com/db/awmd/challenge/service/AccountsService.java:70-82 | succeeds exactly when the "from" balance covers the amount; on success "from" loses and "to" gains the amount (a self-transfer leaves the balance as it was) and a positive amount never takes "from" below zero; on failure InsufficientAccountBalance for "from" and nothing changes; no other account changes |
| `Transfer.AmountTransfer` | src/main/java/com/db/awmd/challenge/service/AccountsService.java:43-68 | an unknown "from" id, then an unknown "to" id, fails with AccountDoesNotExist for it; any failure, and any call that did not get both locks, leaves every balance unchanged; a timed-out attempt reports success; an interrupted one, and only that, reports ServerError; with both locks the result is transferAmount's; no account is added or removed and no third account changes |
| `Transfer.AmountTransferConservesTotal` | src/main/java/com/db/awmd/challenge/service/AccountsService.java:73-75 | no call changes the sum of all balances |
| `Transfer.AmountTransferKeepsNonNegative` | src/main/java/com/db/awmd/challenge/service/AccountsService.java:73-75 | with a positive amount, no call takes any balance below zero when none was |
| `Transfer.Run` | src/test/java/com/db/awmd/challenge/AccountsControllerTest.java:414-439 | a sequence of calls gives one outcome per call and keeps the set of accounts |
| `Transfer.RunConservesTotal` | src/main/java/com/db/awmd/challenge/service/AccountsService.java:74-75 | any sequence of calls keeps the sum of all balances |
| `Transfer.TransferThenReverse` | src/main/java/com/db/awmd/challenge/service/AccountsService.java:73-75 | a covered transfer followed by the same amount sent back both succeed and restore every balance |
| `Transfer.UnitTransfersNet` | src/test/java/com/db/awmd/challenge/AccountsControllerTest.java:400-458 | unit transfers between two distinct accounts, in any order and with every lock obtained, all succeed when each account holds at least the units it sends, and each ends with its start balance minus the units sent plus the units received |
| `Transfer.OppositeUnitTransfersCancel` | src/test/java/com/db/awmd/challenge/AccountsControllerTest.java:400-458 | equally many unit transfers each way between two distinct accounts, in any order and with every lock obtained, all succeed when each account holds at least the units it sends, and leave both balances as they were |
| `Transfer.LocksLeftHeldAsWritten` | src/main/java/com/db/awmd/challenge/service/AccountsService.java:50-67 | as written, a call leaves a lock held exactly when it fails after the "from" lock was obtained, and only locks of the two accounts named; the "from" lock is always among them, and for two distinct accounts the "to" lock is left held exactly when both locks were obtained and the "from" balance is below the amount |
| `Service.AccountsService.constructor` | src/main/java/com/db/awmd/challenge/service/AccountsService.java:30-33 | the service works on the registry it is given |
| `Service.AccountsService.TransferAmount` | src/main/java/com/db/awmd/challenge/service/AccountsService.java:70-82 | called only with both accounts' locks held, on the two live objects, which may be one: succeeds exactly when the "from" balance covers the amount, then debits "from" and credits "to" (a self-transfer ends unchanged); otherwise fails with InsufficientAccountBalance and changes neither |
| `Service.AccountsService.TransferUnderLocks` | src/main/java/com/db/awmd/challenge/service/AccountsService.java:50-67 | the transfer runs only with both locks obtained; a timed-out attempt reports success and an interrupted one ServerError, both with balances unchanged; every lock obtained is released on every path |
| `Service.AccountsService.AmountTransfer` | src/main/java/com/db/awmd/challenge/service/AccountsService.java:43-68 | for a valid request, the outcome and the new balances of the registry are exactly those of `Transfer.AmountTransfer` on the old balances; the registry's map is unchanged; no lock is left held |
| `Scenarios.CreateThenGet` | src/test/java/com/db/awmd/challenge/AccountsControllerTest.java:46-54 | "Id-123" created with 1000 is read back with that id and balance |
| `Scenarios.CreateDuplicate` | src/test/java/com/db/awmd/challenge/AccountsControllerTest.java:56-63 | a second create of "Id-123" fails with DuplicateAccountId and the first balance is kept |
| `Scenarios.ClearThenGet` | src/main/java/com/db/awmd/challenge/repository/AccountsRepositoryInMemory.java:39-41 | after clearing, a previously created id is not found |
| `Scenarios.TwoAccounts` | src/test/java/com/db/awmd/challenge/AccountsControllerTest.java:122-126 | creating the two test accounts yields a registry holding exactly their balances |
| `Scenarios.TransferFifty` | src/test/java/com/db/awmd/challenge/AccountsControllerTest.java:116-138 | 50 from 1050 to 950 succeeds and leaves 1000 on each side |
| `Scenarios.TransferMoreThanBalance` | src/test/java/com/db/awmd/challenge/AccountsControllerTest.java:362-381 | 5000 from 1000 fails with InsufficientAccountBalance and both balances stay 1000 |
| `Scenarios.TransferBetweenUnknownAccounts` | src/test/java/com/db/awmd/challenge/AccountsControllerTest.java:384-397 | a transfer between two unknown ids fails with AccountDoesNotExist for the "from" id |
| `Scenarios.FiftyEachWay` | src/test/java/com/db/awmd/challenge/AccountsControllerTest.java:400-458 | 50 unit transfers each way between two accounts of 1000, in any interleaving and with every lock obtained, all succeed and both end at 1000 |
| `Scenarios.InsufficientBalanceLeavesLocksHeld` | src/main/java/com/db/awmd/challenge/service/AccountsService.java:56-63 | as written, the insufficient-balance scenario leaves both accounts' locks held |

## Findings

| source | as written | input that shows it | evidently intended | confidence | as-written member | corrected member |
|---|---|---|---|---|---|---|
| src/main/java/com/db/awmd/challenge/service/AccountsService.java:50-67 | the unlock calls (lines 60 and 63) run only on the normal path, with no `finally`: when `transferAmount` throws the insufficient-balance exception both locks stay held, and when the second `tryLock` is interrupted the "from" lock stays held | accounts of 1000 and 1000, both locks obtained, amount 5000: the call fails and both locks stay held, so every later transfer from another thread that touches either account times out and is reported as success with nothing moved | every lock obtained is released on every exit path, as the normal path already does | high (not executed) | `Transfer.LocksLeftHeldAsWritten`, shown by `Scenarios.InsufficientBalanceLeavesLocksHeld` | `Service.AccountsService.TransferUnderLocks` |

## Left out

- Real concurrency: `ReentrantLock` fairness, `tryLock` waiting, and the thread safety of `ConcurrentHashMap` are not modelled; each lock attempt is an input, and calls run one after another. Deadlock freedom is not claimed.
- Notifications after a successful transfer (AccountsService.java:77-78): `NotificationService` is not part of this model and has no effect on balances.
- The lock timeout setting (AccountsService.java:27-28): it only bounds real waiting.
- `AccountsService.createAccount` and `getAccount` (AccountsService.java:35-41): one-line delegations to the registry, whose members model them.
- The HTTP controller, its status codes, logging, Jackson parsing (a malformed body such as an empty amount never reaches the model) and the Bean Validation machinery: only the resulting predicate `Valid` is modelled, and the service requires it.
- Exception messages: failures carry the account id but not the message text.
- `Account`'s own validation of created accounts is not part of this model: the registry accepts any id string and any balance, as `AccountsRepositoryInMemory` does; null ids (which `ConcurrentHashMap` rejects) are not modelled.
- `BigDecimal` scale and representation: balances are compared by value.
- `Service.AccountsService.AmountTransfer` and `TransferUnderLocks` release every lock they take; the source's missing release is modelled by `Transfer.LocksLeftHeldAsWritten` (see "## Findings").
