/** The balance-checked transfer of AccountsService on the registry's
    balances (account id to balance). The two lock attempts are inputs: each
    either acquires the account's lock, times out, or is interrupted. */
module Transfer {
  import opened Wrappers
  import opened Domain
  import opened Ledger

  /** How one tryLock call ended. */
  datatype LockAttempt = Acquired | TimedOut | Interrupted

  /** What a call reports, and the balances it leaves. */
  datatype TransferResult = TransferResult(outcome: Outcome<AccountsError>, balances: map<string, real>)

  /** transferAmount, which runs with both locks held: debit "from", then
      credit "to" with the balance read after the debit, or throw. */
  function TransferAmount(balances: map<string, real>, fromId: string, toId: string, amount: real): (r: TransferResult)
    requires fromId in balances && toId in balances
    ensures r.balances.Keys == balances.Keys
    ensures r.outcome.Pass? <==> balances[fromId] >= amount
    ensures r.outcome.Fail? ==> r.outcome.error == InsufficientAccountBalance(fromId) && r.balances == balances
    ensures r.outcome.Pass? && fromId != toId ==>
      r.balances[fromId] == balances[fromId] - amount && r.balances[toId] == balances[toId] + amount
    // a self-transfer credits back exactly what it debited
    ensures r.outcome.Pass? && fromId == toId ==> r.balances == balances
    // the check guards the debit: a positive amount never overdraws "from"
    ensures r.outcome.Pass? && amount > 0.0 ==> r.balances[fromId] >= 0.0
    ensures forall id :: id in balances && id != fromId && id != toId ==> r.balances[id] == balances[id]
  {
    if balances[fromId] >= amount then
      var debited := balances[fromId := balances[fromId] - amount];
      TransferResult(Pass, debited[toId := debited[toId] + amount])
    else
      TransferResult(Fail(InsufficientAccountBalance(fromId)), balances)
  }

  /** amountTransfer: look up "from" then "to", try the "from" lock, then the
      "to" lock, and only with both held run transferAmount. A lock attempt
      that times out ends the call normally; an interrupted one becomes a
      server error. */
  function AmountTransfer(balances: map<string, real>, fromId: string, toId: string, amount: real,
                          fromLock: LockAttempt, toLock: LockAttempt): (r: TransferResult)
    ensures r.balances.Keys == balances.Keys
    ensures fromId !in balances ==> r.outcome == Fail(AccountDoesNotExist(fromId))
    ensures fromId in balances && toId !in balances ==> r.outcome == Fail(AccountDoesNotExist(toId))
    // every failure leaves every balance as it was
    ensures r.outcome.Fail? ==> r.balances == balances
    // so does every call that did not obtain both locks
    ensures !(fromLock.Acquired? && toLock.Acquired?) ==> r.balances == balances
    ensures fromId in balances && toId in balances ==>
      (r.outcome == Fail(ServerError) <==> fromLock.Interrupted? || (fromLock.Acquired? && toLock.Interrupted?))
    // a timed-out lock attempt is reported as success
    ensures fromId in balances && toId in balances && (fromLock.TimedOut? || (fromLock.Acquired? && toLock.TimedOut?)) ==>
      r.outcome == Pass
    ensures fromId in balances && toId in balances && fromLock.Acquired? && toLock.Acquired? ==>
      r == TransferAmount(balances, fromId, toId, amount)
    ensures forall id :: id in balances && id != fromId && id != toId ==> r.balances[id] == balances[id]
  {
    if fromId !in balances then TransferResult(Fail(AccountDoesNotExist(fromId)), balances)
    else if toId !in balances then TransferResult(Fail(AccountDoesNotExist(toId)), balances)
    else match fromLock
      case Interrupted => TransferResult(Fail(ServerError), balances)
      case TimedOut => TransferResult(Pass, balances)
      case Acquired =>
        match toLock
        case Interrupted => TransferResult(Fail(ServerError), balances)
        case TimedOut => TransferResult(Pass, balances)
        case Acquired => TransferAmount(balances, fromId, toId, amount)
  }

  /** Money is neither created nor destroyed by any call. */
  lemma AmountTransferConservesTotal(balances: map<string, real>, fromId: string, toId: string, amount: real,
                                     fromLock: LockAttempt, toLock: LockAttempt)
    ensures Total(AmountTransfer(balances, fromId, toId, amount, fromLock, toLock).balances) == Total(balances)
  {
    var r := AmountTransfer(balances, fromId, toId, amount, fromLock, toLock);
    if r.balances != balances {
      var debited := balances[fromId := balances[fromId] - amount];
      TotalUpdate(balances, fromId, balances[fromId] - amount);
      TotalUpdate(debited, toId, debited[toId] + amount);
      assert r.balances == debited[toId := debited[toId] + amount];
    }
  }

  ghost predicate NonNegative(balances: map<string, real>)
  {
    forall id :: id in balances ==> balances[id] >= 0.0
  }

  /** With a positive amount, no call drives any balance below zero. */
  lemma AmountTransferKeepsNonNegative(balances: map<string, real>, fromId: string, toId: string, amount: real,
                                       fromLock: LockAttempt, toLock: LockAttempt)
    requires NonNegative(balances) && amount > 0.0
    ensures NonNegative(AmountTransfer(balances, fromId, toId, amount, fromLock, toLock).balances)
  {
  }

  /** One call, as a test or a client issues it. */
  datatype TransferCall = TransferCall(fromId: string, toId: string, amount: real, fromLock: LockAttempt, toLock: LockAttempt)

  /** What a sequence of calls reports, call by call, and the balances it leaves. */
  datatype RunResult = RunResult(outcomes: seq<Outcome<AccountsError>>, balances: map<string, real>)

  /** The calls run one after another, each on the balances the previous left. */
  function Run(balances: map<string, real>, calls: seq<TransferCall>): (r: RunResult)
    ensures |r.outcomes| == |calls|
    ensures r.balances.Keys == balances.Keys
    decreases |calls|
  {
    if calls == [] then RunResult([], balances)
    else
      var c := calls[0];
      var step := AmountTransfer(balances, c.fromId, c.toId, c.amount, c.fromLock, c.toLock);
      var rest := Run(step.balances, calls[1..]);
      RunResult([step.outcome] + rest.outcomes, rest.balances)
  }

  /** Any sequence of calls conserves the total. */
  lemma {:induction false} RunConservesTotal(balances: map<string, real>, calls: seq<TransferCall>)
    ensures Total(Run(balances, calls).balances) == Total(balances)
    decreases |calls|
  {
    if calls != [] {
      var c := calls[0];
      var step := AmountTransfer(balances, c.fromId, c.toId, c.amount, c.fromLock, c.toLock);
      AmountTransferConservesTotal(balances, c.fromId, c.toId, c.amount, c.fromLock, c.toLock);
      RunConservesTotal(step.balances, calls[1..]);
    }
  }

  /** A successful transfer is undone by the same amount sent back. */
  lemma TransferThenReverse(balances: map<string, real>, fromId: string, toId: string, amount: real)
    requires fromId in balances && toId in balances
    requires balances[fromId] >= amount && amount >= 0.0 && balances[toId] >= 0.0
    ensures
      var r := Run(balances, [TransferCall(fromId, toId, amount, Acquired, Acquired),
                              TransferCall(toId, fromId, amount, Acquired, Acquired)]);
      r.outcomes == [Pass, Pass] && r.balances == balances
  {
    var calls := [TransferCall(fromId, toId, amount, Acquired, Acquired),
                  TransferCall(toId, fromId, amount, Acquired, Acquired)];
    var first := AmountTransfer(balances, fromId, toId, amount, Acquired, Acquired);
    var second := AmountTransfer(first.balances, toId, fromId, amount, Acquired, Acquired);
    assert calls[1..] == [calls[1]];
    assert calls[1..][1..] == [];
    if fromId != toId {
      assert forall id :: id in balances ==> second.balances[id] == balances[id];
    }
    assert second.balances == balances;
    assert Run(first.balances, calls[1..]) == RunResult([second.outcome], second.balances);
  }

  /** How many of the legs go in the given direction. */
  function Count(legs: seq<bool>, direction: bool): nat
  {
    if legs == [] then 0
    else (if legs[0] == direction then 1 else 0) + Count(legs[1..], direction)
  }

  /** Unit transfers between a and b, each with both locks obtained: a leg
      true moves 1 from a to b, a leg false moves 1 from b to a. */
  function UnitTransfers(a: string, b: string, legs: seq<bool>): (calls: seq<TransferCall>)
    ensures |calls| == |legs|
  {
    if legs == [] then []
    else
      var call := if legs[0] then TransferCall(a, b, 1.0, Acquired, Acquired)
                  else TransferCall(b, a, 1.0, Acquired, Acquired);
      [call] + UnitTransfers(a, b, legs[1..])
  }

  /** The balances after a net amount d has gone from a to b. */
  function Shift(balances: map<string, real>, a: string, b: string, d: real): map<string, real>
    requires a in balances && b in balances
  {
    balances[a := balances[a] - d][b := balances[b] + d]
  }

  lemma ShiftTwice(balances: map<string, real>, a: string, b: string, d: real, e: real)
    requires a in balances && b in balances && a != b
    ensures Shift(Shift(balances, a, b, d), a, b, e) == Shift(balances, a, b, d + e)
  {
  }

  /** One unit transfer that a can cover (leg true) or b can cover (leg false). */
  lemma UnitStep(balances: map<string, real>, a: string, b: string, leg: bool)
    requires a in balances && b in balances && a != b
    requires if leg then balances[a] >= 1.0 else balances[b] >= 1.0
    ensures
      var c := if leg then TransferCall(a, b, 1.0, Acquired, Acquired) else TransferCall(b, a, 1.0, Acquired, Acquired);
      AmountTransfer(balances, c.fromId, c.toId, c.amount, c.fromLock, c.toLock)
        == TransferResult(Pass, Shift(balances, a, b, if leg then 1.0 else -1.0))
  {
    if !leg {
      assert balances[b := balances[b] - 1.0][a := balances[a] + 1.0] == Shift(balances, a, b, -1.0);
    }
  }

  /** When each account can cover every unit it sends, every unit transfer
      succeeds, and the net amount sent from a to b is the units sent by a
      minus the units sent by b. */
  lemma {:induction false} UnitTransfersNet(balances: map<string, real>, a: string, b: string, legs: seq<bool>)
    requires a in balances && b in balances && a != b
    requires balances[a] >= Count(legs, true) as real && balances[b] >= Count(legs, false) as real
    ensures
      var r := Run(balances, UnitTransfers(a, b, legs));
      && (forall i :: 0 <= i < |r.outcomes| ==> r.outcomes[i] == Pass)
      && r.balances == Shift(balances, a, b, Count(legs, true) as real - Count(legs, false) as real)
    decreases |legs|
  {
    if legs == [] {
      assert Shift(balances, a, b, 0.0) == balances;
    } else {
      var calls := UnitTransfers(a, b, legs);
      var d := if legs[0] then 1.0 else -1.0;
      var next := Shift(balances, a, b, d);
      UnitStep(balances, a, b, legs[0]);
      assert calls[1..] == UnitTransfers(a, b, legs[1..]);
      var rest := Run(next, calls[1..]);
      assert Run(balances, calls) == RunResult([Pass] + rest.outcomes, rest.balances);
      UnitTransfersNet(next, a, b, legs[1..]);
      ShiftTwice(balances, a, b, d, Count(legs[1..], true) as real - Count(legs[1..], false) as real);
    }
  }

  /** Equally many unit transfers in each direction leave both balances as
      they were, however they interleave. */
  lemma OppositeUnitTransfersCancel(balances: map<string, real>, a: string, b: string, legs: seq<bool>)
    requires a in balances && b in balances && a != b
    requires Count(legs, true) == Count(legs, false)
    requires balances[a] >= Count(legs, true) as real && balances[b] >= Count(legs, false) as real
    ensures
      var r := Run(balances, UnitTransfers(a, b, legs));
      (forall i :: 0 <= i < |r.outcomes| ==> r.outcomes[i] == Pass) && r.balances == balances
  {
    UnitTransfersNet(balances, a, b, legs);
    assert Shift(balances, a, b, 0.0) == balances;
  }

  /** amountTransfer as written acquires locks it never releases: the ids
      whose lock one call leaves held when it returns or throws (a
      self-transfer holds one lock twice). transferAmount throwing skips both
      unlock calls, and an interrupted second tryLock skips the "from" unlock. */
  function LocksLeftHeldAsWritten(balances: map<string, real>, fromId: string, toId: string, amount: real,
                                  fromLock: LockAttempt, toLock: LockAttempt): (held: multiset<string>)
    ensures held <= multiset{fromId, toId}
    // a lock stays held exactly when the call fails after the first lock was obtained
    ensures held != multiset{} <==>
      && fromId in balances && toId in balances && fromLock.Acquired?
      && AmountTransfer(balances, fromId, toId, amount, fromLock, toLock).outcome.Fail?
    // the "from" lock is among those left held whenever any is
    ensures held != multiset{} ==> fromId in held
    // the "to" lock is left held only by a balance failure under both locks
    ensures fromId != toId && fromId in balances && toId in balances ==>
      (toId in held <==> fromLock.Acquired? && toLock.Acquired? && balances[fromId] < amount)
  {
    if fromId !in balances || toId !in balances || !fromLock.Acquired? then multiset{}
    else match toLock
      case TimedOut => multiset{}
      case Interrupted => multiset{fromId}
      case Acquired => if balances[fromId] >= amount then multiset{} else multiset{fromId, toId}
  }
}
