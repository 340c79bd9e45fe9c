/** The total amount of money held by a set of accounts, given as a map
    from account id to balance, and how it responds to one balance update. */
module Ledger {

  /** Sum of the balances of the ids in keys. */
  ghost function SumOver(balances: map<string, real>, keys: set<string>): real
    requires keys <= balances.Keys
    decreases keys
  {
    if keys == {} then 0.0
    else
      var id :| id in keys;
      balances[id] + SumOver(balances, keys - {id})
  }

  /** Sum of all balances. */
  ghost function Total(balances: map<string, real>): real
  {
    SumOver(balances, balances.Keys)
  }

  /** Any id of the set can be taken out first, whichever the definition picks. */
  lemma {:induction false} SumOverRemove(balances: map<string, real>, keys: set<string>, id: string)
    requires keys <= balances.Keys && id in keys
    ensures SumOver(balances, keys) == balances[id] + SumOver(balances, keys - {id})
    decreases keys
  {
    var first :| first in keys && SumOver(balances, keys) == balances[first] + SumOver(balances, keys - {first});
    if first != id {
      SumOverRemove(balances, keys - {first}, id);
      SumOverRemove(balances, keys - {id}, first);
      assert keys - {first} - {id} == keys - {id} - {first};
    }
  }

  /** The sum depends only on the balances of the ids summed. */
  lemma {:induction false} SumOverAgree(a: map<string, real>, b: map<string, real>, keys: set<string>)
    requires keys <= a.Keys && keys <= b.Keys
    requires forall id :: id in keys ==> a[id] == b[id]
    ensures SumOver(a, keys) == SumOver(b, keys)
    decreases keys
  {
    if keys != {} {
      var id :| id in keys;
      SumOverRemove(a, keys, id);
      SumOverRemove(b, keys, id);
      SumOverAgree(a, b, keys - {id});
    }
  }

  /** Setting one registered balance to v changes the total by v minus the old balance. */
  lemma TotalUpdate(balances: map<string, real>, id: string, v: real)
    requires id in balances
    ensures Total(balances[id := v]) == Total(balances) - balances[id] + v
  {
    var updated := balances[id := v];
    assert updated.Keys == balances.Keys;
    SumOverRemove(balances, balances.Keys, id);
    SumOverRemove(updated, updated.Keys, id);
    SumOverAgree(balances, updated, balances.Keys - {id});
  }
}
