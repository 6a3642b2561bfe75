/** Spending outputs of several transactions, at most one from each: the order does not matter. */
module Spending {
  import opened Prelude
  import opened ByteStrings
  import opened Crypto
  import opened Transactions
  import opened Ledgers
  import opened CoinSelection

  /** `m` says which output of which transaction is spent. */
  type Spent = map<Bytes, nat>

  /** The inputs name exactly the outputs of `m`, one input each. */
  ghost predicate Names(inputs: seq<TxInput>, m: Spent) {
    && (forall j :: 0 <= j < |inputs| ==> Key(inputs[j].txid) in m && inputs[j].outIndex == m[Key(inputs[j].txid)])
    && (forall i, j :: 0 <= i < j < |inputs| ==> Key(inputs[i].txid) != Key(inputs[j].txid))
    && (forall key :: key in m ==> NamesTx(inputs, key))
  }

  predicate AllSpendable(live: Entries, m: Spent) {
    forall key :: key in m ==> key in live && m[key] < |live[key]|
  }

  /** Every named output is gone, everything else is as it was. */
  ghost predicate Removed(live: Entries, live': Entries, m: Spent)
    requires AllSpendable(live, m)
  {
    && (forall key :: key in live' <==> key in live && !(key in m && |live[key]| == 1))
    && (forall key :: key in live' ==> live'[key] == if key in m then RemoveAt(live[key], m[key]) else live[key])
  }

  lemma RemovedUnique(live: Entries, a: Entries, b: Entries, m: Spent)
    requires AllSpendable(live, m) && Removed(live, a, m) && Removed(live, b, m)
    ensures a == b
  {
  }

  function InputsWorth(live: Entries, inputs: seq<TxInput>, who: Who): int
    requires forall j :: 0 <= j < |inputs| ==>
      Key(inputs[j].txid) in live && 0 <= inputs[j].outIndex < |live[Key(inputs[j].txid)]|
  {
    if inputs == [] then 0
    else Worth(live[Key(inputs[0].txid)][inputs[0].outIndex], who) + InputsWorth(live, inputs[1..], who)
  }

  lemma NamesTail(inputs: seq<TxInput>, m: Spent)
    requires Names(inputs, m) && inputs != []
    ensures Names(inputs[1..], m - {Key(inputs[0].txid)})
  {
    var key0 := Key(inputs[0].txid);
    forall key | key in m - {key0} ensures NamesTx(inputs[1..], key) {
      assert NamesTx(inputs, key);
      var j :| 0 <= j < |inputs| && Key(inputs[j].txid) == key;
      assert inputs[1..][j - 1] == inputs[j];
    }
  }

  lemma RemovedStep(l: Ledger, l': Ledger, m: Spent, key0: Bytes)
    requires AllSpendable(l.live, m) && key0 in m
    requires AllSpendable(Remove(l, key0, m[key0]).live, m - {key0})
    requires Removed(Remove(l, key0, m[key0]).live, l'.live, m - {key0})
    ensures Removed(l.live, l'.live, m)
  {
  }

  /** Removing the inputs one by one succeeds and takes out exactly the named outputs. */
  lemma {:induction false} RemoveNamed(l: Ledger, inputs: seq<TxInput>, m: Spent, who: Who)
    requires Names(inputs, m) && AllSpendable(l.live, m)
    ensures RemoveInputs(l, inputs).1
    ensures Removed(l.live, RemoveInputs(l, inputs).0.live, m)
    ensures RemoveInputs(l, inputs).0.recorded.Keys == l.recorded.Keys
    ensures Total(RemoveInputs(l, inputs).0.live, who) == Total(l.live, who) - InputsWorth(l.live, inputs, who)
    decreases |inputs|
  {
    if inputs == [] {
      assert forall key :: key in m ==> NamesTx(inputs, key);
    } else {
      var key0, k0 := Key(inputs[0].txid), inputs[0].outIndex;
      var l1, m1 := Remove(l, key0, k0), m - {key0};
      NamesTail(inputs, m);
      StillSpendable(l, m, key0);
      RemoveNamed(l1, inputs[1..], m1, who);
      RemovedStep(l, RemoveInputs(l1, inputs[1..]).0, m, key0);
      TotalRemove(l, key0, k0, who);
      WorthElsewhere(l, inputs[1..], key0, k0, who);
    }
  }

  lemma StillSpendable(l: Ledger, m: Spent, key0: Bytes)
    requires AllSpendable(l.live, m) && key0 in m
    ensures AllSpendable(Remove(l, key0, m[key0]).live, m - {key0})
  {
  }

  lemma {:induction false} WorthElsewhere(l: Ledger, inputs: seq<TxInput>, key0: Bytes, k0: nat, who: Who)
    requires Spendable(l, key0, k0)
    requires forall j :: 0 <= j < |inputs| ==>
      Key(inputs[j].txid) in l.live && 0 <= inputs[j].outIndex < |l.live[Key(inputs[j].txid)]| && Key(inputs[j].txid) != key0
    ensures forall j :: 0 <= j < |inputs| ==> Key(inputs[j].txid) in Remove(l, key0, k0).live
    ensures forall j :: 0 <= j < |inputs| ==>
      Remove(l, key0, k0).live[Key(inputs[j].txid)] == l.live[Key(inputs[j].txid)]
    ensures InputsWorth(Remove(l, key0, k0).live, inputs, who) == InputsWorth(l.live, inputs, who)
    decreases |inputs|
  {
    if inputs != [] {
      WorthElsewhere(l, inputs[1..], key0, k0, who);
    }
  }

  /** ---------- From picks to inputs ---------- */

  /** The inputs CreateTransaction builds, transaction by transaction in the order the map is traversed. */
  function InputsOf(key: Bytes, indices: seq<nat>, pubKey: Bytes): (r: seq<TxInput>)
    ensures |r| == |indices|
  {
    seq(|indices|, j requires 0 <= j < |indices| => TxInput(Some(key), indices[j], [], pubKey))
  }

  function InputsFor(order: seq<Bytes>, group: map<Bytes, seq<nat>>, pubKey: Bytes): seq<TxInput>
    requires forall j :: 0 <= j < |order| ==> order[j] in group
  {
    if order == [] then []
    else InputsOf(order[0], group[order[0]], pubKey) + InputsFor(order[1..], group, pubKey)
  }

  /** The inputs in the order the picks were made. */
  function PickInputs(picks: seq<Outpoint>, pubKey: Bytes): (r: seq<TxInput>)
    ensures |r| == |picks|
  {
    seq(|picks|, j requires 0 <= j < |picks| => TxInput(Some(picks[j].0), picks[j].1, [], pubKey))
  }

  predicate Singles(group: map<Bytes, seq<nat>>) {
    forall key :: key in group ==> |group[key]| == 1
  }

  function SpentOf(group: map<Bytes, seq<nat>>): Spent
    requires Singles(group)
  {
    map key | key in group :: group[key][0]
  }

  lemma GroupIsSingles(picks: seq<Outpoint>)
    requires OnePerTx(picks)
    ensures Singles(Group(picks))
  {
    forall key | key in Group(picks) ensures |Group(picks)[key]| == 1 {
      GroupKeys(picks, key);
      var i :| 0 <= i < |picks| && picks[i].0 == key;
      GroupSingle(picks, i);
    }
  }

  lemma {:induction false} SingleInputs(order: seq<Bytes>, group: map<Bytes, seq<nat>>, pubKey: Bytes)
    requires Singles(group) && forall j :: 0 <= j < |order| ==> order[j] in group
    ensures |InputsFor(order, group, pubKey)| == |order|
    ensures forall j :: 0 <= j < |order| ==>
      InputsFor(order, group, pubKey)[j] == TxInput(Some(order[j]), group[order[j]][0], [], pubKey)
    decreases |order|
  {
    if order != [] {
      SingleInputs(order[1..], group, pubKey);
    }
  }

  lemma InputsForNames(order: seq<Bytes>, group: map<Bytes, seq<nat>>, pubKey: Bytes)
    requires Singles(group) && Enumerates(order, group)
    ensures Names(InputsFor(order, group, pubKey), SpentOf(group))
  {
    SingleInputs(order, group, pubKey);
    var inputs := InputsFor(order, group, pubKey);
    forall key | key in SpentOf(group) ensures NamesTx(inputs, key) {
      assert key in order;
      var j :| 0 <= j < |order| && order[j] == key;
      assert Key(inputs[j].txid) == key;
    }
  }

  lemma PickInputsName(picks: seq<Outpoint>, pubKey: Bytes)
    requires OnePerTx(picks) && Singles(Group(picks))
    ensures Names(PickInputs(picks, pubKey), SpentOf(Group(picks)))
  {
    var inputs, m := PickInputs(picks, pubKey), SpentOf(Group(picks));
    forall j | 0 <= j < |inputs| ensures Key(inputs[j].txid) in m && inputs[j].outIndex == m[Key(inputs[j].txid)] {
      GroupSingle(picks, j);
    }
    forall key | key in m ensures NamesTx(inputs, key) {
      GroupKeys(picks, key);
      var i :| 0 <= i < |picks| && picks[i].0 == key;
      assert Key(inputs[i].txid) == key;
    }
  }

  /** The owner's picks are worth their sum to the owner and nothing to anybody else. */
  lemma {:induction false} PickInputsWorth(live: Entries, owner: Bytes, picks: seq<Outpoint>, pubKey: Bytes, who: Who)
    requires PicksOk(live, owner, picks)
    ensures forall j :: 0 <= j < |picks| ==> Key(PickInputs(picks, pubKey)[j].txid) in live
    ensures InputsWorth(live, PickInputs(picks, pubKey), who) ==
      if who.Everyone? || who.pubKeyHash == owner then PicksValue(live, owner, picks) else 0
    decreases |picks|
  {
    if picks != [] {
      var front, last := picks[..|picks| - 1], picks[|picks| - 1];
      PickInputsWorth(live, owner, front, pubKey, who);
      var inputs := PickInputs(picks, pubKey);
      assert inputs == PickInputs(front, pubKey) + [inputs[|picks| - 1]];
      InputsWorthSnoc(live, PickInputs(front, pubKey), inputs[|picks| - 1], who);
    }
  }

  lemma {:induction false} InputsWorthSnoc(live: Entries, inputs: seq<TxInput>, last: TxInput, who: Who)
    requires forall j :: 0 <= j < |inputs| ==>
      Key(inputs[j].txid) in live && 0 <= inputs[j].outIndex < |live[Key(inputs[j].txid)]|
    requires Key(last.txid) in live && 0 <= last.outIndex < |live[Key(last.txid)]|
    ensures InputsWorth(live, inputs + [last], who) ==
      InputsWorth(live, inputs, who) + Worth(live[Key(last.txid)][last.outIndex], who)
    decreases |inputs|
  {
    if inputs != [] {
      assert (inputs + [last])[1..] == inputs[1..] + [last];
      InputsWorthSnoc(live, inputs[1..], last, who);
    } else {
      assert inputs + [last] == [last];
    }
  }

  /** Whatever the order of the inputs, spending the picks moves their sum out of the owner's balance. */
  lemma SpendPicks(l: Ledger, owner: Bytes, picks: seq<Outpoint>, order: seq<Bytes>, pubKey: Bytes, who: Who)
    requires OnePerTx(picks) && PicksOk(l.live, owner, picks)
    requires Singles(Group(picks)) && Enumerates(order, Group(picks))
    ensures AllSpendable(l.live, SpentOf(Group(picks)))
    ensures var (l', ok) := RemoveInputs(l, InputsFor(order, Group(picks), pubKey));
      ok && Removed(l.live, l'.live, SpentOf(Group(picks))) && l'.recorded.Keys == l.recorded.Keys &&
      Total(l'.live, who) == Total(l.live, who) -
        (if who.Everyone? || who.pubKeyHash == owner then PicksValue(l.live, owner, picks) else 0)
  {
    var m := SpentOf(Group(picks));
    PicksAreSpendable(l.live, owner, picks);
    InputsForNames(order, Group(picks), pubKey);
    PickInputsName(picks, pubKey);
    RemoveNamed(l, InputsFor(order, Group(picks), pubKey), m, who);
    RemoveNamed(l, PickInputs(picks, pubKey), m, who);
    RemovedUnique(l.live, RemoveInputs(l, InputsFor(order, Group(picks), pubKey)).0.live,
      RemoveInputs(l, PickInputs(picks, pubKey)).0.live, m);
    PickInputsWorth(l.live, owner, picks, pubKey, who);
  }

  /** Every spent output is the owner's. */
  lemma PicksAreSpendable(live: Entries, owner: Bytes, picks: seq<Outpoint>)
    requires OnePerTx(picks) && PicksOk(live, owner, picks) && Singles(Group(picks))
    ensures AllSpendable(live, SpentOf(Group(picks)))
    ensures forall key :: key in Group(picks) ==> live[key][SpentOf(Group(picks))[key]].pubKeyHash == owner
  {
    forall key | key in Group(picks)
      ensures key in live && SpentOf(Group(picks))[key] < |live[key]|
      ensures live[key][SpentOf(Group(picks))[key]].pubKeyHash == owner
    {
      GroupKeys(picks, key);
      var i :| 0 <= i < |picks| && picks[i].0 == key;
      GroupSingle(picks, i);
      assert PickOk(live, owner, picks[i]);
    }
  }
}
