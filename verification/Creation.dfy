/** What CreateTransaction does on any ledger whose entries are prefixes of the recorded outputs, for any request. */
module Creation {
  import opened Prelude
  import opened ByteStrings
  import opened Crypto
  import opened Transactions
  import opened Ledgers
  import opened CoinSelection
  import opened Spending
  import opened Removals
  import opened MultiSpending
  import opened Nodes

  /** ---------- Every pick is a live output ---------- */

  lemma {:induction false} ScanEntryPicksOk(live: Entries, key: Bytes, i: nat, owner: Bytes, amount: int, sel: Selection)
    requires key in live && i <= |live[key]| && PicksOk(live, owner, sel.picks)
    ensures PicksOk(live, owner, ScanEntry(key, live[key], i, owner, amount, sel).picks)
    decreases |live[key]| - i
  {
    if i < |live[key]| {
      if live[key][i].pubKeyHash == owner && sel.accumulated < amount {
        var sel' := Selection(Wrap64(sel.accumulated + live[key][i].value), sel.picks + [(key, i)]);
        assert PickOk(live, owner, (key, i));
        ScanEntryPicksOk(live, key, i + 1, owner, amount, sel');
      } else {
        ScanEntryPicksOk(live, key, i + 1, owner, amount, sel);
      }
    }
  }

  lemma {:induction false} ScanAllPicksOk(live: Entries, order: seq<Bytes>, owner: Bytes, amount: int, sel: Selection)
    requires forall i :: 0 <= i < |order| ==> order[i] in live
    requires PicksOk(live, owner, sel.picks)
    ensures PicksOk(live, owner, ScanAll(live, order, owner, amount, sel).picks)
    decreases |order|
  {
    if order != [] {
      ScanEntryPicksOk(live, order[0], 0, owner, amount, sel);
      ScanAllPicksOk(live, order[1..], owner, amount, ScanEntry(order[0], live[order[0]], 0, owner, amount, sel));
    }
  }

  /** Every input comes from the group. */
  ghost predicate Grouped(inputs: seq<TxInput>, group: map<Bytes, seq<nat>>) {
    forall i :: 0 <= i < |inputs| ==>
      inputs[i].txid.Some? && inputs[i].txid.value in group && inputs[i].outIndex in group[inputs[i].txid.value]
  }

  lemma {:induction false} InputsAreGrouped(order: seq<Bytes>, group: map<Bytes, seq<nat>>, pubKey: Bytes)
    requires forall j :: 0 <= j < |order| ==> order[j] in group
    ensures Grouped(InputsFor(order, group, pubKey), group)
    decreases |order|
  {
    if order != [] {
      InputsAreGrouped(order[1..], group, pubKey);
    }
  }

  lemma PickedInputsAreLive(l: Ledger, owner: Bytes, picks: seq<Outpoint>, inputs: seq<TxInput>)
    requires Aliased(l) && PicksOk(l.live, owner, picks) && Grouped(inputs, Group(picks))
    ensures AllKnown(inputs, l.recorded)
    ensures forall i :: 0 <= i < |inputs| ==> InRange(inputs[i], l.recorded)
  {
    forall i | 0 <= i < |inputs| ensures InRange(inputs[i], l.recorded) {
      var key, k := inputs[i].txid.value, inputs[i].outIndex;
      assert k in Group(picks)[key];
      GroupMember(picks, key, k);
      var m :| 0 <= m < |picks| && picks[m] == (key, k);
      assert PickOk(l.live, owner, picks[m]);
    }
  }

  /** CreateTransaction never panics, whatever the amount, the recipient and the wallet; and it fails only for an
      address that does not decode or a selection that falls short. */
  lemma CreatedSpec(env: Env, l: Ledger, from: Bytes, to: Bytes, amount: int, w: Wallet, c: Choice)
    requires Aliased(l) && ChoiceFits(env, l, from, amount, c)
    ensures !Created(env, l, from, to, amount, w, c).Panic?
    ensures Created(env, l, from, to, amount, w, c).Ok? <==>
      env.decodeAddress(from).Some? && env.decodeAddress(to).Some? &&
      Select(l.live, c.entries, env.decodeAddress(from).value, amount).accumulated >= amount
  {
    if env.decodeAddress(from).Some? && env.decodeAddress(to).Some? {
      var owner := env.decodeAddress(from).value;
      var sel := Select(l.live, c.entries, owner, amount);
      if sel.accumulated >= amount {
        var inputs := InputsFor(c.picked, Group(sel.picks), w.publicKey);
        ScanAllPicksOk(l.live, c.entries, owner, amount, NOTHING);
        InputsAreGrouped(c.picked, Group(sel.picks), w.publicKey);
        PickedInputsAreLive(l, owner, sel.picks, inputs);
        SignsAll(env, w, l.recorded, inputs, NewOutputs(env.decodeAddress(to).value, owner, amount, sel.accumulated), c.tape);
      }
    }
  }

  lemma SignsAll(env: Env, w: Wallet, recorded: Prev, inputs: seq<TxInput>, outputs: seq<TxOutput>, tape: nat)
    requires AllKnown(inputs, recorded) && forall i :: 0 <= i < |inputs| ==> InRange(inputs[i], recorded)
    ensures Unsubmitted(env, w, recorded, inputs, outputs, tape).Ok?
  {
    SignFromSpec(env, w, inputs, outputs, recorded, tape, 0);
  }

  /** ---------- What is created ---------- */

  /** The recipient's output comes first, with the amount; a second one, to the payer, holds the difference if and only if
      the selection exceeds the amount. The ID is the hash of the transaction without signatures. */
  lemma CreatedOutputs(env: Env, l: Ledger, from: Bytes, to: Bytes, amount: int, w: Wallet, c: Choice)
    requires ChoiceFits(env, l, from, amount, c) && Created(env, l, from, to, amount, w, c).Ok?
    ensures env.decodeAddress(from).Some? && env.decodeAddress(to).Some?
    ensures var t := Created(env, l, from, to, amount, w, c).value;
      var sum := Select(l.live, c.entries, env.decodeAddress(from).value, amount).accumulated;
      1 <= |t.outputs| <= 2 && t.outputs[0] == TxOutput(amount, env.decodeAddress(to).value) &&
      (|t.outputs| == 2 <==> sum > amount) &&
      (|t.outputs| == 2 ==> t.outputs[1].pubKeyHash == env.decodeAddress(from).value && t.outputs[1].value == Wrap64(sum - amount)) &&
      (|t.outputs| == 2 && 0 <= amount <= sum <= MAX_INT64 ==> t.outputs[1].value == sum - amount)
    ensures var t := Created(env, l, from, to, amount, w, c).value;
      t.id == env.txHash(TxBody(seq(|t.inputs|, k requires 0 <= k < |t.inputs| =>
        TxInput(t.inputs[k].txid, t.inputs[k].outIndex, [], t.inputs[k].pubKey)), t.outputs))
  {
    var owner := env.decodeAddress(from).value;
    var sel := Select(l.live, c.entries, owner, amount);
    var inputs := InputsFor(c.picked, Group(sel.picks), w.publicKey);
    var outputs := NewOutputs(env.decodeAddress(to).value, owner, amount, sel.accumulated);
    var t := Created(env, l, from, to, amount, w, c).value;
    SigningKeepsBody(env, w, inputs, outputs, l.recorded, c.tape);
    InputsUnsigned(c.picked, Group(sel.picks), w.publicKey);
    assert Unsigned(t.inputs) == inputs;
    assert seq(|t.inputs|, k requires 0 <= k < |t.inputs| =>
      TxInput(t.inputs[k].txid, t.inputs[k].outIndex, [], t.inputs[k].pubKey)) == Unsigned(t.inputs);
  }

  lemma {:induction false} InputsUnsigned(order: seq<Bytes>, group: map<Bytes, seq<nat>>, pubKey: Bytes)
    requires forall j :: 0 <= j < |order| ==> order[j] in group
    ensures Unsigned(InputsFor(order, group, pubKey)) == InputsFor(order, group, pubKey)
    ensures forall i :: 0 <= i < |InputsFor(order, group, pubKey)| ==> InputsFor(order, group, pubKey)[i].pubKey == pubKey
    decreases |order|
  {
    if order != [] {
      InputsUnsigned(order[1..], group, pubKey);
      var a, b := InputsOf(order[0], group[order[0]], pubKey), InputsFor(order[1..], group, pubKey);
      assert Unsigned(a + b) == Unsigned(a) + Unsigned(b);
      assert Unsigned(a) == a;
    }
  }

  /** The indices picked of one transaction, in the order they were picked. */
  function PickedOf(picks: seq<Outpoint>, key: Bytes): seq<nat> {
    if picks == [] then []
    else PickedOf(picks[..|picks| - 1], key) + if picks[|picks| - 1].0 == key then [picks[|picks| - 1].1] else []
  }

  lemma {:induction false} GroupIsPicked(picks: seq<Outpoint>, key: Bytes)
    ensures PickedOf(picks, key) == if key in Group(picks) then Group(picks)[key] else []
    decreases |picks|
  {
    if picks != [] {
      GroupIsPicked(picks[..|picks| - 1], key);
    }
  }

  /** The inputs that name a transaction carry exactly the indices picked of it, in that order, and all carry the wallet's key. */
  lemma CreatedInputs(env: Env, l: Ledger, from: Bytes, to: Bytes, amount: int, w: Wallet, c: Choice)
    requires ChoiceFits(env, l, from, amount, c) && Created(env, l, from, to, amount, w, c).Ok?
    ensures env.decodeAddress(from).Some?
    ensures var t := Created(env, l, from, to, amount, w, c).value;
      forall key :: Indices(t.inputs, key) == PickedOf(Select(l.live, c.entries, env.decodeAddress(from).value, amount).picks, key)
    ensures forall i :: 0 <= i < |Created(env, l, from, to, amount, w, c).value.inputs| ==>
      Created(env, l, from, to, amount, w, c).value.inputs[i].pubKey == w.publicKey
  {
    var owner := env.decodeAddress(from).value;
    var sel := Select(l.live, c.entries, owner, amount);
    var inputs := InputsFor(c.picked, Group(sel.picks), w.publicKey);
    var outputs := NewOutputs(env.decodeAddress(to).value, owner, amount, sel.accumulated);
    var t := Created(env, l, from, to, amount, w, c).value;
    SigningKeepsBody(env, w, inputs, outputs, l.recorded, c.tape);
    InputsUnsigned(c.picked, Group(sel.picks), w.publicKey);
    forall i | 0 <= i < |t.inputs|
      ensures t.inputs[i].txid == inputs[i].txid && t.inputs[i].outIndex == inputs[i].outIndex && t.inputs[i].pubKey == w.publicKey
    {
      assert Unsigned(t.inputs)[i] == Unsigned(inputs)[i];
    }
    forall key ensures Indices(t.inputs, key) == PickedOf(sel.picks, key) {
      SameIndices(t.inputs, inputs, key);
      IndicesOfPayment(c.picked, Group(sel.picks), w.publicKey, key);
      GroupIsPicked(sel.picks, key);
    }
  }

  lemma {:induction false} SameIndices(a: seq<TxInput>, b: seq<TxInput>, key: Bytes)
    requires |a| == |b| && forall i :: 0 <= i < |a| ==> a[i].txid == b[i].txid && a[i].outIndex == b[i].outIndex
    ensures Indices(a, key) == Indices(b, key)
    decreases |a|
  {
    if a != [] {
      SameIndices(a[1..], b[1..], key);
    }
  }

  /** ---------- A negative amount ---------- */

  /** For a negative amount CreateTransaction returns a transaction without inputs, which gives the recipient the negative
      amount and the payer its opposite. */
  lemma NegativeCreated(env: Env, l: Ledger, from: Bytes, to: Bytes, amount: int, w: Wallet, c: Choice)
    requires ChoiceFits(env, l, from, amount, c) && amount < 0
    requires env.decodeAddress(from).Some? && env.decodeAddress(to).Some?
    ensures Created(env, l, from, to, amount, w, c).Ok?
    ensures Created(env, l, from, to, amount, w, c).value.inputs == []
    ensures Created(env, l, from, to, amount, w, c).value.outputs ==
      [TxOutput(amount, env.decodeAddress(to).value), TxOutput(Wrap64(-amount), env.decodeAddress(from).value)]
  {
    var owner := env.decodeAddress(from).value;
    NonPositiveSelectsNothing(l.live, c.entries, owner, amount);
    assert Group(NOTHING.picks) == map[];
    EmptyMapOrder(c.picked, Group(NOTHING.picks));
  }

  lemma EmptyMapOrder<V>(order: seq<Bytes>, m: map<Bytes, V>)
    requires Enumerates(order, m)
    ensures m == map[] ==> order == []
  {
    if order != [] {
      assert order[0] in m;
    }
  }

  /** A transaction without inputs verifies and applies on every ledger, without anybody's signature. */
  lemma NoInputsGoThrough(env: Env, l: Ledger, t: TxV)
    requires t.inputs == []
    ensures Verified(env, t.inputs, t.outputs, l.recorded) == Ok(true)
    ensures Update(l, t) == (Add(l, t.id, t.outputs), true)
  {
  }

  /** So it takes money from the recipient: this is why the theorems about money ask for a positive amount. */
  lemma NegativeAmountTakes(env: Env, l: Ledger, from: Bytes, to: Bytes, amount: int, w: Wallet, c: Choice)
    requires ChoiceFits(env, l, from, amount, c) && -MAX_INT64 <= amount < 0
    requires env.decodeAddress(from).Some? && env.decodeAddress(to).Some? && env.decodeAddress(from) != env.decodeAddress(to)
    requires Created(env, l, from, to, amount, w, c).Ok? ==> Created(env, l, from, to, amount, w, c).value.id !in l.live
    ensures Created(env, l, from, to, amount, w, c).Ok?
    ensures var t := Created(env, l, from, to, amount, w, c).value;
      Verified(env, t.inputs, t.outputs, l.recorded) == Ok(true) && Update(l, t).1 &&
      Total(Update(l, t).0.live, Owner(env.decodeAddress(to).value)) == Total(l.live, Owner(env.decodeAddress(to).value)) + amount &&
      Total(Update(l, t).0.live, Owner(env.decodeAddress(from).value)) == Total(l.live, Owner(env.decodeAddress(from).value)) - amount
  {
    NegativeCreated(env, l, from, to, amount, w, c);
    var t := Created(env, l, from, to, amount, w, c).value;
    NoInputsGoThrough(env, l, t);
    assert Wrap64(-amount) == -amount;
    PairTotals(l, t.id, t.outputs[0], t.outputs[1]);
    assert t.outputs == [t.outputs[0], t.outputs[1]];
  }

  lemma PairTotals(l: Ledger, id: Bytes, a: TxOutput, b: TxOutput)
    requires id !in l.live && a.pubKeyHash != b.pubKeyHash
    ensures Total(Add(l, id, [a, b]).live, Owner(a.pubKeyHash)) == Total(l.live, Owner(a.pubKeyHash)) + a.value
    ensures Total(Add(l, id, [a, b]).live, Owner(b.pubKeyHash)) == Total(l.live, Owner(b.pubKeyHash)) + b.value
  {
    TotalInsert(l.live, id, [a, b], Owner(a.pubKeyHash));
    TotalInsert(l.live, id, [a, b], Owner(b.pubKeyHash));
    PairSum(a, b, Owner(a.pubKeyHash));
    PairSum(a, b, Owner(b.pubKeyHash));
  }

  lemma PairSum(a: TxOutput, b: TxOutput, who: Who)
    ensures Sum([a, b], who) == Worth(a, who) + Worth(b, who)
  {
    assert [a, b] == [a] + [b];
    SumConcat([a], [b], who);
    SumOne(a, who);
    SumOne(b, who);
  }
}
