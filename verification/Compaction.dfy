/** What the compacting lists stand for: a set of original outpoints. */
module Compaction {
  import opened ByteStrings
  import opened Crypto
  import opened Transactions
  import opened Ledgers

  /** The original indices behind a live entry, in order. */
  predicate Increasing(rem: seq<nat>) {
    forall i, j :: 0 <= i < j < |rem| ==> rem[i] < rem[j]
  }

  predicate StandsFor(entry: seq<TxOutput>, original: seq<TxOutput>, rem: seq<nat>) {
    && Increasing(rem)
    && |entry| == |rem|
    && forall j :: 0 <= j < |rem| ==> rem[j] < |original| && entry[j] == original[rem[j]]
  }

  function Identity(n: nat): (r: seq<nat>)
    ensures |r| == n && forall i :: 0 <= i < n ==> r[i] == i
  {
    seq(n, i => i)
  }

  /** Membership in the abstract set of unspent original outpoints. */
  predicate Unspent(rems: map<Bytes, seq<nat>>, key: Bytes, i: nat) {
    key in rems && i in rems[key]
  }

  /** The ledger, transaction by transaction, stands for the surviving original outputs. */
  predicate Represents(l: Ledger, originals: map<Bytes, seq<TxOutput>>, rems: map<Bytes, seq<nat>>) {
    && l.live.Keys == rems.Keys
    && forall key :: key in l.live ==> key in originals && StandsFor(l.live[key], originals[key], rems[key])
  }

  function RemoveRem(rems: map<Bytes, seq<nat>>, key: Bytes, k: nat): map<Bytes, seq<nat>>
    requires key in rems && k < |rems[key]|
  {
    if |rems[key]| == 1 then rems - {key} else rems[key := RemoveAt(rems[key], k)]
  }

  /** Spending (T, k) takes out the k-th surviving original output of T and nothing else,
      and leaves the order of the others. */
  lemma RemoveRefines(l: Ledger, originals: map<Bytes, seq<TxOutput>>, rems: map<Bytes, seq<nat>>, key: Bytes, k: nat)
    requires Represents(l, originals, rems) && Spendable(l, key, k)
    ensures Represents(Remove(l, key, k), originals, RemoveRem(rems, key, k))
    ensures Unspent(rems, key, rems[key][k]) && l.live[key][k] == originals[key][rems[key][k]]
    ensures forall other, i: nat :: Unspent(RemoveRem(rems, key, k), other, i) <==>
      Unspent(rems, other, i) && (other, i) != (key, rems[key][k])
  {
    RemoveStandsFor(l.live[key], originals[key], rems[key], k);
    forall i: nat ensures i in RemoveAt(rems[key], k) <==> i in rems[key] && i != rems[key][k] {
      MembersAfterRemove(rems[key], k, i);
    }
    var l', rems' := Remove(l, key, k), RemoveRem(rems, key, k);
    assert l'.live.Keys == rems'.Keys;
    forall other | other in l'.live ensures other in originals && StandsFor(l'.live[other], originals[other], rems'[other]) {
      if other == key {
        assert l'.live[key] == RemoveAt(l.live[key], k) && rems'[key] == RemoveAt(rems[key], k);
      } else {
        assert l'.live[other] == l.live[other] && rems'[other] == rems[other];
      }
    }
  }

  lemma MembersAfterRemove(rem: seq<nat>, k: nat, x: nat)
    requires Increasing(rem) && k < |rem|
    ensures x in RemoveAt(rem, k) <==> x in rem && x != rem[k]
  {
    assert rem == rem[..k] + [rem[k]] + rem[k + 1..];
  }

  lemma RemoveStandsFor(entry: seq<TxOutput>, original: seq<TxOutput>, rem: seq<nat>, k: nat)
    requires StandsFor(entry, original, rem) && k < |rem|
    ensures StandsFor(RemoveAt(entry, k), original, RemoveAt(rem, k))
  {
  }

  /** A newly added transaction has all its outputs unspent. */
  lemma AddRefines(l: Ledger, originals: map<Bytes, seq<TxOutput>>, rems: map<Bytes, seq<nat>>, id: Bytes, outputs: seq<TxOutput>)
    requires Represents(l, originals, rems) && id !in rems
    ensures Represents(Add(l, id, outputs), originals[id := outputs], rems[id := Identity(|outputs|)])
    ensures forall other, i: nat :: Unspent(rems[id := Identity(|outputs|)], other, i) <==>
      Unspent(rems, other, i) || (other == id && i < |outputs|)
  {
    var rems' := rems[id := Identity(|outputs|)];
    forall other, i: nat
      ensures Unspent(rems', other, i) <==> Unspent(rems, other, i) || (other == id && i < |outputs|)
    {
      if other == id && i < |outputs| { assert rems'[id][i] == i; }
    }
  }

  /** ---------- Whole histories ---------- */

  /** The outputs of every transaction as it was created. */
  function Originals(txs: seq<TxV>): map<Bytes, seq<TxOutput>> {
    if txs == [] then map[] else Originals(txs[..|txs| - 1])[txs[|txs| - 1].id := txs[|txs| - 1].outputs]
  }

  /** ---------- The same operations on surviving original indices ---------- */

  function SpendInputs(rems: map<Bytes, seq<nat>>, inputs: seq<TxInput>): (map<Bytes, seq<nat>>, bool)
    decreases |inputs|
  {
    if inputs == [] then (rems, true)
    else
      var key, k := Key(inputs[0].txid), inputs[0].outIndex;
      if key in rems && 0 <= k < |rems[key]| then SpendInputs(RemoveRem(rems, key, k), inputs[1..]) else (rems, false)
  }

  function Spend(rems: map<Bytes, seq<nat>>, t: TxV): map<Bytes, seq<nat>> {
    var (rems', ok) := if IsCoinbase(t.inputs) then (rems, true) else SpendInputs(rems, t.inputs);
    if ok then rems'[t.id := Identity(|t.outputs|)] else rems'
  }

  /** What is unspent after the transactions. */
  function Survivors(txs: seq<TxV>): map<Bytes, seq<nat>> {
    if txs == [] then map[] else Spend(Survivors(txs[..|txs| - 1]), txs[|txs| - 1])
  }

  ghost predicate FewerUnspent(rems': map<Bytes, seq<nat>>, rems: map<Bytes, seq<nat>>) {
    forall key, i: nat :: Unspent(rems', key, i) ==> Unspent(rems, key, i)
  }

  /** Removing inputs, in part or in full, only takes outputs away. */
  lemma {:induction false} RemoveInputsRefines(l: Ledger, originals: map<Bytes, seq<TxOutput>>, rems: map<Bytes, seq<nat>>, inputs: seq<TxInput>)
    requires Represents(l, originals, rems)
    ensures var (rems', ok) := SpendInputs(rems, inputs);
      Represents(RemoveInputs(l, inputs).0, originals, rems') && RemoveInputs(l, inputs).1 == ok &&
      FewerUnspent(rems', rems) && rems'.Keys <= rems.Keys
    decreases |inputs|
  {
    if inputs != [] && Spendable(l, Key(inputs[0].txid), inputs[0].outIndex) {
      var key, k := Key(inputs[0].txid), inputs[0].outIndex;
      RemoveRefines(l, originals, rems, key, k);
      RemoveInputsRefines(Remove(l, key, k), originals, RemoveRem(rems, key, k), inputs[1..]);
    }
  }

  lemma UpdateRefines(l: Ledger, originals: map<Bytes, seq<TxOutput>>, rems: map<Bytes, seq<nat>>, t: TxV)
    requires Represents(l, originals, rems) && rems.Keys <= originals.Keys && t.id !in originals
    ensures Represents(Update(l, t).0, originals[t.id := t.outputs], Spend(rems, t)) && Spend(rems, t).Keys <= rems.Keys + {t.id}
    ensures forall key, i: nat :: key != t.id && Unspent(Spend(rems, t), key, i) ==> Unspent(rems, key, i)
  {
    var l', rems', ok := l, rems, true;
    if !IsCoinbase(t.inputs) {
      RemoveInputsRefines(l, originals, rems, t.inputs);
      l', ok := RemoveInputs(l, t.inputs).0, RemoveInputs(l, t.inputs).1;
      rems' := SpendInputs(rems, t.inputs).0;
    }
    if ok {
      AddRefines(l', originals, rems', t.id, t.outputs);
    }
  }

  predicate PairwiseDistinct(txs: seq<TxV>) {
    forall i, j :: 0 <= i < j < |txs| ==> txs[i].id != txs[j].id
  }

  lemma {:induction false} OriginalsKeys(txs: seq<TxV>, id: Bytes)
    requires forall i :: 0 <= i < |txs| ==> txs[i].id != id
    ensures id !in Originals(txs)
    decreases |txs|
  {
    if txs != [] {
      OriginalsKeys(txs[..|txs| - 1], id);
    }
  }

  /** Over any history of transactions with distinct IDs, failed updates included, every entry is at all times
      the list of surviving original outputs of its transaction, in their original order. */
  lemma {:induction false} ReplayRefines(txs: seq<TxV>)
    requires PairwiseDistinct(txs)
    ensures Represents(Replay(EMPTY, txs), Originals(txs), Survivors(txs)) && Survivors(txs).Keys <= Originals(txs).Keys
    decreases |txs|
  {
    if txs != [] {
      var init, t := txs[..|txs| - 1], txs[|txs| - 1];
      ReplayRefines(init);
      OriginalsKeys(init, t.id);
      UpdateRefines(Replay(EMPTY, init), Originals(init), Survivors(init), t);
    }
  }

  /** No double spending: an original output that has been spent never comes back. */
  lemma {:induction false} SpentStaysSpent(txs: seq<TxV>, m: nat, key: Bytes, i: nat)
    requires PairwiseDistinct(txs) && m <= |txs| && key in Originals(txs[..m])
    requires Unspent(Survivors(txs), key, i)
    ensures Unspent(Survivors(txs[..m]), key, i) && key in Originals(txs)
    decreases |txs|
  {
    if m < |txs| {
      var init, t := txs[..|txs| - 1], txs[|txs| - 1];
      assert init[..m] == txs[..m];
      ReplayRefines(init);
      OriginalsKeys(init, t.id);
      UpdateRefines(Replay(EMPTY, init), Originals(init), Survivors(init), t);
      OriginalsGrow(init, m, key);
      SpentStaysSpent(init, m, key, i);
    } else {
      assert txs[..m] == txs;
    }
  }

  lemma {:induction false} OriginalsGrow(txs: seq<TxV>, m: nat, key: Bytes)
    requires m <= |txs| && key in Originals(txs[..m])
    ensures key in Originals(txs)
    decreases |txs|
  {
    if m < |txs| {
      assert txs[..|txs| - 1][..m] == txs[..m];
      OriginalsGrow(txs[..|txs| - 1], m, key);
    } else {
      assert txs[..m] == txs;
    }
  }

  /** The current index of an output is its original one exactly when no earlier output
      of the same transaction has been spent. */
  lemma IndexUnshifted(rem: seq<nat>, k: nat)
    requires Increasing(rem) && k < |rem|
    ensures rem[k] >= k
    ensures rem[k] == k <==> forall i: nat :: i < rem[k] ==> i in rem
  {
    IndexGrows(rem, k);
    if rem[k] == k {
      FirstIndices(rem, k);
      forall i: nat | i < rem[k] ensures i in rem { assert rem[i] == i; }
    }
    if forall i: nat :: i < rem[k] ==> i in rem {
      NoGaps(rem, k, k);
    }
  }

  lemma {:induction false} IndexGrows(rem: seq<nat>, k: nat)
    requires Increasing(rem) && k < |rem|
    ensures rem[k] >= k
  {
    if k > 0 {
      IndexGrows(rem, k - 1);
    }
  }

  lemma {:induction false} FirstIndices(rem: seq<nat>, k: nat)
    requires Increasing(rem) && k < |rem| && rem[k] == k
    ensures forall i :: 0 <= i <= k ==> rem[i] == i
  {
    if k > 0 {
      IndexGrows(rem, k - 1);
      assert rem[k - 1] < rem[k];
      FirstIndices(rem, k - 1);
    }
  }

  /** If nothing below rem[k] is gone, nothing has moved up to position k. */
  lemma {:induction false} NoGaps(rem: seq<nat>, k: nat, j: nat)
    requires Increasing(rem) && j <= k < |rem| && rem[k] >= k
    requires forall i: nat :: i < rem[k] ==> i in rem
    ensures rem[j] == j
  {
    if j > 0 {
      NoGaps(rem, k, j - 1);
    }
    if j < rem[k] {
      assert j in rem;
      var m :| 0 <= m < |rem| && rem[m] == j;
      assert m >= j;
    }
  }
}
