/** The unspent outputs as the code keeps them: per transaction, a compacting list that is a
    prefix of the same backing array as the recorded transaction's own outputs. */
module Ledgers {
  import opened ByteStrings
  import opened Crypto
  import opened Transactions

  /** `live[T]` is the UTXO entry of T; `recorded[T]` is the whole backing array, that is, what
      `FindTransaction(T).Outputs` holds now. */
  datatype Ledger = Ledger(live: map<Bytes, seq<TxOutput>>, recorded: map<Bytes, seq<TxOutput>>)

  const EMPTY: Ledger := Ledger(map[], map[])

  function RemoveAt<T>(s: seq<T>, k: nat): (r: seq<T>)
    requires k < |s|
    ensures |r| == |s| - 1
  {
    s[..k] + s[k + 1..]
  }

  /** The backing array after `append(s[:k], s[k+1:]...)` on its live prefix of length n: everything behind k
      moves down by one and the last live cell keeps a stale copy. */
  function Spliced<T>(cells: seq<T>, n: nat, k: nat): (r: seq<T>)
    requires k < n <= |cells|
    ensures |r| == |cells|
    ensures r[..n - 1] == RemoveAt(cells[..n], k)
  {
    cells[..k] + cells[k + 1..n] + cells[n - 1..]
  }

  predicate Spendable(l: Ledger, key: Bytes, k: int) {
    key in l.live && 0 <= k < |l.live[key]|
  }

  function Remove(l: Ledger, key: Bytes, k: nat): Ledger
    requires Spendable(l, key, k)
  {
    Ledger(
      if |l.live[key]| == 1 then l.live - {key} else l.live[key := RemoveAt(l.live[key], k)],
      if key in l.recorded && |l.live[key]| <= |l.recorded[key]|
      then l.recorded[key := Spliced(l.recorded[key], |l.live[key]|, k)] else l.recorded)
  }

  function Add(l: Ledger, id: Bytes, outputs: seq<TxOutput>): Ledger {
    Ledger(l.live[id := outputs], l.recorded[id := outputs])
  }

  /** Remove the inputs in order, up to the first that can not be spent. */
  function RemoveInputs(l: Ledger, inputs: seq<TxInput>): (Ledger, bool)
    decreases |inputs|
  {
    if inputs == [] then (l, true)
    else if !Spendable(l, Key(inputs[0].txid), inputs[0].outIndex) then (l, false)
    else RemoveInputs(Remove(l, Key(inputs[0].txid), inputs[0].outIndex), inputs[1..])
  }

  /** Removal looks at transaction IDs and indices only. */
  lemma {:induction false} SignaturesDoNotMatter(l: Ledger, a: seq<TxInput>, b: seq<TxInput>)
    requires |a| == |b| && forall j :: 0 <= j < |a| ==> a[j].txid == b[j].txid && a[j].outIndex == b[j].outIndex
    ensures RemoveInputs(l, a) == RemoveInputs(l, b)
    decreases |a|
  {
    if a != [] && Spendable(l, Key(a[0].txid), a[0].outIndex) {
      SignaturesDoNotMatter(Remove(l, Key(a[0].txid), a[0].outIndex), a[1..], b[1..]);
    }
  }

  /** UTXOSet.Update; on failure the inputs before the failing one stay removed. */
  function Update(l: Ledger, t: TxV): (Ledger, bool) {
    if IsCoinbase(t.inputs) then (Add(l, t.id, t.outputs), true)
    else
      var (l', ok) := RemoveInputs(l, t.inputs);
      (if ok then Add(l', t.id, t.outputs) else l', ok)
  }

  /** Update with all transactions of a block, up to the first failure. */
  function UpdateAll(l: Ledger, txs: seq<TxV>): (Ledger, bool)
    decreases |txs|
  {
    if txs == [] then (l, true)
    else
      var (l', ok) := UpdateAll(l, txs[..|txs| - 1]);
      if ok then Update(l', txs[|txs| - 1]) else (l', false)
  }

  /** Rebuilding from the chain: errors are ignored and the replay goes on. */
  function Replay(l: Ledger, txs: seq<TxV>): Ledger
    decreases |txs|
  {
    if txs == [] then l else Update(Replay(l, txs[..|txs| - 1]), txs[|txs| - 1]).0
  }

  lemma {:induction false} ReplayConcat(l: Ledger, a: seq<TxV>, b: seq<TxV>)
    ensures Replay(l, a + b) == Replay(Replay(l, a), b)
    decreases |b|
  {
    if b == [] {
      assert a + b == a;
    } else {
      var b' := b[..|b| - 1];
      assert (a + b)[..|a + b| - 1] == a + b';
      ReplayConcat(l, a, b');
    }
  }

  /** Without failures, replaying is what adding the block did. */
  lemma {:induction false} ReplayIsUpdateAll(l: Ledger, txs: seq<TxV>)
    requires UpdateAll(l, txs).1
    ensures Replay(l, txs) == UpdateAll(l, txs).0
    decreases |txs|
  {
    if txs != [] {
      ReplayIsUpdateAll(l, txs[..|txs| - 1]);
    }
  }

  /** ---------- The aliasing invariant ---------- */

  /** Every live entry is a prefix of the recorded transaction's outputs. */
  predicate Aliased(l: Ledger) {
    forall key :: key in l.live ==> key in l.recorded && l.live[key] <= l.recorded[key]
  }

  lemma RemoveKeepsAliased(l: Ledger, key: Bytes, k: nat)
    requires Aliased(l) && Spendable(l, key, k)
    ensures Aliased(Remove(l, key, k))
  {
    var n := |l.live[key]|;
    assert l.live[key] == l.recorded[key][..n];
  }

  lemma {:induction false} RemoveInputsKeepsAliased(l: Ledger, inputs: seq<TxInput>)
    requires Aliased(l)
    ensures Aliased(RemoveInputs(l, inputs).0)
    decreases |inputs|
  {
    if inputs != [] && Spendable(l, Key(inputs[0].txid), inputs[0].outIndex) {
      RemoveKeepsAliased(l, Key(inputs[0].txid), inputs[0].outIndex);
      RemoveInputsKeepsAliased(Remove(l, Key(inputs[0].txid), inputs[0].outIndex), inputs[1..]);
    }
  }

  lemma UpdateKeepsAliased(l: Ledger, t: TxV)
    requires Aliased(l)
    ensures Aliased(Update(l, t).0)
  {
    RemoveInputsKeepsAliased(l, t.inputs);
  }

  /** ---------- Sums ---------- */

  datatype Who = Everyone | Owner(pubKeyHash: Bytes)

  function Worth(o: TxOutput, who: Who): int {
    if who.Everyone? || o.pubKeyHash == who.pubKeyHash then o.value else 0
  }

  function Sum(outputs: seq<TxOutput>, who: Who): int {
    if outputs == [] then 0 else Sum(outputs[..|outputs| - 1], who) + Worth(outputs[|outputs| - 1], who)
  }

  lemma SumOne(o: TxOutput, who: Who)
    ensures Sum([o], who) == Worth(o, who)
  {
    assert [o][..0] == [];
  }

  lemma {:induction false} SumConcat(a: seq<TxOutput>, b: seq<TxOutput>, who: Who)
    ensures Sum(a + b, who) == Sum(a, who) + Sum(b, who)
    decreases |b|
  {
    if b == [] {
      assert a + b == a;
    } else {
      assert (a + b)[..|a + b| - 1] == a + b[..|b| - 1];
      SumConcat(a, b[..|b| - 1], who);
    }
  }

  lemma SumRemoveAt(s: seq<TxOutput>, k: nat, who: Who)
    requires k < |s|
    ensures Sum(RemoveAt(s, k), who) == Sum(s, who) - Worth(s[k], who)
  {
    SumConcat(s[..k], s[k + 1..], who);
    SumConcat(s[..k + 1], s[k + 1..], who);
    assert s == s[..k + 1] + s[k + 1..];
    assert s[..k + 1][..k] == s[..k];
  }

  /** The sum over all entries. */
  ghost function Total(live: map<Bytes, seq<TxOutput>>, who: Who): int
    decreases |live|
  {
    if live == map[] then 0
    else
      var key :| key in live;
      Sum(live[key], who) + Total(live - {key}, who)
  }

  /** Any entry may be split off first. */
  lemma {:induction false} TotalSplit(live: map<Bytes, seq<TxOutput>>, key: Bytes, who: Who)
    requires key in live
    ensures Total(live, who) == Sum(live[key], who) + Total(live - {key}, who)
    decreases |live|
  {
    var first :| first in live && Total(live, who) == Sum(live[first], who) + Total(live - {first}, who);
    if first != key {
      TotalSplit(live - {first}, key, who);
      TotalSplit(live - {key}, first, who);
      assert live - {first} - {key} == live - {key} - {first};
    }
  }

  lemma TotalInsert(live: map<Bytes, seq<TxOutput>>, key: Bytes, outputs: seq<TxOutput>, who: Who)
    ensures Total(live[key := outputs], who) ==
      Total(live, who) - (if key in live then Sum(live[key], who) else 0) + Sum(outputs, who)
  {
    TotalSplit(live[key := outputs], key, who);
    assert live[key := outputs] - {key} == live - {key};
    if key in live {
      TotalSplit(live, key, who);
    } else {
      assert live - {key} == live;
    }
  }

  /** Spending an output takes exactly its worth out of the total. */
  lemma TotalRemove(l: Ledger, key: Bytes, k: nat, who: Who)
    requires Spendable(l, key, k)
    ensures Total(Remove(l, key, k).live, who) == Total(l.live, who) - Worth(l.live[key][k], who)
  {
    var outputs := l.live[key];
    SumRemoveAt(outputs, k, who);
    if |outputs| == 1 {
      TotalSplit(l.live, key, who);
      assert RemoveAt(outputs, k) == [];
    } else {
      TotalInsert(l.live, key, RemoveAt(outputs, k), who);
    }
  }

  predicate NonNegative(live: map<Bytes, seq<TxOutput>>) {
    forall key, i :: key in live && 0 <= i < |live[key]| ==> live[key][i].value >= 0
  }

  lemma {:induction false} SumBounds(outputs: seq<TxOutput>, who: Who)
    requires forall i :: 0 <= i < |outputs| ==> outputs[i].value >= 0
    ensures 0 <= Sum(outputs, who) <= Sum(outputs, Everyone)
  {
    if outputs != [] {
      SumBounds(outputs[..|outputs| - 1], who);
    }
  }

  /** With non-negative values no one owns more than there is. */
  lemma {:induction false} TotalBounds(live: map<Bytes, seq<TxOutput>>, who: Who)
    requires NonNegative(live)
    ensures 0 <= Total(live, who) <= Total(live, Everyone)
    decreases |live|
  {
    if live != map[] {
      var key :| key in live;
      TotalSplit(live, key, who);
      TotalSplit(live, key, Everyone);
      SumBounds(live[key], who);
      TotalBounds(live - {key}, who);
    }
  }
}
