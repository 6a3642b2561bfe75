/** The removal loop on any inputs: transaction by transaction it takes a list of positions out of a list. */
module Removals {
  import opened ByteStrings
  import opened Crypto
  import opened Transactions
  import opened Ledgers
  import opened Compaction

  /** ---------- Positions taken out of a list, one after the other ---------- */

  /** In a list of n elements that loses one with every removal, each position is still there when its turn comes. */
  predicate Reaches(n: int, ks: seq<int>) {
    forall m :: 0 <= m < |ks| ==> 0 <= ks[m] && ks[m] + m < n
  }

  lemma ReachesTail(n: int, ks: seq<int>)
    requires ks != []
    ensures Reaches(n, ks) <==> 0 <= ks[0] < n && Reaches(n - 1, ks[1..])
  {
    if 0 <= ks[0] < n && Reaches(n - 1, ks[1..]) {
      forall m | 0 <= m < |ks| ensures 0 <= ks[m] && ks[m] + m < n {
        assert m > 0 ==> ks[1..][m - 1] == ks[m];
      }
    }
    if Reaches(n, ks) {
      forall m | 0 <= m < |ks[1..]| ensures 0 <= ks[1..][m] && ks[1..][m] + m < n - 1 {
        assert ks[1..][m] == ks[m + 1];
      }
    }
  }

  /** What is left, in order. */
  function TakeAll<T>(s: seq<T>, ks: seq<int>): (r: seq<T>)
    requires Reaches(|s|, ks)
    ensures |r| == |s| - |ks|
    decreases |ks|
  {
    if ks == [] then s
    else
      ReachesTail(|s|, ks);
      TakeAll(RemoveAt(s, ks[0]), ks[1..])
  }

  /** The backing array after as many splices; n is the length of the list it holds. */
  function SpliceAll<T>(cells: seq<T>, n: nat, ks: seq<int>): (r: seq<T>)
    requires Reaches(n, ks) && n <= |cells|
    ensures |r| == |cells|
    decreases |ks|
  {
    if ks == [] then cells
    else
      ReachesTail(n, ks);
      SpliceAll(Spliced(cells, n, ks[0]), n - 1, ks[1..])
  }

  /** The cells behind the list are not touched. */
  lemma {:induction false} SpliceAllKeepsRest<T>(cells: seq<T>, n: nat, ks: seq<int>, p: nat)
    requires Reaches(n, ks) && n <= p < |cells|
    ensures SpliceAll(cells, n, ks)[p] == cells[p]
    decreases |ks|
  {
    if ks != [] {
      ReachesTail(n, ks);
      SpliceAllKeepsRest(Spliced(cells, n, ks[0]), n - 1, ks[1..], p);
    }
  }

  lemma ReachesFront(n: int, ks: seq<int>, m: nat)
    requires Reaches(n, ks) && m <= |ks|
    ensures Reaches(n, ks[..m])
  {
  }

  /** What cell p of the list shows after the splices: the p-th element left, or, behind these, the stale copy of
      what was last in the list when it still had p + 1 elements. */
  function Shown<T>(s: seq<T>, ks: seq<int>, p: nat): T
    requires Reaches(|s|, ks) && p < |s|
  {
    if p < |s| - |ks| then TakeAll(s, ks)[p]
    else
      ReachesFront(|s|, ks, |s| - 1 - p);
      TakeAll(s, ks[..|s| - 1 - p])[p]
  }

  lemma {:induction false} SpliceAllShows<T>(cells: seq<T>, s: seq<T>, ks: seq<int>, p: nat)
    requires s <= cells && Reaches(|s|, ks) && p < |s|
    ensures SpliceAll(cells, |s|, ks)[p] == Shown(s, ks, p)
    decreases |ks|
  {
    if ks == [] {
      assert s == cells[..|s|];
    } else {
      var k, n := ks[0], |s|;
      ReachesTail(n, ks);
      var cells', s' := Spliced(cells, n, k), RemoveAt(s, k);
      assert s == cells[..n] && cells'[..n - 1] == s';
      if p == n - 1 {
        SpliceAllKeepsRest(cells', n - 1, ks[1..], p);
        assert ks[..0] == [];
      } else {
        SpliceAllShows(cells', s', ks[1..], p);
        ShownTail(s, ks, p);
      }
    }
  }

  lemma ShownTail<T>(s: seq<T>, ks: seq<int>, p: nat)
    requires ks != [] && Reaches(|s|, ks) && p < |s| - 1
    ensures 0 <= ks[0] < |s| && Reaches(|s| - 1, ks[1..])
    ensures Shown(s, ks, p) == Shown(RemoveAt(s, ks[0]), ks[1..], p)
  {
    ReachesTail(|s|, ks);
    if p >= |s| - |ks| {
      var m := |s| - 1 - p;
      assert ks[..m][1..] == ks[1..][..m - 1];
    }
  }

  /** ---------- The inputs that name one transaction ---------- */

  /** The indices of the inputs that name `key`, in order. */
  function Indices(inputs: seq<TxInput>, key: Bytes): seq<int> {
    if inputs == [] then []
    else (if Key(inputs[0].txid) == key then [inputs[0].outIndex] else []) + Indices(inputs[1..], key)
  }

  /** How many inputs before input j name the same transaction. */
  function Rank(inputs: seq<TxInput>, j: nat): nat
    requires j < |inputs|
  {
    |Indices(inputs[..j], Key(inputs[j].txid))|
  }

  lemma {:induction false} IndicesNamed(inputs: seq<TxInput>, key: Bytes)
    ensures Indices(inputs, key) != [] <==> NamesTx(inputs, key)
    decreases |inputs|
  {
    if inputs != [] {
      IndicesNamed(inputs[1..], key);
      if NamesTx(inputs[1..], key) {
        var j :| 0 <= j < |inputs[1..]| && Key(inputs[1..][j].txid) == key;
        assert Key(inputs[j + 1].txid) == key;
      }
      if NamesTx(inputs, key) && Key(inputs[0].txid) != key {
        var j :| 0 <= j < |inputs| && Key(inputs[j].txid) == key;
        assert inputs[1..][j - 1] == inputs[j];
      }
    }
  }

  lemma {:induction false} IndicesConcat(a: seq<TxInput>, b: seq<TxInput>, key: Bytes)
    ensures Indices(a + b, key) == Indices(a, key) + Indices(b, key)
    decreases |a|
  {
    if a == [] {
      assert a + b == b;
    } else {
      assert (a + b)[0] == a[0] && (a + b)[1..] == a[1..] + b;
      IndicesConcat(a[1..], b, key);
    }
  }

  /** Input j is one of them, at its place. */
  lemma IndexListed(inputs: seq<TxInput>, j: nat)
    requires j < |inputs|
    ensures var ks := Indices(inputs, Key(inputs[j].txid));
      Rank(inputs, j) < |ks| && ks[Rank(inputs, j)] == inputs[j].outIndex
  {
    var key := Key(inputs[j].txid);
    assert inputs == inputs[..j] + inputs[j..];
    IndicesConcat(inputs[..j], inputs[j..], key);
    assert inputs[j..][0] == inputs[j];
  }

  /** ---------- All inputs ---------- */

  function Entry<T>(m: map<Bytes, seq<T>>, key: Bytes): seq<T> {
    if key in m then m[key] else []
  }

  /** Every transaction named has an entry that can take the inputs naming it, in their order. */
  ghost predicate AllReach<T>(m: map<Bytes, seq<T>>, inputs: seq<TxInput>) {
    forall key :: Reaches(|Entry(m, key)|, Indices(inputs, key))
  }

  ghost predicate AllTaken<T>(m: map<Bytes, seq<T>>, m': map<Bytes, seq<T>>, inputs: seq<TxInput>)
    requires AllReach(m, inputs)
  {
    forall key :: Entry(m', key) == TakeAll(Entry(m, key), Indices(inputs, key))
  }

  /** The first removal, and the others. */
  lemma FirstRemoval<T>(m: map<Bytes, seq<T>>, m1: map<Bytes, seq<T>>, inputs: seq<TxInput>)
    requires inputs != [] && 0 <= inputs[0].outIndex < |Entry(m, Key(inputs[0].txid))|
    requires forall key ::
      Entry(m1, key) == (if key == Key(inputs[0].txid) then RemoveAt(Entry(m, key), inputs[0].outIndex) else Entry(m, key))
    ensures AllReach(m, inputs) <==> AllReach(m1, inputs[1..])
    ensures AllReach(m, inputs) ==> forall key ::
      TakeAll(Entry(m, key), Indices(inputs, key)) == TakeAll(Entry(m1, key), Indices(inputs[1..], key))
  {
    forall key
      ensures Reaches(|Entry(m, key)|, Indices(inputs, key)) <==> Reaches(|Entry(m1, key)|, Indices(inputs[1..], key))
      ensures Reaches(|Entry(m, key)|, Indices(inputs, key)) ==>
        TakeAll(Entry(m, key), Indices(inputs, key)) == TakeAll(Entry(m1, key), Indices(inputs[1..], key))
    {
      FirstAtKey(Entry(m, key), Entry(m1, key), inputs, key);
    }
  }

  lemma FirstAtKey<T>(s: seq<T>, s1: seq<T>, inputs: seq<TxInput>, key: Bytes)
    requires inputs != []
    requires if key == Key(inputs[0].txid) then 0 <= inputs[0].outIndex < |s| && s1 == RemoveAt(s, inputs[0].outIndex) else s1 == s
    ensures Reaches(|s|, Indices(inputs, key)) <==> Reaches(|s1|, Indices(inputs[1..], key))
    ensures Reaches(|s|, Indices(inputs, key)) ==> TakeAll(s, Indices(inputs, key)) == TakeAll(s1, Indices(inputs[1..], key))
  {
    var ks := Indices(inputs, key);
    if key == Key(inputs[0].txid) {
      ReachesTail(|s|, ks);
      assert ks[1..] == Indices(inputs[1..], key);
    } else {
      assert ks == Indices(inputs[1..], key);
    }
  }

  /** Transactions that are not named are not touched. */
  predicate SameAtKey(l: Ledger, l': Ledger, key: Bytes) {
    && (key in l.live <==> key in l'.live) && (key in l.live ==> l'.live[key] == l.live[key])
    && (key in l.recorded <==> key in l'.recorded) && (key in l.recorded ==> l'.recorded[key] == l.recorded[key])
  }

  lemma {:induction false} OthersStay(l: Ledger, inputs: seq<TxInput>, key: Bytes)
    requires !NamesTx(inputs, key)
    ensures SameAtKey(l, RemoveInputs(l, inputs).0, key)
    decreases |inputs|
  {
    if inputs != [] {
      assert Key(inputs[0].txid) != key;
      if Spendable(l, Key(inputs[0].txid), inputs[0].outIndex) {
        assert !NamesTx(inputs[1..], key);
        OthersStay(Remove(l, Key(inputs[0].txid), inputs[0].outIndex), inputs[1..], key);
      }
    }
  }

  /** Exactly when a transaction's inputs can all be removed, in whatever order they name whatever transactions;
      and what is left of every entry then. */
  lemma {:induction false} InputsSpend(l: Ledger, inputs: seq<TxInput>)
    ensures RemoveInputs(l, inputs).1 <==> AllReach(l.live, inputs)
    ensures RemoveInputs(l, inputs).1 ==> AllTaken(l.live, RemoveInputs(l, inputs).0.live, inputs)
    decreases |inputs|
  {
    if inputs != [] {
      var key, k := Key(inputs[0].txid), inputs[0].outIndex;
      if Spendable(l, key, k) {
        var l1 := Remove(l, key, k);
        InputsSpend(l1, inputs[1..]);
        FirstRemoval(l.live, l1.live, inputs);
      } else {
        FirstFails(l.live, inputs);
      }
    }
  }

  lemma FirstFails<T>(m: map<Bytes, seq<T>>, inputs: seq<TxInput>)
    requires inputs != [] && !(0 <= inputs[0].outIndex < |Entry(m, Key(inputs[0].txid))|)
    ensures !AllReach(m, inputs)
  {
    var key := Key(inputs[0].txid);
    ReachesTail(|Entry(m, key)|, Indices(inputs, key));
    assert !Reaches(|Entry(m, key)|, Indices(inputs, key));
  }

  /** The same for the surviving original indices. */
  lemma {:induction false} SurvivorsSpend(rems: map<Bytes, seq<nat>>, inputs: seq<TxInput>)
    ensures SpendInputs(rems, inputs).1 <==> AllReach(rems, inputs)
    ensures SpendInputs(rems, inputs).1 ==> AllTaken(rems, SpendInputs(rems, inputs).0, inputs)
    decreases |inputs|
  {
    if inputs != [] {
      var key, k := Key(inputs[0].txid), inputs[0].outIndex;
      if key in rems && 0 <= k < |rems[key]| {
        var rems1 := RemoveRem(rems, key, k);
        SurvivorsSpend(rems1, inputs[1..]);
        FirstRemoval(rems, rems1, inputs);
      } else {
        FirstFails(rems, inputs);
      }
    }
  }

  /** ... and for the backing arrays. */
  predicate SplicedAt(l: Ledger, l': Ledger, inputs: seq<TxInput>, key: Bytes)
    requires key in l.recorded && key in l'.recorded
  {
    && |Entry(l.live, key)| <= |l.recorded[key]| && Reaches(|Entry(l.live, key)|, Indices(inputs, key))
    && l'.recorded[key] == SpliceAll(l.recorded[key], |Entry(l.live, key)|, Indices(inputs, key))
  }

  ghost predicate AllSpliced(l: Ledger, l': Ledger, inputs: seq<TxInput>) {
    l'.recorded.Keys == l.recorded.Keys && forall key :: key in l.recorded ==> SplicedAt(l, l', inputs, key)
  }

  lemma {:induction false} InputsSplice(l: Ledger, inputs: seq<TxInput>)
    requires Aliased(l) && AllReach(l.live, inputs)
    ensures AllSpliced(l, RemoveInputs(l, inputs).0, inputs)
    decreases |inputs|
  {
    if inputs != [] {
      var key0, k0 := Key(inputs[0].txid), inputs[0].outIndex;
      if !Spendable(l, key0, k0) {
        FirstFails(l.live, inputs);
      } else {
        var l1 := Remove(l, key0, k0);
        RemoveKeepsAliased(l, key0, k0);
        FirstRemoval(l.live, l1.live, inputs);
        InputsSplice(l1, inputs[1..]);
        SplicedFirst(l, l1, RemoveInputs(l1, inputs[1..]).0, inputs);
      }
    }
  }

  lemma SplicedFirst(l: Ledger, l1: Ledger, l': Ledger, inputs: seq<TxInput>)
    requires inputs != [] && Aliased(l) && Aliased(l1) && Spendable(l, Key(inputs[0].txid), inputs[0].outIndex)
    requires l1 == Remove(l, Key(inputs[0].txid), inputs[0].outIndex)
    requires AllReach(l.live, inputs) && AllReach(l1.live, inputs[1..]) && AllSpliced(l1, l', inputs[1..])
    ensures AllSpliced(l, l', inputs)
  {
    assert l1.recorded.Keys == l.recorded.Keys;
    forall key | key in l.recorded ensures SplicedAt(l, l', inputs, key) {
      assert Reaches(|Entry(l.live, key)|, Indices(inputs, key));
      assert SplicedAt(l1, l', inputs[1..], key);
      FirstSplice(l, l1, inputs, key);
    }
  }

  lemma FirstSplice(l: Ledger, l1: Ledger, inputs: seq<TxInput>, key: Bytes)
    requires inputs != [] && Aliased(l) && Spendable(l, Key(inputs[0].txid), inputs[0].outIndex)
    requires l1 == Remove(l, Key(inputs[0].txid), inputs[0].outIndex)
    requires key in l.recorded && Reaches(|Entry(l.live, key)|, Indices(inputs, key))
    ensures |Entry(l.live, key)| <= |l.recorded[key]| && |Entry(l1.live, key)| <= |l1.recorded[key]|
    ensures Reaches(|Entry(l1.live, key)|, Indices(inputs[1..], key))
    ensures SpliceAll(l.recorded[key], |Entry(l.live, key)|, Indices(inputs, key)) ==
      SpliceAll(l1.recorded[key], |Entry(l1.live, key)|, Indices(inputs[1..], key))
  {
    FirstAtKey(Entry(l.live, key), Entry(l1.live, key), inputs, key);
    var ks := Indices(inputs, key);
    if key == Key(inputs[0].txid) {
      assert ks[1..] == Indices(inputs[1..], key);
    } else {
      assert ks == Indices(inputs[1..], key);
    }
  }
}
