/** Spending several outputs of one transaction at once: exactly when it works, and when it does what it says. */
module MultiSpending {
  import opened Prelude
  import opened ByteStrings
  import opened Crypto
  import opened Transactions
  import opened Ledgers
  import opened Compaction
  import opened CoinSelection
  import opened Spending
  import opened Removals

  /** ---------- The inputs of one transaction ---------- */

  lemma InputsOfTail(key: Bytes, ks: seq<nat>, pubKey: Bytes)
    requires ks != []
    ensures InputsOf(key, ks, pubKey)[0] == TxInput(Some(key), ks[0], [], pubKey)
    ensures InputsOf(key, ks, pubKey)[1..] == InputsOf(key, ks[1..], pubKey)
  {
  }

  lemma {:induction false} IndicesOfOne(key: Bytes, ks: seq<nat>, pubKey: Bytes, other: Bytes)
    ensures Indices(InputsOf(key, ks, pubKey), other) == if other == key then ks else []
    decreases |ks|
  {
    if ks != [] {
      InputsOfTail(key, ks, pubKey);
      IndicesOfOne(key, ks[1..], pubKey, other);
    }
  }

  /** Everything but the outputs of `key` is as it was. */
  ghost predicate SameElsewhere(live: Entries, live': Entries, key: Bytes) {
    forall other :: other != key ==> (other in live <==> other in live') && (other in live ==> live'[other] == live[other])
  }

  /** The removals succeed if and only if every index is still in range when its turn comes;
      they touch no other transaction. */
  lemma OneTxSpends(l: Ledger, key: Bytes, ks: seq<nat>, pubKey: Bytes)
    ensures RemoveInputs(l, InputsOf(key, ks, pubKey)).1 <==> Reaches(|Entry(l.live, key)|, ks)
    ensures SameElsewhere(l.live, RemoveInputs(l, InputsOf(key, ks, pubKey)).0.live, key)
  {
    var inputs := InputsOf(key, ks, pubKey);
    InputsSpend(l, inputs);
    forall other ensures Indices(inputs, other) == if other == key then ks else [] {
      IndicesOfOne(key, ks, pubKey, other);
    }
    if Reaches(|Entry(l.live, key)|, ks) {
      assert AllReach(l.live, inputs);
    }
    if AllReach(l.live, inputs) {
      assert Reaches(|Entry(l.live, key)|, Indices(inputs, key));
    }
    OneTxTouches(l, inputs, key);
  }

  lemma OneTxTouches(l: Ledger, inputs: seq<TxInput>, key: Bytes)
    requires forall other :: other != key ==> Indices(inputs, other) == []
    ensures SameElsewhere(l.live, RemoveInputs(l, inputs).0.live, key)
  {
    var live' := RemoveInputs(l, inputs).0.live;
    forall other | other != key
      ensures (other in l.live <==> other in live') && (other in l.live ==> live'[other] == l.live[other])
    {
      IndicesNamed(inputs, other);
      OthersStay(l, inputs, other);
    }
  }

  /** ---------- Payments built from picks ---------- */

  lemma {:induction false} GroupMember(picks: seq<Outpoint>, key: Bytes, x: nat)
    ensures key in Group(picks) && x in Group(picks)[key] <==> (key, x) in picks
    decreases |picks|
  {
    if picks != [] {
      var front, last := picks[..|picks| - 1], picks[|picks| - 1];
      GroupMember(front, key, x);
      assert picks == front + [last];
      var before := if last.0 in Group(front) then Group(front)[last.0] else [];
      assert Group(picks) == Group(front)[last.0 := before + [last.1]];
      assert x in before + [last.1] <==> x in before || x == last.1;
    }
  }

  predicate GroupAscends(group: map<Bytes, seq<nat>>) {
    forall key :: key in group ==> Increasing(group[key])
  }

  lemma {:induction false} GroupIncreasing(picks: seq<Outpoint>)
    requires Ascending(picks)
    ensures GroupAscends(Group(picks))
    decreases |picks|
  {
    if picks != [] {
      var front := picks[..|picks| - 1];
      var (key, x) := picks[|picks| - 1];
      GroupIncreasing(front);
      if key in Group(front) {
        forall j | 0 <= j < |Group(front)[key]| ensures Group(front)[key][j] < x {
          GroupMember(front, key, Group(front)[key][j]);
          var i :| 0 <= i < |front| && front[i] == (key, Group(front)[key][j]);
          assert picks[i].0 == picks[|picks| - 1].0;
        }
      }
    }
  }

  predicate AtMostTwo(live: Entries) {
    forall key :: key in live ==> |live[key]| <= 2
  }

  /** From an entry of at most two outputs an ascending pair can not be taken. */
  lemma PairFails(n: nat, ks: seq<nat>)
    requires n <= 2 && Increasing(ks) && forall j :: 0 <= j < |ks| ==> ks[j] < n
    ensures Reaches(n, ks) <==> |ks| <= 1
  {
    if |ks| >= 2 {
      assert ks[0] < ks[1];
      assert !(ks[1] + 1 < n);
    }
  }

  lemma OnePerTxIffSingles(picks: seq<Outpoint>)
    requires Ascending(picks)
    ensures OnePerTx(picks) <==> forall key :: key in Group(picks) ==> |Group(picks)[key]| <= 1
  {
    if OnePerTx(picks) {
      GroupIsSingles(picks);
    } else {
      var i, j :| 0 <= i < j < |picks| && picks[i].0 == picks[j].0;
      var key := picks[i].0;
      GroupMember(picks, key, picks[i].1);
      GroupMember(picks, key, picks[j].1);
      assert picks[i] in picks && picks[j] in picks;
      assert picks[i].1 < picks[j].1;
      var ks := Group(picks)[key];
      var p, q :| 0 <= p < |ks| && 0 <= q < |ks| && ks[p] == picks[i].1 && ks[q] == picks[j].1;
      assert p != q;
    }
  }

  lemma {:induction false} IndicesOfPayment(order: seq<Bytes>, group: map<Bytes, seq<nat>>, pubKey: Bytes, key: Bytes)
    requires Distinct(order) && forall j :: 0 <= j < |order| ==> order[j] in group
    ensures Indices(InputsFor(order, group, pubKey), key) == if key in order then group[key] else []
    decreases |order|
  {
    if order != [] {
      var first, rest := order[0], order[1..];
      IndicesOfPayment(rest, group, pubKey, key);
      IndicesOfOne(first, group[first], pubKey, key);
      IndicesConcat(InputsOf(first, group[first], pubKey), InputsFor(rest, group, pubKey), key);
      assert key in order <==> key == first || key in rest;
    }
  }

  /** Exactly when a payment built from picks can be applied: each entry must hold, for every pick, as many more
      outputs behind it as were taken from the entry before. */
  lemma PaymentApplies(l: Ledger, picks: seq<Outpoint>, order: seq<Bytes>, pubKey: Bytes, t: TxV)
    requires Enumerates(order, Group(picks)) && Unsigned(t.inputs) == InputsFor(order, Group(picks), pubKey)
    ensures Update(l, t).1 <==> forall key :: key in Group(picks) ==> Reaches(|Entry(l.live, key)|, Group(picks)[key])
  {
    var inputs := InputsFor(order, Group(picks), pubKey);
    SignedApplies(l, t, order, Group(picks), pubKey);
    InputsSpend(l, inputs);
    forall key ensures Indices(inputs, key) == if key in Group(picks) then Group(picks)[key] else [] {
      IndicesOfPayment(order, Group(picks), pubKey, key);
    }
    GroupReaches(l.live, inputs, Group(picks));
  }

  lemma SignedApplies(l: Ledger, t: TxV, order: seq<Bytes>, group: map<Bytes, seq<nat>>, pubKey: Bytes)
    requires forall j :: 0 <= j < |order| ==> order[j] in group
    requires Unsigned(t.inputs) == InputsFor(order, group, pubKey)
    ensures Update(l, t).1 == RemoveInputs(l, InputsFor(order, group, pubKey)).1
  {
    var inputs := InputsFor(order, group, pubKey);
    InputsNamed(order, group, pubKey);
    forall j | 0 <= j < |t.inputs| ensures t.inputs[j].txid == inputs[j].txid && t.inputs[j].outIndex == inputs[j].outIndex {
      assert Unsigned(t.inputs)[j] == inputs[j];
    }
    SignaturesDoNotMatter(l, t.inputs, inputs);
  }

  lemma GroupReaches(live: Entries, inputs: seq<TxInput>, group: map<Bytes, seq<nat>>)
    requires forall key :: Indices(inputs, key) == if key in group then group[key] else []
    ensures AllReach(live, inputs) <==> forall key :: key in group ==> Reaches(|Entry(live, key)|, group[key])
  {
    if AllReach(live, inputs) {
      forall key | key in group ensures Reaches(|Entry(live, key)|, group[key]) {
        assert Reaches(|Entry(live, key)|, Indices(inputs, key));
      }
    }
  }

  lemma {:induction false} InputsNamed(order: seq<Bytes>, group: map<Bytes, seq<nat>>, pubKey: Bytes)
    requires forall j :: 0 <= j < |order| ==> order[j] in group
    ensures forall i :: 0 <= i < |InputsFor(order, group, pubKey)| ==> InputsFor(order, group, pubKey)[i].txid.Some?
    decreases |order|
  {
    if order != [] {
      InputsNamed(order[1..], group, pubKey);
    }
  }

  /** With entries of at most two outputs, which is all that coinbases and created payments make, a payment built
      from its picks can be applied if and only if it picks at most one output of every transaction.
      Nothing is asked of the recipient: a payment to oneself is made the same way. */
  lemma PaymentAppliesIffOnePerTx(l: Ledger, owner: Bytes, picks: seq<Outpoint>, order: seq<Bytes>, pubKey: Bytes, t: TxV)
    requires AtMostTwo(l.live) && PicksOk(l.live, owner, picks) && Ascending(picks)
    requires Enumerates(order, Group(picks)) && Unsigned(t.inputs) == InputsFor(order, Group(picks), pubKey)
    ensures Update(l, t).1 <==> OnePerTx(picks)
  {
    PaymentApplies(l, picks, order, pubKey, t);
    OnePerTxIffSingles(picks);
    GroupIncreasing(picks);
    forall key | key in Group(picks)
      ensures Reaches(|Entry(l.live, key)|, Group(picks)[key]) <==> |Group(picks)[key]| <= 1
    {
      PicksInEntry(l.live, owner, picks, key);
      PairFails(|Entry(l.live, key)|, Group(picks)[key]);
    }
  }

  lemma PicksInEntry(live: Entries, owner: Bytes, picks: seq<Outpoint>, key: Bytes)
    requires PicksOk(live, owner, picks) && key in Group(picks)
    ensures key in live && forall j :: 0 <= j < |Group(picks)[key]| ==> Group(picks)[key][j] < |live[key]|
  {
    GroupKeys(picks, key);
    var i :| 0 <= i < |picks| && picks[i].0 == key;
    assert PickOk(live, owner, picks[i]);
    forall j | 0 <= j < |Group(picks)[key]| ensures Group(picks)[key][j] < |live[key]| {
      GroupMember(picks, key, Group(picks)[key][j]);
      var m :| 0 <= m < |picks| && picks[m] == (key, Group(picks)[key][j]);
      assert PickOk(live, owner, picks[m]);
    }
  }

  /** ---------- Entries of at most two outputs ---------- */

  lemma {:induction false} RemoveInputsAtMostTwo(l: Ledger, inputs: seq<TxInput>)
    requires AtMostTwo(l.live)
    ensures AtMostTwo(RemoveInputs(l, inputs).0.live)
    decreases |inputs|
  {
    if inputs != [] && Spendable(l, Key(inputs[0].txid), inputs[0].outIndex) {
      RemoveInputsAtMostTwo(Remove(l, Key(inputs[0].txid), inputs[0].outIndex), inputs[1..]);
    }
  }

  /** Transactions with at most two outputs leave entries of at most two, whatever else they do. */
  lemma {:induction false} ReplayAtMostTwo(txs: seq<TxV>)
    requires forall i :: 0 <= i < |txs| ==> |txs[i].outputs| <= 2
    ensures AtMostTwo(Replay(EMPTY, txs).live)
    decreases |txs|
  {
    if txs != [] {
      var l := Replay(EMPTY, txs[..|txs| - 1]);
      ReplayAtMostTwo(txs[..|txs| - 1]);
      RemoveInputsAtMostTwo(l, txs[|txs| - 1].inputs);
    }
  }

  /** ---------- Does a spend take what it names? ---------- */

  /** The original indices behind positions `ks` of an entry. */
  predicate NamedIndex(rem: seq<nat>, ks: seq<int>, x: nat) {
    exists m :: 0 <= m < |ks| && 0 <= ks[m] < |rem| && rem[ks[m]] == x
  }

  /** The original outputs taken are those the indices named, and no others. */
  ghost predicate Exact(rem: seq<nat>, ks: seq<int>) {
    Reaches(|rem|, ks) && forall x: nat :: x in TakeAll(rem, ks) <==> x in rem && !NamedIndex(rem, ks, x)
  }

  predicate Within(n: nat, ks: seq<int>) {
    forall m :: 0 <= m < |ks| ==> 0 <= ks[m] < n
  }

  predicate Descending(ks: seq<int>) {
    forall i, j :: 0 <= i < j < |ks| ==> ks[i] > ks[j]
  }

  lemma {:induction false} TakenAreMembers(rem: seq<nat>, ks: seq<int>, x: nat)
    requires Reaches(|rem|, ks) && x in TakeAll(rem, ks)
    ensures x in rem
    decreases |ks|
  {
    if ks != [] {
      ReachesTail(|rem|, ks);
      TakenAreMembers(RemoveAt(rem, ks[0]), ks[1..], x);
    }
  }

  /** Positions below the one removed name what they named before. */
  lemma NamedAfterFirst(rem: seq<nat>, ks: seq<int>, x: nat)
    requires Increasing(rem) && ks != [] && 0 <= ks[0] < |rem| && Within(ks[0], ks[1..])
    ensures NamedIndex(rem, ks, x) <==> rem[ks[0]] == x || NamedIndex(RemoveAt(rem, ks[0]), ks[1..], x)
  {
    var rem1, rest := RemoveAt(rem, ks[0]), ks[1..];
    if NamedIndex(rem1, rest, x) {
      var m :| 0 <= m < |rest| && 0 <= rest[m] < |rem1| && rem1[rest[m]] == x;
      assert ks[m + 1] == rest[m] && rem[ks[m + 1]] == x;
    }
    if NamedIndex(rem, ks, x) && rem[ks[0]] != x {
      var m :| 0 <= m < |ks| && 0 <= ks[m] < |rem| && rem[ks[m]] == x;
      assert rest[m - 1] == ks[m] && rem1[rest[m - 1]] == x;
    }
  }

  /** With the largest position first, the first removal takes what it names and the others are asked the same of the rest. */
  lemma FirstIsExact(rem: seq<nat>, ks: seq<int>)
    requires Increasing(rem) && ks != [] && 0 <= ks[0] < |rem| && Within(ks[0], ks[1..])
    ensures Exact(rem, ks) <==> Exact(RemoveAt(rem, ks[0]), ks[1..])
  {
    var rem1, rest := RemoveAt(rem, ks[0]), ks[1..];
    ReachesTail(|rem|, ks);
    forall x: nat
      ensures (x in rem && !NamedIndex(rem, ks, x)) <==> (x in rem1 && !NamedIndex(rem1, rest, x))
    {
      MembersAfterRemove(rem, ks[0], x);
      NamedAfterFirst(rem, ks, x);
    }
  }

  /** Whatever is removed at position ks[j] was not in front of it at the start. */
  lemma {:induction false} TakesAtLeast(rem: seq<nat>, ks: seq<int>, j: nat) returns (x: nat)
    requires Increasing(rem) && Reaches(|rem|, ks) && j < |ks|
    ensures ks[j] < |rem| && x in rem && x !in TakeAll(rem, ks) && x >= rem[ks[j]]
    decreases |ks|
  {
    ReachesTail(|rem|, ks);
    var rem1 := RemoveAt(rem, ks[0]);
    if j == 0 {
      x := rem[ks[0]];
      MembersAfterRemove(rem, ks[0], x);
      if x in TakeAll(rem, ks) {
        TakenAreMembers(rem1, ks[1..], x);
      }
    } else {
      x := TakesAtLeast(rem1, ks[1..], j - 1);
      MembersAfterRemove(rem, ks[0], x);
    }
  }

  lemma LargestLater(ks: seq<int>, j: nat) returns (m: nat)
    requires 0 < j < |ks| && ks[j] >= ks[0]
    ensures 0 < m < |ks| && ks[m] >= ks[0] && forall i :: 0 <= i < |ks| ==> ks[i] <= ks[m]
  {
    m := j;
    for i := 1 to |ks|
      invariant 0 < m < |ks| && ks[m] >= ks[0] && forall k :: 0 <= k < i ==> ks[k] <= ks[m]
    {
      if ks[i] > ks[m] {
        m := i;
      }
    }
  }

  /** A later position that is not below the first: the largest one meets an output behind everything named. */
  lemma TakesAnother(rem: seq<nat>, ks: seq<int>, j: nat) returns (x: nat)
    requires Increasing(rem) && Reaches(|rem|, ks) && 0 < j < |ks| && ks[j] >= ks[0]
    ensures x in rem && !NamedIndex(rem, ks, x) && x !in TakeAll(rem, ks)
  {
    var m := LargestLater(ks, j);
    ReachesTail(|rem|, ks);
    var rem1 := RemoveAt(rem, ks[0]);
    x := TakesAtLeast(rem1, ks[1..], m - 1);
    assert rem1[ks[m]] == rem[ks[m] + 1];
    MembersAfterRemove(rem, ks[0], x);
  }

  lemma LaterIsNotExact(rem: seq<nat>, ks: seq<int>, j: nat)
    requires Increasing(rem) && 0 < j < |ks| && ks[j] >= ks[0]
    ensures !Exact(rem, ks)
  {
    if Reaches(|rem|, ks) {
      var x := TakesAnother(rem, ks, j);
    }
  }

  lemma {:induction false} ExactIffDescending(rem: seq<nat>, ks: seq<int>)
    requires Increasing(rem)
    ensures Exact(rem, ks) <==> Within(|rem|, ks) && Descending(ks)
    decreases |ks|
  {
    if ks != [] {
      if j :| 0 < j < |ks| && ks[j] >= ks[0] {
        LaterIsNotExact(rem, ks, j);
      } else if 0 <= ks[0] < |rem| && Within(ks[0], ks[1..]) {
        FirstIsExact(rem, ks);
        ExactIffDescending(RemoveAt(rem, ks[0]), ks[1..]);
        DescendingFirst(|rem|, ks);
      } else if Exact(rem, ks) {
        NotWithin(|rem|, ks);
      }
    }
  }

  lemma DescendingFirst(n: nat, ks: seq<int>)
    requires ks != [] && 0 <= ks[0] < n && Within(ks[0], ks[1..])
    ensures Within(n, ks) && Descending(ks) <==> Within(n - 1, ks[1..]) && Descending(ks[1..])
  {
    forall m | 0 < m < |ks| ensures 0 <= ks[m] < ks[0] {
      assert ks[1..][m - 1] == ks[m];
    }
    if Descending(ks[1..]) {
      forall i, j | 0 <= i < j < |ks| ensures ks[i] > ks[j] {
        assert i > 0 ==> ks[1..][i - 1] == ks[i] && ks[1..][j - 1] == ks[j];
      }
    }
  }

  lemma NotWithin(n: nat, ks: seq<int>)
    requires ks != [] && Reaches(n, ks) && forall j :: 0 < j < |ks| ==> ks[j] < ks[0]
    ensures 0 <= ks[0] < n && Within(ks[0], ks[1..])
  {
  }

  /** The inputs are all removed, and the original outputs taken out are those they name, and no others. */
  ghost predicate TakesNamed(rems: map<Bytes, seq<nat>>, inputs: seq<TxInput>, after: (map<Bytes, seq<nat>>, bool)) {
    after.1 && forall key :: TakesNamedOf(rems, inputs, after.0, key)
  }

  ghost predicate TakesNamedOf(rems: map<Bytes, seq<nat>>, inputs: seq<TxInput>, rems': map<Bytes, seq<nat>>, key: Bytes) {
    forall x: nat :: Unspent(rems', key, x) <==> Unspent(rems, key, x) && !NamedIndex(Entry(rems, key), Indices(inputs, key), x)
  }

  /** Exactly when a transaction, with any inputs in any order, takes the outputs it names: of every transaction it
      spends from, the inputs must name live outputs, and later inputs must name earlier ones; for a removal moves every
      later output down. */
  lemma SpendIsAsNamed(l: Ledger, originals: map<Bytes, seq<TxOutput>>, rems: map<Bytes, seq<nat>>, inputs: seq<TxInput>)
    requires Represents(l, originals, rems)
    ensures Represents(RemoveInputs(l, inputs).0, originals, SpendInputs(rems, inputs).0)
    ensures RemoveInputs(l, inputs).1 == SpendInputs(rems, inputs).1
    ensures TakesNamed(rems, inputs, SpendInputs(rems, inputs)) <==>
      forall key :: Within(|Entry(l.live, key)|, Indices(inputs, key)) && Descending(Indices(inputs, key))
  {
    RemoveInputsRefines(l, originals, rems, inputs);
    SurvivorsSpend(rems, inputs);
    TakesNamedIfExact(rems, inputs);
    forall key
      ensures Exact(Entry(rems, key), Indices(inputs, key)) <==>
        Within(|Entry(l.live, key)|, Indices(inputs, key)) && Descending(Indices(inputs, key))
    {
      assert |Entry(l.live, key)| == |Entry(rems, key)| && Increasing(Entry(rems, key));
      ExactIffDescending(Entry(rems, key), Indices(inputs, key));
    }
  }

  lemma TakesNamedIfExact(rems: map<Bytes, seq<nat>>, inputs: seq<TxInput>)
    ensures TakesNamed(rems, inputs, SpendInputs(rems, inputs)) <==> forall key :: Exact(Entry(rems, key), Indices(inputs, key))
  {
    SurvivorsSpend(rems, inputs);
    var after := SpendInputs(rems, inputs);
    if after.1 {
      forall key ensures Exact(Entry(rems, key), Indices(inputs, key)) <==> TakesNamedOf(rems, inputs, after.0, key) {
        ExactIsTakesNamed(rems, inputs, after.0, key);
      }
    } else {
      var key :| !Reaches(|Entry(rems, key)|, Indices(inputs, key));
      assert !Exact(Entry(rems, key), Indices(inputs, key));
    }
  }

  lemma ExactIsTakesNamed(rems: map<Bytes, seq<nat>>, inputs: seq<TxInput>, rems': map<Bytes, seq<nat>>, key: Bytes)
    requires Reaches(|Entry(rems, key)|, Indices(inputs, key))
    requires Entry(rems', key) == TakeAll(Entry(rems, key), Indices(inputs, key))
    ensures Exact(Entry(rems, key), Indices(inputs, key)) <==> TakesNamedOf(rems, inputs, rems', key)
  {
    assert forall x: nat :: Unspent(rems', key, x) <==> x in Entry(rems', key);
    assert forall x: nat :: Unspent(rems, key, x) <==> x in Entry(rems, key);
  }

  /** In ascending order, which is how coin selection gives them, several live indices of one transaction are never taken
      as named: the spend takes what it names if and only if it names at most one. */
  lemma SpendIsAsNamedIffSingle(l: Ledger, originals: map<Bytes, seq<TxOutput>>, rems: map<Bytes, seq<nat>>,
                                key: Bytes, ks: seq<nat>, pubKey: Bytes)
    requires Represents(l, originals, rems) && key in l.live
    requires Increasing(ks) && forall m :: 0 <= m < |ks| ==> ks[m] < |l.live[key]|
    ensures TakesNamed(rems, InputsOf(key, ks, pubKey), SpendInputs(rems, InputsOf(key, ks, pubKey))) <==> |ks| <= 1
  {
    var inputs := InputsOf(key, ks, pubKey);
    SpendIsAsNamed(l, originals, rems, inputs);
    forall other ensures Indices(inputs, other) == if other == key then ks else [] {
      IndicesOfOne(key, ks, pubKey, other);
    }
    AscendingOne(|l.live[key]|, ks);
    assert Indices(inputs, key) == ks && Entry(l.live, key) == l.live[key];
  }

  lemma AscendingOne(n: nat, ks: seq<nat>)
    requires Increasing(ks) && forall m :: 0 <= m < |ks| ==> ks[m] < n
    ensures Within(n, ks) && Descending(ks) <==> |ks| <= 1
  {
    assert |ks| >= 2 ==> ks[0] < ks[1];
  }
}
