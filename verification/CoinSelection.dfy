/** Coin selection, for every order in which the map may be traversed. */
module CoinSelection {
  import opened Prelude
  import opened ByteStrings
  import opened Crypto
  import opened Ledgers

  type Outpoint = (Bytes, nat)
  type Entries = map<Bytes, seq<TxOutput>>

  /** The running state: the wrapped sum and the picks in the order they were made. */
  datatype Selection = Selection(accumulated: int, picks: seq<Outpoint>)

  /** Go through outputs i, i+1, ... of one entry. */
  function ScanEntry(key: Bytes, outputs: seq<TxOutput>, i: nat, owner: Bytes, amount: int, sel: Selection): Selection
    requires i <= |outputs|
    decreases |outputs| - i
  {
    if i == |outputs| then sel
    else if outputs[i].pubKeyHash == owner && sel.accumulated < amount then
      var sel' := Selection(Wrap64(sel.accumulated + outputs[i].value), sel.picks + [(key, i)]);
      if sel'.accumulated >= amount then sel' else ScanEntry(key, outputs, i + 1, owner, amount, sel')
    else ScanEntry(key, outputs, i + 1, owner, amount, sel)
  }

  /** Go through the entries in the given order, stopping once the amount is reached. */
  function ScanAll(live: Entries, order: seq<Bytes>, owner: Bytes, amount: int, sel: Selection): Selection
    requires forall i :: 0 <= i < |order| ==> order[i] in live
    decreases |order|
  {
    if order == [] then sel
    else
      var sel' := ScanEntry(order[0], live[order[0]], 0, owner, amount, sel);
      if sel'.accumulated >= amount then sel' else ScanAll(live, order[1..], owner, amount, sel')
  }

  predicate Distinct<T(==)>(s: seq<T>) {
    forall i, j :: 0 <= i < j < |s| ==> s[i] != s[j]
  }

  /** `order` visits every key exactly once. */
  ghost predicate Enumerates<V>(order: seq<Bytes>, m: map<Bytes, V>) {
    Distinct(order) && (forall key :: key in order <==> key in m)
  }

  /** Every map has a traversal order. */
  lemma {:induction false} SomeOrder<V>(m: map<Bytes, V>) returns (order: seq<Bytes>)
    ensures Enumerates(order, m)
    decreases |m|
  {
    order := [];
    if m != map[] {
      var key :| key in m;
      var rest := SomeOrder(m - {key});
      order := [key] + rest;
    }
  }

  const NOTHING: Selection := Selection(0, [])

  ghost function Select(live: Entries, order: seq<Bytes>, owner: Bytes, amount: int): Selection
    requires Enumerates(order, live)
  {
    ScanAll(live, order, owner, amount, NOTHING)
  }

  /** The map FindSpendableOutputs returns: indices per transaction, in the order they were picked. */
  function Group(picks: seq<Outpoint>): map<Bytes, seq<nat>>
    decreases |picks|
  {
    if picks == [] then map[]
    else
      var m := Group(picks[..|picks| - 1]);
      var (key, i) := picks[|picks| - 1];
      m[key := (if key in m then m[key] else []) + [i]]
  }

  predicate PickOk(live: Entries, owner: Bytes, p: Outpoint) {
    p.0 in live && p.1 < |live[p.0]| && live[p.0][p.1].pubKeyHash == owner
  }

  function PickValue(live: Entries, owner: Bytes, p: Outpoint): int
    requires PickOk(live, owner, p)
  {
    live[p.0][p.1].value
  }

  predicate PicksOk(live: Entries, owner: Bytes, picks: seq<Outpoint>) {
    forall i :: 0 <= i < |picks| ==> PickOk(live, owner, picks[i])
  }

  function PicksValue(live: Entries, owner: Bytes, picks: seq<Outpoint>): int
    requires PicksOk(live, owner, picks)
    decreases |picks|
  {
    if picks == [] then 0
    else PicksValue(live, owner, picks[..|picks| - 1]) + PickValue(live, owner, picks[|picks| - 1])
  }

  /** Within one transaction the picks ascend. */
  predicate Ascending(picks: seq<Outpoint>) {
    forall i, j :: 0 <= i < j < |picks| && picks[i].0 == picks[j].0 ==> picks[i].1 < picks[j].1
  }

  /** What holds of the picks at every point of the scan: they are the owner's, distinct, ascending,
      worth what was accumulated, and all but the last are worth less than the amount. */
  predicate SelectionOk(live: Entries, owner: Bytes, amount: int, sel: Selection) {
    && PicksOk(live, owner, sel.picks)
    && Ascending(sel.picks)
    && sel.accumulated == PicksValue(live, owner, sel.picks)
    && (sel.picks != [] ==> PicksValue(live, owner, sel.picks[..|sel.picks| - 1]) < amount)
  }

  /** ---------- Correctness ---------- */

  /** Worth of the owner's outputs over a list of entries. */
  function TotalOver(live: Entries, order: seq<Bytes>, who: Who): int
    requires forall i :: 0 <= i < |order| ==> order[i] in live
  {
    if order == [] then 0 else Sum(live[order[0]], who) + TotalOver(live, order[1..], who)
  }

  lemma {:induction false} TotalOverEnumeration(live: Entries, order: seq<Bytes>, who: Who)
    requires Enumerates(order, live)
    ensures TotalOver(live, order, who) == Total(live, who)
    decreases |order|
  {
    if order == [] {
      assert live == map[];
    } else {
      var rest := live - {order[0]};
      forall key ensures key in order[1..] <==> key in rest {
        assert order == [order[0]] + order[1..];
      }
      TotalSplit(live, order[0], who);
      TotalOverEnumeration(rest, order[1..], who);
      TotalOverAgree(live, rest, order[1..], who);
    }
  }

  lemma {:induction false} TotalOverAgree(live: Entries, rest: Entries, order: seq<Bytes>, who: Who)
    requires forall i :: 0 <= i < |order| ==> order[i] in live && order[i] in rest && live[order[i]] == rest[order[i]]
    ensures TotalOver(live, order, who) == TotalOver(rest, order, who)
    decreases |order|
  {
    if order != [] {
      TotalOverAgree(live, rest, order[1..], who);
    }
  }

  lemma SumFront(outputs: seq<TxOutput>, who: Who)
    requires outputs != []
    ensures Sum(outputs, who) == Worth(outputs[0], who) + Sum(outputs[1..], who)
  {
    SumConcat(outputs[..1], outputs[1..], who);
    assert outputs == outputs[..1] + outputs[1..];
    assert outputs[..1] == [outputs[0]];
    assert Sum([outputs[0]], who) == Worth(outputs[0], who) by { assert [outputs[0]][..0] == []; }
  }

  predicate AllNonNegative(outputs: seq<TxOutput>) {
    forall i :: 0 <= i < |outputs| ==> outputs[i].value >= 0
  }

  /** One entry: either everything of the owner's in it is taken and the amount is still not reached,
      or it is reached; either way no more than there is. */
  lemma {:induction false} ScanEntryAmount(key: Bytes, outputs: seq<TxOutput>, i: nat, owner: Bytes, amount: int, sel: Selection)
    requires i <= |outputs| && AllNonNegative(outputs)
    requires 0 <= sel.accumulated < amount
    requires sel.accumulated + Sum(outputs[i..], Owner(owner)) <= MAX_INT64
    ensures var r, rest := ScanEntry(key, outputs, i, owner, amount, sel), Sum(outputs[i..], Owner(owner));
      0 <= r.accumulated <= sel.accumulated + rest &&
      (if sel.accumulated + rest < amount then r.accumulated == sel.accumulated + rest else r.accumulated >= amount)
    decreases |outputs| - i
  {
    if i < |outputs| {
      SumFront(outputs[i..], Owner(owner));
      assert outputs[i..][1..] == outputs[i + 1..];
      SumBounds(outputs[i + 1..], Owner(owner));
      var sel' := if outputs[i].pubKeyHash == owner
        then Selection(Wrap64(sel.accumulated + outputs[i].value), sel.picks + [(key, i)]) else sel;
      assert sel'.accumulated == sel.accumulated + Worth(outputs[i], Owner(owner));
      if sel'.accumulated < amount {
        ScanEntryAmount(key, outputs, i + 1, owner, amount, sel');
      }
    }
  }

  lemma {:induction false} ScanAllAmount(live: Entries, order: seq<Bytes>, owner: Bytes, amount: int, sel: Selection)
    requires forall i :: 0 <= i < |order| ==> order[i] in live
    requires NonNegative(live) && 0 <= sel.accumulated < amount
    requires sel.accumulated + TotalOver(live, order, Owner(owner)) <= MAX_INT64
    ensures var r, rest := ScanAll(live, order, owner, amount, sel), TotalOver(live, order, Owner(owner));
      0 <= r.accumulated <= sel.accumulated + rest &&
      (if sel.accumulated + rest < amount then r.accumulated == sel.accumulated + rest else r.accumulated >= amount)
    decreases |order|
  {
    if order != [] {
      var outputs := live[order[0]];
      assert AllNonNegative(outputs);
      TotalOverNonNegative(live, order[1..], Owner(owner));
      assert outputs[0..] == outputs;
      ScanEntryAmount(order[0], outputs, 0, owner, amount, sel);
      var sel' := ScanEntry(order[0], outputs, 0, owner, amount, sel);
      if sel'.accumulated < amount {
        ScanAllAmount(live, order[1..], owner, amount, sel');
      }
    }
  }

  lemma {:induction false} TotalOverNonNegative(live: Entries, order: seq<Bytes>, who: Who)
    requires forall i :: 0 <= i < |order| ==> order[i] in live
    requires NonNegative(live)
    ensures TotalOver(live, order, who) >= 0
    decreases |order|
  {
    if order != [] {
      SumBounds(live[order[0]], who);
      TotalOverNonNegative(live, order[1..], who);
    }
  }

  /** Picks made so far come from entries already visited; of the current entry, from before i. */
  predicate PicksBefore(picks: seq<Outpoint>, visited: seq<Bytes>, key: Bytes, i: nat) {
    forall j :: 0 <= j < |picks| ==> if picks[j].0 == key then picks[j].1 < i else picks[j].0 in visited
  }

  lemma SelectionGrows(live: Entries, owner: Bytes, amount: int, sel: Selection, visited: seq<Bytes>, p: Outpoint)
    requires SelectionOk(live, owner, amount, sel) && sel.accumulated < amount && PickOk(live, owner, p)
    requires PicksBefore(sel.picks, visited, p.0, p.1)
    ensures SelectionOk(live, owner, amount, Selection(sel.accumulated + PickValue(live, owner, p), sel.picks + [p]))
  {
    var picks := sel.picks + [p];
    assert picks[..|picks| - 1] == sel.picks;
  }

  lemma PicksBeforeLater(picks: seq<Outpoint>, visited: seq<Bytes>, key: Bytes, i: nat, j: nat)
    requires PicksBefore(picks, visited, key, i) && i <= j
    ensures PicksBefore(picks, visited, key, j)
  {
  }

  lemma SumRest(outputs: seq<TxOutput>, i: nat, who: Who)
    requires i < |outputs| && AllNonNegative(outputs)
    ensures Sum(outputs[i..], who) == Worth(outputs[i], who) + Sum(outputs[i + 1..], who)
    ensures Sum(outputs[i + 1..], who) >= 0
  {
    SumFront(outputs[i..], who);
    assert outputs[i..][1..] == outputs[i + 1..];
    SumBounds(outputs[i + 1..], who);
  }

  /** The scan takes an output of the owner's. */
  lemma ScanTakes(live: Entries, key: Bytes, i: nat, owner: Bytes, amount: int, sel: Selection, visited: seq<Bytes>)
    returns (sel': Selection)
    requires key in live && i < |live[key]| && AllNonNegative(live[key]) && live[key][i].pubKeyHash == owner
    requires SelectionOk(live, owner, amount, sel) && 0 <= sel.accumulated < amount
    requires sel.accumulated + Sum(live[key][i..], Owner(owner)) <= MAX_INT64
    requires PicksBefore(sel.picks, visited, key, i)
    ensures sel' == Selection(Wrap64(sel.accumulated + live[key][i].value), sel.picks + [(key, i)])
    ensures SelectionOk(live, owner, amount, sel') && PicksBefore(sel'.picks, visited, key, i + 1)
    ensures 0 <= sel'.accumulated && sel'.accumulated + Sum(live[key][i + 1..], Owner(owner)) <= MAX_INT64
  {
    SumRest(live[key], i, Owner(owner));
    assert Wrap64(sel.accumulated + live[key][i].value) == sel.accumulated + live[key][i].value;
    SelectionGrows(live, owner, amount, sel, visited, (key, i));
    sel' := Selection(sel.accumulated + live[key][i].value, sel.picks + [(key, i)]);
    PicksGrow(sel.picks, visited, key, i);
  }

  lemma PicksGrow(picks: seq<Outpoint>, visited: seq<Bytes>, key: Bytes, i: nat)
    requires PicksBefore(picks, visited, key, i)
    ensures PicksBefore(picks + [(key, i)], visited, key, i + 1)
  {
  }

  lemma ScanStep(live: Entries, key: Bytes, i: nat, owner: Bytes, amount: int, sel: Selection, next: Selection)
    requires key in live && i < |live[key]| && sel.accumulated < amount
    requires next == if live[key][i].pubKeyHash == owner
      then Selection(Wrap64(sel.accumulated + live[key][i].value), sel.picks + [(key, i)]) else sel
    ensures ScanEntry(key, live[key], i, owner, amount, sel) ==
      if next.accumulated >= amount then next else ScanEntry(key, live[key], i + 1, owner, amount, next)
  {
  }

  lemma {:induction false} ScanEntryPicks(live: Entries, key: Bytes, i: nat, owner: Bytes, amount: int, sel: Selection, visited: seq<Bytes>)
    returns (r: Selection)
    requires key in live && i <= |live[key]| && AllNonNegative(live[key])
    requires SelectionOk(live, owner, amount, sel) && 0 <= sel.accumulated < amount
    requires sel.accumulated + Sum(live[key][i..], Owner(owner)) <= MAX_INT64
    requires PicksBefore(sel.picks, visited, key, i)
    ensures r == ScanEntry(key, live[key], i, owner, amount, sel)
    ensures SelectionOk(live, owner, amount, r) && PicksBefore(r.picks, visited, key, |live[key]|)
    decreases |live[key]| - i
  {
    r := sel;
    if i < |live[key]| {
      if live[key][i].pubKeyHash == owner {
        r := ScanTakes(live, key, i, owner, amount, sel, visited);
        ScanStep(live, key, i, owner, amount, sel, r);
        if r.accumulated < amount {
          r := ScanEntryPicks(live, key, i + 1, owner, amount, r, visited);
        } else {
          PicksBeforeLater(r.picks, visited, key, i + 1, |live[key]|);
        }
      } else {
        SumRest(live[key], i, Owner(owner));
        ScanStep(live, key, i, owner, amount, sel, sel);
        PicksBeforeLater(sel.picks, visited, key, i, i + 1);
        r := ScanEntryPicks(live, key, i + 1, owner, amount, sel, visited);
      }
    }
  }

  predicate PicksVisited(picks: seq<Outpoint>, visited: seq<Bytes>) {
    forall j :: 0 <= j < |picks| ==> picks[j].0 in visited
  }

  lemma {:induction false} ScanAllPicks(live: Entries, order: seq<Bytes>, owner: Bytes, amount: int, sel: Selection, visited: seq<Bytes>)
    requires forall i :: 0 <= i < |order| ==> order[i] in live
    requires NonNegative(live) && 0 <= sel.accumulated < amount
    requires sel.accumulated + TotalOver(live, order, Owner(owner)) <= MAX_INT64
    requires SelectionOk(live, owner, amount, sel) && PicksVisited(sel.picks, visited)
    requires Distinct(visited + order)
    ensures SelectionOk(live, owner, amount, ScanAll(live, order, owner, amount, sel))
    decreases |order|
  {
    if order != [] {
      var key, outputs := order[0], live[order[0]];
      assert AllNonNegative(outputs) && outputs[0..] == outputs;
      TotalOverNonNegative(live, order[1..], Owner(owner));
      KeyNotVisited(visited, order);
      ScanEntryAmount(key, outputs, 0, owner, amount, sel);
      var sel' := ScanEntryPicks(live, key, 0, owner, amount, sel, visited);
      if sel'.accumulated < amount {
        assert visited + [key] + order[1..] == visited + order;
        ScanAllPicks(live, order[1..], owner, amount, sel', visited + [key]);
      }
    }
  }

  lemma KeyNotVisited(visited: seq<Bytes>, order: seq<Bytes>)
    requires Distinct(visited + order) && order != []
    ensures order[0] !in visited
  {
    assert (visited + order)[|visited|] == order[0];
    forall j | 0 <= j < |visited| ensures visited[j] != order[0] {
      assert (visited + order)[j] == visited[j];
    }
  }

  /** FindSpendableOutputs, whatever the traversal order: it fails exactly when the balance falls short;
      otherwise the picks are the owner's, in range, distinct, ascending per transaction, sum to what was
      accumulated, and without the last of them fall short of the amount. */
  lemma SelectionCorrect(live: Entries, order: seq<Bytes>, owner: Bytes, amount: int)
    requires Enumerates(order, live) && NonNegative(live) && amount > 0
    requires Total(live, Owner(owner)) <= MAX_INT64
    ensures var sel := Select(live, order, owner, amount);
      (sel.accumulated < amount <==> Total(live, Owner(owner)) < amount) &&
      sel.accumulated <= Total(live, Owner(owner)) &&
      SelectionOk(live, owner, amount, sel) && Distinct(sel.picks)
  {
    TotalOverEnumeration(live, order, Owner(owner));
    ScanAllAmount(live, order, owner, amount, NOTHING);
    assert [] + order == order;
    ScanAllPicks(live, order, owner, amount, NOTHING, []);
    AscendingIsDistinct(Select(live, order, owner, amount).picks);
  }

  lemma AscendingIsDistinct(picks: seq<Outpoint>)
    requires Ascending(picks)
    ensures Distinct(picks)
  {
  }

  /** A non-positive amount selects nothing and always succeeds. */
  lemma NonPositiveSelectsNothing(live: Entries, order: seq<Bytes>, owner: Bytes, amount: int)
    requires Enumerates(order, live) && amount <= 0
    ensures Select(live, order, owner, amount) == NOTHING
  {
    if order != [] {
      ScanEntryIdle(order[0], live[order[0]], 0, owner, amount);
    }
  }

  lemma {:induction false} ScanEntryIdle(key: Bytes, outputs: seq<TxOutput>, i: nat, owner: Bytes, amount: int)
    requires i <= |outputs| && amount <= 0
    ensures ScanEntry(key, outputs, i, owner, amount, NOTHING) == NOTHING
    decreases |outputs| - i
  {
    if i < |outputs| {
      ScanEntryIdle(key, outputs, i + 1, owner, amount);
    }
  }

  /** The grouped picks: which transactions, and for each the indices picked, in order. */
  lemma {:induction false} GroupKeys(picks: seq<Outpoint>, key: Bytes)
    ensures key in Group(picks) <==> exists i :: 0 <= i < |picks| && picks[i].0 == key
    decreases |picks|
  {
    if picks != [] {
      var front := picks[..|picks| - 1];
      GroupKeys(front, key);
      if key in Group(front) {
        var i :| 0 <= i < |front| && front[i].0 == key;
        assert picks[i].0 == key;
      } else if exists i :: 0 <= i < |picks| && picks[i].0 == key {
        var i :| 0 <= i < |picks| && picks[i].0 == key;
        assert i == |picks| - 1 || front[i].0 == key;
      }
      if picks[|picks| - 1].0 == key {
        assert key in Group(picks);
      }
    }
  }

  /** No transaction is picked from twice. */
  predicate OnePerTx(picks: seq<Outpoint>) {
    forall i, j :: 0 <= i < j < |picks| ==> picks[i].0 != picks[j].0
  }

  lemma {:induction false} GroupSingle(picks: seq<Outpoint>, i: nat)
    requires OnePerTx(picks) && i < |picks|
    ensures picks[i].0 in Group(picks) && Group(picks)[picks[i].0] == [picks[i].1]
    decreases |picks|
  {
    var n := |picks| - 1;
    var front := picks[..n];
    if i < n {
      GroupSingle(front, i);
    } else {
      GroupKeys(front, picks[n].0);
    }
  }

  /** ---------- Nothing is passed over ---------- */

  /** The owner's outputs i, i+1, ... of an entry. */
  function OwnedIn(key: Bytes, outputs: seq<TxOutput>, i: nat, owner: Bytes): seq<Outpoint>
    requires i <= |outputs|
    decreases |outputs| - i
  {
    if i == |outputs| then []
    else (if outputs[i].pubKeyHash == owner then [(key, i)] else []) + OwnedIn(key, outputs, i + 1, owner)
  }

  /** All the owner's outputs, in the order in which the entries are traversed. */
  function AllOwned(live: Entries, order: seq<Bytes>, owner: Bytes): seq<Outpoint>
    requires forall i :: 0 <= i < |order| ==> order[i] in live
  {
    if order == [] then [] else OwnedIn(order[0], live[order[0]], 0, owner) + AllOwned(live, order[1..], owner)
  }

  /** `more` adds to `picks` a prefix of `list`: all of it unless the amount has been reached. */
  predicate Picks(sel: Selection, more: Selection, list: seq<Outpoint>, amount: int) {
    more.picks <= sel.picks + list && sel.picks <= more.picks && (more.accumulated < amount ==> more.picks == sel.picks + list)
  }

  lemma {:induction false} ScanEntryInOrder(key: Bytes, outputs: seq<TxOutput>, i: nat, owner: Bytes, amount: int, sel: Selection)
    requires i <= |outputs| && sel.accumulated < amount
    ensures Picks(sel, ScanEntry(key, outputs, i, owner, amount, sel), OwnedIn(key, outputs, i, owner), amount)
    decreases |outputs| - i
  {
    if i < |outputs| {
      if outputs[i].pubKeyHash == owner {
        var next := Selection(Wrap64(sel.accumulated + outputs[i].value), sel.picks + [(key, i)]);
        if next.accumulated < amount {
          ScanEntryInOrder(key, outputs, i + 1, owner, amount, next);
        }
        assert sel.picks + OwnedIn(key, outputs, i, owner) == next.picks + OwnedIn(key, outputs, i + 1, owner);
      } else {
        ScanEntryInOrder(key, outputs, i + 1, owner, amount, sel);
      }
    }
  }

  lemma {:induction false} ScanAllInOrder(live: Entries, order: seq<Bytes>, owner: Bytes, amount: int, sel: Selection)
    requires sel.accumulated < amount && forall i :: 0 <= i < |order| ==> order[i] in live
    ensures Picks(sel, ScanAll(live, order, owner, amount, sel), AllOwned(live, order, owner), amount)
    decreases |order|
  {
    if order != [] {
      var here := OwnedIn(order[0], live[order[0]], 0, owner);
      var next := ScanEntry(order[0], live[order[0]], 0, owner, amount, sel);
      ScanEntryInOrder(order[0], live[order[0]], 0, owner, amount, sel);
      if next.accumulated < amount {
        ScanAllInOrder(live, order[1..], owner, amount, next);
        PicksOn(sel, next, ScanAll(live, order[1..], owner, amount, next), here, AllOwned(live, order[1..], owner), amount);
      } else {
        PicksEnough(sel, next, here, AllOwned(live, order[1..], owner), amount);
      }
    }
  }

  lemma PicksOn(a: Selection, b: Selection, c: Selection, here: seq<Outpoint>, rest: seq<Outpoint>, amount: int)
    requires Picks(a, b, here, amount) && b.accumulated < amount && Picks(b, c, rest, amount)
    ensures Picks(a, c, here + rest, amount)
  {
    assert a.picks + (here + rest) == b.picks + rest;
  }

  lemma PicksEnough(a: Selection, b: Selection, here: seq<Outpoint>, rest: seq<Outpoint>, amount: int)
    requires Picks(a, b, here, amount) && b.accumulated >= amount
    ensures Picks(a, b, here + rest, amount)
  {
    assert a.picks + (here + rest) == (a.picks + here) + rest;
  }

  /** The selection goes through the owner's outputs in traversal order and passes none over; it stops early only
      because the amount is reached. */
  lemma SelectsInOrder(live: Entries, order: seq<Bytes>, owner: Bytes, amount: int)
    requires Enumerates(order, live) && amount > 0
    ensures var sel := Select(live, order, owner, amount);
      sel.picks <= AllOwned(live, order, owner) && (sel.accumulated < amount ==> sel.picks == AllOwned(live, order, owner))
  {
    ScanAllInOrder(live, order, owner, amount, NOTHING);
    assert NOTHING.picks + AllOwned(live, order, owner) == AllOwned(live, order, owner);
  }
}
