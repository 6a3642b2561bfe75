/** The UTXO set object: map entries are slices of the recorded transactions' own arrays. */
module UTXOSets {
  import opened Prelude
  import opened ByteStrings
  import opened Crypto
  import opened Transactions
  import opened Ledgers
  import opened CoinSelection
  import opened Blocks

  /** A Go slice that starts at the front of its backing array. */
  datatype Slice = Slice(arr: array<TxOutput>, len: nat)

  /** The map after one output of `txID` is gone: a shorter slice, or no entry. */
  function Shortened(utxos: map<Bytes, Slice>, txID: Bytes): map<Bytes, Slice>
    requires txID in utxos && utxos[txID].len > 0
  {
    if utxos[txID].len == 1 then utxos - {txID}
    else utxos[txID := Slice(utxos[txID].arr, utxos[txID].len - 1)]
  }

  /** What each array holds. */
  type Memory = map<array<TxOutput>, seq<TxOutput>>

  predicate SlicesFit(utxos: map<Bytes, Slice>, memory: Memory) {
    forall id :: id in utxos ==> utxos[id].arr in memory && utxos[id].len <= |memory[utxos[id].arr]|
  }

  /** No two transactions were recorded with the same array. */
  ghost predicate Separate(recorded: map<Bytes, array<TxOutput>>, memory: Memory) {
    && (forall id :: id in recorded ==> recorded[id] in memory)
    && (forall a, b :: a in recorded && b in recorded && a != b ==> recorded[a] != recorded[b])
  }

  /** `live` is what the entries show. */
  predicate LiveMatches(utxos: map<Bytes, Slice>, memory: Memory, live: map<Bytes, seq<TxOutput>>) {
    && SlicesFit(utxos, memory) && live.Keys == utxos.Keys
    && forall id :: id in utxos ==> live[id] == memory[utxos[id].arr][..utxos[id].len]
  }

  /** The aliasing invariant: every entry is a prefix of the array its transaction was recorded
      with, no two transactions share an array, and `content` is what the arrays hold. */
  ghost predicate LinkedTo(utxos: map<Bytes, Slice>, recorded: map<Bytes, array<TxOutput>>, memory: Memory, content: Ledger) {
    && Separate(recorded, memory)
    && (forall id :: id in utxos ==> id in recorded && utxos[id].arr == recorded[id])
    && LiveMatches(utxos, memory, content.live)
    && content.recorded.Keys == recorded.Keys
    && (forall id :: id in recorded ==> content.recorded[id] == memory[recorded[id]])
  }

  /** The memory after the removal: one array is spliced. */
  function SplicedMemory(utxos: map<Bytes, Slice>, memory: Memory, txID: Bytes, k: nat): Memory
    requires txID in utxos && k < utxos[txID].len && SlicesFit(utxos, memory)
  {
    memory[utxos[txID].arr := Spliced(memory[utxos[txID].arr], utxos[txID].len, k)]
  }

  lemma ShortenedFits(utxos: map<Bytes, Slice>, memory: Memory, txID: Bytes, k: nat)
    requires txID in utxos && k < utxos[txID].len && SlicesFit(utxos, memory)
    ensures SlicesFit(Shortened(utxos, txID), SplicedMemory(utxos, memory, txID, k))
  {
  }

  /** Splicing one slice in place is `Remove` on the content: no other transaction sees it. */
  lemma SpliceIsRemove(utxos: map<Bytes, Slice>, recorded: map<Bytes, array<TxOutput>>, memory: Memory, content: Ledger, txID: Bytes, k: nat)
    requires LinkedTo(utxos, recorded, memory, content) && txID in utxos && k < utxos[txID].len
    ensures Spendable(content, txID, k)
    ensures LinkedTo(Shortened(utxos, txID), recorded, SplicedMemory(utxos, memory, txID, k), Remove(content, txID, k))
  {
    SplicedSeparate(utxos, recorded, memory, txID, k);
    ShortenedFits(utxos, memory, txID, k);
    SplicedLive(utxos, memory, content, txID, k);
    SplicedRecords(utxos, recorded, memory, content, txID, k);
  }

  lemma SplicedSeparate(utxos: map<Bytes, Slice>, recorded: map<Bytes, array<TxOutput>>, memory: Memory, txID: Bytes, k: nat)
    requires Separate(recorded, memory) && SlicesFit(utxos, memory) && txID in utxos && k < utxos[txID].len
    requires forall id :: id in utxos ==> id in recorded && utxos[id].arr == recorded[id]
    ensures Separate(recorded, SplicedMemory(utxos, memory, txID, k))
    ensures forall id :: id in Shortened(utxos, txID) ==> id in recorded && Shortened(utxos, txID)[id].arr == recorded[id]
  {
  }

  lemma SplicedRecords(utxos: map<Bytes, Slice>, recorded: map<Bytes, array<TxOutput>>, memory: Memory, content: Ledger, txID: Bytes, k: nat)
    requires LinkedTo(utxos, recorded, memory, content) && txID in utxos && k < utxos[txID].len && Spendable(content, txID, k)
    ensures var memory' := SplicedMemory(utxos, memory, txID, k);
      forall id :: id in recorded ==> Remove(content, txID, k).recorded[id] == memory'[recorded[id]]
  {
    var memory', content' := SplicedMemory(utxos, memory, txID, k), Remove(content, txID, k);
    forall id | id in recorded ensures content'.recorded[id] == memory'[recorded[id]] {
      assert id != txID ==> recorded[id] != utxos[txID].arr;
    }
  }

  lemma SplicedLive(utxos: map<Bytes, Slice>, memory: Memory, content: Ledger, txID: Bytes, k: nat)
    requires LiveMatches(utxos, memory, content.live) && txID in utxos && k < utxos[txID].len
    requires forall id :: id in utxos && id != txID ==> utxos[id].arr != utxos[txID].arr
    ensures LiveMatches(Shortened(utxos, txID), SplicedMemory(utxos, memory, txID, k), Remove(content, txID, k).live)
  {
    var utxos', memory' := Shortened(utxos, txID), SplicedMemory(utxos, memory, txID, k);
    var live' := Remove(content, txID, k).live;
    ShortenedFits(utxos, memory, txID, k);
    forall id | id in utxos' ensures live'[id] == memory'[utxos'[id].arr][..utxos'[id].len] {
      if id != txID {
        assert utxos'[id] == utxos[id];
      }
    }
  }

  lemma OneMoreSeparate(recorded: map<Bytes, array<TxOutput>>, memory: Memory, txID: Bytes, a: array<TxOutput>, cells: seq<TxOutput>)
    requires Separate(recorded, memory) && forall id :: id in recorded ==> recorded[id] != a
    ensures Separate(recorded[txID := a], memory[a := cells])
  {
  }

  lemma OneMoreLive(utxos: map<Bytes, Slice>, memory: Memory, live: map<Bytes, seq<TxOutput>>, txID: Bytes, a: array<TxOutput>, cells: seq<TxOutput>)
    requires LiveMatches(utxos, memory, live) && forall id :: id in utxos ==> utxos[id].arr != a
    ensures LiveMatches(utxos[txID := Slice(a, |cells|)], memory[a := cells], live[txID := cells])
  {
  }

  /** Adding a transaction with an array of its own is `Add` on the content. */
  lemma SliceIsAdd(utxos: map<Bytes, Slice>, recorded: map<Bytes, array<TxOutput>>, memory: Memory, content: Ledger, txID: Bytes, a: array<TxOutput>, cells: seq<TxOutput>)
    requires LinkedTo(utxos, recorded, memory, content)
    requires forall id :: id in recorded ==> recorded[id] != a
    ensures LinkedTo(utxos[txID := Slice(a, |cells|)], recorded[txID := a], memory[a := cells], Add(content, txID, cells))
  {
    var recorded', memory' := recorded[txID := a], memory[a := cells];
    OneMoreSeparate(recorded, memory, txID, a, cells);
    OneMoreLive(utxos, memory, content.live, txID, a, cells);
    OneMoreRecorded(recorded, memory, content, txID, a, cells);
  }

  lemma OneMoreRecorded(recorded: map<Bytes, array<TxOutput>>, memory: Memory, content: Ledger, txID: Bytes, a: array<TxOutput>, cells: seq<TxOutput>)
    requires Separate(recorded, memory) && content.recorded.Keys == recorded.Keys
    requires forall id :: id in recorded ==> content.recorded[id] == memory[recorded[id]] && recorded[id] != a
    ensures var recorded' := recorded[txID := a];
      forall id :: id in recorded' ==> id in content.recorded[txID := cells] && content.recorded[txID := cells][id] == memory[a := cells][recorded'[id]]
  {
  }

  /** ---------- Whoever shares the arrays ---------- */

  /** The entries, and what the arrays hold. */
  datatype Held = Held(utxos: map<Bytes, Slice>, memory: Memory)

  ghost predicate Sound(h: Held) {
    SlicesFit(h.utxos, h.memory)
  }

  ghost predicate Removable(h: Held, input: TxInput) {
    Key(input.txid) in h.utxos && 0 <= input.outIndex < h.utxos[Key(input.txid)].len
  }

  ghost function RemoveHeld(h: Held, input: TxInput): (h': Held)
    requires Sound(h) && Removable(h, input)
    ensures Sound(h')
  {
    var id := Key(input.txid);
    ShortenedFits(h.utxos, h.memory, id, input.outIndex);
    Held(Shortened(h.utxos, id), SplicedMemory(h.utxos, h.memory, id, input.outIndex))
  }

  /** Remove the inputs in order, up to the first that can not be removed. */
  ghost function RemoveAllHeld(h: Held, inputs: seq<TxInput>): (r: (Held, bool))
    requires Sound(h)
    ensures Sound(r.0) && r.0.memory.Keys == h.memory.Keys
    decreases |inputs|
  {
    if inputs == [] then (h, true)
    else if !Removable(h, inputs[0]) then (h, false)
    else RemoveAllHeld(RemoveHeld(h, inputs[0]), inputs[1..])
  }

  /** Keep an array as an entry; if it is in use already it holds what the removals have left of it. */
  ghost function AddHeld(h: Held, id: Bytes, a: array<TxOutput>, outputs: seq<TxOutput>): (h': Held)
    requires Sound(h)
    ensures Sound(h')
  {
    var cells := if a in h.memory then h.memory[a] else outputs;
    Held(h.utxos[id := Slice(a, |cells|)], h.memory[a := cells])
  }

  ghost function UpdateHeld(h: Held, v: TxV, a: array<TxOutput>): (r: (Held, bool))
    requires Sound(h)
    ensures Sound(r.0)
  {
    var (h', ok) := if IsCoinbase(v.inputs) then (h, true) else RemoveAllHeld(h, v.inputs);
    (if ok then AddHeld(h', v.id, a, v.outputs) else h', ok)
  }

  type Arrays = seq<array<TxOutput>>

  ghost function OutputsOf(txs: seq<Transaction>): Arrays
    reads txs
  {
    seq(|txs|, j requires 0 <= j < |txs| reads txs => txs[j].Outputs)
  }

  /** Update with each transaction in order, up to the first failure. */
  ghost function UpdateAllHeld(h: Held, vals: seq<TxV>, own: Arrays): (r: (Held, bool))
    requires Sound(h) && |own| == |vals|
    ensures Sound(r.0)
    decreases |vals|
  {
    if vals == [] then (h, true)
    else
      var (h', ok) := UpdateHeld(h, vals[0], own[0]);
      if ok then UpdateAllHeld(h', vals[1..], own[1..]) else (h', false)
  }

  /** Update with each transaction in order, failures ignored. */
  ghost function ReplayHeld(h: Held, vals: seq<TxV>, own: Arrays): (h': Held)
    requires Sound(h) && |own| == |vals|
    ensures Sound(h')
    decreases |vals|
  {
    if vals == [] then h else ReplayHeld(UpdateHeld(h, vals[0], own[0]).0, vals[1..], own[1..])
  }

  /** Of an array in use already, only what it holds now matters. */
  lemma UseHides(h: Held, v: TxV, w: TxV, a: array<TxOutput>)
    requires Sound(h) && v.id == w.id && v.inputs == w.inputs && (a in h.memory || v.outputs == w.outputs)
    ensures UpdateHeld(h, v, a) == UpdateHeld(h, w, a)
  {
  }

  /** After n transactions the rest leads from here where all of them lead from `h`. */
  ghost predicate Updating(now: Held, n: int, h: Held, vals: seq<TxV>, own: Arrays) {
    && Sound(now) && Sound(h) && 0 <= n <= |vals| == |own|
    && UpdateAllHeld(now, vals[n..], own[n..]) == UpdateAllHeld(h, vals, own)
  }

  lemma UpdatingNext(before: Held, n: nat, h: Held, vals: seq<TxV>, own: Arrays, after: Held, ok: bool)
    requires n < |vals| && Updating(before, n, h, vals, own) && (after, ok) == UpdateHeld(before, vals[n], own[n])
    ensures if ok then Updating(after, n + 1, h, vals, own) else (after, false) == UpdateAllHeld(h, vals, own)
  {
    assert vals[n..][0] == vals[n] && vals[n..][1..] == vals[n + 1..];
    assert own[n..][0] == own[n] && own[n..][1..] == own[n + 1..];
  }

  ghost predicate ReplayingHeld(now: Held, n: int, h: Held, vals: seq<TxV>, own: Arrays) {
    && Sound(now) && Sound(h) && 0 <= n <= |vals| == |own|
    && ReplayHeld(now, vals[n..], own[n..]) == ReplayHeld(h, vals, own)
  }

  lemma ReplayingHeldNext(before: Held, n: nat, h: Held, vals: seq<TxV>, own: Arrays, after: Held, ok: bool)
    requires n < |vals| && ReplayingHeld(before, n, h, vals, own) && (after, ok) == UpdateHeld(before, vals[n], own[n])
    ensures ReplayingHeld(after, n + 1, h, vals, own)
  {
    assert vals[n..][0] == vals[n] && vals[n..][1..] == vals[n + 1..];
    assert own[n..][0] == own[n] && own[n..][1..] == own[n + 1..];
  }

  function ArraysOf(txs: seq<Transaction>): set<array<TxOutput>>
    reads txs
  {
    set t | t in txs :: t.Outputs
  }

  /** The records after some of the transactions have been added. */
  ghost predicate AddsOnly(before: map<Bytes, array<TxOutput>>, after: map<Bytes, array<TxOutput>>, txs: seq<Transaction>)
    reads txs
  {
    && before.Keys <= after.Keys
    && forall id :: id in after ==> (id in before && after[id] == before[id]) || RecordOf(txs, id, after[id])
  }

  ghost predicate AllRecorded(txs: seq<Transaction>, n: nat, recorded: map<Bytes, array<TxOutput>>)
    reads txs
  {
    forall j :: 0 <= j < n && j < |txs| ==> txs[j].ID in recorded
  }

  lemma RecordsMore(before: map<Bytes, array<TxOutput>>, recorded: map<Bytes, array<TxOutput>>, txs: seq<Transaction>, n: nat)
    requires n < |txs| && AddsOnly(before, recorded, txs)
    ensures AddsOnly(before, recorded[txs[n].ID := txs[n].Outputs], txs)
  {
    assert RecordOf(txs, txs[n].ID, txs[n].Outputs) by {
      var t := txs[n];
      assert t in txs;
    }
  }

  lemma RecordsOneMore(before: map<Bytes, array<TxOutput>>, recorded: map<Bytes, array<TxOutput>>, txs: seq<Transaction>, n: nat)
    requires n < |txs| && AddsOnly(before, recorded, txs) && AllRecorded(txs, n, recorded)
    ensures AddsOnly(before, recorded[txs[n].ID := txs[n].Outputs], txs)
    ensures AllRecorded(txs, n + 1, recorded[txs[n].ID := txs[n].Outputs])
  {
    RecordsMore(before, recorded, txs, n);
  }

  lemma ReplayStep(l: Ledger, vals: seq<TxV>, n: nat, before: Ledger, after: Ledger, ok: bool)
    requires n < |vals|
    ensures before == Replay(l, vals[..n]) && (after, ok) == Update(before, vals[n]) ==> after == Replay(l, vals[..n + 1])
  {
    assert vals[..n + 1][..n] == vals[..n];
  }

  lemma {:induction false} UpdateAllStops(l: Ledger, vals: seq<TxV>, n: nat)
    requires n < |vals| && !UpdateAll(l, vals[..n + 1]).1
    ensures UpdateAll(l, vals) == UpdateAll(l, vals[..n + 1])
    decreases |vals|
  {
    if n + 1 < |vals| {
      var init := vals[..|vals| - 1];
      assert init[..n + 1] == vals[..n + 1];
      UpdateAllStops(l, init, n);
    } else {
      assert vals[..n + 1] == vals;
    }
  }

  /** Applying the first n transactions to `l` gives `after`. */
  predicate Applied(l: Ledger, vals: seq<TxV>, n: nat, after: Ledger, ok: bool) {
    n <= |vals| && UpdateAll(l, vals[..n]) == (after, ok)
  }

  lemma UpdateAllStep(l: Ledger, vals: seq<TxV>, n: nat, before: Ledger, after: Ledger, ok: bool)
    requires n < |vals|
    ensures Applied(l, vals, n, before, true) && (after, ok) == Update(before, vals[n]) ==>
      Applied(l, vals, n + 1, after, ok) && (ok || UpdateAll(l, vals) == (after, ok))
  {
    assert vals[..n + 1][..n] == vals[..n];
    if !UpdateAll(l, vals[..n + 1]).1 {
      UpdateAllStops(l, vals, n);
    }
  }

  ghost predicate RecordOf(txs: seq<Transaction>, id: Bytes, outputs: array<TxOutput>)
    reads txs
  {
    exists t :: t in txs && t.ID == id && t.Outputs == outputs
  }

  /** The first n entries are worth `exact`, and the accumulator holds that. */
  ghost predicate Tallied(live: Entries, order: seq<Bytes>, n: int, who: Who, balance: int, exact: int) {
    && 0 <= n <= |order| && (forall i :: 0 <= i < |order| ==> order[i] in live)
    && balance == Wrap64(exact) && exact + TotalOver(live, order[n..], who) == Total(live, who)
  }

  lemma TotalOverNext(live: Entries, order: seq<Bytes>, n: nat, who: Who)
    requires n < |order| && forall i :: 0 <= i < |order| ==> order[i] in live
    ensures TotalOver(live, order[n..], who) == Sum(live[order[n]], who) + TotalOver(live, order[n + 1..], who)
  {
    assert order[n..][0] == order[n] && order[n..][1..] == order[n + 1..];
  }

  class UTXOSet {
    var UTXOs: map<Bytes, Slice>

    /** The array each transaction was added with, whether or not anything of it is still unspent. */
    ghost var Recorded: map<Bytes, array<TxOutput>>
    /** Every array ever added, with what it holds. */
    ghost var Cells: Memory
    /** The content as plain lists; meaningful while `Linked()` holds. */
    ghost var Content: Ledger

    ghost function Holding(): Held
      reads this
    {
      Held(UTXOs, Cells)
    }

    ghost predicate Tied()
      reads this, Cells.Keys
    {
      forall a :: a in Cells ==> Cells[a] == a[..]
    }

    ghost predicate Valid()
      reads this, Cells.Keys
    {
      Tied() && SlicesFit(UTXOs, Cells)
    }

    ghost predicate Linked()
      reads this
    {
      LinkedTo(UTXOs, Recorded, Cells, Content)
    }

    ghost predicate Shows(live: map<Bytes, seq<TxOutput>>)
      reads this, set id | id in UTXOs :: UTXOs[id].arr
    {
      && live.Keys == UTXOs.Keys
      && (forall id :: id in UTXOs ==> UTXOs[id].len <= UTXOs[id].arr.Length)
      && (forall id :: id in UTXOs ==> live[id] == UTXOs[id].arr[..UTXOs[id].len])
    }

    ghost function Live(): map<Bytes, seq<TxOutput>>
      requires Valid()
      reads this, Cells.Keys
    {
      map id | id in UTXOs :: UTXOs[id].arr[..UTXOs[id].len]
    }

    constructor ()
      ensures Valid() && Linked() && Content == EMPTY && UTXOs == map[] && Recorded == map[] && Cells == map[]
    {
      UTXOs, Recorded, Cells, Content := map[], map[], map[], EMPTY;
    }

    /** Entries are prefixes of the recorded arrays, so the two lookups agree. */
    lemma LinkedIsAliased()
      requires Valid() && Linked()
      ensures Aliased(Content) && Live() == Content.live
    {
    }

    method AddUTXO(txID: Bytes, outputs: array<TxOutput>)
      requires Valid()
      modifies this
      ensures Valid() && Cells == old(Cells)[outputs := outputs[..]]
      ensures UTXOs == old(UTXOs)[txID := Slice(outputs, outputs.Length)]
      ensures Recorded == old(Recorded)[txID := outputs]
      ensures old(Linked()) && outputs !in old(Recorded).Values ==>
        Linked() && Content == Add(old(Content), txID, outputs[..])
    {
      if Linked() && outputs !in Recorded.Values {
        SliceIsAdd(UTXOs, Recorded, Cells, Content, txID, outputs, outputs[..]);
      }
      UTXOs := UTXOs[txID := Slice(outputs, outputs.Length)];
      Recorded := Recorded[txID := outputs];
      Cells := Cells[outputs := outputs[..]];
      Content := Add(Content, txID, outputs[..]);
    }

    method RemoveUTXO(txID: Bytes, index: int) returns (ok: bool)
      requires Valid()
      modifies `UTXOs, `Cells, `Content, Cells.Keys
      ensures Valid() && Cells.Keys == old(Cells).Keys
      ensures ok <==> txID in old(UTXOs) && 0 <= index < old(UTXOs)[txID].len
      ensures !ok ==> UTXOs == old(UTXOs) && Cells == old(Cells) && Content == old(Content)
      ensures ok ==> UTXOs == Shortened(old(UTXOs), txID)
      ensures ok ==> Cells == SplicedMemory(old(UTXOs), old(Cells), txID, index)
      ensures old(Linked()) ==> Linked()
      ensures old(Linked()) && ok ==> Spendable(old(Content), txID, index) && Content == Remove(old(Content), txID, index)
    {
      if txID !in UTXOs {
        return false;
      }
      var outputs := UTXOs[txID];
      if index < 0 || index >= outputs.len {
        return false;
      }
      RemoveOne(txID, index, UTXOs, Cells);
      ok := true;
    }

    method RemoveOne(txID: Bytes, index: nat, ghost utxos: map<Bytes, Slice>, ghost memory: Memory)
      requires Valid() && utxos == UTXOs && memory == Cells && txID in utxos && index < utxos[txID].len
      modifies `UTXOs, `Cells, `Content, Cells.Keys
      ensures Valid() && UTXOs == Shortened(utxos, txID) && Cells == SplicedMemory(utxos, memory, txID, index)
      ensures LinkedTo(utxos, Recorded, memory, old(Content)) ==>
        Linked() && Spendable(old(Content), txID, index) && Content == Remove(old(Content), txID, index)
    {
      RemoveCell(UTXOs[txID], index);
      Shorten(txID);
      ShortenedFits(utxos, memory, txID, index);
      FollowRemove(utxos, memory, txID, index);
    }

    /** Keep `Content` in step with a removal. */
    ghost method FollowRemove(utxos: map<Bytes, Slice>, memory: Memory, txID: Bytes, k: nat)
      requires txID in utxos && k < utxos[txID].len && SlicesFit(utxos, memory)
      requires UTXOs == Shortened(utxos, txID) && Cells == SplicedMemory(utxos, memory, txID, k)
      modifies `Content
      ensures LinkedTo(utxos, Recorded, memory, old(Content)) ==>
        Linked() && Spendable(old(Content), txID, k) && Content == Remove(old(Content), txID, k)
    {
      if LinkedTo(utxos, Recorded, memory, Content) {
        SpliceIsRemove(utxos, Recorded, memory, Content, txID, k);
        Content := Remove(Content, txID, k);
      }
    }

    /** append(outputs[:index], outputs[index+1:]...) writes into the shared array. */
    method RemoveCell(outputs: Slice, index: nat)
      requires Tied() && outputs.arr in Cells && index < outputs.len <= outputs.arr.Length
      modifies `Cells, outputs.arr
      ensures Tied() && Cells == old(Cells)[outputs.arr := Spliced(old(Cells)[outputs.arr], outputs.len, index)]
    {
      Splice(outputs, index);
      Cells := Cells[outputs.arr := outputs.arr[..]];
    }

    method Shorten(txID: Bytes)
      requires txID in UTXOs && UTXOs[txID].len > 0
      modifies `UTXOs
      ensures UTXOs == Shortened(old(UTXOs), txID)
    {
      var outputs := Slice(UTXOs[txID].arr, UTXOs[txID].len - 1);
      if outputs.len == 0 {
        UTXOs := UTXOs - {txID};
      } else {
        UTXOs := UTXOs[txID := outputs];
      }
    }

    method FindUTXO(txID: Bytes, index: int) returns (r: Option<TxOutput>)
      requires Valid()
      ensures r == if txID in Live() && 0 <= index < |Live()[txID]| then Some(Live()[txID][index]) else None
    {
      if txID !in UTXOs {
        return None;
      }
      var outputs := UTXOs[txID];
      if index < 0 || index >= outputs.len {
        return None;
      }
      r := Some(outputs.arr[index]);
    }

    /** Sum the owner's outputs over every entry, in whatever order the map is traversed. */
    method GetBalance(env: Env, address: Bytes) returns (r: Outcome<int>)
      requires Valid()
      ensures env.decodeAddress(address).None? ==> r == Err
      ensures env.decodeAddress(address).Some? ==>
        r == Ok(Wrap64(Total(Live(), Owner(env.decodeAddress(address).value))))
    {
      var decoded := env.decodeAddress(address);
      if decoded.None? {
        return Err;
      }
      var balance := OwnedBy(decoded.value, Live());
      r := Ok(balance);
    }

    method OwnedBy(pubKeyHash: Bytes, ghost live: Entries) returns (balance: int)
      requires Shows(live)
      ensures balance == Wrap64(Total(live, Owner(pubKeyHash)))
    {
      ghost var who := Owner(pubKeyHash);
      var order := TraversalOrder(UTXOs);
      balance := 0;
      ghost var exact := 0;
      TotalOverEnumeration(live, order, who);
      assert order[0..] == order;
      for n := 0 to |order|
        invariant Tallied(live, order, n, who, balance, exact)
      {
        balance, exact := AddEntry(live, order, n, pubKeyHash, balance, exact);
      }
      assert order[|order|..] == [];
    }

    method AddEntry(ghost live: Entries, order: seq<Bytes>, n: nat, pubKeyHash: Bytes, start: int, ghost exact: int)
      returns (balance: int, ghost more: int)
      requires Shows(live) && n < |order| && Tallied(live, order, n, Owner(pubKeyHash), start, exact)
      ensures Tallied(live, order, n + 1, Owner(pubKeyHash), balance, more)
    {
      TotalOverNext(live, order, n, Owner(pubKeyHash));
      assert live[order[n]] == UTXOs[order[n]].arr[..UTXOs[order[n]].len];
      balance := SumEntry(UTXOs[order[n]], pubKeyHash, start, exact);
      more := exact + Sum(live[order[n]], Owner(pubKeyHash));
    }

    /** The selection, under the order in which the map happens to be traversed. */
    method FindSpendableOutputs(env: Env, address: Bytes, amount: int)
      returns (r: Outcome<(int, map<Bytes, seq<nat>>)>, ghost order: seq<Bytes>)
      requires Valid()
      ensures Enumerates(order, Live())
      ensures env.decodeAddress(address).None? ==> r == Err
      ensures env.decodeAddress(address).Some? ==>
        var sel := Select(Live(), order, env.decodeAddress(address).value, amount);
        r == if sel.accumulated < amount then Err else Ok((sel.accumulated, Group(sel.picks)))
    {
      var decoded := env.decodeAddress(address);
      if decoded.None? {
        var keys := TraversalOrder(UTXOs);
        order := keys;
        return Err, order;
      }
      var accumulated, unspent;
      accumulated, unspent, order := SelectOutputs(decoded.value, amount, Live());
      if accumulated < amount {
        return Err, order;
      }
      r := Ok((accumulated, unspent));
    }

    method SelectOutputs(owner: Bytes, amount: int, ghost live: Entries)
      returns (accumulated: int, unspent: map<Bytes, seq<nat>>, ghost order: seq<Bytes>)
      requires Shows(live)
      ensures Enumerates(order, live)
      ensures var sel := Select(live, order, owner, amount);
        accumulated == sel.accumulated && unspent == Group(sel.picks)
    {
      var keys := TraversalOrder(UTXOs);
      accumulated, unspent, order := 0, map[], keys;
      ghost var sel := NOTHING;
      assert forall i :: 0 <= i < |keys| ==> keys[i] in live;
      var n := 0;
      while n < |keys|
        invariant 0 <= n <= |keys|
        invariant accumulated == sel.accumulated && unspent == Group(sel.picks)
        invariant ScanAll(live, keys[n..], owner, amount, sel) == ScanAll(live, keys, owner, amount, NOTHING)
      {
        assert keys[n..][0] == keys[n] && keys[n..][1..] == keys[n + 1..];
        assert live[keys[n]] == UTXOs[keys[n]].arr[..UTXOs[keys[n]].len];
        accumulated, unspent, sel := ScanSlice(UTXOs[keys[n]], keys[n], owner, amount, accumulated, unspent, sel);
        if accumulated >= amount {
          break;
        }
        n := n + 1;
      }
    }

    /** Removing the inputs from i on leads from here where removing all of them leads from the start. */
    ghost predicate Removing(inputs: seq<TxInput>, i: int, h: Held, l: Ledger, linked: bool)
      requires Valid() && Sound(h)
      reads this, Cells.Keys
    {
      && 0 <= i <= |inputs| && Cells.Keys == h.memory.Keys
      && RemoveAllHeld(Holding(), inputs[i..]) == RemoveAllHeld(h, inputs)
      && (linked ==> Linked() && RemoveInputs(Content, inputs[i..]) == RemoveInputs(l, inputs))
    }

    method RemoveNth(inputs: seq<TxInput>, i: nat, ghost h: Held, ghost l: Ledger, ghost linked: bool) returns (ok: bool)
      requires Valid() && Sound(h) && i < |inputs| && Removing(inputs, i, h, l, linked)
      modifies `UTXOs, `Cells, `Content, Cells.Keys
      ensures Valid() && Cells.Keys == old(Cells).Keys
      ensures ok ==> Removing(inputs, i + 1, h, l, linked)
      ensures !ok ==> (Holding(), false) == RemoveAllHeld(h, inputs)
      ensures !ok && linked ==> Linked() && (Content, false) == RemoveInputs(l, inputs)
    {
      ghost var rest := inputs[i..];
      assert rest[0] == inputs[i] && rest[1..] == inputs[i + 1..];
      ok := RemoveUTXO(Key(inputs[i].txid), inputs[i].outIndex);
    }

    /** Remove the inputs, in order, up to the first that can not be removed. */
    method RemoveEach(inputs: seq<TxInput>, ghost l: Ledger, ghost linked: bool) returns (ok: bool)
      requires Valid() && (linked ==> Linked() && Content == l)
      modifies `UTXOs, `Cells, `Content, Cells.Keys
      ensures Valid() && (Holding(), ok) == RemoveAllHeld(old(Holding()), inputs) && Cells.Keys == old(Cells).Keys
      ensures linked ==> Linked() && (Content, ok) == RemoveInputs(l, inputs)
    {
      ghost var h := Holding();
      var i := 0;
      RemovingStarts(inputs, linked);
      while i < |inputs|
        invariant 0 <= i <= |inputs| && Valid() && Removing(inputs, i, h, l, linked)
      {
        ok := RemoveNth(inputs, i, h, l, linked);
        if !ok {
          return;
        }
        i := i + 1;
      }
      RemovingEnds(inputs, h, l, linked);
      ok := true;
    }

    lemma RemovingStarts(inputs: seq<TxInput>, linked: bool)
      requires Valid() && (linked ==> Linked())
      ensures Removing(inputs, 0, Holding(), Content, linked)
    {
      assert inputs[0..] == inputs;
    }

    lemma RemovingEnds(inputs: seq<TxInput>, h: Held, l: Ledger, linked: bool)
      requires Valid() && Sound(h) && Removing(inputs, |inputs|, h, l, linked)
      ensures (Holding(), true) == RemoveAllHeld(h, inputs)
      ensures linked ==> Linked() && (Content, true) == RemoveInputs(l, inputs)
    {
      assert inputs[|inputs|..] == [];
    }

    /** Remove the inputs, then add the outputs; a failed removal stops the update where it is. */
    method Update(t: Transaction) returns (ok: bool)
      requires Valid()
      modifies this, Cells.Keys
      ensures Valid() && (Holding(), ok) == UpdateHeld(old(Holding()), old(t.Value()), t.Outputs)
      ensures Recorded == if ok then old(Recorded)[t.ID := t.Outputs] else old(Recorded)
      ensures Cells.Keys == old(Cells).Keys + if ok then {t.Outputs} else {}
      ensures old(Linked()) && t.Outputs !in old(Cells) ==>
        Linked() && (Content, ok) == Ledgers.Update(old(Content), old(t.Value()))
    {
      ghost var l, linked := Content, Linked() && t.Outputs !in Cells;
      ok := true;
      if !IsCoinbase(t.Inputs) {
        ok := RemoveEach(t.Inputs, l, linked);
      }
      if ok {
        AddUTXO(t.ID, t.Outputs);
      }
    }

    /** Transactions n, n+1, ... still hold `vals`, in arrays not used here yet. */
    ghost predicate Waiting(txs: seq<Transaction>, n: nat, vals: seq<TxV>)
      requires |vals| == |txs|
      reads this, txs, set t | t in txs :: t.Outputs
    {
      OwnArrays(txs) && forall j :: n <= j < |txs| ==> txs[j].Outputs !in Cells && txs[j].Value() == vals[j]
    }

    /** Transactions n, n+1, ... still hold `vals`, unless an array is in use here already. */
    ghost predicate Pending(txs: seq<Transaction>, n: nat, vals: seq<TxV>, own: Arrays)
      reads this, txs, set t | t in txs :: t.Outputs
    {
      && |vals| == |txs| == |own| && n <= |txs| && (forall j :: 0 <= j < |txs| ==> own[j] == txs[j].Outputs)
      && (forall j :: n <= j < |txs| ==> txs[j].ID == vals[j].id && txs[j].Inputs == vals[j].inputs)
      && (forall j :: n <= j < |txs| ==> own[j] in Cells || own[j][..] == vals[j].outputs)
    }

    /** Update, as one of a list of transactions. */
    method UpdateListed(t: Transaction, ghost txs: seq<Transaction>, ghost n: nat, ghost vals: seq<TxV>, ghost own: Arrays) returns (ok: bool)
      requires Valid() && n < |txs| == |vals| && t == txs[n] && Pending(txs, n, vals, own)
      modifies this, Cells.Keys
      ensures Valid() && Pending(txs, n + 1, vals, own)
      ensures (Holding(), ok) == UpdateHeld(old(Holding()), vals[n], own[n])
      ensures Recorded == if ok then old(Recorded)[t.ID := t.Outputs] else old(Recorded)
      ensures Cells.Keys == old(Cells).Keys + if ok then {t.Outputs} else {}
      ensures old(Linked() && Waiting(txs, n, vals)) ==>
        Linked() && (Content, ok) == Ledgers.Update(old(Content), vals[n]) && Waiting(txs, n + 1, vals)
    {
      UseHides(Holding(), t.Value(), vals[n], own[n]);
      ok := Update(t);
    }

    /** The first n transactions have been applied to `l`, the others wait. */
    ghost predicate Midway(txs: seq<Transaction>, n: nat, vals: seq<TxV>, l: Ledger)
      requires |vals| == |txs|
      reads this, txs, set t | t in txs :: t.Outputs
    {
      Linked() && Waiting(txs, n, vals) && Applied(l, vals, n, Content, true)
    }

    /** All that is known of the loop over a block's transactions before round n. */
    ghost predicate BlockMidway(txs: seq<Transaction>, n: int, vals: seq<TxV>, own: Arrays, h: Held, l: Ledger,
                                records: map<Bytes, array<TxOutput>>, linked: bool)
      reads this, txs, set t | t in txs :: t.Outputs
    {
      && 0 <= n <= |txs| && Pending(txs, n, vals, own) && Updating(Holding(), n, h, vals, own)
      && AddsOnly(records, Recorded, txs) && AllRecorded(txs, n, Recorded)
      && (linked ==> Midway(txs, n, vals, l))
    }

    /** All that is known after the loop. */
    ghost predicate BlockDone(txs: seq<Transaction>, vals: seq<TxV>, own: Arrays, h: Held, l: Ledger,
                              records: map<Bytes, array<TxOutput>>, linked: bool, ok: bool)
      reads this, txs
    {
      && Sound(h) && |own| == |vals| && (Holding(), ok) == UpdateAllHeld(h, vals, own)
      && AddsOnly(records, Recorded, txs) && (ok ==> AllRecorded(txs, |txs|, Recorded))
      && (linked ==> Linked() && (Content, ok) == UpdateAll(l, vals))
    }

    lemma BlockStarts(txs: seq<Transaction>, vals: seq<TxV>, own: Arrays, linked: bool)
      requires Valid() && Pending(txs, 0, vals, own) && (linked ==> Linked() && Waiting(txs, 0, vals))
      ensures BlockMidway(txs, 0, vals, own, Holding(), Content, Recorded, linked)
    {
      assert vals[..0] == [] && vals[0..] == vals && own[0..] == own;
    }

    lemma BlockEnds(txs: seq<Transaction>, vals: seq<TxV>, own: Arrays, h: Held, l: Ledger,
                    records: map<Bytes, array<TxOutput>>, linked: bool)
      requires BlockMidway(txs, |txs|, vals, own, h, l, records, linked)
      ensures BlockDone(txs, vals, own, h, l, records, linked, true)
    {
      assert vals[..|vals|] == vals && vals[|vals|..] == [] && own[|own|..] == [];
    }

    /** One round of the loop over a block's transactions. */
    method UpdateNth(txs: seq<Transaction>, n: nat, ghost vals: seq<TxV>, ghost own: Arrays, ghost h: Held, ghost l: Ledger,
                     ghost records: map<Bytes, array<TxOutput>>, ghost linked: bool)
      returns (ok: bool)
      requires Valid() && n < |txs| && BlockMidway(txs, n, vals, own, h, l, records, linked)
      modifies this, Cells.Keys
      ensures Valid() && Cells.Keys <= old(Cells).Keys + {txs[n].Outputs}
      ensures if ok then BlockMidway(txs, n + 1, vals, own, h, l, records, linked) else BlockDone(txs, vals, own, h, l, records, linked, false)
    {
      ghost var before, recorded, held := Content, Recorded, Holding();
      ok := UpdateListed(txs[n], txs, n, vals, own);
      UpdatingNext(held, n, h, vals, own, Holding(), ok);
      UpdateAllStep(l, vals, n, before, Content, ok);
      if ok {
        RecordsOneMore(records, recorded, txs, n);
      }
    }

    /** Update with every transaction of a block, up to the first failure. `arrays` are the arrays it may touch. */
    method UpdateBlock(txs: seq<Transaction>, ghost vals: seq<TxV>, ghost own: Arrays, ghost arrays: set<array<TxOutput>>, ghost linked: bool)
      returns (ok: bool)
      requires Valid() && Pending(txs, 0, vals, own) && (linked ==> Linked() && Waiting(txs, 0, vals))
      requires Cells.Keys <= arrays && forall j :: 0 <= j < |txs| ==> txs[j].Outputs in arrays
      modifies this, arrays
      ensures Valid() && Cells.Keys <= arrays
      ensures BlockDone(txs, vals, own, old(Holding()), old(Content), old(Recorded), linked, ok)
    {
      ghost var l, h, records := Content, Holding(), Recorded;
      BlockStarts(txs, vals, own, linked);
      var n := 0;
      while n < |txs|
        invariant Valid() && Cells.Keys <= arrays && BlockMidway(txs, n, vals, own, h, l, records, linked)
      {
        ok := UpdateNth(txs, n, vals, own, h, l, records, linked);
        if !ok {
          return;
        }
        n := n + 1;
      }
      BlockEnds(txs, vals, own, h, l, records, linked);
      ok := true;
    }

    /** The first n transactions have been replayed on `l`, the others wait. */
    ghost predicate Replaying(txs: seq<Transaction>, n: nat, vals: seq<TxV>, l: Ledger)
      requires n <= |txs| == |vals|
      reads this, txs, set t | t in txs :: t.Outputs
    {
      Linked() && Content == Replay(l, vals[..n]) && Waiting(txs, n, vals)
    }

    /** Update, ignoring a failure. */
    method ReplayNext(t: Transaction, ghost txs: seq<Transaction>, ghost n: nat, ghost vals: seq<TxV>, ghost own: Arrays, ghost h: Held, ghost l: Ledger,
                      ghost linked: bool)
      returns (ok: bool)
      requires n < |txs| == |vals| && t == txs[n] && Valid() && (linked ==> Replaying(txs, n, vals, l))
      requires Pending(txs, n, vals, own) && ReplayingHeld(Holding(), n, h, vals, own)
      modifies this, Cells.Keys
      ensures Valid() && Pending(txs, n + 1, vals, own) && ReplayingHeld(Holding(), n + 1, h, vals, own)
      ensures Recorded == if ok then old(Recorded)[t.ID := t.Outputs] else old(Recorded)
      ensures Cells.Keys == old(Cells).Keys + if ok then {t.Outputs} else {}
      ensures linked ==> Replaying(txs, n + 1, vals, l)
    {
      ghost var held := Holding();
      ok := ReplayListed(t, txs, n, vals, own, l);
      ReplayingHeldNext(held, n, h, vals, own, Holding(), ok);
    }

    method ReplayListed(t: Transaction, ghost txs: seq<Transaction>, ghost n: nat, ghost vals: seq<TxV>, ghost own: Arrays, ghost l: Ledger)
      returns (ok: bool)
      requires n < |txs| == |vals| && t == txs[n] && Valid() && Pending(txs, n, vals, own)
      modifies this, Cells.Keys
      ensures Valid() && Pending(txs, n + 1, vals, own) && (Holding(), ok) == UpdateHeld(old(Holding()), vals[n], own[n])
      ensures Recorded == if ok then old(Recorded)[t.ID := t.Outputs] else old(Recorded)
      ensures Cells.Keys == old(Cells).Keys + if ok then {t.Outputs} else {}
      ensures old(Replaying(txs, n, vals, l)) ==> Replaying(txs, n + 1, vals, l)
    {
      ghost var before := Content;
      ok := UpdateListed(t, txs, n, vals, own);
      ReplayStep(l, vals, n, before, Content, ok);
    }

    /** All from the empty ledger, with the arrays among `arrays`; nothing else has happened. */
    ghost predicate Replayed(txs: seq<Transaction>, n: nat, vals: seq<TxV>, arrays: set<array<TxOutput>>)
      requires n <= |txs| == |vals|
      reads this, txs, set t | t in txs :: t.Outputs
    {
      && Replaying(txs, n, vals, EMPTY) && AddsOnly(map[], Recorded, txs)
      && Cells.Keys <= arrays && forall j :: 0 <= j < |txs| ==> txs[j].Outputs in arrays
    }

    method ReplayOne(t: Transaction, ghost txs: seq<Transaction>, ghost n: nat, ghost vals: seq<TxV>, ghost arrays: set<array<TxOutput>>)
      requires n < |txs| == |vals| && t == txs[n]
      requires Valid() && Replayed(txs, n, vals, arrays)
      modifies this, Cells.Keys
      ensures Valid() && Replayed(txs, n + 1, vals, arrays)
    {
      assert t in txs;
      RecordsMore(map[], Recorded, txs, n);
      WaitingIsPending(txs, n, vals, OutputsOf(txs));
      var ok := ReplayListed(t, txs, n, vals, OutputsOf(txs), EMPTY);
    }

    lemma WaitingIsPending(txs: seq<Transaction>, n: nat, vals: seq<TxV>, own: Arrays)
      requires n <= |vals| == |txs| && Waiting(txs, n, vals) && own == OutputsOf(txs)
      ensures Pending(txs, n, vals, own)
    {
      forall j | n <= j < |txs| ensures own[j][..] == vals[j].outputs && txs[j].ID == vals[j].id && txs[j].Inputs == vals[j].inputs {
        assert txs[j].Value() == vals[j];
      }
    }

    /** Update with every transaction of a received block, ignoring failures: the content is replayed. */
    method UpdateEach(txs: seq<Transaction>, ghost vals: seq<TxV>, ghost own: Arrays, ghost arrays: set<array<TxOutput>>)
      requires Valid() && Pending(txs, 0, vals, own)
      requires Cells.Keys <= arrays && forall j :: 0 <= j < |txs| ==> txs[j].Outputs in arrays
      modifies this, arrays
      ensures Valid() && Cells.Keys <= arrays && Holding() == ReplayHeld(old(Holding()), vals, own)
      ensures old(Linked() && Waiting(txs, 0, vals)) ==> Linked() && Content == Replay(old(Content), vals)
    {
      ghost var l, h, linked := Content, Holding(), Linked() && Waiting(txs, 0, vals);
      var n := 0;
      assert vals[..0] == [] && vals[..|vals|] == vals && vals[0..] == vals && own[0..] == own;
      while n < |txs|
        invariant 0 <= n <= |txs| && Valid() && Cells.Keys <= arrays
        invariant Pending(txs, n, vals, own) && ReplayingHeld(Holding(), n, h, vals, own)
        invariant linked ==> Replaying(txs, n, vals, l)
      {
        var ok := ReplayNext(txs[n], txs, n, vals, own, h, l, linked);
        n := n + 1;
      }
    }
  }

  /** The inner loop of GetBalance, on one entry; `exact` is the unwrapped sum so far. */
  method SumEntry(outputs: Slice, pubKeyHash: Bytes, start: int, ghost exact: int) returns (balance: int)
    requires outputs.len <= outputs.arr.Length && start == Wrap64(exact)
    ensures balance == Wrap64(exact + Sum(outputs.arr[..outputs.len], Owner(pubKeyHash)))
  {
    ghost var list, who := outputs.arr[..outputs.len], Owner(pubKeyHash);
    balance := start;
    var i := 0;
    while i < outputs.len
      invariant 0 <= i <= outputs.len
      invariant balance == Wrap64(exact + Sum(list[..i], who))
    {
      var out := outputs.arr[i];
      assert list[..i + 1][..i] == list[..i];
      if out.pubKeyHash == pubKeyHash {
        WrapSum(exact + Sum(list[..i], who), out.value);
        balance := Wrap64(balance + out.value);
      }
      i := i + 1;
    }
    assert list[..i] == list;
  }

  /** The selection after output i of an entry has been looked at. */
  ghost function Scanned(txID: Bytes, out: TxOutput, i: nat, owner: Bytes, amount: int, sel: Selection): Selection {
    if out.pubKeyHash == owner && sel.accumulated < amount
    then Selection(Wrap64(sel.accumulated + out.value), sel.picks + [(txID, i)]) else sel
  }

  lemma ScanOne(txID: Bytes, list: seq<TxOutput>, i: nat, owner: Bytes, amount: int, sel: Selection)
    requires i < |list|
    ensures var sel' := Scanned(txID, list[i], i, owner, amount, sel);
      ScanEntry(txID, list, i, owner, amount, sel) ==
        if sel' != sel && sel'.accumulated >= amount then sel' else ScanEntry(txID, list, i + 1, owner, amount, sel')
  {
  }

  /** One round of the inner loop of FindSpendableOutputs; `done` says that the amount has just been reached. */
  method ScanOutput(out: TxOutput, i: nat, txID: Bytes, owner: Bytes, amount: int, acc: int, picked: map<Bytes, seq<nat>>, ghost sel: Selection)
    returns (accumulated: int, unspent: map<Bytes, seq<nat>>, done: bool, ghost sel': Selection)
    requires acc == sel.accumulated && picked == Group(sel.picks)
    ensures sel' == Scanned(txID, out, i, owner, amount, sel) && done == (sel' != sel && sel'.accumulated >= amount)
    ensures accumulated == sel'.accumulated && unspent == Group(sel'.picks)
  {
    accumulated, unspent, done, sel' := acc, picked, false, sel;
    if out.pubKeyHash == owner && accumulated < amount {
      accumulated := Wrap64(accumulated + out.value);
      unspent := unspent[txID := (if txID in unspent then unspent[txID] else []) + [i]];
      ghost var picks := sel.picks + [(txID, i)];
      assert picks[..|picks| - 1] == sel.picks;
      sel' := Selection(accumulated, picks);
      done := accumulated >= amount;
    }
  }

  /** The inner loop of FindSpendableOutputs, on one entry. */
  method ScanSlice(outputs: Slice, txID: Bytes, owner: Bytes, amount: int, acc: int, picked: map<Bytes, seq<nat>>, ghost sel: Selection)
    returns (accumulated: int, unspent: map<Bytes, seq<nat>>, ghost sel': Selection)
    requires outputs.len <= outputs.arr.Length
    requires acc == sel.accumulated && picked == Group(sel.picks)
    ensures sel' == ScanEntry(txID, outputs.arr[..outputs.len], 0, owner, amount, sel)
    ensures accumulated == sel'.accumulated && unspent == Group(sel'.picks)
  {
    ghost var list := outputs.arr[..outputs.len];
    accumulated, unspent, sel' := acc, picked, sel;
    var i, done := 0, false;
    while i < outputs.len && !done
      invariant 0 <= i <= outputs.len
      invariant accumulated == sel'.accumulated && unspent == Group(sel'.picks)
      invariant ScanEntry(txID, list, 0, owner, amount, sel) == if done then sel' else ScanEntry(txID, list, i, owner, amount, sel')
    {
      ScanOne(txID, list, i, owner, amount, sel');
      accumulated, unspent, done, sel' := ScanOutput(outputs.arr[i], i, txID, owner, amount, accumulated, unspent, sel');
      i := i + 1;
    }
  }

  /** Go traverses a map in an order of its own choosing. */
  method TraversalOrder<V>(m: map<Bytes, V>) returns (order: seq<Bytes>)
    ensures Enumerates(order, m)
  {
    order := [];
    var keys := m.Keys;
    while keys != {}
      invariant keys <= m.Keys && Distinct(order)
      invariant forall key :: key in order <==> key in m && key !in keys
      decreases keys
    {
      var key :| key in keys;
      order := order + [key];
      keys := keys - {key};
    }
  }

  /** append(outputs[:index], outputs[index+1:]...), in place. */
  method Splice(outputs: Slice, index: nat)
    requires index < outputs.len <= outputs.arr.Length
    modifies outputs.arr
    ensures outputs.arr[..] == Spliced(old(outputs.arr[..]), outputs.len, index)
  {
    forall i | index <= i < outputs.len - 1 {
      outputs.arr[i] := outputs.arr[i + 1];
    }
  }
}
