/** Loading a blockchain from disk. */
module Loading {
  import opened Prelude
  import opened ByteStrings
  import opened Crypto
  import opened Header
  import opened Transactions
  import opened Ledgers
  import opened Compaction
  import opened Chains
  import opened Nodes
  import opened Executions
  import opened HonestRuns
  import opened Blocks
  import opened UTXOSets
  import opened Links
  import opened Reload
  import opened Storages
  import opened Blockchains
  import opened Startup

  /** ---------- Lists of lists ---------- */

  function Flatten<T>(s: seq<seq<T>>): seq<T> {
    if s == [] then [] else Flatten(s[..|s| - 1]) + s[|s| - 1]
  }

  lemma {:induction false} FlattenPrepend<T>(x: seq<T>, s: seq<seq<T>>)
    ensures Flatten([x] + s) == x + Flatten(s)
    decreases |s|
  {
    if s == [] {
      assert ([x] + s)[..0] == [];
    } else {
      assert ([x] + s)[..|s|] == [x] + s[..|s| - 1];
      FlattenPrepend(x, s[..|s| - 1]);
    }
  }

  function TxLists(chain: Chain): (r: seq<seq<TxV>>)
    ensures |r| == |chain|
  {
    seq(|chain|, i requires 0 <= i < |chain| => chain[i].txs)
  }

  lemma {:induction false} AllTxsFlat(chain: Chain)
    ensures AllTxs(chain) == Flatten(TxLists(chain))
    decreases |chain|
  {
    if chain != [] {
      AllTxsFlat(chain[..|chain| - 1]);
      assert TxLists(chain)[..|chain| - 1] == TxLists(chain[..|chain| - 1]);
    }
  }

  lemma AllTxsPrepend(b: BlockV, chain: Chain)
    ensures AllTxs([b] + chain) == b.txs + AllTxs(chain)
  {
    AllTxsFlat([b] + chain);
    AllTxsFlat(chain);
    assert TxLists([b] + chain) == [b.txs] + TxLists(chain);
    FlattenPrepend(b.txs, TxLists(chain));
  }

  predicate Alike<A, B>(a: seq<seq<A>>, b: seq<seq<B>>) {
    |a| == |b| && forall i :: 0 <= i < |a| ==> |a[i]| == |b[i]|
  }

  lemma {:induction false} FlattenAlike<A, B>(a: seq<seq<A>>, b: seq<seq<B>>)
    requires Alike(a, b)
    ensures |Flatten(a)| == |Flatten(b)|
    decreases |a|
  {
    if a != [] {
      FlattenAlike(a[..|a| - 1], b[..|b| - 1]);
    }
  }

  /** Place (i, j) is at the same position k in both flat lists. */
  predicate AtPlace<A(==), B(==)>(a: seq<seq<A>>, b: seq<seq<B>>, i: int, j: int, k: int) {
    && 0 <= i < |a| && i < |b| && 0 <= j < |a[i]| && j < |b[i]| && 0 <= k < |Flatten(a)| && k < |Flatten(b)|
    && Flatten(a)[k] == a[i][j] && Flatten(b)[k] == b[i][j]
  }

  lemma {:induction false} PositionOf<A, B>(a: seq<seq<A>>, b: seq<seq<B>>, i: nat, j: nat) returns (k: nat)
    requires Alike(a, b) && i < |a| && j < |a[i]|
    ensures AtPlace(a, b, i, j, k)
    decreases |a|
  {
    var n := |a| - 1;
    FlattenAlike(a[..n], b[..n]);
    if i < n {
      k := PositionOf(a[..n], b[..n], i, j);
    } else {
      k := |Flatten(a[..n])| + j;
    }
  }

  lemma {:induction false} PlaceOf<A, B>(a: seq<seq<A>>, b: seq<seq<B>>, k: nat) returns (i: nat, j: nat)
    requires Alike(a, b) && k < |Flatten(a)|
    ensures AtPlace(a, b, i, j, k)
    decreases |a|
  {
    var n := |a| - 1;
    FlattenAlike(a[..n], b[..n]);
    if k < |Flatten(a[..n])| {
      i, j := PlaceOf(a[..n], b[..n], k);
    } else {
      i, j := n, k - |Flatten(a[..n])|;
    }
  }

  /** ---------- Walking back ---------- */

  /** The blocks have been read back as `chain`; `flat` are all their transactions, each with its own output array. */
  ghost predicate Restored(blocks: seq<Block>, lists: seq<seq<Transaction>>, chain: Chain, flat: seq<Transaction>)
    reads blocks, flat, set t | t in flat :: t.Outputs
  {
    && |blocks| == |chain| && Alike(lists, TxLists(chain)) && flat == Flatten(lists)
    && (forall i :: 0 <= i < |blocks| ==> HeaderRestored(blocks[i], lists[i], chain[i]))
    && Values(flat) == AllTxs(chain) && OwnArrays(flat)
  }

  ghost predicate HeaderRestored(b: Block, list: seq<Transaction>, v: BlockV)
    reads b
  {
    b.Transactions == list && b.Header == v.header && b.Hash == v.hash
  }

  lemma ValuesConcat(a: seq<Transaction>, b: seq<Transaction>)
    ensures Values(a + b) == Values(a) + Values(b)
  {
  }

  /** Prepending a block read from disk. */
  lemma RestoredPrepend(b: Block, v: BlockV, blocks: seq<Block>, lists: seq<seq<Transaction>>, chain: Chain, flat: seq<Transaction>)
    requires Restored(blocks, lists, chain, flat)
    requires b.Snapshot() == v && OwnArrays(b.Transactions)
    requires forall t, u :: t in b.Transactions && u in flat ==> t.Outputs != u.Outputs
    ensures Restored([b] + blocks, [b.Transactions] + lists, [v] + chain, b.Transactions + flat)
  {
    FlattenPrepend(b.Transactions, lists);
    AllTxsPrepend(v, chain);
    ValuesConcat(b.Transactions, flat);
    AlikePrepend(b.Transactions, lists, v, chain);
    OwnArraysConcat(b.Transactions, flat);
  }

  lemma AlikePrepend(txs: seq<Transaction>, lists: seq<seq<Transaction>>, v: BlockV, chain: Chain)
    requires Alike(lists, TxLists(chain)) && |txs| == |v.txs|
    ensures Alike([txs] + lists, TxLists([v] + chain))
  {
  }

  lemma OwnArraysConcat(a: seq<Transaction>, b: seq<Transaction>)
    requires OwnArrays(a) && OwnArrays(b)
    requires forall t, u :: t in a && u in b ==> t.Outputs != u.Outputs
    ensures OwnArrays(a + b)
  {
  }

  /** With `chain` already read, reading on from `hash` for at most `left` blocks gives `goal`. */
  predicate Heading(st: Store, hash: Bytes, left: nat, chain: Chain, goal: Walk)
    decreases left
  {
    left > 0 &&
    if hash !in st.blocks then goal == Missing
    else
      var b := st.blocks[hash];
      if b.header.prevBlockHash == ZeroBytes(32) then goal == Walk.Blocks([b] + chain)
      else Heading(st, b.header.prevBlockHash, left - 1, [b] + chain, goal)
  }

  /** The walk, continued by blocks already read. */
  function Joined(w: Walk, chain: Chain): Walk {
    match w
    case Blocks(earlier) => Walk.Blocks(earlier + chain)
    case other => other
  }

  lemma {:induction false} WalkIsHeading(st: Store, hash: Bytes, steps: nat, chain: Chain)
    requires WalkBack(st, hash, steps) != Unfinished
    ensures Heading(st, hash, steps, chain, Joined(WalkBack(st, hash, steps), chain))
    decreases steps
  {
    if hash in st.blocks && st.blocks[hash].header.prevBlockHash != ZeroBytes(32) {
      var b := st.blocks[hash];
      var w := WalkBack(st, b.header.prevBlockHash, steps - 1);
      WalkIsHeading(st, b.header.prevBlockHash, steps - 1, [b] + chain);
      if w.Blocks? {
        assert w.blocks + [b] + chain == w.blocks + ([b] + chain);
      }
    }
  }

  lemma HeadingStart(st: Store, hash: Bytes, steps: nat)
    requires WalkBack(st, hash, steps) != Unfinished
    ensures Heading(st, hash, steps, [], WalkBack(st, hash, steps))
  {
    var w := WalkBack(st, hash, steps);
    assert w.Blocks? ==> w.blocks + [] == w.blocks;
    WalkIsHeading(st, hash, steps, []);
  }

  /** Read one block and put it in front. */
  method ReadBlock(store: Storage, hash: Bytes, blocks: seq<Block>, ghost lists: seq<seq<Transaction>>, ghost chain: Chain, ghost flat: seq<Transaction>)
    returns (r: Option<Block>)
    requires Restored(blocks, lists, chain, flat)
    ensures r.None? <==> hash !in store.db.blocks
    ensures r.Some? ==> r.value.Header == store.db.blocks[hash].header
    ensures r.Some? ==> forall t :: t in r.value.Transactions ==> fresh(t.Outputs)
    ensures r.Some? ==>
      Restored([r.value] + blocks, [r.value.Transactions] + lists, [store.db.blocks[hash]] + chain, r.value.Transactions + flat)
  {
    r := store.GetBlock(hash);
    if r.Some? {
      RestoredPrepend(r.value, store.db.blocks[hash], blocks, lists, chain, flat);
    }
  }

  /** Follow previous hashes from the tip back to a block without a predecessor. The loop need not end on a
      database whose hashes go round in a circle; `steps` is a bound under which it does. */
  method ReadChain(store: Storage, tip: Bytes, ghost steps: nat)
    returns (r: Option<seq<Block>>, ghost lists: seq<seq<Transaction>>, ghost chain: Chain, ghost flat: seq<Transaction>)
    requires WalkBack(store.db, tip, steps) != Unfinished
    ensures r.None? <==> WalkBack(store.db, tip, steps) == Missing
    ensures r.Some? ==> |chain| > 0 && WalkBack(store.db, tip, steps) == Walk.Blocks(chain)
    ensures r.Some? ==> Restored(r.value, lists, chain, flat)
    ensures forall t :: t in flat ==> fresh(t.Outputs)
  {
    var blocks: seq<Block>, currentHash := [], tip;
    lists, chain, flat := [], [], [];
    ghost var st, left, goal := store.db, steps, WalkBack(store.db, tip, steps);
    HeadingStart(st, tip, steps);
    while true
      invariant Restored(blocks, lists, chain, flat)
      invariant forall t :: t in flat ==> fresh(t.Outputs)
      invariant Heading(st, currentHash, left, chain, goal)
      decreases left
    {
      var block := ReadBlock(store, currentHash, blocks, lists, chain, flat);
      if block.None? {
        return None, lists, chain, flat;
      }
      chain, lists, flat := [st.blocks[currentHash]] + chain, [block.value.Transactions] + lists, block.value.Transactions + flat;
      blocks := [block.value] + blocks;
      if block.value.Header.prevBlockHash == ZeroBytes(32) {
        return Some(blocks), lists, chain, flat;
      }
      currentHash, left := block.value.Header.prevBlockHash, left - 1;
    }
  }

  /** ---------- Replaying ---------- */

  /** Replay the transactions of one block, which follow the first p of the flat list. */
  method ReplayBlock(u: UTXOSet, block: Block, ghost txs: seq<Transaction>, ghost flat: seq<Transaction>, ghost p: nat,
                     ghost vals: seq<TxV>, ghost arrays: set<array<TxOutput>>)
    requires block.Transactions == txs
    requires p + |txs| <= |flat| == |vals| && flat[p..p + |txs|] == txs
    requires u.Valid() && u.Replayed(flat, p, vals, arrays)
    modifies u, arrays
    ensures u.Valid() && u.Replayed(flat, p + |txs|, vals, arrays)
  {
    var transactions := block.Transactions;
    var n := 0;
    ghost var q := p;
    while n < |transactions|
      invariant 0 <= n <= |transactions| && q == p + n
      invariant u.Valid() && u.Replayed(flat, q, vals, arrays)
    {
      assert transactions[n] == flat[p..p + |txs|][n];
      u.ReplayOne(transactions[n], flat, q, vals, arrays);
      q := q + 1;
      n := n + 1;
    }
  }

  lemma {:induction false} FlattenSlice<T>(s: seq<seq<T>>, n: nat, p: nat)
    requires n < |s| && p == |Flatten(s[..n])|
    ensures p + |s[n]| == |Flatten(s[..n + 1])| <= |Flatten(s)|
    ensures Flatten(s)[p..p + |s[n]|] == s[n]
    decreases |s|
  {
    assert s[..n + 1][..n] == s[..n];
    if n + 1 < |s| {
      var init := s[..|s| - 1];
      assert init[..n] == s[..n] && init[..n + 1] == s[..n + 1] && init[n] == s[n];
      FlattenSlice(init, n, p);
    } else {
      assert s[..n + 1] == s;
    }
  }

  lemma NthList(lists: seq<seq<Transaction>>, flat: seq<Transaction>, n: nat, p: nat) returns (txs: seq<Transaction>)
    requires flat == Flatten(lists) && n < |lists| && p == |Flatten(lists[..n])|
    ensures txs == lists[n] && p + |txs| == |Flatten(lists[..n + 1])| <= |flat| && flat[p..p + |txs|] == txs
  {
    FlattenSlice(lists, n, p);
    txs := lists[n];
  }

  /** Replay all blocks in order. */
  method ReplayBlocks(u: UTXOSet, blocks: seq<Block>, ghost lists: seq<seq<Transaction>>, ghost flat: seq<Transaction>,
                      ghost vals: seq<TxV>, ghost arrays: set<array<TxOutput>>)
    requires |lists| == |blocks| && flat == Flatten(lists) && |flat| == |vals|
    requires forall i :: 0 <= i < |blocks| ==> blocks[i].Transactions == lists[i]
    requires u.Valid() && u.Replayed(flat, 0, vals, arrays)
    modifies u, arrays
    ensures u.Valid() && u.Replayed(flat, |flat|, vals, arrays)
  {
    var n := 0;
    ghost var p: nat := 0;
    assert lists[..0] == [];
    while n < |blocks|
      invariant 0 <= n <= |blocks| && p == |Flatten(lists[..n])| <= |flat|
      invariant u.Valid() && u.Replayed(flat, p, vals, arrays)
    {
      ghost var txs := NthList(lists, flat, n, p);
      ReplayBlock(u, blocks[n], txs, flat, p, vals, arrays);
      p := p + |txs|;
      n := n + 1;
    }
    assert lists[..n] == lists;
  }

  /** Rebuild the UTXO set from all blocks in order. */
  method RebuildUTXO(blocks: seq<Block>, ghost lists: seq<seq<Transaction>>, ghost chain: Chain, ghost flat: seq<Transaction>,
                     ghost arrays: set<array<TxOutput>>)
    returns (u: UTXOSet)
    requires Restored(blocks, lists, chain, flat) && forall k :: 0 <= k < |flat| ==> flat[k].Outputs in arrays
    modifies arrays
    ensures fresh(u) && u.Valid() && u.Linked() && u.Content == Replay(EMPTY, AllTxs(chain))
    ensures AddsOnly(map[], u.Recorded, flat) && u.Cells.Keys <= arrays
  {
    ghost var vals := AllTxs(chain);
    u := new UTXOSet();
    assert vals[..0] == [] && vals[..|vals|] == vals;
    forall i | 0 <= i < |blocks| ensures blocks[i].Transactions == lists[i] {
      assert HeaderRestored(blocks[i], lists[i], chain[i]);
    }
    ReplayBlocks(u, blocks, lists, flat, vals, arrays);
  }

  /** ---------- The loaded object ---------- */

  ghost predicate Within(lists: seq<seq<Transaction>>, flat: seq<Transaction>) {
    forall i, j :: 0 <= i < |lists| && 0 <= j < |lists[i]| ==> lists[i][j] in flat
  }

  ghost function CellsOf(lists: seq<seq<Transaction>>, flat: seq<Transaction>): (r: seq<Arrays>)
    requires Within(lists, flat)
    reads flat
    ensures |r| == |lists|
  {
    seq(|lists|, i requires 0 <= i < |lists| reads flat => OutputsOf(lists[i]))
  }

  /** The parts of `Restored` that no replay touches. */
  ghost predicate Outlined(blocks: seq<Block>, lists: seq<seq<Transaction>>, chain: Chain, flat: seq<Transaction>)
    reads blocks, flat
  {
    && |blocks| == |chain| && Alike(lists, TxLists(chain)) && flat == Flatten(lists)
    && (forall i :: 0 <= i < |blocks| ==> HeaderRestored(blocks[i], lists[i], chain[i]))
    && |flat| == |AllTxs(chain)|
    && forall k :: 0 <= k < |flat| ==> flat[k].ID == AllTxs(chain)[k].id && flat[k].Inputs == AllTxs(chain)[k].inputs
  }

  lemma RestoredIsOutlined(blocks: seq<Block>, lists: seq<seq<Transaction>>, chain: Chain, flat: seq<Transaction>)
    requires Restored(blocks, lists, chain, flat)
    ensures Outlined(blocks, lists, chain, flat)
  {
    forall k | 0 <= k < |flat| ensures flat[k].ID == AllTxs(chain)[k].id && flat[k].Inputs == AllTxs(chain)[k].inputs {
      assert Values(flat)[k] == flat[k].Value();
    }
  }

  lemma TxOutlined(blocks: seq<Block>, lists: seq<seq<Transaction>>, chain: Chain, flat: seq<Transaction>, i: nat, j: nat)
    returns (k: nat)
    requires Outlined(blocks, lists, chain, flat) && i < |blocks| && j < |lists[i]|
    ensures k < |flat| && flat[k] == lists[i][j] && AllTxs(chain)[k] == chain[i].txs[j]
    ensures lists[i][j].ID == chain[i].txs[j].id && lists[i][j].Inputs == chain[i].txs[j].inputs
  {
    k := PositionOf(lists, TxLists(chain), i, j);
    AllTxsFlat(chain);
  }

  lemma OutlinedWithin(blocks: seq<Block>, lists: seq<seq<Transaction>>, chain: Chain, flat: seq<Transaction>)
    requires Outlined(blocks, lists, chain, flat)
    ensures Within(lists, flat)
  {
    forall i, j | 0 <= i < |lists| && 0 <= j < |lists[i]| ensures lists[i][j] in flat {
      var k := TxOutlined(blocks, lists, chain, flat, i, j);
    }
  }

  /** A loaded block shows its snapshot. */
  lemma BlockShown(blocks: seq<Block>, lists: seq<seq<Transaction>>, chain: Chain, flat: seq<Transaction>, i: nat)
    requires Outlined(blocks, lists, chain, flat) && i < |blocks|
    ensures blocks[i].Shows(chain[i]) && forall t :: t in blocks[i].Transactions ==> t in flat
  {
    assert HeaderRestored(blocks[i], lists[i], chain[i]);
    forall j: nat | j < |lists[i]|
      ensures lists[i][j] in flat && lists[i][j].ID == chain[i].txs[j].id && lists[i][j].Inputs == chain[i].txs[j].inputs
    {
      var k := TxOutlined(blocks, lists, chain, flat, i, j);
      assert flat[k] == lists[i][j];
    }
  }

  lemma LoadedShown(blocks: seq<Block>, lists: seq<seq<Transaction>>, chain: Chain, flat: seq<Transaction>)
    requires Outlined(blocks, lists, chain, flat)
    ensures Within(lists, flat)
    ensures Shown(blocks, chain, CellsOf(lists, flat), set t | t in flat)
  {
    OutlinedWithin(blocks, lists, chain, flat);
    forall i | 0 <= i < |blocks|
      ensures blocks[i].Shows(chain[i]) && HasArrays(blocks[i], CellsOf(lists, flat)[i])
      ensures forall t :: t in blocks[i].Transactions ==> t in flat
    {
      BlockShown(blocks, lists, chain, flat, i);
      assert HeaderRestored(blocks[i], lists[i], chain[i]);
    }
  }

  /** Where the IDs are distinct and all recorded, each is recorded with its own transaction's array. */
  lemma LoadedRecords(blocks: seq<Block>, lists: seq<seq<Transaction>>, chain: Chain, flat: seq<Transaction>, recorded: map<Bytes, array<TxOutput>>)
    requires Outlined(blocks, lists, chain, flat) && Within(lists, flat)
    requires AddsOnly(map[], recorded, flat) && PairwiseDistinct(AllTxs(chain))
    requires forall k :: 0 <= k < |AllTxs(chain)| ==> AllTxs(chain)[k].id in recorded
    ensures RecordedAs(chain, CellsOf(lists, flat), recorded)
  {
    forall i: nat, j: nat | At(chain, i, j)
      ensures chain[i].txs[j].id in recorded && recorded[chain[i].txs[j].id] == CellsOf(lists, flat)[i][j]
    {
      OwnRecord(blocks, lists, chain, flat, recorded, i, j);
    }
    forall id | id in recorded ensures OnChain(chain, id) {
      RecordIsOnChain(blocks, lists, chain, flat, recorded, id);
    }
  }

  lemma RecordIsOnChain(blocks: seq<Block>, lists: seq<seq<Transaction>>, chain: Chain, flat: seq<Transaction>,
                        recorded: map<Bytes, array<TxOutput>>, id: Bytes)
    requires Outlined(blocks, lists, chain, flat) && AddsOnly(map[], recorded, flat) && id in recorded
    ensures OnChain(chain, id)
  {
    assert RecordOf(flat, id, recorded[id]);
    var k :| 0 <= k < |flat| && flat[k].ID == id;
    var i, j := PlaceOf(lists, TxLists(chain), k);
    AllTxsFlat(chain);
    assert At(chain, i, j) && chain[i].txs[j].id == id;
  }

  lemma OwnRecord(blocks: seq<Block>, lists: seq<seq<Transaction>>, chain: Chain, flat: seq<Transaction>,
                  recorded: map<Bytes, array<TxOutput>>, i: nat, j: nat)
    requires Outlined(blocks, lists, chain, flat) && Within(lists, flat)
    requires AddsOnly(map[], recorded, flat) && PairwiseDistinct(AllTxs(chain)) && At(chain, i, j)
    requires forall k :: 0 <= k < |AllTxs(chain)| ==> AllTxs(chain)[k].id in recorded
    ensures chain[i].txs[j].id in recorded && recorded[chain[i].txs[j].id] == CellsOf(lists, flat)[i][j]
  {
    var id := chain[i].txs[j].id;
    var k := TxOutlined(blocks, lists, chain, flat, i, j);
    assert RecordOf(flat, id, recorded[id]);
    var m :| 0 <= m < |flat| && flat[m].ID == id && flat[m].Outputs == recorded[id];
    assert AllTxs(chain)[m].id == AllTxs(chain)[k].id;
  }

  predicate IdsRecorded(n: Node) {
    && PairwiseDistinct(AllTxs(n.chain))
    && forall k :: 0 <= k < |AllTxs(n.chain)| ==> AllTxs(n.chain)[k].id in n.ledger.recorded
  }

  lemma LoadedParts(blocks: seq<Block>, lists: seq<seq<Transaction>>, chain: Chain, flat: seq<Transaction>, u: UTXOSet, bits: uint32)
    requires Outlined(blocks, lists, chain, flat) && AddsOnly(map[], u.Recorded, flat) && u.Linked()
    ensures Within(lists, flat) && Shown(blocks, chain, CellsOf(lists, flat), set t | t in flat)
    ensures IdsRecorded(Node(chain, bits, u.Content)) ==> RecordedAs(chain, CellsOf(lists, flat), u.Recorded)
  {
    LoadedShown(blocks, lists, chain, flat);
    if IdsRecorded(Node(chain, bits, u.Content)) {
      LoadedRecords(blocks, lists, chain, flat, u.Recorded);
    }
  }

  method Assemble(env: Env, store: Storage, bits: uint32, blocks: seq<Block>, utxoSet: UTXOSet,
                  ghost lists: seq<seq<Transaction>>, ghost chain: Chain, ghost flat: seq<Transaction>)
    returns (bc: Blockchain)
    requires |chain| > 0 && Outlined(blocks, lists, chain, flat)
    requires utxoSet.Valid() && utxoSet.Linked() && AddsOnly(map[], utxoSet.Recorded, flat)
    ensures fresh(bc) && bc.env == env && bc.Storage == store && bc.UTXOSet == utxoSet
    ensures bc.Valid() && bc.State() == Node(chain, bits, utxoSet.Content)
    ensures IdsRecorded(bc.State()) ==> bc.Linked()
  {
    LoadedParts(blocks, lists, chain, flat, utxoSet, bits);
    bc := new Blockchain(env, blocks, bits, utxoSet, store, chain, CellsOf(lists, flat), set t | t in flat);
  }

  /** Make the object from the blocks read. */
  method Restore(env: Env, store: Storage, bits: uint32, blocks: seq<Block>,
                 ghost lists: seq<seq<Transaction>>, ghost chain: Chain, ghost flat: seq<Transaction>,
                 ghost arrays: set<array<TxOutput>>)
    returns (bc: Blockchain)
    requires |chain| > 0 && Restored(blocks, lists, chain, flat)
    requires forall k :: 0 <= k < |flat| ==> flat[k].Outputs in arrays
    modifies arrays
    ensures fresh(bc) && bc.env == env && bc.Storage == store && fresh(bc.UTXOSet)
    ensures bc.Valid() && bc.UTXOSet.Linked() && bc.UTXOSet.Cells.Keys <= arrays
    ensures bc.State() == Node(chain, bits, Replay(EMPTY, AllTxs(chain)))
    ensures IdsRecorded(bc.State()) ==> bc.Linked()
  {
    RestoredIsOutlined(blocks, lists, chain, flat);
    var utxoSet := RebuildUTXO(blocks, lists, chain, flat, arrays);
    assert Outlined(blocks, lists, chain, flat);
    bc := Assemble(env, store, bits, blocks, utxoSet, lists, chain, flat);
  }

  /** loadBlockchain: the height is only read, the difficulty record is the difficulty, failed updates are ignored. */
  method LoadBlockchain(env: Env, store: Storage, ghost steps: nat) returns (r: Option<Blockchain>)
    requires store.db.tip.Some? ==> WalkBack(store.db, store.db.tip.value, steps) != Unfinished
    ensures r.None? <==> Loaded(store.db, steps).None?
    ensures r.Some? ==> r.value.env == env && r.value.Storage == store && fresh(r.value) && fresh(r.value.UTXOSet)
    ensures r.Some? ==> forall a :: a in r.value.UTXOSet.Cells ==> fresh(a)
    ensures r.Some? ==> r.value.Valid() && r.value.UTXOSet.Linked() && r.value.State() == Loaded(store.db, steps).value
    ensures r.Some? && IdsRecorded(r.value.State()) ==> r.value.Linked()
  {
    var height := store.db.height;
    if height.None? {
      return None;
    }
    var difficulty := store.db.bits;
    if difficulty.None? {
      return None;
    }
    var tip := store.db.tip;
    if tip.None? {
      return None;
    }
    var blocks, lists, chain, flat := ReadChain(store, tip.value, steps);
    if blocks.None? {
      return None;
    }
    var bc := Restore(env, store, difficulty.value, blocks.value, lists, chain, flat, ArraysOf(flat));
    r := Some(bc);
  }

  /** NewBlockchain: load if there is a tip, start a new chain otherwise. */
  method NewBlockchain(env: Env, genesisAddress: Bytes, store: Storage, now: int, ghost steps: nat) returns (r: Outcome<Blockchain>)
    requires store.db.tip.Some? ==> WalkBack(store.db, store.db.tip.value, steps) != Unfinished
    modifies store
    ensures old(store.db).tip.Some? && |old(store.db).tip.value| > 0 ==>
      store.db == old(store.db) && !r.Panic? && (r.Err? <==> Loaded(store.db, steps).None?)
    ensures r.Ok? ==> r.value.env == env && r.value.Storage == store && fresh(r.value) && fresh(r.value.UTXOSet)
    ensures r.Ok? ==> forall a :: a in r.value.UTXOSet.Cells ==> fresh(a)
    ensures old(store.db).tip.Some? && |old(store.db).tip.value| > 0 && r.Ok? ==>
      r.value.Valid() && r.value.State() == Loaded(store.db, steps).value
    ensures old(store.db).tip.Some? && |old(store.db).tip.value| > 0 && r.Ok? && IdsRecorded(r.value.State()) ==> r.value.Linked()
    ensures !(old(store.db).tip.Some? && |old(store.db).tip.value| > 0) ==>
      !r.Err? && (r.Ok? <==> env.decodeAddress(genesisAddress).Some?)
    ensures old(store.db) == EMPTY_STORE && r.Ok? ==> store.db == StoreOf(r.value.Chain)
    ensures !(old(store.db).tip.Some? && |old(store.db).tip.value| > 0) && r.Ok? ==>
      ActsAs(r.value, GenesisNode(env, env.decodeAddress(genesisAddress).value, now)) &&
      store.db == Saved(old(store.db), r.value.Chain[0], 1, 16)
  {
    var tip := store.db.tip;
    if tip.Some? && |tip.value| > 0 {
      var loaded := LoadBlockchain(env, store, steps);
      return if loaded.None? then Err else Ok(loaded.value);
    }
    r := NewChain(env, genesisAddress, store, now);
  }

  lemma InvRecordsIds(env: Env, bodies: set<TxBody>, n: Node)
    requires Inv(env, bodies, n)
    ensures IdsRecorded(n)
  {
  }

  /** After an honest run restarting gives an object that stands for the same node, UTXO set, output arrays and all,
      with the difficulty of the tip. So unless a failed AddBlock has moved the difficulty, whatever is done next has
      the same outcome as if nothing had happened. */
  method Restart(env: Env, store: Storage, ghost bodies: set<TxBody>, ghost n: Node) returns (r: Option<Blockchain>)
    requires Inv(env, bodies, n) && NoHeaderCollision(env, n.chain, n.chain) && NoZeroHash(n.chain)
    requires store.db == StoreOf(n.chain)
    ensures r.Some? && r.value.env == env && r.value.Storage == store && fresh(r.value) && fresh(r.value.UTXOSet)
    ensures forall a :: a in r.value.UTXOSet.Cells ==> fresh(a)
    ensures ActsAs(r.value, n.(bits := TipBits(n.chain)))
    ensures ActsAs(r.value, n) <==> n.bits == TipBits(n.chain)
  {
    ReloadTheorem(env, n, |n.chain|);
    InvRecordsIds(env, bodies, n);
    r := LoadBlockchain(env, store, |n.chain|);
  }
}
