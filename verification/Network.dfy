/** A node on the network: receiving blocks and downloading them from a peer. The messages carry typed blocks. */
module Networks {
  import opened Prelude
  import opened ByteStrings
  import opened Crypto
  import opened Ledgers
  import opened Chains
  import opened Nodes
  import opened Blocks
  import opened UTXOSets
  import opened Links
  import opened Sync
  import opened Reload
  import opened Storages
  import opened Blockchains

  class Network {
    const blockchain: Blockchain
    var syncing: bool

    constructor (blockchain: Blockchain)
      ensures this.blockchain == blockchain && !syncing
    {
      this.blockchain := blockchain;
      syncing := false;
    }

    /** Is the block new, and does it fit on our tip? */
    method Wanted(block: Block, now: int, ghost v: BlockV, ghost linked: bool) returns (ok: bool)
      requires blockchain.Valid() && v == block.Snapshot() && (linked ==> Apart(block, v))
      ensures blockchain.Valid() && v == block.Snapshot() && (linked ==> Apart(block, v))
      ensures blockchain.State() == old(blockchain.State()) && blockchain.Disk() == old(blockchain.Disk())
      ensures ok <==> IsWanted(blockchain.env, blockchain.Chain, v, now)
    {
      var known := blockchain.GetBlockByHash(block.Hash);
      if known.Some? {
        return false;
      }
      var fault := blockchain.ValidateBlock(block, now);
      ok := fault.None?;
    }

    /** The UTXO set is linked, and the block's transactions have arrays of their own. */
    ghost predicate Apart(block: Block, v: BlockV)
      reads blockchain, blockchain.UTXOSet, block, block.Transactions, set t | t in block.Transactions :: t.Outputs
    {
      |v.txs| == |block.Transactions| && blockchain.UTXOSet.Linked() && blockchain.UTXOSet.Waiting(block.Transactions, 0, v.txs)
    }

    /** Apply the transactions, ignoring failures. */
    method Apply(block: Block, ghost v: BlockV, ghost own: Arrays, ghost arrays: set<array<TxOutput>>, ghost linked: bool)
      requires blockchain.Valid() && blockchain.UTXOSet.Pending(block.Transactions, 0, v.txs, own) && (linked ==> Apart(block, v))
      requires blockchain.UTXOSet.Cells.Keys <= arrays
      requires forall j :: 0 <= j < |block.Transactions| ==> block.Transactions[j].Outputs in arrays
      modifies blockchain.UTXOSet, arrays
      ensures blockchain.Valid() && blockchain.UTXOSet.Cells.Keys <= arrays
      ensures blockchain.UTXOSet.Holding() == ReplayHeld(old(blockchain.UTXOSet.Holding()), v.txs, own)
      ensures linked ==> blockchain.UTXOSet.Linked()
      ensures linked ==> blockchain.UTXOSet.Content == Replay(old(blockchain.UTXOSet.Content), v.txs)
    {
      blockchain.UTXOSet.UpdateEach(block.Transactions, v.txs, own, arrays);
    }

    /** Append the block, and apply its transactions. */
    method Accept(block: Block, ghost v: BlockV, ghost own: Arrays, ghost arrays: set<array<TxOutput>>, ghost linked: bool)
      requires blockchain.Valid() && v == block.Snapshot() && own == OutputsOf(block.Transactions) && (linked ==> Apart(block, v))
      requires blockchain.UTXOSet.Cells.Keys <= arrays
      requires forall j :: 0 <= j < |block.Transactions| ==> block.Transactions[j].Outputs in arrays
      modifies blockchain`Blocks, blockchain`Chain, blockchain`Cells, blockchain`Txs, blockchain.UTXOSet, arrays
      ensures blockchain.Valid() && blockchain.UTXOSet.Cells.Keys <= arrays
      ensures blockchain.Chain == old(blockchain.Chain) + [v] && blockchain.Blocks == old(blockchain.Blocks) + [block] && block.Shows(v)
      ensures blockchain.UTXOSet.Holding() == ReplayHeld(old(blockchain.UTXOSet.Holding()), v.txs, own)
      ensures linked ==> blockchain.UTXOSet.Linked()
      ensures linked ==> blockchain.UTXOSet.Content == Replay(old(blockchain.UTXOSet.Content), v.txs)
    {
      blockchain.Append(block, v, own);
      assert linked ==> Apart(block, v);
      SnapshotHolds(block, v);
      HoldIsPending(blockchain.UTXOSet, block.Transactions, v.txs, own);
      Apply(block, v, own, arrays, linked);
    }

    /** Of the records only the block is saved. */
    method Save(block: Block, ghost saved: BlockV)
      requires saved == block.Snapshot() && blockchain.Valid()
      modifies blockchain.Storage
      ensures blockchain.Valid() && saved == block.Snapshot()
      ensures blockchain.Disk() == WithBlock(old(blockchain.Disk()), saved)
    {
      if blockchain.Storage != null {
        blockchain.Storage.SaveBlock(block);
      }
    }

    method Keep(block: Block, ghost v: BlockV, ghost own: Arrays,
                ghost n: Node, ghost h: Held, ghost disk: Option<Store>, ghost arrays: set<array<TxOutput>>, ghost linked: bool)
      returns (ghost saved: BlockV)
      requires n == blockchain.State() && h == blockchain.UTXOSet.Holding() && disk == blockchain.Disk()
      requires blockchain.Valid() && v == block.Snapshot() && own == OutputsOf(block.Transactions) && (linked ==> Apart(block, v))
      requires blockchain.UTXOSet.Cells.Keys <= arrays
      requires forall j :: 0 <= j < |block.Transactions| ==> block.Transactions[j].Outputs in arrays
      modifies blockchain`Blocks, blockchain`Chain, blockchain`Cells, blockchain`Txs, blockchain.UTXOSet, arrays, blockchain.Storage
      ensures blockchain.Valid() && blockchain.UTXOSet.Cells.Keys <= arrays
      ensures blockchain.Chain == n.chain + [v]
      ensures blockchain.UTXOSet.Holding() == ReplayHeld(h, v.txs, own)
      ensures linked ==> blockchain.UTXOSet.Linked()
      ensures linked ==> blockchain.State() == Node(n.chain + [v], n.bits, Replay(n.ledger, v.txs))
      ensures saved == block.Snapshot() && SameBlock(saved, v)
      ensures blockchain.Disk() == WithBlock(disk, saved)
    {
      Accept(block, v, own, arrays, linked);
      saved := block.Snapshot();
      SnapshotOfShown(block, v);
      Save(block, saved);
    }

    /** A received block that is new and validates is appended, applied and saved; tip, height and difficulty records stay.
        While the UTXO set is linked and the block has arrays of its own, the whole state moves as specified. */
    method ProcessReceivedBlock(block: Block, ghost v: BlockV, now: int, ghost own: Arrays,
                                ghost n: Node, ghost h: Held, ghost disk: Option<Store>, ghost arrays: set<array<TxOutput>>, ghost linked: bool)
      returns (ghost saved: BlockV)
      requires n == blockchain.State() && h == blockchain.UTXOSet.Holding() && disk == blockchain.Disk()
      requires blockchain.Valid() && v == block.Snapshot() && own == OutputsOf(block.Transactions) && (linked ==> Apart(block, v))
      requires blockchain.UTXOSet.Cells.Keys <= arrays
      requires forall j :: 0 <= j < |block.Transactions| ==> block.Transactions[j].Outputs in arrays
      modifies blockchain`Blocks, blockchain`Chain, blockchain`Cells, blockchain`Txs, blockchain.UTXOSet, arrays, blockchain.Storage
      ensures blockchain.Valid() && blockchain.UTXOSet.Cells.Keys <= arrays
      ensures (blockchain.Chain, blockchain.UTXOSet.Holding(), blockchain.Disk()) ==
        Processed(IsWanted(blockchain.env, n.chain, v, now), n.chain, h, disk, v, own, saved)
      ensures linked ==> blockchain.UTXOSet.Linked() && blockchain.State() == ReceivedNode(blockchain.env, n, v, now)
      ensures SameBlock(saved, v) && (IsWanted(blockchain.env, n.chain, v, now) ==> saved == block.Snapshot())
    {
      saved := v;
      var wanted := Wanted(block, now, v, linked);
      ReceivedIf(blockchain.env, n, v, now);
      if wanted {
        saved := Keep(block, v, own, n, h, disk, arrays, linked);
      }
    }

    /** One block of a response, decoded to new objects. */
    method Receive(v: BlockV, now: int, ghost linked: bool)
      requires blockchain.Valid() && (linked ==> blockchain.UTXOSet.Linked())
      modifies blockchain`Blocks, blockchain`Chain, blockchain`Cells, blockchain`Txs
      modifies blockchain.UTXOSet, blockchain.UTXOSet.Cells.Keys, blockchain.Storage
      ensures blockchain.Valid() && blockchain.Chain == Received(blockchain.env, old(blockchain.Chain), v, now)
      ensures linked ==> blockchain.UTXOSet.Linked()
      ensures linked ==> blockchain.State() == ReceivedNode(blockchain.env, old(blockchain.State()), v, now)
      ensures DiskFollows(old(blockchain.Disk()), blockchain.Disk(), old(blockchain.Chain), blockchain.Chain)
      ensures forall a :: a in blockchain.UTXOSet.Cells ==> a in old(blockchain.UTXOSet.Cells) || fresh(a)
    {
      var block := Decode(v);
      ghost var arrays := blockchain.UTXOSet.Cells.Keys + ArraysOf(block.Transactions);
      assert linked ==> Apart(block, v);
      ghost var disk, n, own := blockchain.Disk(), blockchain.State(), OutputsOf(block.Transactions);
      ghost var saved := ProcessReceivedBlock(block, v, now, own, n, blockchain.UTXOSet.Holding(), disk, arrays, linked);
      DiskAfterOne(blockchain.env, disk, n.chain, v, now, saved);
    }

    /** Process the blocks of a response in order. */
    method DownloadBlocks(response: seq<BlockV>, clock: seq<int>, ghost linked: bool)
      requires blockchain.Valid() && |clock| == |response| && (linked ==> blockchain.UTXOSet.Linked())
      modifies blockchain`Blocks, blockchain`Chain, blockchain`Cells, blockchain`Txs
      modifies blockchain.UTXOSet, blockchain.UTXOSet.Cells.Keys, blockchain.Storage
      ensures blockchain.Valid()
      ensures blockchain.Chain == ReceivedAll(blockchain.env, old(blockchain.Chain), response, clock)
      ensures linked ==> blockchain.UTXOSet.Linked()
      ensures linked ==> blockchain.State() == ReceivedNodes(blockchain.env, old(blockchain.State()), response, clock)
      ensures DiskFollows(old(blockchain.Disk()), blockchain.Disk(), old(blockchain.Chain), blockchain.Chain)
    {
      ghost var arrays, before, disk := blockchain.UTXOSet.Cells.Keys, blockchain.State(), blockchain.Disk();
      var n := 0;
      assert response[0..] == response && clock[0..] == clock;
      while n < |response|
        invariant 0 <= n <= |response| && blockchain.Valid() && (linked ==> blockchain.UTXOSet.Linked())
        invariant forall a :: a in blockchain.UTXOSet.Cells ==> a in arrays || fresh(a)
        invariant Midway(blockchain.env, before, blockchain.State(), response, clock, n, linked)
        invariant DiskFollows(disk, blockchain.Disk(), before.chain, blockchain.Chain)
      {
        ghost var state, saved := blockchain.State(), blockchain.Disk();
        Receive(response[n], clock[n], linked);
        MidwayStep(blockchain.env, before, state, blockchain.State(), response, clock, n, linked);
        DiskFollowsOn(disk, saved, blockchain.Disk(), before.chain, state.chain, blockchain.Chain);
        n := n + 1;
      }
    }

    /** The blocks from index `start` on, as they are now. */
    method GetBlocks(start: int) returns (blocks: seq<BlockV>)
      requires blockchain.Showing()
      ensures SameButOutputs(blocks, Suffix(blockchain.Chain, start))
      ensures |blocks| == |Suffix(blockchain.Blocks, start)|
      ensures forall k :: 0 <= k < |blocks| ==> blocks[k] == Suffix(blockchain.Blocks, start)[k].Snapshot()
    {
      blocks := [];
      ghost var first := if start < 0 then 0 else start;
      var i := start;
      while i < |blockchain.Blocks|
        invariant i == start || i <= |blockchain.Blocks|
        invariant i >= start && |blocks| == if i <= first then 0 else i - first
        invariant forall k :: 0 <= k < |blocks| ==> blocks[k] == blockchain.Blocks[first + k].Snapshot()
        decreases |blockchain.Blocks| - i
      {
        if 0 <= i < |blockchain.Blocks| {
          blocks := blocks + [blockchain.Blocks[i].Snapshot()];
        }
        i := i + 1;
      }
      forall k | 0 <= k < |blocks| ensures SameBlock(blocks[k], Suffix(blockchain.Chain, start)[k]) {
        assert blockchain.Blocks[first + k].Shows(blockchain.Chain[first + k]);
      }
    }

    /** Ask for the peer's height, and if it is above ours, for its blocks from ours on. One synchronisation runs at a time. */
    method SyncWithPeer(peerHeight: int, response: seq<BlockV>, clock: seq<int>, ghost linked: bool)
      requires blockchain.Valid() && |clock| == |response| && (linked ==> blockchain.UTXOSet.Linked())
      modifies `syncing, blockchain`Blocks, blockchain`Chain, blockchain`Cells, blockchain`Txs
      modifies blockchain.UTXOSet, blockchain.UTXOSet.Cells.Keys, blockchain.Storage
      ensures blockchain.Valid() && syncing == old(syncing)
      ensures blockchain.Chain ==
        if !syncing && peerHeight > |old(blockchain.Chain)|
        then ReceivedAll(blockchain.env, old(blockchain.Chain), response, clock) else old(blockchain.Chain)
      ensures linked ==> blockchain.UTXOSet.Linked()
      ensures linked && !syncing && peerHeight > |old(blockchain.Chain)| ==>
        blockchain.State() == ReceivedNodes(blockchain.env, old(blockchain.State()), response, clock)
      ensures linked && (syncing || peerHeight <= |old(blockchain.Chain)|) ==> blockchain.State() == old(blockchain.State())
      ensures DiskFollows(old(blockchain.Disk()), blockchain.Disk(), old(blockchain.Chain), blockchain.Chain)
    {
      if syncing {
        return;
      }
      syncing := true;
      var ourHeight := |blockchain.Blocks|;
      if peerHeight > ourHeight {
        DownloadBlocks(response, clock, linked);
      }
      syncing := false;
    }
  }

  /** The block is new, and it fits on the tip. */
  predicate IsWanted(env: Env, chain: Chain, v: BlockV, now: int) {
    !HasHash(chain, v.hash) && BlockFault(env, chain, v, now) == None
  }

  /** What processing a received block leaves of chain, entries and disk, whoever shares the arrays. */
  ghost function Processed(wanted: bool, chain: Chain, h: Held, disk: Option<Store>, v: BlockV, own: Arrays, saved: BlockV)
    : (Chain, Held, Option<Store>)
    requires Sound(h) && |own| == |v.txs|
  {
    if wanted then (chain + [v], ReplayHeld(h, v.txs, own), WithBlock(disk, saved)) else (chain, h, disk)
  }

  /** The database with one block more. */
  function WithBlock(disk: Option<Store>, b: BlockV): Option<Store> {
    match disk
    case None => None
    case Some(st) => Some(st.(blocks := st.blocks[b.hash := b]))
  }

  /** Tip, height and difficulty are the same, the blocks that came behind the old chain are stored, and no other record
      has changed. */
  predicate DiskFollows(before: Option<Store>, after: Option<Store>, older: Chain, newer: Chain) {
    && older <= newer && NewHashes(newer, |older|) && (before.Some? <==> after.Some?)
    && (before.Some? ==>
          OthersKept(before.value, after.value, newer, |older|) && StoredFrom(after.value, newer, |older|))
  }

  /** No block from height h on has a hash that occurs before it. */
  predicate NewHashes(chain: Chain, h: nat) {
    forall i, k :: 0 <= i < k < |chain| && h <= k ==> chain[i].hash != chain[k].hash
  }

  predicate OthersKept(a: Store, b: Store, chain: Chain, h: nat) {
    && a.tip == b.tip && a.height == b.height && a.bits == b.bits && a.blocks.Keys <= b.blocks.Keys
    && (forall hash :: hash in b.blocks ==> HashFrom(chain, h, hash) || (hash in a.blocks && b.blocks[hash] == a.blocks[hash]))
  }

  predicate HashFrom(chain: Chain, h: nat, hash: Bytes) {
    exists k :: h <= k < |chain| && chain[k].hash == hash
  }

  /** The blocks of the chain from height h on are in the database, with the outputs they had when they were stored. */
  predicate StoredFrom(st: Store, chain: Chain, h: nat) {
    forall k :: h <= k < |chain| ==> chain[k].hash in st.blocks && SameBlock(st.blocks[chain[k].hash], chain[k])
  }

  lemma ReceivedIf(env: Env, n: Node, v: BlockV, now: int)
    ensures ReceivedNode(env, n, v, now) ==
      if IsWanted(env, n.chain, v, now) then Node(n.chain + [v], n.bits, Replay(n.ledger, v.txs)) else n
  {
  }

  lemma DiskAfterOne(env: Env, disk: Option<Store>, chain: Chain, v: BlockV, now: int, saved: BlockV)
    requires SameBlock(saved, v)
    ensures Received(env, chain, v, now) == if IsWanted(env, chain, v, now) then chain + [v] else chain
    ensures DiskFollows(disk, if IsWanted(env, chain, v, now) then WithBlock(disk, saved) else disk, chain, Received(env, chain, v, now))
  {
    var after := Received(env, chain, v, now);
    if IsWanted(env, chain, v, now) {
      assert after[|chain|] == v;
      forall i, k | 0 <= i < k < |after| && |chain| <= k ensures after[i].hash != after[k].hash {
        assert after[i] == chain[i];
      }
    }
  }

  lemma DiskFollowsOn(a: Option<Store>, b: Option<Store>, c: Option<Store>, x: Chain, y: Chain, z: Chain)
    requires DiskFollows(a, b, x, y) && DiskFollows(b, c, y, z)
    ensures DiskFollows(a, c, x, z)
  {
    forall i, k | 0 <= i < k < |z| && |x| <= k ensures z[i].hash != z[k].hash {
      assert k < |y| ==> z[i] == y[i] && z[k] == y[k];
    }
    if a.Some? {
      StoredOn(b.value, c.value, x, y, z);
      KeptOn(a.value, b.value, c.value, x, y, z);
    }
  }

  lemma StoredOn(b: Store, c: Store, x: Chain, y: Chain, z: Chain)
    requires x <= y <= z && NewHashes(z, |x|) && StoredFrom(b, y, |x|) && OthersKept(b, c, z, |y|) && StoredFrom(c, z, |y|)
    ensures StoredFrom(c, z, |x|)
  {
    forall k | |x| <= k < |z| ensures z[k].hash in c.blocks && SameBlock(c.blocks[z[k].hash], z[k]) {
      if k < |y| {
        assert z[k] == y[k];
        assert !HashFrom(z, |y|, z[k].hash);
      }
    }
  }

  lemma KeptOn(a: Store, b: Store, c: Store, x: Chain, y: Chain, z: Chain)
    requires x <= y <= z && OthersKept(a, b, y, |x|) && OthersKept(b, c, z, |y|)
    ensures OthersKept(a, c, z, |x|)
  {
    forall hash | hash in c.blocks && !HashFrom(z, |x|, hash) ensures hash in a.blocks && c.blocks[hash] == a.blocks[hash] {
      HashFromLonger(x, y, z, hash);
    }
  }

  lemma HashFromLonger(x: Chain, y: Chain, z: Chain, hash: Bytes)
    requires x <= y <= z
    ensures HashFrom(y, |x|, hash) || HashFrom(z, |y|, hash) ==> HashFrom(z, |x|, hash)
  {
    if HashFrom(y, |x|, hash) {
      var k :| |x| <= k < |y| && y[k].hash == hash;
      assert z[k] == y[k];
    }
  }

  /** The first k blocks of a response have been processed. */
  predicate Midway(env: Env, before: Node, now: Node, response: seq<BlockV>, clock: seq<int>, k: nat, linked: bool)
    requires k <= |response| == |clock|
  {
    && ReceivedAll(env, now.chain, response[k..], clock[k..]) == ReceivedAll(env, before.chain, response, clock)
    && (linked ==> ReceivedNodes(env, now, response[k..], clock[k..]) == ReceivedNodes(env, before, response, clock))
  }

  lemma MidwayStep(env: Env, before: Node, now: Node, next: Node, response: seq<BlockV>, clock: seq<int>, k: nat, linked: bool)
    requires k < |response| == |clock| && Midway(env, before, now, response, clock, k, linked)
    requires next.chain == Received(env, now.chain, response[k], clock[k])
    requires linked ==> next == ReceivedNode(env, now, response[k], clock[k])
    ensures Midway(env, before, next, response, clock, k + 1, linked)
  {
    assert response[k..][0] == response[k] && response[k..][1..] == response[k + 1..];
    assert clock[k..][0] == clock[k] && clock[k..][1..] == clock[k + 1..];
  }
}
