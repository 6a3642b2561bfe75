/** What is on disk after a run, and what loading it gives back. */
module Reload {
  import opened Prelude
  import opened ByteStrings
  import opened Crypto
  import opened ProofOfWork
  import opened Header
  import opened Transactions
  import opened Ledgers
  import opened Chains
  import opened Difficulty
  import opened Nodes
  import opened Executions
  import opened HonestRuns
  import opened Payments
  import opened Runs

  /** The database as a key-value map, one field per key prefix. */
  datatype Store = Store(blocks: map<Bytes, BlockV>, tip: Option<Bytes>, height: Option<int>, bits: Option<uint32>)

  const EMPTY_STORE: Store := Store(map[], None, None, None)

  /** saveBlockToDB, after the block has been appended. */
  function Saved(st: Store, b: BlockV, height: int, bits: uint32): Store {
    Store(st.blocks[b.hash := b], Some(b.hash), Some(height), Some(bits))
  }

  /** ---------- Loading ---------- */

  datatype Walk = Blocks(blocks: seq<BlockV>) | Missing | Unfinished

  /** Follow previous hashes for at most `steps` blocks, back to a block without a predecessor. */
  function WalkBack(st: Store, hash: Bytes, steps: nat): Walk
    decreases steps
  {
    if steps == 0 then Unfinished
    else if hash !in st.blocks then Missing
    else
      var b := st.blocks[hash];
      if b.header.prevBlockHash == ZeroBytes(32) then Blocks([b])
      else
        match WalkBack(st, b.header.prevBlockHash, steps - 1)
        case Blocks(blocks) => Blocks(blocks + [b])
        case other => other
  }

  /** More steps do not change the outcome of a walk that has ended. */
  lemma {:induction false} WalkSettles(st: Store, hash: Bytes, steps: nat, more: nat)
    requires WalkBack(st, hash, steps) != Unfinished && steps <= more
    ensures WalkBack(st, hash, more) == WalkBack(st, hash, steps)
    decreases steps
  {
    if hash in st.blocks && st.blocks[hash].header.prevBlockHash != ZeroBytes(32) {
      WalkSettles(st, st.blocks[hash].header.prevBlockHash, steps - 1, more - 1);
    }
  }

  /** `blocks` lead, one after the other, from one without a predecessor to the one stored under `hash`. */
  predicate LeadsTo(st: Store, blocks: seq<BlockV>, hash: Bytes) {
    && |blocks| > 0 && hash in st.blocks && st.blocks[hash] == blocks[|blocks| - 1]
    && blocks[0].header.prevBlockHash == ZeroBytes(32)
    && forall i :: 1 <= i < |blocks| ==>
         blocks[i].header.prevBlockHash != ZeroBytes(32) && blocks[i].header.prevBlockHash in st.blocks &&
         st.blocks[blocks[i].header.prevBlockHash] == blocks[i - 1]
  }

  /** What the walk returns are the blocks that lead to the tip; and if there are any it returns them. */
  lemma {:induction false} WalkYields(st: Store, hash: Bytes, steps: nat, blocks: seq<BlockV>)
    ensures WalkBack(st, hash, steps) == Blocks(blocks) <==> LeadsTo(st, blocks, hash) && |blocks| <= steps
    decreases steps
  {
    if steps > 0 && hash in st.blocks {
      var b := st.blocks[hash];
      var prev := b.header.prevBlockHash;
      if prev == ZeroBytes(32) {
        assert LeadsTo(st, [b], hash);
      } else if blocks != [] {
        var front := blocks[..|blocks| - 1];
        WalkYields(st, prev, steps - 1, front);
        WalkFront(st, hash, steps, blocks);
        LeadsFront(st, blocks, hash);
      }
    }
  }

  lemma WalkFront(st: Store, hash: Bytes, steps: nat, blocks: seq<BlockV>)
    requires steps > 0 && hash in st.blocks && st.blocks[hash].header.prevBlockHash != ZeroBytes(32) && blocks != []
    ensures WalkBack(st, hash, steps) == Blocks(blocks) <==>
      blocks[|blocks| - 1] == st.blocks[hash] &&
      WalkBack(st, st.blocks[hash].header.prevBlockHash, steps - 1) == Blocks(blocks[..|blocks| - 1])
  {
    var w := WalkBack(st, st.blocks[hash].header.prevBlockHash, steps - 1);
    if w.Blocks? {
      assert (w.blocks + [st.blocks[hash]])[..|w.blocks|] == w.blocks;
      assert blocks == blocks[..|blocks| - 1] + [blocks[|blocks| - 1]];
    }
  }

  lemma LeadsFront(st: Store, blocks: seq<BlockV>, hash: Bytes)
    requires hash in st.blocks && st.blocks[hash].header.prevBlockHash != ZeroBytes(32) && blocks != []
    ensures LeadsTo(st, blocks, hash) <==>
      blocks[|blocks| - 1] == st.blocks[hash] &&
      LeadsTo(st, blocks[..|blocks| - 1], st.blocks[hash].header.prevBlockHash)
  {
    var n := |blocks| - 1;
    var front, prev := blocks[..n], st.blocks[hash].header.prevBlockHash;
    if n > 0 {
      assert front[0] == blocks[0] && front[|front| - 1] == blocks[n - 1];
      if blocks[n] == st.blocks[hash] && LeadsTo(st, front, prev) {
        forall i | 1 <= i < |blocks|
          ensures blocks[i].header.prevBlockHash != ZeroBytes(32) && blocks[i].header.prevBlockHash in st.blocks
          ensures st.blocks[blocks[i].header.prevBlockHash] == blocks[i - 1]
        {
          assert i < n ==> front[i] == blocks[i] && front[i - 1] == blocks[i - 1];
        }
      }
      if LeadsTo(st, blocks, hash) {
        assert blocks[n].header.prevBlockHash == prev;
      }
    }
  }

  /** A walk that ends never meets a block from which it does not end yet, so that block is not needed. */
  lemma {:induction false} WalkAvoids(st: Store, gone: Bytes, hash: Bytes, steps: nat, n: nat)
    requires WalkBack(st, hash, steps) != Unfinished && WalkBack(st, gone, steps) == Unfinished && n <= steps
    ensures WalkBack(st.(blocks := st.blocks - {gone}), hash, n) == WalkBack(st, hash, n)
    decreases n
  {
    if n > 0 && hash in st.blocks && st.blocks[hash].header.prevBlockHash != ZeroBytes(32) {
      if WalkBack(st, gone, steps - 1) != Unfinished {
        WalkSettles(st, gone, steps - 1, steps);
      }
      WalkAvoids(st, gone, st.blocks[hash].header.prevBlockHash, steps - 1, n - 1);
    }
  }

  /** The last step of a walk that just ends is at most one more than there are blocks. */
  lemma {:induction false} WalkIsShort(st: Store, hash: Bytes, steps: nat)
    requires WalkBack(st, hash, steps) == Unfinished && WalkBack(st, hash, steps + 1) != Unfinished
    ensures steps <= |st.blocks|
    decreases steps
  {
    if steps > 0 {
      var prev, rest := st.blocks[hash].header.prevBlockHash, st.(blocks := st.blocks - {hash});
      assert st.blocks.Keys == rest.blocks.Keys + {hash};
      WalkAvoids(st, hash, prev, steps, steps);
      WalkAvoids(st, hash, prev, steps, steps - 1);
      WalkIsShort(rest, prev, steps - 1);
    }
  }

  lemma {:induction false} FirstEnd(st: Store, hash: Bytes, steps: nat) returns (n: nat)
    requires WalkBack(st, hash, steps) != Unfinished
    ensures n < steps && WalkBack(st, hash, n) == Unfinished && WalkBack(st, hash, n + 1) != Unfinished
    decreases steps
  {
    n := steps - 1;
    if WalkBack(st, hash, n) != Unfinished {
      n := FirstEnd(st, hash, n);
    }
  }

  /** The walk either ends within one step more than there are blocks, or goes round in a circle for ever. */
  lemma WalkEndsOrCircles(st: Store, hash: Bytes)
    ensures (exists steps :: WalkBack(st, hash, steps) != Unfinished) <==> WalkBack(st, hash, |st.blocks| + 1) != Unfinished
  {
    if steps :| WalkBack(st, hash, steps) != Unfinished {
      var n := FirstEnd(st, hash, steps);
      WalkIsShort(st, hash, n);
      WalkSettles(st, hash, n + 1, |st.blocks| + 1);
    }
  }

  /** The node loadBlockchain builds, or nothing if a record is missing. */
  function Loaded(st: Store, steps: nat): Option<Node> {
    if st.height.None? || st.bits.None? || st.tip.None? then None
    else
      match WalkBack(st, st.tip.value, steps)
      case Blocks(blocks) => Some(Node(blocks, st.bits.value, Replay(EMPTY, AllTxs(blocks))))
      case _ => None
  }

  /** Exactly what loading gives: the records must be there and the blocks must lead to the tip. */
  lemma LoadedMeans(st: Store, steps: nat, n: Node)
    ensures Loaded(st, steps) == Some(n) <==>
      st.height.Some? && st.bits == Some(n.bits) && st.tip.Some? && LeadsTo(st, n.chain, st.tip.value) && |n.chain| <= steps &&
      n.ledger == Replay(EMPTY, AllTxs(n.chain))
  {
    if st.tip.Some? {
      WalkYields(st, st.tip.value, steps, n.chain);
    }
  }

  /** ---------- After a run ---------- */

  /** What saving every block of the chain, one after the other, leaves on disk. */
  function StoreOf(chain: Chain): Store {
    if chain == [] then EMPTY_STORE
    else
      var b := chain[|chain| - 1];
      Saved(StoreOf(chain[..|chain| - 1]), b, |chain|, b.header.difficultyTarget)
  }

  /** The records of a chain: its tip, its height, the tip's difficulty, and its blocks and no others. */
  lemma {:induction false} StoreRecords(chain: Chain)
    requires |chain| > 0
    ensures StoreOf(chain).tip == Some(chain[|chain| - 1].hash)
    ensures StoreOf(chain).height == Some(|chain|)
    ensures StoreOf(chain).bits == Some(chain[|chain| - 1].header.difficultyTarget)
    ensures forall hash :: hash in StoreOf(chain).blocks <==> exists i :: 0 <= i < |chain| && chain[i].hash == hash
    ensures forall hash :: hash in StoreOf(chain).blocks ==> StoreOf(chain).blocks[hash] in chain && StoreOf(chain).blocks[hash].hash == hash
    decreases |chain|
  {
    var front := chain[..|chain| - 1];
    if front != [] {
      StoreRecords(front);
      forall hash | exists i :: 0 <= i < |chain| && chain[i].hash == hash
        ensures hash in StoreOf(chain).blocks
      {
        var i :| 0 <= i < |chain| && chain[i].hash == hash;
        assert i < |front| ==> front[i].hash == hash;
      }
    }
  }

  /** Saving the block an AddBlock has added is what `StoreOf` says: the difficulty saved is the block's own. */
  lemma AddBlockSaves(env: Env, n: Node, txs: seq<TxV>, miner: Bytes, now: int, later: int)
    requires |n.chain| > 0 && AddBlock(env, n, txs, miner, now, later).1.Added?
    ensures var (n', r) := AddBlock(env, n, txs, miner, now, later);
      Saved(StoreOf(n.chain), r.block, |n'.chain|, n'.bits) == StoreOf(n'.chain)
  {
    var (n', r) := AddBlock(env, n, txs, miner, now, later);
    assert n'.chain[..|n'.chain| - 1] == n.chain;
  }

  predicate HashesDiffer(chain: Chain) {
    forall i, j :: 0 <= i < j < |chain| ==> chain[i].hash != chain[j].hash
  }

  lemma ChainHashesDiffer(env: Env, chain: Chain)
    requires ChainOk(env, chain) && NoHeaderCollision(env, chain, chain) && NoZeroHash(chain)
    ensures HashesDiffer(chain)
  {
    forall i, j | 0 <= i < j < |chain| ensures chain[i].hash != chain[j].hash {
      if chain[i].hash == chain[j].hash {
        HashesDistinct(env, chain, i, j);
      }
    }
  }

  /** No block overwrites another in the database. */
  lemma {:induction false} StoreHolds(chain: Chain, i: nat)
    requires HashesDiffer(chain) && i < |chain|
    ensures chain[i].hash in StoreOf(chain).blocks && StoreOf(chain).blocks[chain[i].hash] == chain[i]
    decreases |chain|
  {
    if i < |chain| - 1 {
      StoreHolds(chain[..|chain| - 1], i);
    }
  }

  predicate Holds(st: Store, chain: Chain) {
    forall i :: 0 <= i < |chain| ==> chain[i].hash in st.blocks && st.blocks[chain[i].hash] == chain[i]
  }

  /** One block further, if the walk from the block before is as expected. */
  lemma WalkGoesOn(st: Store, chain: Chain, m: nat, steps: nat)
    requires 0 < m <= |chain| && 0 < steps && Holds(st, chain)
    requires m == 1 <==> chain[m - 1].header.prevBlockHash == ZeroBytes(32)
    requires m > 1 ==> WalkBack(st, chain[m - 1].header.prevBlockHash, steps - 1) == Blocks(chain[..m - 1])
    ensures WalkBack(st, chain[m - 1].hash, steps) == Blocks(chain[..m])
  {
    if m > 1 {
      assert chain[..m] == chain[..m - 1] + [chain[m - 1]];
    } else {
      assert chain[..1] == [chain[0]];
    }
  }

  /** The walk back from a block ends at the genesis and yields the chain up to that block. */
  lemma {:induction false} WalkFindsChain(env: Env, st: Store, chain: Chain, m: nat, steps: nat)
    requires ChainOk(env, chain) && NoZeroHash(chain) && Holds(st, chain)
    requires 0 < m <= |chain| && m <= steps
    ensures WalkBack(st, chain[m - 1].hash, steps) == Blocks(chain[..m])
    decreases m
  {
    BlockShape(env, chain, m - 1);
    if m > 1 {
      WalkFindsChain(env, st, chain, m - 1, steps - 1);
    }
    WalkGoesOn(st, chain, m, steps);
  }

  /** Reloading terminates within as many steps as there are blocks and gives back the same blocks, with the
      difficulty of the tip and the UTXO set and output arrays that replaying the blocks gives. So it gives back the node
      exactly when its difficulty is that of the tip and the chain accounts for its ledger. */
  lemma ReloadTheorem(env: Env, n: Node, steps: nat)
    requires ChainOk(env, n.chain) && NoHeaderCollision(env, n.chain, n.chain) && NoZeroHash(n.chain)
    requires steps >= |n.chain|
    ensures Loaded(StoreOf(n.chain), steps) == Some(Node(n.chain, TipBits(n.chain), Replay(EMPTY, AllTxs(n.chain))))
    ensures Loaded(StoreOf(n.chain), steps) == Some(n) <==> n.bits == TipBits(n.chain) && Accounted(n)
  {
    var st := StoreOf(n.chain);
    ChainHashesDiffer(env, n.chain);
    forall i | 0 <= i < |n.chain| ensures n.chain[i].hash in st.blocks && st.blocks[n.chain[i].hash] == n.chain[i] {
      StoreHolds(n.chain, i);
    }
    WalkFindsChain(env, st, n.chain, |n.chain|, steps);
    assert n.chain[..|n.chain|] == n.chain;
  }

  /** After any run of AddBlock calls, with any transactions, of which none has failed half way through its update,
      reloading gives back blocks, entries and arrays; and it gives back exactly the node unless a call that failed since
      the tip was added has adjusted the difficulty, and adjusting moves the tip's difficulty. */
  lemma ReloadAfterExecution(env: Env, owner: Bytes, start: int, nodes: seq<Node>, acts: seq<Act>, i: nat)
    requires IsExecution(env, owner, start, nodes, acts) && i < |nodes|
    requires GenesisNode(env, owner, start).chain[0].header.nonce < MAX_NONCE
    requires NoHeaderCollision(env, nodes[i].chain, nodes[i].chain) && NoZeroHash(nodes[i].chain)
    requires forall j :: 0 <= j < i ==> |nodes[j].chain| > 0 && !FailsHalfWay(env, nodes[j], acts[j])
    ensures |nodes[i].chain| > 0
    ensures Loaded(StoreOf(nodes[i].chain), |nodes[i].chain|) == Some(nodes[i].(bits := TipBits(nodes[i].chain)))
    ensures Loaded(StoreOf(nodes[i].chain), |nodes[i].chain|) == Some(nodes[i]) <==>
      Adjusted(TipBits(nodes[i].chain), Times(nodes[i].chain)) == TipBits(nodes[i].chain) ||
      !Readjusted(env, owner, start, nodes, acts, i)
  {
    RunChainOk(env, owner, start, nodes, acts, i);
    RunFollows(env, owner, start, nodes, acts, i);
    RunAccounted(env, owner, start, nodes, acts, i);
    ReloadTheorem(env, nodes[i], |nodes[i].chain|);
  }

  /** A call that fails and has changed the ledger all the same is undone by reloading: what the chain accounts for
      comes back. By `HalfWayUnaccounted` that is every call that fails half way with a coinbase that is new. */
  lemma ReloadUndoes(env: Env, n: Node, a: Act)
    requires ChainOk(env, n.chain) && NoHeaderCollision(env, n.chain, n.chain) && NoZeroHash(n.chain)
    requires Accounted(n) && !Done(env, n, a).1.Added? && Done(env, n, a).0.ledger != n.ledger
    ensures var n' := Done(env, n, a).0;
      FailsHalfWay(env, n, a) && n'.chain == n.chain &&
      Loaded(StoreOf(n'.chain), |n'.chain|) == Some(n.(bits := TipBits(n.chain))) && Loaded(StoreOf(n'.chain), |n'.chain|) != Some(n')
  {
    ActDifficulty(env, n, a);
    LedgerMoved(env, n, a);
    ReloadTheorem(env, n, |n.chain|);
  }

  /** In honest runs the chain always accounts for the ledger, so this is about the difficulty alone. */
  lemma ReloadAfterRun(env: Env, bodies: set<TxBody>, owner: Bytes, start: int, nodes: seq<Node>, steps: seq<Step>, acts: seq<Act>, i: nat)
    requires AddressesDecode(env) && NoTxCollision(env, bodies)
    requires HonestRun(env, bodies, owner, start, nodes, steps) && i < |nodes| && Makes(env, nodes, steps, acts)
    requires NoHeaderCollision(env, nodes[i].chain, nodes[i].chain) && NoZeroHash(nodes[i].chain)
    ensures |nodes[i].chain| > 0 && IsExecution(env, owner, start, nodes, acts)
    ensures Loaded(StoreOf(nodes[i].chain), |nodes[i].chain|) == Some(nodes[i].(bits := TipBits(nodes[i].chain)))
    ensures Loaded(StoreOf(nodes[i].chain), |nodes[i].chain|) == Some(nodes[i]) <==>
      Adjusted(TipBits(nodes[i].chain), Times(nodes[i].chain)) == TipBits(nodes[i].chain) ||
      !Readjusted(env, owner, start, nodes, acts, i)
  {
    RunInv(env, bodies, owner, start, nodes, steps, i);
    HonestRunIsExecution(env, bodies, owner, start, nodes, steps, acts);
    RunFollows(env, owner, start, nodes, acts, i);
    ReloadTheorem(env, nodes[i], |nodes[i].chain|);
  }

  /** In particular it does after a step that added its block, and at every height that is not a multiple of ten. */
  lemma ReloadOffBoundary(env: Env, bodies: set<TxBody>, owner: Bytes, start: int, nodes: seq<Node>, steps: seq<Step>, i: nat)
    requires AddressesDecode(env) && NoTxCollision(env, bodies)
    requires HonestRun(env, bodies, owner, start, nodes, steps) && i < |nodes|
    requires NoHeaderCollision(env, nodes[i].chain, nodes[i].chain) && NoZeroHash(nodes[i].chain)
    requires i == 0 || Exec(env, nodes[i - 1], steps[i - 1]).1.Added? || |nodes[i].chain| % ADJUSTMENT_INTERVAL != 0
    ensures Loaded(StoreOf(nodes[i].chain), |nodes[i].chain|) == Some(nodes[i])
  {
    var acts := ActsOf(env, bodies, owner, start, nodes, steps);
    ReloadAfterRun(env, bodies, owner, start, nodes, steps, acts, i);
    if i > 0 {
      ExecIsAct(env, nodes[i - 1], steps[i - 1]);
    }
  }
}
