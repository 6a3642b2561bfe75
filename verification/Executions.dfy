/** Any run of a node that calls AddBlock, whatever the transactions and clocks: difficulty, chain, and what of the ledger
    the chain accounts for. */
module Executions {
  import opened Prelude
  import opened ByteStrings
  import opened Crypto
  import opened Header
  import opened ProofOfWork
  import opened Merkle
  import opened Transactions
  import opened Ledgers
  import opened Chains
  import opened Difficulty
  import opened Nodes

  /** One call of AddBlock with any transactions; or none, as when there is no transaction to submit. */
  datatype Act = Submit(txs: seq<TxV>, miner: Bytes, now: int, later: int) | Idle

  function Done(env: Env, n: Node, a: Act): (Node, AddResult)
    requires |n.chain| > 0
  {
    match a
    case Submit(txs, miner, now, later) => AddBlock(env, n, txs, miner, now, later)
    case Idle => (n, Failed)
  }

  /** The act takes n to n'. */
  predicate ActDone(env: Env, n: Node, a: Act, n': Node) {
    |n.chain| > 0 && n' == Done(env, n, a).0
  }

  /** The states of a run from a genesis node. Nothing is asked of the hashes, the transactions or the miners. */
  predicate IsExecution(env: Env, owner: Bytes, start: int, nodes: seq<Node>, acts: seq<Act>) {
    && |nodes| == |acts| + 1 && nodes[0] == GenesisNode(env, owner, start)
    && forall i :: 0 <= i < |acts| ==> ActDone(env, nodes[i], acts[i], nodes[i + 1])
  }

  /** The act gets as far as adjusting the difficulty and mining. */
  predicate Attempts(env: Env, n: Node, a: Act) {
    a.Submit? && Attempted(env, n, a.miner, a.txs)
  }

  /** ---------- The difficulty ---------- */

  /** The kept difficulty moves with every attempt, whether or not its block is added; a block that is added carries it. */
  lemma ActDifficulty(env: Env, n: Node, a: Act)
    requires |n.chain| > 0
    ensures var (n', r) := Done(env, n, a);
      n'.bits == (if Attempts(env, n, a) then Adjusted(n.bits, Times(n.chain)) else n.bits) &&
      (if r.Added? then Attempts(env, n, a) && n'.chain == n.chain + [r.block] &&
         r.block.header.difficultyTarget == n'.bits && r.block.header.timestamp == a.now
       else n'.chain == n.chain)
  {
    if Attempts(env, n, a) {
      AttemptIsMade(env, n, a.miner, a.txs, a.now, a.later);
      ExtendedDifficulty(env, n, AllOf(env, n, a.miner, a.txs), a.now, a.later);
    } else if a.Submit? {
      NotAttempted(env, n, a.miner, a.txs, a.now, a.later);
    }
  }

  lemma ExtendedDifficulty(env: Env, n: Node, txs: seq<TxV>, now: int, later: int)
    requires |n.chain| > 0
    ensures var (n', r) := Extended(env, n, txs, now, later);
      n'.bits == Adjusted(n.bits, Times(n.chain)) && !r.Panicked? &&
      (if r.Added? then n'.chain == n.chain + [r.block] && r.block.header.difficultyTarget == n'.bits && r.block.header.timestamp == now
       else n'.chain == n.chain)
  {
  }

  function TipBits(chain: Chain): uint32
    requires |chain| > 0
  {
    chain[|chain| - 1].header.difficultyTarget
  }

  /** The difficulty kept and the difficulty of every block are between 8 and 32 bits. */
  predicate BitsOk(n: Node) {
    BitsInRange(n.bits) && forall k :: 0 <= k < |n.chain| ==> BitsInRange(n.chain[k].header.difficultyTarget)
  }

  lemma ActBits(env: Env, n: Node, a: Act)
    requires |n.chain| > 0 && BitsOk(n)
    ensures BitsOk(Done(env, n, a).0)
  {
    ActDifficulty(env, n, a);
    AdjustedInRange(n.bits, Times(n.chain));
  }

  lemma GenesisBits(env: Env, owner: Bytes, start: int)
    ensures BitsOk(GenesisNode(env, owner, start)) && BitsFollow(GenesisNode(env, owner, start), false)
  {
  }

  /** In every state of every run, failed calls included, the difficulty is between 8 and 32 bits. */
  lemma {:induction false} RunBits(env: Env, owner: Bytes, start: int, nodes: seq<Node>, acts: seq<Act>, i: nat)
    requires IsExecution(env, owner, start, nodes, acts) && i < |nodes|
    ensures BitsOk(nodes[i])
  {
    if i > 0 {
      RunBits(env, owner, start, nodes, acts, i - 1);
      assert ActDone(env, nodes[i - 1], acts[i - 1], nodes[i]);
      ActBits(env, nodes[i - 1], acts[i - 1]);
    } else {
      GenesisBits(env, owner, start);
    }
  }

  /** Since the tip of state i was added, some call that failed has adjusted the difficulty. */
  predicate Readjusted(env: Env, owner: Bytes, start: int, nodes: seq<Node>, acts: seq<Act>, i: nat)
    requires IsExecution(env, owner, start, nodes, acts) && i < |nodes|
  {
    i > 0 &&
    (assert ActDone(env, nodes[i - 1], acts[i - 1], nodes[i]);
     StillReadjusted(env, nodes[i - 1], acts[i - 1], Readjusted(env, owner, start, nodes, acts, i - 1)))
  }

  predicate StillReadjusted(env: Env, n: Node, a: Act, before: bool)
    requires |n.chain| > 0
  {
    !Done(env, n, a).1.Added? && (Attempts(env, n, a) || before)
  }

  /** The kept difficulty is the tip's, or, after a failed attempt, where further adjusting has moved it. */
  predicate BitsFollow(n: Node, readjusted: bool) {
    |n.chain| > 0 &&
    if readjusted then MovedAway(TipBits(n.chain), n.bits, Times(n.chain)) else n.bits == TipBits(n.chain)
  }

  lemma ActFollows(env: Env, n: Node, a: Act, readjusted: bool)
    requires |n.chain| > 0 && BitsOk(n) && BitsFollow(n, readjusted)
    ensures BitsFollow(Done(env, n, a).0, StillReadjusted(env, n, a, readjusted))
  {
    ActDifficulty(env, n, a);
    NeverMovesBack(TipBits(n.chain), n.bits, Times(n.chain));
  }

  lemma {:induction false} RunFollows(env: Env, owner: Bytes, start: int, nodes: seq<Node>, acts: seq<Act>, i: nat)
    requires IsExecution(env, owner, start, nodes, acts) && i < |nodes|
    ensures BitsFollow(nodes[i], Readjusted(env, owner, start, nodes, acts, i))
  {
    if i > 0 {
      RunFollows(env, owner, start, nodes, acts, i - 1);
      RunBits(env, owner, start, nodes, acts, i - 1);
      assert ActDone(env, nodes[i - 1], acts[i - 1], nodes[i]);
      ActFollows(env, nodes[i - 1], acts[i - 1], Readjusted(env, owner, start, nodes, acts, i - 1));
    } else {
      GenesisBits(env, owner, start);
    }
  }

  /** ---------- The chain ---------- */

  lemma GenesisChain(env: Env, owner: Bytes, start: int)
    requires GenesisNode(env, owner, start).chain[0].header.nonce < MAX_NONCE
    ensures ChainOk(env, GenesisNode(env, owner, start).chain)
  {
    var b, t := GenesisNode(env, owner, start).chain[0], CoinbaseTx(env, owner, GenesisData(), REWARD);
    MinedIffNotExhausted(env, BlockHeader(1, ZeroBytes(32), Root(env, [t.id]), start, DEFAULT_TARGET_BITS, 0));
    assert b.txs == [t] && Ids(b.txs) == [t.id];
    assert GenesisOk(env, b);
  }

  lemma {:induction false} RunChainOk(env: Env, owner: Bytes, start: int, nodes: seq<Node>, acts: seq<Act>, i: nat)
    requires IsExecution(env, owner, start, nodes, acts) && i < |nodes| && GenesisNode(env, owner, start).chain[0].header.nonce < MAX_NONCE
    ensures ChainOk(env, nodes[i].chain)
  {
    if i > 0 {
      RunChainOk(env, owner, start, nodes, acts, i - 1);
      assert ActDone(env, nodes[i - 1], acts[i - 1], nodes[i]);
      ActIsChainStep(env, nodes[i - 1], acts[i - 1]);
      StepKeepsChainOk(env, nodes[i - 1].chain, nodes[i].chain);
    } else {
      GenesisChain(env, owner, start);
    }
  }

  lemma ActIsChainStep(env: Env, n: Node, a: Act)
    requires |n.chain| > 0
    ensures ChainStep(env, n.chain, Done(env, n, a).0.chain)
  {
    if a.Submit? {
      AddBlockIsStep(env, n, a.txs, a.miner, a.now, a.later);
    }
  }

  /** ---------- The ledger ---------- */

  /** The ledger is what replaying the chain gives. */
  predicate Accounted(n: Node) {
    n.ledger == Replay(EMPTY, AllTxs(n.chain))
  }

  /** A block is mined and validates, but its transactions can not all be applied: the update stops half way. */
  predicate FailsHalfWay(env: Env, n: Node, a: Act)
    requires |n.chain| > 0
  {
    Attempts(env, n, a) && BlockFault(env, n.chain, Proposed(env, n, a.miner, a.txs, a.now), a.later) == None &&
    !UpdateAll(n.ledger, AllOf(env, n, a.miner, a.txs)).1
  }

  /** A call that does not fail half way leaves ledger and chain in step. */
  lemma ActAccounts(env: Env, n: Node, a: Act)
    requires |n.chain| > 0 && Accounted(n) && !FailsHalfWay(env, n, a)
    ensures Accounted(Done(env, n, a).0)
  {
    if Attempts(env, n, a) {
      AttemptIsMade(env, n, a.miner, a.txs, a.now, a.later);
      ExtendedAccounts(env, n, AllOf(env, n, a.miner, a.txs), a.now, a.later);
    } else if a.Submit? {
      NotAttempted(env, n, a.miner, a.txs, a.now, a.later);
    }
  }

  lemma ExtendedAccounts(env: Env, n: Node, txs: seq<TxV>, now: int, later: int)
    requires |n.chain| > 0 && Accounted(n)
    requires BlockFault(env, n.chain, MinedBlock(env, Template(env, n, txs, now), txs), later) == None ==> UpdateAll(n.ledger, txs).1
    ensures Accounted(Extended(env, n, txs, now, later).0)
  {
    var b := MinedBlock(env, Template(env, n, txs, now), txs);
    if BlockFault(env, n.chain, b, later) == None {
      AllTxsAppend(n.chain, b);
      ReplayConcat(EMPTY, AllTxs(n.chain), txs);
      ReplayIsUpdateAll(n.ledger, txs);
    }
  }

  lemma AddedIsWhole(env: Env, n: Node, a: Act)
    requires |n.chain| > 0 && Done(env, n, a).1.Added?
    ensures !FailsHalfWay(env, n, a)
  {
    if Attempts(env, n, a) {
      AttemptIsMade(env, n, a.miner, a.txs, a.now, a.later);
    }
  }

  /** Only a call that fails half way changes the ledger without adding a block. */
  lemma LedgerMoved(env: Env, n: Node, a: Act)
    requires |n.chain| > 0 && !Done(env, n, a).1.Added? && Done(env, n, a).0.ledger != n.ledger
    ensures FailsHalfWay(env, n, a)
  {
    if Attempts(env, n, a) {
      AttemptIsMade(env, n, a.miner, a.txs, a.now, a.later);
    } else if a.Submit? {
      NotAttempted(env, n, a.miner, a.txs, a.now, a.later);
    }
  }

  /** One that does leaves its coinbase behind, which no block carries. */
  lemma HalfWayUnaccounted(env: Env, n: Node, a: Act)
    requires |n.chain| > 0 && Accounted(n) && FailsHalfWay(env, n, a)
    requires CoinbaseTx(env, env.decodeAddress(a.miner).value, BlockData(|n.chain|), REWARD).id !in n.ledger.recorded
    ensures !Done(env, n, a).1.Added? && Done(env, n, a).0.chain == n.chain && Done(env, n, a).0.ledger != n.ledger
    ensures !Accounted(Done(env, n, a).0)
  {
    var txs := AllOf(env, n, a.miner, a.txs);
    AttemptIsMade(env, n, a.miner, a.txs, a.now, a.later);
    UpdateAllRecords(n.ledger, txs, txs[0].id);
  }

  lemma {:induction false} UpdateAllRecords(l: Ledger, txs: seq<TxV>, id: Bytes)
    requires txs != [] && IsCoinbase(txs[0].inputs) && txs[0].id == id
    ensures id in UpdateAll(l, txs).0.recorded
    decreases |txs|
  {
    var init := txs[..|txs| - 1];
    if init != [] {
      UpdateAllRecords(l, init, id);
      UpdateKeepsRecorded(UpdateAll(l, init).0, txs[|txs| - 1], id);
    } else {
      assert UpdateAll(l, init) == (l, true);
    }
  }

  lemma UpdateKeepsRecorded(l: Ledger, t: TxV, id: Bytes)
    requires id in l.recorded
    ensures id in Update(l, t).0.recorded
  {
    if !IsCoinbase(t.inputs) {
      RemoveInputsKeepRecorded(l, t.inputs, id);
    }
  }

  lemma {:induction false} RemoveInputsKeepRecorded(l: Ledger, inputs: seq<TxInput>, id: Bytes)
    requires id in l.recorded
    ensures id in RemoveInputs(l, inputs).0.recorded
    decreases |inputs|
  {
    if inputs != [] && Spendable(l, Key(inputs[0].txid), inputs[0].outIndex) {
      RemoveInputsKeepRecorded(Remove(l, Key(inputs[0].txid), inputs[0].outIndex), inputs[1..], id);
    }
  }

  lemma GenesisAccounted(env: Env, owner: Bytes, start: int)
    ensures Accounted(GenesisNode(env, owner, start))
  {
    var n, t := GenesisNode(env, owner, start), CoinbaseTx(env, owner, GenesisData(), REWARD);
    assert n.chain[0].txs == [t] && n.chain[..0] == [] && [] + [t] == [t];
    assert [t][..0] == [];
    assert Replay(EMPTY, [t]) == Update(EMPTY, t).0;
  }

  /** So in every run in which no call fails half way, the ledger is at all times what replaying the chain gives. */
  lemma {:induction false} RunAccounted(env: Env, owner: Bytes, start: int, nodes: seq<Node>, acts: seq<Act>, i: nat)
    requires IsExecution(env, owner, start, nodes, acts) && i < |nodes|
    requires forall j :: 0 <= j < i ==> |nodes[j].chain| > 0 && !FailsHalfWay(env, nodes[j], acts[j])
    ensures Accounted(nodes[i])
  {
    if i > 0 {
      RunAccounted(env, owner, start, nodes, acts, i - 1);
      assert ActDone(env, nodes[i - 1], acts[i - 1], nodes[i]);
      ActAccounts(env, nodes[i - 1], acts[i - 1]);
    } else {
      GenesisAccounted(env, owner, start);
    }
  }
}
