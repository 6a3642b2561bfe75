/** Whole honest runs: supply, identity, aliasing, no double spending, and the difficulty history. */
module Runs {
  import opened ByteStrings
  import opened Crypto
  import opened ProofOfWork
  import opened Transactions
  import opened Ledgers
  import opened Compaction
  import opened CoinSelection
  import opened Chains
  import opened Difficulty
  import opened Nodes
  import opened Executions
  import opened HonestRuns
  import opened Payments

  /** States n_0, n_1, ... of an honest run from a successfully mined genesis block; steps may fail. */
  ghost predicate HonestRun(env: Env, bodies: set<TxBody>, owner: Bytes, start: int, nodes: seq<Node>, steps: seq<Step>) {
    && |nodes| == |steps| + 1
    && nodes[0] == GenesisNode(env, owner, start)
    && nodes[0].chain[0].header.nonce < MAX_NONCE
    && Body(nodes[0].chain[0].txs[0]) in bodies
    && forall i :: 0 <= i < |steps| ==> Honest(env, bodies, nodes[i], steps[i]) && nodes[i + 1] == Exec(env, nodes[i], steps[i]).0
  }

  ghost predicate Starts(env: Env, bodies: set<TxBody>, owner: Bytes, start: int, n: Node) {
    && n == GenesisNode(env, owner, start) && n.chain[0].header.nonce < MAX_NONCE
    && Body(n.chain[0].txs[0]) in bodies
  }

  lemma OneStepRun(env: Env, bodies: set<TxBody>, owner: Bytes, start: int, nodes: seq<Node>, steps: seq<Step>)
    requires |nodes| == 2 && |steps| == 1 && Starts(env, bodies, owner, start, nodes[0])
    requires Honest(env, bodies, nodes[0], steps[0]) && nodes[1] == Exec(env, nodes[0], steps[0]).0
    ensures HonestRun(env, bodies, owner, start, nodes, steps)
  {
  }

  lemma GenesisInv(env: Env, bodies: set<TxBody>, owner: Bytes, start: int)
    requires GenesisNode(env, owner, start).chain[0].header.nonce < MAX_NONCE
    requires Body(GenesisNode(env, owner, start).chain[0].txs[0]) in bodies
    ensures Inv(env, bodies, GenesisNode(env, owner, start))
  {
    var n := GenesisNode(env, owner, start);
    GenesisChain(env, owner, start);
    GenesisLedger(env, bodies, owner);
    GenesisReplay(n.chain[0], n.chain[0].txs[0]);
  }

  lemma GenesisReplay(b: BlockV, t: TxV)
    requires b.txs == [t] && IsCoinbase(t.inputs) && |t.outputs| == 1 && t.outputs[0].value == REWARD
    ensures AllTxs([b]) == [t] && Replay(EMPTY, [t]) == Add(EMPTY, t.id, t.outputs)
    ensures Total(Add(EMPTY, t.id, t.outputs).live, Everyone) == REWARD
  {
    assert [b][..0] == [] && [] + b.txs == b.txs && [t][..0] == [];
    SumOne(t.outputs[0], Everyone);
    TotalInsert(map[], t.id, t.outputs, Everyone);
  }

  lemma GenesisLedger(env: Env, bodies: set<TxBody>, owner: Bytes)
    requires Body(CoinbaseTx(env, owner, GenesisData(), REWARD)) in bodies
    ensures var t := CoinbaseTx(env, owner, GenesisData(), REWARD);
      LedgerInv(env, bodies, 1, [t], Add(EMPTY, t.id, t.outputs))
  {
    var t := CoinbaseTx(env, owner, GenesisData(), REWARD);
    var l := Add(EMPTY, t.id, t.outputs);
    assert Unsigned(t.inputs) == t.inputs;
    assert MintedBelow(t.inputs[0].pubKey, 1) by { assert GenesisData() == CoinbaseData(0); }
    assert TxOk(env, bodies, 1, l, t);
    assert [t][0].id == t.id;
    forall id | id in l.recorded ensures exists i :: 0 <= i < |[t]| && [t][i].id == id {
      assert [t][0].id == id;
    }
  }

  /** The invariant holds in every state of every honest run. */
  lemma {:induction false} RunInv(env: Env, bodies: set<TxBody>, owner: Bytes, start: int, nodes: seq<Node>, steps: seq<Step>, i: nat)
    requires AddressesDecode(env) && NoTxCollision(env, bodies)
    requires HonestRun(env, bodies, owner, start, nodes, steps) && i < |nodes|
    ensures Inv(env, bodies, nodes[i])
  {
    if i == 0 {
      GenesisInv(env, bodies, owner, start);
    } else {
      RunInv(env, bodies, owner, start, nodes, steps, i - 1);
      StepKeepsInv(env, bodies, nodes[i - 1], steps[i - 1]);
    }
  }

  /** Conservation of supply: the live outputs add up to the reward times the height, so up to
      MAX_HEIGHT every balance is exact in an int64. */
  lemma SupplyConserved(env: Env, bodies: set<TxBody>, owner: Bytes, start: int, nodes: seq<Node>, steps: seq<Step>, i: nat, h: Bytes)
    requires AddressesDecode(env) && NoTxCollision(env, bodies)
    requires HonestRun(env, bodies, owner, start, nodes, steps) && i < |nodes|
    ensures Total(nodes[i].ledger.live, Everyone) == REWARD * |nodes[i].chain|
    ensures |nodes[i].chain| <= MAX_HEIGHT ==>
      0 <= Balance(nodes[i], h) == Total(nodes[i].ledger.live, Owner(h)) <= REWARD * |nodes[i].chain|
  {
    RunInv(env, bodies, owner, start, nodes, steps, i);
    if |nodes[i].chain| <= MAX_HEIGHT {
      BalanceBound(env, bodies, nodes[i], Owner(h));
    }
  }

  /** Identity: all transaction IDs on the chain are pairwise distinct, though compaction makes
      different transactions spend the same (ID, index). */
  lemma IdsDistinct(env: Env, bodies: set<TxBody>, owner: Bytes, start: int, nodes: seq<Node>, steps: seq<Step>, i: nat)
    requires AddressesDecode(env) && NoTxCollision(env, bodies)
    requires HonestRun(env, bodies, owner, start, nodes, steps) && i < |nodes|
    ensures Distinct(Ids(AllTxs(nodes[i].chain)))
    ensures forall key :: key in nodes[i].ledger.live ==> key in Ids(AllTxs(nodes[i].chain))
  {
    RunInv(env, bodies, owner, start, nodes, steps, i);
    LiveIdsOccur(env, bodies, |nodes[i].chain|, AllTxs(nodes[i].chain), nodes[i].ledger);
  }

  lemma LiveIdsOccur(env: Env, bodies: set<TxBody>, height: nat, txs: seq<TxV>, l: Ledger)
    requires LedgerInv(env, bodies, height, txs, l)
    ensures Distinct(Ids(txs)) && forall key :: key in l.live ==> key in Ids(txs)
  {
    forall key | key in l.live ensures key in Ids(txs) {
      assert key in l.recorded;
      var j :| 0 <= j < |txs| && txs[j].id == key;
      assert Ids(txs)[j] == key;
    }
  }

  /** Refinement: in every state of every honest run, each entry is the list of surviving original outputs of its
      transaction, in their original order. */
  lemma EntriesAreSurvivors(env: Env, bodies: set<TxBody>, owner: Bytes, start: int, nodes: seq<Node>, steps: seq<Step>, i: nat)
    requires AddressesDecode(env) && NoTxCollision(env, bodies)
    requires HonestRun(env, bodies, owner, start, nodes, steps) && i < |nodes|
    ensures Represents(nodes[i].ledger, Originals(AllTxs(nodes[i].chain)), Survivors(AllTxs(nodes[i].chain)))
  {
    RunInv(env, bodies, owner, start, nodes, steps, i);
    ReplayRefines(AllTxs(nodes[i].chain));
  }

  /** The transactions on the chain of `after` continue those on the chain of `before`. */
  ghost predicate Continues(before: Node, after: Node) {
    AllTxs(before.chain) <= AllTxs(after.chain)
  }

  ghost predicate EachContinues(nodes: seq<Node>) {
    forall k :: 0 < k < |nodes| ==> Continues(nodes[k - 1], nodes[k])
  }

  lemma {:induction false} ContinuesThroughout(nodes: seq<Node>, i: nat, j: nat)
    requires EachContinues(nodes) && i <= j < |nodes|
    ensures Continues(nodes[i], nodes[j])
    decreases j
  {
    if i < j {
      ContinuesThroughout(nodes, i, j - 1);
      assert Continues(nodes[j - 1], nodes[j]);
    }
  }

  lemma RunStepContinues(env: Env, bodies: set<TxBody>, owner: Bytes, start: int, nodes: seq<Node>, steps: seq<Step>, i: nat)
    requires AddressesDecode(env) && NoTxCollision(env, bodies)
    requires HonestRun(env, bodies, owner, start, nodes, steps) && 0 < i < |nodes|
    ensures Continues(nodes[i - 1], nodes[i])
  {
    RunInv(env, bodies, owner, start, nodes, steps, i - 1);
    StepAppends(env, bodies, nodes[i - 1], steps[i - 1]);
  }

  lemma RunContinues(env: Env, bodies: set<TxBody>, owner: Bytes, start: int, nodes: seq<Node>, steps: seq<Step>)
    requires AddressesDecode(env) && NoTxCollision(env, bodies)
    requires HonestRun(env, bodies, owner, start, nodes, steps)
    ensures EachContinues(nodes)
  {
    forall k | 0 < k < |nodes| ensures Continues(nodes[k - 1], nodes[k]) {
      RunStepContinues(env, bodies, owner, start, nodes, steps, k);
    }
  }

  lemma StepAppends(env: Env, bodies: set<TxBody>, n: Node, s: Step)
    requires AddressesDecode(env) && NoTxCollision(env, bodies) && Inv(env, bodies, n) && Honest(env, bodies, n, s)
    ensures Continues(n, Exec(env, n, s).0)
  {
    if Exec(env, n, s).1.Added? {
      AddedStepReplays(env, bodies, n, s);
    } else {
      FailedStepKeepsLedger(env, bodies, n, s);
    }
  }

  lemma SpentStaysSpentBetween(before: seq<TxV>, after: seq<TxV>, key: Bytes, x: nat)
    requires before <= after && PairwiseDistinct(after)
    requires key in Originals(before) && Unspent(Survivors(after), key, x)
    ensures Unspent(Survivors(before), key, x)
  {
    assert after[..|before|] == before;
    SpentStaysSpent(after, |before|, key, x);
  }

  /** No double spending in honest runs: an output created by state i and unspent in a later state j was unspent in i. */
  lemma NothingComesBack(env: Env, bodies: set<TxBody>, owner: Bytes, start: int, nodes: seq<Node>, steps: seq<Step>,
                         i: nat, j: nat, key: Bytes, x: nat)
    requires AddressesDecode(env) && NoTxCollision(env, bodies)
    requires HonestRun(env, bodies, owner, start, nodes, steps) && i <= j < |nodes|
    requires key in Originals(AllTxs(nodes[i].chain)) && Unspent(Survivors(AllTxs(nodes[j].chain)), key, x)
    ensures Unspent(Survivors(AllTxs(nodes[i].chain)), key, x)
  {
    RunInv(env, bodies, owner, start, nodes, steps, j);
    RunContinues(env, bodies, owner, start, nodes, steps);
    ContinuesThroughout(nodes, i, j);
    SpentStaysSpentBetween(AllTxs(nodes[i].chain), AllTxs(nodes[j].chain), key, x);
  }

  /** Aliasing: FindUTXO(T, k) and FindTransaction(T).Outputs[k] agree for every live k. */
  lemma LookupsAgree(env: Env, bodies: set<TxBody>, owner: Bytes, start: int, nodes: seq<Node>, steps: seq<Step>, i: nat, id: Bytes, k: nat)
    requires AddressesDecode(env) && NoTxCollision(env, bodies)
    requires HonestRun(env, bodies, owner, start, nodes, steps) && i < |nodes|
    requires Spendable(nodes[i].ledger, id, k)
    ensures id in nodes[i].ledger.recorded && k < |nodes[i].ledger.recorded[id]|
    ensures nodes[i].ledger.live[id][k] == nodes[i].ledger.recorded[id][k]
  {
    RunInv(env, bodies, owner, start, nodes, steps, i);
  }

  /** In a run whose steps all add their blocks, the difficulty of every block is the one
      recomputed from the timestamps before it. */
  lemma {:induction false} RunDifficulty(env: Env, bodies: set<TxBody>, owner: Bytes, start: int, nodes: seq<Node>, steps: seq<Step>, i: nat)
    requires HonestRun(env, bodies, owner, start, nodes, steps) && i < |nodes|
    requires forall j :: 0 <= j < i ==> Exec(env, nodes[j], steps[j]).1.Added?
    ensures HistoryOk(nodes[i].chain, nodes[i].bits)
  {
    if i > 0 {
      RunDifficulty(env, bodies, owner, start, nodes, steps, i - 1);
      var n, s := nodes[i - 1], steps[i - 1];
      if s.Mine? {
        AddBlockKeepsHistory(env, n, [], s.miner, s.now, s.later);
      } else {
        AddBlockKeepsHistory(env, n, [Order(env, n, s).value], s.miner, s.now, s.later);
      }
    }
  }

  /** ---------- As a run of AddBlock calls ---------- */

  /** The call each step makes. */
  ghost predicate Makes(env: Env, nodes: seq<Node>, steps: seq<Step>, acts: seq<Act>) {
    && |acts| == |steps| <= |nodes|
    && forall i :: 0 <= i < |steps| ==> (steps[i].Pay? ==> PayOk(env, nodes[i].ledger, steps[i])) && acts[i] == ActOf(env, nodes[i], steps[i])
  }

  ghost function ActsOf(env: Env, bodies: set<TxBody>, owner: Bytes, start: int, nodes: seq<Node>, steps: seq<Step>): (acts: seq<Act>)
    requires HonestRun(env, bodies, owner, start, nodes, steps)
    ensures Makes(env, nodes, steps, acts)
  {
    seq(|steps|, i requires 0 <= i < |steps| => assert Honest(env, bodies, nodes[i], steps[i]); ActOf(env, nodes[i], steps[i]))
  }

  lemma HonestRunIsExecution(env: Env, bodies: set<TxBody>, owner: Bytes, start: int, nodes: seq<Node>, steps: seq<Step>, acts: seq<Act>)
    requires HonestRun(env, bodies, owner, start, nodes, steps) && Makes(env, nodes, steps, acts)
    ensures IsExecution(env, owner, start, nodes, acts)
  {
    forall i | 0 <= i < |acts| ensures ActDone(env, nodes[i], acts[i], nodes[i + 1]) {
      assert Honest(env, bodies, nodes[i], steps[i]);
      ExecIsAct(env, nodes[i], steps[i]);
    }
  }
}
