/** The node program across restarts: what is done by objects loaded from disk is a step of the same run. */
module Restarts {
  import opened Prelude
  import opened ByteStrings
  import opened Crypto
  import opened Chains
  import opened Difficulty
  import opened Nodes
  import opened Executions
  import opened HonestRuns
  import opened Payments
  import opened Runs
  import opened Blocks
  import opened Reload
  import opened Storages
  import opened Blockchains
  import opened Startup
  import opened Loading
  import opened Clients

  /** The node that loading finds on disk: `n` with the difficulty of its tip. */
  function Settled(n: Node): Node
    requires |n.chain| > 0
  {
    n.(bits := TipBits(n.chain))
  }

  ghost predicate Reloadable(env: Env, n: Node) {
    NoHeaderCollision(env, n.chain, n.chain) && NoZeroHash(n.chain)
  }

  /** A new object for node `n`, whose disk holds its chain. */
  ghost predicate Opened(bc: Blockchain, env: Env, store: Storage, n: Node)
    reads bc, bc.Blocks, bc.Txs, bc.UTXOSet, bc.UTXOSet.Cells.Keys, bc.Storage, store
  {
    bc.env == env && bc.Storage == store && ActsAs(bc, n) && store.db == StoreOf(n.chain)
  }

  method Reopen(env: Env, store: Storage, ghost bodies: set<TxBody>, ghost n: Node) returns (bc: Blockchain)
    requires Inv(env, bodies, n) && Reloadable(env, n) && store.db == StoreOf(n.chain)
    ensures Opened(bc, env, store, Settled(n))
    ensures fresh(bc) && fresh(bc.UTXOSet) && forall a :: a in bc.UTXOSet.Cells ==> fresh(a)
  {
    var loaded := Restart(env, store, bodies, n);
    bc := loaded.value;
  }

  method Continue(bc: Blockchain, env: Env, store: Storage, ghost bodies: set<TxBody>, ghost request: Step,
                  from: Bytes, to: Bytes, amount: int, w: Wallet, tape: nat, miner: Bytes, now: int, later: int,
                  ghost n: Node, ghost arrays: set<array<TxOutput>>)
    returns (r: Outcome<Block>, ghost s: Step, ghost v: BlockV)
    requires Opened(bc, env, store, n) && bc.UTXOSet.Cells.Keys <= arrays
    requires HonestRequest(env, bodies, n, request) && Asks(request, from, to, amount, w, miner, now, later)
    modifies bc, bc.UTXOSet, arrays, store
    ensures bc.UTXOSet == old(bc.UTXOSet) && forall a :: a in bc.UTXOSet.Cells ==> a in arrays || fresh(a)
    ensures Opened(bc, env, store, bc.State())
    ensures s.Pay? && s == request.(choice := s.choice) && HonestOutcome(env, bodies, n, s, bc.State(), Result(r, v))
  {
    r, s, v := HonestPayment(bc, bodies, request, from, to, amount, w, tape, miner, now, later, n, arrays, true);
  }

  /** Load the object for `n` and make a payment with it. It is an honest step of the node loaded, the disk
      holds the outcome, and so the next load finds that. */
  method Resume(env: Env, store: Storage, ghost bodies: set<TxBody>, ghost n: Node, ghost request: Step,
                from: Bytes, to: Bytes, amount: int, w: Wallet, tape: nat, miner: Bytes, now: int, later: int)
    returns (bc: Blockchain, r: Outcome<Block>, ghost s: Step, ghost v: BlockV)
    requires Inv(env, bodies, n) && Reloadable(env, n) && store.db == StoreOf(n.chain)
    requires HonestRequest(env, bodies, Settled(n), request) && Asks(request, from, to, amount, w, miner, now, later)
    modifies store
    ensures fresh(bc) && fresh(bc.UTXOSet) && forall a :: a in bc.UTXOSet.Cells ==> fresh(a)
    ensures Opened(bc, env, store, bc.State())
    ensures s.Pay? && s == request.(choice := s.choice) && HonestOutcome(env, bodies, Settled(n), s, bc.State(), Result(r, v))
  {
    bc := Reopen(env, store, bodies, n);
    ghost var arrays := bc.UTXOSet.Cells.Keys;
    r, s, v := Continue(bc, env, store, bodies, request, from, to, amount, w, tape, miner, now, later, Settled(n), arrays);
    forall a | a in bc.UTXOSet.Cells ensures fresh(a) {
      assert a in arrays || fresh(a);
    }
  }

  /** Whatever order the maps are traversed in, the outcome can be reloaded. */
  ghost predicate AlwaysReloadable(env: Env, bodies: set<TxBody>, n: Node, s: Step)
    requires s.Pay?
  {
    forall c :: Honest(env, bodies, n, s.(choice := c)) ==> Reloadable(env, Exec(env, n, s.(choice := c)).0)
  }

  /** Away from the interval boundaries even a failed step leaves the difficulty at that of the tip. */
  lemma StaysSettled(env: Env, n: Node, s: Step)
    requires |n.chain| > 0 && (s.Pay? ==> PayOk(env, n.ledger, s)) && BitsOk(n)
    requires n == Settled(n) && |n.chain| % ADJUSTMENT_INTERVAL != 0
    ensures Exec(env, n, s).0.chain != [] && Exec(env, n, s).0 == Settled(Exec(env, n, s).0)
  {
    ExecDifficulty(env, n, s);
  }

  lemma FirstStep(env: Env, bodies: set<TxBody>, owner: Bytes, start: int, n: Node, s: Step, n': Node, result: AddResult)
    requires Starts(env, bodies, owner, start, n) && HonestOutcome(env, bodies, n, s, n', result)
    ensures HonestRun(env, bodies, owner, start, [n, n'], [s])
  {
    OneStepRun(env, bodies, owner, start, [n, n'], [s]);
  }

  lemma StartSettled(env: Env, owner: Bytes, start: int, n: Node)
    requires n == GenesisNode(env, owner, start)
    ensures |n.chain| == 1 && BitsOk(n) && n == Settled(n)
  {
    GenesisBits(env, owner, start);
  }

  lemma FirstStepSettled(env: Env, bodies: set<TxBody>, owner: Bytes, start: int, n: Node, s: Step, n': Node, result: AddResult)
    requires n == GenesisNode(env, owner, start) && HonestOutcome(env, bodies, n, s, n', result)
    ensures n'.chain != [] && n' == Settled(n')
  {
    StartSettled(env, owner, start, n);
    StaysSettled(env, n, s);
  }

  /** On an empty disk: start a chain, make a payment, stop, and load again. The object loaded stands for the node of
      an honest run of one step. */
  method FirstPayment(env: Env, genesisAddress: Bytes, store: Storage, start: int, ghost bodies: set<TxBody>, ghost request: Step,
                      from: Bytes, to: Bytes, amount: int, w: Wallet, tape: nat, miner: Bytes, now: int, later: int,
                      ghost n: Node)
    returns (bc: Blockchain, ghost s: Step, ghost n': Node)
    requires store.db == EMPTY_STORE && env.decodeAddress(genesisAddress).Some?
    requires Starts(env, bodies, env.decodeAddress(genesisAddress).value, start, n)
    requires HonestRequest(env, bodies, n, request) && AlwaysReloadable(env, bodies, n, request)
    requires Asks(request, from, to, amount, w, miner, now, later)
    modifies store
    ensures fresh(bc) && fresh(bc.UTXOSet) && Opened(bc, env, store, n')
    ensures s.Pay? && s == request.(choice := s.choice)
    ensures HonestRun(env, bodies, env.decodeAddress(genesisAddress).value, start, [n, n'], [s])
  {
    ghost var owner := env.decodeAddress(genesisAddress).value;
    var first := NewBlockchain(env, genesisAddress, store, start, 0);
    var r;
    ghost var v;
    ghost var arrays := first.value.UTXOSet.Cells.Keys;
    r, s, v := HonestPayment(first.value, bodies, request, from, to, amount, w, tape, miner, now, later, n, arrays, true);
    n' := first.value.State();
    FirstStep(env, bodies, owner, start, n, s, n', Result(r, v));
    FirstStepSettled(env, bodies, owner, start, n, s, n', Result(r, v));
    assert s == request.(choice := s.choice);
    bc := Reopen(env, store, bodies, n');
  }
}
