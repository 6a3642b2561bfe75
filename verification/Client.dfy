/** The node program: make a payment and mine it at once; or mine an empty block. */
module Clients {
  import opened Prelude
  import opened ByteStrings
  import opened Crypto
  import opened Transactions
  import opened Ledgers
  import opened Chains
  import opened Nodes
  import opened HonestRuns
  import opened Payments
  import opened Blocks
  import opened UTXOSets
  import opened Reload
  import opened Blockchains
  import opened Startup

  /** With a coinbase for `miner`, the transactions have fresh IDs. */
  ghost predicate FreshFor(env: Env, n: Node, txs: seq<TxV>, miner: Bytes) {
    env.decodeAddress(miner).Some? ==>
      FreshTxs(n.ledger.recorded.Keys, [CoinbaseTx(env, env.decodeAddress(miner).value, BlockData(|n.chain|), REWARD)] + txs)
  }

  lemma StepIsFreshFor(env: Env, bodies: set<TxBody>, n: Node, s: Step, txs: seq<TxV>)
    requires AddressesDecode(env) && NoTxCollision(env, bodies) && Inv(env, bodies, n) && Honest(env, bodies, n, s)
    requires env.decodeAddress(s.miner).Some? && (s.Pay? ==> Order(env, n, s).Ok?)
    requires StepTxs(env, n, s) == [NewCoinbase(env, n, s)] + txs
    ensures FreshFor(env, n, txs, s.miner)
  {
    StepIsFresh(env, bodies, n, s);
  }

  lemma OrderTxs(env: Env, n: Node, s: Step)
    requires s.Pay? && env.decodeAddress(s.miner).Some? && PayOk(env, n.ledger, s) && Order(env, n, s).Ok?
    ensures StepTxs(env, n, s) == [NewCoinbase(env, n, s)] + [Order(env, n, s).value]
  {
  }

  lemma OrderIsFresh(env: Env, bodies: set<TxBody>, n: Node, s: Step)
    requires AddressesDecode(env) && NoTxCollision(env, bodies) && Inv(env, bodies, n) && Honest(env, bodies, n, s)
    requires s.Pay? && Order(env, n, s).Ok?
    ensures FreshFor(env, n, [Order(env, n, s).value], s.miner)
  {
    if env.decodeAddress(s.miner).Some? {
      OrderTxs(env, n, s);
      StepIsFreshFor(env, bodies, n, s, [Order(env, n, s).value]);
    }
  }

  lemma OneIsNew(bc: Blockchain, t: Transaction, miner: Bytes)
    requires bc.Valid() && bc.Linked() && FreshFor(bc.env, bc.State(), [t.Value()], miner) && t.Outputs !in bc.UTXOSet.Cells
    ensures Hold([t], [t.Value()]) && bc.Submittable([t], [t.Value()], miner)
  {
  }

  lemma NoneIsNew(bc: Blockchain, miner: Bytes)
    requires bc.Valid() && bc.Linked() && FreshFor(bc.env, bc.State(), [], miner)
    ensures Hold([], []) && bc.Submittable([], [], miner)
  {
  }

  /** The disk holds what saving every block of the chain leaves on it. */
  ghost predicate Mirrored(bc: Blockchain)
    reads bc, bc.Storage
  {
    bc.Disk().Some? ==> bc.Disk() == Some(StoreOf(bc.Chain))
  }

  /** The block is added, or the ledger is as it was. */
  predicate Clean(n: Node, after: (Node, AddResult)) {
    after.1.Added? || after.0.ledger == n.ledger
  }

  /** AddBlock with one new transaction. */
  method MineOne(bc: Blockchain, t: Transaction, miner: Bytes, now: int, later: int,
                 ghost n: Node, ghost val: TxV, ghost arrays: set<array<TxOutput>>, ghost mirrored: bool)
    returns (r: Outcome<Block>, ghost v: BlockV)
    requires ActsAs(bc, n) && t.Value() == val && FreshFor(bc.env, n, [val], miner) && t.Outputs !in bc.UTXOSet.Cells
    requires bc.UTXOSet.Cells.Keys <= arrays && t.Outputs in arrays && (mirrored ==> Mirrored(bc))
    modifies bc`Blocks, bc`Chain, bc`Cells, bc`Txs, bc`DifficultyTarget, bc.UTXOSet, arrays, bc.Storage
    ensures bc.Valid() && forall a :: a in bc.UTXOSet.Cells ==> a in arrays || fresh(a)
    ensures (bc.State(), Result(r, v)) == Nodes.AddBlock(bc.env, n, [val], miner, now, later)
    ensures Clean(n, (bc.State(), Result(r, v))) ==> bc.Linked()
    ensures bc.Storage == old(bc.Storage) && bc.UTXOSet == old(bc.UTXOSet) && (mirrored ==> Mirrored(bc))
  {
    OneIsNew(bc, t, miner);
    ghost var saved, own;
    bc.LinkedSees();
    r, v, saved, own := bc.AddBlock([t], [val], miner, now, later, OutputsOf([t]), n, bc.UTXOSet.Holding(), bc.Disk(), arrays, true);
    if r.Ok? {
      AddBlockSaves(bc.env, n, [val], miner, now, later);
    }
  }

  /** CreateTransaction, and AddBlock at once. */
  ghost function Paid(env: Env, n: Node, from: Bytes, to: Bytes, amount: int, w: Wallet, c: Choice, miner: Bytes, now: int, later: int)
    : (Node, AddResult)
    requires |n.chain| > 0 && ChoiceFits(env, n.ledger, from, amount, c)
  {
    match Created(env, n.ledger, from, to, amount, w, c)
    case Ok(t) => Nodes.AddBlock(env, n, [t], miner, now, later)
    case Err => (n, Failed)
    case Panic => (n, Panicked)
  }

  /** Whatever order the maps are traversed in, the payment created has a fresh ID. */
  ghost predicate AlwaysFresh(env: Env, n: Node, from: Bytes, to: Bytes, amount: int, w: Wallet, miner: Bytes) {
    forall c :: ChoiceFits(env, n.ledger, from, amount, c) && Created(env, n.ledger, from, to, amount, w, c).Ok? ==>
      FreshFor(env, n, [Created(env, n.ledger, from, to, amount, w, c).value], miner)
  }

  method CreateFor(bc: Blockchain, from: Bytes, to: Bytes, amount: int, w: Wallet, tape: nat, ghost n: Node, ghost mirrored: bool)
    returns (r: Outcome<Transaction>, ghost choice: Choice)
    requires ActsAs(bc, n) && (mirrored ==> Mirrored(bc))
    ensures ActsAs(bc, n) && (mirrored ==> Mirrored(bc)) && ChoiceFits(bc.env, n.ledger, from, amount, choice)
    ensures Yields(r, Created(bc.env, n.ledger, from, to, amount, w, choice))
    ensures r.Ok? ==> fresh(r.value) && fresh(r.value.Outputs) && r.value.Outputs !in bc.UTXOSet.Cells
    ensures bc.State() == old(bc.State()) && bc.UTXOSet.Cells == old(bc.UTXOSet.Cells)
  {
    bc.LinkedSees();
    r, choice := bc.CreateTransaction(from, to, amount, w, tape, n.ledger);
  }

  method PayAndMine(bc: Blockchain, from: Bytes, to: Bytes, amount: int, w: Wallet, tape: nat, miner: Bytes, now: int, later: int,
                    ghost n: Node, ghost arrays: set<array<TxOutput>>, ghost mirrored: bool)
    returns (r: Outcome<Block>, ghost choice: Choice, ghost v: BlockV)
    requires ActsAs(bc, n) && |n.chain| > 0 && AlwaysFresh(bc.env, n, from, to, amount, w, miner)
    requires bc.UTXOSet.Cells.Keys <= arrays && (mirrored ==> Mirrored(bc))
    modifies bc`Blocks, bc`Chain, bc`Cells, bc`Txs, bc`DifficultyTarget, bc.UTXOSet, arrays, bc.Storage
    ensures bc.Valid() && forall a :: a in bc.UTXOSet.Cells ==> a in arrays || fresh(a)
    ensures ChoiceFits(bc.env, n.ledger, from, amount, choice)
    ensures (bc.State(), Result(r, v)) == Paid(bc.env, n, from, to, amount, w, choice, miner, now, later)
    ensures Clean(n, (bc.State(), Result(r, v))) ==> bc.Linked()
    ensures bc.Storage == old(bc.Storage) && bc.UTXOSet == old(bc.UTXOSet) && (mirrored ==> Mirrored(bc))
  {
    var t;
    t, choice := CreateFor(bc, from, to, amount, w, tape, n, mirrored);
    v := n.chain[0];
    if t.Ok? {
      r, v := MineOne(bc, t.value, miner, now, later, n, t.value.Value(), arrays + {t.value.Outputs}, mirrored);
    } else {
      r := if t.Err? then Err else Panic;
    }
  }

  /** Whatever order the maps are traversed in, the payment is an honest step. */
  ghost predicate AlwaysHonest(env: Env, bodies: set<TxBody>, n: Node, s: Step)
    requires s.Pay?
  {
    forall c :: ChoiceFits(env, n.ledger, s.from, s.amount, c) ==> Honest(env, bodies, n, s.(choice := c))
  }

  lemma HonestIsFresh(env: Env, bodies: set<TxBody>, n: Node, s: Step)
    requires HonestRequest(env, bodies, n, s)
    ensures AlwaysFresh(env, n, s.from, s.to, s.amount, s.wallet, s.miner)
  {
    forall c | ChoiceFits(env, n.ledger, s.from, s.amount, c) && Created(env, n.ledger, s.from, s.to, s.amount, s.wallet, c).Ok?
      ensures FreshFor(env, n, [Created(env, n.ledger, s.from, s.to, s.amount, s.wallet, c).value], s.miner)
    {
      OrderIsFresh(env, bodies, n, s.(choice := c));
    }
  }

  /** An honest payment is due at a node of an honest run. */
  ghost predicate HonestRequest(env: Env, bodies: set<TxBody>, n: Node, s: Step) {
    AddressesDecode(env) && NoTxCollision(env, bodies) && Inv(env, bodies, n) && s.Pay? && AlwaysHonest(env, bodies, n, s)
  }

  /** It takes node n to n', another node of the run. */
  ghost predicate HonestOutcome(env: Env, bodies: set<TxBody>, n: Node, s: Step, n': Node, result: AddResult) {
    Honest(env, bodies, n, s) && (n', result) == Exec(env, n, s) && Inv(env, bodies, n')
  }

  lemma StepIsClean(env: Env, bodies: set<TxBody>, n: Node, s: Step)
    requires AddressesDecode(env) && NoTxCollision(env, bodies) && Inv(env, bodies, n) && Honest(env, bodies, n, s)
    ensures HonestOutcome(env, bodies, n, s, Exec(env, n, s).0, Exec(env, n, s).1) && Clean(n, Exec(env, n, s))
  {
    StepKeepsInv(env, bodies, n, s);
    if !Exec(env, n, s).1.Added? {
      FailedStepKeepsLedger(env, bodies, n, s);
    }
  }

  /** What PayAndMine does is an honest step, so everything proved about honest steps and runs holds of the objects. */
  lemma PaidIsHonest(env: Env, bodies: set<TxBody>, n: Node, s: Step, n': Node, result: AddResult)
    requires HonestRequest(env, bodies, n, s) && ChoiceFits(env, n.ledger, s.from, s.amount, s.choice)
    requires (n', result) == Paid(env, n, s.from, s.to, s.amount, s.wallet, s.choice, s.miner, s.now, s.later)
    ensures HonestOutcome(env, bodies, n, s, n', result) && Clean(n, (n', result))
  {
    assert s == s.(choice := s.choice);
    StepIsClean(env, bodies, n, s);
  }

  /** `request` asks for this payment, with any traversal orders. */
  ghost predicate Asks(request: Step, from: Bytes, to: Bytes, amount: int, w: Wallet, miner: Bytes, now: int, later: int) {
    request.Pay? && request == Pay(from, to, amount, w, request.choice, miner, now, later)
  }

  method HonestPayment(bc: Blockchain, ghost bodies: set<TxBody>, ghost request: Step,
                       from: Bytes, to: Bytes, amount: int, w: Wallet, tape: nat, miner: Bytes, now: int, later: int,
                       ghost n: Node, ghost arrays: set<array<TxOutput>>, ghost mirrored: bool)
    returns (r: Outcome<Block>, ghost s: Step, ghost v: BlockV)
    requires ActsAs(bc, n) && HonestRequest(bc.env, bodies, n, request) && Asks(request, from, to, amount, w, miner, now, later)
    requires bc.UTXOSet.Cells.Keys <= arrays && (mirrored ==> Mirrored(bc))
    modifies bc`Blocks, bc`Chain, bc`Cells, bc`Txs, bc`DifficultyTarget, bc.UTXOSet, arrays, bc.Storage
    ensures ActsAs(bc, bc.State()) && forall a :: a in bc.UTXOSet.Cells ==> a in arrays || fresh(a)
    ensures s.Pay? && s == request.(choice := s.choice) && HonestOutcome(bc.env, bodies, n, s, bc.State(), Result(r, v))
    ensures bc.Storage == old(bc.Storage) && bc.UTXOSet == old(bc.UTXOSet) && (mirrored ==> Mirrored(bc))
  {
    ghost var choice := request.choice;
    HonestIsFresh(bc.env, bodies, n, request);
    r, choice, v := PayAndMine(bc, from, to, amount, w, tape, miner, now, later, n, arrays, mirrored);
    s := request.(choice := choice);
    PaidIsHonest(bc.env, bodies, n, s, bc.State(), Result(r, v));
  }

  /** An empty block is due at a node of an honest run. */
  ghost predicate HonestMiningDue(env: Env, bodies: set<TxBody>, n: Node, s: Step) {
    AddressesDecode(env) && NoTxCollision(env, bodies) && Inv(env, bodies, n) && s.Mine? && Honest(env, bodies, n, s)
  }

  lemma MiningTxs(env: Env, n: Node, s: Step)
    requires s.Mine? && env.decodeAddress(s.miner).Some? && |n.chain| > 0
    ensures StepTxs(env, n, s) == [NewCoinbase(env, n, s)] + []
  {
  }

  lemma MiningIsFresh(env: Env, bodies: set<TxBody>, n: Node, s: Step)
    requires HonestMiningDue(env, bodies, n, s)
    ensures FreshFor(env, n, [], s.miner)
  {
    if env.decodeAddress(s.miner).Some? {
      MiningTxs(env, n, s);
      StepIsFreshFor(env, bodies, n, s, []);
    }
  }

  /** AddBlock without transactions. */
  method MineEmpty(bc: Blockchain, miner: Bytes, now: int, later: int,
                   ghost n: Node, ghost arrays: set<array<TxOutput>>, ghost mirrored: bool)
    returns (r: Outcome<Block>, ghost v: BlockV)
    requires ActsAs(bc, n) && |n.chain| > 0 && FreshFor(bc.env, n, [], miner)
    requires bc.UTXOSet.Cells.Keys <= arrays && (mirrored ==> Mirrored(bc))
    modifies bc`Blocks, bc`Chain, bc`Cells, bc`Txs, bc`DifficultyTarget, bc.UTXOSet, arrays, bc.Storage
    ensures bc.Valid() && forall a :: a in bc.UTXOSet.Cells ==> a in arrays || fresh(a)
    ensures (bc.State(), Result(r, v)) == Nodes.AddBlock(bc.env, n, [], miner, now, later)
    ensures Clean(n, (bc.State(), Result(r, v))) ==> bc.Linked()
    ensures bc.Storage == old(bc.Storage) && bc.UTXOSet == old(bc.UTXOSet) && (mirrored ==> Mirrored(bc))
  {
    NoneIsNew(bc, miner);
    ghost var saved, own;
    bc.LinkedSees();
    r, v, saved, own := bc.AddBlock([], [], miner, now, later, OutputsOf([]), n, bc.UTXOSet.Holding(), bc.Disk(), arrays, true);
    if r.Ok? {
      AddBlockSaves(bc.env, n, [], miner, now, later);
    }
  }

  method HonestMining(bc: Blockchain, ghost bodies: set<TxBody>, miner: Bytes, now: int, later: int,
                      ghost n: Node, ghost arrays: set<array<TxOutput>>, ghost mirrored: bool)
    returns (r: Outcome<Block>, ghost v: BlockV)
    requires ActsAs(bc, n) && HonestMiningDue(bc.env, bodies, n, Mine(miner, now, later))
    requires bc.UTXOSet.Cells.Keys <= arrays && (mirrored ==> Mirrored(bc))
    modifies bc`Blocks, bc`Chain, bc`Cells, bc`Txs, bc`DifficultyTarget, bc.UTXOSet, arrays, bc.Storage
    ensures ActsAs(bc, bc.State()) && forall a :: a in bc.UTXOSet.Cells ==> a in arrays || fresh(a)
    ensures HonestOutcome(bc.env, bodies, n, Mine(miner, now, later), bc.State(), Result(r, v))
    ensures bc.Storage == old(bc.Storage) && bc.UTXOSet == old(bc.UTXOSet) && (mirrored ==> Mirrored(bc))
  {
    MiningIsFresh(bc.env, bodies, n, Mine(miner, now, later));
    StepIsClean(bc.env, bodies, n, Mine(miner, now, later));
    r, v := MineEmpty(bc, miner, now, later, n, arrays, mirrored);
  }

  /** GetBalance on a linked object is the balance in its state. */
  lemma BalanceIs(bc: Blockchain, h: Bytes)
    requires bc.Valid() && bc.Linked()
    ensures Wrap64(Total(bc.UTXOSet.Live(), Owner(h))) == Balance(bc.State(), h)
  {
    bc.UTXOSet.LinkedIsAliased();
  }
}
