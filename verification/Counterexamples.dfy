/** Where the code's promises end: a reload that differs, a payment to oneself, and a transaction added twice. */
module Counterexamples {
  import opened Prelude
  import opened ByteStrings
  import opened Crypto
  import opened ProofOfWork
  import opened Transactions
  import opened Chains
  import opened Difficulty
  import opened Nodes
  import opened Executions
  import opened HonestRuns
  import opened Payments
  import opened Runs
  import opened Reload
  import opened ToyWorld
  import opened SelfPayments
  import opened Sync
  import opened Header
  import opened Merkle
  import opened Witness

  /** ---------- A reload that differs ---------- */

  /** Nine empty blocks, all at time zero, and then one dated too far ahead, which is refused. */
  function MineAt(k: nat): Step {
    if k < 9 then Mine(OWNER, 0, 0) else Mine(OWNER, MAX_FUTURE + 1, 0)
  }

  ghost function Nth(k: nat): (n: Node)
    ensures |n.chain| > 0
  {
    if k == 0 then Start()
    else
      ExecDifficulty(ToyEnv(), Nth(k - 1), MineAt(k - 1));
      Exec(ToyEnv(), Nth(k - 1), MineAt(k - 1)).0
  }

  ghost function MineBodies(): set<TxBody> {
    set k: nat | k <= 10 :: Body(CoinbaseAt(k, OWNER))
  }

  lemma MineBodiesDiffer()
    ensures NoTxCollision(ToyEnv(), MineBodies())
  {
    forall a, b | a in MineBodies() && b in MineBodies() && ToyEnv().txHash(a) == ToyEnv().txHash(b) ensures a == b {
      var i: nat :| i <= 10 && a == Body(CoinbaseAt(i, OWNER));
      var j: nat :| j <= 10 && b == Body(CoinbaseAt(j, OWNER));
      CoinbasesDiffer(i, j);
    }
  }

  lemma CoinbasesDiffer(i: nat, j: nat)
    requires i <= 10 && j <= 10
    requires ToyEnv().txHash(Body(CoinbaseAt(i, OWNER))) == ToyEnv().txHash(Body(CoinbaseAt(j, OWNER)))
    ensures i == j
  {
    CoinbaseHash(i, OWNER);
    CoinbaseHash(j, OWNER);
    TagInjective(1, Mark(i).0, Mark(i).1, 1, Mark(j).0, Mark(j).1);
  }

  /** All blocks at time zero and at the default difficulty. */
  predicate AllEarly(n: Node) {
    && |n.chain| > 0 && n.bits == DEFAULT_TARGET_BITS && TipBits(n.chain) == DEFAULT_TARGET_BITS
    && forall i :: 0 <= i < |n.chain| ==> n.chain[i].header.timestamp == 0
  }

  lemma MineIsHonest(n: Node, k: nat, now: int)
    requires |n.chain| == k + 1 <= 10
    ensures Honest(ToyEnv(), MineBodies(), n, Mine(OWNER, now, 0))
  {
    assert CoinbaseData(k + 1) == BlockData(k + 1);
    assert Body(CoinbaseAt(k + 1, OWNER)) in MineBodies();
  }

  lemma EmptyBlockMined(n: Node)
    requires AllEarly(n) && |n.chain| <= 9
    ensures !Exhausted(ToyEnv(), Template(ToyEnv(), n, StepTxs(ToyEnv(), n, Mine(OWNER, 0, 0)), 0))
  {
    NeverExhausted(Template(ToyEnv(), n, StepTxs(ToyEnv(), n, Mine(OWNER, 0, 0)), 0));
  }

  lemma EmptyBlockAdded(n: Node, k: nat)
    requires Inv(ToyEnv(), MineBodies(), n) && AllEarly(n) && |n.chain| == k + 1 <= 9
    requires AddressesDecode(ToyEnv()) && NoTxCollision(ToyEnv(), MineBodies())
    ensures Exec(ToyEnv(), n, Mine(OWNER, 0, 0)).1.Added?
  {
    MineIsHonest(n, k, 0);
    EmptyBlockMined(n);
    BlockAccepted(ToyEnv(), MineBodies(), n, Mine(OWNER, 0, 0));
  }

  lemma EmptyBlockKeepsInv(n: Node, k: nat)
    requires Inv(ToyEnv(), MineBodies(), n) && |n.chain| == k + 1 <= 9
    requires AddressesDecode(ToyEnv()) && NoTxCollision(ToyEnv(), MineBodies())
    ensures Inv(ToyEnv(), MineBodies(), Exec(ToyEnv(), n, Mine(OWNER, 0, 0)).0)
  {
    MineIsHonest(n, k, 0);
    StepKeepsInv(ToyEnv(), MineBodies(), n, Mine(OWNER, 0, 0));
  }

  lemma StaysEarly(n: Node)
    requires AllEarly(n) && |n.chain| <= 9 && Exec(ToyEnv(), n, Mine(OWNER, 0, 0)).1.Added?
    ensures AllEarly(Exec(ToyEnv(), n, Mine(OWNER, 0, 0)).0)
    ensures |Exec(ToyEnv(), n, Mine(OWNER, 0, 0)).0.chain| == |n.chain| + 1
  {
    ExecDifficulty(ToyEnv(), n, Mine(OWNER, 0, 0));
  }

  /** The states of the run before the last step. */
  ghost predicate Early(n: Node, k: nat) {
    Inv(ToyEnv(), MineBodies(), n) && AllEarly(n) && |n.chain| == k + 1
  }

  lemma StartsEarly()
    ensures Early(Start(), 0)
  {
    assert Body(CoinbaseAt(0, OWNER)) in MineBodies();
    StartInv(MineBodies());
    StartAllEarly();
  }

  lemma StartAllEarly()
    ensures AllEarly(Start()) && |Start().chain| == 1
  {
    StartIsGenesis();
    assert Start().chain[0].header.timestamp == 0;
  }

  lemma MinesOne(n: Node, k: nat)
    requires Early(n, k) && k < 9 && AddressesDecode(ToyEnv()) && NoTxCollision(ToyEnv(), MineBodies())
    ensures Early(Exec(ToyEnv(), n, Mine(OWNER, 0, 0)).0, k + 1)
  {
    EmptyBlockAdded(n, k);
    EmptyBlockKeepsInv(n, k);
    StaysEarly(n);
  }

  lemma NthNext(k: nat)
    requires 0 < k <= 9
    ensures Nth(k) == Exec(ToyEnv(), Nth(k - 1), Mine(OWNER, 0, 0)).0
  {
  }

  lemma {:induction false} MinesUp(k: nat)
    requires k <= 9 && AddressesDecode(ToyEnv()) && NoTxCollision(ToyEnv(), MineBodies())
    ensures Early(Nth(k), k)
    decreases k
  {
    if k == 0 {
      StartsEarly();
    } else {
      MinesUp(k - 1);
      MinesOne(Nth(k - 1), k - 1);
      NthNext(k);
    }
  }

  /** The tenth step adjusts the difficulty and fails. */
  lemma TenthFails(n: Node)
    requires AllEarly(n) && |n.chain| == 10
    ensures Exec(ToyEnv(), n, MineAt(9)) == (n.(bits := DEFAULT_TARGET_BITS + 1), Failed)
  {
    AddBlockIsStep(ToyEnv(), n, [], OWNER, MAX_FUTURE + 1, 0);
    ExecDifficulty(ToyEnv(), n, MineAt(9));
    var cb := NewCoinbase(ToyEnv(), n, MineAt(9));
    assert [cb] + [] == [cb];
    FutureRefused(n, [cb]);
  }

  lemma FutureRefused(n: Node, txs: seq<TxV>)
    requires |n.chain| > 0
    ensures Extended(ToyEnv(), n, txs, MAX_FUTURE + 1, 0) == (n.(bits := Adjusted(n.bits, Times(n.chain))), Failed)
  {
    ValidationMeans(ToyEnv(), n.chain, MinedBlock(ToyEnv(), Template(ToyEnv(), n, txs, MAX_FUTURE + 1), txs), 0);
  }

  ghost function ReloadNodes(): seq<Node> {
    seq(11, k requires 0 <= k < 11 => Nth(k))
  }

  function ReloadSteps(): seq<Step> {
    seq(10, k requires 0 <= k < 10 => MineAt(k))
  }

  lemma ReloadStepIsHonest(i: nat)
    requires i < 10 && AddressesDecode(ToyEnv()) && NoTxCollision(ToyEnv(), MineBodies())
    ensures Honest(ToyEnv(), MineBodies(), Nth(i), MineAt(i)) && Nth(i + 1) == Exec(ToyEnv(), Nth(i), MineAt(i)).0
  {
    MinesUp(i);
    EarlyMineIsHonest(Nth(i), i);
    NthIsNext(i);
  }

  lemma EarlyMineIsHonest(n: Node, k: nat)
    requires k < 10 && Early(n, k)
    ensures Honest(ToyEnv(), MineBodies(), n, MineAt(k))
  {
    MineIsHonest(n, k, MineAt(k).now);
  }

  lemma NthIsNext(i: nat)
    ensures Nth(i + 1) == Exec(ToyEnv(), Nth(i), MineAt(i)).0
  {
  }

  lemma ReloadRunIsHonest()
    requires AddressesDecode(ToyEnv()) && NoTxCollision(ToyEnv(), MineBodies())
    ensures HonestRun(ToyEnv(), MineBodies(), OWNER, 0, ReloadNodes(), ReloadSteps())
  {
    var nodes, steps := ReloadNodes(), ReloadSteps();
    StartIsGenesis();
    assert Body(CoinbaseAt(0, OWNER)) in MineBodies();
    forall i | 0 <= i < 10
      ensures Honest(ToyEnv(), MineBodies(), nodes[i], steps[i]) && nodes[i + 1] == Exec(ToyEnv(), nodes[i], steps[i]).0
    {
      ReloadStepIsHonest(i);
    }
  }

  lemma LastReload(n: Node, after: Node)
    requires Inv(ToyEnv(), MineBodies(), n) && AllEarly(n) && |n.chain| == 10
    requires after == n.(bits := 17)
    ensures NoHeaderCollision(ToyEnv(), n.chain, n.chain) && NoZeroHash(n.chain)
    ensures Loaded(StoreOf(after.chain), 10) == Some(after.(bits := 16))
  {
    SoundMeansDistinct(MineBodies(), n);
    ReloadTheorem(ToyEnv(), n, 10);
  }

  /** After this run, in a world that meets all assumptions, reloading gives a node with another difficulty. */
  lemma ReloadDiffers()
    ensures AddressesDecode(ToyEnv()) && NoTxCollision(ToyEnv(), MineBodies())
    ensures HonestRun(ToyEnv(), MineBodies(), OWNER, 0, ReloadNodes(), ReloadSteps())
    ensures var n := ReloadNodes()[10];
      NoHeaderCollision(ToyEnv(), n.chain, n.chain) && NoZeroHash(n.chain) && |n.chain| == 10 &&
      n.bits == 17 && Loaded(StoreOf(n.chain), 10) == Some(n.(bits := 16))
  {
    WorldIsSound();
    MineBodiesDiffer();
    ReloadRunIsHonest();
    var n := Nth(9);
    MinesUp(9);
    TenthFails(n);
    LastReload(n, ReloadNodes()[10]);
  }

  /** ---------- A search that is exhausted ---------- */

  function Ones(): Hash {
    seq(32, i => 255)
  }

  /** As the toy world, but behind the genesis no header has a hash that meets a target. */
  function StuckEnv(): Env {
    ToyEnv().(doubleHash := (x: Bytes) => if |x| == 84 && x[35] != 0 then Ones() else Tag(3, 0, 1))
  }

  lemma OnesMissesTargets(bits: uint32)
    requires 0 < bits <= 256
    ensures !IsValidHash(Ones(), bits)
  {
    ValidHashIffLeadingZeros(Ones(), bits);
    TopBit();
    assert Bit(Ones(), 0) == ByteBit(255, 0);
  }

  lemma TopBit()
    ensures ByteBit(255, 0) == 1
  {
    assert Pow(2, 3) == 8;
    assert Pow(2, 7) == 16 * Pow(2, 3);
  }

  lemma StuckHash(h: BlockHeader)
    requires |h.prevBlockHash| == 32 && |h.merkleRoot| == 32
    ensures HashHeader(StuckEnv(), h) == if h.prevBlockHash[31] != 0 then Ones() else Tag(3, 0, 1)
  {
    CutFields(h);
    var x := Serialized(h);
    assert |x| == 84;
    assert x[4..36][31] == x[35];
  }

  /** A genesis is mined, and then AddBlock fails: no nonce meets the target. */
  lemma SearchExhausted()
    ensures var n := GenesisNode(StuckEnv(), OWNER, 0);
      n.chain[0].header.nonce < MAX_NONCE && Attempted(StuckEnv(), n, OWNER, []) &&
      Exhausted(StuckEnv(), Template(StuckEnv(), n, AllOf(StuckEnv(), n, OWNER, []), 0)) &&
      AddBlock(StuckEnv(), n, [], OWNER, 0, 0).1 == Failed
  {
    var n := GenesisNode(StuckEnv(), OWNER, 0);
    StuckGenesis();
    var txs := AllOf(StuckEnv(), n, OWNER, []);
    var h := Template(StuckEnv(), n, txs, 0);
    StuckAbove(h, txs[0].id);
    AttemptIsMade(StuckEnv(), n, OWNER, [], 0, 0);
    if BlockFault(StuckEnv(), n.chain, MinedBlock(StuckEnv(), h, txs), 0) == None {
      MinedBlockSucceeded(StuckEnv(), n, txs, 0, 0);
    }
  }

  lemma StuckGenesis()
    ensures var b := GenesisNode(StuckEnv(), OWNER, 0).chain[0];
      b.header.nonce == 0 && b.hash == Tag(3, 0, 1)
  {
    var t := CoinbaseTx(StuckEnv(), OWNER, GenesisData(), REWARD);
    var h := BlockHeader(1, ZeroBytes(32), Root(StuckEnv(), [t.id]), 0, DEFAULT_TARGET_BITS, 0);
    StuckHash(h.(nonce := 0));
    TagValid(3, 0, 1, DEFAULT_TARGET_BITS);
  }

  lemma StuckAbove(h: BlockHeader, id: Hash)
    requires h.prevBlockHash == Tag(3, 0, 1) && h.merkleRoot == Root(StuckEnv(), [id]) && 0 < h.difficultyTarget <= 32
    ensures Exhausted(StuckEnv(), h)
  {
    forall nonce: uint32 | nonce < MAX_NONCE ensures !MeetsTarget(StuckEnv(), h.(nonce := nonce)) {
      StuckHash(h.(nonce := nonce));
      OnesMissesTargets(h.difficultyTarget);
    }
  }

  /** ---------- A download that adopts nothing ---------- */

  /** The peer's chain extends ours by a valid block; but by our clock it is dated more than two hours ahead. */
  lemma UntimelyDownload()
    ensures |Start().chain| == 1 && |AfterSelf().chain| == 2
    ensures ChainOk(ToyEnv(), Start().chain) && ChainOk(ToyEnv(), AfterSelf().chain) && Start().chain < AfterSelf().chain
    ensures HashesBehave(ToyEnv(), Start().chain, AfterSelf().chain)
    ensures Downloaded(ToyEnv(), Start().chain, AfterSelf().chain, [-MAX_FUTURE - 1]) == Start().chain
  {
    StartIsGenesis();
    SelfMined();
    GenesisChain(ToyEnv(), OWNER, 0);
    AfterSelfIsSound();
    ActDifficulty(ToyEnv(), Start(), Submit([SelfTx()], OTHER, 0, 0));
    NothingTimely(ToyEnv(), Start().chain, AfterSelf().chain, [-MAX_FUTURE - 1]);
  }

  lemma NothingTimely(env: Env, ours: Chain, peer: Chain, clock: seq<int>)
    requires ChainOk(env, ours) && ChainOk(env, peer) && NoHeaderCollision(env, peer, peer) && NoZeroHash(peer)
    requires ours < peer && |clock| == |peer| - |ours| && peer[|ours|].header.timestamp > clock[0] + MAX_FUTURE
    ensures HashesBehave(env, ours, peer) && Downloaded(env, ours, peer, clock) == ours
  {
    assert forall i :: 0 <= i < |ours| ==> ours[i] == peer[i];
    assert peer[|ours|..][0] == peer[|ours|];
    DownloadExact(env, ours, peer, clock);
  }
}
