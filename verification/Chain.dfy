/** Blocks, block validation, and what every reachable chain satisfies. */
module Chains {
  import opened Prelude
  import opened ByteStrings
  import opened Crypto
  import opened Header
  import opened ProofOfWork
  import opened Merkle
  import opened Transactions

  /** A block as it was added; transactions are typed (no block decoded from JSON is one). */
  datatype BlockV = BlockV(header: BlockHeader, txs: seq<TxV>, hash: Bytes)

  type Chain = seq<BlockV>

  const MAX_FUTURE: int := 2 * 3600 * NANOS_PER_SECOND

  function Ids(txs: seq<TxV>): (r: seq<Bytes>)
    ensures |r| == |txs|
  {
    seq(|txs|, i requires 0 <= i < |txs| => txs[i].id)
  }

  function TipHash(chain: Chain): Bytes {
    if chain == [] then [] else chain[|chain| - 1].hash
  }

  /** ---------- Block validation ---------- */

  datatype Fault =
    | InvalidProofOfWork | HashMismatch | MerkleMismatch | WrongPredecessor
    | FromTheFuture | NoTransactions | NoCoinbase | TwoCoinbases

  predicate HasLaterCoinbase(txs: seq<TxV>) {
    exists i :: 1 <= i < |txs| && IsCoinbase(txs[i].inputs)
  }

  /** ValidateBlock: the first check that fails, in the order the code makes them. */
  function BlockFault(env: Env, chain: Chain, b: BlockV, now: int): Option<Fault> {
    if !MeetsTarget(env, b.header) then Some(InvalidProofOfWork)
    else if HashHeader(env, b.header) != b.hash then Some(HashMismatch)
    else if Root(env, Ids(b.txs)) != b.header.merkleRoot then Some(MerkleMismatch)
    else if |chain| > 0 && b.header.prevBlockHash != chain[|chain| - 1].hash then Some(WrongPredecessor)
    else if b.header.timestamp > now + MAX_FUTURE then Some(FromTheFuture)
    else if |b.txs| == 0 then Some(NoTransactions)
    else if !IsCoinbase(b.txs[0].inputs) then Some(NoCoinbase)
    else if HasLaterCoinbase(b.txs) then Some(TwoCoinbases)
    else None
  }

  /** The block that a search from this header yields. */
  function MinedBlock(env: Env, h: BlockHeader, txs: seq<TxV>): BlockV {
    var (nonce, hash) := Mined(env, h);
    BlockV(h.(nonce := nonce), txs, hash)
  }

  /** What a block says about itself and nothing else. */
  predicate SelfConsistent(env: Env, b: BlockV) {
    && MeetsTarget(env, b.header)
    && HashHeader(env, b.header) == b.hash
    && Root(env, Ids(b.txs)) == b.header.merkleRoot
  }

  /** Exactly one coinbase, at position 0. */
  predicate CoinbaseFirst(txs: seq<TxV>) {
    |txs| > 0 && forall i :: 0 <= i < |txs| ==> (IsCoinbase(txs[i].inputs) <==> i == 0)
  }

  predicate Follows(env: Env, prev: BlockV, b: BlockV) {
    SelfConsistent(env, b) && b.header.prevBlockHash == prev.hash && CoinbaseFirst(b.txs)
  }

  lemma ValidationMeans(env: Env, chain: Chain, b: BlockV, now: int)
    requires |chain| > 0
    ensures BlockFault(env, chain, b, now) == None <==>
      Follows(env, chain[|chain| - 1], b) && b.header.timestamp <= now + MAX_FUTURE
  {
    if BlockFault(env, chain, b, now) == None {
      forall i | 0 <= i < |b.txs| ensures IsCoinbase(b.txs[i].inputs) <==> i == 0 { }
    }
    if CoinbaseFirst(b.txs) {
      assert !HasLaterCoinbase(b.txs);
    }
  }

  /** ---------- Which check fails ---------- */

  /** The checks of ValidateBlock, in the order the code makes them. */
  predicate Passes(env: Env, chain: Chain, b: BlockV, now: int, check: Fault) {
    match check
    case InvalidProofOfWork => MeetsTarget(env, b.header)
    case HashMismatch => env.doubleHash(Serialized(b.header)) == b.hash
    case MerkleMismatch => b.header.merkleRoot == if b.txs == [] then ZeroBytes(32) else TopDown(env, Ids(b.txs), Height(|b.txs|))
    case WrongPredecessor => chain == [] || b.header.prevBlockHash == chain[|chain| - 1].hash
    case FromTheFuture => b.header.timestamp - now <= 7_200_000_000_000
    case NoTransactions => b.txs != []
    case NoCoinbase => b.txs != [] ==> Mints(b.txs[0].inputs)
    case TwoCoinbases => forall i :: 1 <= i < |b.txs| ==> !Mints(b.txs[i].inputs)
  }

  function Rank(check: Fault): nat {
    match check
    case InvalidProofOfWork => 1
    case HashMismatch => 2
    case MerkleMismatch => 3
    case WrongPredecessor => 4
    case FromTheFuture => 5
    case NoTransactions => 6
    case NoCoinbase => 7
    case TwoCoinbases => 8
  }

  /** The fault reported is that of the first check that fails, and there is none if all pass. */
  lemma FaultIsFirst(env: Env, chain: Chain, b: BlockV, now: int, fault: Fault)
    ensures BlockFault(env, chain, b, now) == Some(fault) <==>
      !Passes(env, chain, b, now, fault) && PassesBefore(env, chain, b, now, Rank(fault))
    ensures BlockFault(env, chain, b, now) == None <==> PassesBefore(env, chain, b, now, 9)
  {
    var passes := (check: Fault) => Passes(env, chain, b, now, check);
    CodeOrder(env, chain, b, now);
    FirstFailing(passes, BlockFault(env, chain, b, now), fault);
    assert PassesBefore(env, chain, b, now, 9) <==> forall check: Fault :: Rank(check) < 9 ==> passes(check);
    assert PassesBefore(env, chain, b, now, Rank(fault)) <==> forall check: Fault :: Rank(check) < Rank(fault) ==> passes(check);
  }

  predicate FirstOf(passes: Fault -> bool, found: Option<Fault>) {
    found ==
      if !passes(InvalidProofOfWork) then Some(InvalidProofOfWork) else if !passes(HashMismatch) then Some(HashMismatch)
      else if !passes(MerkleMismatch) then Some(MerkleMismatch) else if !passes(WrongPredecessor) then Some(WrongPredecessor)
      else if !passes(FromTheFuture) then Some(FromTheFuture) else if !passes(NoTransactions) then Some(NoTransactions)
      else if !passes(NoCoinbase) then Some(NoCoinbase) else if !passes(TwoCoinbases) then Some(TwoCoinbases) else None
  }

  lemma FirstFailing(passes: Fault -> bool, found: Option<Fault>, fault: Fault)
    requires FirstOf(passes, found)
    ensures found == Some(fault) <==> !passes(fault) && forall check: Fault :: Rank(check) < Rank(fault) ==> passes(check)
    ensures found == None <==> forall check: Fault :: Rank(check) < 9 ==> passes(check)
  {
  }

  lemma CodeOrder(env: Env, chain: Chain, b: BlockV, now: int)
    ensures FirstOf((check: Fault) => Passes(env, chain, b, now, check), BlockFault(env, chain, b, now))
  {
    ChecksAgree(env, chain, b, now);
    CoinbaseChecksAgree(env, chain, b, now);
  }

  predicate PassesBefore(env: Env, chain: Chain, b: BlockV, now: int, rank: nat) {
    forall check: Fault :: Rank(check) < rank ==> Passes(env, chain, b, now, check)
  }

  lemma ChecksAgree(env: Env, chain: Chain, b: BlockV, now: int)
    ensures Passes(env, chain, b, now, InvalidProofOfWork) <==> MeetsTarget(env, b.header)
    ensures Passes(env, chain, b, now, HashMismatch) <==> HashHeader(env, b.header) == b.hash
    ensures Passes(env, chain, b, now, MerkleMismatch) <==> Root(env, Ids(b.txs)) == b.header.merkleRoot
    ensures Passes(env, chain, b, now, WrongPredecessor) <==> !(|chain| > 0 && b.header.prevBlockHash != chain[|chain| - 1].hash)
    ensures Passes(env, chain, b, now, FromTheFuture) <==> !(b.header.timestamp > now + MAX_FUTURE)
  {
    if b.txs != [] {
      TopDownIsRoot(env, Ids(b.txs));
    }
  }

  lemma CoinbaseChecksAgree(env: Env, chain: Chain, b: BlockV, now: int)
    ensures Passes(env, chain, b, now, NoTransactions) <==> |b.txs| != 0
    ensures Passes(env, chain, b, now, NoCoinbase) <==> (|b.txs| != 0 ==> IsCoinbase(b.txs[0].inputs))
    ensures Passes(env, chain, b, now, TwoCoinbases) <==> !HasLaterCoinbase(b.txs)
  {
  }

  predicate SameTx(t: TxV, u: TxV) {
    t.id == u.id && t.inputs == u.inputs
  }

  predicate SameBlock(a: BlockV, b: BlockV) {
    && a.header == b.header && a.hash == b.hash && |a.txs| == |b.txs|
    && forall j :: 0 <= j < |a.txs| ==> SameTx(a.txs[j], b.txs[j])
  }

  /** Validation looks at headers, hashes, IDs and inputs only, and at the tip's hash. */
  lemma FaultIgnoresOutputs(env: Env, chainA: Chain, chainB: Chain, a: BlockV, b: BlockV, now: int)
    requires SameBlock(a, b) && TipHash(chainA) == TipHash(chainB) && (chainA == [] <==> chainB == [])
    ensures BlockFault(env, chainA, a, now) == BlockFault(env, chainB, b, now)
  {
    assert Ids(a.txs) == Ids(b.txs) by {
      forall j | 0 <= j < |a.txs| ensures a.txs[j].id == b.txs[j].id {
        assert SameTx(a.txs[j], b.txs[j]);
      }
    }
    forall j | 0 <= j < |a.txs| ensures IsCoinbase(a.txs[j].inputs) <==> IsCoinbase(b.txs[j].inputs) {
      assert SameTx(a.txs[j], b.txs[j]);
    }
  }

  /** ---------- Reachable chains ---------- */

  /** A successfully mined genesis block. */
  predicate GenesisOk(env: Env, b: BlockV) {
    SelfConsistent(env, b) && b.header.prevBlockHash == ZeroBytes(32) && CoinbaseFirst(b.txs)
  }

  predicate ChainOk(env: Env, chain: Chain) {
    && |chain| > 0
    && GenesisOk(env, chain[0])
    && forall i :: 1 <= i < |chain| ==> Follows(env, chain[i - 1], chain[i])
  }

  /** One step of one node, be it AddBlock or processReceivedBlock: the chain stays,
      or a block that passes validation at some clock reading is appended. */
  ghost predicate ChainStep(env: Env, before: Chain, after: Chain) {
    after == before ||
    exists b, now :: after == before + [b] && BlockFault(env, before, b, now) == None
  }

  lemma StepKeepsChainOk(env: Env, before: Chain, after: Chain)
    requires ChainOk(env, before) && ChainStep(env, before, after)
    ensures ChainOk(env, after) && before <= after
  {
    if after != before {
      var b, now :| after == before + [b] && BlockFault(env, before, b, now) == None;
      ValidationMeans(env, before, b, now);
    }
  }

  /** Many nodes, each with its chain; in each step one of them moves. */
  type World = seq<Chain>

  ghost predicate WorldStep(env: Env, w: World, w': World) {
    |w| == |w'| && exists n :: 0 <= n < |w| && NodeMoves(env, w, w', n)
  }

  ghost predicate NodeMoves(env: Env, w: World, w': World, n: nat)
    requires n < |w| == |w'|
  {
    ChainStep(env, w[n], w'[n]) && w' == w[n := w'[n]]
  }

  ghost predicate IsRun(env: Env, run: seq<World>) {
    && |run| > 0
    && AllOk(env, run[0])
    && forall i :: 0 <= i < |run| - 1 ==> WorldStep(env, run[i], run[i + 1])
  }

  predicate AllOk(env: Env, w: World) {
    forall n :: 0 <= n < |w| ==> ChainOk(env, w[n])
  }

  predicate AllGrew(w: World, w': World) {
    |w| == |w'| && forall n :: 0 <= n < |w| ==> w[n] <= w'[n]
  }

  lemma WorldStepAppends(env: Env, w: World, w': World)
    requires AllOk(env, w) && WorldStep(env, w, w')
    ensures AllOk(env, w') && AllGrew(w, w')
  {
    var n :| 0 <= n < |w| && NodeMoves(env, w, w', n);
    StepKeepsChainOk(env, w[n], w'[n]);
  }

  lemma {:induction false} RunsStayOk(env: Env, run: seq<World>, i: nat)
    requires IsRun(env, run) && i < |run|
    ensures AllOk(env, run[i])
  {
    if i > 0 {
      RunsStayOk(env, run, i - 1);
      WorldStepAppends(env, run[i - 1], run[i]);
    }
  }

  /** Over any interleaving every chain stays valid and only grows by appending. */
  lemma {:induction false} RunsOnlyAppend(env: Env, run: seq<World>, i: nat, j: nat)
    requires IsRun(env, run) && i <= j < |run|
    ensures AllOk(env, run[j]) && AllGrew(run[i], run[j])
    decreases j
  {
    RunsStayOk(env, run, j);
    if i < j {
      RunsOnlyAppend(env, run, i, j - 1);
      WorldStepAppends(env, run[j - 1], run[j]);
    }
  }

  /** ---------- ValidateChain ---------- */

  predicate LinkOk(env: Env, prev: BlockV, b: BlockV) {
    && MeetsTarget(env, b.header)
    && b.header.prevBlockHash == prev.hash
    && Root(env, Ids(b.txs)) == b.header.merkleRoot
  }

  /** ValidateChain looks at every block but the genesis. */
  predicate ChainValid(env: Env, chain: Chain) {
    forall i :: 1 <= i < |chain| ==> LinkOk(env, chain[i - 1], chain[i])
  }

  /** What ValidateChain refuses: a block behind the genesis that misses its target, does not name the hash of the block
      before, or does not carry the Merkle root of its transaction IDs. */
  predicate Broken(env: Env, chain: Chain, i: nat)
    requires 1 <= i < |chain|
  {
    || BigEndian(env.doubleHash(Serialized(chain[i].header))) >= Target(chain[i].header.difficultyTarget)
    || chain[i].header.prevBlockHash != chain[i - 1].hash
    || chain[i].header.merkleRoot !=
         (if chain[i].txs == [] then ZeroBytes(32) else TopDown(env, Ids(chain[i].txs), Height(|chain[i].txs|)))
  }

  lemma ChainRefused(env: Env, chain: Chain)
    ensures !ChainValid(env, chain) <==> exists i :: 1 <= i < |chain| && Broken(env, chain, i)
  {
    forall i: nat | 1 <= i < |chain| ensures Broken(env, chain, i) <==> !LinkOk(env, chain[i - 1], chain[i]) {
      if chain[i].txs != [] {
        TopDownIsRoot(env, Ids(chain[i].txs));
      }
    }
    if !ChainValid(env, chain) {
      var i :| 1 <= i < |chain| && !LinkOk(env, chain[i - 1], chain[i]);
      assert Broken(env, chain, i);
    }
  }

  /** Changing the hash of a block makes a chain that passed fail, unless it is the last block, whose hash is not looked at. */
  lemma TamperedHash(env: Env, chain: Chain, i: nat, hash: Bytes)
    requires ChainValid(env, chain) && i < |chain| && hash != chain[i].hash
    ensures ChainValid(env, chain[i := chain[i].(hash := hash)]) <==> i == |chain| - 1
  {
    var chain' := chain[i := chain[i].(hash := hash)];
    if i < |chain| - 1 {
      assert chain[i + 1].header.prevBlockHash == chain[i].hash by { assert LinkOk(env, chain[i], chain[i + 1]); }
      assert Broken(env, chain', i + 1);
      ChainRefused(env, chain');
    } else {
      forall k | 1 <= k < |chain'| ensures LinkOk(env, chain'[k - 1], chain'[k]) {
        assert LinkOk(env, chain[k - 1], chain[k]);
      }
    }
  }

  /** Changing the IDs of a block behind the genesis, at equal length and without a collision, makes it fail. */
  lemma TamperedIds(env: Env, chain: Chain, i: nat, txs: seq<TxV>)
    requires ChainValid(env, chain) && 1 <= i < |chain| && |txs| == |chain[i].txs| > 0
    requires AllHashes(Ids(chain[i].txs)) && AllHashes(Ids(txs)) && Ids(txs) != Ids(chain[i].txs)
    requires NoCollision(env, Ids(chain[i].txs), Ids(txs), Height(|txs|))
    ensures !ChainValid(env, chain[i := chain[i].(txs := txs)])
  {
    var chain' := chain[i := chain[i].(txs := txs)];
    assert LinkOk(env, chain[i - 1], chain[i]);
    if Root(env, Ids(txs)) == Root(env, Ids(chain[i].txs)) {
      RootBinds(env, Ids(chain[i].txs), Ids(txs));
    }
    assert !LinkOk(env, chain'[i - 1], chain'[i]);
  }

  /** Changing the previous hash of a block behind the genesis makes it fail. */
  lemma TamperedLink(env: Env, chain: Chain, i: nat, prev: Bytes)
    requires ChainValid(env, chain) && 1 <= i < |chain| && prev != chain[i].header.prevBlockHash
    ensures !ChainValid(env, chain[i := chain[i].(header := chain[i].header.(prevBlockHash := prev))])
  {
    var chain' := chain[i := chain[i].(header := chain[i].header.(prevBlockHash := prev))];
    assert LinkOk(env, chain[i - 1], chain[i]);
    assert !LinkOk(env, chain'[i - 1], chain'[i]);
  }

  lemma ReachableChainsValidate(env: Env, run: seq<World>, i: nat, n: nat)
    requires IsRun(env, run) && i < |run| && n < |run[i]|
    ensures ChainValid(env, run[i][n])
    ensures forall k :: 1 <= k < |run[i][n]| ==> CoinbaseFirst(run[i][n][k].txs)
  {
    RunsStayOk(env, run, i);
    forall k | 1 <= k < |run[i][n]| ensures CoinbaseFirst(run[i][n][k].txs) {
      assert Follows(env, run[i][n][k - 1], run[i][n][k]);
    }
  }

  /** ---------- The tip commits to the history ---------- */

  /** Block `a` and block `b` are a collision of the header hash. */
  predicate HeadersCollide(env: Env, a: BlockV, b: BlockV) {
    Collide(env, Serialized(a.header), Serialized(b.header))
  }

  predicate NoHeaderCollision(env: Env, a: Chain, b: Chain) {
    forall i, j :: 0 <= i < |a| && 0 <= j < |b| ==> !HeadersCollide(env, a[i], b[j])
  }

  /** No block of the chain hashes to the all-zero string that marks a genesis. */
  predicate NoZeroHash(chain: Chain) {
    forall i :: 0 <= i < |chain| ==> chain[i].hash != ZeroBytes(32)
  }

  predicate SameHistory(a: Chain, b: Chain) {
    |a| == |b| && forall i :: 0 <= i < |a| ==> SameFields(a[i].header, b[i].header) && a[i].hash == b[i].hash
  }

  predicate PrevIsHash(b: BlockV) {
    |b.header.prevBlockHash| == 32
  }

  lemma EqualHashesSameFields(env: Env, a: BlockV, b: BlockV)
    requires SelfConsistent(env, a) && SelfConsistent(env, b) && PrevIsHash(a) && PrevIsHash(b)
    requires a.hash == b.hash && !HeadersCollide(env, a, b)
    ensures SameFields(a.header, b.header)
  {
    SerializedInjective(a.header, b.header);
  }

  lemma BlockShape(env: Env, chain: Chain, i: nat)
    requires ChainOk(env, chain) && i < |chain|
    ensures SelfConsistent(env, chain[i]) && PrevIsHash(chain[i])
    ensures i > 0 ==> chain[i].header.prevBlockHash == chain[i - 1].hash
    ensures i == 0 ==> chain[i].header.prevBlockHash == ZeroBytes(32)
  {
    if i > 0 {
      assert Follows(env, chain[i - 1], chain[i]);
      if i > 1 {
        assert Follows(env, chain[i - 2], chain[i - 1]);
      }
    }
  }

  /** Equal tip hashes: equally long chains with the same headers throughout. */
  lemma {:induction false} TipCommits(env: Env, a: Chain, b: Chain)
    requires ChainOk(env, a) && ChainOk(env, b)
    requires NoHeaderCollision(env, a, b) && NoZeroHash(a) && NoZeroHash(b)
    requires a[|a| - 1].hash == b[|b| - 1].hash
    ensures SameHistory(a, b)
    decreases |a|
  {
    var m, n := |a| - 1, |b| - 1;
    TipStep(env, a, b);
    if m > 0 {
      PrefixOk(env, a, m);
      PrefixOk(env, b, n);
      PrefixesDoNotCollide(env, a, b, m, n);
      TipCommits(env, a[..m], b[..n]);
      HistoryExtends(a, b);
    }
  }

  lemma PrefixOk(env: Env, chain: Chain, m: nat)
    requires ChainOk(env, chain) && NoZeroHash(chain) && 0 < m <= |chain|
    ensures ChainOk(env, chain[..m]) && NoZeroHash(chain[..m])
  {
  }

  lemma PrefixesDoNotCollide(env: Env, a: Chain, b: Chain, m: nat, n: nat)
    requires NoHeaderCollision(env, a, b) && m <= |a| && n <= |b|
    ensures NoHeaderCollision(env, a[..m], b[..n])
  {
  }

  lemma HistoryExtends(a: Chain, b: Chain)
    requires |a| > 0 && |b| > 0 && SameHistory(a[..|a| - 1], b[..|b| - 1])
    requires SameFields(a[|a| - 1].header, b[|b| - 1].header) && a[|a| - 1].hash == b[|b| - 1].hash
    ensures SameHistory(a, b)
  {
    forall i | 0 <= i < |a| - 1 ensures SameFields(a[i].header, b[i].header) && a[i].hash == b[i].hash {
      assert a[..|a| - 1][i] == a[i] && b[..|b| - 1][i] == b[i];
    }
  }

  /** One step back from equal tips: both chains end here, or both have a predecessor of equal hash. */
  lemma TipStep(env: Env, a: Chain, b: Chain)
    requires ChainOk(env, a) && ChainOk(env, b)
    requires NoHeaderCollision(env, a, b) && NoZeroHash(a) && NoZeroHash(b)
    requires a[|a| - 1].hash == b[|b| - 1].hash
    ensures SameFields(a[|a| - 1].header, b[|b| - 1].header)
    ensures |a| == 1 <==> |b| == 1
    ensures |a| > 1 ==> a[|a| - 2].hash == b[|b| - 2].hash
  {
    BlockShape(env, a, |a| - 1);
    BlockShape(env, b, |b| - 1);
    EqualHashesSameFields(env, a[|a| - 1], b[|b| - 1]);
  }

  /** In every state of every run, two nodes with equal tip hashes have the same history. */
  lemma EqualTipsInRun(env: Env, run: seq<World>, i: nat, p: nat, q: nat)
    requires IsRun(env, run) && i < |run| && p < |run[i]| && q < |run[i]|
    requires NoHeaderCollision(env, run[i][p], run[i][q]) && NoZeroHash(run[i][p]) && NoZeroHash(run[i][q])
    requires TipHash(run[i][p]) == TipHash(run[i][q])
    ensures SameHistory(run[i][p], run[i][q])
  {
    RunsStayOk(env, run, i);
    TipCommits(env, run[i][p], run[i][q]);
  }

  /** ... and with transaction lists equal up to Merkle padding, where the trees are equally high. */
  lemma TipCommitsToTransactions(env: Env, a: Chain, b: Chain, i: nat)
    requires ChainOk(env, a) && ChainOk(env, b)
    requires NoHeaderCollision(env, a, b) && NoZeroHash(a) && NoZeroHash(b)
    requires a[|a| - 1].hash == b[|b| - 1].hash
    requires i < |a| && i < |b|
    requires AllHashes(Ids(a[i].txs)) && AllHashes(Ids(b[i].txs))
    requires |a[i].txs| > 0 && |b[i].txs| > 0 && Height(|a[i].txs|) == Height(|b[i].txs|)
    requires NoCollision(env, Ids(a[i].txs), Ids(b[i].txs), Height(|a[i].txs|))
    ensures Padded(Ids(a[i].txs), Height(|a[i].txs|)) == Padded(Ids(b[i].txs), Height(|b[i].txs|))
    ensures |a[i].txs| == |b[i].txs| ==> Ids(a[i].txs) == Ids(b[i].txs)
  {
    TipCommits(env, a, b);
    BlockShape(env, a, i);
    BlockShape(env, b, i);
    RootBinds(env, Ids(a[i].txs), Ids(b[i].txs));
  }

  /** A hash that occurs in both chains occurs at the same height. */
  lemma EqualHashesLineUp(env: Env, a: Chain, b: Chain, i: nat, j: nat)
    requires ChainOk(env, a) && ChainOk(env, b)
    requires NoHeaderCollision(env, a, b) && NoZeroHash(a) && NoZeroHash(b)
    requires i < |a| && j < |b| && a[i].hash == b[j].hash
    ensures i == j
  {
    PrefixOk(env, a, i + 1);
    PrefixOk(env, b, j + 1);
    PrefixesDoNotCollide(env, a, b, i + 1, j + 1);
    FrontTip(a, i);
    FrontTip(b, j);
    TipsLineUp(env, a[..i + 1], b[..j + 1]);
  }

  lemma FrontTip(chain: Chain, i: nat)
    requires i < |chain|
    ensures |chain[..i + 1]| == i + 1 && TipHash(chain[..i + 1]) == chain[i].hash
  {
  }

  lemma TipsLineUp(env: Env, a: Chain, b: Chain)
    requires ChainOk(env, a) && ChainOk(env, b)
    requires NoHeaderCollision(env, a, b) && NoZeroHash(a) && NoZeroHash(b)
    requires TipHash(a) == TipHash(b)
    ensures |a| == |b|
  {
    TipCommits(env, a, b);
  }

  /** No hash occurs twice in a chain. */
  lemma HashesDistinct(env: Env, chain: Chain, i: nat, j: nat)
    requires ChainOk(env, chain) && NoHeaderCollision(env, chain, chain) && NoZeroHash(chain)
    requires i < |chain| && j < |chain| && chain[i].hash == chain[j].hash
    ensures i == j
  {
    EqualHashesLineUp(env, chain, chain, i, j);
  }
}
