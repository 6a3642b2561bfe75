/** One node's state and its two operations, on plain values: CreateTransaction and AddBlock. */
module Nodes {
  import opened Prelude
  import opened ByteStrings
  import opened Crypto
  import opened Header
  import opened ProofOfWork
  import opened Merkle
  import opened Transactions
  import opened Ledgers
  import opened CoinSelection
  import opened Spending
  import opened Chains
  import opened Difficulty

  datatype Node = Node(chain: Chain, bits: uint32, ledger: Ledger)

  const REWARD: int := 50_0000_0000

  function GenesisData(): Bytes {
    Ascii("Genesis Block - Bitcoin-like Cryptocurrency")
  }

  /** "Block %d reward", with the height of the chain before the block. */
  function BlockData(height: nat): Bytes {
    Ascii("Block ") + Decimal(height) + Ascii(" reward")
  }

  lemma BlockDataInjective(m: nat, n: nat)
    ensures BlockData(m) == BlockData(n) ==> m == n
    ensures BlockData(m) != GenesisData()
  {
    var x, y, g := BlockData(m), BlockData(n), GenesisData();
    var lit := "Genesis Block - Bitcoin-like Cryptocurrency";
    assert |lit| == 43 && lit[0] == 'G' && g == Ascii(lit);
    assert x[0] == Ascii("Block ")[0] == 'B' as int;
    if x == y {
      assert |Decimal(m)| == |x| - 13 && |Decimal(n)| == |y| - 13;
      assert x[6..|x| - 7] == Decimal(m) && y[6..|y| - 7] == Decimal(n);
      DecimalInjective(m, n);
    }
  }

  /** ---------- CreateTransaction ---------- */

  /** The choices the run makes: map traversal orders, and where the signer's random tape stands. */
  datatype Choice = Choice(entries: seq<Bytes>, picked: seq<Bytes>, tape: nat)

  /** The traversal orders are orders of the maps traversed. */
  ghost predicate ChoiceFits(env: Env, l: Ledger, from: Bytes, amount: int, c: Choice) {
    && Enumerates(c.entries, l.live)
    && (env.decodeAddress(from).Some? ==>
          Enumerates(c.picked, Group(Select(l.live, c.entries, env.decodeAddress(from).value, amount).picks)))
  }

  function NewOutputs(to: Bytes, from: Bytes, amount: int, accumulated: int): seq<TxOutput> {
    [TxOutput(amount, to)] + if accumulated > amount then [TxOutput(Wrap64(accumulated - amount), from)] else []
  }

  function Unsubmitted(env: Env, w: Wallet, recorded: Prev, inputs: seq<TxInput>, outputs: seq<TxOutput>, tape: nat): Outcome<TxV> {
    match Signed(env, w, inputs, outputs, recorded, tape)
    case Ok(signed) => Ok(TxV(env.txHash(TxBody(inputs, outputs)), signed, outputs))
    case Err => Err
    case Panic => Panic
  }

  ghost function Created(env: Env, l: Ledger, from: Bytes, to: Bytes, amount: int, w: Wallet, c: Choice): Outcome<TxV>
    requires ChoiceFits(env, l, from, amount, c)
  {
    if env.decodeAddress(from).None? then Err
    else
      var sel := Select(l.live, c.entries, env.decodeAddress(from).value, amount);
      if sel.accumulated < amount || env.decodeAddress(to).None? then Err
      else
        Unsubmitted(env, w, l.recorded,
          InputsFor(c.picked, Group(sel.picks), w.publicKey),
          NewOutputs(env.decodeAddress(to).value, env.decodeAddress(from).value, amount, sel.accumulated),
          c.tape)
  }

  /** ---------- AddBlock ---------- */

  datatype AddResult = Added(block: BlockV) | Failed | Panicked

  /** Verify the transactions in order, up to the first that is not accepted. */
  function VerifyTxs(env: Env, recorded: Prev, txs: seq<TxV>): Outcome<bool> {
    if txs == [] then Ok(true)
    else
      match Verified(env, txs[0].inputs, txs[0].outputs, recorded)
      case Ok(true) => VerifyTxs(env, recorded, txs[1..])
      case other => other
  }

  function Template(env: Env, n: Node, txs: seq<TxV>, now: int): BlockHeader
    requires |n.chain| > 0
  {
    BlockHeader(1, n.chain[|n.chain| - 1].hash, Root(env, Ids(txs)), now, Adjusted(n.bits, Times(n.chain)), 0)
  }

  /** The part of AddBlock after verification. The difficulty moves first, whatever happens next. */
  function Extended(env: Env, n: Node, txs: seq<TxV>, now: int, later: int): (Node, AddResult)
    requires |n.chain| > 0
  {
    var n' := n.(bits := Adjusted(n.bits, Times(n.chain)));
    var b := MinedBlock(env, Template(env, n, txs, now), txs);
    if BlockFault(env, n.chain, b, later) != None then (n', Failed)
    else
      var (l', ok) := UpdateAll(n.ledger, txs);
      if !ok then (n'.(ledger := l'), Failed)
      else (Node(n.chain + [b], n'.bits, l'), Added(b))
  }

  /** `now` is the clock when the header is built, `later` the clock when the block is validated. */
  function AddBlock(env: Env, n: Node, txs: seq<TxV>, miner: Bytes, now: int, later: int): (Node, AddResult)
    requires |n.chain| > 0
  {
    if env.decodeAddress(miner).None? then (n, Failed)
    else
      match VerifyTxs(env, n.ledger.recorded, txs)
      case Panic => (n, Panicked)
      case Ok(true) =>
        var coinbase := CoinbaseTx(env, env.decodeAddress(miner).value, BlockData(|n.chain|), REWARD);
        Extended(env, n, [coinbase] + txs, now, later)
      case _ => (n, Failed)
  }

  /** The transactions of the block AddBlock mines: a coinbase for the miner, then those submitted. */
  function AllOf(env: Env, n: Node, miner: Bytes, txs: seq<TxV>): seq<TxV>
    requires env.decodeAddress(miner).Some?
  {
    [CoinbaseTx(env, env.decodeAddress(miner).value, BlockData(|n.chain|), REWARD)] + txs
  }

  function Proposed(env: Env, n: Node, miner: Bytes, txs: seq<TxV>, now: int): BlockV
    requires |n.chain| > 0 && env.decodeAddress(miner).Some?
  {
    MinedBlock(env, Template(env, n, AllOf(env, n, miner, txs), now), AllOf(env, n, miner, txs))
  }

  /** The miner's address decodes and every transaction is accepted, so a block is mined. */
  predicate Attempted(env: Env, n: Node, miner: Bytes, txs: seq<TxV>) {
    env.decodeAddress(miner).Some? && VerifyTxs(env, n.ledger.recorded, txs) == Ok(true)
  }

  lemma NotAttempted(env: Env, n: Node, miner: Bytes, txs: seq<TxV>, now: int, later: int)
    requires |n.chain| > 0 && !Attempted(env, n, miner, txs)
    ensures AddBlock(env, n, txs, miner, now, later) ==
      (n, if env.decodeAddress(miner).Some? && VerifyTxs(env, n.ledger.recorded, txs).Panic? then Panicked else Failed)
  {
  }

  lemma AttemptIsMade(env: Env, n: Node, miner: Bytes, txs: seq<TxV>, now: int, later: int)
    requires |n.chain| > 0 && Attempted(env, n, miner, txs)
    ensures AddBlock(env, n, txs, miner, now, later) == Extended(env, n, AllOf(env, n, miner, txs), now, later)
  {
  }

  /** ---------- What is verified before mining ---------- */

  /** Exactly when all transactions are accepted. */
  lemma {:induction false} VerifyTxsMeans(env: Env, recorded: Prev, txs: seq<TxV>)
    ensures VerifyTxs(env, recorded, txs) == Ok(true) <==>
      forall j :: 0 <= j < |txs| ==> Verified(env, txs[j].inputs, txs[j].outputs, recorded) == Ok(true)
    decreases |txs|
  {
    if txs != [] {
      VerifyTxsMeans(env, recorded, txs[1..]);
      if forall j :: 0 <= j < |txs[1..]| ==> Verified(env, txs[1..][j].inputs, txs[1..][j].outputs, recorded) == Ok(true) {
        forall j | 1 <= j < |txs| ensures Verified(env, txs[j].inputs, txs[j].outputs, recorded) == Ok(true) {
          assert txs[1..][j - 1] == txs[j];
        }
      }
    }
  }

  /** Otherwise the first that is not accepted decides. */
  lemma {:induction false} VerifyTxsStops(env: Env, recorded: Prev, txs: seq<TxV>, j: nat)
    requires j < |txs| && Verified(env, txs[j].inputs, txs[j].outputs, recorded) != Ok(true)
    requires forall i :: 0 <= i < j ==> Verified(env, txs[i].inputs, txs[i].outputs, recorded) == Ok(true)
    ensures VerifyTxs(env, recorded, txs) == Verified(env, txs[j].inputs, txs[j].outputs, recorded)
    decreases j
  {
    if j > 0 {
      assert txs[1..][j - 1] == txs[j];
      VerifyTxsStops(env, recorded, txs[1..], j - 1);
    }
  }

  /** The transaction mints, or ECDSA accepts each of its inputs against the outputs recorded. */
  predicate Authorised(env: Env, recorded: Prev, t: TxV) {
    Mints(t.inputs) || forall k :: 0 <= k < |t.inputs| ==> Accepts(env, t.inputs, t.outputs, recorded, k)
  }

  /** A block is mined exactly when the miner's address decodes and every transaction is authorised. */
  lemma AttemptedMeans(env: Env, n: Node, miner: Bytes, txs: seq<TxV>)
    ensures Attempted(env, n, miner, txs) <==>
      env.decodeAddress(miner).Some? && forall j :: 0 <= j < |txs| ==> Authorised(env, n.ledger.recorded, txs[j])
  {
    VerifyTxsMeans(env, n.ledger.recorded, txs);
    forall j: nat | j < |txs|
      ensures Verified(env, txs[j].inputs, txs[j].outputs, n.ledger.recorded) == Ok(true) <==> Authorised(env, n.ledger.recorded, txs[j])
    {
      VerifiedMeans(env, txs[j].inputs, txs[j].outputs, n.ledger.recorded);
    }
  }

  /** So every transaction of a block that is added was. */
  lemma AddedIsAuthorised(env: Env, n: Node, txs: seq<TxV>, miner: Bytes, now: int, later: int)
    requires |n.chain| > 0 && AddBlock(env, n, txs, miner, now, later).1.Added?
    ensures env.decodeAddress(miner).Some? && forall j :: 0 <= j < |txs| ==> Authorised(env, n.ledger.recorded, txs[j])
  {
    AttemptedMeans(env, n, miner, txs);
    if !Attempted(env, n, miner, txs) {
      NotAttempted(env, n, miner, txs, now, later);
    }
  }

  /** An input whose key ECDSA accepts no signature for keeps its transaction out of every block. */
  lemma ForgedIsNeverAdded(env: Env, n: Node, txs: seq<TxV>, miner: Bytes, now: int, later: int, j: nat, k: nat)
    requires |n.chain| > 0 && j < |txs| && k < |txs[j].inputs| && !Mints(txs[j].inputs)
    requires forall digest, r, s :: !env.ecdsaVerify(txs[j].inputs[k].pubKey, digest, r, s)
    ensures !AddBlock(env, n, txs, miner, now, later).1.Added? && AddBlock(env, n, txs, miner, now, later).0 == n
  {
    AttemptedMeans(env, n, miner, txs);
    assert !Accepts(env, txs[j].inputs, txs[j].outputs, n.ledger.recorded, k);
    assert !Authorised(env, n.ledger.recorded, txs[j]);
    NotAttempted(env, n, miner, txs, now, later);
  }

  /** AddBlock panics exactly when the miner's address decodes and the first transaction that is not authorised makes
      verification panic. */
  lemma AddBlockPanics(env: Env, n: Node, txs: seq<TxV>, miner: Bytes, now: int, later: int)
    requires |n.chain| > 0
    ensures AddBlock(env, n, txs, miner, now, later).1.Panicked? <==>
      env.decodeAddress(miner).Some? && exists j :: 0 <= j < |txs| && PanicsAt(env, n.ledger.recorded, txs, j)
  {
    VerifyTxsPanics(env, n.ledger.recorded, txs);
    if Attempted(env, n, miner, txs) {
      AttemptIsMade(env, n, miner, txs, now, later);
    } else {
      NotAttempted(env, n, miner, txs, now, later);
    }
  }

  lemma VerifyTxsPanics(env: Env, recorded: Prev, txs: seq<TxV>)
    ensures VerifyTxs(env, recorded, txs).Panic? <==> exists j :: 0 <= j < |txs| && PanicsAt(env, recorded, txs, j)
  {
    if j :| 0 <= j < |txs| && PanicsAt(env, recorded, txs, j) {
      StopDecides(env, recorded, txs, j);
    } else if exists i :: 0 <= i < |txs| && !Authorised(env, recorded, txs[i]) {
      var j := FirstRefused(env, recorded, txs);
      StopDecides(env, recorded, txs, j);
      assert PanicsAt(env, recorded, txs, j) <==> Verified(env, txs[j].inputs, txs[j].outputs, recorded).Panic?;
    } else {
      AllAuthorised(env, recorded, txs);
    }
  }

  lemma AllAuthorised(env: Env, recorded: Prev, txs: seq<TxV>)
    requires forall i :: 0 <= i < |txs| ==> Authorised(env, recorded, txs[i])
    ensures VerifyTxs(env, recorded, txs) == Ok(true)
  {
    VerifyTxsMeans(env, recorded, txs);
    forall i: nat | i < |txs| ensures Verified(env, txs[i].inputs, txs[i].outputs, recorded) == Ok(true) {
      VerifiedMeans(env, txs[i].inputs, txs[i].outputs, recorded);
    }
  }

  predicate PanicsAt(env: Env, recorded: Prev, txs: seq<TxV>, j: nat)
    requires j < |txs|
  {
    StopsAt(env, recorded, txs, j) && Verified(env, txs[j].inputs, txs[j].outputs, recorded).Panic?
  }

  /** Transaction j is the first that is not authorised. */
  predicate StopsAt(env: Env, recorded: Prev, txs: seq<TxV>, j: nat)
    requires j < |txs|
  {
    !Authorised(env, recorded, txs[j]) && forall i :: 0 <= i < j ==> Authorised(env, recorded, txs[i])
  }

  lemma {:induction false} FirstRefused(env: Env, recorded: Prev, txs: seq<TxV>) returns (j: nat)
    requires exists i :: 0 <= i < |txs| && !Authorised(env, recorded, txs[i])
    ensures j < |txs| && StopsAt(env, recorded, txs, j)
  {
    j := 0;
    while Authorised(env, recorded, txs[j])
      invariant j < |txs| && forall i :: 0 <= i < j ==> Authorised(env, recorded, txs[i])
      decreases |txs| - j
    {
      j := j + 1;
    }
  }

  lemma StopDecides(env: Env, recorded: Prev, txs: seq<TxV>, j: nat)
    requires j < |txs| && StopsAt(env, recorded, txs, j)
    ensures VerifyTxs(env, recorded, txs) == Verified(env, txs[j].inputs, txs[j].outputs, recorded) != Ok(true)
  {
    forall i: nat | i <= j
      ensures Verified(env, txs[i].inputs, txs[i].outputs, recorded) == Ok(true) <==> Authorised(env, recorded, txs[i])
    {
      VerifiedMeans(env, txs[i].inputs, txs[i].outputs, recorded);
    }
    VerifyTxsStops(env, recorded, txs, j);
  }

  /** ---------- What a block that is added looks like ---------- */

  /** Header, transactions and proof of work of an added block, field by field. */
  lemma AddedBlockIs(env: Env, n: Node, txs: seq<TxV>, miner: Bytes, now: int, later: int)
    requires |n.chain| > 0 && AddBlock(env, n, txs, miner, now, later).1.Added?
    ensures var (n', r) := AddBlock(env, n, txs, miner, now, later);
      var h := r.block.header;
      n'.chain == n.chain + [r.block] && h.version == 1 && h.prevBlockHash == n.chain[|n.chain| - 1].hash &&
      h.timestamp == now <= later + 7_200_000_000_000 && h.difficultyTarget == n'.bits == Adjusted(n.bits, Times(n.chain)) &&
      h.merkleRoot == TopDown(env, Ids(r.block.txs), Height(|r.block.txs|)) &&
      r.block.hash == env.doubleHash(Serialized(h)) && MeetsTarget(env, h) &&
      forall k: uint32 :: k < h.nonce ==> !MeetsTarget(env, h.(nonce := k))
    ensures var b := AddBlock(env, n, txs, miner, now, later).1.block;
      env.decodeAddress(miner).Some? && |b.txs| > 0 && b.txs[1..] == txs &&
      b.txs[0].inputs == [TxInput(None, -1, [], Ascii("Block ") + Decimal(|n.chain|) + Ascii(" reward"))] &&
      b.txs[0].outputs == [TxOutput(5_000_000_000, env.decodeAddress(miner).value)] &&
      b.txs[0].id == env.txHash(TxBody(b.txs[0].inputs, b.txs[0].outputs))
  {
    AddedIsAuthorised(env, n, txs, miner, now, later);
    AttemptedMeans(env, n, miner, txs);
    AttemptIsMade(env, n, miner, txs, now, later);
    var all := AllOf(env, n, miner, txs);
    var b := AddBlock(env, n, txs, miner, now, later).1.block;
    assert all[1..] == txs;
    TopDownIsRoot(env, Ids(all));
    MinedBlockSucceeded(env, n, all, now, later);
    MinedIsLeast(env, Template(env, n, all, now));
    ValidationMeans(env, n.chain, b, later);
  }

  lemma MinedIsLeast(env: Env, h: BlockHeader)
    requires Mined(env, h).0 < MAX_NONCE
    ensures forall k: uint32 :: k < Mined(env, h).0 ==> !MeetsTarget(env, h.(nonce := k))
  {
    MineFromLeast(env, h, 0);
  }

  /** And of the genesis block, which is mined but not checked. */
  lemma GenesisIs(env: Env, owner: Bytes, now: int, data: Bytes) returns (b: BlockV, t: TxV)
    requires data == Ascii("Genesis Block - Bitcoin-like Cryptocurrency")
    ensures GenesisNode(env, owner, now) == Node([b], 16, Ledger(map[t.id := t.outputs], map[t.id := t.outputs])) && b.txs == [t]
    ensures b.header.version == 1 && b.header.prevBlockHash == ZeroBytes(32) && b.header.merkleRoot == t.id
    ensures b.header.timestamp == now && b.header.difficultyTarget == 16
    ensures t.inputs == [TxInput(None, -1, [], data)]
    ensures t.outputs == [TxOutput(5_000_000_000, owner)] && t.id == env.txHash(TxBody(t.inputs, t.outputs))
  {
    b := GenesisNode(env, owner, now).chain[0];
    t := b.txs[0];
  }

  /** All transactions of a chain, in order. */
  function AllTxs(chain: Chain): seq<TxV> {
    if chain == [] then [] else AllTxs(chain[..|chain| - 1]) + chain[|chain| - 1].txs
  }

  lemma AllTxsAppend(chain: Chain, b: BlockV)
    ensures AllTxs(chain + [b]) == AllTxs(chain) + b.txs
  {
    assert (chain + [b])[..|chain|] == chain;
  }

  function GenesisNode(env: Env, owner: Bytes, now: int): Node {
    var t := CoinbaseTx(env, owner, GenesisData(), REWARD);
    var h := BlockHeader(1, ZeroBytes(32), Root(env, [t.id]), now, DEFAULT_TARGET_BITS, 0);
    Node([MinedBlock(env, h, [t])], DEFAULT_TARGET_BITS, Add(EMPTY, t.id, t.outputs))
  }

  /** None of the IDs is recorded yet, and no two are equal. */
  ghost predicate FreshTxs(recorded: set<Bytes>, txs: seq<TxV>) {
    && (forall j :: 0 <= j < |txs| ==> txs[j].id !in recorded)
    && (forall i, j :: 0 <= i < j < |txs| ==> txs[i].id != txs[j].id)
  }

  /** Every block AddBlock appends passes validation and comes from a search that succeeded;
      an exhausted search fails, and no collision assumption is needed for that. */
  lemma AddBlockIsStep(env: Env, n: Node, txs: seq<TxV>, miner: Bytes, now: int, later: int)
    requires |n.chain| > 0
    ensures var (n', r) := AddBlock(env, n, txs, miner, now, later);
      ChainStep(env, n.chain, n'.chain) &&
      (r.Added? <==> n'.chain != n.chain) &&
      (r.Added? ==> n'.chain == n.chain + [r.block] && BlockFault(env, n.chain, r.block, later) == None) &&
      (r.Added? ==> r.block.header.nonce < MAX_NONCE)
  {
    var (n', r) := AddBlock(env, n, txs, miner, now, later);
    if r.Added? {
      MinedBlockSucceeded(env, n, r.block.txs, now, later);
    }
  }

  lemma MinedBlockSucceeded(env: Env, n: Node, txs: seq<TxV>, now: int, later: int)
    requires |n.chain| > 0
    requires BlockFault(env, n.chain, MinedBlock(env, Template(env, n, txs, now), txs), later) == None
    ensures !Exhausted(env, Template(env, n, txs, now))
    ensures MinedBlock(env, Template(env, n, txs, now), txs).header.nonce < MAX_NONCE
  {
    var h := Template(env, n, txs, now);
    if Exhausted(env, h) {
      ExhaustedBlockRejected(env, h);
    }
    MinedIffNotExhausted(env, h);
  }

  /** ---------- A block's own outputs ---------- */

  lemma {:induction false} VerifiedAreKnown(env: Env, recorded: Prev, txs: seq<TxV>, j: nat)
    requires VerifyTxs(env, recorded, txs) == Ok(true) && j < |txs|
    ensures IsCoinbase(txs[j].inputs) || AllKnown(txs[j].inputs, recorded)
    decreases |txs|
  {
    if j > 0 {
      VerifiedAreKnown(env, recorded, txs[1..], j - 1);
    }
  }

  lemma {:induction false} RemoveInputsTouches(l: Ledger, inputs: seq<TxInput>, id: Bytes)
    requires id in l.recorded && !NamesTx(inputs, id)
    ensures var l' := RemoveInputs(l, inputs).0;
      id in l'.recorded && l'.recorded[id] == l.recorded[id]
    decreases |inputs|
  {
    if inputs != [] && Spendable(l, Key(inputs[0].txid), inputs[0].outIndex) {
      RemoveInputsTouches(Remove(l, Key(inputs[0].txid), inputs[0].outIndex), inputs[1..], id);
    }
  }

  /** Transactions whose inputs name recorded transactions can not spend each other, so applying a block
      leaves the outputs of its own transactions as they are: what is saved on disk is the original block. */
  lemma {:induction false} NewOutputsStay(l: Ledger, txs: seq<TxV>, j: nat)
    requires FreshTxs(l.recorded.Keys, txs) && j < |txs|
    requires forall k :: 0 <= k < |txs| ==> IsCoinbase(txs[k].inputs) || AllKnown(txs[k].inputs, l.recorded)
    requires UpdateAll(l, txs).1
    ensures var recorded := UpdateAll(l, txs).0.recorded;
      txs[j].id in recorded && recorded[txs[j].id] == txs[j].outputs
    decreases |txs|
  {
    var last := |txs| - 1;
    if j < last {
      NewOutputsStay(l, txs[..last], j);
      if !IsCoinbase(txs[last].inputs) {
        forall k | 0 <= k < |txs[last].inputs| ensures Key(txs[last].inputs[k].txid) != txs[j].id {
          assert Key(txs[last].inputs[k].txid) in l.recorded.Keys;
        }
        RemoveInputsTouches(UpdateAll(l, txs[..last]).0, txs[last].inputs, txs[j].id);
      }
    }
  }

  predicate Intact(recorded: Prev, txs: seq<TxV>) {
    forall j :: 0 <= j < |txs| ==> txs[j].id in recorded && recorded[txs[j].id] == txs[j].outputs
  }

  /** The same for a block that AddBlock has added. */
  lemma AddedBlockIntact(env: Env, n: Node, txs: seq<TxV>, miner: Bytes, now: int, later: int)
    requires |n.chain| > 0 && AddBlock(env, n, txs, miner, now, later).1.Added?
    requires FreshTxs(n.ledger.recorded.Keys, AddBlock(env, n, txs, miner, now, later).1.block.txs)
    ensures Intact(AddBlock(env, n, txs, miner, now, later).0.ledger.recorded, AddBlock(env, n, txs, miner, now, later).1.block.txs)
  {
    var (n', r) := AddBlock(env, n, txs, miner, now, later);
    var all := r.block.txs;
    assert all[1..] == txs;
    forall k | 0 <= k < |all| ensures IsCoinbase(all[k].inputs) || AllKnown(all[k].inputs, n.ledger.recorded) {
      if k > 0 {
        VerifiedAreKnown(env, n.ledger.recorded, txs, k - 1);
        assert all[k] == txs[k - 1];
      }
    }
    forall j | 0 <= j < |all|
      ensures all[j].id in n'.ledger.recorded && n'.ledger.recorded[all[j].id] == all[j].outputs
    {
      NewOutputsStay(n.ledger, all, j);
    }
  }

  /** Conversely, a well-formed block from a search that succeeds passes validation. */
  lemma MinedBlockAccepted(env: Env, n: Node, txs: seq<TxV>, now: int, later: int)
    requires |n.chain| > 0 && CoinbaseFirst(txs) && now <= later + MAX_FUTURE
    ensures BlockFault(env, n.chain, MinedBlock(env, Template(env, n, txs, now), txs), later) == None
      <==> !Exhausted(env, Template(env, n, txs, now))
  {
    var h := Template(env, n, txs, now);
    if Exhausted(env, h) {
      ExhaustedBlockRejected(env, h);
    } else {
      MinedIffNotExhausted(env, h);
      ValidationMeans(env, n.chain, MinedBlock(env, h, txs), later);
    }
  }

  /** Adding blocks keeps the difficulty history right. */
  lemma AddBlockKeepsHistory(env: Env, n: Node, txs: seq<TxV>, miner: Bytes, now: int, later: int)
    requires HistoryOk(n.chain, n.bits)
    ensures var (n', r) := AddBlock(env, n, txs, miner, now, later);
      r.Added? ==> HistoryOk(n'.chain, n'.bits)
  {
    var (n', r) := AddBlock(env, n, txs, miner, now, later);
    if r.Added? {
      AppendKeepsHistory(n.chain, n.bits, r.block);
    }
  }
}
