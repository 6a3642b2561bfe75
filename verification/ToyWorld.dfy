/** A concrete world for examples: hashes that are small, and different for whatever occurs in the examples. */
module ToyWorld {
  import opened Prelude
  import opened ByteStrings
  import opened Crypto
  import opened Header
  import opened ProofOfWork
  import opened Merkle
  import opened Transactions
  import opened Ledgers
  import opened Chains
  import opened Nodes
  import opened HonestRuns

  /** ---------- Hashes ---------- */

  function Tag(a: byte, b: byte, c: byte): Hash {
    ZeroBytes(29) + [a, b, c]
  }

  lemma TagInjective(a: byte, b: byte, c: byte, a': byte, b': byte, c': byte)
    ensures Tag(a, b, c) == Tag(a', b', c') <==> a == a' && b == b' && c == c'
  {
    assert Tag(a, b, c)[29..] == [a, b, c] && Tag(a', b', c')[29..] == [a', b', c'];
    assert [a, b, c][0] == a && [a, b, c][1] == b && [a, b, c][2] == c;
    assert [a', b', c'][0] == a' && [a', b', c'][1] == b' && [a', b', c'][2] == c';
  }

  lemma {:induction false} BigEndianZeros(n: nat)
    ensures BigEndian(ZeroBytes(n)) == 0
  {
    if n > 0 {
      assert ZeroBytes(n)[..n - 1] == ZeroBytes(n - 1);
      BigEndianZeros(n - 1);
    }
  }

  lemma TagSmall(a: byte, b: byte, c: byte)
    ensures BigEndian(Tag(a, b, c)) < Pow(2, 24)
  {
    BigEndianZeros(29);
    BigEndianConcat(ZeroBytes(29), [a, b, c]);
    BigEndianBound([a, b, c]);
    PowTwoBytes(3);
  }

  lemma TagValid(a: byte, b: byte, c: byte, bits: uint32)
    requires bits <= 32
    ensures IsValidHash(Tag(a, b, c), bits)
  {
    TagSmall(a, b, c);
    BelowTarget(Tag(a, b, c), 24, bits);
  }

  lemma BelowTarget(hash: Bytes, m: nat, bits: uint32)
    requires BigEndian(hash) < Pow(2, m) && m + bits <= 256
    ensures IsValidHash(hash, bits)
  {
    PowMonotone(2, m, 256 - bits);
  }

  function Next(b: byte): byte {
    if b == 255 then 0 else b + 1
  }

  /** A coinbase is known by two bytes of its data, a payment by its number of inputs and by the first of them. */
  function BodyHash(b: TxBody): Hash {
    if b.inputs == [] then Tag(5, 0, 0)
    else
      var first := b.inputs[0];
      match first.txid
      case None => if |first.pubKey| > 7 then Tag(1, first.pubKey[6], first.pubKey[7]) else Tag(5, 0, 1)
      case Some(id) => Tag(2, |b.inputs| % 256, if id == [] then 0 else Next(id[|id| - 1]))
  }

  /** A header counts on from the hash of its predecessor. */
  function BytesHash(x: Bytes): Hash {
    if |x| == 84 then Tag(3, 0, Next(x[35])) else Tag(4, 0, 0)
  }

  function ToyEnv(): Env {
    Env(
      (x: Bytes) => BytesHash(x),
      (b: TxBody) => BodyHash(b),
      (x: Bytes) => x,
      (x: Bytes) => x,
      (x: Bytes) => x,
      (x: Bytes) => Some(x),
      (key: Bytes, digest: Bytes, r: nat, s: nat) => true)
  }

  const OWNER: Bytes := [1]
  const OTHER: Bytes := [2]

  /** A wallet whose signatures are 32 bytes long and split in the middle. */
  function Payer(): Wallet {
    Wallet(OWNER, (digest: Bytes, tape: nat) => (Pow(256, 15), Pow(256, 15)))
  }

  lemma WorldIsSound()
    ensures AddressesDecode(ToyEnv()) && SignerSound(ToyEnv(), Payer())
  {
  }

  lemma {:induction false} PowLength(k: nat)
    ensures |MinimalBytes(Pow(256, k))| == k + 1
  {
    if k > 0 {
      PowLength(k - 1);
      assert Pow(256, k) == 256 * Pow(256, k - 1);
      assert Pow(256, k) / 256 == Pow(256, k - 1);
    } else {
      assert MinimalBytes(1 / 256) == [];
    }
  }

  /** ---------- Mining ---------- */

  lemma EveryHashIsSmall(h: BlockHeader)
    requires h.difficultyTarget <= 32
    ensures MeetsTarget(ToyEnv(), h)
  {
    var x := Serialized(h);
    TagValid(4, 0, 0, h.difficultyTarget);
    if |x| == 84 {
      TagValid(3, 0, Next(x[35]), h.difficultyTarget);
    }
  }

  lemma NeverExhausted(h: BlockHeader)
    requires h.difficultyTarget <= 32
    ensures !Exhausted(ToyEnv(), h) && Mined(ToyEnv(), h) == (0, HashHeader(ToyEnv(), h.(nonce := 0)))
  {
    EveryHashIsSmall(h.(nonce := 0));
  }

  lemma HeaderHash(h: BlockHeader)
    requires |h.prevBlockHash| == 32 && |h.merkleRoot| == 32
    ensures HashHeader(ToyEnv(), h) == Tag(3, 0, Next(h.prevBlockHash[31]))
  {
    CutFields(h);
    var x := Serialized(h);
    assert |x| == 84;
    assert x[4..36][31] == x[35];
  }

  /** ---------- Chains in this world ---------- */

  lemma RootIsHash(env: Env, ids: seq<Bytes>)
    requires |ids| > 0 && AllHashes(ids)
    ensures |Root(env, ids)| == 32
  {
    TopDownIsRoot(env, ids);
    TopDownIsHash(env, ids, Height(|ids|));
  }

  predicate IdsAreHashes(chain: Chain) {
    forall k :: 0 <= k < |chain| ==> AllHashes(Ids(chain[k].txs))
  }

  lemma BlockHash(chain: Chain, k: nat)
    requires ChainOk(ToyEnv(), chain) && IdsAreHashes(chain) && k < |chain|
    ensures |chain[k].header.prevBlockHash| == 32 && chain[k].hash == Tag(3, 0, Next(chain[k].header.prevBlockHash[31]))
    ensures k > 0 ==> chain[k].header.prevBlockHash == chain[k - 1].hash
    ensures k == 0 ==> chain[k].header.prevBlockHash == ZeroBytes(32)
  {
    BlockShape(ToyEnv(), chain, k);
    RootIsHash(ToyEnv(), Ids(chain[k].txs));
    HeaderHash(chain[k].header);
  }

  lemma {:induction false} ChainCounts(chain: Chain, k: nat)
    requires ChainOk(ToyEnv(), chain) && IdsAreHashes(chain) && k < |chain| && k < 250
    ensures chain[k].hash == Tag(3, 0, k + 1)
  {
    BlockHash(chain, k);
    if k > 0 {
      ChainCounts(chain, k - 1);
      assert Tag(3, 0, k)[31] == k;
    } else {
      assert ZeroBytes(32)[31] == 0;
    }
  }

  lemma HashesTellApart(chain: Chain, i: nat, j: nat)
    requires ChainOk(ToyEnv(), chain) && IdsAreHashes(chain) && i < |chain| && j < |chain| && |chain| <= 250
    ensures !HeadersCollide(ToyEnv(), chain[i], chain[j]) && chain[i].hash != ZeroBytes(32)
  {
    ChainCounts(chain, i);
    ChainCounts(chain, j);
    BlockShape(ToyEnv(), chain, i);
    BlockShape(ToyEnv(), chain, j);
    TagInjective(3, 0, i + 1, 3, 0, j + 1);
    assert Tag(3, 0, i + 1)[29] == 3 && ZeroBytes(32)[29] == 0;
  }

  /** No two headers of a chain of at most 250 blocks collide, and none hashes to zero. */
  lemma NothingCollides(chain: Chain)
    requires ChainOk(ToyEnv(), chain) && IdsAreHashes(chain) && |chain| <= 250
    ensures NoHeaderCollision(ToyEnv(), chain, chain) && NoZeroHash(chain)
  {
    forall i, j | 0 <= i < |chain| && 0 <= j < |chain| ensures !HeadersCollide(ToyEnv(), chain[i], chain[j]) {
      HashesTellApart(chain, i, j);
    }
    forall i | 0 <= i < |chain| ensures chain[i].hash != ZeroBytes(32) {
      HashesTellApart(chain, i, i);
    }
  }

  /** ---------- Coinbases and the genesis ---------- */

  function Start(): Node {
    GenesisNode(ToyEnv(), OWNER, 0)
  }

  function CoinbaseAt(k: nat, owner: Bytes): TxV {
    CoinbaseTx(ToyEnv(), owner, CoinbaseData(k), REWARD)
  }

  lemma CoinbaseBody(k: nat, owner: Bytes)
    ensures Body(CoinbaseAt(k, owner)) == TxBody([TxInput(None, -1, [], CoinbaseData(k))], [TxOutput(REWARD, owner)])
  {
    assert Unsigned(CoinbaseAt(k, owner).inputs) == CoinbaseAt(k, owner).inputs;
  }

  /** The two bytes that tell the first eleven coinbases apart. */
  function Mark(k: nat): (byte, byte)
    requires k <= 10
  {
    if k == 0 then (115, 32) else if k == 10 then (49, 48) else (48 + k, 32)
  }

  lemma CoinbaseHash(k: nat, owner: Bytes)
    requires k <= 10
    ensures CoinbaseAt(k, owner).id == Tag(1, Mark(k).0, Mark(k).1)
    ensures ToyEnv().txHash(Body(CoinbaseAt(k, owner))) == Tag(1, Mark(k).0, Mark(k).1)
  {
    CoinbaseBody(k, owner);
    var data := CoinbaseData(k);
    if k == 0 {
      var lit := "Genesis Block - Bitcoin-like Cryptocurrency";
      assert |lit| == 43 && lit[6] == 's' && lit[7] == ' ';
    } else if k < 10 {
      assert Decimal(k) == [48 + k];
    } else {
      assert Decimal(1) == [49] && Decimal(10) == [49] + [48];
    }
    assert data[6] == Mark(k).0 && data[7] == Mark(k).1;
  }

  lemma StartIsGenesis()
    ensures Start().chain == [Start().chain[0]] && Start().chain[0].txs == [CoinbaseAt(0, OWNER)]
    ensures Start().chain[0].header.nonce == 0 && Start().bits == DEFAULT_TARGET_BITS
    ensures Start().chain[0].header.difficultyTarget == DEFAULT_TARGET_BITS && Start().chain[0].header.timestamp == 0
    ensures Start().ledger == Add(EMPTY, CoinbaseAt(0, OWNER).id, CoinbaseAt(0, OWNER).outputs)
  {
    var t := CoinbaseAt(0, OWNER);
    NeverExhausted(BlockHeader(1, ZeroBytes(32), Root(ToyEnv(), [t.id]), 0, DEFAULT_TARGET_BITS, 0));
  }
}
