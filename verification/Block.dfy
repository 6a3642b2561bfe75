/** Block objects and the mining object that works on one. */
module Blocks {
  import opened ByteStrings
  import opened Crypto
  import opened Header
  import opened ProofOfWork
  import opened Merkle
  import opened Transactions
  import opened Chains

  /** What the transactions hold now. */
  function Values(txs: seq<Transaction>): (r: seq<TxV>)
    reads txs, set t | t in txs :: t.Outputs
    ensures |r| == |txs| && forall i :: 0 <= i < |txs| ==> r[i] == txs[i].Value()
  {
    if txs == [] then [] else [txs[0].Value()] + Values(txs[1..])
  }

  /** The transactions hold these values now. */
  ghost predicate Hold(txs: seq<Transaction>, vals: seq<TxV>)
    reads txs, set t | t in txs :: t.Outputs
  {
    |vals| == |txs| && forall j :: 0 <= j < |txs| ==> txs[j].Value() == vals[j]
  }

  lemma HoldIsValues(txs: seq<Transaction>, vals: seq<TxV>)
    ensures Hold(txs, vals) <==> Values(txs) == vals
  {
  }

  /** No two of the transactions share an output array. */
  ghost predicate OwnArrays(txs: seq<Transaction>)
    reads txs
  {
    forall i, j :: 0 <= i < j < |txs| ==> txs[i].Outputs != txs[j].Outputs
  }

  class Block {
    var Header: BlockHeader
    var Transactions: seq<Transaction>
    var Hash: Bytes

    constructor (header: BlockHeader, transactions: seq<Transaction>)
      ensures Header == header && Transactions == transactions && Hash == []
    {
      Header, Transactions, Hash := header, transactions, [];
    }

    /** The value that is serialised to disk. */
    function Snapshot(): BlockV
      reads this, Transactions, set t | t in Transactions :: t.Outputs
    {
      BlockV(Header, Values(Transactions), Hash)
    }

    /** The block is `v`, up to what compaction has done to output arrays since `v` was taken. */
    ghost predicate Shows(v: BlockV)
      reads this, Transactions
    {
      && Header == v.header && Hash == v.hash && |Transactions| == |v.txs|
      && forall j :: 0 <= j < |Transactions| ==> Transactions[j].ID == v.txs[j].id && Transactions[j].Inputs == v.txs[j].inputs
    }
  }

  class Miner {
    const block: Block
    const target: nat

    /** NewProofOfWork: the target is fixed when the object is made. */
    constructor (block: Block)
      ensures this.block == block && target == Target(block.Header.difficultyTarget)
    {
      this.block := block;
      this.target := Target(block.Header.difficultyTarget);
    }

    /** Try the nonces in order; the header keeps the last one tried. */
    method Mine(env: Env) returns (nonce: uint32, hash: Hash)
      requires target == Target(block.Header.difficultyTarget)
      modifies block`Header
      ensures (nonce, hash) == Mined(env, old(block.Header))
      ensures block.Header == old(block.Header).(nonce := if nonce < MAX_NONCE then nonce else MAX_NONCE - 1)
    {
      ghost var h := block.Header;
      nonce, hash := 0, ZeroBytes(32);
      while nonce < MAX_NONCE
        modifies block`Header
        invariant 0 <= nonce <= MAX_NONCE
        invariant block.Header == h.(nonce := if nonce == 0 then h.nonce else nonce - 1)
        invariant Mined(env, h) == if nonce < MAX_NONCE then MineFrom(env, h, nonce) else (MAX_NONCE, hash)
      {
        block.Header := block.Header.(nonce := nonce);
        hash := HashHeader(env, block.Header);
        if BigEndian(hash) < target {
          break;
        }
        nonce := nonce + 1;
      }
    }

    method Validate(env: Env) returns (ok: bool)
      requires target == Target(block.Header.difficultyTarget)
      ensures ok == MeetsTarget(env, block.Header)
    {
      var hash := HashHeader(env, block.Header);
      ok := BigEndian(hash) < target;
    }
  }

  method TxHashes(txs: seq<Transaction>) returns (txHashes: seq<Bytes>)
    ensures txHashes == Ids(Values(txs))
  {
    txHashes := [];
    for i := 0 to |txs|
      invariant |txHashes| == i && forall j :: 0 <= j < i ==> txHashes[j] == txs[j].ID
    {
      txHashes := txHashes + [txs[i].ID];
    }
    assert txHashes == Ids(Values(txs));
  }

  method MineBlock(env: Env, h: BlockHeader, txs: seq<Transaction>) returns (b: Block)
    ensures fresh(b) && b.Transactions == txs
    ensures b.Header == h.(nonce := Mined(env, h).0) && b.Hash == Mined(env, h).1
  {
    b := new Block(h, txs);
    var proofOfWork := new Miner(b);
    var nonce, hash := proofOfWork.Mine(env);
    b.Header := b.Header.(nonce := nonce);
    b.Hash := hash;
  }

  /** Build a block on the given predecessor and mine it. */
  method MakeBlock(env: Env, prevHash: Bytes, bits: uint32, txs: seq<Transaction>, now: int) returns (b: Block)
    ensures fresh(b) && b.Transactions == txs
    ensures b.Snapshot() ==
      MinedBlock(env, BlockHeader(1, prevHash, Root(env, Ids(Values(txs))), now, bits, 0), Values(txs))
  {
    var txHashes := TxHashes(txs);
    var merkleRoot := BuildMerkleRoot(env, txHashes);
    b := MineBlock(env, BlockHeader(1, prevHash, merkleRoot, now, bits, 0), txs);
    assert Values(b.Transactions) == old(Values(txs));
  }
}
