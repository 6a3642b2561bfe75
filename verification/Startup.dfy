/** Starting a blockchain: from a mined genesis block, or from disk. */
module Startup {
  import opened Prelude
  import opened ByteStrings
  import opened Crypto
  import opened Header
  import opened ProofOfWork
  import opened Merkle
  import opened Transactions
  import opened Ledgers
  import opened Chains
  import opened Nodes
  import opened Blocks
  import opened UTXOSets
  import opened Links
  import opened Reload
  import opened Storages
  import opened Blockchains

  /** A linked blockchain object that stands for node `n`. */
  ghost predicate ActsAs(bc: Blockchain, n: Node)
    reads bc, bc.Blocks, bc.Txs, bc.UTXOSet, bc.UTXOSet.Cells.Keys
  {
    bc.Valid() && bc.Linked() && bc.State() == n
  }

  /** The records after the first block are those of the first block. */
  lemma FirstRecords(v: BlockV, own: Arrays, t: TxV, outputs: array<TxOutput>)
    requires v.txs == [t] && own == [outputs]
    ensures RecordedAs([v], [own], map[t.id := outputs])
  {
    var none: seq<BlockV>, empty: seq<Arrays> := [], [];
    var before: map<Bytes, array<TxOutput>> := map[];
    assert v.txs[0].id == t.id;
    assert Grown(before, map[t.id := outputs], v.txs, own);
    RecordedAppend(none, empty, v, own, before, map[t.id := outputs]);
    assert none + [v] == [v] && empty + [own] == [own];
  }

  method MakeGenesisBlock(env: Env, t: Transaction, now: int) returns (block: Block)
    ensures fresh(block) && block.Transactions == [t]
    ensures block.Snapshot() ==
      MinedBlock(env, BlockHeader(1, ZeroBytes(32), Root(env, [t.ID]), now, DEFAULT_TARGET_BITS, 0), [t.Value()])
  {
    block := MakeBlock(env, ZeroBytes(32), DEFAULT_TARGET_BITS, [t], now);
    assert Values([t]) == [t.Value()] && Ids([t.Value()]) == [t.ID];
  }

  method NewUTXOSet(t: Transaction) returns (utxoSet: UTXOSet)
    ensures fresh(utxoSet) && utxoSet.Valid() && utxoSet.Linked() && utxoSet.Cells.Keys == {t.Outputs}
    ensures utxoSet.Recorded == map[t.ID := t.Outputs] && utxoSet.Content == Add(EMPTY, t.ID, t.Outputs[..])
  {
    utxoSet := new UTXOSet();
    utxoSet.AddUTXO(t.ID, t.Outputs);
  }

  method OneBlock(env: Env, block: Block, ghost v: BlockV, t: Transaction, utxoSet: UTXOSet, store: Storage)
    returns (bc: Blockchain)
    requires block.Transactions == [t] && block.Snapshot() == v
    requires utxoSet.Valid() && utxoSet.Linked() && utxoSet.Recorded == map[t.ID := t.Outputs]
    ensures fresh(bc) && bc.env == env && bc.Storage == store && bc.UTXOSet == utxoSet
    ensures ActsAs(bc, Node([v], DEFAULT_TARGET_BITS, utxoSet.Content)) && bc.Blocks == [block]
  {
    bc := new Blockchain(env, [block], DEFAULT_TARGET_BITS, utxoSet, store, [v], [[t.Outputs]], {t});
    FirstRecords(v, [t.Outputs], t.Value(), t.Outputs);
  }

  /** A new chain's genesis block is saved as `StoreOf` says. */
  lemma GenesisSaves(v: BlockV)
    requires v.header.difficultyTarget == DEFAULT_TARGET_BITS
    ensures Saved(EMPTY_STORE, v, 1, DEFAULT_TARGET_BITS) == StoreOf([v])
  {
    assert [v][..0] == [];
  }

  /** Mine the genesis block around its coinbase, without validating it, and save it. */
  method StartChain(env: Env, t: Transaction, store: Storage, now: int) returns (bc: Blockchain, ghost v: BlockV)
    modifies store
    ensures fresh(bc) && fresh(bc.UTXOSet) && bc.Storage == store && bc.env == env
    ensures bc.UTXOSet.Cells.Keys == {t.Outputs}
    ensures v == MinedBlock(env, BlockHeader(1, ZeroBytes(32), Root(env, [t.ID]), now, DEFAULT_TARGET_BITS, 0), [t.Value()])
    ensures ActsAs(bc, Node([v], DEFAULT_TARGET_BITS, Add(EMPTY, t.ID, t.Outputs[..])))
    ensures store.db == Saved(old(store.db), v, 1, DEFAULT_TARGET_BITS)
  {
    var utxoSet := NewUTXOSet(t);
    var block := MakeGenesisBlock(env, t, now);
    v := block.Snapshot();
    bc := OneBlock(env, block, v, t, utxoSet, store);
    bc.SaveBlockToDB(block, v, true);
  }

  /** A new chain: mint the first reward and mine the genesis block. A bad address is a panic. */
  method NewChain(env: Env, address: Bytes, store: Storage, now: int) returns (r: Outcome<Blockchain>)
    modifies store
    ensures r.Ok? <==> env.decodeAddress(address).Some?
    ensures !r.Ok? ==> r == Panic && store.db == old(store.db)
    ensures r.Ok? ==> fresh(r.value) && fresh(r.value.UTXOSet) && r.value.Storage == store && r.value.env == env
    ensures r.Ok? ==> forall a :: a in r.value.UTXOSet.Cells ==> fresh(a)
    ensures r.Ok? ==> ActsAs(r.value, GenesisNode(env, env.decodeAddress(address).value, now))
    ensures r.Ok? ==> store.db == Saved(old(store.db), r.value.Chain[0], 1, 16)
    ensures r.Ok? && old(store.db) == EMPTY_STORE ==> store.db == StoreOf(r.value.Chain)
  {
    var genesisTx := NewCoinbaseTx(env, address, GenesisData(), REWARD);
    if !genesisTx.Ok? {
      return Panic;
    }
    var bc, v := StartChain(env, genesisTx.value, store, now);
    GenesisSaves(v);
    r := Ok(bc);
  }
}
