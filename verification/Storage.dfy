/** The storage object: blocks by hash, and the tip, height and difficulty records. */
module Storages {
  import opened Prelude
  import opened ByteStrings
  import opened Crypto
  import opened Header
  import opened Transactions
  import opened Chains
  import opened Blocks
  import opened Reload

  class Storage {
    var db: Store

    constructor ()
      ensures db == EMPTY_STORE
    {
      db := EMPTY_STORE;
    }

    /** The bytes written are a snapshot: later changes to output arrays do not reach the disk. */
    method SaveBlock(block: Block)
      modifies this
      ensures db == old(db).(blocks := old(db).blocks[block.Hash := block.Snapshot()])
    {
      db := db.(blocks := db.blocks[block.Hash := block.Snapshot()]);
    }

    method GetBlock(hash: Bytes) returns (r: Option<Block>)
      ensures r.None? <==> hash !in db.blocks
      ensures r.Some? ==> fresh(r.value) && r.value.Snapshot() == db.blocks[hash]
      ensures r.Some? ==> forall t :: t in r.value.Transactions ==> fresh(t) && fresh(t.Outputs)
      ensures r.Some? ==> OwnArrays(r.value.Transactions)
    {
      if hash !in db.blocks {
        return None;
      }
      var b := Decode(db.blocks[hash]);
      r := Some(b);
    }

    method SaveChainTip(hash: Bytes)
      modifies this
      ensures db == old(db).(tip := Some(hash))
    {
      db := db.(tip := Some(hash));
    }

    method SaveChainHeight(height: int)
      modifies this
      ensures db == old(db).(height := Some(height))
    {
      db := db.(height := Some(height));
    }

    method SaveDifficulty(bits: uint32)
      modifies this
      ensures db == old(db).(bits := Some(bits))
    {
      db := db.(bits := Some(bits));
    }
  }

  /** The four records of an added block. */
  method SaveRecords(store: Storage, block: Block, height: int, bits: uint32, ghost saved: BlockV)
    requires saved == block.Snapshot()
    modifies store
    ensures store.db == Saved(old(store.db), saved, height, bits) && saved == block.Snapshot()
  {
    store.SaveBlock(block);
    store.SaveChainTip(block.Hash);
    store.SaveChainHeight(height);
    store.SaveDifficulty(bits);
  }

  /** Decoding builds new objects, every transaction with an output array of its own. */
  method Decode(v: BlockV) returns (b: Block)
    ensures fresh(b) && b.Snapshot() == v && OwnArrays(b.Transactions)
    ensures forall t :: t in b.Transactions ==> fresh(t) && fresh(t.Outputs)
  {
    var txs := Rebuild(v.txs);
    b := new Block(v.header, txs);
    b.Hash := v.hash;
    HoldIsValues(txs, v.txs);
  }

  method Rebuild(vs: seq<TxV>) returns (txs: seq<Transaction>)
    ensures |txs| == |vs| && OwnArrays(txs)
    ensures forall i :: 0 <= i < |txs| ==> fresh(txs[i]) && fresh(txs[i].Outputs) && txs[i].Value() == vs[i]
  {
    txs := [];
    for n := 0 to |vs|
      invariant |txs| == n && OwnArrays(txs)
      invariant forall i :: 0 <= i < n ==> fresh(txs[i]) && fresh(txs[i].Outputs) && txs[i].Value() == vs[i]
    {
      var v := vs[n];
      var outputs := new TxOutput[|v.outputs|](i requires 0 <= i < |v.outputs| => v.outputs[i]);
      assert outputs[..] == v.outputs;
      var t := new Transaction(v.id, v.inputs, outputs);
      txs := txs + [t];
    }
  }
}
