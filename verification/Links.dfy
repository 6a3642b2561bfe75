/** How the block objects, their transactions and the UTXO set's records hang together. */
module Links {
  import opened ByteStrings
  import opened Crypto
  import opened Transactions
  import opened Chains
  import opened Nodes
  import opened Blocks
  import opened UTXOSets

  /** Position (a, b) comes before (i, j) in the order in which blocks and transactions are searched. */
  predicate Before(a: int, b: int, i: int, j: int) {
    a < i || (a == i && b < j)
  }

  predicate At(chain: Chain, i: int, j: int) {
    0 <= i < |chain| && 0 <= j < |chain[i].txs|
  }

  ghost predicate NoneBefore(chain: Chain, id: Bytes, i: int, j: int) {
    forall a, b :: At(chain, a, b) && Before(a, b, i, j) ==> chain[a].txs[b].id != id
  }

  /** Some transaction on the chain has the ID. */
  ghost predicate OnChain(chain: Chain, id: Bytes) {
    !NoneBefore(chain, id, |chain|, 0)
  }

  /** The block's transactions keep their outputs in these arrays. */
  ghost predicate HasArrays(b: Block, arrays: Arrays)
    reads b, b.Transactions
  {
    |arrays| == |b.Transactions| && forall j :: 0 <= j < |arrays| ==> arrays[j] == b.Transactions[j].Outputs
  }

  lemma HoldIsPending(u: UTXOSet, txs: seq<Transaction>, vals: seq<TxV>, own: Arrays)
    requires Hold(txs, vals) && own == OutputsOf(txs)
    ensures u.Pending(txs, 0, vals, own)
  {
    forall j | 0 <= j < |txs| ensures txs[j].ID == vals[j].id && txs[j].Inputs == vals[j].inputs && own[j][..] == vals[j].outputs {
      assert txs[j].Value() == vals[j];
    }
  }

  lemma SnapshotHolds(b: Block, v: BlockV)
    requires b.Snapshot() == v
    ensures b.Shows(v) && Hold(b.Transactions, v.txs)
  {
    HoldIsValues(b.Transactions, v.txs);
  }

  /** What a block object shows, outputs aside, is in its snapshot. */
  lemma SnapshotOfShown(b: Block, v: BlockV)
    requires b.Shows(v)
    ensures SameBlock(b.Snapshot(), v)
  {
  }

  lemma OwnArraysPrepend(t: Transaction, txs: seq<Transaction>)
    requires OwnArrays(txs) && forall u :: u in txs ==> u.Outputs != t.Outputs
    ensures OwnArrays([t] + txs)
  {
  }

  /** The block objects show the chain, with outputs in `arrays`; their transactions are among `txs`. */
  ghost predicate Shown(blocks: seq<Block>, chain: Chain, arrays: seq<Arrays>, txs: set<Transaction>)
    reads blocks, txs
  {
    && |blocks| == |chain| == |arrays|
    && (forall i :: 0 <= i < |blocks| ==> forall t :: t in blocks[i].Transactions ==> t in txs)
    && (forall i :: 0 <= i < |blocks| ==> blocks[i].Shows(chain[i]) && HasArrays(blocks[i], arrays[i]))
  }

  ghost predicate SameShape(chain: Chain, arrays: seq<Arrays>) {
    |arrays| == |chain| && forall i :: 0 <= i < |chain| ==> |arrays[i]| == |chain[i].txs|
  }

  /** Every transaction on the chain is recorded with its own array, and nothing else is recorded. */
  ghost predicate RecordedAs(chain: Chain, arrays: seq<Arrays>, recorded: map<Bytes, array<TxOutput>>) {
    && SameShape(chain, arrays)
    && (forall i, j :: At(chain, i, j) ==> chain[i].txs[j].id in recorded)
    && (forall i, j :: At(chain, i, j) ==> recorded[chain[i].txs[j].id] == arrays[i][j])
    && (forall id :: id in recorded ==> OnChain(chain, id))
  }

  lemma ShownAppend(blocks: seq<Block>, chain: Chain, arrays: seq<Arrays>, txs: set<Transaction>,
                    b: Block, v: BlockV, own: Arrays, txs': set<Transaction>)
    requires Shown(blocks, chain, arrays, txs) && b.Shows(v) && HasArrays(b, own)
    requires txs' == txs + set t | t in b.Transactions
    ensures Shown(blocks + [b], chain + [v], arrays + [own], txs')
  {
  }

  /** Recording transactions with fresh IDs adds their records to those there were. */
  ghost predicate GrownBy(before: map<Bytes, array<TxOutput>>, after: map<Bytes, array<TxOutput>>, txs: seq<TxV>, own: Arrays) {
    FreshTxs(before.Keys, txs) ==> Grown(before, after, txs, own)
  }

  ghost predicate Grown(before: map<Bytes, array<TxOutput>>, after: map<Bytes, array<TxOutput>>, txs: seq<TxV>, own: Arrays) {
    && |own| == |txs|
    && (forall id :: id in before ==> id in after && after[id] == before[id])
    && (forall j :: 0 <= j < |txs| ==> txs[j].id in after && after[txs[j].id] == own[j])
    && (forall id :: id in after ==> id in before || exists j :: 0 <= j < |txs| && txs[j].id == id)
  }

  /** Fresh IDs leave a trace in the records, or the records are as before. */
  ghost predicate GrowsOrKeeps(before: map<Bytes, array<TxOutput>>, after: map<Bytes, array<TxOutput>>, txs: seq<TxV>) {
    FreshTxs(before.Keys, txs) && after.Keys == before.Keys ==> after == before
  }

  lemma BlockGrows(b: Block, v: BlockV, own: Arrays, before: map<Bytes, array<TxOutput>>, after: map<Bytes, array<TxOutput>>)
    requires b.Shows(v) && HasArrays(b, own) && AddsOnly(before, after, b.Transactions)
    ensures AllRecorded(b.Transactions, |b.Transactions|, after) ==> GrownBy(before, after, v.txs, own)
    ensures GrowsOrKeeps(before, after, v.txs)
  {
    if FreshTxs(before.Keys, v.txs) {
      FreshTxsDiffer(b, v, before);
      if AllRecorded(b.Transactions, |b.Transactions|, after) {
        FreshBlockGrows(b, v, own, before, after);
      }
    }
  }

  lemma FreshTxsDiffer(b: Block, v: BlockV, before: map<Bytes, array<TxOutput>>)
    requires b.Shows(v) && FreshTxs(before.Keys, v.txs)
    ensures forall t :: t in b.Transactions ==> t.ID !in before
  {
    forall t | t in b.Transactions ensures t.ID !in before {
      var j :| 0 <= j < |b.Transactions| && b.Transactions[j] == t;
      assert v.txs[j].id == t.ID;
    }
  }

  lemma FreshBlockGrows(b: Block, v: BlockV, own: Arrays, before: map<Bytes, array<TxOutput>>, after: map<Bytes, array<TxOutput>>)
    requires b.Shows(v) && HasArrays(b, own) && FreshTxs(before.Keys, v.txs)
    requires AddsOnly(before, after, b.Transactions) && AllRecorded(b.Transactions, |b.Transactions|, after)
    ensures Grown(before, after, v.txs, own)
  {
    FreshTxsDiffer(b, v, before);
    forall j | 0 <= j < |v.txs| ensures v.txs[j].id in after && after[v.txs[j].id] == own[j] {
      var id := v.txs[j].id;
      assert b.Transactions[j].ID in after;
      var k :| 0 <= k < |b.Transactions| && b.Transactions[k].ID == id && b.Transactions[k].Outputs == after[id];
      assert v.txs[k].id == id;
    }
    forall id | id in after && id !in before ensures exists j :: 0 <= j < |v.txs| && v.txs[j].id == id {
      var k :| 0 <= k < |b.Transactions| && b.Transactions[k].ID == id;
      assert v.txs[k].id == id;
    }
  }

  lemma RecordedAppend(chain: Chain, arrays: seq<Arrays>, v: BlockV, own: Arrays,
                       before: map<Bytes, array<TxOutput>>, after: map<Bytes, array<TxOutput>>)
    requires RecordedAs(chain, arrays, before) && Grown(before, after, v.txs, own)
    ensures RecordedAs(chain + [v], arrays + [own], after)
  {
    var chain' := chain + [v];
    forall i, j | At(chain', i, j)
      ensures chain'[i].txs[j].id in after && after[chain'[i].txs[j].id] == (arrays + [own])[i][j]
    {
      if i < |chain| {
        assert At(chain, i, j);
      }
    }
    forall id | id in after ensures OnChain(chain', id) {
      if id in before {
        var i, j :| At(chain, i, j) && Before(i, j, |chain|, 0) && chain[i].txs[j].id == id;
        assert At(chain', i, j) && chain'[i].txs[j].id == id;
      } else {
        var j :| 0 <= j < |v.txs| && v.txs[j].id == id;
        assert At(chain', |chain|, j) && chain'[|chain|].txs[j].id == id;
      }
    }
  }
}
