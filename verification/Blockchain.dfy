/** The blockchain object. */
module Blockchains {
  import opened Prelude
  import opened ByteStrings
  import opened Crypto
  import opened Header
  import opened ProofOfWork
  import opened Merkle
  import opened Transactions
  import opened Ledgers
  import opened CoinSelection
  import opened Spending
  import opened Chains
  import opened Difficulty
  import opened Nodes
  import opened Blocks
  import opened UTXOSets
  import opened Links
  import opened Sync
  import opened Reload
  import opened Storages

  function Answer(ok: bool, v: BlockV): AddResult {
    if ok then Added(v) else Failed
  }

  function Result(r: Outcome<Block>, v: BlockV): AddResult {
    if r.Ok? then Added(v) else if r.Err? then Failed else Panicked
  }

  function DiskSaved(disk: Option<Store>, b: BlockV, height: int, bits: uint32): Option<Store> {
    match disk
    case None => None
    case Some(st) => Some(Saved(st, b, height, bits))
  }

  /** Put a mined block on the chain if it validates and its transactions apply. */
  function Mounted(env: Env, n: Node, v: BlockV, later: int): (Node, bool)
    requires |n.chain| > 0
  {
    if BlockFault(env, n.chain, v, later) != None then (n, false)
    else
      var (l', ok) := UpdateAll(n.ledger, v.txs);
      (Node(if ok then n.chain + [v] else n.chain, n.bits, l'), ok)
  }

  /** The outcome, with the transaction's value in place of the object. */
  ghost predicate Yields(r: Outcome<Transaction>, v: Outcome<TxV>)
    reads if r.Ok? then {r.value} else {}
    reads if r.Ok? then {r.value.Outputs} else {}
  {
    match r
    case Ok(t) => v == Ok(t.Value())
    case Err => v == Err
    case Panic => v == Panic
  }

  method SignWith(env: Env, t: Transaction, w: Wallet, prevTxs: map<Bytes, Transaction>, ghost recorded: Prev, tape: nat)
    returns (r: Outcome<Transaction>)
    requires t.ID == env.txHash(TxBody(t.Inputs, t.Outputs[..]))
    modifies t`Inputs
    ensures r.Ok? ==> r.value == t
    ensures old(Agree(t.Inputs, PrevOutputs(prevTxs), recorded)) ==>
      Yields(r, Unsubmitted(env, w, recorded, old(t.Inputs), t.Outputs[..], tape))
  {
    if Agree(t.Inputs, PrevOutputs(prevTxs), recorded) {
      SignedAgrees(env, w, t.Inputs, t.Outputs[..], PrevOutputs(prevTxs), recorded, tape);
    }
    var signed := t.Sign(env, w, prevTxs, tape);
    r := if signed.Ok? then Ok(t) else if signed.Err? then Err else Panic;
  }

  /** The checks that concern the block alone: proof of work, its hash, and its Merkle root. */
  method OwnFault(env: Env, block: Block) returns (fault: Option<Fault>)
    ensures fault ==
      if !MeetsTarget(env, block.Header) then Some(InvalidProofOfWork)
      else if HashHeader(env, block.Header) != block.Hash then Some(HashMismatch)
      else if Root(env, Ids(Values(block.Transactions))) != block.Header.merkleRoot then Some(MerkleMismatch)
      else None
  {
    var txHashes := TxHashes(block.Transactions);
    var computedMerkleRoot := BuildMerkleRoot(env, txHashes);
    var proofOfWork := new Miner(block);
    var ok := proofOfWork.Validate(env);
    assert txHashes == Ids(Values(block.Transactions));
    fault :=
      if !ok then Some(InvalidProofOfWork)
      else if HashHeader(env, block.Header) != block.Hash then Some(HashMismatch)
      else if computedMerkleRoot != block.Header.merkleRoot then Some(MerkleMismatch)
      else None;
  }

  /** The checks on the coinbase: there is one, it comes first, and there is no other. */
  method CoinbaseFault(transactions: seq<Transaction>) returns (fault: Option<Fault>)
    ensures fault ==
      if |transactions| == 0 then Some(NoTransactions)
      else if !IsCoinbase(transactions[0].Inputs) then Some(NoCoinbase)
      else if HasLaterCoinbase(Values(transactions)) then Some(TwoCoinbases)
      else None
  {
    if |transactions| == 0 {
      return Some(NoTransactions);
    }
    if !IsCoinbase(transactions[0].Inputs) {
      return Some(NoCoinbase);
    }
    for i := 1 to |transactions|
      invariant forall k :: 1 <= k < i ==> !IsCoinbase(transactions[k].Inputs)
    {
      if IsCoinbase(transactions[i].Inputs) {
        assert IsCoinbase(Values(transactions)[i].inputs);
        return Some(TwoCoinbases);
      }
    }
    fault := None;
  }

  /** One round of the loop of ValidateChain. */
  method LinkGood(env: Env, prevBlock: Block, block: Block, ghost prev: BlockV, ghost v: BlockV) returns (ok: bool)
    requires prevBlock.Shows(prev) && block.Shows(v)
    ensures ok <==> LinkOk(env, prev, v)
  {
    var proofOfWork := new Miner(block);
    ok := proofOfWork.Validate(env);
    if !ok {
      return false;
    }
    if block.Header.prevBlockHash != prevBlock.Hash {
      return false;
    }
    var txHashes := TxHashes(block.Transactions);
    assert txHashes == Ids(v.txs);
    var computedMerkleRoot := BuildMerkleRoot(env, txHashes);
    ok := computedMerkleRoot == block.Header.merkleRoot;
  }

  /** The transactions looked up hold the recorded outputs. */
  ghost predicate Recalls(prevTxs: map<Bytes, Transaction>, recorded: Prev)
    reads prevTxs.Values, set t | t in prevTxs.Values :: t.Outputs
  {
    forall id :: id in prevTxs ==> id in recorded && prevTxs[id].Outputs[..] == recorded[id]
  }

  lemma RecallsMore(prevTxs: map<Bytes, Transaction>, recorded: Prev, id: Bytes, t: Transaction)
    requires Recalls(prevTxs, recorded) && id in recorded && t.Outputs[..] == recorded[id]
    ensures Recalls(prevTxs[id := t], recorded)
  {
  }

  predicate KnownUpTo(inputs: seq<TxInput>, n: int, ids: set<Bytes>) {
    0 <= n <= |inputs| && forall k :: 0 <= k < n ==> Key(inputs[k].txid) in ids
  }

  lemma OneMoreKnown(inputs: seq<TxInput>, n: nat, ids: set<Bytes>)
    requires n < |inputs| && KnownUpTo(inputs, n, ids)
    ensures KnownUpTo(inputs, n + 1, ids + {Key(inputs[n].txid)})
  {
  }

  lemma RecallsAgree(inputs: seq<TxInput>, prevTxs: map<Bytes, Transaction>, recorded: Prev)
    requires Recalls(prevTxs, recorded) && KnownUpTo(inputs, |inputs|, prevTxs.Keys)
    ensures AllKnown(inputs, recorded) && Agree(inputs, PrevOutputs(prevTxs), recorded)
  {
  }

  /** The same for the entries and arrays, whoever shares the arrays. */
  ghost function MountedHeld(env: Env, chain: Chain, h: Held, v: BlockV, own: Arrays, later: int): (Held, bool)
    requires Sound(h) && |own| == |v.txs|
  {
    if BlockFault(env, chain, v, later) != None then (h, false) else UpdateAllHeld(h, v.txs, own)
  }

  /** What AddBlock leaves of chain, entries and difficulty, whoever shares the arrays: nothing changes unless a block
      is mined; then the difficulty is adjusted, and the block is added if and only if it validates and applies. */
  ghost function Attempt(env: Env, n: Node, h: Held, txs: seq<TxV>, miner: Bytes, now: int, later: int, own: Arrays): (Chain, Held, uint32, bool)
    requires |n.chain| > 0 && Sound(h) && (Attempted(env, n, miner, txs) ==> |own| == |txs| + 1)
  {
    if !Attempted(env, n, miner, txs) then (n.chain, h, n.bits, false)
    else
      var v := Proposed(env, n, miner, txs, now);
      var (h', ok) := MountedHeld(env, n.chain, h, v, own, later);
      (if ok then n.chain + [v] else n.chain, h', Adjusted(n.bits, Times(n.chain)), ok)
  }

  class Blockchain {
    const env: Env
    var Blocks: seq<Block>
    var DifficultyTarget: uint32
    var UTXOSet: UTXOSet
    var Storage: Storage?

    /** The blocks as they were added, with the original outputs of their transactions. */
    ghost var Chain: Chain
    /** The arrays that hold their outputs now. */
    ghost var Cells: seq<Arrays>
    /** The transaction objects in the blocks. */
    ghost var Txs: set<Transaction>

    constructor (env: Env, blocks: seq<Block>, bits: uint32, utxoSet: UTXOSet, store: Storage?,
                 ghost chain: Chain, ghost cells: seq<Arrays>, ghost txs: set<Transaction>)
      ensures this.env == env && Blocks == blocks && DifficultyTarget == bits && UTXOSet == utxoSet && Storage == store
      ensures Chain == chain && Cells == cells && Txs == txs
    {
      this.env, Blocks, DifficultyTarget, UTXOSet, Storage := env, blocks, bits, utxoSet, store;
      Chain, Cells, Txs := chain, cells, txs;
    }

    ghost predicate Showing()
      reads this, Blocks, Txs
    {
      Shown(Blocks, Chain, Cells, Txs)
    }

    ghost predicate ChainShown()
      reads this, Blocks, Txs
    {
      |Blocks| > 0 && Showing()
    }

    ghost predicate Valid()
      reads this, Blocks, Txs, UTXOSet, UTXOSet.Cells.Keys
    {
      ChainShown() && UTXOSet.Valid()
    }

    /** The UTXO set's entries are prefixes of the output arrays of the transactions in the blocks. */
    ghost predicate Linked()
      requires Valid()
      reads this, Blocks, Txs, UTXOSet, UTXOSet.Cells.Keys
    {
      UTXOSet.Linked() && RecordedAs(Chain, Cells, UTXOSet.Recorded)
    }

    /** The node this object implements, while it is linked. */
    ghost function State(): Node
      reads this, UTXOSet
    {
      Node(Chain, DifficultyTarget, UTXOSet.Content)
    }

    /** The first transaction on the chain with the given ID. */
    method FindTransaction(id: Bytes) returns (r: Option<Transaction>, ghost i: int, ghost j: int)
      requires Showing()
      ensures r.Some? <==> OnChain(Chain, id)
      ensures r.Some? ==> At(Chain, i, j) && Chain[i].txs[j].id == id && NoneBefore(Chain, id, i, j)
      ensures r.Some? ==> r.value == Blocks[i].Transactions[j]
    {
      i, j := 0, 0;
      var n := 0;
      while n < |Blocks|
        invariant 0 <= n <= |Blocks| && NoneBefore(Chain, id, n, 0)
      {
        var transactions := Blocks[n].Transactions;
        var m := 0;
        while m < |transactions|
          invariant 0 <= m <= |transactions| && NoneBefore(Chain, id, n, m)
        {
          if transactions[m].ID == id {
            return Some(transactions[m]), n, m;
          }
          m := m + 1;
        }
        n := n + 1;
      }
      r := None;
    }

    /** `recorded` is what looking up each ID on the chain shows now. */
    ghost predicate Looks(recorded: Prev)
      requires ChainShown()
      reads this, Blocks, Txs, set t | t in Txs :: t.Outputs
    {
      && (forall id :: id in recorded ==> OnChain(Chain, id))
      && (forall i, j :: At(Chain, i, j) ==> Chain[i].txs[j].id in recorded)
      && (forall i, j :: At(Chain, i, j) && NoneBefore(Chain, Chain[i].txs[j].id, i, j) ==>
            recorded[Chain[i].txs[j].id] == Blocks[i].Transactions[j].Outputs[..])
    }

    ghost predicate LooksUpTo(recorded: Prev, n: int, m: int)
      requires ChainShown()
      reads this, Blocks, Txs, set t | t in Txs :: t.Outputs
    {
      && (forall id :: id in recorded ==> !NoneBefore(Chain, id, n, m))
      && (forall i, j :: At(Chain, i, j) && Before(i, j, n, m) ==> Chain[i].txs[j].id in recorded)
      && (forall i, j :: At(Chain, i, j) && Before(i, j, n, m) && NoneBefore(Chain, Chain[i].txs[j].id, i, j) ==>
            recorded[Chain[i].txs[j].id] == Blocks[i].Transactions[j].Outputs[..])
    }

    lemma LookAtOne(recorded: Prev, n: int, m: int) returns (more: Prev)
      requires ChainShown() && LooksUpTo(recorded, n, m) && At(Chain, n, m)
      ensures LooksUpTo(more, n, m + 1)
    {
      var id := Chain[n].txs[m].id;
      if id in recorded {
        more := recorded;
        LookAgain(recorded, n, m);
      } else {
        more := recorded[id := Blocks[n].Transactions[m].Outputs[..]];
        LookAtFirst(recorded, n, m, more);
      }
    }

    lemma LookAgain(recorded: Prev, n: int, m: int)
      requires ChainShown() && LooksUpTo(recorded, n, m) && At(Chain, n, m) && Chain[n].txs[m].id in recorded
      ensures LooksUpTo(recorded, n, m + 1)
    {
      forall i, j | At(Chain, i, j) && Before(i, j, n, m + 1)
        ensures Chain[i].txs[j].id in recorded
        ensures NoneBefore(Chain, Chain[i].txs[j].id, i, j) ==> recorded[Chain[i].txs[j].id] == Blocks[i].Transactions[j].Outputs[..]
      {
        if (i, j) != (n, m) {
          assert Before(i, j, n, m);
        }
      }
    }

    lemma LookAtFirst(recorded: Prev, n: int, m: int, more: Prev)
      requires ChainShown() && LooksUpTo(recorded, n, m) && At(Chain, n, m) && Chain[n].txs[m].id !in recorded
      requires more == recorded[Chain[n].txs[m].id := Blocks[n].Transactions[m].Outputs[..]]
      ensures LooksUpTo(more, n, m + 1)
    {
      assert Before(n, m, n, m + 1);
      forall i, j | At(Chain, i, j) && Before(i, j, n, m + 1) && NoneBefore(Chain, Chain[i].txs[j].id, i, j)
        ensures Chain[i].txs[j].id in more && more[Chain[i].txs[j].id] == Blocks[i].Transactions[j].Outputs[..]
      {
        if (i, j) != (n, m) {
          assert Before(i, j, n, m);
        }
      }
    }

    /** Every object shows something. */
    lemma SomethingShown() returns (recorded: Prev)
      requires ChainShown()
      ensures Looks(recorded)
    {
      recorded := map[];
      for n := 0 to |Chain|
        invariant LooksUpTo(recorded, n, 0)
      {
        for m := 0 to |Chain[n].txs|
          invariant LooksUpTo(recorded, n, m)
        {
          recorded := LookAtOne(recorded, n, m);
        }
      }
    }

    /** The ledger as the object shows it, linked or not. */
    ghost predicate Sees(l: Ledger)
      requires Valid()
      reads this, Blocks, Txs, UTXOSet, UTXOSet.Cells.Keys, set t | t in Txs :: t.Outputs
    {
      l.live == UTXOSet.Live() && Looks(l.recorded)
    }

    /** `n` is the node as far as lookups on the chain go. */
    ghost predicate Shows(n: Node)
      requires ChainShown()
      reads this, Blocks, Txs, set t | t in Txs :: t.Outputs
    {
      n.chain == Chain && n.bits == DifficultyTarget && Looks(n.ledger.recorded)
    }

    /** While linked, that is the content. */
    lemma LinkedSees()
      requires Valid() && Linked()
      ensures Sees(UTXOSet.Content)
    {
      UTXOSet.LinkedIsAliased();
      var recorded := UTXOSet.Content.recorded;
      forall i, j | At(Chain, i, j) ensures Chain[i].txs[j].id in recorded
        ensures recorded[Chain[i].txs[j].id] == Blocks[i].Transactions[j].Outputs[..]
      {
        RecordShown(i, j);
      }
    }

    lemma RecordShown(i: int, j: int)
      requires Valid() && Linked() && At(Chain, i, j)
      ensures Chain[i].txs[j].id in UTXOSet.Content.recorded
      ensures UTXOSet.Content.recorded[Chain[i].txs[j].id] == Blocks[i].Transactions[j].Outputs[..]
    {
      assert UTXOSet.Recorded[Chain[i].txs[j].id] == Blocks[i].Transactions[j].Outputs;
    }

    /** A transaction is found exactly when it is recorded, with the outputs it has now. */
    lemma FoundIsShown(recorded: Prev, id: Bytes, r: Option<Transaction>, i: int, j: int)
      requires ChainShown() && Looks(recorded)
      requires r.Some? <==> OnChain(Chain, id)
      requires r.Some? ==> At(Chain, i, j) && Chain[i].txs[j].id == id && NoneBefore(Chain, id, i, j)
      requires r.Some? ==> r.value == Blocks[i].Transactions[j]
      ensures r.Some? <==> id in recorded
      ensures r.Some? ==> r.value.Outputs[..] == recorded[id]
    {
    }

    method LookUp(id: Bytes, ghost recorded: Prev) returns (r: Option<Transaction>)
      requires ChainShown() && Looks(recorded)
      ensures r.Some? <==> id in recorded
      ensures r.Some? ==> r.value.Outputs[..] == recorded[id]
    {
      ghost var i, j;
      r, i, j := FindTransaction(id);
      FoundIsShown(recorded, id, r, i, j);
    }

    /** Look up the previous transaction of every input; `None` if one is missing. */
    method PreviousTxs(inputs: seq<TxInput>, ghost recorded: Prev) returns (r: Option<map<Bytes, Transaction>>)
      requires ChainShown() && Looks(recorded)
      ensures r.Some? <==> AllKnown(inputs, recorded)
      ensures r.Some? ==> Agree(inputs, PrevOutputs(r.value), recorded)
    {
      var prevTxs: map<Bytes, Transaction> := map[];
      var n := 0;
      while n < |inputs|
        invariant 0 <= n <= |inputs|
        invariant KnownUpTo(inputs, n, prevTxs.Keys)
        invariant Recalls(prevTxs, recorded)
      {
        var key := Key(inputs[n].txid);
        var prevTx := LookUp(key, recorded);
        if prevTx.None? {
          return None;
        }
        OneMoreKnown(inputs, n, prevTxs.Keys);
        RecallsMore(prevTxs, recorded, key, prevTx.value);
        prevTxs := prevTxs[key := prevTx.value];
        n := n + 1;
      }
      RecallsAgree(inputs, prevTxs, recorded);
      r := Some(prevTxs);
    }

    method VerifyTransaction(t: Transaction, ghost recorded: Prev) returns (r: Outcome<bool>)
      requires ChainShown() && Looks(recorded)
      ensures r == Verified(env, t.Inputs, t.Outputs[..], recorded)
    {
      if IsCoinbase(t.Inputs) {
        return Ok(true);
      }
      var prevTxs := PreviousTxs(t.Inputs, recorded);
      if prevTxs.None? {
        return Ok(false);
      }
      r := t.Verify(env, prevTxs.value);
      VerifiedAgrees(env, t.Inputs, t.Outputs[..], PrevOutputs(prevTxs.value), recorded);
    }

    /** Verify the transactions in order, up to the first that is not accepted. */
    method VerifyAll(transactions: seq<Transaction>, ghost vals: seq<TxV>, ghost recorded: Prev) returns (r: Outcome<bool>)
      requires ChainShown() && Looks(recorded) && Hold(transactions, vals)
      ensures r == VerifyTxs(env, recorded, vals)
    {
      var n := 0;
      assert vals[0..] == vals;
      while n < |transactions|
        invariant 0 <= n <= |transactions| && Looks(recorded) && Hold(transactions, vals)
        invariant VerifyTxs(env, recorded, vals[n..]) == VerifyTxs(env, recorded, vals)
      {
        r := VerifyTransaction(transactions[n], recorded);
        assert vals[n..][0] == transactions[n].Value() && vals[n..][1..] == vals[n + 1..];
        if r != Ok(true) {
          return;
        }
        n := n + 1;
      }
      r := Ok(true);
    }

    /** The inputs for the selected outputs of one transaction, behind those built before. */
    method AppendInputs(before: seq<TxInput>, txID: Bytes, outputs: seq<nat>, pubKey: Bytes) returns (inputs: seq<TxInput>)
      ensures inputs == before + InputsOf(txID, outputs, pubKey)
    {
      inputs := before;
      for m := 0 to |outputs|
        invariant inputs == before + InputsOf(txID, outputs, pubKey)[..m]
      {
        inputs := inputs + [TxInput(Some(txID), outputs[m], [], pubKey)];
      }
    }

    /** Build the inputs from the grouped selection, in the order the map is traversed. */
    method BuildInputs(validOutputs: map<Bytes, seq<nat>>, pubKey: Bytes) returns (inputs: seq<TxInput>, ghost order: seq<Bytes>)
      ensures Enumerates(order, validOutputs) && inputs == InputsFor(order, validOutputs, pubKey)
    {
      var keys := TraversalOrder(validOutputs);
      order := keys;
      inputs := [];
      assert keys[0..] == keys;
      for n := 0 to |keys|
        invariant inputs + InputsFor(keys[n..], validOutputs, pubKey) == InputsFor(keys, validOutputs, pubKey)
      {
        InputsForSplit(inputs, keys, n, validOutputs, pubKey);
        inputs := AppendInputs(inputs, keys[n], validOutputs[keys[n]], pubKey);
      }
    }

    /** Recipient output, and change if something is left; `None` if an address does not decode. */
    method BuildOutputs(from: Bytes, to: Bytes, amount: int, accumulated: int) returns (r: Option<array<TxOutput>>)
      requires env.decodeAddress(from).Some?
      ensures r.None? <==> env.decodeAddress(to).None?
      ensures r.Some? ==> fresh(r.value)
      ensures r.Some? ==>
        r.value[..] == NewOutputs(env.decodeAddress(to).value, env.decodeAddress(from).value, amount, accumulated)
      ensures r.Some? ==> r.value.Length == (if accumulated > amount then 2 else 1) && r.value[0] == TxOutput(amount, env.decodeAddress(to).value)
      ensures r.Some? && accumulated > amount ==> r.value[1] == TxOutput(Wrap64(accumulated - amount), env.decodeAddress(from).value)
    {
      var recipient := env.decodeAddress(to);
      if recipient.None? {
        return None;
      }
      var outputs := [TxOutput(amount, recipient.value)];
      if accumulated > amount {
        outputs := outputs + [TxOutput(Wrap64(accumulated - amount), env.decodeAddress(from).value)];
      }
      var cells := new TxOutput[|outputs|](i requires 0 <= i < |outputs| => outputs[i]);
      assert cells[..] == outputs;
      r := Some(cells);
    }

    /** Make the transaction and sign it against the previous transactions found on the chain. */
    method SignNew(inputs: seq<TxInput>, outputs: array<TxOutput>, w: Wallet, tape: nat, ghost recorded: Prev)
      returns (r: Outcome<Transaction>)
      requires ChainShown() && Looks(recorded) && !IsCoinbase(inputs)
      ensures r.Ok? ==> fresh(r.value) && r.value.Outputs == outputs
      ensures Yields(r, Unsubmitted(env, w, recorded, inputs, outputs[..], tape))
    {
      var t := NewTransaction(env, inputs, outputs);
      var prevTxs := PreviousTxs(inputs, recorded);
      if prevTxs.None? {
        return Err;
      }
      r := SignWith(env, t, w, prevTxs.value, recorded, tape);
    }

    /** CreateTransaction once the coins are selected. */
    method PayWith(validOutputs: map<Bytes, seq<nat>>, accumulated: int, from: Bytes, to: Bytes, amount: int, w: Wallet, tape: nat,
                   ghost recorded: Prev)
      returns (r: Outcome<Transaction>, ghost picked: seq<Bytes>)
      requires ChainShown() && Looks(recorded) && env.decodeAddress(from).Some?
      ensures Enumerates(picked, validOutputs)
      ensures r.Ok? ==> fresh(r.value) && fresh(r.value.Outputs)
      ensures Yields(r, PaidWith(env, recorded, picked, validOutputs, accumulated, from, to, amount, w, tape))
    {
      var inputs;
      inputs, picked := BuildInputs(validOutputs, w.publicKey);
      var outputs := BuildOutputs(from, to, amount, accumulated);
      if outputs.None? {
        return Err, picked;
      }
      NotCoinbase(picked, validOutputs, w.publicKey);
      r := SignNew(inputs, outputs.value, w, tape, recorded);
    }

    /** FindSpendableOutputs, read as a statement about the ledger; `picked` is some order of the result. */
    method FindCoins(from: Bytes, amount: int, ghost l: Ledger)
      returns (found: Outcome<(int, map<Bytes, seq<nat>>)>, ghost entries: seq<Bytes>, ghost picked: seq<Bytes>)
      requires UTXOSet.Valid() && l.live == UTXOSet.Live()
      ensures found.Ok? ==> env.decodeAddress(from).Some?
      ensures Found(env, l, from, amount, Choice(entries, picked, 0), found)
    {
      found, entries := UTXOSet.FindSpendableOutputs(env, from, amount);
      picked := SomePicks(env, l, entries, from, amount, found);
    }

    /** Select coins, build and sign the payment. `l` is the ledger the object shows; `choice` records the orders in
        which maps were traversed. */
    method CreateTransaction(from: Bytes, to: Bytes, amount: int, w: Wallet, tape: nat, ghost l: Ledger)
      returns (r: Outcome<Transaction>, ghost choice: Choice)
      requires Valid() && Sees(l)
      ensures r.Ok? ==> fresh(r.value) && fresh(r.value.Outputs)
      ensures ChoiceFits(env, l, from, amount, choice)
      ensures Yields(r, Created(env, l, from, to, amount, w, choice))
    {
      var found, entries, picked := FindCoins(from, amount, l);
      ghost var first := Choice(entries, picked, 0);
      if found.Ok? {
        r, picked := PayWith(found.value.1, found.value.0, from, to, amount, w, tape, l.recorded);
      } else {
        r := Err;
      }
      choice := Choice(entries, picked, tape);
      CreatedIs(env, l, found, from, to, amount, w, first, choice);
    }

    /** Every ADJUSTMENT_INTERVAL blocks, compare the time they took with the time they should have. */
    method AdjustDifficulty()
      requires Showing()
      modifies `DifficultyTarget
      ensures Showing() && DifficultyTarget == Adjusted(old(DifficultyTarget), Times(Chain))
    {
      var blockCount := |Blocks|;
      if blockCount % ADJUSTMENT_INTERVAL != 0 {
        return;
      }
      if blockCount < ADJUSTMENT_INTERVAL {
        return;
      }
      var lastAdjustmentBlock := Blocks[blockCount - ADJUSTMENT_INTERVAL];
      var currentBlock := Blocks[blockCount - 1];
      assert lastAdjustmentBlock.Shows(Chain[blockCount - ADJUSTMENT_INTERVAL]) && currentBlock.Shows(Chain[blockCount - 1]);
      var timeTaken := currentBlock.Header.timestamp - lastAdjustmentBlock.Header.timestamp;
      if 2 * timeTaken < EXPECTED_TIME {
        if DifficultyTarget < MAX_BITS {
          DifficultyTarget := DifficultyTarget + 1;
        }
      } else if timeTaken > 2 * EXPECTED_TIME {
        if DifficultyTarget > MIN_BITS {
          DifficultyTarget := DifficultyTarget - 1;
        }
      }
    }

    /** Check a block that is to follow the tip. */
    method ValidateBlock(block: Block, now: int) returns (fault: Option<Fault>)
      requires Showing()
      ensures fault == BlockFault(env, Chain, block.Snapshot(), now)
    {
      fault := OwnFault(env, block);
      if fault.Some? {
        return fault;
      }
      if |Blocks| > 0 && block.Header.prevBlockHash != Tip() {
        return Some(WrongPredecessor);
      }
      if block.Header.timestamp > now + MAX_FUTURE {
        return Some(FromTheFuture);
      }
      fault := CoinbaseFault(block.Transactions);
    }

    function Tip(): Bytes
      requires ChainShown()
      reads this, Blocks, Txs
      ensures Tip() == Chain[|Chain| - 1].hash
    {
      assert Blocks[|Blocks| - 1].Shows(Chain[|Chain| - 1]);
      Blocks[|Blocks| - 1].Hash
    }

    /** The first block with the given hash. */
    method GetBlockByHash(hash: Bytes) returns (r: Option<Block>)
      requires Showing()
      ensures r.Some? <==> HasHash(Chain, hash)
      ensures r.Some? ==> r.value in Blocks && r.value.Hash == hash
    {
      for i := 0 to |Blocks|
        invariant forall k :: 0 <= k < i ==> Chain[k].hash != hash
      {
        assert Blocks[i].Shows(Chain[i]);
        if Blocks[i].Hash == hash {
          return Some(Blocks[i]);
        }
      }
      r := None;
    }

    /** Check proof of work, linkage and Merkle root of every block after the genesis. */
    method ValidateChain() returns (ok: bool)
      requires Showing()
      ensures ok <==> ChainValid(env, Chain)
    {
      var i := 1;
      while i < |Blocks|
        invariant 1 <= i && (i == 1 || i <= |Blocks|)
        invariant forall k :: 1 <= k < i ==> LinkOk(env, Chain[k - 1], Chain[k])
      {
        var good := LinkGood(env, Blocks[i - 1], Blocks[i], Chain[i - 1], Chain[i]);
        if !good {
          return false;
        }
        i := i + 1;
      }
      ok := true;
    }

    /** The transactions are new: fresh IDs, and output arrays that nothing else uses. */
    ghost predicate AllNew(txs: seq<Transaction>, vals: seq<TxV>)
      reads this, UTXOSet, txs, set t | t in txs :: t.Outputs
    {
      && |vals| == |txs|
      && UTXOSet.Waiting(txs, 0, vals)
      && FreshTxs(UTXOSet.Recorded.Keys, vals)
    }

    method Append(block: Block, ghost v: BlockV, ghost own: Arrays)
      requires ChainShown() && block.Shows(v) && HasArrays(block, own)
      modifies `Blocks, `Chain, `Cells, `Txs
      ensures ChainShown()
      ensures Blocks == old(Blocks) + [block] && Chain == old(Chain) + [v] && Cells == old(Cells) + [own]
    {
      ghost var blocks, chain, cells, txs := Blocks, Chain, Cells, Txs;
      Blocks := Blocks + [block];
      Chain := Chain + [v];
      Cells := Cells + [own];
      Txs := Txs + set t | t in block.Transactions;
      ShownAppend(blocks, chain, cells, txs, block, v, own, Txs);
    }

    /** What the database holds, if there is one. */
    ghost function Disk(): Option<Store>
      reads this, Storage
    {
      if Storage == null then None else Some(Storage.db)
    }

    /** Save the block, and the tip, height and difficulty. */
    method SaveBlockToDB(block: Block, ghost saved: BlockV, ghost linked: bool)
      requires saved == block.Snapshot() && Valid() && (linked ==> Linked())
      modifies Storage
      ensures Valid() && (linked ==> Linked()) && saved == block.Snapshot()
      ensures UTXOSet == old(UTXOSet) && (State(), UTXOSet.Holding(), Blocks) == old((State(), UTXOSet.Holding(), Blocks))
      ensures Disk() == DiskSaved(old(Disk()), saved, |Blocks|, DifficultyTarget)
    {
      if Storage != null {
        SaveRecords(Storage, block, |Blocks|, DifficultyTarget, saved);
      }
    }

    /** Apply the block's transactions to the UTXO set. */
    method Apply(block: Block, ghost v: BlockV, ghost own: Arrays, ghost arrays: set<array<TxOutput>>, ghost linked: bool) returns (ok: bool)
      requires UTXOSet.Valid() && block.Shows(v) && HasArrays(block, own)
      requires UTXOSet.Pending(block.Transactions, 0, v.txs, own)
      requires linked ==> UTXOSet.Linked() && UTXOSet.Waiting(block.Transactions, 0, v.txs)
      requires UTXOSet.Cells.Keys <= arrays && forall j :: 0 <= j < |block.Transactions| ==> block.Transactions[j].Outputs in arrays
      modifies UTXOSet, arrays
      ensures UTXOSet.Valid() && UTXOSet.Cells.Keys <= arrays
      ensures (UTXOSet.Holding(), ok) == UpdateAllHeld(old(UTXOSet.Holding()), v.txs, own)
      ensures linked ==> UTXOSet.Linked() && (UTXOSet.Content, ok) == UpdateAll(old(UTXOSet.Content), v.txs)
      ensures ok ==> GrownBy(old(UTXOSet.Recorded), UTXOSet.Recorded, v.txs, own)
      ensures GrowsOrKeeps(old(UTXOSet.Recorded), UTXOSet.Recorded, v.txs)
    {
      ok := UTXOSet.UpdateBlock(block.Transactions, v.txs, own, arrays, linked);
      BlockGrows(block, v, own, old(UTXOSet.Recorded), UTXOSet.Recorded);
    }

    /** ... and append the block. */
    method Connect(block: Block, ghost v: BlockV, ghost own: Arrays, ghost arrays: set<array<TxOutput>>, ghost linked: bool) returns (ok: bool)
      requires Valid() && block.Shows(v) && HasArrays(block, own) && UTXOSet.Pending(block.Transactions, 0, v.txs, own)
      requires linked ==> UTXOSet.Linked() && UTXOSet.Waiting(block.Transactions, 0, v.txs)
      requires UTXOSet.Cells.Keys <= arrays && forall j :: 0 <= j < |block.Transactions| ==> block.Transactions[j].Outputs in arrays
      modifies `Blocks, `Chain, `Cells, `Txs, UTXOSet, arrays
      ensures Valid() && UTXOSet.Cells.Keys <= arrays
      ensures (UTXOSet.Holding(), ok) == UpdateAllHeld(old(UTXOSet.Holding()), v.txs, own)
      ensures !ok ==> Blocks == old(Blocks) && Chain == old(Chain) && Cells == old(Cells) && Txs == old(Txs)
      ensures ok ==> Blocks == old(Blocks) + [block] && Chain == old(Chain) + [v] && Cells == old(Cells) + [own]
      ensures linked ==> UTXOSet.Linked() && (UTXOSet.Content, ok) == UpdateAll(old(UTXOSet.Content), v.txs)
      ensures ok ==> GrownBy(old(UTXOSet.Recorded), UTXOSet.Recorded, v.txs, own)
      ensures GrowsOrKeeps(old(UTXOSet.Recorded), UTXOSet.Recorded, v.txs)
    {
      ok := Apply(block, v, own, arrays, linked);
      if ok {
        Append(block, v, own);
      }
    }

    /** Build and mine a block on the tip, and check it. */
    method NextBlock(allTxs: seq<Transaction>, ghost vals: seq<TxV>, now: int, later: int) returns (r: Option<Block>, ghost v: BlockV)
      requires ChainShown() && Hold(allTxs, vals)
      ensures v == MinedBlock(env, BlockHeader(1, Tip(), Root(env, Ids(vals)), now, DifficultyTarget, 0), vals)
      ensures r.None? <==> BlockFault(env, Chain, v, later) != None
      ensures r.Some? ==> fresh(r.value) && r.value.Transactions == allTxs && r.value.Shows(v) && v.txs == vals
    {
      HoldIsValues(allTxs, vals);
      var block := MakeBlock(env, Tip(), DifficultyTarget, allTxs, now);
      v := block.Snapshot();
      var fault := ValidateBlock(block, later);
      r := if fault.Some? then None else Some(block);
    }

    /** Connect, and stay linked. */
    method ConnectLinked(block: Block, ghost v: BlockV, ghost own: Arrays, ghost arrays: set<array<TxOutput>>, ghost linked: bool) returns (ok: bool)
      requires Valid() && block.Shows(v) && UTXOSet.Pending(block.Transactions, 0, v.txs, own)
      requires linked ==> Linked() && AllNew(block.Transactions, v.txs)
      requires UTXOSet.Cells.Keys <= arrays && forall j :: 0 <= j < |block.Transactions| ==> block.Transactions[j].Outputs in arrays
      modifies `Blocks, `Chain, `Cells, `Txs, UTXOSet, arrays
      ensures Valid() && UTXOSet.Cells.Keys <= arrays
      ensures (UTXOSet.Holding(), ok) == UpdateAllHeld(old(UTXOSet.Holding()), v.txs, own)
      ensures !ok ==> Blocks == old(Blocks) && Chain == old(Chain)
      ensures ok ==> Blocks == old(Blocks) + [block] && Chain == old(Chain) + [v]
      ensures linked ==> (UTXOSet.Content, ok) == UpdateAll(old(UTXOSet.Content), v.txs)
      ensures linked && (ok || UTXOSet.Content == old(UTXOSet.Content)) ==> Linked()
    {
      ghost var chain, cells, records := Chain, Cells, UTXOSet.Recorded;
      ok := Connect(block, v, own, arrays, linked);
      if RecordedAs(chain, cells, records) && Grown(records, UTXOSet.Recorded, v.txs, own) {
        RecordedAppend(chain, cells, v, own, records, UTXOSet.Recorded);
      }
    }

    /** `n` is this node; while linked, with its ledger. */
    ghost predicate StandsFor(n: Node, linked: bool)
      reads this, UTXOSet
    {
      n.chain == Chain && n.bits == DifficultyTarget && (linked ==> n.ledger == UTXOSet.Content)
    }

    /** Connect a block that has passed validation. */
    method Mount(block: Block, ghost v: BlockV, later: int, ghost own: Arrays, ghost n: Node, ghost arrays: set<array<TxOutput>>, ghost linked: bool)
      returns (ok: bool)
      requires Valid() && block.Shows(v) && StandsFor(n, linked) && UTXOSet.Pending(block.Transactions, 0, v.txs, own)
      requires linked ==> Linked() && AllNew(block.Transactions, v.txs)
      requires UTXOSet.Cells.Keys <= arrays && forall j :: 0 <= j < |block.Transactions| ==> block.Transactions[j].Outputs in arrays
      requires BlockFault(env, n.chain, v, later) == None
      modifies `Blocks, `Chain, `Cells, `Txs, UTXOSet, arrays
      ensures Valid() && UTXOSet.Cells.Keys <= arrays
      ensures Blocks == (if ok then old(Blocks) + [block] else old(Blocks)) && Chain == if ok then n.chain + [v] else n.chain
      ensures (UTXOSet.Holding(), ok) == MountedHeld(env, n.chain, old(UTXOSet.Holding()), v, own, later)
      ensures linked ==> (State(), ok) == Mounted(env, n, v, later)
      ensures linked && (ok || UTXOSet.Content == n.ledger) ==> Linked()
    {
      ok := ConnectLinked(block, v, own, arrays, linked);
    }

    /** Mine the next block at the current difficulty and connect it. */
    method MineAndConnect(allTxs: seq<Transaction>, ghost vals: seq<TxV>, now: int, later: int,
                          ghost own: Arrays, ghost n: Node, ghost h: Held, ghost arrays: set<array<TxOutput>>, ghost linked: bool)
      returns (r: Option<Block>, ghost v: BlockV)
      requires Valid() && Hold(allTxs, vals) && own == OutputsOf(allTxs) && StandsFor(n, linked) && h == UTXOSet.Holding()
      requires linked ==> Linked() && AllNew(allTxs, vals)
      requires UTXOSet.Cells.Keys <= arrays && forall j :: 0 <= j < |allTxs| ==> allTxs[j].Outputs in arrays
      modifies `Blocks, `Chain, `Cells, `Txs, UTXOSet, arrays
      ensures Valid() && UTXOSet.Cells.Keys <= arrays
      ensures v == MinedBlock(env, BlockHeader(1, TipHash(n.chain), Root(env, Ids(vals)), now, n.bits, 0), vals)
      ensures r.None? ==> Blocks == old(Blocks) && Chain == n.chain
      ensures r.Some? ==> fresh(r.value) && Blocks == old(Blocks) + [r.value] && Chain == n.chain + [v]
      ensures (UTXOSet.Holding(), r.Some?) == MountedHeld(env, n.chain, h, v, own, later)
      ensures linked ==> (State(), r.Some?) == Mounted(env, n, v, later)
      ensures linked && (r.Some? || UTXOSet.Content == n.ledger) ==> Linked()
    {
      HoldIsPending(UTXOSet, allTxs, vals, own);
      r, v := NextBlock(allTxs, vals, now, later);
      assert linked ==> Linked() && AllNew(allTxs, vals);
      if r.Some? {
        var ok := Mount(r.value, v, later, own, n, arrays, linked);
        r := if ok then r else None;
      }
    }

    /** AddBlock once the transactions are verified. */
    method Extend(allTxs: seq<Transaction>, ghost vals: seq<TxV>, now: int, later: int,
                  ghost own: Arrays, ghost n: Node, ghost h: Held, ghost arrays: set<array<TxOutput>>, ghost linked: bool)
      returns (r: Option<Block>, ghost v: BlockV)
      requires Valid() && Hold(allTxs, vals) && own == OutputsOf(allTxs) && StandsFor(n, linked) && h == UTXOSet.Holding()
      requires linked ==> Linked() && AllNew(allTxs, vals)
      requires UTXOSet.Cells.Keys <= arrays && forall j :: 0 <= j < |allTxs| ==> allTxs[j].Outputs in arrays
      modifies `Blocks, `Chain, `Cells, `Txs, `DifficultyTarget, UTXOSet, arrays
      ensures Valid() && UTXOSet.Cells.Keys <= arrays
      ensures DifficultyTarget == Adjusted(n.bits, Times(n.chain))
      ensures v == MinedBlock(env, Template(env, n, vals, now), vals)
      ensures r.None? ==> Blocks == old(Blocks) && Chain == n.chain
      ensures r.Some? ==> fresh(r.value) && Blocks == old(Blocks) + [r.value] && Chain == n.chain + [v]
      ensures (UTXOSet.Holding(), r.Some?) == MountedHeld(env, n.chain, h, v, own, later)
      ensures linked ==> (State(), Answer(r.Some?, v)) == Extended(env, n, vals, now, later)
      ensures linked && (r.Some? || UTXOSet.Content == n.ledger) ==> Linked()
    {
      AdjustDifficulty();
      assert Valid() && Hold(allTxs, vals);
      assert BlockHeader(1, TipHash(n.chain), Root(env, Ids(vals)), now, DifficultyTarget, 0) == Template(env, n, vals, now);
      assert linked ==> Linked() && AllNew(allTxs, vals);
      r, v := MineAndConnect(allTxs, vals, now, later, own, n.(bits := DifficultyTarget), h, arrays, linked);
    }

    /** The transactions may be added with a coinbase for `miner`: fresh IDs, and output arrays that nothing else uses. */
    ghost predicate Submittable(txs: seq<Transaction>, vals: seq<TxV>, miner: Bytes)
      reads this, UTXOSet, txs, set t | t in txs :: t.Outputs
    {
      && |vals| == |txs|
      && UTXOSet.Waiting(txs, 0, vals)
      && (env.decodeAddress(miner).Some? ==>
            FreshTxs(UTXOSet.Recorded.Keys, [CoinbaseTx(env, env.decodeAddress(miner).value, BlockData(|Chain|), REWARD)] + vals))
    }

    lemma WithCoinbase(coinbase: Transaction, txs: seq<Transaction>, vals: seq<TxV>, miner: Bytes)
      requires Submittable(txs, vals, miner) && env.decodeAddress(miner).Some?
      requires coinbase.Value() == CoinbaseTx(env, env.decodeAddress(miner).value, BlockData(|Chain|), REWARD)
      requires coinbase.Outputs !in UTXOSet.Cells && forall t :: t in txs ==> t.Outputs != coinbase.Outputs
      ensures AllNew([coinbase] + txs, [coinbase.Value()] + vals)
    {
      var all, allVals := [coinbase] + txs, [coinbase.Value()] + vals;
      assert all[1..] == txs;
      assert Values(all) == allVals;
      forall j | 0 <= j < |all| ensures all[j].Outputs !in UTXOSet.Cells && all[j].Value() == allVals[j] {
        assert j > 0 ==> all[j] == txs[j - 1] && allVals[j] == vals[j - 1];
      }
      OwnArraysPrepend(coinbase, txs);
    }

    /** The outputs of the last block's transactions are still the original ones. */
    lemma LastBlockIntact()
      requires Valid() && Linked()
      requires Intact(UTXOSet.Content.recorded, Chain[|Chain| - 1].txs)
      ensures Blocks[|Blocks| - 1].Snapshot() == Chain[|Chain| - 1]
    {
    }

    /** What the block just added shows; while linked it still has its original outputs. */
    lemma AddedSnapshot(block: Block, v: BlockV, linked: bool)
      requires Valid() && Blocks[|Blocks| - 1] == block && Chain[|Chain| - 1] == v
      requires linked ==> Linked() && Intact(UTXOSet.Content.recorded, v.txs)
      ensures SameBlock(block.Snapshot(), v) && (linked ==> block.Snapshot() == v)
    {
      assert block.Shows(v);
      SnapshotOfShown(block, v);
      if linked {
        LastBlockIntact();
      }
    }

    /** Save the block just added. */
    method SaveAdded(block: Block, ghost v: BlockV, ghost disk: Option<Store>, ghost linked: bool) returns (ghost saved: BlockV)
      requires Valid() && disk == Disk() && Blocks[|Blocks| - 1] == block && Chain[|Chain| - 1] == v
      requires linked ==> Linked() && Intact(UTXOSet.Content.recorded, v.txs)
      modifies Storage
      ensures Valid() && (linked ==> Linked() && saved == v)
      ensures saved == block.Snapshot() && SameBlock(saved, v)
      ensures UTXOSet == old(UTXOSet) && (State(), UTXOSet.Holding(), Blocks) == old((State(), UTXOSet.Holding(), Blocks))
      ensures Disk() == DiskSaved(disk, saved, |Blocks|, DifficultyTarget)
    {
      AddedSnapshot(block, v, linked);
      saved := block.Snapshot();
      SaveBlockToDB(block, saved, linked);
    }

    /** Make the coinbase and verify the transactions. */
    method Prepare(transactions: seq<Transaction>, ghost vals: seq<TxV>, miner: Bytes, ghost n: Node, ghost linked: bool) returns (r: Outcome<Transaction>)
      requires Valid() && Shows(n) && Hold(transactions, vals) && (linked ==> Linked() && Submittable(transactions, vals, miner))
      ensures Valid() && Hold(transactions, vals) && (linked ==> Linked() && Submittable(transactions, vals, miner))
      ensures State() == old(State()) && UTXOSet.Holding() == old(UTXOSet.Holding())
      ensures r.Ok? <==> Attempted(env, n, miner, vals)
      ensures r.Panic? <==> env.decodeAddress(miner).Some? && VerifyTxs(env, n.ledger.recorded, vals).Panic?
      ensures r.Ok? ==> fresh(r.value) && fresh(r.value.Outputs)
      ensures r.Ok? ==> r.value.Value() == CoinbaseTx(env, env.decodeAddress(miner).value, BlockData(|Chain|), REWARD)
    {
      r := NewCoinbaseTx(env, miner, BlockData(|Blocks|), REWARD);
      if r.Ok? {
        var verified := VerifyAll(transactions, vals, n.ledger.recorded);
        if verified != Ok(true) {
          r := if verified.Panic? then Panic else Err;
        }
      }
    }

    /** AddBlock once the coinbase is made and the transactions are verified. */
    method GrowWith(coinbase: Transaction, transactions: seq<Transaction>, ghost vals: seq<TxV>, miner: Bytes, now: int, later: int,
                    ghost own: Arrays, ghost n: Node, ghost h: Held, ghost arrays: set<array<TxOutput>>, ghost linked: bool)
      returns (r: Option<Block>, ghost v: BlockV)
      requires Valid() && StandsFor(n, linked) && h == UTXOSet.Holding() && Hold(transactions, vals) && Attempted(env, n, miner, vals)
      requires own == [coinbase.Outputs] + OutputsOf(transactions)
      requires coinbase.Value() == CoinbaseTx(env, env.decodeAddress(miner).value, BlockData(|Chain|), REWARD)
      requires coinbase.Outputs !in UTXOSet.Cells && forall t :: t in transactions ==> t.Outputs != coinbase.Outputs
      requires linked ==> Linked() && Submittable(transactions, vals, miner)
      requires UTXOSet.Cells.Keys <= arrays && coinbase.Outputs in arrays
      requires forall j :: 0 <= j < |transactions| ==> transactions[j].Outputs in arrays
      modifies `Blocks, `Chain, `Cells, `Txs, `DifficultyTarget, UTXOSet, arrays
      ensures Valid() && UTXOSet.Cells.Keys <= arrays
      ensures r.None? ==> Blocks == old(Blocks) && Chain == n.chain
      ensures r.Some? ==> fresh(r.value) && Blocks == old(Blocks) + [r.value] && Chain == n.chain + [v]
      ensures DifficultyTarget == Adjusted(n.bits, Times(n.chain)) && v == Proposed(env, n, miner, vals, now)
      ensures (UTXOSet.Holding(), r.Some?) == MountedHeld(env, n.chain, h, v, own, later)
      ensures linked ==> (State(), Answer(r.Some?, v)) == Extended(env, n, AllOf(env, n, miner, vals), now, later)
      ensures linked && (r.Some? || UTXOSet.Content == n.ledger) ==> Linked()
    {
      if linked {
        WithCoinbase(coinbase, transactions, vals, miner);
      }
      assert OutputsOf([coinbase] + transactions) == own;
      r, v := Extend([coinbase] + transactions, [coinbase.Value()] + vals, now, later, own, n, h, arrays, linked);
    }

    method GrowVerified(coinbase: Transaction, transactions: seq<Transaction>, ghost vals: seq<TxV>, miner: Bytes, now: int, later: int,
                        ghost own: Arrays, ghost n: Node, ghost h: Held, ghost arrays: set<array<TxOutput>>, ghost linked: bool)
      returns (r: Option<Block>, ghost v: BlockV)
      requires Valid() && StandsFor(n, linked) && h == UTXOSet.Holding() && Hold(transactions, vals) && Attempted(env, n, miner, vals)
      requires own == [coinbase.Outputs] + OutputsOf(transactions)
      requires coinbase.Value() == CoinbaseTx(env, env.decodeAddress(miner).value, BlockData(|Chain|), REWARD)
      requires coinbase.Outputs !in UTXOSet.Cells && forall t :: t in transactions ==> t.Outputs != coinbase.Outputs
      requires linked ==> Linked() && Submittable(transactions, vals, miner)
      requires UTXOSet.Cells.Keys <= arrays && coinbase.Outputs in arrays
      requires forall j :: 0 <= j < |transactions| ==> transactions[j].Outputs in arrays
      modifies `Blocks, `Chain, `Cells, `Txs, `DifficultyTarget, UTXOSet, arrays
      ensures Valid() && UTXOSet.Cells.Keys <= arrays
      ensures if r.Some? then fresh(r.value) && Blocks == old(Blocks) + [r.value] else Blocks == old(Blocks)
      ensures v == Proposed(env, n, miner, vals, now)
      ensures (Chain, UTXOSet.Holding(), DifficultyTarget, r.Some?) == Attempt(env, n, h, vals, miner, now, later, own)
      ensures linked ==> (State(), Answer(r.Some?, v)) == Nodes.AddBlock(env, n, vals, miner, now, later)
      ensures linked && (r.Some? || UTXOSet.Content == n.ledger) ==> Linked()
    {
      AttemptIsMade(env, n, miner, vals, now, later);
      r, v := GrowWith(coinbase, transactions, vals, miner, now, later, own, n, h, arrays, linked);
    }

    /** AddBlock up to saving. */
    method Grow(transactions: seq<Transaction>, ghost vals: seq<TxV>, miner: Bytes, now: int, later: int,
                ghost outs: Arrays, ghost n: Node, ghost h: Held, ghost arrays: set<array<TxOutput>>, ghost linked: bool)
      returns (r: Outcome<Block>, ghost v: BlockV, ghost own: Arrays)
      requires Valid() && Shows(n) && Hold(transactions, vals) && outs == OutputsOf(transactions) && h == UTXOSet.Holding()
      requires linked ==> Linked() && n == State() && Submittable(transactions, vals, miner)
      requires UTXOSet.Cells.Keys <= arrays && forall j :: 0 <= j < |transactions| ==> transactions[j].Outputs in arrays
      modifies `Blocks, `Chain, `Cells, `Txs, `DifficultyTarget, UTXOSet, arrays
      ensures Valid()
      ensures forall a :: a in UTXOSet.Cells ==> a in arrays || fresh(a)
      ensures if r.Ok? then fresh(r.value) && Blocks == old(Blocks) + [r.value] else Blocks == old(Blocks)
      ensures r.Panic? <==> env.decodeAddress(miner).Some? && VerifyTxs(env, n.ledger.recorded, vals).Panic?
      ensures Attempted(env, n, miner, vals) ==> |own| > 0 && fresh(own[0]) && own == [own[0]] + outs && v == Proposed(env, n, miner, vals, now)
      ensures (Chain, UTXOSet.Holding(), DifficultyTarget, r.Ok?) == Attempt(env, n, h, vals, miner, now, later, own)
      ensures linked ==> (State(), Result(r, v)) == Nodes.AddBlock(env, n, vals, miner, now, later)
      ensures linked && (r.Ok? || UTXOSet.Content == n.ledger) ==> Linked()
      ensures linked && r.Ok? ==> Intact(UTXOSet.Content.recorded, v.txs)
    {
      var coinbase := Prepare(transactions, vals, miner, n, linked);
      v, own := n.chain[0], [];
      if !coinbase.Ok? {
        NotAttempted(env, n, miner, vals, now, later);
        return if coinbase.Err? then Err else Panic, v, own;
      }
      own := [coinbase.value.Outputs] + outs;
      var added;
      added, v := GrowVerified(coinbase.value, transactions, vals, miner, now, later, own, n, h, arrays + {coinbase.value.Outputs}, linked);
      r := if added.Some? then Ok(added.value) else Err;
      if linked && r.Ok? {
        AddedBlockIntact(env, n, vals, miner, now, later);
      }
    }

    /** Mine and add a block with these transactions. `n` is the node the object shows, `h` what its UTXO set holds and
        `disk` what is stored; the outcome on chain, entries, arrays and difficulty is that of `Attempt`. `linked` says
        that the aliasing invariant holds and the transactions are new: then the whole state moves as `Nodes.AddBlock`
        says, the invariant is kept, and what is saved is `v` itself. */
    method AddBlock(transactions: seq<Transaction>, ghost vals: seq<TxV>, miner: Bytes, now: int, later: int,
                    ghost outs: Arrays, ghost n: Node, ghost h: Held, ghost disk: Option<Store>, ghost arrays: set<array<TxOutput>>, ghost linked: bool)
      returns (r: Outcome<Block>, ghost v: BlockV, ghost saved: BlockV, ghost own: Arrays)
      requires Valid() && Shows(n) && Hold(transactions, vals) && outs == OutputsOf(transactions) && h == UTXOSet.Holding() && disk == Disk()
      requires linked ==> Linked() && n == State() && Submittable(transactions, vals, miner)
      requires UTXOSet.Cells.Keys <= arrays && forall j :: 0 <= j < |transactions| ==> transactions[j].Outputs in arrays
      modifies `Blocks, `Chain, `Cells, `Txs, `DifficultyTarget, UTXOSet, arrays, Storage
      ensures Valid()
      ensures forall a :: a in UTXOSet.Cells ==> a in arrays || fresh(a)
      ensures if r.Ok? then fresh(r.value) && Blocks == old(Blocks) + [r.value] else Blocks == old(Blocks)
      ensures r.Panic? <==> env.decodeAddress(miner).Some? && VerifyTxs(env, n.ledger.recorded, vals).Panic?
      ensures Attempted(env, n, miner, vals) ==> |own| > 0 && fresh(own[0]) && own == [own[0]] + outs && v == Proposed(env, n, miner, vals, now)
      ensures (Chain, UTXOSet.Holding(), DifficultyTarget, r.Ok?) == Attempt(env, n, h, vals, miner, now, later, own)
      ensures linked ==> (State(), Result(r, v)) == Nodes.AddBlock(env, n, vals, miner, now, later)
      ensures linked && (r.Ok? || UTXOSet.Content == n.ledger) ==> Linked()
      ensures Disk() == if r.Ok? then DiskSaved(disk, saved, |Blocks|, DifficultyTarget) else disk
      ensures r.Ok? ==> saved == r.value.Snapshot() && SameBlock(saved, v)
      ensures linked && r.Ok? ==> saved == v
    {
      r, v, own := Grow(transactions, vals, miner, now, later, outs, n, h, arrays, linked);
      saved := v;
      if r.Ok? {
        saved := SaveAdded(r.value, v, disk, linked);
      }
    }
  }

  /** What FindSpendableOutputs answers; `c` holds an order of the map and one of the result. */
  ghost predicate Found(env: Env, l: Ledger, from: Bytes, amount: int, c: Choice, found: Outcome<(int, map<Bytes, seq<nat>>)>)
  {
    && ChoiceFits(env, l, from, amount, c)
    && if env.decodeAddress(from).None? then found == Err
       else
         var sel := Select(l.live, c.entries, env.decodeAddress(from).value, amount);
         found == if sel.accumulated < amount then Err else Ok((sel.accumulated, Group(sel.picks)))
  }

  lemma SomePicks(env: Env, l: Ledger, entries: seq<Bytes>, from: Bytes, amount: int, found: Outcome<(int, map<Bytes, seq<nat>>)>)
    returns (picked: seq<Bytes>)
    requires Enumerates(entries, l.live)
    requires env.decodeAddress(from).None? ==> found == Err
    requires env.decodeAddress(from).Some? ==>
      var sel := Select(l.live, entries, env.decodeAddress(from).value, amount);
      found == if sel.accumulated < amount then Err else Ok((sel.accumulated, Group(sel.picks)))
    ensures Found(env, l, from, amount, Choice(entries, picked, 0), found)
  {
    picked := [];
    if env.decodeAddress(from).Some? {
      picked := SomeOrder(Group(Select(l.live, entries, env.decodeAddress(from).value, amount).picks));
    }
  }

  lemma CreatedIs(env: Env, l: Ledger, found: Outcome<(int, map<Bytes, seq<nat>>)>,
                  from: Bytes, to: Bytes, amount: int, w: Wallet, first: Choice, c: Choice)
    requires Found(env, l, from, amount, first, found)
    requires c.entries == first.entries && if found.Ok? then Enumerates(c.picked, found.value.1) else c.picked == first.picked
    ensures ChoiceFits(env, l, from, amount, c)
    ensures Created(env, l, from, to, amount, w, c) ==
      if found.Ok? then PaidWith(env, l.recorded, c.picked, found.value.1, found.value.0, from, to, amount, w, c.tape) else Err
  {
  }

  /** What is left of CreateTransaction once the coins are selected. */
  function PaidWith(env: Env, recorded: Prev, picked: seq<Bytes>, group: map<Bytes, seq<nat>>, accumulated: int,
                    from: Bytes, to: Bytes, amount: int, w: Wallet, tape: nat): Outcome<TxV>
    requires env.decodeAddress(from).Some? && forall j :: 0 <= j < |picked| ==> picked[j] in group
  {
    if env.decodeAddress(to).None? then Err
    else
      Unsubmitted(env, w, recorded, InputsFor(picked, group, w.publicKey),
        NewOutputs(env.decodeAddress(to).value, env.decodeAddress(from).value, amount, accumulated), tape)
  }

  lemma InputsForSplit(before: seq<TxInput>, keys: seq<Bytes>, n: nat, group: map<Bytes, seq<nat>>, pubKey: Bytes)
    requires n < |keys| && forall j :: 0 <= j < |keys| ==> keys[j] in group
    ensures before + InputsFor(keys[n..], group, pubKey) ==
      before + InputsOf(keys[n], group[keys[n]], pubKey) + InputsFor(keys[n + 1..], group, pubKey)
  {
    assert keys[n..][0] == keys[n] && keys[n..][1..] == keys[n + 1..];
  }

  lemma {:induction false} NotCoinbase(order: seq<Bytes>, group: map<Bytes, seq<nat>>, pubKey: Bytes)
    requires forall j :: 0 <= j < |order| ==> order[j] in group
    ensures !IsCoinbase(InputsFor(order, group, pubKey))
    ensures forall i :: 0 <= i < |InputsFor(order, group, pubKey)| ==> InputsFor(order, group, pubKey)[i].txid.Some?
    decreases |order|
  {
    if order != [] {
      NotCoinbase(order[1..], group, pubKey);
    }
  }
}
