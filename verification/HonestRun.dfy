/** Honest runs: what holds in every state of a node used as intended. */
module HonestRuns {
  import opened Prelude
  import opened ByteStrings
  import opened Crypto
  import opened Transactions
  import opened Ledgers
  import opened CoinSelection
  import opened Spending
  import opened Chains
  import opened Nodes

  /** Up to this height all the coins ever minted fit in an int64. */
  const MAX_HEIGHT: nat := 1_844_674_407

  /** ---------- The invariant ---------- */

  /** A live entry: not empty, positive values, and no two outputs for one owner. */
  predicate EntryOk(outputs: seq<TxOutput>) {
    && |outputs| > 0
    && (forall i :: 0 <= i < |outputs| ==> outputs[i].value > 0)
    && (forall i, j :: 0 <= i < j < |outputs| ==> outputs[i].pubKeyHash != outputs[j].pubKeyHash)
  }

  predicate LiveOk(live: Entries) {
    forall key :: key in live ==> EntryOk(live[key])
  }

  /** Nothing of transaction `id` is left for `owner`. */
  predicate Gone(live: Entries, id: Bytes, owner: Bytes) {
    id in live ==> forall k :: 0 <= k < |live[id]| ==> live[id][k].pubKeyHash != owner
  }

  /** An input that has been spent: it names a recorded transaction, which holds nothing for its key any more. */
  predicate InputSpent(env: Env, l: Ledger, input: TxInput) {
    input.txid.Some? && input.txid.value in l.recorded && Gone(l.live, input.txid.value, env.pubKeyHash(input.pubKey))
  }

  predicate SpendOk(env: Env, l: Ledger, inputs: seq<TxInput>) {
    |inputs| > 0 && forall j :: 0 <= j < |inputs| ==> InputSpent(env, l, inputs[j])
  }

  /** The data of the coinbase at height i. */
  function CoinbaseData(i: nat): Bytes {
    if i == 0 then GenesisData() else BlockData(i)
  }

  predicate MintedBelow(data: Bytes, height: nat) {
    exists i :: 0 <= i < height && data == CoinbaseData(i)
  }

  predicate TxOk(env: Env, bodies: set<TxBody>, height: nat, l: Ledger, t: TxV) {
    && t.id == env.txHash(Body(t))
    && Body(t) in bodies
    && if IsCoinbase(t.inputs) then MintedBelow(t.inputs[0].pubKey, height) else SpendOk(env, l, t.inputs)
  }

  predicate TxsOk(env: Env, bodies: set<TxBody>, height: nat, l: Ledger, txs: seq<TxV>) {
    forall i :: 0 <= i < |txs| ==> TxOk(env, bodies, height, l, txs[i])
  }

  /** The IDs are pairwise distinct, and exactly they have recorded outputs. */
  ghost predicate RecordsOk(txs: seq<TxV>, recorded: map<Bytes, seq<TxOutput>>) {
    && (forall i, j :: 0 <= i < j < |txs| ==> txs[i].id != txs[j].id)
    && (forall i :: 0 <= i < |txs| ==> txs[i].id in recorded)
    && (forall id :: id in recorded ==> exists i :: 0 <= i < |txs| && txs[i].id == id)
  }

  ghost predicate LedgerInv(env: Env, bodies: set<TxBody>, height: nat, txs: seq<TxV>, l: Ledger) {
    && Aliased(l)
    && LiveOk(l.live)
    && RecordsOk(txs, l.recorded)
    && TxsOk(env, bodies, height, l, txs)
  }

  /** The run invariant. `bodies` are the transaction bodies hashed during the run. */
  ghost predicate Inv(env: Env, bodies: set<TxBody>, n: Node) {
    && ChainOk(env, n.chain)
    && LedgerInv(env, bodies, |n.chain|, AllTxs(n.chain), n.ledger)
    && Total(n.ledger.live, Everyone) == REWARD * |n.chain|
    && n.ledger == Replay(EMPTY, AllTxs(n.chain))
  }

  /** No two of the bodies hashed in the run have the same hash. */
  ghost predicate NoTxCollision(env: Env, bodies: set<TxBody>) {
    forall a, b :: a in bodies && b in bodies && env.txHash(a) == env.txHash(b) ==> a == b
  }

  /** ---------- A new coinbase ---------- */

  lemma CoinbaseIsFresh(env: Env, bodies: set<TxBody>, height: nat, txs: seq<TxV>, l: Ledger, owner: Bytes)
    requires LedgerInv(env, bodies, height, txs, l) && NoTxCollision(env, bodies) && height > 0
    requires Body(CoinbaseTx(env, owner, BlockData(height), REWARD)) in bodies
    ensures CoinbaseTx(env, owner, BlockData(height), REWARD).id !in l.recorded
  {
    var cb := CoinbaseTx(env, owner, BlockData(height), REWARD);
    assert Unsigned(cb.inputs) == cb.inputs;
    forall i | 0 <= i < |txs| ensures txs[i].id != cb.id {
      assert TxOk(env, bodies, height, l, txs[i]);
      CoinbaseDiffers(env, height, l, txs[i], cb);
    }
  }

  lemma CoinbaseDiffers(env: Env, height: nat, l: Ledger, t: TxV, cb: TxV)
    requires height > 0 && |cb.inputs| == 1 && cb.inputs[0] == TxInput(None, -1, [], BlockData(height))
    requires if IsCoinbase(t.inputs) then MintedBelow(t.inputs[0].pubKey, height) else SpendOk(env, l, t.inputs)
    ensures Unsigned(t.inputs) != Unsigned(cb.inputs)
  {
    assert Unsigned(cb.inputs)[0] == cb.inputs[0];
    assert Unsigned(t.inputs)[0] == t.inputs[0].(signature := []);
    if IsCoinbase(t.inputs) {
      var i :| 0 <= i < height && t.inputs[0].pubKey == CoinbaseData(i);
      BlockDataInjective(height, i);
    } else {
      assert InputSpent(env, l, t.inputs[0]);
    }
  }

  /** Adding a transaction with a fresh ID disturbs no earlier one. */
  lemma AddKeepsTxs(env: Env, bodies: set<TxBody>, height: nat, txs: seq<TxV>, l: Ledger, id: Bytes, outputs: seq<TxOutput>)
    requires TxsOk(env, bodies, height, l, txs) && id !in l.recorded
    ensures TxsOk(env, bodies, height, Add(l, id, outputs), txs)
  {
    var l' := Add(l, id, outputs);
    forall i | 0 <= i < |txs| ensures TxOk(env, bodies, height, l', txs[i]) {
      assert TxOk(env, bodies, height, l, txs[i]);
      if !IsCoinbase(txs[i].inputs) {
        forall j | 0 <= j < |txs[i].inputs| ensures InputSpent(env, l', txs[i].inputs[j]) {
          assert InputSpent(env, l, txs[i].inputs[j]);
        }
      }
    }
  }

  lemma AddKeepsRecords(txs: seq<TxV>, recorded: map<Bytes, seq<TxOutput>>, t: TxV, outputs: seq<TxOutput>)
    requires RecordsOk(txs, recorded) && t.id !in recorded
    ensures RecordsOk(txs + [t], recorded[t.id := outputs])
  {
    var txs', recorded' := txs + [t], recorded[t.id := outputs];
    forall id | id in recorded' ensures exists i :: 0 <= i < |txs'| && txs'[i].id == id {
      if id == t.id {
        assert txs'[|txs|].id == id;
      } else {
        var i :| 0 <= i < |txs| && txs[i].id == id;
        assert txs'[i].id == id;
      }
    }
  }

  lemma HigherKeepsTxs(env: Env, bodies: set<TxBody>, height: nat, l: Ledger, txs: seq<TxV>)
    requires TxsOk(env, bodies, height, l, txs)
    ensures TxsOk(env, bodies, height + 1, l, txs)
  {
    forall i | 0 <= i < |txs| ensures TxOk(env, bodies, height + 1, l, txs[i]) {
      assert TxOk(env, bodies, height, l, txs[i]);
    }
  }

  lemma CoinbaseKeepsInv(env: Env, bodies: set<TxBody>, height: nat, txs: seq<TxV>, l: Ledger, owner: Bytes)
    requires LedgerInv(env, bodies, height, txs, l) && NoTxCollision(env, bodies) && height > 0
    requires Body(CoinbaseTx(env, owner, BlockData(height), REWARD)) in bodies
    ensures var cb := CoinbaseTx(env, owner, BlockData(height), REWARD);
      cb.id !in l.recorded && LedgerInv(env, bodies, height + 1, txs + [cb], Add(l, cb.id, cb.outputs))
  {
    var cb := CoinbaseTx(env, owner, BlockData(height), REWARD);
    CoinbaseIsFresh(env, bodies, height, txs, l, owner);
    CoinbaseEntry(l, cb.id, cb.outputs);
    var l' := Add(l, cb.id, cb.outputs);
    AddKeepsTxs(env, bodies, height, txs, l, cb.id, cb.outputs);
    HigherKeepsTxs(env, bodies, height, l', txs);
    AddKeepsRecords(txs, l.recorded, cb, cb.outputs);
    CoinbaseIsOk(env, bodies, height, l', owner);
  }

  lemma CoinbaseEntry(l: Ledger, id: Bytes, outputs: seq<TxOutput>)
    requires Aliased(l) && LiveOk(l.live) && EntryOk(outputs)
    ensures Aliased(Add(l, id, outputs)) && LiveOk(Add(l, id, outputs).live)
  {
  }

  lemma CoinbaseIsOk(env: Env, bodies: set<TxBody>, height: nat, l: Ledger, owner: Bytes)
    requires Body(CoinbaseTx(env, owner, BlockData(height), REWARD)) in bodies && height > 0
    ensures TxOk(env, bodies, height + 1, l, CoinbaseTx(env, owner, BlockData(height), REWARD))
  {
    var cb := CoinbaseTx(env, owner, BlockData(height), REWARD);
    assert Unsigned(cb.inputs) == cb.inputs;
    assert BlockData(height) == CoinbaseData(height);
    assert MintedBelow(cb.inputs[0].pubKey, height + 1);
  }

  /** ---------- A new payment ---------- */

  /** Removal leaves a sublist of every entry. */
  lemma RemovedKeepsGone(live: Entries, live': Entries, m: Spent, id: Bytes, owner: Bytes)
    requires AllSpendable(live, m) && Removed(live, live', m) && Gone(live, id, owner)
    ensures Gone(live', id, owner)
  {
  }

  lemma RemovedMakesGone(live: Entries, live': Entries, m: Spent, id: Bytes, owner: Bytes)
    requires AllSpendable(live, m) && Removed(live, live', m) && LiveOk(live)
    requires id in m && live[id][m[id]].pubKeyHash == owner
    ensures Gone(live', id, owner)
  {
    if id in live' {
      var k := m[id];
      forall j | 0 <= j < |live'[id]| ensures live'[id][j].pubKeyHash != owner {
        assert live'[id][j] == live[id][if j < k then j else j + 1];
        assert EntryOk(live[id]);
      }
    }
  }

  lemma RemovedKeepsLiveOk(live: Entries, live': Entries, m: Spent)
    requires AllSpendable(live, m) && Removed(live, live', m) && LiveOk(live)
    ensures LiveOk(live')
  {
    forall key | key in live' ensures EntryOk(live'[key]) {
      assert EntryOk(live[key]);
      if key in m {
        RemoveKeepsEntryOk(live[key], m[key]);
      }
    }
  }

  lemma RemoveKeepsEntryOk(outputs: seq<TxOutput>, k: nat)
    requires EntryOk(outputs) && k < |outputs| && |outputs| > 1
    ensures EntryOk(RemoveAt(outputs, k))
  {
  }

  lemma RemovedKeepsTxs(env: Env, bodies: set<TxBody>, height: nat, txs: seq<TxV>, l: Ledger, l': Ledger, m: Spent)
    requires TxsOk(env, bodies, height, l, txs)
    requires AllSpendable(l.live, m) && Removed(l.live, l'.live, m) && l'.recorded.Keys == l.recorded.Keys
    ensures TxsOk(env, bodies, height, l', txs)
  {
    forall i | 0 <= i < |txs| ensures TxOk(env, bodies, height, l', txs[i]) {
      assert TxOk(env, bodies, height, l, txs[i]);
      if !IsCoinbase(txs[i].inputs) {
        forall j | 0 <= j < |txs[i].inputs| ensures InputSpent(env, l', txs[i].inputs[j]) {
          var input := txs[i].inputs[j];
          assert InputSpent(env, l, input);
          RemovedKeepsGone(l.live, l'.live, m, input.txid.value, env.pubKeyHash(input.pubKey));
        }
      }
    }
  }

  /** A payment as CreateTransaction builds it from the picks, already signed. */
  ghost predicate PaymentFrom(env: Env, l: Ledger, owner: Bytes, pubKey: Bytes, picks: seq<Outpoint>, order: seq<Bytes>, t: TxV) {
    && picks != [] && OnePerTx(picks) && PicksOk(l.live, owner, picks)
    && Singles(Group(picks)) && Enumerates(order, Group(picks))
    && owner == env.pubKeyHash(pubKey)
    && Unsigned(t.inputs) == InputsFor(order, Group(picks), pubKey)
    && t.id == env.txHash(Body(t))
  }

  lemma PaymentInputs(env: Env, l: Ledger, owner: Bytes, pubKey: Bytes, picks: seq<Outpoint>, order: seq<Bytes>, t: TxV)
    requires PaymentFrom(env, l, owner, pubKey, picks, order, t)
    ensures |t.inputs| == |order| > 0 && !IsCoinbase(t.inputs)
    ensures forall j :: 0 <= j < |order| ==> order[j] in Group(picks)
    ensures forall j :: 0 <= j < |order| ==>
      t.inputs[j].(signature := []) == TxInput(Some(order[j]), Group(picks)[order[j]][0], [], pubKey)
    ensures RemoveInputs(l, t.inputs) == RemoveInputs(l, InputsFor(order, Group(picks), pubKey))
  {
    SingleInputs(order, Group(picks), pubKey);
    var inputs := InputsFor(order, Group(picks), pubKey);
    GroupSingle(picks, 0);
    assert picks[0].0 in order;
    forall j | 0 <= j < |order|
      ensures t.inputs[j].(signature := []) == inputs[j]
    {
      assert Unsigned(t.inputs)[j] == inputs[j];
    }
    SignaturesDoNotMatter(l, t.inputs, inputs);
  }

  /** The ID of a payment is new: its first input names a transaction that still holds an output for
      its key, while whatever is on the chain has spent what its inputs named. */
  lemma PaymentIsFresh(env: Env, bodies: set<TxBody>, height: nat, txs: seq<TxV>, l: Ledger,
                       owner: Bytes, pubKey: Bytes, picks: seq<Outpoint>, order: seq<Bytes>, t: TxV)
    requires LedgerInv(env, bodies, height, txs, l) && NoTxCollision(env, bodies)
    requires PaymentFrom(env, l, owner, pubKey, picks, order, t) && Body(t) in bodies
    ensures t.id !in l.recorded
  {
    PaymentInputs(env, l, owner, pubKey, picks, order, t);
    PicksAreSpendable(l.live, owner, picks);
    assert !Gone(l.live, order[0], owner) by {
      assert l.live[order[0]][SpentOf(Group(picks))[order[0]]].pubKeyHash == owner;
    }
    forall i | 0 <= i < |txs| ensures txs[i].id != t.id {
      assert TxOk(env, bodies, height, l, txs[i]);
      PaymentDiffers(env, l, txs[i], t, owner);
    }
  }

  lemma PaymentDiffers(env: Env, l: Ledger, earlier: TxV, t: TxV, owner: Bytes)
    requires |t.inputs| > 0 && t.inputs[0].txid.Some? && owner == env.pubKeyHash(t.inputs[0].pubKey)
    requires !Gone(l.live, t.inputs[0].txid.value, owner)
    requires IsCoinbase(earlier.inputs) || SpendOk(env, l, earlier.inputs)
    ensures Unsigned(earlier.inputs) != Unsigned(t.inputs)
  {
    assert Unsigned(t.inputs)[0] == t.inputs[0].(signature := []);
    if |earlier.inputs| > 0 {
      assert Unsigned(earlier.inputs)[0] == earlier.inputs[0].(signature := []);
      if !IsCoinbase(earlier.inputs) {
        assert InputSpent(env, l, earlier.inputs[0]);
      }
    }
  }

  /** Applying a payment keeps the invariant, and moves the picks out of the owner's balance
      and the new outputs in. */
  lemma PaymentKeepsInv(env: Env, bodies: set<TxBody>, height: nat, txs: seq<TxV>, l: Ledger,
                        owner: Bytes, pubKey: Bytes, picks: seq<Outpoint>, order: seq<Bytes>, t: TxV)
    requires LedgerInv(env, bodies, height, txs, l) && NoTxCollision(env, bodies)
    requires PaymentFrom(env, l, owner, pubKey, picks, order, t) && Body(t) in bodies && EntryOk(t.outputs)
    ensures Update(l, t).1 && t.id !in l.recorded
    ensures LedgerInv(env, bodies, height, txs + [t], Update(l, t).0)
  {
    PaymentIsFresh(env, bodies, height, txs, l, owner, pubKey, picks, order, t);
    PaymentRemoves(env, bodies, height, txs, l, owner, pubKey, picks, order, t);
    PaymentTxOk(env, bodies, height, txs, l, owner, pubKey, picks, order, t);
    UpdateKeepsAliased(l, t);
    AddedKeepsInv(env, bodies, height, txs, RemoveInputs(l, t.inputs).0, t);
  }

  /** Taking out the inputs keeps everything but the accounting of the new transaction. */
  lemma PaymentRemoves(env: Env, bodies: set<TxBody>, height: nat, txs: seq<TxV>, l: Ledger,
                       owner: Bytes, pubKey: Bytes, picks: seq<Outpoint>, order: seq<Bytes>, t: TxV)
    requires LedgerInv(env, bodies, height, txs, l)
    requires PaymentFrom(env, l, owner, pubKey, picks, order, t)
    ensures !IsCoinbase(t.inputs) && RemoveInputs(l, t.inputs).1
    ensures var l1 := RemoveInputs(l, t.inputs).0;
      LiveOk(l1.live) && RecordsOk(txs, l1.recorded) && TxsOk(env, bodies, height, l1, txs) &&
      l1.recorded.Keys == l.recorded.Keys
  {
    PaymentInputs(env, l, owner, pubKey, picks, order, t);
    SpendPicks(l, owner, picks, order, pubKey, Everyone);
    var m, l1 := SpentOf(Group(picks)), RemoveInputs(l, t.inputs).0;
    RemovedKeepsLiveOk(l.live, l1.live, m);
    RecordsSameKeys(txs, l.recorded, l1.recorded);
    RemovedKeepsTxs(env, bodies, height, txs, l, l1, m);
  }

  lemma AddedKeepsInv(env: Env, bodies: set<TxBody>, height: nat, txs: seq<TxV>, l: Ledger, t: TxV)
    requires LiveOk(l.live) && RecordsOk(txs, l.recorded) && TxsOk(env, bodies, height, l, txs)
    requires t.id !in l.recorded && EntryOk(t.outputs)
    requires Aliased(Add(l, t.id, t.outputs)) && TxOk(env, bodies, height, Add(l, t.id, t.outputs), t)
    ensures LedgerInv(env, bodies, height, txs + [t], Add(l, t.id, t.outputs))
  {
    AddKeepsRecords(txs, l.recorded, t, t.outputs);
    AddKeepsTxs(env, bodies, height, txs, l, t.id, t.outputs);
  }

  lemma RecordsSameKeys(txs: seq<TxV>, a: map<Bytes, seq<TxOutput>>, b: map<Bytes, seq<TxOutput>>)
    requires RecordsOk(txs, a) && a.Keys == b.Keys
    ensures RecordsOk(txs, b)
  {
    forall id | id in b ensures exists i :: 0 <= i < |txs| && txs[i].id == id { assert id in a; }
  }

  lemma PaymentTxOk(env: Env, bodies: set<TxBody>, height: nat, txs: seq<TxV>, l: Ledger,
                    owner: Bytes, pubKey: Bytes, picks: seq<Outpoint>, order: seq<Bytes>, t: TxV)
    requires LedgerInv(env, bodies, height, txs, l) && t.id !in l.recorded
    requires PaymentFrom(env, l, owner, pubKey, picks, order, t) && Body(t) in bodies
    ensures TxOk(env, bodies, height, Update(l, t).0, t)
  {
    PaymentInputs(env, l, owner, pubKey, picks, order, t);
    SpendPicks(l, owner, picks, order, pubKey, Everyone);
    PicksAreSpendable(l.live, owner, picks);
    var m, l1, l2 := SpentOf(Group(picks)), RemoveInputs(l, t.inputs).0, Update(l, t).0;
    forall j | 0 <= j < |t.inputs| ensures InputSpent(env, l2, t.inputs[j]) {
      var id := t.inputs[j].txid.value;
      assert id == order[j] && id in m && id in l.live && id in l.recorded;
      RemovedMakesGone(l.live, l1.live, m, id, owner);
    }
  }

  lemma PaymentMoves(env: Env, l: Ledger, owner: Bytes, pubKey: Bytes, picks: seq<Outpoint>, order: seq<Bytes>, t: TxV, who: Who)
    requires Aliased(l) && PaymentFrom(env, l, owner, pubKey, picks, order, t) && t.id !in l.recorded
    ensures Total(Update(l, t).0.live, who) == Total(l.live, who) + Sum(t.outputs, who)
      - (if who.Everyone? || who.pubKeyHash == owner then PicksValue(l.live, owner, picks) else 0)
  {
    PaymentInputs(env, l, owner, pubKey, picks, order, t);
    SpendPicks(l, owner, picks, order, pubKey, who);
    var l1 := RemoveInputs(l, t.inputs).0;
    TotalInsert(l1.live, t.id, t.outputs, who);
  }
}
