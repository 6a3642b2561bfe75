/** Applying the same signed transaction twice: exactly when the second time goes through. */
module DoubleSpending {
  import opened Prelude
  import opened ByteStrings
  import opened Crypto
  import opened Transactions
  import opened Ledgers
  import opened Removals
  import opened Nodes
  import opened HonestRuns

  /** ---------- The second time ---------- */

  /** Of `key`, behind everything the transaction takes there is as much again in reach. */
  predicate ReachesAgain(l: Ledger, inputs: seq<TxInput>, key: Bytes) {
    Reaches(|Entry(l.live, key)| - |Indices(inputs, key)|, Indices(inputs, key))
  }

  lemma InputsAreLive(l: Ledger, inputs: seq<TxInput>, j: nat)
    requires AllReach(l.live, inputs) && j < |inputs|
    ensures Spendable(l, Key(inputs[j].txid), inputs[j].outIndex)
    ensures Reaches(|l.live[Key(inputs[j].txid)]|, Indices(inputs, Key(inputs[j].txid)))
  {
    IndexListed(inputs, j);
    assert Reaches(|Entry(l.live, Key(inputs[j].txid))|, Indices(inputs, Key(inputs[j].txid)));
  }

  /** The lock that input j meets once the transaction has been applied: that of the output now at its index; where
      there is none any more, that of the stale copy of what was last in the entry when it was still so long. */
  ghost function NextLock(l: Ledger, inputs: seq<TxInput>, j: nat): Bytes
    requires j < |inputs| && AllReach(l.live, inputs)
  {
    InputsAreLive(l, inputs, j);
    var key := Key(inputs[j].txid);
    Shown(l.live[key], Indices(inputs, key), inputs[j].outIndex).pubKeyHash
  }

  /** What an applied transaction has taken. */
  lemma AppliedReaches(l: Ledger, t: TxV)
    requires !IsCoinbase(t.inputs) && Update(l, t).1
    ensures AllReach(l.live, t.inputs)
    ensures forall key :: key != t.id ==> Entry(Update(l, t).0.live, key) == TakeAll(Entry(l.live, key), Indices(t.inputs, key))
  {
    InputsSpend(l, t.inputs);
  }

  /** After the application: what each input meets. */
  lemma MeetsNext(l: Ledger, t: TxV, j: nat)
    requires Aliased(l) && !IsCoinbase(t.inputs) && !NamesTx(t.inputs, t.id)
    requires Update(l, t).1 && j < |t.inputs|
    ensures AllReach(l.live, t.inputs) && Spendable(l, Key(t.inputs[j].txid), t.inputs[j].outIndex)
    ensures InRange(t.inputs[j], Update(l, t).0.recorded)
    ensures LockOf(t.inputs[j], Update(l, t).0.recorded) == NextLock(l, t.inputs, j)
  {
    var key, p := Key(t.inputs[j].txid), t.inputs[j].outIndex;
    AppliedReaches(l, t);
    InputsAreLive(l, t.inputs, j);
    InputsSplice(l, t.inputs);
    assert SplicedAt(l, RemoveInputs(l, t.inputs).0, t.inputs, key);
    SpliceAllShows(l.recorded[key], l.live[key], Indices(t.inputs, key), p);
  }

  /** The signature of input j is one for the digest with the given lock. */
  predicate SignedFor(env: Env, t: TxV, j: nat, lock: Bytes)
    requires j < |t.inputs|
  {
    VerifySignature(env, t.inputs[j].pubKey, Digest(env, t.inputs, t.outputs, j, lock), t.inputs[j].signature)
  }

  /** Exactly when a transaction that has just been applied can be applied once more, whatever its inputs: if and only
      if of every transaction it spends from, what is left can take the same indices again. */
  lemma SecondSpend(l: Ledger, t: TxV)
    requires !IsCoinbase(t.inputs) && !NamesTx(t.inputs, t.id) && Update(l, t).1
    ensures Update(Update(l, t).0, t).1 <==> forall key :: NamesTx(t.inputs, key) ==> ReachesAgain(l, t.inputs, key)
  {
    var l' := Update(l, t).0;
    AppliedReaches(l, t);
    InputsSpend(l', t.inputs);
    forall key ensures Reaches(|Entry(l'.live, key)|, Indices(t.inputs, key)) <==>
      (NamesTx(t.inputs, key) ==> ReachesAgain(l, t.inputs, key))
    {
      IndicesNamed(t.inputs, key);
      assert Reaches(|Entry(l.live, key)|, Indices(t.inputs, key));
    }
  }

  /** Exactly when verification lets it through a second time: if and only if each signature is good for the lock that
      its input meets then. */
  lemma SecondVerified(env: Env, l: Ledger, t: TxV)
    requires Aliased(l) && !IsCoinbase(t.inputs) && !NamesTx(t.inputs, t.id) && Update(l, t).1
    ensures forall j :: 0 <= j < |t.inputs| ==> Spendable(l, Key(t.inputs[j].txid), t.inputs[j].outIndex)
    ensures AllReach(l.live, t.inputs)
    ensures Verified(env, t.inputs, t.outputs, Update(l, t).0.recorded) == Ok(true) <==>
      forall j :: 0 <= j < |t.inputs| ==> SignedFor(env, t, j, NextLock(l, t.inputs, j))
  {
    var l' := Update(l, t).0;
    AppliedReaches(l, t);
    forall j: nat | j < |t.inputs|
      ensures Spendable(l, Key(t.inputs[j].txid), t.inputs[j].outIndex)
      ensures SignatureGood(env, t.inputs, t.outputs, l'.recorded, j) <==> SignedFor(env, t, j, NextLock(l, t.inputs, j))
      ensures Key(t.inputs[j].txid) in l'.recorded
    {
      MeetsNext(l, t, j);
    }
    VerifyFromSound(env, t.inputs, t.outputs, l'.recorded, 0);
  }

  /** Input j meets the same lock the first and the second time. */
  ghost predicate SameLock(l: Ledger, inputs: seq<TxInput>, j: nat)
    requires j < |inputs| && AllReach(l.live, inputs)
  {
    InputsAreLive(l, inputs, j);
    NextLock(l, inputs, j) == l.live[Key(inputs[j].txid)][inputs[j].outIndex].pubKeyHash
  }

  /** So a transaction that verifies does so again after it has been applied, if every input meets the lock it met
      before; and where nothing is left to take it verifies again too, and only the removal refuses it. */
  lemma SameLocksVerifyAgain(env: Env, l: Ledger, t: TxV)
    requires Aliased(l) && !IsCoinbase(t.inputs) && !NamesTx(t.inputs, t.id)
    requires Update(l, t).1 && Verified(env, t.inputs, t.outputs, l.recorded) == Ok(true)
    requires AllReach(l.live, t.inputs)
    requires forall j :: 0 <= j < |t.inputs| ==> SameLock(l, t.inputs, j)
    ensures Verified(env, t.inputs, t.outputs, Update(l, t).0.recorded) == Ok(true)
  {
    SecondVerified(env, l, t);
    forall j | 0 <= j < |t.inputs| ensures InRange(t.inputs[j], l.recorded)
      ensures LockOf(t.inputs[j], l.recorded) == NextLock(l, t.inputs, j)
    {
      assert SameLock(l, t.inputs, j);
      InputsAreLive(l, t.inputs, j);
    }
    VerifyFromSound(env, t.inputs, t.outputs, l.recorded, 0);
    forall j | 0 <= j < |t.inputs| ensures SignedFor(env, t, j, NextLock(l, t.inputs, j)) {
      assert SignatureGood(env, t.inputs, t.outputs, l.recorded, j);
    }
  }

  /** ---------- Inputs of different transactions ---------- */

  /** No two inputs name the same transaction. */
  predicate DistinctKeys(inputs: seq<TxInput>) {
    forall i, j :: 0 <= i < j < |inputs| ==> Key(inputs[i].txid) != Key(inputs[j].txid)
  }

  predicate AllInputsLive(l: Ledger, inputs: seq<TxInput>) {
    forall j :: 0 <= j < |inputs| ==> Spendable(l, Key(inputs[j].txid), inputs[j].outIndex)
  }

  /** Behind the output that input j spends there is another one in the same entry. */
  predicate HasNext(l: Ledger, input: TxInput) {
    Spendable(l, Key(input.txid), input.outIndex + 1)
  }

  lemma {:induction false} OneIndex(inputs: seq<TxInput>, j: nat)
    requires DistinctKeys(inputs) && j < |inputs|
    ensures Indices(inputs, Key(inputs[j].txid)) == [inputs[j].outIndex]
    decreases |inputs|
  {
    var key := Key(inputs[j].txid);
    if j == 0 {
      IndicesNamed(inputs[1..], key);
      assert !NamesTx(inputs[1..], key);
    } else {
      assert inputs[1..][j - 1] == inputs[j];
      OneIndex(inputs[1..], j - 1);
    }
  }

  /** Output k, and no other, has been taken out of the entry. */
  predicate TookOne(l: Ledger, l': Ledger, key: Bytes, k: int) {
    Spendable(l, key, k) && Entry(l'.live, key) == RemoveAt(l.live[key], k)
  }

  /** Inputs of different transactions do not get in each other's way. */
  lemma DistinctInputs(l: Ledger, inputs: seq<TxInput>)
    requires DistinctKeys(inputs)
    ensures RemoveInputs(l, inputs).1 <==> AllInputsLive(l, inputs)
    ensures RemoveInputs(l, inputs).1 ==> forall j :: 0 <= j < |inputs| ==>
      TookOne(l, RemoveInputs(l, inputs).0, Key(inputs[j].txid), inputs[j].outIndex)
  {
    InputsSpend(l, inputs);
    if AllReach(l.live, inputs) {
      forall j | 0 <= j < |inputs|
        ensures Spendable(l, Key(inputs[j].txid), inputs[j].outIndex)
        ensures TookOne(l, RemoveInputs(l, inputs).0, Key(inputs[j].txid), inputs[j].outIndex)
      {
        InputsAreLive(l, inputs, j);
        OneIndex(inputs, j);
        ShownOne(l.live[Key(inputs[j].txid)], inputs[j].outIndex);
      }
    }
    if AllInputsLive(l, inputs) {
      forall key ensures Reaches(|Entry(l.live, key)|, Indices(inputs, key)) {
        IndicesNamed(inputs, key);
        if NamesTx(inputs, key) {
          var j :| 0 <= j < |inputs| && Key(inputs[j].txid) == key;
          OneIndex(inputs, j);
          assert Spendable(l, key, inputs[j].outIndex);
        }
      }
    }
  }

  /** Then the second application goes through if and only if behind every output spent there is another one, and the
      lock each input meets is that of this one, or of the output just spent if there is none. */
  lemma SecondSpendDistinct(l: Ledger, t: TxV)
    requires Aliased(l) && !IsCoinbase(t.inputs) && DistinctKeys(t.inputs) && !NamesTx(t.inputs, t.id) && Update(l, t).1
    ensures AllInputsLive(l, t.inputs) && AllReach(l.live, t.inputs)
    ensures Update(Update(l, t).0, t).1 <==> forall j :: 0 <= j < |t.inputs| ==> HasNext(l, t.inputs[j])
    ensures forall j :: 0 <= j < |t.inputs| ==>
      var entry, k := l.live[Key(t.inputs[j].txid)], t.inputs[j].outIndex;
      NextLock(l, t.inputs, j) == entry[if HasNext(l, t.inputs[j]) then k + 1 else k].pubKeyHash
  {
    SecondSpend(l, t);
    DistinctInputs(l, t.inputs);
    AppliedReaches(l, t);
    forall j | 0 <= j < |t.inputs|
      ensures ReachesAgain(l, t.inputs, Key(t.inputs[j].txid)) <==> HasNext(l, t.inputs[j])
      ensures NextLock(l, t.inputs, j) ==
        l.live[Key(t.inputs[j].txid)][if HasNext(l, t.inputs[j]) then t.inputs[j].outIndex + 1 else t.inputs[j].outIndex].pubKeyHash
    {
      InputsAreLive(l, t.inputs, j);
      OneIndex(t.inputs, j);
      ShownOne(l.live[Key(t.inputs[j].txid)], t.inputs[j].outIndex);
    }
    if forall j :: 0 <= j < |t.inputs| ==> HasNext(l, t.inputs[j]) {
      forall key | NamesTx(t.inputs, key) ensures ReachesAgain(l, t.inputs, key) {
        var j :| 0 <= j < |t.inputs| && Key(t.inputs[j].txid) == key;
        assert HasNext(l, t.inputs[j]);
      }
    }
    forall j | 0 <= j < |t.inputs| ensures NamesTx(t.inputs, Key(t.inputs[j].txid)) { }
  }

  lemma ShownOne<T>(s: seq<T>, k: nat)
    requires k < |s|
    ensures Reaches(|s|, [k]) && Shown(s, [k], k) == if k + 1 < |s| then s[k + 1] else s[k]
    ensures TakeAll(s, [k]) == RemoveAt(s, k)
    ensures Reaches(|s| - 1, [k]) <==> k + 1 < |s|
  {
    var ks: seq<int> := [k];
    assert ks[0] == k;
    ReachesTail(|s|, ks);
    ReachesTail(|s| - 1, ks);
    assert ks[1..] == [] && ks[..0] == [];
    assert TakeAll(s, ks) == RemoveAt(s, k);
  }

  /** Three equal outputs, the last two of which are spent in descending order: behind each there is another one when
      the spend begins, and still it does not go through again. */
  lemma HasNextIsNotEnough(id: Bytes, o: TxOutput, t: TxV)
    requires |t.inputs| == 2 && t.inputs[0].txid == Some(id) && t.inputs[1].txid == Some(id) && t.id != id
    requires t.inputs[0].outIndex == 1 && t.inputs[1].outIndex == 0
    ensures var l := Add(EMPTY, id, [o, o, o]);
      Update(l, t).1 && HasNext(l, t.inputs[0]) && HasNext(l, t.inputs[1]) && !Update(Update(l, t).0, t).1
  {
    var l := Add(EMPTY, id, [o, o, o]);
    PairIndices(t.inputs, id);
    InputsSpend(l, t.inputs);
    forall key ensures Reaches(|Entry(l.live, key)|, Indices(t.inputs, key)) {
      IndicesNamed(t.inputs, key);
    }
    SecondSpend(l, t);
    assert NamesTx(t.inputs, id);
    assert Indices(t.inputs, id)[0] == 1;
  }

  lemma PairIndices(inputs: seq<TxInput>, id: Bytes)
    requires |inputs| == 2 && inputs[0].txid == Some(id) && inputs[1].txid == Some(id)
    ensures Indices(inputs, id) == [inputs[0].outIndex, inputs[1].outIndex]
    ensures forall key :: NamesTx(inputs, key) ==> key == id
  {
    assert inputs[1..][0] == inputs[1] && inputs[1..][1..] == [];
    assert Indices(inputs[1..], id) == [inputs[1].outIndex];
  }

  /** Conversely, under another lock the signature would have to be good for another digest, or two bodies collide. */
  lemma OtherLockOtherDigest(env: Env, t: TxV, j: nat, a: Bytes, b: Bytes)
    requires j < |t.inputs| && a != b
    ensures Digest(env, t.inputs, t.outputs, j, a) != Digest(env, t.inputs, t.outputs, j, b) ||
      (DigestBody(t.inputs, t.outputs, j, a) != DigestBody(t.inputs, t.outputs, j, b) &&
       env.txHash(DigestBody(t.inputs, t.outputs, j, a)) == env.txHash(DigestBody(t.inputs, t.outputs, j, b)))
  {
    if Digest(env, t.inputs, t.outputs, j, a) == Digest(env, t.inputs, t.outputs, j, b) {
      DigestCommits(env, t.inputs, t.inputs, t.outputs, t.outputs, j, a, b);
    }
  }

  /** The input: two outputs of one owner in one transaction, the first spent. Applied twice, the same signed
      transaction takes both, and nothing of the first transaction is left. */
  lemma TwiceTakesBoth(env: Env, id: Bytes, owner: Bytes, t: TxV)
    requires |t.inputs| == 1 && t.inputs[0].txid == Some(id) && t.inputs[0].outIndex == 0 && t.id != id
    requires Verified(env, t.inputs, t.outputs, Add(EMPTY, id, [TxOutput(3, owner), TxOutput(2, owner)]).recorded) == Ok(true)
    ensures var l := Add(EMPTY, id, [TxOutput(3, owner), TxOutput(2, owner)]);
      var (l1, ok1) := Update(l, t);
      var (l2, ok2) := Update(l1, t);
      ok1 && Verified(env, t.inputs, t.outputs, l1.recorded) == Ok(true) && ok2 && id !in l2.live
  {
    var outputs := [TxOutput(3, owner), TxOutput(2, owner)];
    var l := Add(EMPTY, id, outputs);
    assert RemoveAt(outputs, 0) == [TxOutput(2, owner)];
    DistinctInputs(l, t.inputs);
    assert Spendable(l, id, 0) && HasNext(l, t.inputs[0]);
    SecondSpendDistinct(l, t);
    SameLocksVerifyAgain(env, l, t);
    OneIndex(t.inputs, 0);
    var l1 := Update(l, t).0;
    TakesFirst(l, t, id);
    TakesFirst(l1, t, id);
  }

  /** A transaction with one input, which spends the first output of an entry. */
  lemma TakesFirst(l: Ledger, t: TxV, id: Bytes)
    requires |t.inputs| == 1 && t.inputs[0].txid == Some(id) && t.inputs[0].outIndex == 0 && t.id != id
    requires id in l.live && |l.live[id]| > 0
    ensures Update(l, t).1 && (id in Update(l, t).0.live <==> |l.live[id]| > 1)
    ensures id in Update(l, t).0.live ==> Update(l, t).0.live[id] == l.live[id][1..]
  {
    assert t.inputs[1..] == [];
    assert RemoveInputs(l, t.inputs) == RemoveInputs(Remove(l, id, 0), t.inputs[1..]);
    assert RemoveAt(l.live[id], 0) == l.live[id][1..];
  }

  /** ---------- In honest runs ---------- */

  /** `t` repeats the inputs of a payment that is on the chain. */
  predicate Repeats(n: Node, t: TxV) {
    !IsCoinbase(t.inputs) && exists i :: 0 <= i < |AllTxs(n.chain)| && AllTxs(n.chain)[i].inputs == t.inputs
  }

  lemma RepeatIsSpent(env: Env, bodies: set<TxBody>, n: Node, t: TxV)
    requires Inv(env, bodies, n) && Repeats(n, t)
    ensures Aliased(n.ledger) && SpendOk(env, n.ledger, t.inputs)
  {
    var txs := AllTxs(n.chain);
    var i :| 0 <= i < |txs| && txs[i].inputs == t.inputs;
    assert TxOk(env, bodies, |n.chain|, n.ledger, txs[i]);
  }

  /** Whatever output a spent input names now, its lock is not that of the input's key. */
  lemma SpentInputMeets(env: Env, l: Ledger, input: TxInput)
    requires Aliased(l) && InputSpent(env, l, input) && Spendable(l, Key(input.txid), input.outIndex)
    ensures InRange(input, l.recorded) && LockOf(input, l.recorded) != env.pubKeyHash(input.pubKey)
  {
    var key, k := Key(input.txid), input.outIndex;
    assert l.live[key][k] == l.recorded[key][k];
  }

  /** So it is for the inputs of every payment on the chain. */
  lemma RepeatedInput(env: Env, bodies: set<TxBody>, n: Node, t: TxV, j: nat)
    requires Inv(env, bodies, n) && Repeats(n, t) && j < |t.inputs|
    requires Spendable(n.ledger, Key(t.inputs[j].txid), t.inputs[j].outIndex)
    ensures InRange(t.inputs[j], n.ledger.recorded)
    ensures LockOf(t.inputs[j], n.ledger.recorded) != env.pubKeyHash(t.inputs[j].pubKey)
  {
    RepeatIsSpent(env, bodies, n, t);
    SpentInputMeets(env, n.ledger, t.inputs[j]);
  }

  /** If a block that repeats a payment of the chain is added all the same, the payment's first signature is good
      under a lock that its key does not open: for a digest (or a colliding one) that it was not made for. */
  lemma RepeatNeedsOtherDigest(env: Env, bodies: set<TxBody>, n: Node, t: TxV, miner: Bytes, now: int, later: int)
    requires Inv(env, bodies, n) && NoTxCollision(env, bodies) && Repeats(n, t)
    requires env.decodeAddress(miner).Some? ==>
      Body(CoinbaseTx(env, env.decodeAddress(miner).value, BlockData(|n.chain|), REWARD)) in bodies
    requires AddBlock(env, n, [t], miner, now, later).1.Added?
    ensures |t.inputs| > 0 && InRange(t.inputs[0], n.ledger.recorded)
    ensures LockOf(t.inputs[0], n.ledger.recorded) != env.pubKeyHash(t.inputs[0].pubKey)
    ensures SignedFor(env, t, 0, LockOf(t.inputs[0], n.ledger.recorded))
  {
    var cb := CoinbaseTx(env, env.decodeAddress(miner).value, BlockData(|n.chain|), REWARD);
    RepeatIsSpent(env, bodies, n, t);
    assert InputSpent(env, n.ledger, t.inputs[0]);
    CoinbaseIsFresh(env, bodies, |n.chain|, AllTxs(n.chain), n.ledger, env.decodeAddress(miner).value);
    AddedMeans(env, n, t, miner, now, later);
    RepeatedInput(env, bodies, n, t, 0);
    VerifyFromSound(env, t.inputs, t.outputs, n.ledger.recorded, 0);
    assert SignatureGood(env, t.inputs, t.outputs, n.ledger.recorded, 0);
  }

  /** A block with one payment is added only if the payment verifies and its first input can be removed. */
  lemma AddedMeans(env: Env, n: Node, t: TxV, miner: Bytes, now: int, later: int)
    requires |n.chain| > 0 && AddBlock(env, n, [t], miner, now, later).1.Added?
    requires !IsCoinbase(t.inputs) && |t.inputs| > 0
    ensures env.decodeAddress(miner).Some? && Verified(env, t.inputs, t.outputs, n.ledger.recorded) == Ok(true)
    ensures var cb := CoinbaseTx(env, env.decodeAddress(miner).value, BlockData(|n.chain|), REWARD);
      Key(t.inputs[0].txid) != cb.id ==> Spendable(n.ledger, Key(t.inputs[0].txid), t.inputs[0].outIndex)
  {
    var cb := CoinbaseTx(env, env.decodeAddress(miner).value, BlockData(|n.chain|), REWARD);
    assert [t][1..] == [];
    assert VerifyTxs(env, n.ledger.recorded, [t]) == Ok(true);
    assert [cb] + [t] == [cb, t];
    assert UpdateAll(n.ledger, [cb, t]).1;
    assert [cb, t][..1] == [cb] && [cb][..0] == [];
    assert UpdateAll(n.ledger, [cb]) == Update(n.ledger, cb);
  }
}
