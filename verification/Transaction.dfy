/** Transactions: identity, signing and verification. */
module Transactions {
  import opened Prelude
  import opened ByteStrings
  import opened Crypto

  /** ---------- Specification ---------- */

  /** A transaction as it was created: `outputs` are the original ones, before any compaction. */
  datatype TxV = TxV(id: Bytes, inputs: seq<TxInput>, outputs: seq<TxOutput>)

  predicate IsCoinbase(inputs: seq<TxInput>) {
    |inputs| == 1 && inputs[0].txid == None && inputs[0].outIndex == -1
  }

  /** string(TxID): a nil slice is the empty string. */
  function Key(txid: Option<Bytes>): Bytes {
    match txid
    case None => []
    case Some(id) => id
  }

  function Unsigned(inputs: seq<TxInput>): (r: seq<TxInput>)
    ensures |r| == |inputs|
  {
    seq(|inputs|, i requires 0 <= i < |inputs| => inputs[i].(signature := []))
  }

  function Trimmed(inputs: seq<TxInput>): (r: seq<TxInput>)
    ensures |r| == |inputs|
  {
    seq(|inputs|, i requires 0 <= i < |inputs| => inputs[i].(signature := [], pubKey := []))
  }

  /** The preimage of a transaction's ID: the transaction without its signatures. */
  function Body(t: TxV): TxBody {
    TxBody(Unsigned(t.inputs), t.outputs)
  }

  /** The data signed for input i, whose previous output is locked to `lock`. */
  function Digest(env: Env, inputs: seq<TxInput>, outputs: seq<TxOutput>, i: nat, lock: Bytes): Hash
    requires i < |inputs|
  {
    env.txHash(DigestBody(inputs, outputs, i, lock))
  }

  function DigestBody(inputs: seq<TxInput>, outputs: seq<TxOutput>, i: nat, lock: Bytes): TxBody
    requires i < |inputs|
  {
    var trimmed := Trimmed(inputs);
    TxBody(trimmed[i := trimmed[i].(pubKey := lock)], outputs)
  }

  /** A signature covers every output, every outpoint spent, and the lock it answers: equal digests of two
      transactions mean that these are equal, or two bodies collide. */
  lemma DigestCommits(env: Env, a: seq<TxInput>, b: seq<TxInput>, outputsA: seq<TxOutput>, outputsB: seq<TxOutput>,
                      i: nat, lockA: Bytes, lockB: Bytes)
    requires i < |a| && i < |b|
    requires Digest(env, a, outputsA, i, lockA) == Digest(env, b, outputsB, i, lockB)
    ensures
      || (DigestBody(a, outputsA, i, lockA) != DigestBody(b, outputsB, i, lockB) &&
          env.txHash(DigestBody(a, outputsA, i, lockA)) == env.txHash(DigestBody(b, outputsB, i, lockB)))
      || (outputsA == outputsB && lockA == lockB && |a| == |b| &&
          forall k :: 0 <= k < |a| ==> a[k].txid == b[k].txid && a[k].outIndex == b[k].outIndex)
  {
    var x, y := DigestBody(a, outputsA, i, lockA), DigestBody(b, outputsB, i, lockB);
    if x == y {
      assert |x.inputs| == |a| && |y.inputs| == |b|;
      assert x.inputs[i].pubKey == lockA && y.inputs[i].pubKey == lockB;
      forall k | 0 <= k < |a| ensures a[k].txid == b[k].txid && a[k].outIndex == b[k].outIndex {
        assert x.inputs[k].txid == a[k].txid && x.inputs[k].outIndex == a[k].outIndex;
        assert y.inputs[k].txid == b[k].txid && y.inputs[k].outIndex == b[k].outIndex;
      }
    }
  }

  type Prev = map<Bytes, seq<TxOutput>>

  predicate AllKnown(inputs: seq<TxInput>, prev: Prev) {
    forall i :: 0 <= i < |inputs| ==> Key(inputs[i].txid) in prev
  }

  /** Some input names the transaction. */
  predicate NamesTx(inputs: seq<TxInput>, id: Bytes) {
    exists j :: 0 <= j < |inputs| && Key(inputs[j].txid) == id
  }

  predicate InRange(input: TxInput, prev: Prev) {
    Key(input.txid) in prev && 0 <= input.outIndex < |prev[Key(input.txid)]|
  }

  function LockOf(input: TxInput, prev: Prev): Bytes
    requires InRange(input, prev)
  {
    prev[Key(input.txid)][input.outIndex].pubKeyHash
  }

  /** The wallet's signature for input i. */
  function SignatureAt(env: Env, w: Wallet, inputs: seq<TxInput>, outputs: seq<TxOutput>, prev: Prev, tape: nat, i: nat): Bytes
    requires i < |inputs| && InRange(inputs[i], prev)
  {
    SignMessage(env, w, Digest(env, inputs, outputs, i, LockOf(inputs[i], prev)), tape + i)
  }

  /** Sign inputs i, i+1, ... in order. */
  function SignFrom(env: Env, w: Wallet, inputs: seq<TxInput>, outputs: seq<TxOutput>, prev: Prev, tape: nat, i: nat): Outcome<seq<TxInput>>
    requires i <= |inputs| && AllKnown(inputs, prev)
    decreases |inputs| - i
  {
    if i == |inputs| then Ok(inputs)
    else if !InRange(inputs[i], prev) then Panic
    else
      var signed := inputs[i := inputs[i].(signature := SignatureAt(env, w, inputs, outputs, prev, tape, i))];
      SignFrom(env, w, signed, outputs, prev, tape, i + 1)
  }

  function Signed(env: Env, w: Wallet, inputs: seq<TxInput>, outputs: seq<TxOutput>, prev: Prev, tape: nat): Outcome<seq<TxInput>> {
    if IsCoinbase(inputs) then Ok(inputs)
    else if !AllKnown(inputs, prev) then Err
    else SignFrom(env, w, inputs, outputs, prev, tape, 0)
  }

  /** Check inputs i, i+1, ... in order, stopping at the first bad signature. */
  function VerifyFrom(env: Env, inputs: seq<TxInput>, outputs: seq<TxOutput>, prev: Prev, i: nat): Outcome<bool>
    requires i <= |inputs| && AllKnown(inputs, prev)
    decreases |inputs| - i
  {
    if i == |inputs| then Ok(true)
    else if !InRange(inputs[i], prev) then Panic
    else if !VerifySignature(env, inputs[i].pubKey, Digest(env, inputs, outputs, i, LockOf(inputs[i], prev)), inputs[i].signature)
    then Ok(false)
    else VerifyFrom(env, inputs, outputs, prev, i + 1)
  }

  function Verified(env: Env, inputs: seq<TxInput>, outputs: seq<TxOutput>, prev: Prev): Outcome<bool> {
    if IsCoinbase(inputs) then Ok(true)
    else if !AllKnown(inputs, prev) then Ok(false)
    else VerifyFrom(env, inputs, outputs, prev, 0)
  }

  /** ---------- What signing does ---------- */

  predicate SignedFrom(env: Env, w: Wallet, inputs: seq<TxInput>, outputs: seq<TxOutput>, prev: Prev, tape: nat, i: nat, signed: seq<TxInput>)
    requires i <= |inputs| && forall j :: i <= j < |inputs| ==> InRange(inputs[j], prev)
  {
    && |signed| == |inputs|
    && signed[..i] == inputs[..i]
    && forall j :: i <= j < |inputs| ==>
         signed[j] == inputs[j].(signature := SignatureAt(env, w, inputs, outputs, prev, tape, j))
  }

  /** Signing replaces the signatures of inputs i, i+1, ... and nothing else;
      it panics exactly when one of those inputs points outside its previous transaction. */
  lemma {:induction false} SignFromSpec(env: Env, w: Wallet, inputs: seq<TxInput>, outputs: seq<TxOutput>, prev: Prev, tape: nat, i: nat)
    requires i <= |inputs| && AllKnown(inputs, prev)
    ensures !SignFrom(env, w, inputs, outputs, prev, tape, i).Err?
    ensures SignFrom(env, w, inputs, outputs, prev, tape, i).Ok? <==>
      forall j :: i <= j < |inputs| ==> InRange(inputs[j], prev)
    ensures SignFrom(env, w, inputs, outputs, prev, tape, i).Ok? ==>
      SignedFrom(env, w, inputs, outputs, prev, tape, i, SignFrom(env, w, inputs, outputs, prev, tape, i).value)
    decreases |inputs| - i
  {
    if i < |inputs| && InRange(inputs[i], prev) {
      var signed := inputs[i := inputs[i].(signature := SignatureAt(env, w, inputs, outputs, prev, tape, i))];
      assert Trimmed(signed) == Trimmed(inputs);
      SignFromSpec(env, w, signed, outputs, prev, tape, i + 1);
      var r := SignFrom(env, w, inputs, outputs, prev, tape, i);
      assert r == SignFrom(env, w, signed, outputs, prev, tape, i + 1);
      forall j | i <= j < |inputs| ensures InRange(signed[j], prev) <==> InRange(inputs[j], prev) { }
      if r.Ok? {
        assert r.value[i] == r.value[..i + 1][i] == signed[i];
        assert r.value[..i] == r.value[..i + 1][..i] == inputs[..i];
        forall j | i < j < |inputs|
          ensures SignatureAt(env, w, signed, outputs, prev, tape, j) == SignatureAt(env, w, inputs, outputs, prev, tape, j)
        { }
      }
    }
  }

  /** Signing leaves the body, and so the ID, as it was. */
  lemma SigningKeepsBody(env: Env, w: Wallet, inputs: seq<TxInput>, outputs: seq<TxOutput>, prev: Prev, tape: nat)
    ensures var r := Signed(env, w, inputs, outputs, prev, tape);
      r.Ok? ==> |r.value| == |inputs| && Unsigned(r.value) == Unsigned(inputs) && Trimmed(r.value) == Trimmed(inputs)
  {
    if !IsCoinbase(inputs) && AllKnown(inputs, prev) {
      SignFromSpec(env, w, inputs, outputs, prev, tape, 0);
    }
  }

  /** Input i carries the wallet's key and its signature is one the verifier can split. */
  predicate Verifiable(env: Env, w: Wallet, inputs: seq<TxInput>, outputs: seq<TxOutput>, prev: Prev, tape: nat, i: nat)
    requires i < |inputs| && InRange(inputs[i], prev)
  {
    && inputs[i].pubKey == w.publicKey
    && |SignatureAt(env, w, inputs, outputs, prev, tape, i)| >= 32
    && SplitsCleanly(w.signer(env.sha256(Digest(env, inputs, outputs, i, LockOf(inputs[i], prev))), tape + i))
  }

  /** Sign then Verify, against unchanged previous transactions, succeeds for any number of inputs. */
  lemma SignVerifyRoundTrip(env: Env, w: Wallet, inputs: seq<TxInput>, outputs: seq<TxOutput>, prev: Prev, tape: nat)
    requires SignerSound(env, w)
    requires !IsCoinbase(inputs) && AllKnown(inputs, prev)
    requires forall i :: 0 <= i < |inputs| ==> InRange(inputs[i], prev) && Verifiable(env, w, inputs, outputs, prev, tape, i)
    ensures var r := Signed(env, w, inputs, outputs, prev, tape);
      r.Ok? && Verified(env, r.value, outputs, prev) == Ok(true)
  {
    SignFromSpec(env, w, inputs, outputs, prev, tape, 0);
    var signed := SignFrom(env, w, inputs, outputs, prev, tape, 0).value;
    assert Trimmed(signed) == Trimmed(inputs);
    VerifyAll(env, w, inputs, signed, outputs, prev, tape, 0);
  }

  lemma {:induction false} VerifyAll(env: Env, w: Wallet, inputs: seq<TxInput>, signed: seq<TxInput>, outputs: seq<TxOutput>, prev: Prev, tape: nat, i: nat)
    requires SignerSound(env, w)
    requires i <= |inputs| == |signed| && AllKnown(inputs, prev) && AllKnown(signed, prev)
    requires Trimmed(signed) == Trimmed(inputs)
    requires forall j :: i <= j < |inputs| ==> InRange(inputs[j], prev) && Verifiable(env, w, inputs, outputs, prev, tape, j)
    requires forall j :: i <= j < |inputs| ==>
      signed[j] == inputs[j].(signature := SignatureAt(env, w, inputs, outputs, prev, tape, j))
    ensures VerifyFrom(env, signed, outputs, prev, i) == Ok(true)
    decreases |inputs| - i
  {
    if i < |inputs| {
      var message := Digest(env, inputs, outputs, i, LockOf(inputs[i], prev));
      assert Verifiable(env, w, inputs, outputs, prev, tape, i);
      SignatureVerifies(env, w, message, tape + i);
      VerifyAll(env, w, inputs, signed, outputs, prev, tape, i + 1);
    }
  }

  predicate SignatureGood(env: Env, inputs: seq<TxInput>, outputs: seq<TxOutput>, prev: Prev, j: nat)
    requires j < |inputs|
  {
    InRange(inputs[j], prev) &&
    VerifySignature(env, inputs[j].pubKey, Digest(env, inputs, outputs, j, LockOf(inputs[j], prev)), inputs[j].signature)
  }

  /** Verification answers yes only if every signature checks out against the recorded lock. */
  lemma {:induction false} VerifyFromSound(env: Env, inputs: seq<TxInput>, outputs: seq<TxOutput>, prev: Prev, i: nat)
    requires i <= |inputs| && AllKnown(inputs, prev)
    ensures VerifyFrom(env, inputs, outputs, prev, i) == Ok(true) <==>
      forall j :: i <= j < |inputs| ==> SignatureGood(env, inputs, outputs, prev, j)
    decreases |inputs| - i
  {
    if i < |inputs| {
      VerifyFromSound(env, inputs, outputs, prev, i + 1);
      if SignatureGood(env, inputs, outputs, prev, i) {
        assert VerifyFrom(env, inputs, outputs, prev, i) == VerifyFrom(env, inputs, outputs, prev, i + 1);
      }
    }
  }

  /** ---------- What verification accepts and refuses ---------- */

  /** What ECDSA is asked about input j: the transaction's outputs and outpoints, without signatures and keys but with the
      lock in the place of input j's key. */
  function SignedBody(inputs: seq<TxInput>, outputs: seq<TxOutput>, j: nat, lock: Bytes): TxBody
    requires j < |inputs|
  {
    TxBody(seq(|inputs|, k requires 0 <= k < |inputs| =>
                 TxInput(inputs[k].txid, inputs[k].outIndex, [], if k == j then lock else [])), outputs)
  }

  /** Input j names an output there is, and ECDSA accepts the two halves of its signature, of at least 32 bytes, for its key. */
  predicate Accepts(env: Env, inputs: seq<TxInput>, outputs: seq<TxOutput>, prev: Prev, j: nat)
    requires j < |inputs|
  {
    var key, k, sig := (if inputs[j].txid.None? then [] else inputs[j].txid.value), inputs[j].outIndex, inputs[j].signature;
    key in prev && 0 <= k < |prev[key]| && |sig| >= 32 &&
    env.ecdsaVerify(inputs[j].pubKey, env.sha256(env.txHash(SignedBody(inputs, outputs, j, prev[key][k].pubKeyHash))),
                    BigEndian(sig[..|sig| / 2]), BigEndian(sig[|sig| / 2..]))
  }

  lemma AcceptsIsGood(env: Env, inputs: seq<TxInput>, outputs: seq<TxOutput>, prev: Prev, j: nat)
    requires j < |inputs|
    ensures Accepts(env, inputs, outputs, prev, j) <==> SignatureGood(env, inputs, outputs, prev, j)
  {
    if InRange(inputs[j], prev) {
      var lock := LockOf(inputs[j], prev);
      assert SignedBody(inputs, outputs, j, lock) == DigestBody(inputs, outputs, j, lock);
    }
  }

  /** The one input of a minting transaction. */
  predicate Mints(inputs: seq<TxInput>) {
    |inputs| == 1 && inputs[0].txid.None? && inputs[0].outIndex == -1
  }

  /** Exactly what verification accepts: what mints, and what ECDSA accepts at every input. */
  lemma VerifiedMeans(env: Env, inputs: seq<TxInput>, outputs: seq<TxOutput>, prev: Prev)
    ensures Verified(env, inputs, outputs, prev) == Ok(true) <==>
      Mints(inputs) || forall j :: 0 <= j < |inputs| ==> Accepts(env, inputs, outputs, prev, j)
  {
    forall j: nat | j < |inputs|
      ensures Accepts(env, inputs, outputs, prev, j) <==> SignatureGood(env, inputs, outputs, prev, j)
    {
      AcceptsIsGood(env, inputs, outputs, prev, j);
    }
    if AllKnown(inputs, prev) {
      VerifyFromSound(env, inputs, outputs, prev, 0);
    } else {
      var j :| 0 <= j < |inputs| && Key(inputs[j].txid) !in prev;
      assert !SignatureGood(env, inputs, outputs, prev, j);
    }
  }

  /** What it answers otherwise: no if some previous transaction is missing; else the first input that is not accepted decides,
      with a panic if its index is out of range and a no if its signature is bad. */
  lemma VerifiedOtherwise(env: Env, inputs: seq<TxInput>, outputs: seq<TxOutput>, prev: Prev, j: nat)
    requires !Mints(inputs) && j < |inputs| && !Accepts(env, inputs, outputs, prev, j)
    requires forall i :: 0 <= i < j ==> Accepts(env, inputs, outputs, prev, i)
    ensures Verified(env, inputs, outputs, prev) ==
      if exists i :: 0 <= i < |inputs| && Key(inputs[i].txid) !in prev then Ok(false)
      else if 0 <= inputs[j].outIndex < |prev[Key(inputs[j].txid)]| then Ok(false) else Panic
  {
    if AllKnown(inputs, prev) {
      VerifyFromStops(env, inputs, outputs, prev, 0, j);
    }
  }

  lemma {:induction false} VerifyFromStops(env: Env, inputs: seq<TxInput>, outputs: seq<TxOutput>, prev: Prev, i: nat, j: nat)
    requires i <= j < |inputs| && AllKnown(inputs, prev) && !Accepts(env, inputs, outputs, prev, j)
    requires forall k :: i <= k < j ==> Accepts(env, inputs, outputs, prev, k)
    ensures VerifyFrom(env, inputs, outputs, prev, i) == if InRange(inputs[j], prev) then Ok(false) else Panic
    decreases j - i
  {
    AcceptsIsGood(env, inputs, outputs, prev, i);
    if i < j {
      VerifyFromStops(env, inputs, outputs, prev, i + 1, j);
    }
  }

  /** How signing ends: it fails if a previous transaction is missing, panics if an index is out of range, and otherwise
      signs every input; what mints is left as it is. */
  lemma SignedOtherwise(env: Env, w: Wallet, inputs: seq<TxInput>, outputs: seq<TxOutput>, prev: Prev, tape: nat)
    ensures Mints(inputs) ==> Signed(env, w, inputs, outputs, prev, tape) == Ok(inputs)
    ensures Signed(env, w, inputs, outputs, prev, tape).Err? <==>
      !Mints(inputs) && exists i :: 0 <= i < |inputs| && Key(inputs[i].txid) !in prev
    ensures Signed(env, w, inputs, outputs, prev, tape).Panic? <==>
      !Mints(inputs) && AllKnown(inputs, prev) &&
      exists i :: 0 <= i < |inputs| && !(0 <= inputs[i].outIndex < |prev[Key(inputs[i].txid)]|)
  {
    if !Mints(inputs) && AllKnown(inputs, prev) {
      SignFromSpec(env, w, inputs, outputs, prev, tape, 0);
      assert forall i :: 0 <= i < |inputs| ==> (InRange(inputs[i], prev) <==> 0 <= inputs[i].outIndex < |prev[Key(inputs[i].txid)]|);
    }
  }

  /** ---------- Only the named previous transactions matter ---------- */

  predicate Agree(inputs: seq<TxInput>, a: Prev, b: Prev) {
    forall i :: 0 <= i < |inputs| ==> SameAt(Key(inputs[i].txid), a, b)
  }

  predicate SameAt(key: Bytes, a: Prev, b: Prev) {
    key in a && key in b && a[key] == b[key]
  }

  lemma {:induction false} VerifyFromAgrees(env: Env, inputs: seq<TxInput>, outputs: seq<TxOutput>, a: Prev, b: Prev, i: nat)
    requires Agree(inputs, a, b) && i <= |inputs|
    ensures AllKnown(inputs, a) && AllKnown(inputs, b)
    ensures VerifyFrom(env, inputs, outputs, a, i) == VerifyFrom(env, inputs, outputs, b, i)
    decreases |inputs| - i
  {
    if i < |inputs| {
      assert SameAt(Key(inputs[i].txid), a, b);
      VerifyFromAgrees(env, inputs, outputs, a, b, i + 1);
    }
  }

  lemma {:induction false} SignFromAgrees(env: Env, w: Wallet, inputs: seq<TxInput>, outputs: seq<TxOutput>, a: Prev, b: Prev, tape: nat, i: nat)
    requires Agree(inputs, a, b) && i <= |inputs|
    ensures AllKnown(inputs, a) && AllKnown(inputs, b)
    ensures SignFrom(env, w, inputs, outputs, a, tape, i) == SignFrom(env, w, inputs, outputs, b, tape, i)
    decreases |inputs| - i
  {
    if i < |inputs| {
      assert SameAt(Key(inputs[i].txid), a, b);
      if InRange(inputs[i], a) {
        var signed := inputs[i := inputs[i].(signature := SignatureAt(env, w, inputs, outputs, a, tape, i))];
        forall j | 0 <= j < |signed| ensures SameAt(Key(signed[j].txid), a, b) {
          assert SameAt(Key(inputs[j].txid), a, b);
        }
        SignFromAgrees(env, w, signed, outputs, a, b, tape, i + 1);
      }
    }
  }

  lemma VerifiedAgrees(env: Env, inputs: seq<TxInput>, outputs: seq<TxOutput>, a: Prev, b: Prev)
    requires Agree(inputs, a, b)
    ensures Verified(env, inputs, outputs, a) == Verified(env, inputs, outputs, b)
  {
    VerifyFromAgrees(env, inputs, outputs, a, b, 0);
  }

  lemma SignedAgrees(env: Env, w: Wallet, inputs: seq<TxInput>, outputs: seq<TxOutput>, a: Prev, b: Prev, tape: nat)
    requires Agree(inputs, a, b)
    ensures Signed(env, w, inputs, outputs, a, tape) == Signed(env, w, inputs, outputs, b, tape)
  {
    SignFromAgrees(env, w, inputs, outputs, a, b, tape, 0);
  }

  /** ---------- The objects ---------- */

  class Transaction {
    var ID: Bytes
    var Inputs: seq<TxInput>
    var Outputs: array<TxOutput>

    constructor (id: Bytes, inputs: seq<TxInput>, outputs: array<TxOutput>)
      ensures ID == id && Inputs == inputs && Outputs == outputs
    {
      ID, Inputs, Outputs := id, inputs, outputs;
    }

    /** Everything the object holds now. */
    function Value(): TxV
      reads this, Outputs
    {
      TxV(ID, Inputs, Outputs[..])
    }

    function CurrentBody(): TxBody
      reads this, Outputs
    {
      TxBody(Inputs, Outputs[..])
    }

    method TrimmedCopy() returns (copy: Transaction)
      ensures fresh(copy) && fresh(copy.Outputs)
      ensures copy.Value() == TxV(ID, Trimmed(Inputs), Outputs[..])
    {
      var outputs := new TxOutput[Outputs.Length](i requires 0 <= i < Outputs.Length reads this, Outputs => Outputs[i]);
      copy := new Transaction(ID, Trimmed(Inputs), outputs);
    }

    /** On a trimmed copy: put the previous output's lock in input i, hash, and clear it again. */
    method HashWithLock(env: Env, i: nat, pubKeyHash: Bytes) returns (hash: Hash)
      requires i < |Inputs| && Inputs == Trimmed(Inputs)
      modifies this`Inputs
      ensures Inputs == old(Inputs)
      ensures hash == Digest(env, Inputs, Outputs[..], i, pubKeyHash)
    {
      assert Inputs[i].pubKey == [];
      Inputs := Inputs[i := Inputs[i].(pubKey := pubKeyHash)];
      hash := env.txHash(CurrentBody());
      Inputs := Inputs[i := Inputs[i].(pubKey := [])];
    }

    /** One round of the signing loop. */
    method SignInput(env: Env, w: Wallet, txCopy: Transaction, prevTx: Transaction, tape: nat, i: nat) returns (ok: bool)
      requires i < |Inputs| && txCopy != this && txCopy.Inputs == Trimmed(Inputs)
      modifies this`Inputs, txCopy`Inputs
      ensures txCopy.Inputs == old(txCopy.Inputs) == Trimmed(Inputs)
      ensures ok == (0 <= old(Inputs)[i].outIndex < prevTx.Outputs.Length)
      ensures Inputs == if !ok then old(Inputs) else
        old(Inputs)[i := old(Inputs)[i].(signature := SignMessage(env, w,
          Digest(env, old(Inputs), txCopy.Outputs[..], i, prevTx.Outputs[old(Inputs)[i].outIndex].pubKeyHash), tape + i))]
    {
      var input := txCopy.Inputs[i];
      ok := 0 <= input.outIndex < prevTx.Outputs.Length;
      if ok {
        var dataToSign := txCopy.HashWithLock(env, i, prevTx.Outputs[input.outIndex].pubKeyHash);
        var signature := SignMessage(env, w, dataToSign, tape + i);
        Inputs := Inputs[i := Inputs[i].(signature := signature)];
      }
    }

    /** The signing loop, on a trimmed copy. */
    method SignEach(env: Env, w: Wallet, txCopy: Transaction, prevTxs: map<Bytes, Transaction>, tape: nat, ghost prev: Prev)
      returns (ok: bool)
      requires txCopy != this && txCopy.Inputs == Trimmed(Inputs) && Recall(prevTxs, prev) && AllKnown(Inputs, prev)
      modifies this`Inputs, txCopy`Inputs
      ensures SignFrom(env, w, old(Inputs), txCopy.Outputs[..], prev, tape, 0) == if ok then Ok(Inputs) else Panic
    {
      ghost var inputs, outputs := Inputs, txCopy.Outputs[..];
      var i := 0;
      while i < |Inputs|
        invariant 0 <= i <= |Inputs|
        invariant txCopy.Inputs == Trimmed(Inputs) && txCopy.Outputs[..] == outputs
        invariant AllKnown(Inputs, prev)
        invariant SignFrom(env, w, Inputs, outputs, prev, tape, i) == SignFrom(env, w, inputs, outputs, prev, tape, 0)
      {
        var prevTx := prevTxs[Key(Inputs[i].txid)];
        assert prevTx.Outputs[..] == prev[Key(Inputs[i].txid)];
        ok := SignInput(env, w, txCopy, prevTx, tape, i);
        if !ok {
          return;
        }
        i := i + 1;
      }
      ok := true;
    }

    /** Sign every input, in order; a panic leaves the earlier signatures in place. */
    method Sign(env: Env, w: Wallet, prevTxs: map<Bytes, Transaction>, tape: nat) returns (r: Outcome<()>)
      modifies this`Inputs
      ensures Signed(env, w, old(Inputs), Outputs[..], old(PrevOutputs(prevTxs)), tape) ==
        match r
        case Ok(_) => Ok(Inputs)
        case Err => Err
        case Panic => Panic
    {
      if IsCoinbase(Inputs) {
        return Ok(());
      }
      ghost var prev := PrevOutputs(prevTxs);
      if exists i :: 0 <= i < |Inputs| && Key(Inputs[i].txid) !in prevTxs {
        return Err;
      }
      var txCopy: Transaction := TrimmedCopy();
      assert Recall(prevTxs, prev);
      var ok := SignEach(env, w, txCopy, prevTxs, tape, prev);
      r := if ok then Ok(()) else Panic;
    }

    /** One round of the verification loop; `None` is an index out of range. */
    method VerifyInput(env: Env, txCopy: Transaction, prevTx: Transaction, i: nat) returns (r: Option<bool>)
      requires i < |Inputs| && txCopy != this && txCopy.Inputs == Trimmed(Inputs)
      modifies txCopy`Inputs
      ensures txCopy.Inputs == old(txCopy.Inputs)
      ensures r == if !(0 <= Inputs[i].outIndex < prevTx.Outputs.Length) then None else
        Some(VerifySignature(env, Inputs[i].pubKey,
          Digest(env, Inputs, txCopy.Outputs[..], i, prevTx.Outputs[Inputs[i].outIndex].pubKeyHash), Inputs[i].signature))
    {
      var input := Inputs[i];
      if !(0 <= input.outIndex < prevTx.Outputs.Length) {
        return None;
      }
      var dataToVerify := txCopy.HashWithLock(env, i, prevTx.Outputs[input.outIndex].pubKeyHash);
      r := Some(VerifySignature(env, input.pubKey, dataToVerify, input.signature));
    }

    /** The verification loop, on a trimmed copy. */
    method VerifyEach(env: Env, txCopy: Transaction, prevTxs: map<Bytes, Transaction>, ghost prev: Prev) returns (r: Outcome<bool>)
      requires txCopy != this && txCopy.Inputs == Trimmed(Inputs) && Recall(prevTxs, prev) && AllKnown(Inputs, prev)
      modifies txCopy`Inputs
      ensures r == VerifyFrom(env, Inputs, txCopy.Outputs[..], prev, 0)
    {
      ghost var outputs := txCopy.Outputs[..];
      var i := 0;
      while i < |Inputs|
        invariant 0 <= i <= |Inputs|
        invariant txCopy.Inputs == Trimmed(Inputs) && txCopy.Outputs[..] == outputs
        invariant VerifyFrom(env, Inputs, outputs, prev, i) == VerifyFrom(env, Inputs, outputs, prev, 0)
      {
        var prevTx := prevTxs[Key(Inputs[i].txid)];
        assert prevTx.Outputs[..] == prev[Key(Inputs[i].txid)];
        var good := VerifyInput(env, txCopy, prevTx, i);
        if good != Some(true) {
          return if good.None? then Panic else Ok(false);
        }
        i := i + 1;
      }
      r := Ok(true);
    }

    method Verify(env: Env, prevTxs: map<Bytes, Transaction>) returns (r: Outcome<bool>)
      ensures r == Verified(env, Inputs, Outputs[..], PrevOutputs(prevTxs))
    {
      if IsCoinbase(Inputs) {
        return Ok(true);
      }
      ghost var prev := PrevOutputs(prevTxs);
      if exists i :: 0 <= i < |Inputs| && Key(Inputs[i].txid) !in prevTxs {
        return Ok(false);
      }
      var txCopy: Transaction := TrimmedCopy();
      assert Recall(prevTxs, prev);
      r := VerifyEach(env, txCopy, prevTxs, prev);
    }
  }

  /** What the previous transactions' outputs hold now. */
  ghost function PrevOutputs(prevTxs: map<Bytes, Transaction>): Prev
    reads prevTxs.Values, set t | t in prevTxs.Values :: t.Outputs
  {
    map id | id in prevTxs :: prevTxs[id].Outputs[..]
  }

  ghost predicate Recall(prevTxs: map<Bytes, Transaction>, prev: Prev)
    reads prevTxs.Values, set t | t in prevTxs.Values :: t.Outputs
  {
    prevTxs.Keys == prev.Keys && forall id :: id in prevTxs ==> prevTxs[id].Outputs[..] == prev[id]
  }

  method NewTransaction(env: Env, inputs: seq<TxInput>, outputs: array<TxOutput>) returns (t: Transaction)
    ensures fresh(t) && t.Inputs == inputs && t.Outputs == outputs
    ensures t.ID == env.txHash(TxBody(inputs, outputs[..]))
  {
    t := new Transaction([], inputs, outputs);
    t.ID := env.txHash(t.CurrentBody());
  }

  /** The coinbase paying `reward` to key hash `to`; `data` makes it unique. */
  function CoinbaseTx(env: Env, to: Bytes, data: Bytes, reward: int): TxV {
    var inputs, outputs := [TxInput(None, -1, [], data)], [TxOutput(reward, to)];
    TxV(env.txHash(TxBody(inputs, outputs)), inputs, outputs)
  }

  method NewCoinbaseTx(env: Env, to: Bytes, data: Bytes, reward: int) returns (r: Outcome<Transaction>)
    ensures env.decodeAddress(to).None? ==> r.Err?
    ensures env.decodeAddress(to).Some? ==> r.Ok? && fresh(r.value) && fresh(r.value.Outputs)
    ensures env.decodeAddress(to).Some? ==>
      r.value.Value() ==
        CoinbaseTx(env, env.decodeAddress(to).value, if data == [] then Ascii("Reward to ") + to else data, reward)
  {
    var key := if data == [] then Ascii("Reward to ") + to else data;
    var decoded := env.decodeAddress(to);
    if decoded.None? {
      return Err;
    }
    var outputs := new TxOutput[1](_ => TxOutput(reward, decoded.value));
    assert outputs[..] == [TxOutput(reward, decoded.value)];
    var t := NewTransaction(env, [TxInput(None, -1, [], key)], outputs);
    r := Ok(t);
  }
}
