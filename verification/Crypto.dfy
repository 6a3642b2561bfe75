/** The cryptographic primitives, as parameters, and the wallet code built on them.

    Nothing is assumed of an `Env` beyond the types of its fields; what a theorem needs
    (addresses decode, signatures verify, no collision among given preimages) it requires. */
module Crypto {
  import opened Prelude
  import opened ByteStrings

  /** A transaction input. `txid` is `None` for Go's nil slice; a missing signature or key is `[]`. */
  datatype TxInput = TxInput(txid: Option<Bytes>, outIndex: int, signature: Bytes, pubKey: Bytes)

  /** A transaction output; `value` is an int64. */
  datatype TxOutput = TxOutput(value: int, pubKeyHash: Bytes)

  /** What is hashed for a transaction ID or for signing: everything but the ID. */
  datatype TxBody = TxBody(inputs: seq<TxInput>, outputs: seq<TxOutput>)

  datatype Env = Env(
    doubleHash: Bytes -> Hash,                       // SHA-256 twice
    txHash: TxBody -> Hash,                          // SHA-256 twice, over the gob bytes
    sha256: Bytes -> Bytes,                          // the digest that is signed
    pubKeyHash: Bytes -> Bytes,                      // RIPEMD-160 of SHA-256
    encodeAddress: Bytes -> Bytes,
    decodeAddress: Bytes -> Option<Bytes>,
    ecdsaVerify: (Bytes, Bytes, nat, nat) -> bool)   // public key bytes, digest, r, s

  /** A key pair. The signer may be randomised: its second argument is a position on a random tape. */
  datatype Wallet = Wallet(publicKey: Bytes, signer: (Bytes, nat) -> (nat, nat))

  function Address(env: Env, w: Wallet): Bytes {
    env.encodeAddress(env.pubKeyHash(w.publicKey))
  }

  /** Base58Check encoding and decoding are inverse on key hashes. */
  ghost predicate AddressesDecode(env: Env) {
    forall h: Bytes :: env.decodeAddress(env.encodeAddress(h)) == Some(h)
  }

  /** ECDSA accepts what the wallet signed, on the same digest and with the wallet's key. */
  ghost predicate SignerSound(env: Env, w: Wallet) {
    forall digest: Bytes, tape: nat ::
      env.ecdsaVerify(w.publicKey, digest, w.signer(digest, tape).0, w.signer(digest, tape).1)
  }

  /** r || s, each without leading zero bytes. */
  function EncodeSignature(rs: (nat, nat)): Bytes {
    MinimalBytes(rs.0) + MinimalBytes(rs.1)
  }

  /** The verifier cuts the signature in the middle. */
  function SplitSignature(sig: Bytes): (nat, nat) {
    (BigEndian(sig[..|sig| / 2]), BigEndian(sig[|sig| / 2..]))
  }

  function SignMessage(env: Env, w: Wallet, message: Bytes, tape: nat): Bytes {
    EncodeSignature(w.signer(env.sha256(message), tape))
  }

  function VerifySignature(env: Env, pubKey: Bytes, message: Bytes, signature: Bytes): bool {
    |signature| >= 32 &&
    var (r, s) := SplitSignature(signature);
    env.ecdsaVerify(pubKey, env.sha256(message), r, s)
  }

  /** The condition, visible on the byte lengths alone, under which the cut falls between r and s. */
  predicate SplitsCleanly(rs: (nat, nat)) {
    |MinimalBytes(rs.0)| <= |MinimalBytes(rs.1)| <= |MinimalBytes(rs.0)| + 1
  }

  /** For positive r and s the verifier recovers the pair exactly when the lengths are right. */
  lemma SplitRecovers(r: nat, s: nat)
    requires r > 0 && s > 0
    ensures SplitSignature(EncodeSignature((r, s))) == (r, s) <==> SplitsCleanly((r, s))
  {
    var a, b := MinimalBytes(r), MinimalBytes(s);
    var sig := a + b;
    var h := |sig| / 2;
    MinimalBytesDecode(r);
    MinimalBytesDecode(s);
    if h == |a| {
      assert sig[..h] == a && sig[h..] == b;
    } else {
      CutElsewhere(r, sig, h);
    }
  }

  /** For instance not for (256, 1): the cut of [1, 0, 1] gives (1, 1). */
  lemma SplitFails()
    ensures EncodeSignature((256, 1)) == [1, 0, 1] && SplitSignature(EncodeSignature((256, 1))) == (1, 1)
  {
    assert MinimalBytes(1) == [1] && MinimalBytes(256) == [1, 0];
    var sig: Bytes := [1, 0, 1];
    assert sig[..1] == [1] && sig[1..] == [0, 1];
    assert BigEndian([1]) == 1 && BigEndian([0]) == 0;
    assert ([0, 1])[..1] == [0];
    assert BigEndian([0, 1]) == 1;
  }

  /** Cutting anywhere but after the last byte of r yields a different first number. */
  lemma CutElsewhere(r: nat, sig: Bytes, h: nat)
    requires r > 0 && MinimalBytes(r) <= sig && h <= |sig| && h != |MinimalBytes(r)|
    ensures BigEndian(sig[..h]) != r
  {
    var a := MinimalBytes(r);
    MinimalBytesDecode(r);
    MinimalBytesLower(r);
    if h < |a| {
      BigEndianBound(sig[..h]);
      PowMonotone(256, h, |a| - 1);
    } else {
      assert sig[..h] == a + sig[|a|..h];
      BigEndianConcat(a, sig[|a|..h]);
      PowMonotone(256, 1, h - |a|);
      assert Pow(256, 1) == 256;
      MulGrows(r, Pow(256, h - |a|));
    }
  }

  lemma MulGrows(r: nat, p: nat)
    requires r > 0 && p >= 256
    ensures r * p > r
  {
  }

  /** A wallet's signature verifies under its own key whenever it is long enough and splits cleanly. */
  lemma SignatureVerifies(env: Env, w: Wallet, message: Bytes, tape: nat)
    requires SignerSound(env, w)
    requires |SignMessage(env, w, message, tape)| >= 32
    requires SplitsCleanly(w.signer(env.sha256(message), tape))
    ensures VerifySignature(env, w.publicKey, message, SignMessage(env, w, message, tape))
  {
    var rs := w.signer(env.sha256(message), tape);
    var a, b := MinimalBytes(rs.0), MinimalBytes(rs.1);
    var sig := a + b;
    assert sig[..|sig| / 2] == a && sig[|sig| / 2..] == b;
    MinimalBytesDecode(rs.0);
    MinimalBytesDecode(rs.1);
  }
}
