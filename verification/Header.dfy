/** Block headers and their fixed byte layout. */
module Header {
  import opened Prelude
  import opened ByteStrings
  import opened Crypto

  type uint32 = n: int | 0 <= n < 0x1_0000_0000

  const NANOS_PER_SECOND: int := 1_000_000_000

  /** `timestamp` is an instant in nanoseconds; the serialised form keeps whole seconds only. */
  datatype BlockHeader = BlockHeader(
    version: uint32,
    prevBlockHash: Bytes,
    merkleRoot: Bytes,
    timestamp: int,
    difficultyTarget: uint32,
    nonce: uint32)

  /** time.Time.Unix, as the 64-bit pattern written to the buffer. */
  function UnixBits(timestamp: int): (r: nat)
    ensures r < TWO_TO_64
  {
    (timestamp / NANOS_PER_SECOND) % TWO_TO_64
  }

  function Serialized(h: BlockHeader): Bytes {
    LittleEndian(h.version, 4) + h.prevBlockHash + h.merkleRoot +
    LittleEndian(UnixBits(h.timestamp), 8) + LittleEndian(h.difficultyTarget, 4) + LittleEndian(h.nonce, 4)
  }

  /** The buffer is filled field by field. */
  method Serialize(h: BlockHeader) returns (buf: Bytes)
    ensures buf == Serialized(h)
    ensures |h.prevBlockHash| == 32 && |h.merkleRoot| == 32 ==> |buf| == 84
  {
    buf := [];
    buf := buf + LittleEndian(h.version, 4);
    buf := buf + h.prevBlockHash;
    buf := buf + h.merkleRoot;
    buf := buf + LittleEndian(UnixBits(h.timestamp), 8);
    buf := buf + LittleEndian(h.difficultyTarget, 4);
    buf := buf + LittleEndian(h.nonce, 4);
  }

  /** Two headers that agree on everything a hash can see. */
  predicate SameFields(a: BlockHeader, b: BlockHeader) {
    a.version == b.version && a.prevBlockHash == b.prevBlockHash && a.merkleRoot == b.merkleRoot &&
    UnixBits(a.timestamp) == UnixBits(b.timestamp) &&
    a.difficultyTarget == b.difficultyTarget && a.nonce == b.nonce
  }

  /** With 32-byte previous hashes the layout is unambiguous, whatever the length of the Merkle root:
      equal bytes mean equal fields, down to the second of the timestamp. */
  lemma SerializedInjective(a: BlockHeader, b: BlockHeader)
    requires |a.prevBlockHash| == 32 && |b.prevBlockHash| == 32
    ensures Serialized(a) == Serialized(b) <==> SameFields(a, b)
  {
    if Serialized(a) == Serialized(b) {
      var s := Serialized(a);
      var n := |s|;
      CutFields(a);
      CutFields(b);
      FieldWidths();
      LittleEndianInjective(a.version, b.version, 4);
      LittleEndianInjective(UnixBits(a.timestamp), UnixBits(b.timestamp), 8);
      LittleEndianInjective(a.difficultyTarget, b.difficultyTarget, 4);
      LittleEndianInjective(a.nonce, b.nonce, 4);
    }
  }

  lemma CutFields(h: BlockHeader)
    requires |h.prevBlockHash| == 32
    ensures var s := Serialized(h); var n := |s|;
      n >= 52 &&
      s[..4] == LittleEndian(h.version, 4) && s[4..36] == h.prevBlockHash &&
      s[36..n - 16] == h.merkleRoot && s[n - 16..n - 8] == LittleEndian(UnixBits(h.timestamp), 8) &&
      s[n - 8..n - 4] == LittleEndian(h.difficultyTarget, 4) && s[n - 4..] == LittleEndian(h.nonce, 4)
  {
  }

  /** ---------- Reading the bytes back ---------- */

  /** b[0] + b[1] * 256 + b[2] * 256^2 + ... */
  function Weighted(b: Bytes): nat {
    if b == [] then 0 else Weighted(b[..|b| - 1]) + b[|b| - 1] * Pow(256, |b| - 1)
  }

  lemma {:induction false} WeightedFront(b: Bytes)
    requires b != []
    ensures Weighted(b) == b[0] + 256 * Weighted(b[1..])
    decreases |b|
  {
    if |b| == 1 {
      assert b[..0] == [] && b[1..] == [];
    } else {
      var init, k := b[..|b| - 1], |b| - 1;
      WeightedFront(init);
      assert init[1..] == b[1..][..k - 1];
      assert b[k] * Pow(256, k) == 256 * (b[k] * Pow(256, k - 1));
    }
  }

  /** Little endian is decoded by weighting each byte by its position. */
  lemma {:induction false} LittleEndianDecodes(n: nat, k: nat)
    requires n < Pow(256, k)
    ensures Weighted(LittleEndian(n, k)) == n
  {
    if k > 0 {
      LittleEndianDecodes(n / 256, k - 1);
      WeightedFront(LittleEndian(n, k));
      assert LittleEndian(n, k)[1..] == LittleEndian(n / 256, k - 1);
    }
  }

  /** What stands where in the 84 bytes: version, previous hash, Merkle root, the seconds since 1970 as a 64-bit
      pattern, difficulty and nonce, the numbers with their low byte first. */
  lemma FieldsReadBack(h: BlockHeader)
    requires |h.prevBlockHash| == 32 && |h.merkleRoot| == 32
    ensures var s := Serialized(h);
      |s| == 84 && Weighted(s[0..4]) == h.version && s[4..36] == h.prevBlockHash && s[36..68] == h.merkleRoot &&
      Weighted(s[68..76]) == (h.timestamp / 1_000_000_000) % 0x1_0000_0000_0000_0000 &&
      Weighted(s[76..80]) == h.difficultyTarget && Weighted(s[80..84]) == h.nonce
  {
    CutFields(h);
    FieldWidths();
    LittleEndianDecodes(h.version, 4);
    LittleEndianDecodes(UnixBits(h.timestamp), 8);
    LittleEndianDecodes(h.difficultyTarget, 4);
    LittleEndianDecodes(h.nonce, 4);
    var s := Serialized(h);
    assert s[..4] == s[0..4] && s[80..] == s[80..84];
  }

  /** So the bytes tell times apart that lie in different seconds, less than 2^64 of them from each other. */
  lemma SecondsTellApart(a: BlockHeader, b: BlockHeader)
    requires |a.prevBlockHash| == 32 && |a.merkleRoot| == 32 && |b.prevBlockHash| == 32 && |b.merkleRoot| == 32
    requires 0 < a.timestamp / 1_000_000_000 - b.timestamp / 1_000_000_000 < 0x1_0000_0000_0000_0000
    ensures Serialized(a) != Serialized(b)
  {
    FieldsReadBack(a);
    FieldsReadBack(b);
    NearbyDiffer(a.timestamp / 1_000_000_000, b.timestamp / 1_000_000_000);
  }

  lemma NearbyDiffer(x: int, y: int)
    ensures x > y && x % TWO_TO_64 == y % TWO_TO_64 ==> x - y >= TWO_TO_64
  {
    if x > y && x % TWO_TO_64 == y % TWO_TO_64 {
      var q := x / TWO_TO_64 - y / TWO_TO_64;
      assert x - y == q * TWO_TO_64;
      assert q >= 1;
    }
  }

  lemma FieldWidths()
    ensures Pow(256, 4) == 0x1_0000_0000 && Pow(256, 8) == TWO_TO_64
  {
  }

  function HashHeader(env: Env, h: BlockHeader): Hash {
    env.doubleHash(Serialized(h))
  }
}
