/** Proof of work: targets, the nonce search, and what a valid hash looks like. */
module ProofOfWork {
  import opened ByteStrings
  import opened Crypto
  import opened Header

  const MAX_NONCE: nat := 0xFFFF_FFFF
  const DEFAULT_TARGET_BITS: uint32 := 16

  /** 1 << (256 - bits), where the subtraction is on uint32. */
  function Target(bits: uint32): nat {
    Pow(2, (256 - bits) % 0x1_0000_0000)
  }

  function IsValidHash(hash: Bytes, bits: uint32): bool {
    BigEndian(hash) < Target(bits)
  }

  function MeetsTarget(env: Env, h: BlockHeader): bool {
    IsValidHash(HashHeader(env, h), h.difficultyTarget)
  }

  /** The search from nonce n on. On exhaustion it returns MAX_NONCE, never itself tried,
      with the hash of the last nonce that was. */
  function MineFrom(env: Env, h: BlockHeader, n: nat): (r: (uint32, Hash))
    requires n < MAX_NONCE
    decreases MAX_NONCE - n
  {
    var hash := HashHeader(env, h.(nonce := n));
    if IsValidHash(hash, h.difficultyTarget) then (n, hash)
    else if n + 1 == MAX_NONCE then (MAX_NONCE, hash)
    else MineFrom(env, h, n + 1)
  }

  function Mined(env: Env, h: BlockHeader): (uint32, Hash) {
    MineFrom(env, h, 0)
  }

  ghost predicate Exhausted(env: Env, h: BlockHeader) {
    forall n: uint32 :: n < MAX_NONCE ==> !MeetsTarget(env, h.(nonce := n))
  }

  /** The search finds the least satisfying nonce, or there is none below MAX_NONCE. */
  lemma {:induction false} MineFromLeast(env: Env, h: BlockHeader, n: nat)
    requires n < MAX_NONCE
    ensures var (nonce, hash) := MineFrom(env, h, n);
      if nonce < MAX_NONCE then
        n <= nonce && hash == HashHeader(env, h.(nonce := nonce)) && MeetsTarget(env, h.(nonce := nonce)) &&
        forall k: uint32 :: n <= k < nonce ==> !MeetsTarget(env, h.(nonce := k))
      else
        nonce == MAX_NONCE && hash == HashHeader(env, h.(nonce := MAX_NONCE - 1)) &&
        forall k: uint32 :: n <= k < MAX_NONCE ==> !MeetsTarget(env, h.(nonce := k))
    decreases MAX_NONCE - n
  {
    var hash := HashHeader(env, h.(nonce := n));
    if !IsValidHash(hash, h.difficultyTarget) {
      assert !MeetsTarget(env, h.(nonce := n));
      if n + 1 < MAX_NONCE {
        MineFromLeast(env, h, n + 1);
      }
    }
  }

  /** The search goes through all 32-bit nonces but the last. */
  lemma SearchSpace(env: Env, h: BlockHeader)
    ensures Mined(env, h).0 < 4_294_967_295 <==> exists n: uint32 :: n < 4_294_967_295 && MeetsTarget(env, h.(nonce := n))
  {
    MineFromLeast(env, h, 0);
  }

  /** The search gives up exactly when no nonce below MAX_NONCE works. */
  lemma MinedIffNotExhausted(env: Env, h: BlockHeader)
    ensures Mined(env, h).0 < MAX_NONCE <==> !Exhausted(env, h)
    ensures Mined(env, h).0 < MAX_NONCE ==>
      Mined(env, h).1 == HashHeader(env, h.(nonce := Mined(env, h).0)) &&
      MeetsTarget(env, h.(nonce := Mined(env, h).0))
  {
    MineFromLeast(env, h, 0);
  }

  /** A block from an exhausted search can not pass the two hash checks of block validation:
      were the untried nonce good, its hash would differ from the bad one that was returned. */
  lemma ExhaustedBlockRejected(env: Env, h: BlockHeader)
    requires Exhausted(env, h)
    ensures var (nonce, hash) := Mined(env, h);
      !(MeetsTarget(env, h.(nonce := nonce)) && HashHeader(env, h.(nonce := nonce)) == hash)
  {
    MineFromLeast(env, h, 0);
    assert !MeetsTarget(env, h.(nonce := MAX_NONCE - 1));
  }

  /** bytes.Compare. */
  function CompareHashes(a: Bytes, b: Bytes): int {
    if |a| == 0 && |b| == 0 then 0
    else if |a| == 0 then -1
    else if |b| == 0 then 1
    else if a[0] < b[0] then -1
    else if a[0] > b[0] then 1
    else CompareHashes(a[1..], b[1..])
  }

  lemma BigEndianFront(b: Bytes)
    requires |b| > 0
    ensures BigEndian(b) == b[0] * Pow(256, |b| - 1) + BigEndian(b[1..])
    ensures BigEndian(b[1..]) < Pow(256, |b| - 1)
  {
    assert b == b[..1] + b[1..];
    BigEndianConcat(b[..1], b[1..]);
    assert b[..1][..0] == [];
    assert BigEndian(b[..1]) == b[0];
    BigEndianBound(b[1..]);
  }

  lemma LeadingDigitOrder(x: nat, y: nat, p: nat, u: nat, v: nat)
    requires u < p && v < p && x < y
    ensures x * p + u < y * p + v
  {
    assert (x + 1) * p <= y * p;
  }

  /** Byte-wise order of equally long hashes is numeric order. */
  lemma {:induction false} CompareIsNumeric(a: Bytes, b: Bytes)
    requires |a| == |b|
    ensures CompareHashes(a, b) == -1 <==> BigEndian(a) < BigEndian(b)
    ensures CompareHashes(a, b) == 0 <==> a == b
    ensures CompareHashes(a, b) == 0 <==> BigEndian(a) == BigEndian(b)
    ensures CompareHashes(a, b) == 1 <==> BigEndian(a) > BigEndian(b)
  {
    if |a| > 0 {
      BigEndianFront(a);
      BigEndianFront(b);
      var p := Pow(256, |a| - 1);
      if a[0] < b[0] {
        LeadingDigitOrder(a[0], b[0], p, BigEndian(a[1..]), BigEndian(b[1..]));
      } else if a[0] > b[0] {
        LeadingDigitOrder(b[0], a[0], p, BigEndian(b[1..]), BigEndian(a[1..]));
      } else {
        CompareIsNumeric(a[1..], b[1..]);
        assert a == [a[0]] + a[1..] && b == [b[0]] + b[1..];
      }
    }
  }

  /** Bit i of a byte, counting from the most significant. */
  function ByteBit(x: byte, i: nat): nat
    requires i < 8
  {
    (x / Pow(2, 7 - i)) % 2
  }

  /** Bit i of a hash, counting from the most significant bit of its first byte. */
  function Bit(b: Bytes, i: nat): nat
    requires i < 8 * |b|
  {
    ByteBit(b[i / 8], i % 8)
  }

  ghost predicate LeadingZeros(b: Bytes, d: nat)
    requires d <= 8 * |b|
  {
    forall i: nat :: i < d ==> Bit(b, i) == 0
  }

  lemma PowersOfTwo()
    ensures Pow(2, 0) == 1 && Pow(2, 8) == 256
  {
    assert Pow(2, 4) == 16;
  }

  /** The top d bits of one byte are zero exactly when it is below 2^(8-d). */
  lemma {:induction false} ByteTopBits(x: byte, d: nat)
    requires d <= 8
    ensures (forall i: nat :: i < d ==> ByteBit(x, i) == 0) <==> x < Pow(2, 8 - d)
  {
    PowersOfTwo();
    if d > 0 {
      ByteTopBits(x, d - 1);
      BitBelow(x, d);
      assert (forall i: nat :: i < d ==> ByteBit(x, i) == 0) <==> (forall i: nat :: i < d - 1 ==> ByteBit(x, i) == 0) && ByteBit(x, d - 1) == 0;
    }
  }

  lemma BitBelow(x: byte, d: nat)
    requires 0 < d <= 8
    ensures x < Pow(2, 8 - d) <==> x < Pow(2, 8 - (d - 1)) && ByteBit(x, d - 1) == 0
  {
    var q := Pow(2, 8 - d);
    assert Pow(2, 8 - (d - 1)) == 2 * q;
    HalfBit(x, q);
    assert ByteBit(x, d - 1) == (x / q) % 2;
  }

  lemma HalfBit(x: nat, q: nat)
    requires q > 0
    ensures x < q ==> (x / q) % 2 == 0
    ensures q <= x < 2 * q ==> (x / q) % 2 == 1
  {
    if q <= x < 2 * q {
      assert x == 1 * q + (x - q);
      assert x / q == 1;
    }
  }

  /** 2^(8m) = 256^m. */
  lemma {:induction false} PowTwoBytes(m: nat)
    ensures Pow(2, 8 * m) == Pow(256, m)
  {
    if m > 0 {
      PowTwoBytes(m - 1);
      PowersOfTwo();
      PowAdd(2, 8, 8 * (m - 1));
    }
  }

  /** A hash is below 2^(8n-d) exactly when its first d bits are zero. */
  lemma {:induction false} TargetIsLeadingZeros(b: Bytes, d: nat)
    requires d <= 8 * |b|
    ensures BigEndian(b) < Pow(2, 8 * |b| - d) <==> LeadingZeros(b, d)
  {
    if |b| > 0 {
      if d <= 8 {
        TargetInFirstByte(b, d);
      } else {
        TargetIsLeadingZeros(b[1..], d - 8);
        TargetPastFirstByte(b, d);
        LeadingZerosPastFirstByte(b, d);
      }
    }
  }

  lemma TargetInFirstByte(b: Bytes, d: nat)
    requires |b| > 0 && d <= 8
    ensures BigEndian(b) < Pow(2, 8 * |b| - d) <==> LeadingZeros(b, d)
  {
    var m := |b| - 1;
    BigEndianFront(b);
    PowTwoBytes(m);
    PowAdd(2, 8 - d, 8 * m);
    BelowMultiple(b[0], Pow(2, 8 - d), Pow(256, m), BigEndian(b[1..]));
    ByteTopBits(b[0], d);
    forall i: nat | i < d ensures Bit(b, i) == ByteBit(b[0], i) { }
  }

  lemma TargetPastFirstByte(b: Bytes, d: nat)
    requires |b| > 0 && 8 < d <= 8 * |b|
    ensures BigEndian(b) < Pow(2, 8 * |b| - d) <==>
            b[0] == 0 && BigEndian(b[1..]) < Pow(2, 8 * |b[1..]| - (d - 8))
  {
    var m := |b| - 1;
    BigEndianFront(b);
    PowTwoBytes(m);
    PowMonotone(2, 8 * m - (d - 8), 8 * m);
    BelowMultiple(b[0], 1, Pow(256, m), BigEndian(b[1..]));
  }

  lemma BitOfFirst(b: Bytes, i: nat)
    requires i < 8 && |b| > 0
    ensures Bit(b, i) == ByteBit(b[0], i)
  {
  }

  lemma BitOfRest(b: Bytes, i: nat)
    requires 8 <= i < 8 * |b|
    ensures Bit(b, i) == Bit(b[1..], i - 8)
  {
    assert (i - 8) / 8 == i / 8 - 1 && (i - 8) % 8 == i % 8;
  }

  lemma ZeroByte(x: byte)
    ensures x == 0 <==> forall i: nat :: i < 8 ==> ByteBit(x, i) == 0
  {
    ByteTopBits(x, 8);
    PowersOfTwo();
  }

  lemma LeadingZerosPastFirstByte(b: Bytes, d: nat)
    requires |b| > 0 && 8 < d <= 8 * |b|
    ensures LeadingZeros(b, d) <==> b[0] == 0 && LeadingZeros(b[1..], d - 8)
  {
    ZeroByte(b[0]);
    forall i: nat | i < 8 ensures Bit(b, i) == ByteBit(b[0], i) { BitOfFirst(b, i); }
    forall i: nat | 8 <= i < d ensures Bit(b, i) == Bit(b[1..], i - 8) { BitOfRest(b, i); }
    if LeadingZeros(b, d) {
      forall i: nat | i < 8 ensures ByteBit(b[0], i) == 0 { assert Bit(b, i) == 0; }
      forall i: nat | i < d - 8 ensures Bit(b[1..], i) == 0 { assert Bit(b, i + 8) == 0; }
    }
  }

  lemma BelowMultiple(x: nat, q: nat, p: nat, low: nat)
    requires low < p
    ensures x * p + low < q * p <==> x < q
  {
    if x < q {
      assert (x + 1) * p <= q * p;
    } else {
      assert x * p >= q * p;
    }
  }

  /** The difficulty of a block is the number of leading zero bits its hash must have. */
  lemma ValidHashIffLeadingZeros(hash: Hash, bits: uint32)
    requires bits <= 256
    ensures IsValidHash(hash, bits) <==> LeadingZeros(hash, bits)
  {
    assert 8 * |hash| == 256 && (256 - bits) % 0x1_0000_0000 == 256 - bits;
    TargetIsLeadingZeros(hash, bits);
  }

  /** A harder target is met only by hashes that meet the easier one. */
  lemma HarderImpliesEasier(hash: Hash, bits: uint32)
    requires bits < 256
    ensures IsValidHash(hash, bits + 1) ==> IsValidHash(hash, bits)
  {
    ValidHashIffLeadingZeros(hash, bits);
    ValidHashIffLeadingZeros(hash, bits + 1);
  }
}
