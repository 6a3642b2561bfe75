/** Byte strings and the two integer encodings the code uses: minimal big-endian
    (math/big) and fixed-width little-endian (encoding/binary). */
module ByteStrings {

  type byte = x: int | 0 <= x < 256
  type Bytes = seq<byte>

  /** SHA-256 digests are 32 bytes long. */
  type Hash = b: Bytes | |b| == 32 witness ZeroBytes(32)

  function ZeroBytes(n: nat): (b: Bytes)
    ensures |b| == n && forall i :: 0 <= i < n ==> b[i] == 0
  {
    if n == 0 then [] else [0] + ZeroBytes(n - 1)
  }

  function Pow(base: nat, n: nat): (r: nat)
    ensures base > 0 ==> r > 0
  {
    if n == 0 then 1 else base * Pow(base, n - 1)
  }

  lemma {:induction false} PowAdd(base: nat, m: nat, n: nat)
    ensures Pow(base, m + n) == Pow(base, m) * Pow(base, n)
  {
    if m == 0 {
    } else {
      PowAdd(base, m - 1, n);
      assert base * (Pow(base, m - 1) * Pow(base, n)) == (base * Pow(base, m - 1)) * Pow(base, n);
    }
  }

  lemma {:induction false} PowMonotone(base: nat, m: nat, n: nat)
    requires base > 0 && m <= n
    ensures Pow(base, m) <= Pow(base, n)
  {
    if m < n {
      PowMonotone(base, m, n - 1);
      assert base * Pow(base, n - 1) >= Pow(base, n - 1);
    }
  }

  /** big.Int.SetBytes. */
  function BigEndian(b: Bytes): nat {
    if |b| == 0 then 0 else BigEndian(b[..|b| - 1]) * 256 + b[|b| - 1]
  }

  /** big.Int.Bytes: no leading zero byte, and the empty string for zero. */
  function MinimalBytes(n: nat): Bytes {
    if n == 0 then [] else MinimalBytes(n / 256) + [n % 256]
  }

  lemma {:induction false} MinimalBytesDecode(n: nat)
    ensures BigEndian(MinimalBytes(n)) == n
  {
    if n > 0 {
      MinimalBytesDecode(n / 256);
      var b := MinimalBytes(n);
      assert b[..|b| - 1] == MinimalBytes(n / 256);
    }
  }

  lemma {:induction false} BigEndianBound(b: Bytes)
    ensures BigEndian(b) < Pow(256, |b|)
  {
    if |b| > 0 {
      BigEndianBound(b[..|b| - 1]);
    }
  }

  /** A positive number of minimal length k is at least 256^(k-1). */
  lemma {:induction false} MinimalBytesLower(n: nat)
    requires n > 0
    ensures |MinimalBytes(n)| > 0
    ensures Pow(256, |MinimalBytes(n)| - 1) <= n
  {
    if n >= 256 {
      MinimalBytesLower(n / 256);
      assert |MinimalBytes(n)| == |MinimalBytes(n / 256)| + 1;
    } else {
      assert MinimalBytes(n / 256) == [];
    }
  }

  lemma {:induction false} BigEndianConcat(a: Bytes, b: Bytes)
    ensures BigEndian(a + b) == BigEndian(a) * Pow(256, |b|) + BigEndian(b)
  {
    if |b| == 0 {
      assert a + b == a;
    } else {
      var b' := b[..|b| - 1];
      assert (a + b)[..|a + b| - 1] == a + b';
      BigEndianConcat(a, b');
      calc {
        BigEndian(a + b);
        (BigEndian(a) * Pow(256, |b'|) + BigEndian(b')) * 256 + b[|b| - 1];
        BigEndian(a) * Pow(256, |b'|) * 256 + BigEndian(b);
        { assert Pow(256, |b'|) * 256 == Pow(256, |b|); MulAssoc(BigEndian(a), Pow(256, |b'|), 256); }
        BigEndian(a) * Pow(256, |b|) + BigEndian(b);
      }
    }
  }

  lemma MulAssoc(a: int, b: int, c: int)
    ensures a * b * c == a * (b * c)
  {
  }

  /** encoding/binary, little endian, k bytes. */
  function LittleEndian(n: nat, k: nat): (b: Bytes)
    ensures |b| == k
  {
    if k == 0 then [] else [n % 256] + LittleEndian(n / 256, k - 1)
  }

  lemma {:induction false} LittleEndianInjective(m: nat, n: nat, k: nat)
    requires m < Pow(256, k) && n < Pow(256, k)
    requires LittleEndian(m, k) == LittleEndian(n, k)
    ensures m == n
  {
    if k > 0 {
      var x, y := LittleEndian(m, k), LittleEndian(n, k);
      assert x[0] == y[0];
      assert x[1..] == LittleEndian(m / 256, k - 1) && y[1..] == LittleEndian(n / 256, k - 1);
      LittleEndianInjective(m / 256, n / 256, k - 1);
    }
  }

  /** The bytes of an ASCII literal. */
  function Ascii(s: string): (b: Bytes)
    requires forall i :: 0 <= i < |s| ==> s[i] < 128 as char
    ensures |b| == |s| && forall i :: 0 <= i < |s| ==> b[i] == s[i] as int
  {
    seq(|s|, i requires 0 <= i < |s| => s[i] as int)
  }

  /** The %d verb, for non-negative numbers. */
  function Decimal(n: nat): (b: Bytes)
    ensures |b| > 0
  {
    if n < 10 then [48 + n] else Decimal(n / 10) + [48 + n % 10]
  }

  lemma {:induction false} DecimalInjective(m: nat, n: nat)
    requires Decimal(m) == Decimal(n)
    ensures m == n
  {
    var x, y := Decimal(m), Decimal(n);
    assert x[|x| - 1] == y[|y| - 1];
    assert m % 10 == n % 10;
    if m >= 10 && n >= 10 {
      assert x[..|x| - 1] == Decimal(m / 10) && y[..|y| - 1] == Decimal(n / 10);
      DecimalInjective(m / 10, n / 10);
    }
  }

  /** The number a string of digits denotes. */
  function DecimalValue(b: Bytes): int {
    if b == [] then 0 else 10 * DecimalValue(b[..|b| - 1]) + (b[|b| - 1] as int - 48)
  }

  /** %d writes the number in digits, without a leading zero. */
  lemma {:induction false} DecimalReadsBack(n: nat)
    ensures DecimalValue(Decimal(n)) == n
    ensures forall i :: 0 <= i < |Decimal(n)| ==> 48 <= Decimal(n)[i] <= 57
    ensures n > 0 ==> Decimal(n)[0] != 48
    ensures n == 0 ==> Decimal(n) == [48]
  {
    var b := Decimal(n);
    if n < 10 {
      assert b[..0] == [];
    } else {
      DecimalReadsBack(n / 10);
      assert b[..|b| - 1] == Decimal(n / 10);
    }
  }
}
