/** Bytes and the fixed-width little-endian integers that the writer, the reader and the frame header store. */
module Bytes {

  newtype byte = x: int | 0 <= x < 256

  type Data = seq<byte>

  function Power256(n: nat): (p: nat)
    ensures p > 0
  {
    if n == 0 then 1 else 256 * Power256(n - 1)
  }

  /** `v` as `n` bytes, least significant first; bits beyond the width are cut off. */
  function Encode(v: nat, n: nat): (d: Data)
    ensures |d| == n
  {
    if n == 0 then [] else [(v % 256) as byte] + Encode(v / 256, n - 1)
  }

  function Decode(d: Data): nat {
    if d == [] then 0 else d[0] as int + 256 * Decode(d[1..])
  }

  /** Decoding gives back the value modulo the width. */
  lemma {:induction false} DecodeEncode(v: nat, n: nat)
    ensures Decode(Encode(v, n)) == v % Power256(n)
  {
    if n > 0 {
      DecodeEncode(v / 256, n - 1);
      assert Encode(v, n)[1..] == Encode(v / 256, n - 1);
      ModSplit(v, Power256(n - 1));
    }
  }

  lemma ModSplit(v: int, p: nat)
    requires p > 0
    ensures v % (256 * p) == v % 256 + 256 * (v / 256 % p)
  {
    var q, r := v / 256, v % 256;
    var a, b := q / p, q % p;
    assert v == a * (256 * p) + (r + 256 * b);
    assert b <= p - 1;
    DivModUnique(v, 256 * p, a, r + 256 * b);
  }

  lemma DivModUnique(v: int, m: int, a: int, r: int)
    requires m > 0 && 0 <= r < m && v == a * m + r
    ensures v / m == a && v % m == r
  {
    var a', r' := v / m, v % m;
    assert v == a' * m + r';
    assert (a - a') * m == r' - r;
    MultipleIsFar(a - a', m);
  }

  lemma MultipleIsFar(k: int, m: int)
    requires m > 0
    ensures k >= 1 ==> k * m >= m
    ensures k <= -1 ==> k * m <= -m
  {
    if k >= 1 {
      assert (k - 1) * m >= 0;
    } else if k <= -1 {
      assert (-1 - k) * m >= 0;
    }
  }

  /** Every string of bytes is the encoding of the value it decodes to. */
  lemma {:induction false} EncodeDecode(d: Data)
    ensures Encode(Decode(d), |d|) == d
  {
    if d != [] {
      EncodeDecode(d[1..]);
      assert Decode(d) / 256 == Decode(d[1..]) && Decode(d) % 256 == d[0] as int;
    }
  }

  /** Where each byte of a number stands: byte `i` has the weight 256 to the power of `i`. */
  lemma {:induction false} EncodedByte(v: nat, n: nat, i: nat)
    requires i < n
    ensures Encode(v, n)[i] as int == v / Power256(i) % 256
  {
    if i > 0 {
      EncodedByte(v / 256, n - 1, i - 1);
      DivTwice(v, 256, Power256(i - 1));
    }
  }

  /** Cutting off `r` of `a`, then `s` of `b`, leaves what cutting off both at once does. */
  lemma DigitsFit(a: int, b: int, q: int, s: int, r: int)
    requires a > 0 && b > 0 && 0 <= r < a && 0 <= s < b
    ensures a * b > 0 && 0 <= s * a + r < a * b
    ensures (q * b + s) * a + r == q * (a * b) + (s * a + r)
  {
    assert (b - 1 - s) * a >= 0 && s * a >= 0;
    assert (q * b) * a == q * (a * b);
  }

  lemma DivTwice(v: int, a: int, b: int)
    requires a > 0 && b > 0
    ensures a * b > 0 && v / a / b == v / (a * b)
  {
    var q, r := v / a, v % a;
    var q', s := q / b, q % b;
    DigitsFit(a, b, q', s, r);
    DivModUnique(v, a * b, q', s * a + r);
  }

  lemma LowPart(v: int, p: int, k: int)
    requires p > 0 && k > 0
    ensures p * k > 0 && v % (p * k) / p == v / p % k
  {
    var q, r := v / p, v % p;
    var q', s := q / k, q % k;
    DigitsFit(p, k, q', s, r);
    DivModUnique(v, p * k, q', s * p + r);
    DivModUnique(s * p + r, p, s, r);
  }

  lemma {:induction false} DecodeBounded(d: Data)
    ensures Decode(d) < Power256(|d|)
  {
    if d != [] { DecodeBounded(d[1..]); }
  }

  /** The first bytes of a number are its low ones. */
  lemma {:induction false} DecodePrefix(d: Data, k: nat)
    requires k <= |d|
    ensures Decode(d[..k]) == Decode(d) % Power256(k)
  {
    if k > 0 {
      DecodePrefix(d[1..], k - 1);
      assert d[..k][1..] == d[1..][..k - 1];
      ModSplit(Decode(d), Power256(k - 1));
      assert Decode(d) / 256 == Decode(d[1..]) && Decode(d) % 256 == d[0] as int;
    }
  }

  lemma DecodedByte(d: Data, i: nat)
    requires i < |d|
    ensures d[i] as int == Decode(d) / Power256(i) % 256
  {
    EncodeDecode(d);
    EncodedByte(Decode(d), |d|, i);
  }

  /** A negative number has the bytes of its two's complement. */
  lemma StoredByte(v: int, n: nat, i: nat)
    requires i < n
    ensures Encode(ToUnsigned(v, n), n)[i] as int == v / Power256(i) % 256
  {
    var p, m := Power256(i), Power256(n - i - 1);
    EncodedByte(ToUnsigned(v, n), n, i);
    PowerSplit(i, n);
    LowPart(v, p, 256 * m);
    ModSplit(v / p, m);
    DivModUnique(v / p % (256 * m), 256, v / p / 256 % m, v / p % 256);
  }

  lemma {:induction false} PowerSplit(i: nat, n: nat)
    requires i < n
    ensures Power256(n) == Power256(i) * (256 * Power256(n - i - 1))
  {
    if i > 0 { PowerSplit(i - 1, n - 1); }
  }

  /** Two's complement: the unsigned value that stores a signed one in `n` bytes. */
  function ToUnsigned(v: int, n: nat): nat {
    v % Power256(n)
  }

  function ToSigned(u: nat, n: nat): int {
    if 2 * u < Power256(n) then u else u - Power256(n)
  }

  predicate FitsSigned(v: int, n: nat) {
    0 <= 2 * v + Power256(n) && 2 * v < Power256(n)
  }

  lemma SignedRoundTrip(v: int, n: nat)
    requires FitsSigned(v, n)
    ensures ToUnsigned(v, n) < Power256(n) && ToSigned(ToUnsigned(v, n), n) == v
  {
    var p := Power256(n);
    DivModUnique(v, p, if v < 0 then -1 else 0, if v < 0 then v + p else v);
  }

  /** A signed value stored in `n` bytes reads back as itself. */
  lemma SignedBytesRoundTrip(v: int, n: nat)
    requires FitsSigned(v, n)
    ensures ToSigned(Decode(Encode(ToUnsigned(v, n), n)), n) == v
  {
    SignedRoundTrip(v, n);
    DecodeEncode(ToUnsigned(v, n), n);
    DivModUnique(ToUnsigned(v, n), Power256(n), 0, ToUnsigned(v, n));
  }

  lemma UnsignedBytesRoundTrip(v: nat, n: nat)
    requires v < Power256(n)
    ensures Decode(Encode(v, n)) == v
  {
    DecodeEncode(v, n);
    DivModUnique(v, Power256(n), 0, v);
  }

  /** The concatenation of a list of byte strings. */
  function Concat(chunks: seq<Data>): Data {
    if chunks == [] then [] else chunks[0] + Concat(chunks[1..])
  }

  lemma NoChunks()
    ensures Concat([]) == []
  {
  }

  lemma ConcatFirst(chunk: Data, chunks: seq<Data>)
    ensures Concat([chunk] + chunks) == chunk + Concat(chunks)
  {
    assert ([chunk] + chunks)[1..] == chunks;
  }

  lemma {:induction false} ConcatAppend(a: seq<Data>, b: seq<Data>)
    ensures Concat(a + b) == Concat(a) + Concat(b)
  {
    if a == [] {
      assert a + b == b;
    } else {
      ConcatAppend(a[1..], b);
      assert (a + b)[1..] == a[1..] + b;
      Associate(a[0], Concat(a[1..]), Concat(b));
    }
  }

  lemma Associate<T>(a: seq<T>, b: seq<T>, c: seq<T>)
    ensures a + (b + c) == a + b + c
  {
  }

  /** A prefix of `d` and the bytes behind it make a longer prefix. */
  lemma ExtendPrefix(before: Data, d: Data, i: nat, j: nat)
    requires i <= j <= |d|
    ensures before + d[..i] + d[i..j] == before + d[..j]
  {
  }
}
