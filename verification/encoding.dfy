/** Bytes, fixed-width unsigned integers and the encodings of the applications:
    big-endian integers, lower-case hexadecimal, UTF-8 and the byte order of strings. */
module Encoding {

  datatype Option<+T> = None | Some(value: T)

  const TWO32: int := 0x1_0000_0000
  const TWO63: int := 0x8000_0000_0000_0000
  const TWO64: int := 0x1_0000_0000_0000_0000

  type Byte = n: int | 0 <= n < 0x100
  type Uint32 = n: int | 0 <= n < TWO32
  type Uint64 = n: int | 0 <= n < TWO64

  /** What Go's len can return. */
  type Length = n: int | 0 <= n < TWO63

  /** A Go byte slice or a Go string; both are arbitrary bytes. */
  type Bytes = seq<Byte>

  /** Conversion and arithmetic that wrap as Go's uint32 and uint64 do. */
  function Wrap32(n: int): Uint32 { n % TWO32 }

  function Wrap64(n: int): Uint64 { n % TWO64 }

  /** A sum of two uint64 values wraps around at most once. */
  lemma WrapOnce(n: nat)
    requires n < 2 * TWO64
    ensures Wrap64(n) == if n < TWO64 then n else n - TWO64
  {
  }

  // ----- Big-endian integers -----

  function Pow256(k: nat): (p: nat)
    ensures p > 0
  {
    if k == 0 then 1 else 256 * Pow256(k - 1)
  }

  function BigEndian(v: nat, k: nat): (b: Bytes)
    ensures |b| == k
  {
    if k == 0 then [] else BigEndian(v / 256, k - 1) + [v % 256]
  }

  function Value(b: Bytes): (v: nat)
    ensures v < Pow256(|b|)
  {
    if b == [] then 0 else 256 * Value(b[..|b| - 1]) + b[|b| - 1]
  }

  lemma {:induction false} ValueOfBigEndian(v: nat, k: nat)
    requires v < Pow256(k)
    ensures Value(BigEndian(v, k)) == v
  {
    if k == 0 {
    } else {
      ValueOfBigEndian(v / 256, k - 1);
      assert BigEndian(v, k)[..k - 1] == BigEndian(v / 256, k - 1);
    }
  }

  lemma {:induction false} BigEndianOfValue(b: Bytes)
    ensures BigEndian(Value(b), |b|) == b
  {
    if b == [] {
    } else {
      var front := b[..|b| - 1];
      BigEndianOfValue(front);
      assert b == front + [b[|b| - 1]];
    }
  }

  function PutUint64(v: Uint64): (b: Bytes)
    ensures |b| == 8
  {
    BigEndian(v, 8)
  }

  /** Reads the first eight bytes, as binary.BigEndian.Uint64 does. */
  function GetUint64(b: Bytes): Uint64
    requires |b| >= 8
  {
    assert Pow256(8) == TWO64 by { Pow256Of8(); }
    Value(b[..8])
  }

  lemma Pow256Of8()
    ensures Pow256(8) == TWO64
  {
    assert Pow256(4) == TWO32;
    assert Pow256(6) == 0x1_0000_0000_0000;
  }

  lemma GetPutUint64(v: Uint64, rest: Bytes)
    ensures GetUint64(PutUint64(v) + rest) == v
  {
    Pow256Of8();
    ValueOfBigEndian(v, 8);
    assert (PutUint64(v) + rest)[..8] == PutUint64(v);
  }

  lemma PutGetUint64(b: Bytes)
    requires |b| >= 8
    ensures PutUint64(GetUint64(b)) == b[..8]
  {
    BigEndianOfValue(b[..8]);
  }

  // ----- Hexadecimal -----

  function HexDigit(n: Byte): Byte
    requires n < 16
  {
    if n < 10 then 48 + n else 87 + n
  }

  /** The "%x" rendering of a byte string. */
  function Hex(b: Bytes): (h: Bytes)
    ensures |h| == 2 * |b|
  {
    if b == [] then [] else [HexDigit(b[0] / 16), HexDigit(b[0] % 16)] + Hex(b[1..])
  }

  lemma {:induction false} HexInjective(a: Bytes, b: Bytes)
    requires Hex(a) == Hex(b)
    ensures a == b
  {
    if a == [] || b == [] {
    } else {
      assert Hex(a)[0] == Hex(b)[0] && Hex(a)[1] == Hex(b)[1];
      assert Hex(a)[2..] == Hex(a[1..]) && Hex(b)[2..] == Hex(b[1..]);
      HexInjective(a[1..], b[1..]);
      assert a == [a[0]] + a[1..] && b == [b[0]] + b[1..];
    }
  }

  // ----- String order -----

  /** Go's <= on strings: byte-wise lexicographic order. */
  predicate AtMost(a: Bytes, b: Bytes) {
    a == [] || (b != [] && (a[0] < b[0] || (a[0] == b[0] && AtMost(a[1..], b[1..]))))
  }

  predicate Below(a: Bytes, b: Bytes) { AtMost(a, b) && a != b }

  lemma {:induction false} AtMostTotal(a: Bytes, b: Bytes)
    ensures AtMost(a, b) || AtMost(b, a)
    ensures AtMost(a, b) && AtMost(b, a) ==> a == b
  {
    if a == [] || b == [] {
    } else {
      AtMostTotal(a[1..], b[1..]);
      assert a == [a[0]] + a[1..] && b == [b[0]] + b[1..];
    }
  }

  lemma {:induction false} AtMostTransitive(a: Bytes, b: Bytes, c: Bytes)
    requires AtMost(a, b) && AtMost(b, c)
    ensures AtMost(a, c)
  {
    if a == [] || b == [] || c == [] {
    } else if a[0] == b[0] == c[0] {
      AtMostTransitive(a[1..], b[1..], c[1..]);
    }
  }

  // ----- UTF-8 (RFC 3629, section 4) -----

  predicate Continues(s: Bytes, from: nat, count: nat) {
    from + count <= |s| && forall k :: from <= k < from + count ==> 0x80 <= s[k] <= 0xBF
  }

  /** The length of the well-formed character at the head of s, or 0. */
  function CharLength(s: Bytes): (n: nat)
    ensures n <= |s| && n <= 4
  {
    if s == [] then 0
    else if s[0] < 0x80 then 1
    else if 0xC2 <= s[0] <= 0xDF && Continues(s, 1, 1) then 2
    else if 0xE0 <= s[0] <= 0xEF && Continues(s, 1, 2)
            && (s[0] == 0xE0 ==> s[1] >= 0xA0) && (s[0] == 0xED ==> s[1] < 0xA0) then 3
    else if 0xF0 <= s[0] <= 0xF4 && Continues(s, 1, 3)
            && (s[0] == 0xF0 ==> s[1] >= 0x90) && (s[0] == 0xF4 ==> s[1] < 0x90) then 4
    else 0
  }

  predicate ValidUtf8(s: Bytes) {
    s == [] || (CharLength(s) > 0 && ValidUtf8(s[CharLength(s)..]))
  }
}
