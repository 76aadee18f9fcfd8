/** The encodings against independent definitions: positional values, digits read back, the
    first difference of two strings, and the encoding of Unicode scalar values. */
module EncodingLaws {
  import opened Encoding

  // ----- Big-endian integers -----

  function Int(b: Byte): int { b }

  /** The first byte is the most significant one, and bytes beyond the eighth do not count. */
  lemma GetUint64Means(b: Bytes)
    requires |b| >= 8
    ensures GetUint64(b) ==
              0x100_0000_0000_0000 * Int(b[0]) + 0x1_0000_0000_0000 * Int(b[1]) + 0x100_0000_0000 * Int(b[2])
              + 0x1_0000_0000 * Int(b[3]) + 0x100_0000 * Int(b[4]) + 0x1_0000 * Int(b[5]) + 0x100 * Int(b[6])
              + Int(b[7])
  {
    var s := b[..8];
    ValueStep(s, 8);
    ValueStep(s, 7);
    ValueStep(s, 6);
    ValueStep(s, 5);
    ValueStep(s, 4);
    ValueStep(s, 3);
    ValueStep(s, 2);
    ValueStep(s, 1);
    hide Value;
    assert s[..8] == s;
    assert Value(s[..0]) == 0 by {
      NoValue(s[..0]);
    }
  }

  lemma NoValue(b: Bytes)
    requires b == []
    ensures Value(b) == 0
  {
  }

  lemma ValueStep(s: Bytes, n: nat)
    requires 0 < n <= |s|
    ensures Value(s[..n]) == 256 * Value(s[..n - 1]) + s[n - 1]
  {
    assert s[..n][..n - 1] == s[..n - 1];
  }

  // ----- Hexadecimal -----

  /** The value of a lower-case hexadecimal digit. */
  function DigitValue(c: Byte): Option<nat> {
    if '0' as int <= c <= '9' as int then Some(c - '0' as int)
    else if 'a' as int <= c <= 'f' as int then Some(c - 'a' as int + 10)
    else None
  }

  /** Two digits for each byte, the high one first. */
  lemma {:induction false} HexMeans(b: Bytes, i: nat)
    requires i < |b|
    ensures var high, low := DigitValue(Hex(b)[2 * i]), DigitValue(Hex(b)[2 * i + 1]);
            high.Some? && low.Some? && 16 * high.value + low.value == b[i]
  {
    assert Hex(b)[2..] == Hex(b[1..]);
    if i > 0 {
      HexMeans(b[1..], i - 1);
      assert Hex(b)[2 * i] == Hex(b[1..])[2 * (i - 1)];
      assert Hex(b)[2 * i + 1] == Hex(b[1..])[2 * (i - 1) + 1];
    }
  }

  // ----- String order -----

  /** Go's order: the first difference decides, and a prefix comes first. */
  ghost predicate FirstDifference(a: Bytes, b: Bytes, k: int) {
    0 <= k <= |a| && k <= |b| && a[..k] == b[..k] && (k == |a| || (k < |b| && a[k] < b[k]))
  }

  lemma {:induction false} AtMostMeans(a: Bytes, b: Bytes)
    ensures AtMost(a, b) <==> exists k :: FirstDifference(a, b, k)
  {
    if a == [] {
      assert FirstDifference(a, b, 0);
    } else if b == [] || a[0] != b[0] {
      if AtMost(a, b) {
        assert FirstDifference(a, b, 0);
      }
      forall k | FirstDifference(a, b, k) ensures AtMost(a, b) {
        assert k > 0 ==> a[..k][0] == b[..k][0];
      }
    } else {
      AtMostMeans(a[1..], b[1..]);
      if AtMost(a, b) {
        var k :| FirstDifference(a[1..], b[1..], k);
        assert a[..k + 1] == [a[0]] + a[1..][..k] && b[..k + 1] == [b[0]] + b[1..][..k];
        assert FirstDifference(a, b, k + 1);
      }
      forall k | FirstDifference(a, b, k) ensures AtMost(a, b) {
        if k > 0 {
          assert a[1..][..k - 1] == a[..k][1..] && b[1..][..k - 1] == b[..k][1..];
          assert FirstDifference(a[1..], b[1..], k - 1);
        }
      }
    }
  }

  // ----- UTF-8 -----

  /** A Unicode scalar value: a code point that is no surrogate. */
  predicate Scalar(n: nat) { n < 0xD800 || 0xE000 <= n < 0x11_0000 }

  function EncodeChar(n: nat): Bytes
    requires Scalar(n)
  {
    if n < 0x80 then [n]
    else if n < 0x800 then [0xC0 + n / 64, 0x80 + n % 64]
    else if n < 0x1_0000 then [0xE0 + n / 4096, 0x80 + n / 64 % 64, 0x80 + n % 64]
    else [0xF0 + n / 262144, 0x80 + n / 4096 % 64, 0x80 + n / 64 % 64, 0x80 + n % 64]
  }

  function EncodeText(cs: seq<nat>): Bytes
    requires forall n | n in cs :: Scalar(n)
  {
    if cs == [] then [] else EncodeChar(cs[0]) + EncodeText(cs[1..])
  }

  lemma CharOfScalar(n: nat, rest: Bytes)
    requires Scalar(n)
    ensures CharLength(EncodeChar(n) + rest) == |EncodeChar(n)|
  {
  }

  /** Appending six bits. */
  function Six(n: nat, b: Byte): nat
    requires b >= 0x80
  {
    64 * n + (Int(b) - 0x80)
  }

  lemma SixBack(n: nat, b: Byte)
    requires 0x80 <= b <= 0xBF
    ensures Six(n, b) / 64 == n && Six(n, b) % 64 == Int(b) - 0x80
  {
  }

  lemma Shifts(n: nat)
    ensures n / 4096 == n / 64 / 64 && n / 262144 == n / 64 / 64 / 64
  {
  }

  lemma ScalarOfTwo(s: Bytes) returns (n: nat)
    requires CharLength(s) == 2
    ensures Scalar(n) && EncodeChar(n) == s[..2]
  {
    n := Six(Int(s[0]) - 0xC0, s[1]);
    SixBack(Int(s[0]) - 0xC0, s[1]);
  }

  lemma ScalarOfThree(s: Bytes) returns (n: nat)
    requires CharLength(s) == 3
    ensures Scalar(n) && EncodeChar(n) == s[..3]
  {
    var high: nat := Int(s[0]) - 0xE0;
    var mid := Six(high, s[1]);
    n := Six(mid, s[2]);
    SixBack(high, s[1]);
    SixBack(mid, s[2]);
    Shifts(n);
  }

  lemma ScalarOfFour(s: Bytes) returns (n: nat)
    requires CharLength(s) == 4
    ensures Scalar(n) && EncodeChar(n) == s[..4]
  {
    var high: nat := Int(s[0]) - 0xF0;
    var mid := Six(high, s[1]);
    var low := Six(mid, s[2]);
    n := Six(low, s[3]);
    SixBack(high, s[1]);
    SixBack(mid, s[2]);
    SixBack(low, s[3]);
    Shifts(n);
  }

  lemma ScalarOfChar(s: Bytes) returns (n: nat)
    requires CharLength(s) > 0
    ensures Scalar(n) && EncodeChar(n) == s[..CharLength(s)]
  {
    var k := CharLength(s);
    if k == 1 {
      n := s[0];
    } else {
      hide Scalar, EncodeChar;
      if k == 2 {
        n := ScalarOfTwo(s);
      } else if k == 3 {
        n := ScalarOfThree(s);
      } else {
        n := ScalarOfFour(s);
      }
    }
  }

  lemma {:induction false} TextIsValid(cs: seq<nat>)
    requires forall n | n in cs :: Scalar(n)
    ensures ValidUtf8(EncodeText(cs))
  {
    if cs != [] {
      var rest := EncodeText(cs[1..]);
      TextIsValid(cs[1..]);
      CharOfScalar(cs[0], rest);
      assert (EncodeChar(cs[0]) + rest)[|EncodeChar(cs[0])|..] == rest;
    }
  }

  lemma {:induction false} ValidIsText(s: Bytes) returns (cs: seq<nat>)
    requires ValidUtf8(s)
    ensures (forall n | n in cs :: Scalar(n)) && EncodeText(cs) == s
    decreases |s|
  {
    cs := [];
    if s != [] {
      var k := CharLength(s);
      var n := ScalarOfChar(s);
      var rest := ValidIsText(s[k..]);
      cs := [n] + rest;
      assert cs[1..] == rest && s == s[..k] + s[k..];
    }
  }

  /** Valid UTF-8 is exactly what encodes a text of scalar values. */
  lemma ValidUtf8Means(s: Bytes)
    ensures ValidUtf8(s) <==> exists cs: seq<nat> :: (forall n | n in cs :: Scalar(n)) && EncodeText(cs) == s
  {
    if ValidUtf8(s) {
      var cs := ValidIsText(s);
    }
    forall cs: seq<nat> | (forall n | n in cs :: Scalar(n)) && EncodeText(cs) == s ensures ValidUtf8(s) {
      TextIsValid(cs);
    }
  }
}
