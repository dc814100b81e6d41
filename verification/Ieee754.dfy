/** The numbers that binary64 and binary32 blocks stand for, and when two blocks compare as equal. */
module Ieee754 {
  import opened Bytes

  /** A finite number is scaled to an integer: by 2^1074 for binary64, by 2^149 for binary32. */
  datatype Number = NotANumber | Infinite(negative: bool) | Finite(scaled: int)

  function Pow2(n: nat): (p: nat)
    ensures p > 0
  {
    if n == 0 then 1 else 2 * Pow2(n - 1)
  }

  /** Subnormal numbers have exponent field 0; the others have a leading one. */
  function Magnitude(bits: nat, exponent: nat, fraction: nat): nat {
    if exponent == 0 then fraction else Product(Pow2(bits) + fraction, Pow2(exponent - 1))
  }

  function Product(a: nat, b: nat): nat { a * b }

  function NumberOf(bits: nat, largest: nat, negative: bool, exponent: nat, fraction: nat): Number {
    if exponent == largest then if fraction == 0 then Infinite(negative) else NotANumber
    else
      var magnitude: int := Magnitude(bits, exponent, fraction);
      Finite(if negative then -magnitude else magnitude)
  }

  // binary64: one sign bit, 11 exponent bits, 52 fraction bits.

  function Exponent64(x: Block8): nat { x[7] as nat % 128 * 16 + x[6] as nat / 16 }

  function Fraction64(x: Block8): nat { x[6] as nat % 16 * 0x1_0000_0000_0000 + FromLittleEndian(x[..6]) }

  function Number64(x: Block8): Number {
    NumberOf(52, 2047, x[7] >= 128, Exponent64(x), Fraction64(x))
  }

  // binary32: one sign bit, 8 exponent bits, 23 fraction bits.

  function Exponent32(x: Block4): nat { x[3] as nat % 128 * 2 + x[2] as nat / 128 }

  function Fraction32(x: Block4): nat { x[2] as nat % 128 * 0x1_0000 + FromLittleEndian(x[..2]) }

  function Number32(x: Block4): Number {
    NumberOf(23, 255, x[3] >= 128, Exponent32(x), Fraction32(x))
  }

  /** A NaN is not even equal to itself; the two zeros are equal. */
  predicate SameNumber(a: Number, b: Number) { a == b && !a.NotANumber? }

  // The comparison on blocks.

  predicate IsNaN64(x: Block8) {
    x[7] % 128 == 127 && x[6] >= 240 && x[..7] != [0, 0, 0, 0, 0, 0, 240]
  }

  predicate IsZero64(x: Block8) { x[..7] == [0, 0, 0, 0, 0, 0, 0] && x[7] % 128 == 0 }

  predicate DoubleEq(x: Block8, y: Block8) {
    !IsNaN64(x) && !IsNaN64(y) && (x == y || (IsZero64(x) && IsZero64(y)))
  }

  predicate IsNaN32(x: Block4) {
    x[3] % 128 == 127 && x[2] >= 128 && x[..3] != [0, 0, 128]
  }

  predicate IsZero32(x: Block4) { x[..3] == [0, 0, 0] && x[3] % 128 == 0 }

  predicate FloatEq(x: Block4, y: Block4) {
    !IsNaN32(x) && !IsNaN32(y) && (x == y || (IsZero32(x) && IsZero32(y)))
  }

  // Different fields are different numbers, but for the zeros.

  lemma ProductGrows(a: nat, b: nat, c: nat)
    requires a < b && c > 0
    ensures Product(a, c) < Product(b, c) && Product(c, a) < Product(c, b)
  {
    assert (b - a) * c > 0;
  }

  lemma ProductParts(a: nat, b: nat, c: nat)
    ensures Product(a + b, c) == Product(a, c) + Product(b, c)
    ensures Product(a, 2 * c) == Product(a, c) + Product(a, c)
    ensures Product(a, 1) == a && Product(0, c) == 0
  {
  }

  lemma {:induction false} Pow2Grows(a: nat, b: nat)
    requires a <= b
    ensures Pow2(a) <= Pow2(b)
    decreases b
  {
    if a < b {
      Pow2Grows(a, b - 1);
    }
  }

  /** Magnitudes with the same exponent field lie between two powers of two. */
  lemma MagnitudeBounds(bits: nat, e: nat, f: nat)
    requires f < Pow2(bits)
    ensures Magnitude(bits, e, f) < Product(Pow2(bits), Pow2(e))
    ensures e > 0 ==> Magnitude(bits, e, f) >= Product(Pow2(bits), Pow2(e - 1)) > 0
  {
    var b := Pow2(bits);
    ProductParts(b, f, 1);
    if e > 0 {
      var p := Pow2(e - 1);
      ProductParts(b, f, p);
      ProductGrows(f, b, p);
      ProductGrows(0, b, p);
      ProductParts(0, 0, p);
      hide Product;
    }
  }

  lemma SmallerExponent(bits: nat, e: nat, f: nat, e': nat, f': nat)
    requires f < Pow2(bits) && f' < Pow2(bits) && e < e'
    ensures Magnitude(bits, e, f) < Magnitude(bits, e', f')
  {
    hide Magnitude, Product;
    MagnitudeBounds(bits, e, f);
    MagnitudeBounds(bits, e', f');
    Pow2Grows(e, e' - 1);
    if Pow2(e) < Pow2(e' - 1) {
      ProductGrows(Pow2(e), Pow2(e' - 1), Pow2(bits));
    }
  }

  lemma MagnitudeInjective(bits: nat, e: nat, f: nat, e': nat, f': nat)
    requires f < Pow2(bits) && f' < Pow2(bits) && Magnitude(bits, e, f) == Magnitude(bits, e', f')
    ensures e == e' && f == f'
  {
    if e < e' {
      SmallerExponent(bits, e, f, e', f');
    } else if e' < e {
      SmallerExponent(bits, e', f', e, f);
    } else if e > 0 && f != f' {
      hide Product;
      var b, p := Pow2(bits), Pow2(e - 1);
      ProductGrows(b + if f < f' then f else f', b + if f < f' then f' else f, p);
    }
  }

  lemma ZeroMagnitude(bits: nat, e: nat, f: nat)
    requires f < Pow2(bits)
    ensures Magnitude(bits, e, f) == 0 <==> e == 0 && f == 0
  {
    MagnitudeBounds(bits, e, f);
  }

  /** Two numbers from fields are equal if the fields are, or both are zeros of any sign. */
  lemma SameFields(bits: nat, largest: nat, n: bool, e: nat, f: nat, n': bool, e': nat, f': nat)
    requires f < Pow2(bits) && f' < Pow2(bits) && largest > 0
    ensures NumberOf(bits, largest, n, e, f).NotANumber? <==> e == largest && f != 0
    ensures SameNumber(NumberOf(bits, largest, n, e, f), NumberOf(bits, largest, n', e', f')) <==>
            && !(e == largest && f != 0)
            && ((n == n' && e == e' && f == f') || (e == f == e' == f' == 0))
  {
    hide Magnitude;
    ZeroMagnitude(bits, e, f);
    ZeroMagnitude(bits, e', f');
    if Magnitude(bits, e, f) == Magnitude(bits, e', f') {
      MagnitudeInjective(bits, e, f, e', f');
    }
  }

  // From fields to bytes.

  lemma {:induction false} FromLittleEndianInjective(s: seq<byte>, t: seq<byte>)
    requires |s| == |t| && FromLittleEndian(s) == FromLittleEndian(t)
    ensures s == t
  {
    if s != [] {
      FromLittleEndianInjective(s[1..], t[1..]);
      assert s == [s[0]] + s[1..] && t == [t[0]] + t[1..];
    }
  }

  lemma Pow2Values()
    ensures Pow2(23) == 0x80_0000 && Pow2(52) == 0x10_0000_0000_0000
  {
    assert Pow2(10) == 1024;
    assert Pow2(20) == 0x10_0000;
    assert Pow2(30) == 0x4000_0000;
    assert Pow2(40) == 0x100_0000_0000;
    assert Pow2(50) == 0x4_0000_0000_0000;
  }

  lemma Fields64(x: Block8)
    ensures Fraction64(x) < Pow2(52)
  {
    FromLittleEndianBound(x[..6]);
    assert Pow256(6) == 0x1_0000_0000_0000 by { Pow256Six(); }
    Pow2Values();
  }

  lemma Pow256Six()
    ensures Pow256(6) == 0x1_0000_0000_0000
  {
    assert Pow256(1) == 256;
    assert Pow256(3) == 0x100_0000;
  }

  lemma UpperBytes64(a: byte, b: byte, c: byte, d: byte, u: nat, v: nat)
    requires u < 0x1_0000_0000_0000 && v < 0x1_0000_0000_0000
    requires (a >= 128) == (c >= 128) && a % 128 * 16 + b / 16 == c % 128 * 16 + d / 16
    requires b % 16 * 0x1_0000_0000_0000 + u == d % 16 * 0x1_0000_0000_0000 + v
    ensures a == c && b == d && u == v
  {
    assert b % 16 == d % 16;
    assert a % 128 == if a >= 128 then a - 128 else a;
    assert c % 128 == if c >= 128 then c - 128 else c;
    assert 0 <= b / 16 < 16 && 0 <= d / 16 < 16;
  }

  lemma Fields64Injective(x: Block8, y: Block8)
    requires (x[7] >= 128) == (y[7] >= 128) && Exponent64(x) == Exponent64(y) && Fraction64(x) == Fraction64(y)
    ensures x == y
  {
    FromLittleEndianBound(x[..6]);
    FromLittleEndianBound(y[..6]);
    Pow256Six();
    UpperBytes64(x[7], x[6], y[7], y[6], FromLittleEndian(x[..6]), FromLittleEndian(y[..6]));
    FromLittleEndianInjective(x[..6], y[..6]);
    assert x == x[..6] + [x[6], x[7]] && y == y[..6] + [y[6], y[7]];
  }

  lemma NaNIsNoNumber64(x: Block8)
    ensures IsNaN64(x) <==> Exponent64(x) == 2047 && Fraction64(x) != 0
    ensures IsZero64(x) <==> Exponent64(x) == 0 && Fraction64(x) == 0
  {
    var zeros: seq<byte> := [0, 0, 0, 0, 0, 0];
    ZerosAreZero();
    if FromLittleEndian(x[..6]) == 0 {
      FromLittleEndianInjective(x[..6], zeros);
    }
    assert x[..7] == x[..6] + [x[6]];
    assert [0, 0, 0, 0, 0, 0, 240] == zeros + [240] && [0, 0, 0, 0, 0, 0, 0] == zeros + [0];
    SameSnoc(x[..6], zeros, x[6], 240);
    SameSnoc(x[..6], zeros, x[6], 0);
  }

  lemma SameSnoc(s: seq<byte>, t: seq<byte>, a: byte, b: byte)
    ensures s + [a] == t + [b] <==> s == t && a == b
  {
    if s + [a] == t + [b] {
      assert s == (s + [a])[..|s|] && t == (t + [b])[..|t|];
      assert (s + [a])[|s|] == (t + [b])[|s|];
    }
  }

  lemma ZerosAreZero()
    ensures FromLittleEndian([0, 0, 0, 0, 0, 0]) == 0 && FromLittleEndian([0, 0]) == 0
  {
    var s: seq<byte> := [0, 0, 0, 0, 0, 0];
    assert s[1..] == [0, 0, 0, 0, 0] && s[1..][1..] == [0, 0, 0, 0] && s[1..][1..][1..] == [0, 0, 0];
    assert FromLittleEndian([0, 0, 0]) == FromLittleEndian([0, 0, 0][1..]) == FromLittleEndian([0, 0]);
  }

  /** Doubles compare as equal exactly if they stand for the same number. */
  lemma DoubleEqIsNumeric(x: Block8, y: Block8)
    ensures DoubleEq(x, y) <==> SameNumber(Number64(x), Number64(y))
    ensures IsNaN64(x) <==> Number64(x).NotANumber?
  {
    hide Exponent64, Fraction64, IsNaN64, IsZero64, NumberOf, SameNumber;
    Fields64(x);
    Fields64(y);
    NaNIsNoNumber64(x);
    NaNIsNoNumber64(y);
    SameFields(52, 2047, x[7] >= 128, Exponent64(x), Fraction64(x), y[7] >= 128, Exponent64(y), Fraction64(y));
    if (x[7] >= 128) == (y[7] >= 128) && Exponent64(x) == Exponent64(y) && Fraction64(x) == Fraction64(y) {
      Fields64Injective(x, y);
    }
  }

  lemma Fields32(x: Block4)
    ensures Fraction32(x) < Pow2(23)
  {
    FromLittleEndianBound(x[..2]);
    Pow256Values();
    Pow2Values();
  }

  /** Sign, exponent and fraction fields determine the two upper bytes, and the number below them. */
  lemma UpperBytes32(a: byte, b: byte, c: byte, d: byte, u: nat, v: nat)
    requires u < 0x1_0000 && v < 0x1_0000
    requires (a >= 128) == (c >= 128) && a % 128 * 2 + b / 128 == c % 128 * 2 + d / 128
    requires b % 128 * 0x1_0000 + u == d % 128 * 0x1_0000 + v
    ensures a == c && b == d && u == v
  {
    assert b % 128 == d % 128;
    assert a % 128 == if a >= 128 then a - 128 else a;
    assert c % 128 == if c >= 128 then c - 128 else c;
    assert b / 128 == (if b >= 128 then 1 else 0) && d / 128 == (if d >= 128 then 1 else 0);
  }

  lemma Fields32Injective(x: Block4, y: Block4)
    requires (x[3] >= 128) == (y[3] >= 128) && Exponent32(x) == Exponent32(y) && Fraction32(x) == Fraction32(y)
    ensures x == y
  {
    FromLittleEndianBound(x[..2]);
    FromLittleEndianBound(y[..2]);
    Pow256Values();
    UpperBytes32(x[3], x[2], y[3], y[2], FromLittleEndian(x[..2]), FromLittleEndian(y[..2]));
    FromLittleEndianInjective(x[..2], y[..2]);
    assert x == x[..2] + [x[2], x[3]] && y == y[..2] + [y[2], y[3]];
  }

  lemma NaNIsNoNumber32(x: Block4)
    ensures IsNaN32(x) <==> Exponent32(x) == 255 && Fraction32(x) != 0
    ensures IsZero32(x) <==> Exponent32(x) == 0 && Fraction32(x) == 0
  {
    var zeros: seq<byte> := [0, 0];
    ZerosAreZero();
    if FromLittleEndian(x[..2]) == 0 {
      FromLittleEndianInjective(x[..2], zeros);
    }
    assert x[..3] == x[..2] + [x[2]];
    assert [0, 0, 128] == zeros + [128] && [0, 0, 0] == zeros + [0];
    SameSnoc(x[..2], zeros, x[2], 128);
    SameSnoc(x[..2], zeros, x[2], 0);
  }

  /** The same for floats. */
  lemma FloatEqIsNumeric(x: Block4, y: Block4)
    ensures FloatEq(x, y) <==> SameNumber(Number32(x), Number32(y))
    ensures IsNaN32(x) <==> Number32(x).NotANumber?
  {
    hide Exponent32, Fraction32, IsNaN32, IsZero32, NumberOf, SameNumber;
    Fields32(x);
    Fields32(y);
    NaNIsNoNumber32(x);
    NaNIsNoNumber32(y);
    SameFields(23, 255, x[3] >= 128, Exponent32(x), Fraction32(x), y[3] >= 128, Exponent32(y), Fraction32(y));
    if (x[3] >= 128) == (y[3] >= 128) && Exponent32(x) == Exponent32(y) && Fraction32(x) == Fraction32(y) {
      Fields32Injective(x, y);
    }
  }
}
