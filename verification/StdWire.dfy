/** The standard message codec's wire format, byte by byte, and that the layout is this format. */
module StdWire {
  import opened Bytes
  import opened StdValue
  import opened StdDecoder
  import opened RawStd

  /**
   * Who reads the bytes. The writer's format is strict. The decoder also takes sizes that are
   * written too long and texts that a NUL cuts short, but no byte counts from 2^31 on and no
   * Float32Array. The raw check takes such texts too, but no LargeInt.
   */
  datatype Format = Strict | Decoding | Checking

  /** Words of bytes, least significant first. */
  function Word2(m: seq<byte>, p: nat): nat
    requires p + 2 <= |m|
  {
    m[p] as nat + m[p + 1] as nat * 0x100
  }

  function Word4(m: seq<byte>, p: nat): nat
    requires p + 4 <= |m|
  {
    Word2(m, p) + Word2(m, p + 2) * 0x1_0000
  }

  function Word8(m: seq<byte>, p: nat): nat
    requires p + 8 <= |m|
  {
    Word4(m, p) + Word4(m, p + 4) * 0x1_0000_0000
  }

  /** Two's complement in 32 and 64 bits. */
  ghost predicate HoldsInt32(m: seq<byte>, p: nat, x: int32) {
    p + 4 <= |m| && Word4(m, p) == if x < 0 then 0x1_0000_0000 + x else x
  }

  ghost predicate HoldsInt64(m: seq<byte>, p: nat, x: int64) {
    p + 8 <= |m| && Word8(m, p) == if x < 0 then 0x1_0000_0000_0000_0000 + x else x
  }

  /** The size `n` at `p`, and what follows it at `q`. */
  ghost predicate Prefix(m: seq<byte>, p: nat, n: nat, q: nat, f: Format) {
    && q <= |m|
    && if q == p + 1 then m[p] == n && n < 254
       else if q == p + 3 then m[p] == 254 && Word2(m, p + 1) == n && (f.Decoding? || n >= 254)
       else q == p + 5 && m[p] == 255 && Word4(m, p + 1) == n && (f.Decoding? || n >= 0x1_0000)
  }

  /** A byte count the decoder can handle. */
  predicate Fits(n: nat, f: Format) { f.Decoding? ==> n < 0x8000_0000 }

  /** `q` is the first multiple of 4, or of 8, from `p` on. */
  predicate First4(p: nat, q: nat) { p <= q < p + 4 && q % 4 == 0 }

  predicate First8(p: nat, q: nat) { p <= q < p + 8 && q % 8 == 0 }

  /** The bytes from `off` to `end` are a value; the padding in front of aligned elements is free. */
  ghost predicate Wire(m: seq<byte>, off: nat, v: Value, end: nat, f: Format)
    decreases Weight(v), 0
  {
    off < end <= |m| &&
    match v
    case Null => m[off] == 0 && end == off + 1
    case True => m[off] == 1 && end == off + 1
    case False => m[off] == 2 && end == off + 1
    case Int32(x) => m[off] == 3 && end == off + 5 && HoldsInt32(m, off + 1, x)
    case Int64(x) => m[off] == 4 && end == off + 9 && HoldsInt64(m, off + 1, x)
    case LargeInt(s) => m[off] == 5 && !f.Checking? && WireText(m, off + 1, s, end, f)
    case Float64(b) => m[off] == 6 && end >= 8 && First8(off + 1, end - 8) && m[end - 8..end] == b
    case String(s) => m[off] == 7 && WireText(m, off + 1, s, end, f)
    case UInt8Array(s) =>
      m[off] == 8 && Fits(|s|, f) && |s| <= end && Prefix(m, off + 1, |s|, end - |s|, f) && m[end - |s|..end] == s
    case Int32Array(xs) =>
      m[off] == 9 && exists q: nat, p: nat :: Elements4(m, off, |xs|, q, p, end, f) && HoldInt32s(m, p, xs)
    case Int64Array(xs) =>
      m[off] == 10 && exists q: nat, p: nat :: Elements8(m, off, |xs|, q, p, end, f) && HoldInt64s(m, p, xs)
    case Float64Array(xs) =>
      m[off] == 11 && exists q: nat, p: nat :: Elements8(m, off, |xs|, q, p, end, f) && HoldDoubles(m, p, xs)
    case List(items) =>
      m[off] == 12 && exists q: nat :: Prefix(m, off + 1, |items|, q, f) && WireAll(m, q, items, end, f)
    case Map(entries) =>
      m[off] == 13 && exists q: nat :: Prefix(m, off + 1, |entries|, q, f) && WireAll(m, q, Flatten(entries), end, f)
    case Float32Array(xs) =>
      m[off] == 14 && !f.Decoding? && exists q: nat, p: nat :: Elements4(m, off, |xs|, q, p, end, f) && HoldFloats(m, p, xs)
  }

  ghost predicate HoldInt32s(m: seq<byte>, p: nat, xs: seq<int32>) {
    forall i :: 0 <= i < |xs| ==> HoldsInt32(m, p + 4 * i, xs[i])
  }

  ghost predicate HoldInt64s(m: seq<byte>, p: nat, xs: seq<int64>) {
    forall i :: 0 <= i < |xs| ==> HoldsInt64(m, p + 8 * i, xs[i])
  }

  ghost predicate HoldFloats(m: seq<byte>, p: nat, xs: seq<Block4>) {
    p + 4 * |xs| <= |m| && forall i :: 0 <= i < |xs| ==> m[p + 4 * i..p + 4 * i + 4] == xs[i]
  }

  ghost predicate HoldDoubles(m: seq<byte>, p: nat, xs: seq<Block8>) {
    p + 8 * |xs| <= |m| && forall i :: 0 <= i < |xs| ==> m[p + 8 * i..p + 8 * i + 8] == xs[i]
  }

  /** A size `n`, and from `q` on that many bytes: the text, or the text and a NUL and more. */
  ghost predicate TextAt(m: seq<byte>, p: nat, s: CString, n: nat, q: nat, end: nat, f: Format) {
    && Prefix(m, p, n, q, f) && Fits(n, f) && q + |s| <= q + n == end <= |m|
    && m[q..q + |s|] == s && (|s| == n || (m[q + |s|] == 0 && !f.Strict?))
  }

  ghost predicate WireText(m: seq<byte>, p: nat, s: CString, end: nat, f: Format) {
    exists n: nat, q: nat :: TextAt(m, p, s, n, q, end, f)
  }

  /** Size prefix from `off + 1` to `q`, padding to `p`, and `n` elements of 4, or 8, bytes up to `end`. */
  ghost predicate Elements4(m: seq<byte>, off: nat, n: nat, q: nat, p: nat, end: nat, f: Format) {
    Prefix(m, off + 1, n, q, f) && First4(q, p) && end == p + 4 * n <= |m| && Fits(4 * n, f)
  }

  ghost predicate Elements8(m: seq<byte>, off: nat, n: nat, q: nat, p: nat, end: nat, f: Format) {
    Prefix(m, off + 1, n, q, f) && First8(q, p) && end == p + 8 * n <= |m| && Fits(8 * n, f)
  }

  /** Values back to back. */
  ghost predicate WireAll(m: seq<byte>, off: nat, vs: seq<Value>, end: nat, f: Format)
    decreases WeightSeq(vs), 1
  {
    if vs == [] then off == end <= |m|
    else exists mid: nat :: WireAll(m, off, Front(vs), mid, f) && Wire(m, mid, Last(vs), end, f)
  }

  // Words and the codec's integers.

  lemma WordIsLittleEndian(m: seq<byte>, p: nat)
    ensures p + 2 <= |m| ==> Word2(m, p) == FromLittleEndian(m[p..p + 2])
    ensures p + 4 <= |m| ==> Word4(m, p) == FromLittleEndian(m[p..p + 4])
    ensures p + 8 <= |m| ==> Word8(m, p) == FromLittleEndian(m[p..p + 8])
  {
    if p + 2 <= |m| {
      TwoBytes(m, p);
    }
    if p + 4 <= |m| {
      FourBytes(m, p);
    }
    if p + 8 <= |m| {
      hide Word4;
      LittleEndianStep(m, p, 8);
      LittleEndianStep(m, p + 1, 7);
      LittleEndianStep(m, p + 2, 6);
      LittleEndianStep(m, p + 3, 5);
      LittleEndianStep(m, p, 4);
      LittleEndianStep(m, p + 1, 3);
      LittleEndianStep(m, p + 2, 2);
      LittleEndianStep(m, p + 3, 1);
      FourBytes(m, p + 4);
    }
  }

  lemma TwoBytes(m: seq<byte>, p: nat)
    requires p + 2 <= |m|
    ensures Word2(m, p) == FromLittleEndian(m[p..p + 2])
  {
    LittleEndianStep(m, p, 2);
    LittleEndianStep(m, p + 1, 1);
  }

  lemma FourBytes(m: seq<byte>, p: nat)
    requires p + 4 <= |m|
    ensures Word4(m, p) == FromLittleEndian(m[p..p + 4])
  {
    LittleEndianStep(m, p, 4);
    LittleEndianStep(m, p + 1, 3);
    TwoBytes(m, p + 2);
  }

  lemma LittleEndianStep(m: seq<byte>, p: nat, k: nat)
    requires 0 < k && p + k <= |m|
    ensures FromLittleEndian(m[p..p + k]) == m[p] as nat + 256 * FromLittleEndian(m[p + 1..p + k])
    ensures k == 1 ==> FromLittleEndian(m[p + 1..p + k]) == 0
  {
    assert m[p..p + k][1..] == m[p + 1..p + k];
  }

  lemma Int32Iff(m: seq<byte>, p: nat, x: int32)
    requires p + 4 <= |m|
    ensures HoldsInt32(m, p, x) <==> DecodeInt32(m[p..p + 4]) == x
  {
    hide Word4, FromLittleEndian;
    WordIsLittleEndian(m, p);
    FromLittleEndianBound(m[p..p + 4]);
    Pow256Values();
  }

  lemma Int64Iff(m: seq<byte>, p: nat, x: int64)
    requires p + 8 <= |m|
    ensures HoldsInt64(m, p, x) <==> DecodeInt64(m[p..p + 8]) == x
  {
    hide Word8, FromLittleEndian;
    WordIsLittleEndian(m, p);
    FromLittleEndianBound(m[p..p + 8]);
    Pow256Values();
  }

  lemma AlignmentsAreFirst(p: nat, q: nat)
    ensures First4(p, q) <==> q == AlignUp(p, 4)
    ensures First8(p, q) <==> q == AlignUp(p, 8)
    ensures AlignUp(p, 1) == p
  {
    hide AlignUp;
    var a, b := AlignUp(p, 4), AlignUp(p, 8);
    if First4(p, q) {
      OneMultipleOf4(p, a / 4, q / 4);
      assert a == 4 * (a / 4) && q == 4 * (q / 4);
    }
    if First8(p, q) {
      OneMultipleOf8(p, b / 8, q / 8);
      assert b == 8 * (b / 8) && q == 8 * (q / 8);
    }
  }

  lemma OneMultipleOf4(p: int, a: int, b: int)
    ensures p <= 4 * a < p + 4 && p <= 4 * b < p + 4 ==> a == b
  {
  }

  lemma OneMultipleOf8(p: int, a: int, b: int)
    ensures p <= 8 * a < p + 8 && p <= 8 * b < p + 8 ==> a == b
  {
  }

  // Values that are no lists and no maps, from tag, element count and bytes.

  /** Bytes behind the padding. */
  function BodySize(t: byte, n: nat): nat {
    if TagSized(t) then n * TagUnit(t) else TagUnit(t)
  }

  predicate LeafTag(t: int) { 0 <= t <= 14 && t != 12 && t != 13 }

  /** The value a tag, an element count and the bytes of the body stand for. */
  function ValueOf(t: byte, n: nat, s: seq<byte>): Value
    requires LeafTag(t) && |s| == BodySize(t, n)
  {
    if t == 14 then Float32Array(FloatsOf(n, s)) else LeafOf(t, n, s)
  }

  function FloatsOf(n: nat, s: seq<byte>): (xs: seq<Block4>)
    requires |s| == n * 4
    ensures |xs| == n && forall i :: 0 <= i < n ==> xs[i] == s[4 * i..4 * i + 4]
  {
    seq(n, i requires 0 <= i < n => s[4 * i..4 * i + 4])
  }

  /** Tag, size if any, padding, and a body. */
  ghost predicate Leaf(m: seq<byte>, off: nat, t: byte, n: nat, q: nat, end: nat, f: Format) {
    && off < end <= |m| && m[off] == t && LeafTag(t)
    && (f.Checking? ==> t != 5) && (f.Decoding? ==> t != 14)
    && (if TagSized(t) then Prefix(m, off + 1, n, q, f) && Fits(n * TagUnit(t), f) else q == off + 1 && n == 0)
    && end == AlignUp(q, TagAlignment(t)) + BodySize(t, n)
  }

  /** What such bytes stand for. */
  function LeafAt(m: seq<byte>, t: byte, n: nat, end: nat): Value
    requires LeafTag(t) && BodySize(t, n) <= end <= |m|
  {
    ValueOf(t, n, m[end - BodySize(t, n)..end])
  }

  lemma {:induction false} UntilNulIff(t: seq<byte>, s: CString)
    ensures UntilNul(t) == s <==> |s| <= |t| && t[..|s|] == s && (|s| == |t| || t[|s|] == 0)
  {
    if t != [] && t[0] != 0 {
      if s != [] {
        var tail: CString := s[1..];
        UntilNulIff(t[1..], tail);
        assert s == [s[0]] + tail;
        assert |s| <= |t| ==> t[..|s|] == [t[0]] + t[1..][..|tail|];
      }
    }
  }

  lemma TextIff(m: seq<byte>, off: nat, s: CString, n: nat, q: nat, end: nat)
    requires end <= |m| && q + n == end
    ensures UntilNul(m[q..end]) == s <==> q + |s| <= end && m[q..q + |s|] == s && (q + |s| == end || m[q + |s|] == 0)
  {
    hide UntilNul;
    UntilNulIff(m[q..end], s);
    if |s| <= n {
      assert m[q..end][..|s|] == m[q..q + |s|];
    }
  }

  lemma Int32sIff(m: seq<byte>, p: nat, n: nat, xs: seq<int32>)
    requires p + 4 * n <= |m|
    ensures Int32sOf(n, m[p..p + 4 * n]) == xs <==> |xs| == n && HoldInt32s(m, p, xs)
  {
    hide HoldsInt32, DecodeInt32;
    var ys := Int32sOf(n, m[p..p + 4 * n]);
    if |xs| == n {
      forall i | 0 <= i < n ensures ys[i] == xs[i] <==> HoldsInt32(m, p + 4 * i, xs[i]) {
        SubSlice(m, p, 4 * n, 4 * i, 4 * i + 4);
        Int32Iff(m, p + 4 * i, xs[i]);
      }
    }
  }

  lemma Int64sIff(m: seq<byte>, p: nat, n: nat, xs: seq<int64>)
    requires p + 8 * n <= |m|
    ensures Int64sOf(n, m[p..p + 8 * n]) == xs <==> |xs| == n && HoldInt64s(m, p, xs)
  {
    hide HoldsInt64, DecodeInt64;
    var ys := Int64sOf(n, m[p..p + 8 * n]);
    if |xs| == n {
      forall i | 0 <= i < n ensures ys[i] == xs[i] <==> HoldsInt64(m, p + 8 * i, xs[i]) {
        SubSlice(m, p, 8 * n, 8 * i, 8 * i + 8);
        Int64Iff(m, p + 8 * i, xs[i]);
      }
    }
  }

  lemma DoublesIff(m: seq<byte>, p: nat, n: nat, xs: seq<Block8>)
    requires p + 8 * n <= |m|
    ensures DoublesOf(n, m[p..p + 8 * n]) == xs <==> |xs| == n && HoldDoubles(m, p, xs)
  {
    var ys := DoublesOf(n, m[p..p + 8 * n]);
    forall i | 0 <= i < n ensures ys[i] == m[p + 8 * i..p + 8 * i + 8] {
      SubSlice(m, p, 8 * n, 8 * i, 8 * i + 8);
    }
  }

  lemma FloatsIff(m: seq<byte>, p: nat, n: nat, xs: seq<Block4>)
    requires p + 4 * n <= |m|
    ensures FloatsOf(n, m[p..p + 4 * n]) == xs <==> |xs| == n && HoldFloats(m, p, xs)
  {
    var ys := FloatsOf(n, m[p..p + 4 * n]);
    forall i | 0 <= i < n ensures ys[i] == m[p + 4 * i..p + 4 * i + 4] {
      SubSlice(m, p, 4 * n, 4 * i, 4 * i + 4);
    }
  }

  lemma ScalarFromWire(m: seq<byte>, off: nat, v: Value, end: nat, f: Format)
    requires Wire(m, off, v, end, f) && !TagSized(Tag(v))
    ensures Leaf(m, off, Tag(v), 0, off + 1, end, f) && v == LeafAt(m, Tag(v), 0, end)
  {
    hide Prefix, WireText, Elements4, Elements8, WireAll, HoldsInt32, HoldsInt64, Weight, AlignUp, DecodeInt32, DecodeInt64;
    AlignmentsAreFirst(off + 1, end - BodySize(Tag(v), 0));
    match v {
      case Int32(x) => Int32Iff(m, off + 1, x);
      case Int64(x) => Int64Iff(m, off + 1, x);
      case _ =>
    }
  }

  function TextOf(v: Value): CString
    requires v.LargeInt? || v.String?
  {
    if v.String? then v.chars else v.digits
  }

  lemma TextParts(m: seq<byte>, off: nat, v: Value, end: nat, f: Format)
    requires v.LargeInt? || v.String?
    ensures Wire(m, off, v, end, f) <==>
              && off < end <= |m| && m[off] == Tag(v) && (v.LargeInt? ==> !f.Checking?)
              && WireText(m, off + 1, TextOf(v), end, f)
  {
    hide WireText;
  }

  lemma LeafText(m: seq<byte>, t: byte, n: nat, q: nat, end: nat)
    requires q + n == end <= |m| && (t == 5 || t == 7)
    ensures TagSized(t) && AlignUp(q, TagAlignment(t)) + BodySize(t, n) == end && n * TagUnit(t) == n
    ensures LeafAt(m, t, n, end) == if t == 5 then LargeInt(UntilNul(m[q..end])) else String(UntilNul(m[q..end]))
  {
    AlignmentsAreFirst(q, q);
  }

  lemma TextFromWire(m: seq<byte>, off: nat, v: Value, end: nat, f: Format) returns (n: nat, q: nat)
    requires Wire(m, off, v, end, f) && (v.LargeInt? || v.String?)
    ensures Leaf(m, off, Tag(v), n, q, end, f) && v == LeafAt(m, Tag(v), n, end)
  {
    hide Wire, TextAt, Leaf, LeafAt;
    TextParts(m, off, v, end, f);
    n, q :| TextAt(m, off + 1, TextOf(v), n, q, end, f);
    TextIsLeaf(m, off, v, n, q, end, f);
  }

  lemma TextIsLeaf(m: seq<byte>, off: nat, v: Value, n: nat, q: nat, end: nat, f: Format)
    requires v.LargeInt? || v.String?
    requires off < end <= |m| && m[off] == Tag(v) && (v.LargeInt? ==> !f.Checking?)
    requires TextAt(m, off + 1, TextOf(v), n, q, end, f)
    ensures Leaf(m, off, Tag(v), n, q, end, f) && v == LeafAt(m, Tag(v), n, end)
  {
    hide Prefix, LeafAt, AlignUp, UntilNul;
    LeafText(m, Tag(v), n, q, end);
    TextIff(m, off, TextOf(v), n, q, end);
  }

  lemma Array4FromWire(m: seq<byte>, off: nat, v: Value, end: nat, f: Format) returns (n: nat, q: nat)
    requires Wire(m, off, v, end, f) && (v.Int32Array? || v.Float32Array?)
    ensures Leaf(m, off, Tag(v), n, q, end, f) && v == LeafAt(m, Tag(v), n, end) && n == Count(v)
  {
    hide Prefix, WireText, WireAll, HoldInt32s, HoldInt64s, HoldDoubles, HoldFloats, Weight, AlignUp, Int32sOf, Int64sOf, DoublesOf, FloatsOf;
    n := Count(v);
    var p: nat;
    if v.Int32Array? {
      q, p :| Elements4(m, off, n, q, p, end, f) && HoldInt32s(m, p, v.i32s);
      Int32sIff(m, p, n, v.i32s);
    } else {
      q, p :| Elements4(m, off, n, q, p, end, f) && HoldFloats(m, p, v.f32s);
      FloatsIff(m, p, n, v.f32s);
    }
    AlignmentsAreFirst(q, p);
  }

  lemma Array8FromWire(m: seq<byte>, off: nat, v: Value, end: nat, f: Format) returns (n: nat, q: nat)
    requires Wire(m, off, v, end, f) && (v.Int64Array? || v.Float64Array?)
    ensures Leaf(m, off, Tag(v), n, q, end, f) && v == LeafAt(m, Tag(v), n, end) && n == Count(v)
  {
    hide Prefix, WireText, WireAll, HoldInt32s, HoldInt64s, HoldDoubles, HoldFloats, Weight, AlignUp, Int32sOf, Int64sOf, DoublesOf, FloatsOf;
    n := Count(v);
    var p: nat;
    if v.Int64Array? {
      q, p :| Elements8(m, off, n, q, p, end, f) && HoldInt64s(m, p, v.i64s);
      Int64sIff(m, p, n, v.i64s);
    } else {
      q, p :| Elements8(m, off, n, q, p, end, f) && HoldDoubles(m, p, v.f64s);
      DoublesIff(m, p, n, v.f64s);
    }
    AlignmentsAreFirst(q, p);
  }

  lemma BytesFromWire(m: seq<byte>, off: nat, v: Value, end: nat, f: Format) returns (n: nat, q: nat)
    requires Wire(m, off, v, end, f) && v.UInt8Array?
    ensures Leaf(m, off, Tag(v), n, q, end, f) && v == LeafAt(m, Tag(v), n, end) && n == Count(v)
  {
    hide Prefix, Weight, AlignUp;
    n, q := |v.u8s|, end - |v.u8s|;
    AlignmentsAreFirst(q, q);
  }

  /** Every value that is no list and no map is its tag, its size, padding and its body. */
  lemma LeafFromWire(m: seq<byte>, off: nat, v: Value, end: nat, f: Format) returns (n: nat, q: nat)
    requires Wire(m, off, v, end, f) && !Container(v)
    ensures Leaf(m, off, Tag(v), n, q, end, f) && v == LeafAt(m, Tag(v), n, end)
  {
    hide Wire, Leaf, LeafAt;
    n, q := 0, off + 1;
    match v {
      case LargeInt(_) => n, q := TextFromWire(m, off, v, end, f);
      case String(_) => n, q := TextFromWire(m, off, v, end, f);
      case UInt8Array(_) => n, q := BytesFromWire(m, off, v, end, f);
      case Int32Array(_) => n, q := Array4FromWire(m, off, v, end, f);
      case Int64Array(_) => n, q := Array8FromWire(m, off, v, end, f);
      case Float64Array(_) => n, q := Array8FromWire(m, off, v, end, f);
      case Float32Array(_) => n, q := Array4FromWire(m, off, v, end, f);
      case _ => ScalarFromWire(m, off, v, end, f);
    }
  }

  lemma ScalarIsWire(m: seq<byte>, off: nat, t: byte, end: nat, f: Format)
    requires Leaf(m, off, t, 0, off + 1, end, f) && !TagSized(t)
    ensures Wire(m, off, LeafAt(m, t, 0, end), end, f)
  {
    hide Prefix, WireText, Elements4, Elements8, WireAll, HoldsInt32, HoldsInt64, Weight, AlignUp, DecodeInt32, DecodeInt64;
    AlignmentsAreFirst(off + 1, end - BodySize(t, 0));
    var v := LeafAt(m, t, 0, end);
    match v {
      case Int32(x) => Int32Iff(m, off + 1, x);
      case Int64(x) => Int64Iff(m, off + 1, x);
      case _ =>
    }
  }

  lemma TextIsWire(m: seq<byte>, off: nat, t: byte, n: nat, q: nat, end: nat, f: Format)
    requires Leaf(m, off, t, n, q, end, f) && (t == 5 || t == 7)
    requires f.Strict? ==> n == Count(LeafAt(m, t, n, end))
    ensures Wire(m, off, LeafAt(m, t, n, end), end, f)
  {
    hide Wire, Prefix, LeafAt, UntilNul;
    AlignmentsAreFirst(q, q);
    LeafText(m, t, n, q, end);
    var v := LeafAt(m, t, n, end);
    TextIff(m, off, TextOf(v), n, q, end);
    assert TextAt(m, off + 1, TextOf(v), n, q, end, f);
    TextParts(m, off, v, end, f);
  }

  lemma Array4IsWire(m: seq<byte>, off: nat, t: byte, n: nat, q: nat, end: nat, f: Format)
    requires Leaf(m, off, t, n, q, end, f) && (t == 9 || t == 14)
    ensures Wire(m, off, LeafAt(m, t, n, end), end, f)
  {
    hide Prefix, Wire, HoldInt32s, HoldFloats, Weight, AlignUp, Int32sOf, FloatsOf;
    var v, p := LeafAt(m, t, n, end), end - BodySize(t, n);
    AlignmentsAreFirst(q, p);
    assert Elements4(m, off, n, q, p, end, f);
    hide Elements4;
    if t == 9 {
      Int32sIff(m, p, n, v.i32s);
      WireOfArray4(m, off, v, q, p, end, f);
    } else {
      FloatsIff(m, p, n, v.f32s);
      WireOfArray4(m, off, v, q, p, end, f);
    }
  }

  lemma WireOfArray4(m: seq<byte>, off: nat, v: Value, q: nat, p: nat, end: nat, f: Format)
    requires (v.Int32Array? && HoldInt32s(m, p, v.i32s)) || (v.Float32Array? && !f.Decoding? && HoldFloats(m, p, v.f32s))
    requires off < end <= |m| && m[off] == Tag(v) && Elements4(m, off, Count(v), q, p, end, f)
    ensures Wire(m, off, v, end, f)
  {
    hide Elements4, HoldInt32s, HoldFloats;
  }

  lemma Array8IsWire(m: seq<byte>, off: nat, t: byte, n: nat, q: nat, end: nat, f: Format)
    requires Leaf(m, off, t, n, q, end, f) && (t == 10 || t == 11)
    ensures Wire(m, off, LeafAt(m, t, n, end), end, f)
  {
    hide Prefix, Wire, HoldInt64s, HoldDoubles, Weight, AlignUp, Int64sOf, DoublesOf;
    var v, p := LeafAt(m, t, n, end), end - BodySize(t, n);
    AlignmentsAreFirst(q, p);
    assert Elements8(m, off, n, q, p, end, f);
    hide Elements8;
    if t == 10 {
      Int64sIff(m, p, n, v.i64s);
      WireOfArray8(m, off, v, q, p, end, f);
    } else {
      DoublesIff(m, p, n, v.f64s);
      WireOfArray8(m, off, v, q, p, end, f);
    }
  }

  lemma WireOfArray8(m: seq<byte>, off: nat, v: Value, q: nat, p: nat, end: nat, f: Format)
    requires (v.Int64Array? && HoldInt64s(m, p, v.i64s)) || (v.Float64Array? && HoldDoubles(m, p, v.f64s))
    requires off < end <= |m| && m[off] == Tag(v) && Elements8(m, off, Count(v), q, p, end, f)
    ensures Wire(m, off, v, end, f)
  {
    hide Elements8, HoldInt64s, HoldDoubles;
  }

  /** A tag that is no list's and no map's, its size, padding and a body are a value. */
  lemma LeafIsWire(m: seq<byte>, off: nat, t: byte, n: nat, q: nat, end: nat, f: Format)
    requires Leaf(m, off, t, n, q, end, f)
    requires f.Strict? ==> n == Count(LeafAt(m, t, n, end))
    ensures Wire(m, off, LeafAt(m, t, n, end), end, f)
  {
    hide Wire, LeafAt;
    if !TagSized(t) {
      ScalarIsWire(m, off, t, end, f);
    } else if t == 5 || t == 7 {
      TextIsWire(m, off, t, n, q, end, f);
    } else if t == 8 {
      BytesAreWire(m, off, n, q, end, f);
    } else if t == 9 || t == 14 {
      Array4IsWire(m, off, t, n, q, end, f);
    } else {
      Array8IsWire(m, off, t, n, q, end, f);
    }
  }

  lemma BytesAreWire(m: seq<byte>, off: nat, n: nat, q: nat, end: nat, f: Format)
    requires Leaf(m, off, 8, n, q, end, f)
    ensures Wire(m, off, LeafAt(m, 8, n, end), end, f)
  {
    hide Prefix, Weight, AlignUp;
    AlignmentsAreFirst(q, q);
  }

  // The layout of encodings is the writer's format.

  lemma PrefixIsWire(m: seq<byte>, p: nat, n: nat, f: Format)
    requires Holds(m, p, SizePrefix(n)) && n < 0x1_0000_0000
    ensures Prefix(m, p, n, p + SizeLen(n), f)
  {
    hide LittleEndian, FromLittleEndian, Word2, Word4;
    var s := SizePrefix(n);
    assert m[p] == m[p..p + |s|][0] == s[0];
    Pow256Values();
    WordIsLittleEndian(m, p + 1);
    if 254 <= n < 0x1_0000 {
      assert m[p + 1..p + 3] == m[p..p + |s|][1..] == s[1..] == LittleEndian(n, 2);
      LittleEndianRoundTrip(n, 2);
    } else if 0x1_0000 <= n {
      assert m[p + 1..p + 5] == m[p..p + |s|][1..] == s[1..] == LittleEndian(n, 4);
      LittleEndianRoundTrip(n, 4);
    }
  }

  lemma ValueOfPayload(v: Value)
    requires !Container(v)
    ensures LeafTag(Tag(v)) && |Payload(v)| == BodySize(Tag(v), Count(v)) && ValueOf(Tag(v), Count(v), Payload(v)) == v
    ensures !TagSized(Tag(v)) ==> Count(v) == 0
  {
    hide LeafOf, Concat, FloatsOf;
    PayloadLength(v);
    if v.Float32Array? {
      FloatsRoundTrip(v.f32s);
    } else {
      LeafRoundTrip(v);
    }
  }

  lemma FloatsRoundTrip(xs: seq<Block4>)
    ensures |Concat(xs)| == |xs| * 4
    ensures FloatsOf(|xs|, Concat(xs)) == xs
  {
    ConcatLength(xs, 4);
    forall i | 0 <= i < |xs|
      ensures FloatsOf(|xs|, Concat(xs))[i] == xs[i]
    {
      ConcatBlockAt(xs, 4, i);
    }
  }

  lemma EncodedLeafIsWire(m: seq<byte>, off: nat, v: Value)
    requires Encodes(m, off, v) && Count(v) < 0x1_0000_0000 && !Container(v)
    ensures Wire(m, off, v, End(v, off), Strict)
  {
    hide Encodes, End, Wire, Prefix, SizePrefix, SizeLen, Payload, ValueOf, Count, AlignUp;
    var end, n := End(v, off), Count(v);
    EncodesParts(m, off, v);
    ValueOfPayload(v);
    var q := off + 1;
    if TagSized(Tag(v)) {
      PrefixIsWire(m, off + 1, n, Strict);
      q := off + 1 + SizeLen(n);
    }
    LeafIsWire(m, off, Tag(v), n, q, end, Strict);
  }

  /** Every encoding is one in the writer's format. */
  lemma {:induction false} EncodesIsWire(m: seq<byte>, off: nat, v: Value)
    requires Encodes(m, off, v) && CountsFit(v)
    ensures Wire(m, off, v, End(v, off), Strict)
    decreases Weight(v), 1
  {
    hide Encodes, End, Wire, CountsFit, Count, Weight;
    CountsFitChildren(v);
    if Container(v) {
      ContainerIsWire(m, off, v);
    } else {
      EncodedLeafIsWire(m, off, v);
    }
  }

  lemma ContainerIsWire(m: seq<byte>, off: nat, v: Value)
    requires Encodes(m, off, v) && CountsFit(v) && Container(v)
    ensures Wire(m, off, v, End(v, off), Strict)
    decreases Weight(v), 0
  {
    hide Encodes, EncodesSeq, End, EndSeq, BodyStart, Wire, WireAll, CountsFit, CountsFitSeq, Prefix, SizePrefix, SizeLen, Children, Holds, Payload;
    EncodesParts(m, off, v);
    CountsFitChildren(v);
    PrefixIsWire(m, off + 1, Count(v), Strict);
    EncodedAllAreWire(m, BodyStart(v, off), Children(v));
    FramedChildrenAreWire(m, off, v, BodyStart(v, off), End(v, off), Strict);
  }

  lemma FramedChildrenAreWire(m: seq<byte>, off: nat, v: Value, q: nat, end: nat, f: Format)
    requires Container(v) && off < end <= |m| && m[off] == Tag(v)
    requires Prefix(m, off + 1, Count(v), q, f) && WireAll(m, q, Children(v), end, f)
    ensures Wire(m, off, v, end, f)
  {
    hide Prefix, WireAll;
  }

  lemma {:induction false} EncodedAllAreWire(m: seq<byte>, off: nat, vs: seq<Value>)
    requires EncodesSeq(m, off, vs) && CountsFitSeq(vs)
    ensures WireAll(m, off, vs, EndSeq(vs, off), Strict)
    decreases WeightSeq(vs), 2
  {
    if vs != [] {
      hide Encodes, End, Wire, CountsFit, CountsFitSeq, Weight;
      CountsFitParts(vs);
      EncodedAllAreWire(m, off, Front(vs));
      EncodesIsWire(m, EndSeq(Front(vs), off), Last(vs));
    }
  }
}
