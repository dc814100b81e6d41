/** Decoder of the standard message codec, and the round trip with the writer. */
module StdDecoder {
  import opened Bytes
  import opened StdValue

  const EBADMSG := 74

  datatype Decoded<+T> = Ok(value: T, pos: nat) | Bad

  /** The C string at the head of `s`: everything before the first NUL. */
  function UntilNul(s: seq<byte>): (c: CString) {
    if s == [] || s[0] == 0 then [] else
      var rest: CString := UntilNul(s[1..]);
      [s[0]] + rest
  }

  lemma {:induction false} UntilNulOfCString(s: CString)
    ensures UntilNul(s) == s
  {
    if s != [] {
      var tail := s[1..];
      assert s == [s[0]] + tail;
      UntilNulOfCString(tail);
    }
  }

  // The decoder as a function of memory, cursor and end of the message.

  function Need(p: nat, n: nat, end: nat): bool { p + n <= end }

  function DecodeSize(m: seq<byte>, p: nat, end: nat): (r: Decoded<nat>)
    requires end <= |m|
    ensures r.Ok? ==> p < r.pos <= end
  {
    if !Need(p, 1, end) then Bad
    else if m[p] <= 253 then Ok(m[p], p + 1)
    else if m[p] == 254 then
      if !Need(p, 3, end) then Bad else Ok(FromLittleEndian(m[p + 1..p + 3]), p + 3)
    else if !Need(p, 5, end) then Bad else Ok(FromLittleEndian(m[p + 1..p + 5]), p + 5)
  }

  /** The value a tag, an element count and the bytes of the body stand for. */
  function LeafOf(t: byte, n: nat, s: seq<byte>): Value
    requires t <= 11 && |s| == if TagSized(t) then n * TagUnit(t) else TagUnit(t)
  {
    if t == 0 then Null
    else if t == 1 then True
    else if t == 2 then False
    else if t == 3 then Int32(DecodeInt32(s))
    else if t == 4 then Int64(DecodeInt64(s))
    else if t == 5 then LargeInt(UntilNul(s))
    else if t == 6 then Float64(s)
    else if t == 7 then String(UntilNul(s))
    else if t == 8 then UInt8Array(s)
    else if t == 9 then Int32Array(Int32sOf(n, s))
    else if t == 10 then Int64Array(Int64sOf(n, s))
    else Float64Array(DoublesOf(n, s))
  }

  function Int32sOf(n: nat, s: seq<byte>): (xs: seq<int32>)
    requires |s| == n * 4
    ensures |xs| == n && forall i :: 0 <= i < n ==> xs[i] == DecodeInt32(s[4 * i..4 * i + 4])
  {
    seq(n, i requires 0 <= i < n => DecodeInt32(s[4 * i..4 * i + 4]))
  }

  function Int64sOf(n: nat, s: seq<byte>): (xs: seq<int64>)
    requires |s| == n * 8
    ensures |xs| == n && forall i :: 0 <= i < n ==> xs[i] == DecodeInt64(s[8 * i..8 * i + 8])
  {
    seq(n, i requires 0 <= i < n => DecodeInt64(s[8 * i..8 * i + 8]))
  }

  function DoublesOf(n: nat, s: seq<byte>): (xs: seq<Block8>)
    requires |s| == n * 8
    ensures |xs| == n && forall i :: 0 <= i < n ==> xs[i] == s[8 * i..8 * i + 8]
  {
    seq(n, i requires 0 <= i < n => s[8 * i..8 * i + 8])
  }

  /** Padding to `a` and then `n` bytes. */
  function DecodeBytes(m: seq<byte>, p: nat, end: nat, a: nat, n: nat): (r: Decoded<seq<byte>>)
    requires end <= |m| && IsAlignment(a)
    ensures r.Ok? ==> p + n <= r.pos <= end && |r.value| == n
  {
    var q := AlignUp(p, a);
    if n < 0x8000_0000 && Need(q, n, end) then Ok(m[q..q + n], q + n) else Bad
  }

  function DecodeLeaf(m: seq<byte>, p: nat, end: nat, t: byte): (r: Decoded<Value>)
    requires end <= |m| && t <= 11
    ensures r.Ok? ==> p <= r.pos <= end
  {
    if TagSized(t) then
      var sz := DecodeSize(m, p, end);
      if sz.Bad? then Bad else
        var b := DecodeBytes(m, sz.pos, end, TagAlignment(t), sz.value * TagUnit(t));
        if b.Bad? then Bad else Ok(LeafOf(t, sz.value, b.value), b.pos)
    else
      var b := DecodeBytes(m, p, end, TagAlignment(t), TagUnit(t));
      if b.Bad? then Bad else Ok(LeafOf(t, 0, b.value), b.pos)
  }

  /** The value at `p`, in a message that reaches to `end`. */
  function Decode(m: seq<byte>, p: nat, end: nat): (r: Decoded<Value>)
    requires end <= |m|
    ensures r.Ok? ==> p < r.pos <= end
    decreases |m| - p, 0
  {
    if !Need(p, 1, end) then Bad
    else if m[p] <= 11 then DecodeLeaf(m, p + 1, end, m[p])
    else if m[p] <= 13 then
      var sz := DecodeSize(m, p + 1, end);
      if sz.Bad? then Bad else
        var vs := DecodeSeq(m, sz.pos, end, if m[p] == 12 then sz.value else 2 * sz.value);
        if vs.Bad? then Bad
        else if m[p] == 12 then Ok(List(vs.value), vs.pos)
        else Ok(Map(Unflatten(vs.value)), vs.pos)
    else Bad
  }

  /** `n` values, back to back. */
  function DecodeSeq(m: seq<byte>, p: nat, end: nat, n: nat): (r: Decoded<seq<Value>>)
    requires p <= end <= |m|
    ensures r.Ok? ==> p <= r.pos <= end && |r.value| == n
    decreases |m| - p, n + 1
  {
    if n == 0 then Ok([], p) else
      var init := DecodeSeq(m, p, end, n - 1);
      if init.Bad? then Bad else
        var last := Decode(m, init.pos, end);
        if last.Bad? then Bad else Ok(init.value + [last.value], last.pos)
  }

  lemma DecodeSeqStep(m: seq<byte>, p: nat, end: nat, n: nat)
    requires p <= end <= |m| && DecodeSeq(m, p, end, n).Ok?
    ensures var init, last := DecodeSeq(m, p, end, n), Decode(m, DecodeSeq(m, p, end, n).pos, end);
            DecodeSeq(m, p, end, n + 1) == if last.Bad? then Bad else Ok(init.value + [last.value], last.pos)
  {
    hide Decode;
  }

  function Unflatten(vs: seq<Value>): (es: seq<Entry>)
    requires |vs| % 2 == 0
    ensures |es| == |vs| / 2
    ensures forall i :: 0 <= i < |es| ==> es[i] == Entry(vs[2 * i], vs[2 * i + 1])
  {
    seq(|vs| / 2, i requires 0 <= i < |vs| / 2 => Entry(vs[2 * i], vs[2 * i + 1]))
  }

  // Round trip.

  lemma DecodeSizeRoundTrip(m: seq<byte>, p: nat, end: nat, n: nat)
    requires Holds(m, p, SizePrefix(n)) && p + SizeLen(n) <= end <= |m|
    requires n < 0x1_0000_0000
    ensures DecodeSize(m, p, end) == Ok(n, p + SizeLen(n))
  {
    var s := SizePrefix(n);
    assert forall i :: 0 <= i < |s| ==> m[p + i] == m[p..p + |s|][i] == s[i];
    Pow256Values();
    if 254 <= n <= 0xFFFF {
      assert m[p + 1..p + 3] == LittleEndian(n, 2);
      LittleEndianRoundTrip(n, 2);
    } else if 0xFFFF < n {
      assert m[p + 1..p + 5] == LittleEndian(n, 4);
      LittleEndianRoundTrip(n, 4);
    }
  }

  lemma LeafRoundTrip(v: Value)
    requires !Container(v) && Tag(v) <= 11
    ensures |Payload(v)| == if TagSized(Tag(v)) then Count(v) * TagUnit(Tag(v)) else TagUnit(Tag(v))
    ensures LeafOf(Tag(v), Count(v), Payload(v)) == v
    ensures !TagSized(Tag(v)) ==> Count(v) == 0
  {
    hide LittleEndian, FromLittleEndian, Concat, UntilNul, Int32sOf, Int64sOf, DoublesOf, Int32Blocks, Int64Blocks, Weight;
    PayloadLength(v);
    match v {
      case Int32(x) => Int32RoundTrip(x);
      case Int64(x) => Int64RoundTrip(x);
      case LargeInt(s) => UntilNulOfCString(s);
      case String(s) => UntilNulOfCString(s);
      case Int32Array(xs) => Int32sRoundTrip(xs);
      case Int64Array(xs) => Int64sRoundTrip(xs);
      case Float64Array(xs) => DoublesRoundTrip(xs);
      case _ =>
    }
  }

  lemma Int32sRoundTrip(xs: seq<int32>)
    ensures |Concat(Int32Blocks(xs))| == |xs| * 4
    ensures Int32sOf(|xs|, Concat(Int32Blocks(xs))) == xs
  {
    ConcatLength(Int32Blocks(xs), 4);
    forall i | 0 <= i < |xs|
      ensures Int32sOf(|xs|, Concat(Int32Blocks(xs)))[i] == xs[i]
    {
      ConcatBlockAt(Int32Blocks(xs), 4, i);
      Int32RoundTrip(xs[i]);
    }
  }

  lemma Int64sRoundTrip(xs: seq<int64>)
    ensures |Concat(Int64Blocks(xs))| == |xs| * 8
    ensures Int64sOf(|xs|, Concat(Int64Blocks(xs))) == xs
  {
    ConcatLength(Int64Blocks(xs), 8);
    forall i | 0 <= i < |xs|
      ensures Int64sOf(|xs|, Concat(Int64Blocks(xs)))[i] == xs[i]
    {
      ConcatBlockAt(Int64Blocks(xs), 8, i);
      Int64RoundTrip(xs[i]);
    }
  }

  lemma DoublesRoundTrip(xs: seq<Block8>)
    ensures |Concat(xs)| == |xs| * 8
    ensures DoublesOf(|xs|, Concat(xs)) == xs
  {
    ConcatLength(xs, 8);
    forall i | 0 <= i < |xs|
      ensures DoublesOf(|xs|, Concat(xs))[i] == xs[i]
    {
      ConcatBlockAt(xs, 8, i);
    }
  }

  lemma DecodeBytesRoundTrip(m: seq<byte>, p: nat, end: nat, a: nat, s: seq<byte>)
    requires IsAlignment(a) && Holds(m, AlignUp(p, a), s) && AlignUp(p, a) + |s| <= end <= |m|
    requires |s| < 0x8000_0000
    ensures DecodeBytes(m, p, end, a, |s|) == Ok(s, AlignUp(p, a) + |s|)
  {
  }

  lemma DecodeLeafRoundTrip(m: seq<byte>, off: nat, end: nat, v: Value)
    requires !Container(v) && Tag(v) <= 11
    requires Holds(m, BodyStart(v, off), Payload(v)) && |Payload(v)| < 0x8000_0000
    requires BodyStart(v, off) + |Payload(v)| <= end <= |m|
    requires TagSized(Tag(v)) ==> Holds(m, off + 1, SizePrefix(Count(v))) && Count(v) < 0x8000_0000
    requires TagSized(Tag(v)) ==> off + 1 + SizeLen(Count(v)) <= BodyStart(v, off)
    requires m[off] == Tag(v)
    ensures Decode(m, off, end) == Ok(v, BodyStart(v, off) + |Payload(v)|)
  {
    hide Payload, Count, Tag, LeafOf, TagUnit, TagAlignment, AlignUp, DecodeSize, DecodeBytes, SizeLen, SizePrefix, Holds;
    LeafRoundTrip(v);
    if TagSized(Tag(v)) {
      DecodeSizeRoundTrip(m, off + 1, end, Count(v));
    }
    var t, n, s := Tag(v), Count(v), Payload(v);
    var p := off + 1 + (if TagSized(t) then SizeLen(n) else 0);
    DecodeBytesRoundTrip(m, p, end, TagAlignment(t), s);
  }

  /** Decoding two or more values back to back, once their header is out of the way. */
  lemma DecodeContainerRoundTrip(m: seq<byte>, off: nat, end: nat, v: Value)
    requires Container(v) && off < end <= |m| && m[off] == Tag(v)
    requires Holds(m, off + 1, SizePrefix(Count(v))) && Count(v) < 0x8000_0000
    requires BodyStart(v, off) == off + 1 + SizeLen(Count(v)) <= end
    requires DecodeSeq(m, BodyStart(v, off), end, |Children(v)|) == Ok(Children(v), End(v, off))
    ensures Decode(m, off, end) == Ok(v, End(v, off))
  {
    hide DecodeSeq, DecodeSize, DecodeLeaf, End, BodyStart, Weight, WeightSeq, WeightEntries, Count, Holds, SizePrefix, SizeLen;
    DecodeSizeRoundTrip(m, off + 1, end, Count(v));
    if v.Map? {
      assert |v.entries| == Count(v) by { CountOfMap(v); }
      assert Unflatten(Flatten(v.entries)) == v.entries;
    } else {
      CountOfList(v);
    }
  }

  lemma CountOfMap(v: Value)
    requires v.Map?
    ensures |v.entries| == Count(v)
  {
  }

  lemma CountOfList(v: Value)
    requires v.List?
    ensures |v.items| == Count(v)
  {
  }

  lemma EncodableParts(v: Value)
    requires SizesFit(v) && Without(v, FLOAT32_ARRAY)
    ensures Count(v) < 0x8000_0000 && |Payload(v)| < 0x8000_0000
    ensures SizesFitSeq(Children(v)) && WithoutSeq(Children(v), FLOAT32_ARRAY)
    ensures !Container(v) ==> Tag(v) <= 11
    ensures Container(v) ==> TagSized(Tag(v))
  {
  }

  /**
   * Decoding undoes encoding at any offset, whatever the padding holds, and stops exactly
   * where the encoding ends.
   */
  lemma {:induction false} DecodeRoundTrip(m: seq<byte>, off: nat, end: nat, v: Value)
    requires Encodes(m, off, v) && End(v, off) <= end <= |m|
    requires SizesFit(v) && Without(v, FLOAT32_ARRAY)
    ensures Decode(m, off, end) == Ok(v, End(v, off))
    decreases Weight(v), 0
  {
    hide Tag, Count, TagSized, SizesFit, Without, SizesFitSeq, WithoutSeq, Container, Encodes, End, EncodesSeq, EndSeq, BodyStart, Payload, SizePrefix, SizeLen, Holds, Children, Weight, WeightSeq, TagAlignment, TagUnit, Decode, DecodeSeq, DecodeSize, DecodeLeaf;
    EncodesParts(m, off, v);
    EncodableParts(v);
    if Container(v) {
      DecodeSeqRoundTrip(m, BodyStart(v, off), end, Children(v));
      DecodeContainerRoundTrip(m, off, end, v);
    } else {
      DecodeLeafRoundTrip(m, off, end, v);
    }
  }

  lemma {:induction false} DecodeSeqRoundTrip(m: seq<byte>, off: nat, end: nat, vs: seq<Value>)
    requires EncodesSeq(m, off, vs) && EndSeq(vs, off) <= end <= |m|
    requires SizesFitSeq(vs) && WithoutSeq(vs, FLOAT32_ARRAY)
    ensures DecodeSeq(m, off, end, |vs|) == Ok(vs, EndSeq(vs, off))
    decreases WeightSeq(vs), 1
  {
    if vs != [] {
      hide Encodes, End, Decode, DecodeSeq, SizesFit, Without, Weight, EncodesSeq, EndSeq, SizesFitSeq, WithoutSeq, WeightSeq, Front, Last;
      SeqParts(m, off, vs);
      DecodeSeqRoundTrip(m, off, end, Front(vs));
      DecodeRoundTrip(m, EndSeq(Front(vs), off), end, Last(vs));
      DecodeSeqStep(m, off, end, |vs| - 1);
    }
  }

  // The decoder as it runs.

  class Reader {
    const mem: seq<byte>
    var pos: nat
    var remaining: nat

    constructor (mem: seq<byte>, pos: nat, remaining: nat)
      requires pos + remaining <= |mem|
      ensures Valid() && this.mem == mem && this.pos == pos && this.remaining == remaining
    {
      this.mem, this.pos, this.remaining := mem, pos, remaining;
    }

    ghost predicate Valid()
      reads this
    {
      pos + remaining <= |mem|
    }

    method Advance(n: nat) returns (ok: int)
      requires Valid()
      modifies this
      ensures Valid() && pos + remaining == old(pos + remaining)
      ensures ok == if n <= old(remaining) then 0 else EBADMSG
      ensures pos == if ok == 0 then old(pos) + n else old(pos)
    {
      if remaining < n {
        return EBADMSG;
      }
      remaining := remaining - n;
      pos := pos + n;
      ok := 0;
    }

    method ReadBytes(n: nat) returns (ok: int, s: seq<byte>)
      requires Valid()
      modifies this
      ensures Valid() && pos + remaining == old(pos + remaining)
      ensures ok == if n <= old(remaining) then 0 else EBADMSG
      ensures ok == 0 ==> s == mem[old(pos)..old(pos) + n] && pos == old(pos) + n
    {
      s := [];
      ok := Advance(n);
      if ok == 0 {
        s := mem[pos - n..pos];
      }
    }

    method ReadSize() returns (ok: int, n: nat)
      requires Valid()
      modifies this
      ensures Valid() && pos + remaining == old(pos + remaining)
      ensures var d := DecodeSize(mem, old(pos), old(pos + remaining));
              if ok == 0 then d == Ok(n, pos) else ok == EBADMSG && d == Bad
    {
      var s;
      n := 0;
      ok, s := ReadBytes(1);
      if ok != 0 {
        return;
      }
      if s[0] <= 253 {
        n := s[0];
      } else if s[0] == 254 {
        ok, s := ReadBytes(2);
        n := FromLittleEndian(s);
      } else {
        ok, s := ReadBytes(4);
        n := FromLittleEndian(s);
      }
    }

    /** Padding, a length check, and the bytes. */
    method ReadAligned(a: nat, n: nat) returns (ok: int, s: seq<byte>)
      requires Valid() && IsAlignment(a)
      modifies this
      ensures Valid() && pos + remaining == old(pos + remaining)
      ensures var d := DecodeBytes(mem, old(pos), old(pos + remaining), a, n);
              if ok == 0 then d == Ok(s, pos) else ok == EBADMSG && d == Bad
    {
      AlignmentsAgree(pos, a);
      s := [];
      var diff := CodecAlign(pos, a) - pos;
      ok := Advance(diff);
      if ok != 0 {
        return;
      }
      if n >= 0x8000_0000 {
        return EBADMSG, [];
      }
      ok, s := ReadBytes(n);
    }

    /** What the decoder leaves behind, in terms of `Decode`. */
    method DecodeValue() returns (ok: int, v: Value)
      requires Valid()
      modifies this
      ensures Valid() && pos + remaining == old(pos + remaining)
      ensures var d := Decode(mem, old(pos), old(pos + remaining));
              if ok == 0 then d == Ok(v, pos) else ok == EBADMSG && d == Bad
      decreases remaining, 0
    {
      hide DecodeSeq, DecodeLeaf, DecodeSize;
      ghost var p, end := pos, pos + remaining;
      v := Null;
      var tag;
      ok, tag := ReadBytes(1);
      if ok != 0 {
        return;
      }
      var t := tag[0];
      assert t == mem[p];
      if t <= 11 {
        ok, v := ReadLeaf(t);
      } else if t == 12 {
        var n;
        ok, n := ReadSize();
        if ok != 0 {
          return;
        }
        var items;
        ok, items := ReadList(n);
        v := List(items);
      } else if t == 13 {
        var n;
        ok, n := ReadSize();
        if ok != 0 {
          return;
        }
        var entries;
        ok, entries := ReadMap(n);
        v := Map(entries);
      } else {
        ok := EBADMSG;
      }
    }

    method ReadLeaf(t: byte) returns (ok: int, v: Value)
      requires Valid() && t <= 11
      modifies this
      ensures Valid() && pos + remaining == old(pos + remaining)
      ensures var d := DecodeLeaf(mem, old(pos), old(pos + remaining), t);
              if ok == 0 then d == Ok(v, pos) else ok == EBADMSG && d == Bad
    {
      v := Null;
      var n: nat, s := 0, [];
      if TagSized(t) {
        ok, n := ReadSize();
        if ok != 0 {
          return;
        }
        ok, s := ReadAligned(TagAlignment(t), n * TagUnit(t));
      } else {
        ok, s := ReadAligned(TagAlignment(t), TagUnit(t));
      }
      if ok == 0 {
        v := LeafOf(t, n, s);
      }
    }

    method ReadList(n: nat) returns (ok: int, items: seq<Value>)
      requires Valid()
      modifies this
      ensures Valid() && pos + remaining == old(pos + remaining)
      ensures var d := DecodeSeq(mem, old(pos), old(pos + remaining), n);
              if ok == 0 then d == Ok(items, pos) else ok == EBADMSG && d == Bad
      decreases remaining, 2
    {
      hide Decode;
      ok, items := 0, [];
      ghost var start, end := pos, pos + remaining;
      for i := 0 to n
        invariant Valid() && pos + remaining == end && start <= pos
        invariant DecodeSeq(mem, start, end, i) == Ok(items, pos)
        invariant ok == 0
      {
        var v;
        ok, v := DecodeValue();
        if ok != 0 {
          DecodeSeqBad(mem, start, end, i + 1, n);
          return;
        }
        items := items + [v];
      }
    }

    method ReadMap(n: nat) returns (ok: int, entries: seq<Entry>)
      requires Valid()
      modifies this
      ensures Valid() && pos + remaining == old(pos + remaining)
      ensures var d := DecodeSeq(mem, old(pos), old(pos + remaining), 2 * n);
              if ok == 0 then d.Ok? && d.pos == pos && Unflatten(d.value) == entries
              else ok == EBADMSG && d == Bad
      decreases remaining, 2
    {
      hide Decode;
      ok, entries := 0, [];
      ghost var start, end := pos, pos + remaining;
      ghost var vs: seq<Value> := [];
      for i := 0 to n
        invariant Valid() && pos + remaining == end && start <= pos
        invariant DecodeSeq(mem, start, end, 2 * i) == Ok(vs, pos)
        invariant |entries| == i
        invariant forall j :: 0 <= j < i ==> entries[j] == Entry(vs[2 * j], vs[2 * j + 1])
        invariant ok == 0
      {
        var e;
        ok, e := ReadEntry(start, vs);
        if ok != 0 {
          DecodeSeqBad(mem, start, end, 2 * i + 2, 2 * n);
          return;
        }
        vs := vs + [e.key] + [e.val];
        entries := entries + [e];
      }
      assert Unflatten(vs) == entries;
    }

    method ReadEntry(ghost start: nat, ghost vs: seq<Value>) returns (ok: int, e: Entry)
      requires Valid() && start <= pos
      requires DecodeSeq(mem, start, pos + remaining, |vs|) == Ok(vs, pos)
      modifies this
      ensures Valid() && pos + remaining == old(pos + remaining)
      ensures var d := DecodeSeq(mem, start, pos + remaining, |vs| + 2);
              if ok == 0 then d == Ok(vs + [e.key] + [e.val], pos) else ok == EBADMSG && d == Bad
      decreases remaining, 1
    {
      hide Decode, DecodeSeq;
      var key, val;
      e := Entry(Null, Null);
      DecodeSeqStep(mem, start, pos + remaining, |vs|);
      ok, key := DecodeValue();
      if ok != 0 {
        DecodeSeqBad(mem, start, pos + remaining, |vs| + 1, |vs| + 2);
        return;
      }
      DecodeSeqStep(mem, start, pos + remaining, |vs| + 1);
      ok, val := DecodeValue();
      e := Entry(key, val);
    }
  }

  lemma {:induction false} DecodeSeqBad(m: seq<byte>, p: nat, end: nat, k: nat, n: nat)
    requires p <= end <= |m| && k <= n && DecodeSeq(m, p, end, k).Bad?
    ensures DecodeSeq(m, p, end, n).Bad?
    decreases n
  {
    if k < n {
      DecodeSeqBad(m, p, end, k, n - 1);
    }
  }
}
