/** What the decoder and the raw check accept, in terms of the wire format. */
module StdAccept {
  import opened Bytes
  import opened StdValue
  import opened StdDecoder
  import opened RawStd
  import opened RawCheck
  import opened StdWire

  // The decoder.

  lemma DecodeSizeIff(m: seq<byte>, p: nat, end: nat, n: nat, q: nat)
    requires end <= |m|
    ensures DecodeSize(m, p, end) == Ok(n, q) <==> Prefix(m, p, n, q, Decoding) && q <= end
  {
    hide Word2, Word4, FromLittleEndian;
    WordIsLittleEndian(m, p + 1);
  }

  lemma DecodedLeafIsWire(m: seq<byte>, p: nat, end: nat)
    requires p < end <= |m| && m[p] <= 11 && Decode(m, p, end).Ok?
    ensures Wire(m, p, Decode(m, p, end).value, Decode(m, p, end).pos, Decoding)
  {
    hide Wire, Prefix, DecodeSize, LeafOf, TagUnit, TagAlignment, AlignUp;
    var t, d := m[p], Decode(m, p, end);
    assert d == DecodeLeaf(m, p + 1, end, t);
    if TagSized(t) {
      var sz := DecodeSize(m, p + 1, end);
      DecodeSizeIff(m, p + 1, end, sz.value, sz.pos);
      LeafIsWire(m, p, t, sz.value, sz.pos, d.pos, Decoding);
    } else {
      LeafIsWire(m, p, t, 0, p + 1, d.pos, Decoding);
    }
  }

  lemma WireLeafDecodes(m: seq<byte>, p: nat, end: nat, v: Value, e: nat)
    requires Wire(m, p, v, e, Decoding) && e <= end <= |m| && !Container(v)
    ensures Decode(m, p, end) == Ok(v, e)
  {
    hide Wire, Prefix, DecodeSize, LeafOf, TagUnit, TagAlignment, AlignUp;
    var n, q := LeafFromWire(m, p, v, e, Decoding);
    if TagSized(Tag(v)) {
      DecodeSizeIff(m, p + 1, end, n, q);
    } else {
      assert TagUnit(Tag(v)) <= 8 by { UnitIsSmall(Tag(v)); }
    }
  }

  lemma UnitIsSmall(t: byte)
    ensures TagUnit(t) <= 8
  {
  }

  lemma TagOfWire(m: seq<byte>, p: nat, v: Value, e: nat, f: Format)
    requires Wire(m, p, v, e, f)
    ensures p < e <= |m| && m[p] == Tag(v)
  {
    hide Prefix, WireText, Elements4, Elements8, WireAll, HoldInt32s, HoldInt64s, HoldFloats, HoldDoubles, Weight;
  }

  /**
   * The decoder gives exactly the value that is there in the wire format, and stops at its
   * end; it reports an error exactly if none is there or it goes beyond the message.
   */
  lemma {:induction false} DecodesIff(m: seq<byte>, p: nat, end: nat, v: Value, e: nat)
    requires end <= |m|
    ensures Decode(m, p, end) == Ok(v, e) <==> Wire(m, p, v, e, Decoding) && e <= end
    decreases Weight(v), 1
  {
    hide Wire, Decode, DecodeLeaf, Weight;
    DecodesToItsTag(m, p, end);
    if p < end && m[p] == Tag(v) {
      if Container(v) {
        DecodesContainerIff(m, p, end, v, e);
      } else {
        if Decode(m, p, end) == Ok(v, e) {
          DecodedLeafIsWire(m, p, end);
        }
        if Wire(m, p, v, e, Decoding) && e <= end {
          WireLeafDecodes(m, p, end, v, e);
        }
      }
    } else if Wire(m, p, v, e, Decoding) && e <= end {
      TagOfWire(m, p, v, e, Decoding);
    }
  }

  lemma DecodesToItsTag(m: seq<byte>, p: nat, end: nat)
    requires end <= |m|
    ensures Decode(m, p, end).Ok? ==> p < end && Tag(Decode(m, p, end).value) == m[p] <= 13
  {
    hide DecodeSize, DecodeLeaf, DecodeSeq;
    if Need(p, 1, end) && m[p] <= 11 {
      DecodedLeafTag(m, p, end);
    }
  }

  lemma DecodedLeafTag(m: seq<byte>, p: nat, end: nat)
    requires p < end <= |m| && m[p] <= 11
    ensures var d := DecodeLeaf(m, p + 1, end, m[p]); d.Ok? ==> Tag(d.value) == m[p]
  {
    hide DecodeSize, DecodeBytes, LeafOf, TagUnit, TagAlignment, Tag;
    var t := m[p];
    if DecodeLeaf(m, p + 1, end, t).Ok? {
      if TagSized(t) {
        var sz := DecodeSize(m, p + 1, end);
        var b := DecodeBytes(m, sz.pos, end, TagAlignment(t), sz.value * TagUnit(t));
        TagOfLeaf(t, sz.value, b.value);
        assert DecodeLeaf(m, p + 1, end, t).value == LeafOf(t, sz.value, b.value);
      } else {
        var b := DecodeBytes(m, p + 1, end, TagAlignment(t), TagUnit(t));
        TagOfLeaf(t, 0, b.value);
        assert DecodeLeaf(m, p + 1, end, t).value == LeafOf(t, 0, b.value);
      }
    }
  }

  lemma TagOfLeaf(t: byte, n: nat, s: seq<byte>)
    requires t <= 11 && |s| == BodySize(t, n)
    ensures Tag(LeafOf(t, n, s)) == t
  {
  }

  lemma ChildrenFromWire(m: seq<byte>, p: nat, v: Value, e: nat, f: Format) returns (q: nat)
    requires Container(v) && Wire(m, p, v, e, f)
    ensures Prefix(m, p + 1, Count(v), q, f) && WireAll(m, q, Children(v), e, f)
  {
    hide Prefix, Weight;
    if v.List? {
      q :| Prefix(m, p + 1, |v.items|, q, f) && WireAll(m, q, v.items, e, f);
    } else {
      q :| Prefix(m, p + 1, |v.entries|, q, f) && WireAll(m, q, Flatten(v.entries), e, f);
    }
  }

  lemma DecodeParts(m: seq<byte>, p: nat, end: nat, v: Value, e: nat)
    requires Container(v) && p < end <= |m| && m[p] == Tag(v)
    ensures var sz := DecodeSize(m, p + 1, end);
            Decode(m, p, end) == Ok(v, e) <==>
            sz.Ok? && sz.value == Count(v) && DecodeSeq(m, sz.pos, end, |Children(v)|) == Ok(Children(v), e)
  {
    hide DecodeSize, DecodeSeq, Weight, Flatten, Unflatten;
    var sz := DecodeSize(m, p + 1, end);
    if v.Map? && sz.Ok? {
      var d := DecodeSeq(m, sz.pos, end, 2 * sz.value);
      if d.Ok? {
        UnflattenIff(d.value, v.entries);
      }
    }
  }

  lemma UnflattenIff(vs: seq<Value>, es: seq<Entry>)
    requires |vs| % 2 == 0
    ensures Unflatten(vs) == es <==> vs == Flatten(es)
  {
    hide Flatten, Unflatten;
    FlattenUnflatten(vs);
    UnflattenFlatten(es);
  }

  lemma UnflattenFlatten(es: seq<Entry>)
    ensures Unflatten(Flatten(es)) == es
  {
    hide Flatten;
  }

  lemma FlattenUnflatten(vs: seq<Value>)
    requires |vs| % 2 == 0
    ensures Flatten(Unflatten(vs)) == vs
  {
    var es := Unflatten(vs);
    var w := Flatten(es);
    forall i | 0 <= i < |vs| ensures w[i] == vs[i] {
      var j := i / 2;
      assert es[j] == Entry(vs[2 * j], vs[2 * j + 1]);
      assert w[2 * j] == es[j].key && w[2 * j + 1] == es[j].val;
      assert i == 2 * j || i == 2 * j + 1;
    }
  }

  lemma DecodesContainerIff(m: seq<byte>, p: nat, end: nat, v: Value, e: nat)
    requires Container(v) && p < end <= |m| && m[p] == Tag(v)
    ensures Decode(m, p, end) == Ok(v, e) <==> Wire(m, p, v, e, Decoding) && e <= end
    decreases Weight(v), 0
  {
    hide Wire, WireAll, Prefix, Decode, DecodeSeq, DecodeSize, Children, Count, Weight;
    DecodeParts(m, p, end, v, e);
    var sz := DecodeSize(m, p + 1, end);
    if sz.Ok? {
      DecodeSizeIff(m, p + 1, end, sz.value, sz.pos);
      DecodesAllIff(m, sz.pos, end, Children(v), e);
    }
    if Decode(m, p, end) == Ok(v, e) {
      FramedChildrenAreWire(m, p, v, sz.pos, e, Decoding);
    }
    if Wire(m, p, v, e, Decoding) && e <= end {
      var q := ChildrenFromWire(m, p, v, e, Decoding);
      WireAllGrows(m, q, Children(v), e, Decoding);
      DecodeSizeIff(m, p + 1, end, Count(v), q);
    }
  }

  /** Where the last of some values starts. */
  lemma LastOnWire(m: seq<byte>, p: nat, vs: seq<Value>, e: nat, f: Format) returns (mid: nat)
    requires vs != [] && WireAll(m, p, vs, e, f)
    ensures WireAll(m, p, Front(vs), mid, f) && Wire(m, mid, Last(vs), e, f)
  {
    hide Wire;
    mid :| WireAll(m, p, Front(vs), mid, f) && Wire(m, mid, Last(vs), e, f);
  }

  lemma {:induction false} WireAllGrows(m: seq<byte>, p: nat, vs: seq<Value>, e: nat, f: Format)
    requires WireAll(m, p, vs, e, f)
    ensures p <= e <= |m|
    decreases |vs|
  {
    hide Wire;
    if vs != [] {
      var mid := LastOnWire(m, p, vs, e, f);
      WireAllGrows(m, p, Front(vs), mid, f);
      TagOfWire(m, mid, Last(vs), e, f);
    }
  }

  /** The same for values back to back. */
  lemma {:induction false} DecodesAllIff(m: seq<byte>, p: nat, end: nat, vs: seq<Value>, e: nat)
    requires p <= end <= |m|
    ensures DecodeSeq(m, p, end, |vs|) == Ok(vs, e) <==> WireAll(m, p, vs, e, Decoding) && e <= end
    decreases WeightSeq(vs), 2
  {
    if vs != [] {
      hide Wire, Decode, DecodeSeq, Weight;
      var init := DecodeSeq(m, p, end, |vs| - 1);
      SnocParts(m, p, end, vs, e);
      if init.Ok? {
        DecodesAllIff(m, p, end, Front(vs), init.pos);
        DecodesIff(m, init.pos, end, Last(vs), e);
      }
      if WireAll(m, p, vs, e, Decoding) && e <= end {
        var mid := LastOnWire(m, p, vs, e, Decoding);
        TagOfWire(m, mid, Last(vs), e, Decoding);
        DecodesAllIff(m, p, end, Front(vs), mid);
      }
    }
  }

  lemma SnocParts(m: seq<byte>, p: nat, end: nat, vs: seq<Value>, e: nat)
    requires p <= end <= |m| && vs != []
    ensures WeightSeq(Front(vs)) < WeightSeq(vs) && Weight(Last(vs)) <= WeightSeq(vs) && |Front(vs)| == |vs| - 1
    ensures var init := DecodeSeq(m, p, end, |vs| - 1);
            DecodeSeq(m, p, end, |vs|) == Ok(vs, e) <==>
            init.Ok? && init.value == Front(vs) && Decode(m, init.pos, end) == Ok(Last(vs), e)
  {
    hide Wire, Decode, DecodeSeq, Weight;
    SeqParts(m, 0, vs);
    var init := DecodeSeq(m, p, end, |vs| - 1);
    if init.Ok? {
      DecodeSeqStep(m, p, end, |vs| - 1);
      SnocInjective(init.value, vs);
    } else {
      DecodeSeqBad(m, p, end, |vs| - 1, |vs|);
    }
  }

  lemma SnocInjective(init: seq<Value>, vs: seq<Value>)
    requires vs != []
    ensures forall x: Value :: init + [x] == vs <==> init == Front(vs) && x == Last(vs)
  {
    forall x: Value ensures init + [x] == vs <==> init == Front(vs) && x == Last(vs) {
      assert Front(init + [x]) == init && Last(init + [x]) == x;
      assert vs == Front(vs) + [Last(vs)];
    }
  }

  // The check.

  lemma CheckedSizeIff(m: seq<byte>, off: nat, n: nat, q: nat)
    requires off + 1 < |m|
    ensures Prefix(m, off + 1, n, q, Checking) <==> DecodeSize(m, off + 1, |m|) == Ok(n, q) && MinimalSize(m, off, n)
    ensures Prefix(m, off + 1, n, q, Checking) ==> q == off + 1 + SizeLen(n)
  {
    hide Word2, Word4, FromLittleEndian;
    WordIsLittleEndian(m, off + 2);
    FromLittleEndianBounds(m, off + 2);
  }

  /** A leaf in the wire format is acceptable, and the walk goes to its end. */
  lemma LeafIsChecked(m: seq<byte>, off: nat, v: Value, e: nat)
    requires Wire(m, off, v, e, Checking) && !Container(v)
    ensures CheckedEnd(m, off).At? && RawAfter(m, off) == At(e)
  {
    hide Wire, Prefix, DecodeSize, LeafAt, TagUnit, TagAlignment, AlignUp, RawAlign, MinimalSize, SizeLen;
    var n, q := LeafFromWire(m, off, v, e, Checking);
    AlignmentsAgree(q, TagAlignment(Tag(v)));
    if TagSized(Tag(v)) {
      PrefixFits(m, off + 1, n, q, Checking);
      CheckedSizeIff(m, off, n, q);
    }
  }

  lemma PrefixFits(m: seq<byte>, p: nat, n: nat, q: nat, f: Format)
    requires Prefix(m, p, n, q, f)
    ensures p < q <= |m|
  {
  }

  lemma ContainerIsChecked(m: seq<byte>, off: nat, v: Value, q: nat, e: nat)
    requires Container(v) && off < |m| && m[off] == Tag(v) && Prefix(m, off + 1, Count(v), q, Checking)
    requires CheckedEndSeq(m, q, |Children(v)|).At? && RawAfterSeq(m, q, |Children(v)|) == At(e)
    ensures CheckedEnd(m, off).At? && RawAfter(m, off) == At(e)
  {
    hide Prefix, DecodeSize, RawAfterSeq, CheckedEndSeq, MinimalSize, SizeLen, RawAlign, AlignUp, Weight;
    PrefixFits(m, off + 1, Count(v), q, Checking);
    CheckedSizeIff(m, off, Count(v), q);
    AlignmentsAgree(q, 1);
  }

  lemma {:induction false} WireIsChecked(m: seq<byte>, off: nat, v: Value, e: nat)
    requires Wire(m, off, v, e, Checking)
    ensures CheckedEnd(m, off).At? && RawAfter(m, off) == At(e)
    decreases Weight(v), 0
  {
    hide Wire, WireAll, Prefix, RawAfter, RawAfterSeq, CheckedEnd, CheckedEndSeq, Children, Weight;
    if Container(v) {
      TagOfWire(m, off, v, e, Checking);
      var q := ChildrenFromWire(m, off, v, e, Checking);
      AllAreChecked(m, q, Children(v), e);
      ContainerIsChecked(m, off, v, q, e);
    } else {
      LeafIsChecked(m, off, v, e);
    }
  }

  lemma {:induction false} AllAreChecked(m: seq<byte>, p: nat, vs: seq<Value>, e: nat)
    requires WireAll(m, p, vs, e, Checking)
    ensures CheckedEndSeq(m, p, |vs|).At? && RawAfterSeq(m, p, |vs|) == At(e)
    decreases WeightSeq(vs), 1
  {
    if vs != [] {
      hide Wire, WireAll, CheckedEnd, RawAfter, Weight;
      var mid := LastOnWire(m, p, vs, e, Checking);
      AllAreChecked(m, p, Front(vs), mid);
      WireIsChecked(m, mid, Last(vs), e);
    } else {
      WireAllGrows(m, p, vs, e, Checking);
    }
  }

  /** Where the check can tell the end, and that is in memory, there is a value. */
  lemma {:induction false} CheckedIsWire(m: seq<byte>, off: nat) returns (v: Value)
    requires CheckedEnd(m, off).At? && RawAfter(m, off).At? && RawAfter(m, off).pos <= |m|
    ensures Wire(m, off, v, RawAfter(m, off).pos, Checking)
    decreases Left(m, off), 1
  {
    if m[off] == 12 || m[off] == 13 {
      v := CheckedContainerIsWire(m, off);
    } else {
      v := CheckedLeafIsWire(m, off);
    }
  }

  lemma CheckedLeafIsWire(m: seq<byte>, off: nat) returns (v: Value)
    requires CheckedEnd(m, off).At? && RawAfter(m, off).At? && RawAfter(m, off).pos <= |m|
    requires m[off] != 12 && m[off] != 13
    ensures Wire(m, off, v, RawAfter(m, off).pos, Checking)
  {
    hide Wire, Prefix, DecodeSize, LeafAt, TagUnit, TagAlignment, AlignUp, RawAlign, MinimalSize, SizeLen;
    var t, e := m[off], RawAfter(m, off).pos;
    if TagSized(t) {
      var size := DecodeSize(m, off + 1, |m|);
      CheckedSizeIff(m, off, size.value, size.pos);
      AlignmentsAgree(size.pos, TagAlignment(t));
      LeafIsWire(m, off, t, size.value, size.pos, e, Checking);
      v := LeafAt(m, t, size.value, e);
    } else {
      AlignmentsAgree(off + 1, TagAlignment(t));
      LeafIsWire(m, off, t, 0, off + 1, e, Checking);
      v := LeafAt(m, t, 0, e);
    }
  }

  lemma CheckedContainerIsWire(m: seq<byte>, off: nat) returns (v: Value)
    requires CheckedEnd(m, off).At? && RawAfter(m, off).At? && RawAfter(m, off).pos <= |m|
    requires m[off] == 12 || m[off] == 13
    ensures Wire(m, off, v, RawAfter(m, off).pos, Checking)
    decreases Left(m, off), 0
  {
    hide Wire, WireAll, Prefix, DecodeSize, RawAfterSeq, CheckedEndSeq, MinimalSize, Flatten, Unflatten, Weight;
    var t, size := m[off], DecodeSize(m, off + 1, |m|);
    CheckedSizeIff(m, off, size.value, size.pos);
    AlignmentsAgree(size.pos, TagAlignment(t));
    var vs := CheckedAllAreWire(m, size.pos, ChildCount(t, size.value));
    if t == 12 {
      v := List(vs);
    } else {
      v := Map(Unflatten(vs));
      UnflattenIff(vs, Unflatten(vs));
    }
    FramedChildrenAreWire(m, off, v, size.pos, RawAfter(m, off).pos, Checking);
  }

  lemma {:induction false} CheckedAllAreWire(m: seq<byte>, p: nat, n: nat) returns (vs: seq<Value>)
    requires CheckedEndSeq(m, p, n).At? && RawAfterSeq(m, p, n).At? && p <= RawAfterSeq(m, p, n).pos <= |m|
    ensures |vs| == n && WireAll(m, p, vs, RawAfterSeq(m, p, n).pos, Checking)
    decreases Left(m, p), n + 1
  {
    vs := [];
    if n > 0 {
      hide Wire, CheckedEnd, RawAfter, Weight;
      var mid := RawAfterSeq(m, p, n - 1).pos;
      var front := CheckedAllAreWire(m, p, n - 1);
      var last := CheckedIsWire(m, mid);
      vs := front + [last];
      assert Front(vs) == front && Last(vs) == last;
    }
  }

  /**
   * The check accepts exactly if a value is there, as the writer writes it but for texts cut
   * short by a NUL, that is no LargeInt and holds none, and ends within the buffer, where the
   * padding of a scalar double at the end is not counted.
   */
  lemma AcceptsIff(m: seq<byte>, off: nat, end: nat)
    requires off <= end && AlignUp(end, 8) <= |m|
    ensures RawCheckValue(m, off, end) <==>
              exists v: Value, e: nat ::
                Wire(m, off, v, e, Checking) && (e <= end || (EndsInDouble(m, off) && CheckedEnd(m, off).At? && CheckedEnd(m, off).pos <= end))
  {
    hide Wire, RawCheckValue, CheckedEnd, RawAfter, EndsInDouble;
    CheckExact(m, off, end);
    if RawCheckValue(m, off, end) {
      CheckSound(m, off, end);
      CheckedWalk(m, off);
      var v := CheckedIsWire(m, off);
      assert Wire(m, off, v, RawAfter(m, off).pos, Checking);
    }
    forall v: Value, e: nat | Wire(m, off, v, e, Checking) && (e <= end || (EndsInDouble(m, off) && CheckedEnd(m, off).At? && CheckedEnd(m, off).pos <= end))
      ensures RawCheckValue(m, off, end)
    {
      WireIsChecked(m, off, v, e);
      CheckedWalk(m, off);
      PaddedBounds(CheckedEnd(m, off).pos, EndsInDouble(m, off));
    }
  }
}
