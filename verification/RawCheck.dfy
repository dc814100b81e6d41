/** Validation of encoded bytes before they are used in place: `raw_std_value_check`. */
module RawCheck {
  import opened Bytes
  import opened StdValue
  import opened StdDecoder
  import opened RawStd

  /** `check_size` on the value at `off`, in a buffer that reaches to `end`. */
  predicate CheckSize(m: seq<byte>, off: nat, end: nat)
    requires off <= end <= |m|
  {
    && off + 2 <= end
    && (m[off + 1] == 254 ==> off + 4 <= end && FromLittleEndian(m[off + 2..off + 4]) >= 254)
    && (m[off + 1] == 255 ==> off + 6 <= end && FromLittleEndian(m[off + 2..off + 6]) >= 0x1_0000)
  }

  /** The element count `raw_std_value_get_size` reads once `check_size` has accepted. */
  function RawGetSize(m: seq<byte>, off: nat, end: nat): (n: nat)
    requires off <= end <= |m| && CheckSize(m, off, end)
    ensures DecodeSize(m, off + 1, |m|).Ok? && DecodeSize(m, off + 1, |m|).value == n
    ensures off + 1 + SizeLen(n) <= end
  {
    FromLittleEndianBounds(m, off + 2);
    DecodeSize(m, off + 1, |m|).value
  }

  predicate RawCheckValue(m: seq<byte>, off: nat, end: nat)
    requires off <= end <= |m|
    decreases Left(m, off), 0
  {
    off < end &&
    var t := m[off];
    if t <= 2 then true
    else if t == 3 then off + 5 <= end
    else if t == 4 || t == 6 then off + 9 <= end
    else if t == 5 || t > 14 then false
    else
      CheckSize(m, off, end) &&
      var n := RawGetSize(m, off, end);
      if t == 12 || t == 13 then RawCheckSeq(m, RawBody(off, t, n), end, ChildCount(t, n))
      else RawBody(off, t, n) + n * TagUnit(t) <= end
  }

  /** The first `n` values from `p` on are accepted, one after the other. */
  predicate RawCheckSeq(m: seq<byte>, p: nat, end: nat, n: nat)
    requires end <= |m|
    decreases Left(m, p), n + 1
  {
    n == 0 ||
    (RawCheckSeq(m, p, end, n - 1) &&
     var w := RawAfterSeq(m, p, n - 1);
     w.At? && w.pos <= end && RawCheckValue(m, w.pos, end))
  }

  // What it takes to be accepted, without a buffer size.

  /** A size that needs no long prefix has none. */
  predicate MinimalSize(m: seq<byte>, off: nat, n: nat)
    requires off + 1 < |m|
  {
    (m[off + 1] == 254 ==> n >= 254) && (m[off + 1] == 255 ==> n >= 0x1_0000)
  }

  /** Where the check believes the value at `off` ends, if it is acceptable at all. */
  function CheckedEnd(m: seq<byte>, off: nat): (w: Walk)
    ensures w.At? ==> off < |m| && w.pos > off
    decreases Left(m, off), 0
  {
    if off >= |m| || m[off] == 5 || m[off] > 14 then Fault
    else if !TagSized(m[off]) then At(off + 1 + TagUnit(m[off]))
    else
      var size := DecodeSize(m, off + 1, |m|);
      if size.Bad? || !MinimalSize(m, off, size.value) then Fault
      else if m[off] == 12 || m[off] == 13 then
        CheckedEndSeq(m, RawBody(off, m[off], size.value), ChildCount(m[off], size.value))
      else At(RawBody(off, m[off], size.value) + size.value * TagUnit(m[off]))
  }

  function CheckedEndSeq(m: seq<byte>, p: nat, n: nat): (w: Walk)
    ensures w.At? ==> w.pos >= p
    decreases Left(m, p), n + 1
  {
    if n == 0 then At(p) else
      var w := RawAfterSeq(m, p, n - 1);
      if CheckedEndSeq(m, p, n - 1).Fault? || w.Fault? then Fault else CheckedEnd(m, w.pos)
  }

  /** The last thing in the value at `off` is a scalar double. */
  predicate EndsInDouble(m: seq<byte>, off: nat)
    decreases Left(m, off), 0
  {
    off < |m| &&
    (m[off] == 6 ||
     ((m[off] == 12 || m[off] == 13) &&
      var size := DecodeSize(m, off + 1, |m|);
      size.Ok? && EndsInDoubleSeq(m, RawBody(off, m[off], size.value), ChildCount(m[off], size.value))))
  }

  predicate EndsInDoubleSeq(m: seq<byte>, p: nat, n: nat)
    decreases Left(m, p), n + 1
  {
    n > 0 && var w := RawAfterSeq(m, p, n - 1); w.At? && EndsInDouble(m, w.pos)
  }

  lemma CheckedEndSeqParts(m: seq<byte>, p: nat, n: nat)
    requires n > 0 && CheckedEndSeq(m, p, n).At?
    ensures CheckedEndSeq(m, p, n - 1).At? && RawAfterSeq(m, p, n - 1).At?
    ensures CheckedEndSeq(m, p, n) == CheckedEnd(m, RawAfterSeq(m, p, n - 1).pos)
    ensures EndsInDoubleSeq(m, p, n) <==> EndsInDouble(m, RawAfterSeq(m, p, n - 1).pos)
  {
    hide CheckedEnd, EndsInDouble, RawAfterSeq, RawAfter;
  }

  /** `e` rounded up to 8 if the value ends in a double, and `e` itself otherwise. */
  function Padded(e: nat, inDouble: bool): nat {
    if inDouble then AlignUp(e, 8) else e
  }

  /** The walk goes where the check believes it does, or, past a trailing double, its padding further. */
  lemma {:induction false} CheckedWalk(m: seq<byte>, off: nat)
    requires CheckedEnd(m, off).At?
    ensures RawAfter(m, off) == At(Padded(CheckedEnd(m, off).pos, EndsInDouble(m, off)))
    decreases Left(m, off), 0
  {
    var t := m[off];
    if t == 12 || t == 13 {
      var n := DecodeSize(m, off + 1, |m|).value;
      hide RawAfterSeq, RawBody, CheckedEndSeq, EndsInDoubleSeq, DecodeSize, AlignUp, ChildCount;
      CheckedWalkSeq(m, RawBody(off, t, n), ChildCount(t, n));
    } else {
      hide RawAfterSeq, RawBody, CheckedEndSeq, EndsInDoubleSeq, DecodeSize;
      if t == 6 {
        AlignmentsAgree(off + 1, 8);
      } else if !TagSized(t) {
        AlignmentsAgree(off + 1, 1);
      }
    }
  }

  lemma {:induction false} CheckedWalkSeq(m: seq<byte>, p: nat, n: nat)
    requires CheckedEndSeq(m, p, n).At?
    ensures RawAfterSeq(m, p, n) == At(Padded(CheckedEndSeq(m, p, n).pos, EndsInDoubleSeq(m, p, n)))
    decreases Left(m, p), n + 1
  {
    if n > 0 {
      hide CheckedEnd, CheckedEndSeq, EndsInDouble, EndsInDoubleSeq, RawAfter, RawAfterSeq, AlignUp;
      CheckedEndSeqParts(m, p, n);
      RawAfterSeqStep(m, p, n - 1);
      CheckedWalk(m, RawAfterSeq(m, p, n - 1).pos);
    }
  }

  lemma CheckSizeExact(m: seq<byte>, off: nat, end: nat)
    requires off < end <= |m|
    ensures CheckSize(m, off, end) ==>
              var d := DecodeSize(m, off + 1, |m|);
              d.Ok? && MinimalSize(m, off, d.value)
    ensures var d := DecodeSize(m, off + 1, |m|);
            d.Ok? && MinimalSize(m, off, d.value) && off + 1 + SizeLen(d.value) <= end ==> CheckSize(m, off, end)
  {
    var d := DecodeSize(m, off + 1, |m|);
    if d.Ok? {
      FromLittleEndianBounds(m, off + 2);
    }
  }

  lemma FromLittleEndianBounds(m: seq<byte>, p: nat)
    ensures p + 2 <= |m| ==> FromLittleEndian(m[p..p + 2]) < 0x1_0000
  {
    Pow256Values();
    if p + 2 <= |m| {
      FromLittleEndianBound(m[p..p + 2]);
    }
  }

  /** A value is accepted if and only if the check can tell where it ends and that is in the buffer. */
  lemma {:induction false} CheckExact(m: seq<byte>, off: nat, end: nat)
    requires off <= end <= |m|
    ensures RawCheckValue(m, off, end) <==> CheckedEnd(m, off).At? && CheckedEnd(m, off).pos <= end
    decreases Left(m, off), 0
  {
    if off < end && m[off] != 5 && m[off] <= 14 && TagSized(m[off]) {
      CheckSizeExact(m, off, end);
      var t, d := m[off], DecodeSize(m, off + 1, |m|);
      if d.Ok? {
        hide RawAfterSeq, RawBody, CheckedEndSeq, DecodeSize, CheckSize, MinimalSize, RawCheckSeq, SizeLen, ChildCount, RawGetSize;
        BodyAfterHeader(off, t, d.value);
        if t == 12 || t == 13 {
          CheckSeqExact(m, RawBody(off, t, d.value), end, ChildCount(t, d.value));
        }
      }
    }
  }

  lemma BodyAfterHeader(off: nat, t: byte, n: nat)
    ensures off + 1 + SizeLen(n) <= RawBody(off, t, n)
    ensures t == 12 || t == 13 ==> off + 1 + SizeLen(n) == RawBody(off, t, n)
  {
    AlignmentsAgree(off + 1 + SizeLen(n), TagAlignment(t));
  }

  lemma {:induction false} CheckSeqExact(m: seq<byte>, p: nat, end: nat, n: nat)
    requires end <= |m|
    ensures RawCheckSeq(m, p, end, n) && p <= end <==>
              CheckedEndSeq(m, p, n).At? && CheckedEndSeq(m, p, n).pos <= end
    decreases Left(m, p), n + 1
  {
    if n > 0 {
      hide RawCheckValue, CheckedEnd, RawAfter, RawAfterSeq, EndsInDouble, AlignUp;
      CheckSeqExact(m, p, end, n - 1);
      var w := RawAfterSeq(m, p, n - 1);
      if CheckedEndSeq(m, p, n - 1).At? && w.At? {
        CheckedWalkSeq(m, p, n - 1);
        if w.pos <= end {
          CheckExact(m, w.pos, end);
        }
      }
    }
  }

  // Completeness: whatever the writer produces is accepted.

  lemma {:induction false} CheckedEndOfEncoding(m: seq<byte>, off: nat, v: Value)
    requires Encodes(m, off, v) && CountsFit(v) && Without(v, LARGE_INT)
    ensures CheckedEnd(m, off).At?
    decreases Weight(v), 0
  {
    EncodesParts(m, off, v);
    CountsFitChildren(v);
    assert Tag(v) != LARGE_INT && WithoutSeq(Children(v), LARGE_INT);
    if TagSized(Tag(v)) {
      SizeIsMinimal(m, off, v);
    }
    if Container(v) {
      hide Encodes, End, EncodesSeq, EndSeq, CountsFit, CountsFitSeq, Without, WithoutSeq, BodyStart, Children, DecodeSize, RawBody, CheckedEndSeq, Count, Holds, SizePrefix, Tag, Payload, MinimalSize, ChildCount;
      RawContainer(m, off, v);
      RawFieldsAgree(v, off);
      CheckedEndOfEncodings(m, BodyStart(v, off), Children(v));
    }
  }

  lemma SizeIsMinimal(m: seq<byte>, off: nat, v: Value)
    requires Encodes(m, off, v) && CountsFit(v) && TagSized(Tag(v))
    ensures off < |m| && DecodeSize(m, off + 1, |m|) == Ok(Count(v), off + 1 + SizeLen(Count(v)))
    ensures MinimalSize(m, off, Count(v))
  {
    hide Encodes, CountsFit, Payload, Tag, TagSized, Count, BodyStart, End, EncodesSeq, EndSeq, DecodeSize, LittleEndian;
    EncodesParts(m, off, v);
    CountsFitChildren(v);
    DecodeSizeRoundTrip(m, off + 1, |m|, Count(v));
    assert m[off + 1] == m[off + 1..off + 1 + SizeLen(Count(v))][0] == SizePrefix(Count(v))[0];
  }

  lemma {:induction false} CheckedEndOfEncodings(m: seq<byte>, off: nat, vs: seq<Value>)
    requires EncodesSeq(m, off, vs) && CountsFitSeq(vs) && WithoutSeq(vs, LARGE_INT)
    ensures CheckedEndSeq(m, off, |vs|).At?
    decreases WeightSeq(vs), 1
  {
    if vs != [] {
      hide Encodes, End, EncodesSeq, EndSeq, CountsFit, CountsFitSeq, Without, WithoutSeq, CheckedEnd, RawAfter, RawAfterSeq, Weight, WeightSeq, Decode, SizesFit, Front, Last;
      SeqParts(m, off, vs);
      CountsFitParts(vs);
      CheckedEndOfEncodings(m, off, Front(vs));
      RawAfterSeqRefinesDecode(m, off, Front(vs));
      CheckedEndOfEncoding(m, EndSeq(Front(vs), off), Last(vs));
    }
  }

  lemma PaddedBounds(e: nat, inDouble: bool)
    ensures e <= Padded(e, inDouble) <= e + 7
  {
  }

  lemma CheckComplete(m: seq<byte>, off: nat, end: nat, v: Value)
    requires Encodes(m, off, v) && CountsFit(v) && Without(v, LARGE_INT)
    requires End(v, off) <= end <= |m|
    ensures off <= end && RawCheckValue(m, off, end)
  {
    hide Encodes, CountsFit, Without, CheckedEnd, RawAfter, RawCheckValue, EndsInDouble, Padded, Decode, SizesFit;
    CheckedEndOfEncoding(m, off, v);
    CheckedWalk(m, off);
    RawAfterRefinesDecode(m, off, v);
    PaddedBounds(CheckedEnd(m, off).pos, EndsInDouble(m, off));
    CheckExact(m, off, end);
  }

  /**
   * Soundness. Walking an accepted value never faults. It stays within the buffer unless the
   * value ends in a scalar double; then it stays within the buffer rounded up to 8, and
   * within the buffer itself exactly when the padded end does.
   */
  lemma CheckSound(m: seq<byte>, off: nat, end: nat)
    requires off <= end <= |m| && RawCheckValue(m, off, end)
    ensures RawAfter(m, off).At? && CheckedEnd(m, off).At?
    ensures !EndsInDouble(m, off) ==> RawAfter(m, off).pos <= end
    ensures RawAfter(m, off).pos <= AlignUp(end, 8) <= end + 7
    ensures RawAfter(m, off).pos <= end <==>
              !EndsInDouble(m, off) || AlignUp(CheckedEnd(m, off).pos, 8) <= end
  {
    hide CheckedEnd, RawAfter, RawCheckValue, EndsInDouble;
    CheckExact(m, off, end);
    CheckedWalk(m, off);
  }

  /** The fixed nine bytes of the check are too few for a double that needs padding. */
  lemma CheckOvershoots()
    ensures exists m: seq<byte> :: |m| == 16 && RawCheckValue(m, 0, 9) && RawAfter(m, 0) == At(16)
  {
    var m: seq<byte> := seq(16, i => 6);
    assert |m| == 16 && RawCheckValue(m, 0, 9) && RawAfter(m, 0) == At(16);
  }

  // The check as it runs.

  method RawStdValueCheck(m: seq<byte>, off: nat, bufferSize: nat) returns (ok: bool)
    requires off + bufferSize <= |m|
    ensures ok == RawCheckValue(m, off, off + bufferSize)
    decreases Left(m, off), 0
  {
    hide RawCheckSeq, RawAfterSeq, CheckSize;
    var end := off + bufferSize;
    if bufferSize < 1 {
      return false;
    }
    var t := m[off];
    if t <= 2 {
      return true;
    } else if t == 3 {
      return bufferSize >= 5;
    } else if t == 4 || t == 6 {
      return bufferSize >= 9;
    } else if t == 5 || t > 14 {
      return false;
    }
    if !CheckSize(m, off, end) {
      return false;
    }
    var n := RawGetSize(m, off, end);
    if t == 12 || t == 13 {
      ok := RawStdElementsCheck(m, RawBody(off, t, n), end, ChildCount(t, n));
    } else {
      var diff := RawBody(off, t, n) - off;
      ok := bufferSize >= diff && bufferSize - diff >= n * TagUnit(t);
    }
  }

  /** The loop over the elements of a list, or the keys and values of a map. */
  method RawStdElementsCheck(m: seq<byte>, first: nat, end: nat, n: nat) returns (ok: bool)
    requires end <= |m|
    ensures ok == RawCheckSeq(m, first, end, n)
    decreases Left(m, first), 1
  {
    hide RawCheckValue, RawAfter;
    var element := first;
    for i := 0 to n
      invariant RawCheckSeq(m, first, end, i) && RawAfterSeq(m, first, i) == At(element)
    {
      if end < element {
        RawCheckSeqFalse(m, first, end, i + 1, n);
        return false;
      }
      ok := RawStdValueCheck(m, element, end - element);
      if !ok {
        RawCheckSeqFalse(m, first, end, i + 1, n);
        return;
      }
      CheckSound(m, element, end);
      RawAfterSeqStep(m, first, i);
      var w := RawStdValueAfter(m, element);
      element := w.pos;
    }
    return true;
  }

  lemma {:induction false} RawCheckSeqFalse(m: seq<byte>, p: nat, end: nat, k: nat, n: nat)
    requires end <= |m| && k <= n && !RawCheckSeq(m, p, end, k)
    ensures !RawCheckSeq(m, p, end, n)
    decreases n
  {
    hide RawCheckValue, RawAfterSeq;
    if k < n {
      RawCheckSeqFalse(m, p, end, k, n - 1);
    }
  }
}
