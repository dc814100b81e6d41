/** Size pre-computation and in-place writer of the standard message codec. */
module StdWriter {
  import opened Bytes
  import opened StdValue

  const EINVAL := 22

  // Facts about prefixes of a sequence of values, used by the loops.

  lemma {:induction false} EndSeqPrefix(vs: seq<Value>, off: nat, k: nat)
    requires k <= |vs|
    ensures EndSeq(vs[..k], off) <= EndSeq(vs, off)
    ensures k < |vs| ==> EndSeq(vs[..k + 1], off) == End(vs[k], EndSeq(vs[..k], off)) <= EndSeq(vs, off)
    decreases |vs|
  {
    hide End, BodyStart, Weight, WeightSeq;
    if k == |vs| {
      assert vs[..k] == vs;
    } else {
      assert Front(vs[..k + 1]) == vs[..k] && Last(vs[..k + 1]) == vs[k];
      assert Front(vs)[..k] == vs[..k];
      EndSeqPrefix(Front(vs), off, k);
      if k == |vs| - 1 {
        assert vs[..k + 1] == vs;
      } else {
        assert Front(vs)[..k + 1] == vs[..k + 1];
      }
    }
  }

  lemma {:induction false} SizesFitElement(vs: seq<Value>, k: nat)
    requires SizesFitSeq(vs) && k < |vs|
    ensures SizesFit(vs[k])
  {
    if k < |vs| - 1 {
      SizesFitElement(Front(vs), k);
    }
  }

  lemma {:induction false} WithoutPrefix(vs: seq<Value>, tag: byte, k: nat)
    requires k < |vs|
    ensures WithoutSeq(vs[..k + 1], tag) <==> WithoutSeq(vs[..k], tag) && Without(vs[k], tag)
    ensures !WithoutSeq(vs[..k + 1], tag) ==> !WithoutSeq(vs, tag)
    decreases |vs|
  {
    hide Without, Weight, WeightSeq;
    assert Front(vs[..k + 1]) == vs[..k] && Last(vs[..k + 1]) == vs[k];
    if k == |vs| - 1 {
      assert vs[..k + 1] == vs;
    } else {
      assert Front(vs)[..k + 1] == vs[..k + 1] && Front(vs)[..k] == vs[..k] && Front(vs)[k] == vs[k];
      WithoutPrefix(Front(vs), tag, k);
    }
  }

  lemma {:induction false} ConcatPrefix(blocks: seq<seq<byte>>, i: nat)
    requires i < |blocks|
    ensures Concat(blocks[..i + 1]) == Concat(blocks[..i]) + blocks[i]
    ensures |Concat(blocks[..i + 1])| <= |Concat(blocks)|
    decreases |blocks|
  {
    assert blocks[..i + 1][..i] == blocks[..i];
    if i == |blocks| - 1 {
      assert blocks[..i + 1] == blocks;
    } else {
      ConcatPrefix(blocks[..|blocks| - 1], i);
      assert blocks[..|blocks| - 1][..i + 1] == blocks[..i + 1];
    }
  }

  lemma HoldsAppend(m: seq<byte>, m': seq<byte>, off: nat, s: seq<byte>, t: seq<byte>)
    requires Holds(m, off, s) && Agree(m, m', off, off + |s|) && Holds(m', off + |s|, t)
    ensures Holds(m', off, s + t)
  {
    HoldsFrame(m, m', off, s, off, off + |s|);
    assert m'[off..off + |s + t|] == m'[off..off + |s|] + m'[off + |s|..off + |s| + |t|];
  }

  /** What the writer needs to know of a value that starts at `off`. */
  lemma ValueParts(v: Value, off: nat)
    requires SizesFit(v)
    ensures off < BodyStart(v, off) <= End(v, off) && Count(v) < 0x8000_0000
    ensures BodyStart(v, off) + |Payload(v)| <= End(v, off) && EndSeq(Children(v), BodyStart(v, off)) <= End(v, off)
    ensures End(v, off) == if Container(v) then EndSeq(Children(v), BodyStart(v, off)) else BodyStart(v, off) + |Payload(v)|
    ensures v.Float32Array? <==> Tag(v) == FLOAT32_ARRAY
    ensures Without(v, FLOAT32_ARRAY) <==> !v.Float32Array? && WithoutSeq(Children(v), FLOAT32_ARRAY)
  {
  }

  /** Tag and size prefix written first, in `m`, and the body after them, in `m'`. */
  lemma EncodesHeader(m: seq<byte>, m': seq<byte>, off: nat, v: Value)
    requires Holds(m, off, [Tag(v)])
    requires TagSized(Tag(v)) ==> Holds(m, off + 1, SizePrefix(Count(v)))
    requires BodyStart(v, off) <= |m| == |m'| && Agree(m, m', off, BodyStart(v, off))
    requires if Container(v) then EncodesSeq(m', BodyStart(v, off), Children(v))
             else Holds(m', BodyStart(v, off), Payload(v))
    requires End(v, off) <= |m'|
    ensures Encodes(m', off, v)
  {
    assert m[off] == m[off..off + 1][0];
    if TagSized(Tag(v)) {
      HoldsFrame(m, m', off + 1, SizePrefix(Count(v)), off, BodyStart(v, off));
    }
  }

  // Size pre-computation.

  method AdvanceSizeBytes(size: nat, n: nat) returns (r: nat)
    ensures r == size + SizeLen(n)
  {
    if n < 254 {
      r := size + 1;
    } else if n <= 0xFFFF {
      r := size + 3;
    } else {
      r := size + 5;
    }
  }

  method Align(p: nat, a: nat) returns (q: nat)
    requires IsAlignment(a)
    ensures q == AlignUp(p, a)
  {
    AlignmentsAgree(p, a);
    var diff := CodecAlign(p, a) - p;
    q := p + diff;
  }

  method AdvanceAligned(size: nat, a: nat, n: nat) returns (r: nat)
    requires IsAlignment(a)
    ensures r == AlignUp(size, a) + n
  {
    r := Align(size, a);
    r := r + n;
  }

  method AdvanceArray(size: nat, n: nat, a: nat, unit: nat) returns (r: nat)
    requires IsAlignment(a)
    ensures r == AlignUp(size + SizeLen(n), a) + n * unit
  {
    r := AdvanceSizeBytes(size, n);
    r := Align(r, a);
    r := r + n * unit;
  }

  /**
   * Advances `sizeIn`, an offset from an 8-aligned base, over the encoding of `v`.
   * Values the writer has no encoding for are refused, and then nothing is advanced.
   */
  method CalcValueSize(v: Value, sizeIn: nat) returns (ok: int, size: nat)
    requires SizesFit(v)
    ensures ok == if Without(v, FLOAT32_ARRAY) then 0 else EINVAL
    ensures size == if ok == 0 then End(v, sizeIn) else sizeIn
    decreases Weight(v), 1
  {
    hide End, EndSeq, WeightSeq, Weight, BodyStart, LeafEnd, SizeLen, Payload, SizesFitSeq, Children, Tag, Count, Without;
    ValueParts(v, sizeIn);
    LeafTag(v);
    if v.Float32Array? {
      ok, size := EINVAL, sizeIn;
    } else if !Container(v) {
      EndOfLeaf(v, sizeIn);
      size := CalcLeafSize(v, sizeIn + 1);
      ok := 0;
    } else {
      EndOfContainer(v, sizeIn);
      ok, size := CalcContainerSize(v, sizeIn + 1);
      if ok != 0 {
        size := sizeIn;
      }
    }
  }

  lemma LeafTag(v: Value)
    ensures !Container(v) ==> WithoutSeq(Children(v), FLOAT32_ARRAY)
  {
  }

  method CalcContainerSize(v: Value, afterTag: nat) returns (ok: int, size: nat)
    requires Container(v) && SizesFit(v)
    ensures ok == if WithoutSeq(Children(v), FLOAT32_ARRAY) then 0 else EINVAL
    ensures ok == 0 ==> size == EndSeq(Children(v), afterTag + SizeLen(Count(v)))
    decreases Weight(v), 0
  {
    size := AdvanceSizeBytes(afterTag, Count(v));
    if v.List? {
      ok, size := CalcListSize(v.items, size);
    } else {
      ok, size := CalcMapSize(v.entries, size);
    }
  }

  method CalcLeafSize(v: Value, afterTag: nat) returns (size: nat)
    requires !Container(v) && !v.Float32Array? && afterTag > 0
    ensures size == LeafEnd(Tag(v), Count(v), afterTag - 1)
  {
    size := afterTag;
    match v {
      case Null =>
      case True =>
      case False =>
      case Int32(_) => size := size + 4;
      case Int64(_) => size := size + 8;
      case Float64(_) => size := AdvanceAligned(size, 8, 8);
      case String(s) => size := AdvanceArray(size, |s|, 1, 1);
      case LargeInt(s) => size := AdvanceArray(size, |s|, 1, 1);
      case UInt8Array(s) => size := AdvanceArray(size, |s|, 1, 1);
      case Int32Array(s) => size := AdvanceArray(size, |s|, 4, 4);
      case Int64Array(s) => size := AdvanceArray(size, |s|, 8, 8);
      case Float64Array(s) => size := AdvanceArray(size, |s|, 8, 8);
    }
  }

  method CalcListSize(items: seq<Value>, start: nat) returns (ok: int, size: nat)
    requires SizesFitSeq(items)
    ensures ok == if WithoutSeq(items, FLOAT32_ARRAY) then 0 else EINVAL
    ensures ok == 0 ==> size == EndSeq(items, start)
    decreases WeightSeq(items), 2
  {
    ok, size := 0, start;
    for i := 0 to |items|
      invariant WithoutSeq(items[..i], FLOAT32_ARRAY)
      invariant ok == 0 && size == EndSeq(items[..i], start)
    {
      WeightOfElement(items, i);
      SizesFitElement(items, i);
      EndSeqPrefix(items, start, i);
      WithoutPrefix(items, FLOAT32_ARRAY, i);
      ok, size := CalcValueSize(items[i], size);
      if ok != 0 {
        return;
      }
    }
    assert items[..|items|] == items;
  }

  method CalcMapSize(entries: seq<Entry>, start: nat) returns (ok: int, size: nat)
    requires SizesFitSeq(Flatten(entries))
    ensures ok == if WithoutSeq(Flatten(entries), FLOAT32_ARRAY) then 0 else EINVAL
    ensures ok == 0 ==> size == EndSeq(Flatten(entries), start)
    decreases WeightEntries(entries), 2
  {
    ok, size := 0, start;
    ghost var vs := Flatten(entries);
    for i := 0 to |entries|
      invariant WithoutSeq(vs[..2 * i], FLOAT32_ARRAY)
      invariant ok == 0 && size == EndSeq(vs[..2 * i], start)
    {
      WeightOfElement(vs, 2 * i);
      SizesFitElement(vs, 2 * i);
      EndSeqPrefix(vs, start, 2 * i);
      WithoutPrefix(vs, FLOAT32_ARRAY, 2 * i);
      ok, size := CalcValueSize(entries[i].key, size);
      if ok != 0 {
        return;
      }
      WeightOfElement(vs, 2 * i + 1);
      SizesFitElement(vs, 2 * i + 1);
      EndSeqPrefix(vs, start, 2 * i + 1);
      WithoutPrefix(vs, FLOAT32_ARRAY, 2 * i + 1);
      ok, size := CalcValueSize(entries[i].val, size);
      if ok != 0 {
        return;
      }
    }
    assert vs[..2 * |entries|] == vs;
  }

  // The writer.

  /** The buffer being filled and the cursor into it. */
  class Writer {
    const buf: array<byte>
    var pos: nat

    constructor (buf: array<byte>, pos: nat)
      ensures this.buf == buf && this.pos == pos
    {
      this.buf, this.pos := buf, pos;
    }

    /** Everything outside [lo, hi) is as in `m`. */
    ghost predicate OnlyWrote(m: seq<byte>, lo: nat, hi: nat)
      reads buf
    {
      && |m| == buf.Length
      && forall i :: 0 <= i < buf.Length && !(lo <= i < hi) ==> buf[i] == m[i]
    }

    method WriteBytes(s: seq<byte>)
      requires pos + |s| <= buf.Length
      modifies this`pos, buf
      ensures pos == old(pos) + |s|
      ensures OnlyWrote(old(buf[..]), old(pos), pos)
      ensures Holds(buf[..], old(pos), s)
    {
      forall i | 0 <= i < |s| {
        buf[pos + i] := s[i];
      }
      assert buf[pos..pos + |s|] == s;
      pos := pos + |s|;
    }

    method AlignTo(a: nat)
      requires IsAlignment(a)
      modifies this`pos
      ensures pos == AlignUp(old(pos), a)
    {
      pos := Align(pos, a);
    }

    method WriteSize(n: nat)
      requires n < 0x8000_0000 && pos + SizeLen(n) <= buf.Length
      modifies this`pos, buf
      ensures pos == old(pos) + SizeLen(n)
      ensures OnlyWrote(old(buf[..]), old(pos), pos)
      ensures Holds(buf[..], old(pos), SizePrefix(n))
    {
      hide LittleEndian;
      if n < 254 {
        WriteBytes([n]);
      } else if n <= 0xFFFF {
        WriteBytes([0xFE]);
        WriteBytes(LittleEndian(n, 2));
        assert buf[..][old(pos)..pos] == [254] + LittleEndian(n, 2);
      } else {
        WriteBytes([0xFF]);
        WriteBytes(LittleEndian(n, 4));
        assert buf[..][old(pos)..pos] == [255] + LittleEndian(n, 4);
      }
    }

    method WriteBlocks(blocks: seq<seq<byte>>)
      requires pos + |Concat(blocks)| <= buf.Length
      modifies this`pos, buf
      ensures pos == old(pos) + |Concat(blocks)|
      ensures OnlyWrote(old(buf[..]), old(pos), pos)
      ensures Holds(buf[..], old(pos), Concat(blocks))
    {
      ghost var start := pos;
      assert blocks[..0] == [];
      for i := 0 to |blocks|
        invariant pos == start + |Concat(blocks[..i])| <= buf.Length
        invariant OnlyWrote(old(buf[..]), start, pos)
        invariant Holds(buf[..], start, Concat(blocks[..i]))
      {
        ConcatPrefix(blocks, i);
        ghost var before := buf[..];
        WriteBytes(blocks[i]);
        HoldsAppend(before, buf[..], start, Concat(blocks[..i]), blocks[i]);
      }
      assert blocks[..|blocks|] == blocks;
    }

    /**
     * Writes `v` at the cursor. The cursor ends where `CalcValueSize` says it will, the
     * bytes written encode `v`, and no byte outside them changes.
     */
    method WriteValue(v: Value) returns (ok: int)
      requires SizesFit(v) && End(v, pos) <= buf.Length
      modifies this`pos, buf
      ensures ok == if Without(v, FLOAT32_ARRAY) then 0 else EINVAL
      ensures OnlyWrote(old(buf[..]), old(pos), End(v, old(pos)))
      ensures ok == 0 ==> pos == End(v, old(pos)) && Encodes(buf[..], old(pos), v)
      decreases Weight(v), 1
    {
      hide Tag, TagSized, Count, TagAlignment, TagUnit, Payload, Children, BodyStart, End, EndSeq, Encodes, EncodesSeq,
           Holds, SizePrefix, SizeLen, Weight;
      ValueParts(v, pos);
      if v.Float32Array? {
        WriteBytes([Tag(v)]);
        return EINVAL;
      }
      ghost var off := pos;
      WriteHeader(v);
      ghost var m := buf[..];
      ok := WriteBody(v);
      if ok == 0 {
        EncodesHeader(m, buf[..], off, v);
      }
    }

    /** Tag, size prefix if there is one, and padding. */
    method WriteHeader(v: Value)
      requires Count(v) < 0x8000_0000 && BodyStart(v, pos) <= buf.Length
      modifies this`pos, buf
      ensures pos == BodyStart(v, old(pos))
      ensures OnlyWrote(old(buf[..]), old(pos), pos)
      ensures Holds(buf[..], old(pos), [Tag(v)])
      ensures TagSized(Tag(v)) ==> Holds(buf[..], old(pos) + 1, SizePrefix(Count(v)))
    {
      ghost var off := pos;
      WriteBytes([Tag(v)]);
      ghost var m := buf[..];
      if TagSized(Tag(v)) {
        WriteSize(Count(v));
      }
      HoldsFrame(m, buf[..], off, [Tag(v)], off, off + 1);
      AlignTo(TagAlignment(Tag(v)));
    }

    method WriteBody(v: Value) returns (ok: int)
      requires !v.Float32Array? && SizesFit(v)
      requires pos + |Payload(v)| <= buf.Length && EndSeq(Children(v), pos) <= buf.Length
      modifies this`pos, buf
      ensures ok == if WithoutSeq(Children(v), FLOAT32_ARRAY) then 0 else EINVAL
      ensures OnlyWrote(old(buf[..]), old(pos),
                        if Container(v) then EndSeq(Children(v), old(pos)) else old(pos) + |Payload(v)|)
      ensures ok == 0 && Container(v) ==>
                pos == EndSeq(Children(v), old(pos)) && EncodesSeq(buf[..], old(pos), Children(v))
      ensures ok == 0 && !Container(v) ==>
                pos == old(pos) + |Payload(v)| && Holds(buf[..], old(pos), Payload(v))
      decreases Weight(v), 0
    {
      ok := 0;
      if v.List? {
        ok := WriteList(v.items);
      } else if v.Map? {
        ok := WriteMap(v.entries);
      } else {
        WritePayload(v);
      }
    }

    /** What follows the padding of a value that is no container. */
    method WritePayload(v: Value)
      requires !Container(v) && !v.Float32Array?
      requires pos + |Payload(v)| <= buf.Length
      modifies this`pos, buf
      ensures pos == old(pos) + |Payload(v)|
      ensures OnlyWrote(old(buf[..]), old(pos), pos)
      ensures Holds(buf[..], old(pos), Payload(v))
    {
      match v {
        case Null =>
        case True =>
        case False =>
        case Int32(x) => WriteBytes(EncodeInt32(x));
        case Int64(x) => WriteBytes(EncodeInt64(x));
        case Float64(b) => WriteBytes(b);
        case LargeInt(s) => WriteBytes(s);
        case String(s) => WriteBytes(s);
        case UInt8Array(s) => WriteBytes(s);
        case Int32Array(s) => WriteBlocks(Int32Blocks(s));
        case Int64Array(s) => WriteBlocks(Int64Blocks(s));
        case Float64Array(s) => WriteBlocks(s);
      }
    }

    method WriteList(items: seq<Value>) returns (ok: int)
      requires SizesFitSeq(items) && EndSeq(items, pos) <= buf.Length
      modifies this`pos, buf
      ensures ok == if WithoutSeq(items, FLOAT32_ARRAY) then 0 else EINVAL
      ensures OnlyWrote(old(buf[..]), old(pos), EndSeq(items, old(pos)))
      ensures ok == 0 ==> pos == EndSeq(items, old(pos)) && EncodesSeq(buf[..], old(pos), items)
      decreases WeightSeq(items), 3
    {
      hide Encodes, End, SizesFit, Without, Weight, BodyStart;
      ok := 0;
      ghost var start := pos;
      for i := 0 to |items|
        invariant Written(items, i, start)
        invariant OnlyWrote(old(buf[..]), start, EndSeq(items, start))
      {
        ok := WriteElement(items[i], items, i, start);
        if ok != 0 {
          return;
        }
      }
      assert items[..|items|] == items;
    }

    method WriteMap(entries: seq<Entry>) returns (ok: int)
      requires SizesFitSeq(Flatten(entries)) && EndSeq(Flatten(entries), pos) <= buf.Length
      modifies this`pos, buf
      ensures ok == if WithoutSeq(Flatten(entries), FLOAT32_ARRAY) then 0 else EINVAL
      ensures OnlyWrote(old(buf[..]), old(pos), EndSeq(Flatten(entries), old(pos)))
      ensures ok == 0 ==>
                pos == EndSeq(Flatten(entries), old(pos)) && EncodesSeq(buf[..], old(pos), Flatten(entries))
      decreases WeightEntries(entries), 4
    {
      hide Encodes, End, SizesFit, Without, Weight, BodyStart;
      ok := 0;
      ghost var start, vs := pos, Flatten(entries);
      for i := 0 to |entries|
        invariant Written(vs, 2 * i, start)
        invariant OnlyWrote(old(buf[..]), start, EndSeq(vs, start))
      {
        ok := WriteEntry(entries[i], vs, i, start);
        if ok != 0 {
          return;
        }
      }
      assert vs[..2 * |entries|] == vs;
    }

    method WriteEntry(e: Entry, ghost vs: seq<Value>, ghost i: nat, ghost start: nat) returns (ok: int)
      requires 2 * i + 1 < |vs| && e.key == vs[2 * i] && e.val == vs[2 * i + 1]
      requires SizesFitSeq(vs) && EndSeq(vs, start) <= buf.Length
      requires Written(vs, 2 * i, start)
      modifies this`pos, buf
      ensures OnlyWrote(old(buf[..]), start, EndSeq(vs, start))
      ensures if ok == 0 then Written(vs, 2 * (i + 1), start)
              else ok == EINVAL && !WithoutSeq(vs, FLOAT32_ARRAY)
      decreases WeightSeq(vs), 3
    {
      hide Written, EncodesSeq, EndSeq, WithoutSeq;
      ok := WriteElement(e.key, vs, 2 * i, start);
      if ok != 0 {
        return;
      }
      ok := WriteElement(e.val, vs, 2 * i + 1, start);
    }

    /** The first `k` of `vs` are written, from `start` to the cursor. */
    ghost predicate Written(vs: seq<Value>, k: nat, start: nat)
      reads this`pos, buf
    {
      && k <= |vs|
      && WithoutSeq(vs[..k], FLOAT32_ARRAY)
      && pos == EndSeq(vs[..k], start)
      && EncodesSeq(buf[..], start, vs[..k])
    }

    method WriteElement(v: Value, ghost vs: seq<Value>, ghost k: nat, ghost start: nat) returns (ok: int)
      requires k < |vs| && v == vs[k]
      requires SizesFitSeq(vs) && EndSeq(vs, start) <= buf.Length
      requires Written(vs, k, start)
      modifies this`pos, buf
      ensures OnlyWrote(old(buf[..]), start, EndSeq(vs, start))
      ensures if ok == 0 then Written(vs, k + 1, start)
              else ok == EINVAL && !WithoutSeq(vs, FLOAT32_ARRAY)
      decreases WeightSeq(vs), 2
    {
      hide Encodes, End, SizesFit, Without, Weight, BodyStart, WeightSeq, SizesFitSeq;
      WeightOfElement(vs, k);
      EndSeqPrefix(vs, start, k);
      SizesFitElement(vs, k);
      WithoutPrefix(vs, FLOAT32_ARRAY, k);
      ghost var before := buf[..];
      ok := WriteValue(v);
      if ok == 0 {
        EncodesSeqFrame(before, buf[..], start, vs[..k]);
        assert Front(vs[..k + 1]) == vs[..k] && Last(vs[..k + 1]) == v;
      }
    }
  }
}
