/**
 * Values of the Flutter standard message codec and the layout of their encodings.
 *
 * `Encodes(m, off, v)` says that memory `m` holds `v` at offset `off` from an 8-aligned
 * base. It does not constrain the padding bytes. Sequences are taken apart at their last
 * element, the way the loops of the codec walk them.
 */
module StdValue {
  import opened Bytes

  /** The characters of a C string: none of them is NUL. */
  type CString = s: seq<byte> | 0 !in s

  datatype Entry = Entry(key: Value, val: Value)

  datatype Value =
    | Null
    | True
    | False
    | Int32(i32: int32)
    | Int64(i64: int64)
    | LargeInt(digits: CString)
    | Float64(f64: Block8)
    | String(chars: CString)
    | UInt8Array(u8s: seq<byte>)
    | Int32Array(i32s: seq<int32>)
    | Int64Array(i64s: seq<int64>)
    | Float64Array(f64s: seq<Block8>)
    | List(items: seq<Value>)
    | Map(entries: seq<Entry>)
    | Float32Array(f32s: seq<Block4>)

  function Last<T>(s: seq<T>): T
    requires s != []
  {
    s[|s| - 1]
  }

  function Front<T>(s: seq<T>): seq<T>
    requires s != []
  {
    s[..|s| - 1]
  }

  // Structural weight, the termination measure of everything below.

  ghost function Weight(v: Value): (w: nat)
    ensures w > 0
    decreases v
  {
    match v
    case List(items) => 1 + WeightSeq(items)
    case Map(entries) => 1 + WeightEntries(entries)
    case _ => 1
  }

  ghost function WeightSeq(vs: seq<Value>): nat
    decreases vs
  {
    if vs == [] then 0 else WeightSeq(Front(vs)) + Weight(Last(vs))
  }

  ghost function WeightEntries(es: seq<Entry>): nat
    decreases es
  {
    if es == [] then 0 else
      WeightEntries(Front(es)) + WeightEntry(es[|es| - 1])
  }

  ghost function WeightEntry(e: Entry): nat
    decreases e
  {
    Weight(e.key) + Weight(e.val)
  }

  /** Keys and values in the order they are written. */
  function Flatten(es: seq<Entry>): (vs: seq<Value>)
    ensures |vs| == 2 * |es|
    ensures forall i :: 0 <= i < |es| ==> vs[2 * i] == es[i].key && vs[2 * i + 1] == es[i].val
    ensures WeightSeq(vs) == WeightEntries(es)
  {
    if es == [] then [] else
      var init := Flatten(Front(es));
      var vs := init + [Last(es).key] + [Last(es).val];
      assert Front(vs) == init + [Last(es).key];
      assert Front(Front(vs)) == init;
      vs
  }

  lemma {:induction false} WeightOfElement(vs: seq<Value>, i: nat)
    requires i < |vs|
    ensures Weight(vs[i]) <= WeightSeq(vs)
  {
    if i < |vs| - 1 {
      WeightOfElement(Front(vs), i);
    }
  }

  // The fields of an encoding.

  function Tag(v: Value): byte {
    match v
    case Null => 0
    case True => 1
    case False => 2
    case Int32(_) => 3
    case Int64(_) => 4
    case LargeInt(_) => 5
    case Float64(_) => 6
    case String(_) => 7
    case UInt8Array(_) => 8
    case Int32Array(_) => 9
    case Int64Array(_) => 10
    case Float64Array(_) => 11
    case List(_) => 12
    case Map(_) => 13
    case Float32Array(_) => 14
  }

  /** Whether a size prefix follows the tag. */
  predicate TagSized(t: int) { t == 5 || 7 <= t <= 14 }

  /** The alignment of what follows tag and size prefix. */
  function TagAlignment(t: int): (a: nat)
    ensures IsAlignment(a)
  {
    if t == 9 || t == 14 then 4 else if t == 6 || t == 10 || t == 11 then 8 else 1
  }

  /** Bytes per element, or of the whole payload of an unsized value. */
  function TagUnit(t: int): nat {
    if t == 3 || t == 9 || t == 14 then 4
    else if t == 4 || t == 6 || t == 10 || t == 11 then 8
    else if t == 5 || t == 7 || t == 8 then 1 else 0
  }

  function Count(v: Value): nat {
    match v
    case LargeInt(s) => |s|
    case String(s) => |s|
    case UInt8Array(s) => |s|
    case Int32Array(s) => |s|
    case Int64Array(s) => |s|
    case Float64Array(s) => |s|
    case List(s) => |s|
    case Map(s) => |s|
    case Float32Array(s) => |s|
    case _ => 0
  }

  predicate Container(v: Value) { v.List? || v.Map? }

  function Children(v: Value): (vs: seq<Value>)
    ensures WeightSeq(vs) < Weight(v)
    ensures |vs| == if v.List? then Count(v) else if v.Map? then 2 * Count(v) else 0
  {
    match v
    case List(items) => items
    case Map(entries) => Flatten(entries)
    case _ => []
  }

  function Int32Blocks(xs: seq<int32>): (b: seq<seq<byte>>)
    ensures |b| == |xs| && forall i :: 0 <= i < |b| ==> b[i] == EncodeInt32(xs[i])
  {
    seq(|xs|, i requires 0 <= i < |xs| => EncodeInt32(xs[i]))
  }

  function Int64Blocks(xs: seq<int64>): (b: seq<seq<byte>>)
    ensures |b| == |xs| && forall i :: 0 <= i < |b| ==> b[i] == EncodeInt64(xs[i])
  {
    seq(|xs|, i requires 0 <= i < |xs| => EncodeInt64(xs[i]))
  }

  /** The blocks of an array value; empty for everything else. */
  function Blocks(v: Value): (b: seq<seq<byte>>)
    ensures forall i :: 0 <= i < |b| ==> |b[i]| == TagUnit(Tag(v))
  {
    match v
    case Int32Array(s) => Int32Blocks(s)
    case Int64Array(s) => Int64Blocks(s)
    case Float64Array(s) => s
    case Float32Array(s) => s
    case _ => []
  }

  /** The bytes after the padding of a value that is no list and no map. */
  function Payload(v: Value): seq<byte> {
    match v
    case Int32(x) => EncodeInt32(x)
    case Int64(x) => EncodeInt64(x)
    case Float64(b) => b
    case LargeInt(s) => s
    case String(s) => s
    case UInt8Array(s) => s
    case _ => Concat(Blocks(v))
  }

  lemma PayloadLength(v: Value)
    ensures |Payload(v)| == if TagSized(Tag(v)) then Count(v) * TagUnit(Tag(v)) else TagUnit(Tag(v))
  {
    ConcatLength(Blocks(v), TagUnit(Tag(v)));
  }

  // The size prefix: 1, 3 or 5 bytes.

  function SizeLen(n: nat): nat {
    if n < 254 then 1 else if n <= 0xFFFF then 3 else 5
  }

  function SizePrefix(n: nat): (s: seq<byte>)
    ensures |s| == SizeLen(n)
  {
    if n < 254 then [n]
    else if n <= 0xFFFF then [254] + LittleEndian(n, 2)
    else [255] + LittleEndian(n, 4)
  }

  ghost predicate Holds(m: seq<byte>, off: nat, s: seq<byte>) {
    off + |s| <= |m| && m[off..off + |s|] == s
  }

  // Where an encoding that starts at `off` continues and ends.

  function BodyStart(v: Value, off: nat): (p: nat)
    ensures p > off
  {
    AlignUp(off + 1 + (if TagSized(Tag(v)) then SizeLen(Count(v)) else 0), TagAlignment(Tag(v)))
  }

  function End(v: Value, off: nat): (e: nat)
    ensures e >= BodyStart(v, off) > off
    decreases Weight(v), 0
  {
    if Container(v) then EndSeq(Children(v), BodyStart(v, off)) else BodyStart(v, off) + |Payload(v)|
  }

  function EndSeq(vs: seq<Value>, off: nat): (e: nat)
    ensures e >= off + |vs|
    decreases WeightSeq(vs), 1
  {
    if vs == [] then off else End(Last(vs), EndSeq(Front(vs), off))
  }

  ghost predicate Encodes(m: seq<byte>, off: nat, v: Value)
    decreases Weight(v), 0
  {
    && End(v, off) <= |m|
    && m[off] == Tag(v)
    && (TagSized(Tag(v)) ==> Holds(m, off + 1, SizePrefix(Count(v))))
    && (if Container(v) then EncodesSeq(m, BodyStart(v, off), Children(v))
        else Holds(m, BodyStart(v, off), Payload(v)))
  }

  ghost predicate EncodesSeq(m: seq<byte>, off: nat, vs: seq<Value>)
    decreases WeightSeq(vs), 1
  {
    if vs == [] then off <= |m| else
      EncodesSeq(m, off, Front(vs)) && Encodes(m, EndSeq(Front(vs), off), Last(vs))
  }

  /** Element counts and byte lengths are below 2^31, as the codec's `int` parameters need. */
  ghost predicate SizesFit(v: Value)
    decreases Weight(v), 0
  {
    Count(v) < 0x8000_0000 && |Payload(v)| < 0x8000_0000 && SizesFitSeq(Children(v))
  }

  ghost predicate SizesFitSeq(vs: seq<Value>)
    decreases WeightSeq(vs), 1
  {
    vs == [] || (SizesFitSeq(Front(vs)) && SizesFit(Last(vs)))
  }

  /** No value of kind `tag` occurs in `v`. */
  predicate Without(v: Value, tag: byte)
    decreases Weight(v), 0
  {
    Tag(v) != tag && WithoutSeq(Children(v), tag)
  }

  predicate WithoutSeq(vs: seq<Value>, tag: byte)
    decreases WeightSeq(vs), 1
  {
    vs == [] || (WithoutSeq(Front(vs), tag) && Without(Last(vs), tag))
  }

  const LARGE_INT: byte := 5
  const FLOAT32_ARRAY: byte := 14

  /** Where a value that is no container ends, from its tag and element count alone. */
  function LeafEnd(t: byte, n: nat, off: nat): nat {
    if TagSized(t) then AlignUp(off + 1 + SizeLen(n), TagAlignment(t)) + n * TagUnit(t)
    else AlignUp(off + 1, TagAlignment(t)) + TagUnit(t)
  }

  lemma EndOfLeaf(v: Value, off: nat)
    ensures !Container(v) ==> End(v, off) == LeafEnd(Tag(v), Count(v), off)
  {
    PayloadLength(v);
  }

  lemma EndOfContainer(v: Value, off: nat)
    requires Container(v)
    ensures End(v, off) == EndSeq(Children(v), off + 1 + SizeLen(Count(v)))
  {
    hide EndSeq, Children, Payload, Weight, SizeLen, Count;
  }

  /** What `Encodes` says, one field at a time. */
  lemma EncodesParts(m: seq<byte>, off: nat, v: Value)
    requires Encodes(m, off, v)
    ensures off < BodyStart(v, off) <= End(v, off) <= |m| && m[off] == Tag(v)
    ensures TagSized(Tag(v)) ==>
              Holds(m, off + 1, SizePrefix(Count(v))) && off + 1 + SizeLen(Count(v)) <= BodyStart(v, off)
    ensures Container(v) ==>
              BodyStart(v, off) == off + 1 + SizeLen(Count(v)) && TagSized(Tag(v))
              && EncodesSeq(m, BodyStart(v, off), Children(v))
              && End(v, off) == EndSeq(Children(v), BodyStart(v, off))
    ensures !Container(v) ==>
              Holds(m, BodyStart(v, off), Payload(v)) && End(v, off) == BodyStart(v, off) + |Payload(v)|
  {
  }

  /** What the predicates on sequences say, one element at a time. */
  lemma SeqParts(m: seq<byte>, off: nat, vs: seq<Value>)
    requires vs != []
    ensures WeightSeq(Front(vs)) < WeightSeq(vs) && Weight(Last(vs)) <= WeightSeq(vs)
    ensures EndSeq(vs, off) == End(Last(vs), EndSeq(Front(vs), off)) > EndSeq(Front(vs), off)
    ensures EncodesSeq(m, off, vs) <==>
              EncodesSeq(m, off, Front(vs)) && Encodes(m, EndSeq(Front(vs), off), Last(vs))
    ensures SizesFitSeq(vs) <==> SizesFitSeq(Front(vs)) && SizesFit(Last(vs))
    ensures forall t: byte :: WithoutSeq(vs, t) <==> WithoutSeq(Front(vs), t) && Without(Last(vs), t)
    ensures vs == Front(vs) + [Last(vs)] && |Front(vs)| == |vs| - 1
  {
    hide Encodes, End, SizesFit, Without, Children, Weight, BodyStart, Payload;
  }

  /** Where block `i` of an array is. */
  lemma BlockInMemory(m: seq<byte>, p: nat, blocks: seq<seq<byte>>, k: nat, i: nat)
    requires k == 4 || k == 8
    requires i < |blocks| && forall j :: 0 <= j < |blocks| ==> |blocks[j]| == k
    requires Holds(m, p, Concat(blocks))
    ensures p + k * i + k <= |m| && m[p + k * i..p + k * i + k] == blocks[i]
  {
    ConcatBlockAt(blocks, k, i);
    var s := Concat(blocks);
    SubSlice(m, p, |s|, k * i, k * i + k);
    if k == 4 {
      assert BlockAt(s, 4, i) == s[4 * i..4 * i + 4];
    } else {
      assert BlockAt(s, 8, i) == s[8 * i..8 * i + 8];
    }
  }

  // Frame: an encoding only depends on the bytes from its start to its end.

  ghost predicate Agree(m: seq<byte>, m': seq<byte>, lo: nat, hi: nat) {
    hi <= |m| && hi <= |m'| && forall i :: lo <= i < hi ==> m[i] == m'[i]
  }

  lemma HoldsFrame(m: seq<byte>, m': seq<byte>, off: nat, s: seq<byte>, lo: nat, hi: nat)
    requires Holds(m, off, s) && lo <= off && off + |s| <= hi && Agree(m, m', lo, hi)
    ensures Holds(m', off, s)
  {
    assert m'[off..off + |s|] == m[off..off + |s|];
  }

  lemma {:induction false} EncodesFrame(m: seq<byte>, m': seq<byte>, off: nat, v: Value)
    requires Encodes(m, off, v)
    requires Agree(m, m', off, End(v, off))
    ensures Encodes(m', off, v)
    decreases Weight(v), 0
  {
    hide Tag, Count, TagSized, TagAlignment, Payload, SizePrefix, SizeLen, Holds, EncodesSeq, EndSeq, AlignUp;
    if TagSized(Tag(v)) {
      HoldsFrame(m, m', off + 1, SizePrefix(Count(v)), off, End(v, off));
    }
    if Container(v) {
      EncodesSeqFrame(m, m', BodyStart(v, off), Children(v));
    } else {
      HoldsFrame(m, m', BodyStart(v, off), Payload(v), off, End(v, off));
    }
  }

  lemma {:induction false} EncodesSeqFrame(m: seq<byte>, m': seq<byte>, off: nat, vs: seq<Value>)
    requires EncodesSeq(m, off, vs)
    requires Agree(m, m', off, EndSeq(vs, off))
    ensures EncodesSeq(m', off, vs)
    decreases WeightSeq(vs), 1
  {
    if vs != [] {
      hide Encodes, End, Weight;
      EncodesSeqFrame(m, m', off, Front(vs));
      EncodesFrame(m, m', EndSeq(Front(vs), off), Last(vs));
    }
  }

  /** Sequences of encodings split wherever the sequence of values does. */
  lemma {:induction false} EncodesSeqPrefix(m: seq<byte>, off: nat, vs: seq<Value>, k: nat)
    requires EncodesSeq(m, off, vs) && k <= |vs|
    ensures EncodesSeq(m, off, vs[..k]) && EndSeq(vs[..k], off) <= EndSeq(vs, off)
    ensures k < |vs| ==> Encodes(m, EndSeq(vs[..k], off), vs[k])
    ensures k < |vs| ==> EndSeq(vs[..k + 1], off) == End(vs[k], EndSeq(vs[..k], off))
    decreases |vs|
  {
    hide Encodes, End;
    if k < |vs| {
      assert Front(vs)[..k] == vs[..k];
      assert Front(vs[..k + 1]) == vs[..k] && Last(vs[..k + 1]) == vs[k];
      EncodesSeqPrefix(m, off, Front(vs), k);
      if k == |vs| - 1 {
        assert vs[..k] == Front(vs) && vs[k] == Last(vs);
      } else {
        assert Front(vs)[k] == vs[k];
      }
    } else {
      assert vs[..k] == vs;
    }
  }
}
