/**
 * The zero-copy API of the standard message codec: walking, checking and searching the
 * encoded bytes without decoding them.
 *
 * Pointers are offsets into the memory `m`. `Fault` stands for leaving that memory and for
 * tags the walk does not know. Assertions are taken as compiled out.
 */
module RawStd {
  import opened Bytes
  import opened StdValue
  import opened StdWriter
  import opened StdDecoder
  import opened Options

  datatype Walk = At(pos: nat) | Fault

  /** Offset of the elements of a sized value with `n` elements. */
  function RawBody(off: nat, t: byte, n: nat): (p: nat)
    ensures p >= off + 2
  {
    AlignmentsAgree(off + 1 + SizeLen(n), TagAlignment(t));
    RawAlign(off + 1 + SizeLen(n), TagAlignment(t))
  }

  function RawFixedEnd(off: nat, t: byte): (p: nat)
    ensures p > off
  {
    AlignmentsAgree(off + 1, TagAlignment(t));
    RawAlign(off + 1, TagAlignment(t)) + TagUnit(t)
  }

  /** How many values follow the header of a container. */
  function ChildCount(t: byte, n: nat): nat {
    if t == 12 then n else 2 * n
  }

  function Left(m: seq<byte>, p: nat): nat {
    if p < |m| then |m| - p else 0
  }

  /** `raw_std_value_after`. */
  function RawAfter(m: seq<byte>, off: nat): (w: Walk)
    ensures w.At? ==> off < |m| && w.pos > off
    decreases Left(m, off), 0
  {
    if off >= |m| || m[off] > 14 then Fault
    else if !TagSized(m[off]) then At(RawFixedEnd(off, m[off]))
    else
      var size := DecodeSize(m, off + 1, |m|);
      if size.Bad? then Fault
      else if m[off] == 12 || m[off] == 13 then
        RawAfterSeq(m, RawBody(off, m[off], size.value), ChildCount(m[off], size.value))
      else At(RawBody(off, m[off], size.value) + size.value * TagUnit(m[off]))
  }

  function RawAfterSeq(m: seq<byte>, p: nat, n: nat): (w: Walk)
    ensures w.At? ==> w.pos >= p
    decreases Left(m, p), n + 1
  {
    if n == 0 then At(p) else
      var init := RawAfterSeq(m, p, n - 1);
      if init.Fault? then Fault else RawAfter(m, init.pos)
  }

  lemma RawAfterSeqStep(m: seq<byte>, p: nat, n: nat)
    requires RawAfterSeq(m, p, n).At?
    ensures RawAfterSeq(m, p, n + 1) == RawAfter(m, RawAfterSeq(m, p, n).pos)
  {
    hide RawAfter;
  }

  lemma {:induction false} RawAfterSeqFault(m: seq<byte>, p: nat, k: nat, n: nat)
    requires k <= n && RawAfterSeq(m, p, k).Fault?
    ensures RawAfterSeq(m, p, n).Fault?
    decreases n
  {
    hide RawAfter;
    if k < n {
      RawAfterSeqFault(m, p, k, n - 1);
    }
  }

  method RawStdValueAfter(m: seq<byte>, off: nat) returns (w: Walk)
    ensures w == RawAfter(m, off)
    decreases Left(m, off), 0
  {
    hide RawAfterSeq;
    if off >= |m| || m[off] > 14 {
      return Fault;
    }
    if !TagSized(m[off]) {
      return At(RawFixedEnd(off, m[off]));
    }
    var size := DecodeSize(m, off + 1, |m|);
    if size.Bad? {
      return Fault;
    }
    var value := RawBody(off, m[off], size.value);
    if m[off] == 12 || m[off] == 13 {
      w := RawSkip(m, value, ChildCount(m[off], size.value));
    } else {
      w := At(value + size.value * TagUnit(m[off]));
    }
  }

  /** The loop over the elements of a container, and the one that finds a list element. */
  method RawSkip(m: seq<byte>, p: nat, n: nat) returns (w: Walk)
    ensures w == RawAfterSeq(m, p, n)
    decreases Left(m, p), 1
  {
    hide RawAfter;
    w := At(p);
    for i := 0 to n
      invariant w.At? && w == RawAfterSeq(m, p, i)
    {
      RawAfterSeqStep(m, p, i);
      w := RawStdValueAfter(m, w.pos);
      if w.Fault? {
        RawAfterSeqFault(m, p, i + 1, n);
        return;
      }
    }
  }

  // The walk agrees with the layout.

  lemma RawFieldsAgree(v: Value, off: nat)
    ensures TagSized(Tag(v)) ==> RawBody(off, Tag(v), Count(v)) == BodyStart(v, off)
    ensures !TagSized(Tag(v)) ==> RawFixedEnd(off, Tag(v)) == BodyStart(v, off) + |Payload(v)| && !Container(v)
    ensures TagSized(Tag(v)) && !Container(v) ==> |Payload(v)| == Count(v) * TagUnit(Tag(v))
    ensures Container(v) ==> TagSized(Tag(v)) && |Children(v)| == ChildCount(Tag(v), Count(v))
    ensures Container(v) <==> Tag(v) == 12 || Tag(v) == 13
  {
    hide RawAlign, AlignUp, Payload;
    AlignmentsAgree(off + 1 + (if TagSized(Tag(v)) then SizeLen(Count(v)) else 0), TagAlignment(Tag(v)));
    PayloadLength(v);
  }

  /** Counts are below 2^32, what a size prefix can hold. */
  ghost predicate CountsFit(v: Value)
    decreases Weight(v), 0
  {
    Count(v) < 0x1_0000_0000 && CountsFitSeq(Children(v))
  }

  ghost predicate CountsFitSeq(vs: seq<Value>)
    decreases WeightSeq(vs), 1
  {
    vs == [] || (CountsFitSeq(Front(vs)) && CountsFit(Last(vs)))
  }

  lemma CountsFitChildren(v: Value)
    requires CountsFit(v)
    ensures Count(v) < 0x1_0000_0000 && CountsFitSeq(Children(v))
  {
    hide Count, Children, CountsFitSeq;
  }

  lemma CountsFitParts(vs: seq<Value>)
    requires vs != []
    ensures CountsFitSeq(vs) <==> CountsFitSeq(Front(vs)) && CountsFit(Last(vs))
  {
    hide CountsFit;
  }

  lemma {:induction false} SizesFitCounts(v: Value)
    requires SizesFit(v)
    ensures CountsFit(v)
    decreases Weight(v), 0
  {
    SizesFitCountsSeq(Children(v));
  }

  lemma {:induction false} SizesFitCountsSeq(vs: seq<Value>)
    requires SizesFitSeq(vs)
    ensures CountsFitSeq(vs)
    decreases WeightSeq(vs), 1
  {
    if vs != [] {
      SizesFitCountsSeq(Front(vs));
      SizesFitCounts(Last(vs));
    }
  }

  lemma RawAfterLeaf(m: seq<byte>, off: nat, v: Value)
    requires off < |m| && m[off] == Tag(v) && !Container(v) && Count(v) < 0x1_0000_0000
    requires TagSized(Tag(v)) ==> Holds(m, off + 1, SizePrefix(Count(v)))
    ensures RawAfter(m, off) == At(BodyStart(v, off) + |Payload(v)|)
  {
    hide RawAfterSeq, RawBody, RawFixedEnd, BodyStart, Payload, Count, DecodeSize, SizePrefix;
    RawFieldsAgree(v, off);
    if TagSized(Tag(v)) {
      DecodeSizeRoundTrip(m, off + 1, |m|, Count(v));
    }
  }

  lemma RawAfterContainer(m: seq<byte>, off: nat, v: Value)
    requires off < |m| && m[off] == Tag(v) && Container(v) && Count(v) < 0x1_0000_0000
    requires Holds(m, off + 1, SizePrefix(Count(v)))
    ensures RawAfter(m, off) == RawAfterSeq(m, BodyStart(v, off), |Children(v)|)
  {
    hide RawAfterSeq, RawBody, RawFixedEnd, BodyStart, Payload, Count, DecodeSize, SizePrefix, Children, ChildCount;
    RawFieldsAgree(v, off);
    DecodeSizeRoundTrip(m, off + 1, |m|, Count(v));
  }

  /** The walk steps over an encoding to exactly where it ends, which is where decoding it ends. */
  lemma {:induction false} RawAfterRefinesDecode(m: seq<byte>, off: nat, v: Value)
    requires Encodes(m, off, v) && CountsFit(v)
    ensures RawAfter(m, off) == At(End(v, off))
    ensures SizesFit(v) && Without(v, FLOAT32_ARRAY) ==> Decode(m, off, |m|) == Ok(v, End(v, off))
    decreases Weight(v), 0
  {
    hide Encodes, End, BodyStart, Payload, Children, Count, Tag, SizePrefix, Holds, EndSeq, EncodesSeq, CountsFit, CountsFitSeq, Weight, WeightSeq, TagAlignment, SizeLen, RawAfter, RawAfterSeq, Decode, SizesFit, Without, Container;
    EncodesParts(m, off, v);
    CountsFitChildren(v);
    if Container(v) {
      RawAfterContainer(m, off, v);
      RawAfterSeqRefinesDecode(m, BodyStart(v, off), Children(v));
    } else {
      RawAfterLeaf(m, off, v);
    }
    if SizesFit(v) && Without(v, FLOAT32_ARRAY) {
      DecodeRoundTrip(m, off, |m|, v);
    }
  }

  lemma {:induction false} RawAfterSeqRefinesDecode(m: seq<byte>, off: nat, vs: seq<Value>)
    requires EncodesSeq(m, off, vs) && CountsFitSeq(vs)
    ensures RawAfterSeq(m, off, |vs|) == At(EndSeq(vs, off))
    decreases WeightSeq(vs), 1
  {
    if vs != [] {
      hide Encodes, End, CountsFit, CountsFitSeq, EncodesSeq, EndSeq, RawAfter, RawAfterSeq, WeightSeq, Weight, Decode, SizesFit, Without, Front, Last;
      SeqParts(m, off, vs);
      CountsFitParts(vs);
      RawAfterSeqRefinesDecode(m, off, Front(vs));
      RawAfterRefinesDecode(m, EndSeq(Front(vs), off), Last(vs));
      RawAfterSeqStep(m, off, |vs| - 1);
    }
  }

  /** The `i`-th of several encodings starts where the walk over the first `i` leads. */
  lemma RawElement(m: seq<byte>, off: nat, vs: seq<Value>, i: nat)
    requires EncodesSeq(m, off, vs) && CountsFitSeq(vs) && i < |vs|
    ensures RawAfterSeq(m, off, i) == At(EndSeq(vs[..i], off))
    ensures Encodes(m, EndSeq(vs[..i], off), vs[i]) && CountsFit(vs[i])
    ensures RawAfter(m, EndSeq(vs[..i], off)) == At(EndSeq(vs[..i + 1], off))
  {
    hide Encodes, End, EncodesSeq, EndSeq, RawAfter, RawAfterSeq, CountsFit, CountsFitSeq, Decode, SizesFit, Without;
    EncodesSeqPrefix(m, off, vs, i);
    CountsFitPrefix(vs, i);
    RawAfterSeqRefinesDecode(m, off, vs[..i]);
    RawAfterRefinesDecode(m, EndSeq(vs[..i], off), vs[i]);
  }

  lemma {:induction false} CountsFitPrefix(vs: seq<Value>, k: nat)
    requires CountsFitSeq(vs) && k <= |vs|
    ensures CountsFitSeq(vs[..k]) && (k < |vs| ==> CountsFit(vs[k]))
    decreases |vs|
  {
    hide CountsFit;
    if k == |vs| {
      assert vs[..k] == vs;
    } else {
      assert Front(vs)[..k] == vs[..k];
      CountsFitPrefix(Front(vs), k);
    }
  }

  /** The header of an encoded container. */
  lemma RawContainer(m: seq<byte>, off: nat, v: Value)
    requires Encodes(m, off, v) && CountsFit(v) && Container(v)
    ensures off + 1 < |m| && m[off] == Tag(v)
    ensures DecodeSize(m, off + 1, |m|).Ok? && DecodeSize(m, off + 1, |m|).value == Count(v)
    ensures EncodesSeq(m, RawBody(off, m[off], Count(v)), Children(v)) && CountsFitSeq(Children(v))
    ensures RawBody(off, m[off], Count(v)) == BodyStart(v, off) > off
    ensures EndSeq(Children(v), BodyStart(v, off)) == End(v, off) <= |m|
  {
    hide Encodes, End, BodyStart, Payload, Children, Count, Tag, SizePrefix, Holds, EndSeq, EncodesSeq, CountsFit, CountsFitSeq, Weight, WeightSeq, TagAlignment, SizeLen, DecodeSize, RawBody;
    EncodesParts(m, off, v);
    RawFieldsAgree(v, off);
    CountsFitChildren(v);
    DecodeSizeRoundTrip(m, off + 1, |m|, Count(v));
  }

  /** `raw_std_list_get_nth_element`: what it points at encodes, and decodes to, that item. */
  method RawStdListGetNthElement(m: seq<byte>, off: nat, index: nat, ghost v: Value) returns (p: nat)
    requires v.List? && Encodes(m, off, v) && CountsFit(v) && index < |v.items|
    ensures Encodes(m, p, v.items[index])
    ensures SizesFit(v) && Without(v, FLOAT32_ARRAY) ==>
              Decode(m, p, |m|) == Ok(v.items[index], End(v.items[index], p))
  {
    hide Encodes, End, EncodesSeq, EndSeq, RawAfter, RawAfterSeq, CountsFit, CountsFitSeq, Decode, BodyStart, DecodeSize, RawBody;
    RawContainer(m, off, v);
    var first := RawBody(off, m[off], DecodeSize(m, off + 1, |m|).value);
    RawElement(m, first, v.items, index);
    var w := RawSkip(m, first, index);
    p := w.pos;
    if SizesFit(v) && Without(v, FLOAT32_ARRAY) {
      SizesFitElement(v.items, index);
      WithoutPrefixes(v.items, FLOAT32_ARRAY, index);
      RawAfterRefinesDecode(m, p, v.items[index]);
    }
  }

  lemma {:induction false} WithoutPrefixes(vs: seq<Value>, tag: byte, i: nat)
    requires WithoutSeq(vs, tag) && i < |vs|
    ensures Without(vs[i], tag)
  {
    hide Without;
    if i < |vs| - 1 {
      WithoutPrefixes(Front(vs), tag, i);
    }
  }

  // Searching a map for a string key.

  /** `strncmp(a, s, n) == 0` from index `i` on; `s` continues with its terminating NUL. */
  predicate StrnEqual(a: seq<byte>, s: CString, i: nat)
    requires i <= |a|
    decreases |a| - i
  {
    i == |a| || (a[i] == (if i < |s| then s[i] else 0) && (a[i] == 0 || i >= |s| || StrnEqual(a, s, i + 1)))
  }

  /** `raw_std_string_equals` on the characters `a` of the value. */
  predicate RawStringEquals(a: seq<byte>, s: CString) {
    StrnEqual(a, s, 0) && |a| == |s|
  }

  lemma {:induction false} StrnEqualIsEquality(a: CString, s: CString, i: nat)
    requires i <= |a| == |s| && a[..i] == s[..i]
    ensures StrnEqual(a, s, i) <==> a == s
    decreases |a| - i
  {
    if i == |a| {
      assert a == a[..i] && s == s[..i];
    } else if a[i] == s[i] {
      assert a[i] in a;
      assert a[..i + 1] == a[..i] + [a[i]] && s[..i + 1] == s[..i] + [s[i]];
      StrnEqualIsEquality(a, s, i + 1);
    }
  }

  /** The first entry of a decoded map under the string key `s`: `stdmap_get_str`. */
  function MapGetStr(es: seq<Entry>, s: CString, i: nat): Option<Value>
    requires i <= |es|
    decreases |es| - i
  {
    if i == |es| then None
    else if es[i].key == String(s) then Some(es[i].val)
    else MapGetStr(es, s, i + 1)
  }

  /** Whether the value at `p` is a string equal to `s`. */
  predicate RawKeyIs(m: seq<byte>, p: nat, s: CString) {
    p < |m| && m[p] == 7 &&
    var size := DecodeSize(m, p + 1, |m|);
    size.Ok? &&
    var q := RawBody(p, 7, size.value);
    q + size.value <= |m| && RawStringEquals(m[q..q + size.value], s)
  }

  lemma StringEqualsIff(a: CString, s: CString)
    ensures RawStringEquals(a, s) <==> a == s
  {
    if |a| == |s| {
      StrnEqualIsEquality(a, s, 0);
    }
  }

  /** Where the characters of an encoded string are. */
  lemma StringAt(m: seq<byte>, p: nat, key: Value)
    requires Encodes(m, p, key) && CountsFit(key) && key.String?
    ensures var q, n := RawBody(p, 7, |key.chars|), |key.chars|;
            && DecodeSize(m, p + 1, |m|).Ok? && DecodeSize(m, p + 1, |m|).value == n
            && q + n <= |m| && m[q..q + n] == key.chars
  {
    hide Encodes, End, BodyStart, DecodeSize, RawBody, SizePrefix, SizeLen, CountsFit, EncodesSeq, EndSeq;
    EncodesParts(m, p, key);
    CountsFitChildren(key);
    DecodeSizeRoundTrip(m, p + 1, |m|, Count(key));
    RawFieldsAgree(key, p);
  }

  lemma KeyTag(m: seq<byte>, p: nat, key: Value)
    requires Encodes(m, p, key)
    ensures p < |m| && (m[p] == 7 <==> key.String?)
  {
    hide Encodes;
    EncodesParts(m, p, key);
  }

  lemma RawKeyIsKey(m: seq<byte>, p: nat, key: Value, s: CString)
    requires Encodes(m, p, key) && CountsFit(key)
    ensures RawKeyIs(m, p, s) <==> key == String(s)
  {
    hide Encodes, CountsFit, DecodeSize, RawBody, RawStringEquals;
    KeyTag(m, p, key);
    if key.String? {
      StringAt(m, p, key);
      StringEqualsIff(key.chars, s);
    }
  }

  /** The `i`-th key and value of an encoded map, and where they are. */
  lemma RawEntry(m: seq<byte>, p: nat, es: seq<Entry>, i: nat)
    requires EncodesSeq(m, p, Flatten(es)) && CountsFitSeq(Flatten(es)) && i < |es|
    ensures var vs := Flatten(es);
            var key, val := EndSeq(vs[..2 * i], p), EndSeq(vs[..2 * i + 1], p);
            && Encodes(m, key, es[i].key) && CountsFit(es[i].key) && RawAfter(m, key) == At(val)
            && Encodes(m, val, es[i].val) && CountsFit(es[i].val)
            && RawAfter(m, val) == At(EndSeq(vs[..2 * (i + 1)], p))
  {
    hide Encodes, EncodesSeq, CountsFit, CountsFitSeq, EndSeq, RawAfter, RawAfterSeq;
    RawElement(m, p, Flatten(es), 2 * i);
    RawElement(m, p, Flatten(es), 2 * i + 1);
  }

  lemma EntryFits(v: Value, i: nat)
    requires v.Map? && i < |v.entries| && SizesFit(v) && Without(v, FLOAT32_ARRAY)
    ensures SizesFit(v.entries[i].val) && Without(v.entries[i].val, FLOAT32_ARRAY)
  {
    var vs := Flatten(v.entries);
    assert SizesFitSeq(vs) && WithoutSeq(vs, FLOAT32_ARRAY);
    hide SizesFit, Without, SizesFitSeq, WithoutSeq, Flatten;
    SizesFitElement(vs, 2 * i + 1);
    WithoutPrefixes(vs, FLOAT32_ARRAY, 2 * i + 1);
  }

  /** The value found decodes to itself. */
  lemma FoundDecodes(m: seq<byte>, p: nat, v: Value, i: nat)
    requires v.Map? && i < |v.entries| && Encodes(m, p, v.entries[i].val) && CountsFit(v.entries[i].val)
    ensures SizesFit(v) && Without(v, FLOAT32_ARRAY) ==>
              Decode(m, p, |m|) == Ok(v.entries[i].val, End(v.entries[i].val, p))
  {
    hide Encodes, End, CountsFit, RawAfter, Decode, SizesFit, Without;
    RawAfterRefinesDecode(m, p, v.entries[i].val);
    if SizesFit(v) && Without(v, FLOAT32_ARRAY) {
      EntryFits(v, i);
    }
  }

  /**
   * `raw_std_map_find_str`: nothing when the decoded map has no such key, otherwise a pointer
   * to an encoding of exactly the value that looking it up in the decoded map gives.
   */
  method RawStdMapFindStr(m: seq<byte>, off: nat, s: CString, ghost v: Value) returns (r: Option<nat>)
    requires v.Map? && Encodes(m, off, v) && CountsFit(v)
    ensures match MapGetStr(v.entries, s, 0)
            case None => r == None
            case Some(val) => r.Some? && Encodes(m, r.value, val) && CountsFit(val)
                              && RawAfter(m, r.value) == At(End(val, r.value))
    ensures r.Some? && SizesFit(v) && Without(v, FLOAT32_ARRAY) ==>
              MapGetStr(v.entries, s, 0).Some?
              && var val := MapGetStr(v.entries, s, 0).value;
                 Decode(m, r.value, |m|) == Ok(val, End(val, r.value))
  {
    hide Encodes, End, EncodesSeq, EndSeq, RawAfter, RawAfterSeq, CountsFit, CountsFitSeq, BodyStart, RawBody, RawKeyIs, DecodeSize, Decode, Flatten, SizesFit, Without;
    RawContainer(m, off, v);
    ghost var vs := Flatten(v.entries);
    var size := DecodeSize(m, off + 1, |m|).value;
    var key := RawBody(off, m[off], size);
    ghost var first := key;
    assert vs[..0] == [];
    EmptyEnd(first);
    for i := 0 to size
      invariant key == EndSeq(vs[..2 * i], first)
      invariant MapGetStr(v.entries, s, 0) == MapGetStr(v.entries, s, i)
    {
      RawEntry(m, first, v.entries, i);
      var w := RawStdValueAfter(m, key);
      var value := w.pos;
      RawKeyIsKey(m, key, v.entries[i].key, s);
      if RawKeyIs(m, key, s) {
        FoundDecodes(m, value, v, i);
        RawAfterRefinesDecode(m, value, v.entries[i].val);
        return Some(value);
      }
      w := RawStdValueAfter(m, value);
      key := w.pos;
    }
    return None;
  }

  lemma EmptyEnd(p: nat)
    ensures EndSeq([], p) == p
  {
  }
}
