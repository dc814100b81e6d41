/** `raw_std_value_equals` as it runs on memory, and what it decides. */
module RawCompare {
  import opened Bytes
  import opened Ieee754
  import opened StdValue
  import opened StdDecoder
  import opened RawStd
  import opened RawEquals

  // Encodings are unambiguous.

  lemma FloatsInjective(xs: seq<Block4>, ys: seq<Block4>)
    requires |xs| == |ys| && Concat(xs) == Concat(ys)
    ensures xs == ys
  {
    forall i | 0 <= i < |xs| ensures xs[i] == ys[i] {
      ConcatBlockAt(xs, 4, i);
      ConcatBlockAt(ys, 4, i);
    }
  }

  lemma PayloadInjective(v: Value, w: Value)
    requires Tag(v) == Tag(w) && Count(v) == Count(w) && !Container(v)
    ensures Payload(v) == Payload(w) ==> v == w
  {
    if Payload(v) == Payload(w) {
      if v.Float32Array? {
        FloatsInjective(v.f32s, w.f32s);
      } else {
        hide Payload, LeafOf, Count;
        LeafRoundTrip(v);
        LeafRoundTrip(w);
      }
    }
  }

  lemma FlattenInjective(es: seq<Entry>, fs: seq<Entry>)
    requires Flatten(es) == Flatten(fs)
    ensures es == fs
  {
    assert |es| == |fs|;
    forall i | 0 <= i < |es| ensures es[i] == fs[i] {
      assert Flatten(es)[2 * i] == Flatten(fs)[2 * i] && Flatten(es)[2 * i + 1] == Flatten(fs)[2 * i + 1];
    }
  }

  lemma SameCount(m: seq<byte>, p: nat, n: nat, n': nat)
    requires Holds(m, p, SizePrefix(n)) && Holds(m, p, SizePrefix(n')) && n < 0x1_0000_0000 && n' < 0x1_0000_0000
    ensures n == n'
  {
    hide DecodeSize;
    DecodeSizeRoundTrip(m, p, |m|, n);
    DecodeSizeRoundTrip(m, p, |m|, n');
  }

  lemma TagsClassify(v: Value, w: Value)
    requires Tag(v) == Tag(w)
    ensures Container(v) == Container(w)
    ensures !TagSized(Tag(v)) ==> Count(v) == 0
  {
  }

  lemma SameHeader(m: seq<byte>, off: nat, v: Value, w: Value)
    requires Encodes(m, off, v) && CountsFit(v) && Encodes(m, off, w) && CountsFit(w)
    ensures Tag(v) == Tag(w) && Count(v) == Count(w) && BodyStart(v, off) == BodyStart(w, off)
    ensures Container(v) == Container(w)
  {
    hide Encodes, EncodesSeq, Payload, CountsFitSeq, Children, SizePrefix, End, EndSeq, Holds, Tag, Count, Container, TagSized, TagAlignment, AlignUp, SizeLen, CountsFit;
    EncodesParts(m, off, v);
    EncodesParts(m, off, w);
    CountsFitChildren(v);
    CountsFitChildren(w);
    TagsClassify(v, w);
    TagsClassify(w, v);
    if TagSized(Tag(v)) {
      SameCount(m, off + 1, Count(v), Count(w));
    }
  }

  lemma {:induction false} EncodingUnique(m: seq<byte>, off: nat, v: Value, w: Value)
    requires Encodes(m, off, v) && CountsFit(v) && Encodes(m, off, w) && CountsFit(w)
    ensures v == w
    decreases Weight(v), 0
  {
    hide Encodes, EncodesSeq, Payload, Children, End, EndSeq, BodyStart, CountsFitSeq, SizePrefix, WeightSeq, WeightEntries;
    SameHeader(m, off, v, w);
    EncodesParts(m, off, v);
    EncodesParts(m, off, w);
    if Container(v) {
      EncodingsUnique(m, BodyStart(v, off), Children(v), Children(w));
      ChildrenInjective(v, w);
    } else {
      SamePayload(m, off, v, w);
    }
  }

  lemma ChildrenInjective(v: Value, w: Value)
    requires Container(v) && Tag(v) == Tag(w) && Children(v) == Children(w)
    ensures v == w
  {
    if v.Map? {
      FlattenInjective(v.entries, w.entries);
    }
  }

  lemma SamePayload(m: seq<byte>, off: nat, v: Value, w: Value)
    requires Tag(v) == Tag(w) && Count(v) == Count(w) && !Container(v) && BodyStart(v, off) == BodyStart(w, off)
    requires Holds(m, BodyStart(v, off), Payload(v)) && Holds(m, BodyStart(w, off), Payload(w))
    ensures v == w
  {
    hide Payload, Count, BodyStart;
    PayloadLength(v);
    PayloadLength(w);
    PayloadInjective(v, w);
  }

  lemma {:induction false} EncodingsUnique(m: seq<byte>, off: nat, vs: seq<Value>, ws: seq<Value>)
    requires EncodesSeq(m, off, vs) && CountsFitSeq(vs) && EncodesSeq(m, off, ws) && CountsFitSeq(ws) && |vs| == |ws|
    ensures vs == ws
    decreases WeightSeq(vs), 1
  {
    if vs != [] {
      hide Encodes, EncodesSeq, CountsFit, CountsFitSeq, Weight, WeightSeq, End, EndSeq, SizesFit, Without, Front, Last;
      SeqParts(m, off, vs);
      SeqParts(m, off, ws);
      CountsFitParts(vs);
      CountsFitParts(ws);
      EncodingsUnique(m, off, Front(vs), Front(ws));
      EncodingUnique(m, EndSeq(Front(vs), off), Last(vs), Last(ws));
    }
  }

  // Comparing leaves.

  /** Arrays compared byte by byte, `memcmp`. */
  lemma BytesDecide(m: seq<byte>, a: nat, b: nat, v: Value, w: Value)
    requires Encodes(m, a, v) && Encodes(m, b, w) && Tag(v) == Tag(w) && Count(v) == Count(w) && !Container(v)
    requires !v.LargeInt? && !v.Float64? && !v.Float64Array? && !v.Float32Array?
    ensures |Payload(v)| == |Payload(w)| == if TagSized(Tag(v)) then Count(v) * TagUnit(Tag(v)) else TagUnit(Tag(v))
    ensures Holds(m, BodyStart(v, a), Payload(v)) && Holds(m, BodyStart(w, b), Payload(w))
    ensures GreedyEq(v, w) <==> Payload(v) == Payload(w)
  {
    hide Encodes, End, BodyStart, Count, TagUnit, TagSized, Holds;
    EncodesParts(m, a, v);
    EncodesParts(m, b, w);
    PayloadLength(v);
    PayloadLength(w);
    PayloadInjective(v, w);
  }

  method CompareBytes(m: seq<byte>, p: nat, q: nat, n: nat) returns (r: bool)
    requires p + n <= |m| && q + n <= |m|
    ensures r == (m[p..p + n] == m[q..q + n])
  {
    r := m[p..p + n] == m[q..q + n];
  }

  /** The element at `i` of an array of doubles in memory. */
  method CompareDoubles(m: seq<byte>, p: nat, q: nat, n: nat, ghost xs: seq<Block8>, ghost ys: seq<Block8>) returns (r: bool)
    requires |xs| == |ys| == n && Holds(m, p, Concat(xs)) && Holds(m, q, Concat(ys))
    ensures r == DoublesEq(xs, ys)
  {
    hide DoubleEq;
    for i := 0 to n
      invariant forall j :: 0 <= j < i ==> DoubleEq(xs[j], ys[j])
    {
      BlockInMemory(m, p, xs, 8, i);
      BlockInMemory(m, q, ys, 8, i);
      if !DoubleEq(m[p + 8 * i..p + 8 * i + 8], m[q + 8 * i..q + 8 * i + 8]) {
        return false;
      }
    }
    return true;
  }

  method CompareFloats(m: seq<byte>, p: nat, q: nat, n: nat, ghost xs: seq<Block4>, ghost ys: seq<Block4>) returns (r: bool)
    requires |xs| == |ys| == n && Holds(m, p, Concat(xs)) && Holds(m, q, Concat(ys))
    ensures r == FloatsEq(xs, ys)
  {
    hide FloatEq;
    for i := 0 to n
      invariant forall j :: 0 <= j < i ==> FloatEq(xs[j], ys[j])
    {
      BlockInMemory(m, p, xs, 4, i);
      BlockInMemory(m, q, ys, 4, i);
      if !FloatEq(m[p + 4 * i..p + 4 * i + 4], m[q + 4 * i..q + 4 * i + 4]) {
        return false;
      }
    }
    return true;
  }

  // The comparison.

  /**
   * Whether the encodings at `a` and `b` are equal. On values without NaN the answer is that
   * of the greedy comparison of what they encode.
   */
  method RawStdValueEquals(m: seq<byte>, a: nat, b: nat, ghost v: Value, ghost w: Value) returns (r: bool)
    requires Encodes(m, a, v) && Encodes(m, b, w) && CountsFit(v) && CountsFit(w)
    ensures NaNFree(v) && NaNFree(w) ==> r == GreedyEq(v, w)
    decreases Weight(v), 1
  {
    if a == b {
      EncodingUnique(m, a, v, w);
      if NaNFree(v) {
        GreedyEqReflexive(v);
      }
      return true;
    }
    EncodesParts(m, a, v);
    EncodesParts(m, b, w);
    TagsDecide(v, w);
    if m[a] != m[b] {
      return false;
    }
    CountsFitChildren(v);
    CountsFitChildren(w);
    if m[a] == 12 || m[a] == 13 {
      hide Encodes, GreedyEq, NaNFree, CountsFit;
      r := CompareContainers(m, a, b, v, w);
    } else {
      hide Encodes, GreedyEq, NaNFree, Payload, BodyStart, Holds;
      r := CompareLeaves(m, a, b, v, w);
    }
  }

  lemma TagsDecide(v: Value, w: Value)
    ensures Tag(v) != Tag(w) ==> !GreedyEq(v, w)
  {
    hide GreedyMatch, DoublesEq, FloatsEq, DoubleEq;
  }

  lemma LargeIntNotNaNFree(v: Value)
    requires v.LargeInt?
    ensures !NaNFree(v)
  {
  }

  method CompareLeaves(m: seq<byte>, a: nat, b: nat, ghost v: Value, ghost w: Value) returns (r: bool)
    requires Encodes(m, a, v) && Encodes(m, b, w) && !Container(v) && Tag(v) == Tag(w)
    requires Count(v) < 0x1_0000_0000 && Count(w) < 0x1_0000_0000
    ensures NaNFree(v) && NaNFree(w) ==> r == GreedyEq(v, w)
  {
    hide Encodes, NaNFree, GreedyEq, Count;
    TagAt(m, a, v);
    if m[a] == 5 {
      assert !NaNFree(v) by { LargeIntNotNaNFree(v); }
      return false;
    }
    if TagSized(m[a]) {
      r := CompareSized(m, a, b, v, w);
    } else {
      r := CompareScalars(m, a, b, v, w);
    }
  }

  lemma TagAt(m: seq<byte>, a: nat, v: Value)
    requires Encodes(m, a, v)
    ensures a < |m| && m[a] == Tag(v) && (m[a] == 5 <==> v.LargeInt?)
  {
    hide Encodes;
    EncodesParts(m, a, v);
  }

  method CompareSized(m: seq<byte>, a: nat, b: nat, ghost v: Value, ghost w: Value) returns (r: bool)
    requires Encodes(m, a, v) && Encodes(m, b, w) && !Container(v) && Tag(v) == Tag(w) && TagSized(Tag(v)) && Tag(v) != 5
    requires Count(v) < 0x1_0000_0000 && Count(w) < 0x1_0000_0000
    ensures NaNFree(v) && NaNFree(w) ==> r == GreedyEq(v, w)
  {
    hide Encodes, End, BodyStart, Payload, DecodeSize, SizePrefix, RawBody, Holds, Count, NaNFree, GreedyEq;
    EncodesParts(m, a, v);
    EncodesParts(m, b, w);
    var t := m[a];
    DecodeSizeRoundTrip(m, a + 1, |m|, Count(v));
    DecodeSizeRoundTrip(m, b + 1, |m|, Count(w));
    var n := DecodeSize(m, a + 1, |m|).value;
    if n != DecodeSize(m, b + 1, |m|).value {
      CountsDecide(v, w);
      return false;
    }
    RawFieldsAgree(v, a);
    RawFieldsAgree(w, b);
    r := CompareArrays(m, t, RawBody(a, t, n), RawBody(b, t, n), n, a, b, v, w);
  }

  lemma CountsDecide(v: Value, w: Value)
    requires Tag(v) == Tag(w) && Count(v) != Count(w)
    ensures !GreedyEq(v, w)
  {
    hide GreedyMatch, DoubleEq, FloatEq;
  }

  /** Where a scalar is in memory. */
  lemma ScalarAt(m: seq<byte>, a: nat, v: Value)
    requires Encodes(m, a, v) && !TagSized(Tag(v))
    ensures a < |m| && m[a] == Tag(v)
    ensures var p := RawAlign(a + 1, TagAlignment(Tag(v)));
            p + TagUnit(Tag(v)) <= |m| && m[p..p + TagUnit(Tag(v))] == Payload(v)
  {
    hide Encodes, End, Payload, AlignUp, RawAlign, Tag, TagSized, TagUnit, Count, SizePrefix, SizeLen, EncodesSeq;
    EncodesParts(m, a, v);
    AlignmentsAgree(a + 1, TagAlignment(Tag(v)));
    PayloadLength(v);
  }

  method CompareScalars(m: seq<byte>, a: nat, b: nat, ghost v: Value, ghost w: Value) returns (r: bool)
    requires Encodes(m, a, v) && Encodes(m, b, w) && !TagSized(Tag(v)) && Tag(v) == Tag(w)
    ensures r == GreedyEq(v, w)
  {
    hide Encodes, RawAlign, DoubleEq;
    ScalarAt(m, a, v);
    ScalarAt(m, b, w);
    var t := m[a];
    var p, q := RawAlign(a + 1, TagAlignment(t)), RawAlign(b + 1, TagAlignment(t));
    if t <= 2 {
      return true;
    } else if t == 6 {
      r := DoubleEq(m[p..p + 8], m[q..q + 8]);
    } else if t == 3 {
      hide DecodeInt32, EncodeInt32;
      Int32RoundTrip(v.i32);
      Int32RoundTrip(w.i32);
      r := DecodeInt32(m[p..p + 4]) == DecodeInt32(m[q..q + 4]);
    } else {
      hide DecodeInt64, EncodeInt64;
      Int64RoundTrip(v.i64);
      Int64RoundTrip(w.i64);
      r := DecodeInt64(m[p..p + 8]) == DecodeInt64(m[q..q + 8]);
    }
  }

  lemma HoldsBytes(m: seq<byte>, p: nat, s: seq<byte>)
    ensures Holds(m, p, s) ==> p + |s| <= |m| && m[p..p + |s|] == s
  {
  }

  lemma DoublesDecide(m: seq<byte>, a: nat, v: Value)
    requires Encodes(m, a, v) && v.Float64Array?
    ensures Holds(m, BodyStart(v, a), Concat(v.f64s)) && |v.f64s| == Count(v)
  {
    hide Encodes, End, BodyStart, Holds, Concat;
    EncodesParts(m, a, v);
  }

  lemma DoublesCompare(v: Value, w: Value)
    requires v.Float64Array? && w.Float64Array?
    ensures GreedyEq(v, w) <==> DoublesEq(v.f64s, w.f64s)
  {
    hide DoublesEq;
  }

  lemma FloatsDecide(m: seq<byte>, a: nat, v: Value)
    requires Encodes(m, a, v) && v.Float32Array?
    ensures Holds(m, BodyStart(v, a), Concat(v.f32s)) && |v.f32s| == Count(v)
  {
    hide Encodes, End, BodyStart, Holds, Concat;
    EncodesParts(m, a, v);
  }

  lemma FloatsCompare(v: Value, w: Value)
    requires v.Float32Array? && w.Float32Array?
    ensures GreedyEq(v, w) <==> FloatsEq(v.f32s, w.f32s)
  {
    hide FloatsEq;
  }

  method CompareArrays(m: seq<byte>, t: byte, p: nat, q: nat, n: nat, ghost a: nat, ghost b: nat, ghost v: Value, ghost w: Value)
    returns (r: bool)
    requires Encodes(m, a, v) && Encodes(m, b, w) && t == Tag(v) == Tag(w)
    requires TagSized(Tag(v)) && !Container(v) && !v.LargeInt?
    requires Count(v) == Count(w) == n && p == BodyStart(v, a) && q == BodyStart(w, b)
    ensures r == GreedyEq(v, w)
  {
    hide Encodes, End, BodyStart, Payload, GreedyEq, Count, Holds, Concat;
    if t == 11 {
      DoublesDecide(m, a, v);
      DoublesDecide(m, b, w);
      DoublesCompare(v, w);
      r := CompareDoubles(m, p, q, n, v.f64s, w.f64s);
    } else if t == 14 {
      FloatsDecide(m, a, v);
      FloatsDecide(m, b, w);
      FloatsCompare(v, w);
      r := CompareFloats(m, p, q, n, v.f32s, w.f32s);
    } else {
      BytesDecide(m, a, b, v, w);
      HoldsBytes(m, p, Payload(v));
      HoldsBytes(m, q, Payload(w));
      r := CompareBytes(m, p, q, n * TagUnit(t));
    }
  }

  method CompareContainers(m: seq<byte>, a: nat, b: nat, ghost v: Value, ghost w: Value) returns (r: bool)
    requires Encodes(m, a, v) && Encodes(m, b, w) && CountsFit(v) && CountsFit(w)
    requires Container(v) && Tag(v) == Tag(w)
    ensures NaNFree(v) && NaNFree(w) ==> r == GreedyEq(v, w)
    decreases Weight(v), 0
  {
    hide Encodes, EncodesSeq, CountsFit, CountsFitSeq, End, EndSeq, BodyStart, DecodeSize, RawBody;
    RawContainer(m, a, v);
    RawContainer(m, b, w);
    var t, n := m[a], DecodeSize(m, a + 1, |m|).value;
    if n != DecodeSize(m, b + 1, |m|).value {
      CountsDecide(v, w);
      return false;
    }
    if t == 12 {
      hide GreedyMatch;
      r := CompareLists(m, RawBody(a, t, n), RawBody(b, t, n), n, v.items, w.items);
    } else {
      hide GreedyMatch;
      r := CompareMaps(m, RawBody(a, t, n), RawBody(b, t, n), n, v.entries, w.entries);
    }
  }

  method CompareLists(m: seq<byte>, p: nat, q: nat, n: nat, ghost xs: seq<Value>, ghost ys: seq<Value>) returns (r: bool)
    requires EncodesSeq(m, p, xs) && EncodesSeq(m, q, ys) && CountsFitSeq(xs) && CountsFitSeq(ys)
    requires |xs| == |ys| == n
    ensures (forall i :: 0 <= i < n ==> NaNFree(xs[i]) && NaNFree(ys[i])) ==>
              r == forall i :: 0 <= i < n ==> GreedyEq(xs[i], ys[i])
    decreases WeightSeq(xs), 2
  {
    hide Encodes, EncodesSeq, CountsFit, CountsFitSeq, End, EndSeq, RawAfter, RawAfterSeq, GreedyEq, NaNFree, Weight, WeightSeq;
    var cursorA, cursorB := p, q;
    EmptyEnd(p);
    EmptyEnd(q);
    assert xs[..0] == [] && ys[..0] == [];
    for i := 0 to n
      invariant cursorA == EndSeq(xs[..i], p) && cursorB == EndSeq(ys[..i], q)
      invariant (forall j :: 0 <= j < n ==> NaNFree(xs[j]) && NaNFree(ys[j])) ==>
                  forall j :: 0 <= j < i ==> GreedyEq(xs[j], ys[j])
    {
      RawElement(m, p, xs, i);
      RawElement(m, q, ys, i);
      WeightOfElement(xs, i);
      r := RawStdValueEquals(m, cursorA, cursorB, xs[i], ys[i]);
      if !r {
        return;
      }
      var w := RawStdValueAfter(m, cursorA);
      cursorA := w.pos;
      w := RawStdValueAfter(m, cursorB);
      cursorB := w.pos;
    }
    return true;
  }

  ghost function UsedSet(used: seq<bool>): (s: set<nat>)
    ensures forall j: nat :: j in s <==> j < |used| && used[j]
  {
    set j: nat | j < |used| && used[j]
  }

  lemma NothingUsed(used: seq<bool>)
    requires forall j :: 0 <= j < |used| ==> !used[j]
    ensures UsedSet(used) == {}
  {
  }

  ghost predicate EntriesNaNFree(es: seq<Entry>) { forall i :: 0 <= i < |es| ==> NaNFreeEntry(es[i]) }

  lemma {:induction false} WeightOfEntries(es: seq<Entry>, i: nat)
    requires i < |es|
    ensures WeightEntry(es[i]) <= WeightEntries(es)
  {
    hide Weight;
    if i < |es| - 1 {
      WeightOfEntries(Front(es), i);
    }
  }

  method CompareMaps(m: seq<byte>, p: nat, q: nat, n: nat, ghost es: seq<Entry>, ghost fs: seq<Entry>) returns (r: bool)
    requires EncodesSeq(m, p, Flatten(es)) && EncodesSeq(m, q, Flatten(fs))
    requires CountsFitSeq(Flatten(es)) && CountsFitSeq(Flatten(fs))
    requires |es| == |fs| == n
    ensures EntriesNaNFree(es) && EntriesNaNFree(fs) ==> r == GreedyMatch(es, fs, 0, {})
    decreases WeightEntries(es), 4
  {
    hide Encodes, EncodesSeq, CountsFit, CountsFitSeq, EndSeq, RawAfter, FirstMatch, ValueMatches, KeyMatches, Weight, WeightEntries, WeightSeq, WeightEntry, GreedyMatch, NaNFreeEntry, UsedSet, Flatten, SizesFit, Without;
    var used := new bool[n](_ => false);
    assert UsedSet(used[..]) == {} by { NothingUsed(used[..]); }
    ghost var vs := Flatten(es);
    assert vs[..0] == [];
    EmptyEnd(p);
    var key := p;
    for i := 0 to n
      invariant key == EndSeq(vs[..2 * i], p)
      invariant EntriesNaNFree(es) && EntriesNaNFree(fs) ==>
                  GreedyMatch(es, fs, 0, {}) == GreedyMatch(es, fs, i, UsedSet(used[..]))
    {
      RawEntry(m, p, es, i);
      WeightOfEntries(es, i);
      var w := RawStdValueAfter(m, key);
      var val := w.pos;
      GreedyMatchStep(es, fs, i, UsedSet(used[..]));
      r := LinkEntry(m, key, val, q, n, used, es[i], fs);
      if !r {
        return;
      }
      w := RawStdValueAfter(m, val);
      key := w.pos;
    }
    GreedyMatchDone(es, fs, UsedSet(used[..]));
    return true;
  }

  lemma GreedyMatchStep(es: seq<Entry>, fs: seq<Entry>, i: nat, used: set<nat>)
    requires i < |es|
    ensures GreedyMatch(es, fs, i, used) <==>
              var j := FirstMatch(es[i], fs, used, 0);
              j < |fs| && ValueMatches(es[i], fs[j]) && GreedyMatch(es, fs, i + 1, used + {j})
  {
    hide FirstMatch, ValueMatches;
  }

  lemma GreedyMatchDone(es: seq<Entry>, fs: seq<Entry>, used: set<nat>)
    ensures GreedyMatch(es, fs, |es|, used)
  {
  }

  /** Searches `fs` for an entry that is not linked yet and has the key of `e`, and links it. */
  method LinkEntry(m: seq<byte>, key: nat, val: nat, q: nat, n: nat, used: array<bool>, ghost e: Entry, ghost fs: seq<Entry>)
    returns (r: bool)
    requires Encodes(m, key, e.key) && CountsFit(e.key) && Encodes(m, val, e.val) && CountsFit(e.val)
    requires EncodesSeq(m, q, Flatten(fs)) && CountsFitSeq(Flatten(fs)) && |fs| == n == used.Length
    modifies used
    ensures NaNFreeEntry(e) && EntriesNaNFree(fs) ==>
              var j := FirstMatch(e, fs, UsedSet(old(used[..])), 0);
              r == (j < |fs| && ValueMatches(e, fs[j]))
              && (r ==> UsedSet(used[..]) == UsedSet(old(used[..])) + {j})
    decreases WeightEntry(e), 3
  {
    hide Encodes, EncodesSeq, CountsFit, CountsFitSeq, EndSeq, RawAfter, GreedyEq, NaNFree, Weight, WeightSeq, Flatten;
    ghost var ws, linked := Flatten(fs), UsedSet(used[..]);
    assert ws[..0] == [];
    EmptyEnd(q);
    var keyB := q;
    for j := 0 to n
      invariant keyB == EndSeq(ws[..2 * j], q)
      invariant used[..] == old(used[..])
      invariant NaNFreeEntry(e) && EntriesNaNFree(fs) ==>
                  FirstMatch(e, fs, linked, 0) == FirstMatch(e, fs, linked, j)
    {
      RawEntry(m, q, fs, j);
      var w := RawStdValueAfter(m, keyB);
      var valB := w.pos;
      if !used[j] {
        var eq := RawStdValueEquals(m, key, keyB, e.key, fs[j].key);
        if eq {
          used[j] := true;
          r := RawStdValueEquals(m, val, valB, e.val, fs[j].val);
          return;
        }
      }
      w := RawStdValueAfter(m, valB);
      keyB := w.pos;
    }
    return false;
  }

  /** Comparing in memory decides equality of the decoded values, whatever the order of map entries. */
  method RawStdValueEqualsCorrect(m: seq<byte>, a: nat, b: nat, ghost v: Value, ghost w: Value) returns (r: bool)
    requires Encodes(m, a, v) && Encodes(m, b, w) && CountsFit(v) && CountsFit(w)
    requires NaNFree(v) && NaNFree(w) && Regular(v)
    ensures r == ValueEq(v, w)
  {
    hide Encodes, CountsFit, ValueEq, GreedyEq, NaNFree, Regular;
    GreedyEqCorrect(v, w);
    r := RawStdValueEquals(m, a, b, v, w);
  }
}
