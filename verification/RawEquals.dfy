/**
 * Comparing encoded values in place: `raw_std_value_equals`.
 *
 * `ValueEq` is what equality should mean; maps compare as finite maps. `GreedyEq` is what
 * the code computes, with its matching loop. The two agree on regular values.
 */
module RawEquals {
  import opened Bytes
  import opened Counting
  import opened Ieee754
  import opened StdValue

  predicate DoublesEq(xs: seq<Block8>, ys: seq<Block8>) {
    |xs| == |ys| && forall i :: 0 <= i < |xs| ==> DoubleEq(xs[i], ys[i])
  }

  predicate FloatsEq(xs: seq<Block4>, ys: seq<Block4>) {
    |xs| == |ys| && forall i :: 0 <= i < |xs| ==> FloatEq(xs[i], ys[i])
  }

  // Equality of values.

  /** Numbers are equal as the numbers they stand for, maps as finite maps. */
  ghost predicate ValueEq(a: Value, b: Value)
    decreases a
  {
    match a
    case Float64(x) => b.Float64? && SameNumber(Number64(x), Number64(b.f64))
    case Float64Array(xs) => b.Float64Array? && SameNumbers64(xs, b.f64s)
    case Float32Array(xs) => b.Float32Array? && SameNumbers32(xs, b.f32s)
    case List(xs) => b.List? && |xs| == |b.items| && forall i :: 0 <= i < |xs| ==> ValueEq(xs[i], b.items[i])
    case Map(es) => b.Map? && |es| == |b.entries| && MapsEq(es, b.entries)
    case _ => a == b
  }

  ghost predicate SameNumbers64(xs: seq<Block8>, ys: seq<Block8>) {
    |xs| == |ys| && forall i :: 0 <= i < |xs| ==> SameNumber(Number64(xs[i]), Number64(ys[i]))
  }

  ghost predicate SameNumbers32(xs: seq<Block4>, ys: seq<Block4>) {
    |xs| == |ys| && forall i :: 0 <= i < |xs| ==> SameNumber(Number32(xs[i]), Number32(ys[i]))
  }

  /** Every entry of either map is an entry of the other one. */
  ghost predicate MapsEq(es: seq<Entry>, fs: seq<Entry>)
    decreases es, 1
  {
    && (forall i {:trigger InRight(es, fs, i)} :: 0 <= i < |es| ==> InRight(es, fs, i))
    && (forall j {:trigger InLeft(es, fs, j)} :: 0 <= j < |fs| ==> InLeft(es, fs, j))
  }

  ghost predicate InRight(es: seq<Entry>, fs: seq<Entry>, i: nat)
    requires i < |es|
    decreases es, 0
  {
    exists j :: 0 <= j < |fs| && EntryEq(es[i], fs[j])
  }

  ghost predicate InLeft(es: seq<Entry>, fs: seq<Entry>, j: nat)
    requires j < |fs|
    decreases es, 0
  {
    exists i :: 0 <= i < |es| && EntryEq(es[i], fs[j])
  }

  ghost predicate EntryEq(e: Entry, f: Entry)
    decreases e
  {
    ValueEq(e.key, f.key) && ValueEq(e.val, f.val)
  }

  /** No NaN and no LargeInt anywhere. */
  ghost predicate NaNFree(v: Value)
    decreases v
  {
    match v
    case LargeInt(_) => false
    case Float64(x) => !Number64(x).NotANumber?
    case Float64Array(xs) => forall i :: 0 <= i < |xs| ==> !Number64(xs[i]).NotANumber?
    case Float32Array(xs) => forall i :: 0 <= i < |xs| ==> !Number32(xs[i]).NotANumber?
    case List(xs) => forall i :: 0 <= i < |xs| ==> NaNFree(xs[i])
    case Map(es) => forall i :: 0 <= i < |es| ==> NaNFreeEntry(es[i])
    case _ => true
  }

  ghost predicate NaNFreeEntry(e: Entry)
    decreases e
  {
    NaNFree(e.key) && NaNFree(e.val)
  }

  ghost predicate KeysDistinct(es: seq<Entry>) {
    forall i, j :: 0 <= i < |es| && 0 <= j < |es| && i != j ==> !ValueEq(es[i].key, es[j].key)
  }

  ghost predicate AllSame(es: seq<Entry>) {
    forall i, j :: 0 <= i < |es| && 0 <= j < |es| ==> EntryEq(es[i], es[j])
  }

  /**
   * In every map in `v` either the keys are pairwise different or all entries are equal.
   * Then no choice of the greedy matching can be a wrong one.
   */
  ghost predicate Regular(v: Value)
    decreases v
  {
    match v
    case List(xs) => forall i :: 0 <= i < |xs| ==> Regular(xs[i])
    case Map(es) => (forall i :: 0 <= i < |es| ==> RegularEntry(es[i])) && (KeysDistinct(es) || AllSame(es))
    case _ => true
  }

  ghost predicate RegularEntry(e: Entry)
    decreases e
  {
    Regular(e.key) && Regular(e.val)
  }

  // An equivalence relation.

  lemma {:induction false} ValueEqReflexive(v: Value)
    requires NaNFree(v)
    ensures ValueEq(v, v)
    decreases v
  {
    match v {
      case List(xs) =>
        forall i | 0 <= i < |xs| ensures ValueEq(xs[i], xs[i]) { ValueEqReflexive(xs[i]); }
      case Map(es) =>
        forall i | 0 <= i < |es| ensures InRight(es, es, i) && InLeft(es, es, i) { EntryEqReflexive(es[i]); }
      case _ =>
    }
  }

  lemma {:induction false} EntryEqReflexive(e: Entry)
    requires NaNFreeEntry(e)
    ensures EntryEq(e, e)
    decreases e
  {
    ValueEqReflexive(e.key);
    ValueEqReflexive(e.val);
  }

  lemma {:induction false} ValueEqSymmetric(a: Value, b: Value)
    requires ValueEq(a, b)
    ensures ValueEq(b, a)
    decreases a
  {
    match a {
      case List(xs) =>
        forall i | 0 <= i < |xs| ensures ValueEq(b.items[i], xs[i]) { ValueEqSymmetric(xs[i], b.items[i]); }
      case Map(es) =>
        MapsEqSymmetric(es, b.entries);
      case _ =>
    }
  }

  lemma {:induction false} MapsEqSymmetric(es: seq<Entry>, fs: seq<Entry>)
    requires MapsEq(es, fs)
    ensures MapsEq(fs, es)
    decreases es
  {
    hide EntryEq;
    forall j | 0 <= j < |fs| ensures InRight(fs, es, j) {
      assert InLeft(es, fs, j);
      var i :| 0 <= i < |es| && EntryEq(es[i], fs[j]);
      EntryEqSymmetric(es[i], fs[j]);
    }
    forall i | 0 <= i < |es| ensures InLeft(fs, es, i) {
      assert InRight(es, fs, i);
      var j :| 0 <= j < |fs| && EntryEq(es[i], fs[j]);
      EntryEqSymmetric(es[i], fs[j]);
    }
  }

  lemma {:induction false} EntryEqSymmetric(e: Entry, f: Entry)
    requires EntryEq(e, f)
    ensures EntryEq(f, e)
    decreases e
  {
    ValueEqSymmetric(e.key, f.key);
    ValueEqSymmetric(e.val, f.val);
  }

  lemma {:induction false} ValueEqTransitive(a: Value, b: Value, c: Value)
    requires ValueEq(a, b) && ValueEq(b, c)
    ensures ValueEq(a, c)
    decreases a
  {
    match a {
      case List(xs) =>
        forall i | 0 <= i < |xs| ensures ValueEq(xs[i], c.items[i]) {
          ValueEqTransitive(xs[i], b.items[i], c.items[i]);
        }
      case Map(es) =>
        MapsEqTransitive(es, b.entries, c.entries);
      case _ =>
    }
  }

  lemma {:induction false} MapsEqTransitive(es: seq<Entry>, fs: seq<Entry>, gs: seq<Entry>)
    requires MapsEq(es, fs) && MapsEq(fs, gs)
    ensures MapsEq(es, gs)
    decreases es
  {
    hide EntryEq;
    forall i | 0 <= i < |es| ensures InRight(es, gs, i) {
      assert InRight(es, fs, i);
      var j :| 0 <= j < |fs| && EntryEq(es[i], fs[j]);
      assert InRight(fs, gs, j);
      var k :| 0 <= k < |gs| && EntryEq(fs[j], gs[k]);
      EntryEqTransitive(es[i], fs[j], gs[k]);
    }
    forall k | 0 <= k < |gs| ensures InLeft(es, gs, k) {
      assert InLeft(fs, gs, k);
      var j :| 0 <= j < |fs| && EntryEq(fs[j], gs[k]);
      assert InLeft(es, fs, j);
      var i :| 0 <= i < |es| && EntryEq(es[i], fs[j]);
      EntryEqTransitive(es[i], fs[j], gs[k]);
    }
  }

  lemma {:induction false} EntryEqTransitive(e: Entry, f: Entry, g: Entry)
    requires EntryEq(e, f) && EntryEq(f, g)
    ensures EntryEq(e, g)
    decreases e
  {
    ValueEqTransitive(e.key, f.key, g.key);
    ValueEqTransitive(e.val, f.val, g.val);
  }

  lemma DoublesEqIsNumeric(xs: seq<Block8>, ys: seq<Block8>)
    ensures DoublesEq(xs, ys) <==> SameNumbers64(xs, ys)
  {
    hide DoubleEq, SameNumber, Number64;
    if |xs| == |ys| {
      forall i | 0 <= i < |xs| ensures DoubleEq(xs[i], ys[i]) <==> SameNumber(Number64(xs[i]), Number64(ys[i])) {
        DoubleEqIsNumeric(xs[i], ys[i]);
      }
    }
  }

  lemma FloatsEqIsNumeric(xs: seq<Block4>, ys: seq<Block4>)
    ensures FloatsEq(xs, ys) <==> SameNumbers32(xs, ys)
  {
    hide FloatEq, SameNumber, Number32;
    if |xs| == |ys| {
      forall i | 0 <= i < |xs| ensures FloatEq(xs[i], ys[i]) <==> SameNumber(Number32(xs[i]), Number32(ys[i])) {
        FloatEqIsNumeric(xs[i], ys[i]);
      }
    }
  }

  /** What the code compares as values without elements of their own is equal exactly if they are. */
  lemma LeafEqCorrect(a: Value, b: Value)
    requires !a.List? && !a.Map? && !a.LargeInt?
    ensures GreedyEq(a, b) <==> ValueEq(a, b)
  {
    hide DoubleEq, Number64, Number32, SameNumber, DoublesEq, FloatsEq, SameNumbers64, SameNumbers32;
    match a {
      case Float64(x) => if b.Float64? { DoubleEqIsNumeric(x, b.f64); }
      case Float64Array(xs) => if b.Float64Array? { DoublesEqIsNumeric(xs, b.f64s); }
      case Float32Array(xs) => if b.Float32Array? { FloatsEqIsNumeric(xs, b.f32s); }
      case _ =>
    }
  }

  // The comparison of the code, on values.

  predicate GreedyEq(a: Value, b: Value)
    decreases a
  {
    match a
    case LargeInt(_) => false
    case Float64(x) => b.Float64? && DoubleEq(x, b.f64)
    case Float64Array(xs) => b.Float64Array? && DoublesEq(xs, b.f64s)
    case Float32Array(xs) => b.Float32Array? && FloatsEq(xs, b.f32s)
    case List(xs) => b.List? && |xs| == |b.items| && forall i :: 0 <= i < |xs| ==> GreedyEq(xs[i], b.items[i])
    case Map(es) => b.Map? && |es| == |b.entries| && GreedyMatch(es, b.entries, 0, {})
    case _ => a == b
  }

  predicate KeyMatches(e: Entry, f: Entry)
    decreases e, 0
  {
    GreedyEq(e.key, f.key)
  }

  predicate ValueMatches(e: Entry, f: Entry)
    decreases e, 0
  {
    GreedyEq(e.val, f.val)
  }

  /** The first entry of `fs` from `j` on that is not linked yet and has the key of `e`; `|fs|` if none. */
  function FirstMatch(e: Entry, fs: seq<Entry>, used: set<nat>, j: nat): (k: nat)
    requires j <= |fs|
    ensures j <= k <= |fs| && (k < |fs| ==> k !in used && KeyMatches(e, fs[k]))
    ensures forall l :: j <= l < k && l !in used ==> !KeyMatches(e, fs[l])
    decreases e, 1, |fs| - j
  {
    if j == |fs| then j
    else if j !in used && KeyMatches(e, fs[j]) then j
    else FirstMatch(e, fs, used, j + 1)
  }

  /** Links the entries of `es` from `i` on to entries of `fs` that are not in `used`. */
  predicate GreedyMatch(es: seq<Entry>, fs: seq<Entry>, i: nat, used: set<nat>)
    requires i <= |es|
    decreases es, |es| - i
  {
    i == |es| ||
    (var j := FirstMatch(es[i], fs, used, 0);
     j < |fs| && ValueMatches(es[i], fs[j]) && GreedyMatch(es, fs, i + 1, used + {j}))
  }

  /** `used` holds one entry of `fs` for each of the first `i` entries of `es`, and each is equal to one of them. */
  ghost predicate Linked(es: seq<Entry>, fs: seq<Entry>, i: nat, used: set<nat>) {
    && i <= |es| && |used| == i
    && (forall j {:trigger LinkTo(es, fs, i, j)} :: j in used ==> LinkTo(es, fs, i, j))
    && (forall k {:trigger LinkFrom(es, fs, k, used)} :: 0 <= k < i ==> LinkFrom(es, fs, k, used))
  }

  ghost predicate LinkTo(es: seq<Entry>, fs: seq<Entry>, i: nat, j: nat) {
    j < |fs| && exists k :: 0 <= k < i <= |es| && EntryEq(es[k], fs[j])
  }

  ghost predicate LinkFrom(es: seq<Entry>, fs: seq<Entry>, k: nat, used: set<nat>) {
    k < |es| && exists j :: j in used && j < |fs| && EntryEq(es[k], fs[j])
  }

  lemma {:induction false} BoundedSetFull(s: set<nat>, n: nat)
    requires |s| == n && forall x :: x in s ==> x < n
    ensures forall x: nat :: x < n ==> x in s
  {
    if n > 0 {
      if n - 1 in s {
        BoundedSetFull(s - {n - 1}, n - 1);
      } else {
        SmallNumbers(s, n - 1);
      }
    }
  }

  lemma {:induction false} BoundedSetMisses(s: set<nat>, n: nat)
    requires |s| < n
    ensures exists x: nat :: x < n && x !in s
  {
    if n - 1 in s {
      BoundedSetMisses(s - {n - 1}, n - 1);
      var x: nat :| x < n - 1 && x !in s - {n - 1};
      assert x !in s;
    }
  }

  /** What the code takes for equal keys and values is equal. */
  ghost predicate EntriesSound(es: seq<Entry>, fs: seq<Entry>) {
    forall i, j :: 0 <= i < |es| && 0 <= j < |fs| ==>
                     (KeyMatches(es[i], fs[j]) ==> ValueEq(es[i].key, fs[j].key))
                     && (ValueMatches(es[i], fs[j]) ==> ValueEq(es[i].val, fs[j].val))
  }

  ghost predicate EntriesAgree(es: seq<Entry>, fs: seq<Entry>) {
    forall i, j :: 0 <= i < |es| && 0 <= j < |fs| ==>
                     (KeyMatches(es[i], fs[j]) <==> ValueEq(es[i].key, fs[j].key))
                     && (ValueMatches(es[i], fs[j]) <==> ValueEq(es[i].val, fs[j].val))
  }

  /** A complete greedy match is a bijection, so it makes the maps equal; no key need be distinct. */
  lemma {:induction false} GreedyMatchSound(es: seq<Entry>, fs: seq<Entry>, i: nat, used: set<nat>)
    requires |es| == |fs| && EntriesSound(es, fs) && Linked(es, fs, i, used)
    requires GreedyMatch(es, fs, i, used)
    ensures MapsEq(es, fs)
    decreases |es| - i
  {
    if i == |es| {
      hide EntryEq;
      forall j | j in used ensures j < |fs| { assert LinkTo(es, fs, i, j); }
      BoundedSetFull(used, |fs|);
      forall j | 0 <= j < |fs| ensures InLeft(es, fs, j) { assert LinkTo(es, fs, i, j); }
      forall k | 0 <= k < |es| ensures InRight(es, fs, k) { assert LinkFrom(es, fs, k, used); }
    } else {
      hide FirstMatch, Linked, MapsEq;
      var j := FirstMatch(es[i], fs, used, 0);
      LinkOne(es, fs, i, used, j);
      GreedyMatchSound(es, fs, i + 1, used + {j});
    }
  }

  /** What compares as equal is equal, for all values. */
  lemma {:induction false} GreedyEqSound(a: Value, b: Value)
    requires GreedyEq(a, b)
    ensures ValueEq(a, b)
    decreases a
  {
    match a {
      case List(xs) =>
        forall i | 0 <= i < |xs| ensures ValueEq(xs[i], b.items[i]) { GreedyEqSound(xs[i], b.items[i]); }
      case Map(es) =>
        var fs := b.entries;
        forall i, j | 0 <= i < |es| && 0 <= j < |fs|
          ensures KeyMatches(es[i], fs[j]) ==> ValueEq(es[i].key, fs[j].key)
          ensures ValueMatches(es[i], fs[j]) ==> ValueEq(es[i].val, fs[j].val)
        {
          GreedyEntrySound(es[i], fs[j]);
        }
        GreedyMatchSound(es, fs, 0, {});
      case _ => LeafEqCorrect(a, b);
    }
  }

  lemma {:induction false} GreedyEntrySound(e: Entry, f: Entry)
    ensures KeyMatches(e, f) ==> ValueEq(e.key, f.key)
    ensures ValueMatches(e, f) ==> ValueEq(e.val, f.val)
    decreases e
  {
    if KeyMatches(e, f) {
      GreedyEqSound(e.key, f.key);
    }
    if ValueMatches(e, f) {
      GreedyEqSound(e.val, f.val);
    }
  }

  lemma LinkOne(es: seq<Entry>, fs: seq<Entry>, i: nat, used: set<nat>, j: nat)
    requires Linked(es, fs, i, used) && i < |es| && j < |fs| && j !in used && EntryEq(es[i], fs[j])
    ensures Linked(es, fs, i + 1, used + {j})
  {
    hide EntryEq;
    var u := used + {j};
    forall l | l in u ensures LinkTo(es, fs, i + 1, l) {
      if l != j {
        assert LinkTo(es, fs, i, l);
      }
    }
    forall k | 0 <= k < i + 1 ensures LinkFrom(es, fs, k, u) {
      if k < i {
        assert LinkFrom(es, fs, k, used);
        var l :| l in used && l < |fs| && EntryEq(es[k], fs[l]);
        assert l in u;
      } else {
        assert j in u;
      }
    }
  }

  /** With distinct keys, or equal entries only, the greedy choice never goes wrong. */
  lemma {:induction false} GreedyMatchComplete(es: seq<Entry>, fs: seq<Entry>, i: nat, used: set<nat>)
    requires |es| == |fs| && EntriesAgree(es, fs) && Linked(es, fs, i, used)
    requires (KeysDistinct(es) || AllSame(es)) && MapsEq(es, fs)
    ensures GreedyMatch(es, fs, i, used)
    decreases |es| - i
  {
    if i < |es| {
      var j := FirstMatch(es[i], fs, used, 0);
      if KeysDistinct(es) {
        FirstFitsDistinct(es, fs, i, used);
      } else {
        FirstFitsSame(es, fs, i, used);
      }
      hide FirstMatch, Linked, MapsEq, KeysDistinct, AllSame;
      LinkOne(es, fs, i, used, j);
      GreedyMatchComplete(es, fs, i + 1, used + {j});
    }
  }

  lemma FirstFitsDistinct(es: seq<Entry>, fs: seq<Entry>, i: nat, used: set<nat>)
    requires EntriesAgree(es, fs) && Linked(es, fs, i, used) && KeysDistinct(es) && MapsEq(es, fs) && i < |es|
    ensures FirstMatch(es[i], fs, used, 0) < |fs| && EntryEq(es[i], fs[FirstMatch(es[i], fs, used, 0)])
  {
    hide ValueEq, KeyMatches, ValueMatches, FirstMatch;
    assert InRight(es, fs, i);
    var j :| 0 <= j < |fs| && EntryEq(es[i], fs[j]);
    if j in used {
      assert LinkTo(es, fs, i, j);
      var k :| 0 <= k < i && EntryEq(es[k], fs[j]);
      KeysMeet(es[k], es[i], fs[j]);
      assert false;
    }
    assert KeyMatches(es[i], fs[j]);
    var first := FirstMatch(es[i], fs, used, 0);
    assert first < |fs| && KeyMatches(es[i], fs[first]);
    assert InLeft(es, fs, first);
    var k :| 0 <= k < |es| && EntryEq(es[k], fs[first]);
    KeysMeet(es[k], es[i], fs[first]);
  }

  lemma FirstFitsSame(es: seq<Entry>, fs: seq<Entry>, i: nat, used: set<nat>)
    requires |es| == |fs| && EntriesAgree(es, fs) && Linked(es, fs, i, used) && AllSame(es) && MapsEq(es, fs) && i < |es|
    ensures FirstMatch(es[i], fs, used, 0) < |fs| && EntryEq(es[i], fs[FirstMatch(es[i], fs, used, 0)])
  {
    hide ValueEq, KeyMatches, ValueMatches, FirstMatch, EntryEq;
    forall j | 0 <= j < |fs| ensures EntryEq(es[i], fs[j]) {
      assert InLeft(es, fs, j);
      var k :| 0 <= k < |es| && EntryEq(es[k], fs[j]);
      EntryEqTransitive(es[i], es[k], fs[j]);
    }
    BoundedSetMisses(used, |fs|);
    var j: nat :| j < |fs| && j !in used;
    EntryEqParts(es[i], fs[j]);
    assert KeyMatches(es[i], fs[j]);
  }

  lemma EntryEqParts(e: Entry, f: Entry)
    requires EntryEq(e, f)
    ensures ValueEq(e.key, f.key) && ValueEq(e.val, f.val)
  {
  }

  lemma KeysMeet(e: Entry, e': Entry, f: Entry)
    requires ValueEq(e.key, f.key) && ValueEq(e'.key, f.key)
    ensures ValueEq(e.key, e'.key)
  {
    ValueEqSymmetric(e'.key, f.key);
    ValueEqTransitive(e.key, f.key, e'.key);
  }

  /** The comparison decides equality of a regular value with any other one; the order of map entries does not matter. */
  lemma {:induction false} GreedyEqCorrect(a: Value, b: Value)
    requires NaNFree(a) && NaNFree(b) && Regular(a)
    ensures GreedyEq(a, b) <==> ValueEq(a, b)
    decreases a
  {
    match a {
      case List(xs) =>
        if b.List? && |xs| == |b.items| {
          forall i | 0 <= i < |xs| ensures GreedyEq(xs[i], b.items[i]) <==> ValueEq(xs[i], b.items[i]) {
            GreedyEqCorrect(xs[i], b.items[i]);
          }
        }
      case Map(es) =>
        if b.Map? && |es| == |b.entries| {
          var fs := b.entries;
          forall i, j | 0 <= i < |es| && 0 <= j < |fs|
            ensures KeyMatches(es[i], fs[j]) <==> ValueEq(es[i].key, fs[j].key)
            ensures ValueMatches(es[i], fs[j]) <==> ValueEq(es[i].val, fs[j].val)
          {
            GreedyEntryCorrect(es[i], fs[j]);
          }
          GreedyMatchCorrect(es, fs);
          assert ValueEq(a, b) <==> MapsEq(es, fs);
        }
      case _ => LeafEqCorrect(a, b);
    }
  }

  lemma GreedyMatchCorrect(es: seq<Entry>, fs: seq<Entry>)
    requires |es| == |fs| && EntriesAgree(es, fs) && (KeysDistinct(es) || AllSame(es))
    ensures GreedyMatch(es, fs, 0, {}) <==> MapsEq(es, fs)
  {
    if GreedyMatch(es, fs, 0, {}) {
      GreedyMatchSound(es, fs, 0, {});
    }
    if MapsEq(es, fs) {
      GreedyMatchComplete(es, fs, 0, {});
    }
  }

  lemma {:induction false} GreedyEntryCorrect(e: Entry, f: Entry)
    requires NaNFreeEntry(e) && NaNFreeEntry(f) && RegularEntry(e)
    ensures KeyMatches(e, f) <==> ValueEq(e.key, f.key)
    ensures ValueMatches(e, f) <==> ValueEq(e.val, f.val)
    decreases e
  {
    GreedyEqCorrect(e.key, f.key);
    GreedyEqCorrect(e.val, f.val);
  }

  /** Comparing a value with itself succeeds, whether or not its keys are distinct. */
  lemma {:induction false} GreedyEqReflexive(v: Value)
    requires NaNFree(v)
    ensures GreedyEq(v, v)
    decreases v
  {
    match v {
      case List(xs) =>
        forall i | 0 <= i < |xs| ensures GreedyEq(xs[i], xs[i]) { GreedyEqReflexive(xs[i]); }
      case Map(es) =>
        forall i | 0 <= i < |es| ensures KeyMatches(es[i], es[i]) && ValueMatches(es[i], es[i]) {
          GreedyEntryReflexive(es[i]);
        }
        GreedyMatchReflexive(es, 0, {});
      case _ =>
        ValueEqReflexive(v);
        LeafEqCorrect(v, v);
    }
  }

  lemma {:induction false} GreedyEntryReflexive(e: Entry)
    requires NaNFreeEntry(e)
    ensures KeyMatches(e, e) && ValueMatches(e, e)
    decreases e
  {
    GreedyEqReflexive(e.key);
    GreedyEqReflexive(e.val);
  }

  lemma {:induction false} GreedyMatchReflexive(es: seq<Entry>, i: nat, used: set<nat>)
    requires i <= |es| && forall j: nat :: j in used <==> j < i
    requires forall j :: 0 <= j < |es| ==> KeyMatches(es[j], es[j]) && ValueMatches(es[j], es[j])
    ensures GreedyMatch(es, es, i, used)
    decreases |es| - i
  {
    if i < |es| {
      assert FirstMatch(es[i], es, used, 0) == i;
      GreedyMatchReflexive(es, i + 1, used + {i});
    }
  }

  lemma ReversedPair(x: Entry, y: Entry)
    requires NaNFreeEntry(x) && NaNFreeEntry(y)
    ensures MapsEq([x, y], [y, x])
  {
    hide EntryEq, NaNFreeEntry;
    EntryEqReflexive(x);
    EntryEqReflexive(y);
    var es, fs := [x, y], [y, x];
    assert EntryEq(es[0], fs[1]) && EntryEq(es[1], fs[0]);
    assert InRight(es, fs, 0) && InRight(es, fs, 1);
    assert InLeft(es, fs, 0) && InLeft(es, fs, 1);
  }

  /** Duplicate keys break it: two maps with the same two entries, in different order, compare as different. */
  lemma DuplicateKeysBreakEquality() returns (a: Value, b: Value)
    ensures NaNFree(a) && NaNFree(b) && !Regular(a) && ValueEq(a, b) && !GreedyEq(a, b)
  {
    var x, y := Entry(Null, True), Entry(Null, False);
    a, b := Map([x, y]), Map([y, x]);
    assert MapsEq(a.entries, b.entries) by { ReversedPair(x, y); }
    assert ValueEq(a, b);
    assert KeyMatches(x, y) && !ValueMatches(x, y);
    assert FirstMatch(a.entries[0], b.entries, {}, 0) == 0;
    assert !GreedyMatch(a.entries, b.entries, 0, {});
    assert ValueEq(a.entries[0].key, a.entries[1].key) && !EntryEq(a.entries[0], a.entries[1]);
  }
}
