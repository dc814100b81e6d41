/** The exact conditions under which the comparison of maps is equality, and under which it ignores their order. */
module RawRegular {
  import opened Counting
  import opened StdValue
  import opened RawEquals

  /** Comparing `v` with any value without NaN tells whether the two are equal. */
  ghost predicate Decides(v: Value) {
    forall w :: NaNFree(w) ==> (GreedyEq(v, w) <==> ValueEq(v, w))
  }

  lemma DecidesIfComplete(v: Value)
    requires forall w :: NaNFree(w) && ValueEq(v, w) ==> GreedyEq(v, w)
    ensures Decides(v)
  {
    hide GreedyEq, ValueEq, NaNFree;
    forall w | NaNFree(w) ensures GreedyEq(v, w) <==> ValueEq(v, w) {
      if GreedyEq(v, w) {
        GreedyEqSound(v, w);
      }
    }
  }

  // Lists.

  lemma ItemDecides(xs: seq<Value>, i: nat)
    requires NaNFree(List(xs)) && Decides(List(xs)) && i < |xs|
    ensures Decides(xs[i])
  {
    forall x | NaNFree(x) && ValueEq(xs[i], x) ensures GreedyEq(xs[i], x) {
      var ys := xs[i := x];
      forall k | 0 <= k < |xs| ensures ValueEq(xs[k], ys[k]) {
        ValueEqReflexive(xs[k]);
      }
      assert NaNFree(List(ys)) && ValueEq(List(xs), List(ys));
      assert GreedyEq(xs[i], ys[i]);
    }
    DecidesIfComplete(xs[i]);
  }

  // Maps.

  ghost predicate NaNFreeEntries(es: seq<Entry>) {
    forall i :: 0 <= i < |es| ==> NaNFreeEntry(es[i])
  }

  /** The matching decides equality of the maps of these entries. */
  ghost predicate MapDecides(es: seq<Entry>) {
    forall fs: seq<Entry> :: |fs| == |es| && NaNFreeEntries(fs) ==> (GreedyMatch(es, fs, 0, {}) <==> MapsEq(es, fs))
  }

  lemma MapDecidesIsDecides(es: seq<Entry>)
    requires Decides(Map(es))
    ensures MapDecides(es)
  {
    forall fs: seq<Entry> | |fs| == |es| && NaNFreeEntries(fs)
      ensures GreedyMatch(es, fs, 0, {}) <==> MapsEq(es, fs)
    {
      assert NaNFree(Map(fs));
      assert GreedyEq(Map(es), Map(fs)) <==> ValueEq(Map(es), Map(fs));
    }
  }

  /** A complete matching has a partner for every entry. */
  lemma {:induction false} PartnerOf(es: seq<Entry>, fs: seq<Entry>, i: nat, used: set<nat>, k: nat) returns (j: nat)
    requires i <= k < |es| && GreedyMatch(es, fs, i, used)
    ensures j < |fs| && KeyMatches(es[k], fs[j]) && ValueMatches(es[k], fs[j])
    decreases k - i
  {
    hide KeyMatches, ValueMatches;
    j := FirstMatch(es[i], fs, used, 0);
    if i < k {
      j := PartnerOf(es, fs, i + 1, used + {j}, k);
    }
  }

  lemma SameIndexMapsEq(es: seq<Entry>, fs: seq<Entry>)
    requires |es| == |fs| && forall k :: 0 <= k < |es| ==> EntryEq(es[k], fs[k])
    ensures MapsEq(es, fs)
  {
    hide EntryEq;
    forall k | 0 <= k < |es| ensures InRight(es, fs, k) && InLeft(es, fs, k) {
      assert EntryEq(es[k], fs[k]);
    }
  }

  /** `es` with `f` in place of every entry equal to entry `i`. */
  ghost function Replaced(es: seq<Entry>, i: nat, f: Entry): (fs: seq<Entry>)
    requires i < |es|
    ensures |fs| == |es|
    ensures forall k :: 0 <= k < |es| ==> fs[k] == if EntryEq(es[k], es[i]) then f else es[k]
  {
    seq(|es|, k requires 0 <= k < |es| => if EntryEq(es[k], es[i]) then f else es[k])
  }

  /** An equal entry is found to match, whatever else is in the map. */
  lemma EqualEntryMatches(es: seq<Entry>, i: nat, f: Entry)
    requires NaNFreeEntries(es) && MapDecides(es) && i < |es| && NaNFreeEntry(f) && EntryEq(es[i], f)
    ensures KeyMatches(es[i], f) && ValueMatches(es[i], f)
  {
    hide EntryEq, NaNFreeEntry, KeyMatches, ValueMatches, GreedyMatch;
    var fs := Replaced(es, i, f);
    forall k | 0 <= k < |es| ensures EntryEq(es[k], fs[k]) {
      if EntryEq(es[k], es[i]) {
        EntryEqTransitive(es[k], es[i], f);
      } else {
        EntryEqReflexive(es[k]);
      }
    }
    SameIndexMapsEq(es, fs);
    var j := PartnerOf(es, fs, 0, {}, i);
    MatchIsEqual(es[i], fs[j]);
    if !EntryEq(es[j], es[i]) {
      EntryEqSymmetric(es[i], fs[j]);
    }
  }

  lemma MatchIsEqual(e: Entry, f: Entry)
    requires KeyMatches(e, f) && ValueMatches(e, f)
    ensures EntryEq(e, f)
  {
    hide KeyMatches, ValueMatches;
    GreedyEntrySound(e, f);
  }

  /** If a map decides, so do its keys and values. */
  lemma EntryDecides(es: seq<Entry>, i: nat)
    requires NaNFreeEntries(es) && MapDecides(es) && i < |es|
    ensures Decides(es[i].key) && Decides(es[i].val)
  {
    var e := es[i];
    assert NaNFreeEntry(e);
    hide MapDecides, ValueEq, GreedyEq, NaNFree;
    forall x | NaNFree(x) && ValueEq(e.key, x) ensures GreedyEq(e.key, x) {
      ValueEqReflexive(e.val);
      EqualEntryMatches(es, i, Entry(x, e.val));
    }
    forall x | NaNFree(x) && ValueEq(e.val, x) ensures GreedyEq(e.val, x) {
      ValueEqReflexive(e.key);
      EqualEntryMatches(es, i, Entry(e.key, x));
    }
    DecidesIfComplete(e.key);
    DecidesIfComplete(e.val);
  }

  /** Two entries of `es` with the same key, of which the first has that key first. */
  ghost predicate Repeated(es: seq<Entry>, a: nat, b: nat) {
    && a < b < |es| && ValueEq(es[a].key, es[b].key)
    && forall k :: 0 <= k < a ==> !ValueEq(es[k].key, es[a].key)
  }

  // Equal keys with different values: exchanging the two entries breaks the match.

  /** Nothing in `used` has the key of entry `a`, so entry `a` meets the entry in its own place. */
  lemma {:induction false} SwapBreaks(es: seq<Entry>, fs: seq<Entry>, i: nat, used: set<nat>, a: nat)
    requires i <= a < |es| == |fs| && EntriesSound(es, fs)
    requires forall k :: 0 <= k < a ==> fs[k] == es[k] && !ValueEq(es[k].key, es[a].key)
    requires KeyMatches(es[a], fs[a]) && !ValueMatches(es[a], fs[a])
    requires forall j | j in used :: j < |fs| && !ValueEq(es[a].key, fs[j].key)
    ensures !GreedyMatch(es, fs, i, used)
    decreases a - i
  {
    hide ValueEq, KeyMatches, ValueMatches, FirstMatch;
    var j := FirstMatch(es[i], fs, used, 0);
    if i == a {
      forall k | 0 <= k < a ensures !KeyMatches(es[a], fs[k]) {
        if ValueEq(es[a].key, es[k].key) {
          ValueEqSymmetric(es[a].key, es[k].key);
        }
      }
      assert a !in used;
    } else if j < |fs| {
      if ValueEq(es[a].key, fs[j].key) {
        KeysMeet(es[i], es[a], fs[j]);
      }
      SwapBreaks(es, fs, i + 1, used + {j}, a);
    }
  }

  function Swapped(es: seq<Entry>, a: nat, b: nat): seq<Entry>
    requires a < |es| && b < |es|
  {
    es[a := es[b]][b := es[a]]
  }

  lemma SwappedMapsEq(es: seq<Entry>, a: nat, b: nat)
    requires NaNFreeEntries(es) && a < |es| && b < |es|
    ensures MapsEq(es, Swapped(es, a, b))
  {
    hide EntryEq, NaNFreeEntry;
    var fs := Swapped(es, a, b);
    forall k | 0 <= k < |es| ensures InRight(es, fs, k) && InLeft(es, fs, k) {
      EntryEqReflexive(es[k]);
      EntryEqReflexive(fs[k]);
      var k' := if k == a then b else if k == b then a else k;
      assert fs[k'] == es[k] && es[k'] == fs[k];
    }
  }

  /** The matching succeeds when two entries have changed places. */
  ghost predicate AcceptsSwaps(es: seq<Entry>) {
    forall a: nat, b: nat :: a < |es| && b < |es| ==> GreedyMatch(es, Swapped(es, a, b), 0, {})
  }

  lemma MapDecidesAcceptsSwaps(es: seq<Entry>)
    requires NaNFreeEntries(es) && MapDecides(es)
    ensures AcceptsSwaps(es)
  {
    hide GreedyMatch, NaNFreeEntry, MapsEq;
    forall a: nat, b: nat | a < |es| && b < |es| ensures GreedyMatch(es, Swapped(es, a, b), 0, {}) {
      SwappedMapsEq(es, a, b);
      assert NaNFreeEntries(Swapped(es, a, b));
    }
  }

  lemma RepeatedHasSameValue(es: seq<Entry>, a: nat, b: nat)
    requires AcceptsSwaps(es) && Repeated(es, a, b) && EntriesAgree(es, es)
    ensures ValueEq(es[a].val, es[b].val)
  {
    hide ValueEq, KeyMatches, ValueMatches, GreedyMatch;
    if !ValueEq(es[a].val, es[b].val) {
      var fs := Swapped(es, a, b);
      forall i, j | 0 <= i < |es| && 0 <= j < |fs|
        ensures KeyMatches(es[i], fs[j]) ==> ValueEq(es[i].key, fs[j].key)
        ensures ValueMatches(es[i], fs[j]) ==> ValueEq(es[i].val, fs[j].val)
      {
        GreedyEntrySound(es[i], fs[j]);
      }
      SwapBreaks(es, fs, 0, {}, a);
    }
  }

  // A repeated entry beside a different one: with a copy of the other in place of the
  // repetitions there is one partner for two entries.

  lemma {:induction false} PartnerIsTaken(es: seq<Entry>, fs: seq<Entry>, i: nat, used: set<nat>, b: nat, p: nat)
    requires i <= b < |es| && p in used
    requires forall j :: 0 <= j < |fs| && j != p ==> !KeyMatches(es[b], fs[j])
    ensures !GreedyMatch(es, fs, i, used)
    decreases b - i
  {
    hide KeyMatches, ValueMatches;
    if i < b {
      PartnerIsTaken(es, fs, i + 1, used + {FirstMatch(es[i], fs, used, 0)}, b, p);
    }
  }

  lemma {:induction false} OnePartnerForTwo(es: seq<Entry>, fs: seq<Entry>, i: nat, used: set<nat>, a: nat, b: nat, p: nat)
    requires i <= a < b < |es|
    requires forall j :: 0 <= j < |fs| && j != p ==> !KeyMatches(es[a], fs[j]) && !KeyMatches(es[b], fs[j])
    ensures !GreedyMatch(es, fs, i, used)
    decreases a - i
  {
    hide KeyMatches, ValueMatches;
    var j := FirstMatch(es[i], fs, used, 0);
    if i < a {
      OnePartnerForTwo(es, fs, i + 1, used + {j}, a, b, p);
    } else if j < |fs| {
      PartnerIsTaken(es, fs, i + 1, used + {j}, b, p);
    }
  }

  /** `es` with entry `q` in place of all entries equal to entry `a`, but for `a` itself. */
  ghost function Thinned(es: seq<Entry>, a: nat, q: nat): (fs: seq<Entry>)
    requires a < |es| && q < |es|
    ensures |fs| == |es|
    ensures forall k :: 0 <= k < |es| ==> fs[k] == if k != a && EntryEq(es[k], es[a]) then es[q] else es[k]
  {
    seq(|es|, k requires 0 <= k < |es| => if k != a && EntryEq(es[k], es[a]) then es[q] else es[k])
  }

  lemma ThinnedMapsEq(es: seq<Entry>, a: nat, q: nat)
    requires NaNFreeEntries(es) && a < |es| && q < |es|
    ensures MapsEq(es, Thinned(es, a, q))
  {
    hide EntryEq, NaNFreeEntry;
    var fs := Thinned(es, a, q);
    forall k | 0 <= k < |es| ensures InRight(es, fs, k) && InLeft(es, fs, k) {
      EntryEqReflexive(es[k]);
      EntryEqReflexive(es[q]);
      if k != a && EntryEq(es[k], es[a]) {
        assert EntryEq(es[k], fs[a]) && EntryEq(es[q], fs[k]);
      } else {
        assert EntryEq(es[k], fs[k]);
      }
    }
  }

  /** Entries with equal keys have equal values, so a repeated key means that all entries are equal. */
  lemma RepeatedMeansSame(es: seq<Entry>, a: nat, b: nat, q: nat)
    requires NaNFreeEntries(es) && MapDecides(es) && a < b < |es| && q < |es|
    requires ValueEq(es[a].key, es[b].key)
    requires forall i, j :: 0 <= i < |es| && 0 <= j < |es| && ValueEq(es[i].key, es[j].key) ==> EntryEq(es[i], es[j])
    ensures EntryEq(es[q], es[a])
  {
    if !EntryEq(es[q], es[a]) {
      var fs := Thinned(es, a, q);
      ThinnedMapsEq(es, a, q);
      forall j | 0 <= j < |fs| && j != a ensures !KeyMatches(es[a], fs[j]) && !KeyMatches(es[b], fs[j]) {
        NoOtherPartner(es, a, b, q, j);
      }
      hide ValueEq, EntryEq, KeyMatches, GreedyMatch, MapsEq;
      OnePartnerForTwo(es, fs, 0, {}, a, b, a);
    }
  }

  lemma NoOtherPartner(es: seq<Entry>, a: nat, b: nat, q: nat, j: nat)
    requires a < b < |es| && q < |es| && j < |es| && j != a
    requires ValueEq(es[a].key, es[b].key) && !EntryEq(es[q], es[a])
    requires forall i, j :: 0 <= i < |es| && 0 <= j < |es| && ValueEq(es[i].key, es[j].key) ==> EntryEq(es[i], es[j])
    ensures !KeyMatches(es[a], Thinned(es, a, q)[j]) && !KeyMatches(es[b], Thinned(es, a, q)[j])
  {
    hide ValueEq, EntryEq, KeyMatches;
    var f := Thinned(es, a, q)[j];
    var k := if EntryEq(es[j], es[a]) then q else j;
    assert f == es[k] && !EntryEq(es[k], es[a]);
    GreedyEntrySound(es[a], f);
    GreedyEntrySound(es[b], f);
    if KeyMatches(es[a], f) || KeyMatches(es[b], f) {
      if KeyMatches(es[b], f) {
        ValueEqTransitive(es[a].key, es[b].key, f.key);
      }
      ValueEqSymmetric(es[a].key, f.key);
    }
  }

  /** The first entry with the key of entry `i`. */
  lemma {:induction false} FirstWithKey(es: seq<Entry>, i: nat) returns (a: nat)
    requires NaNFreeEntries(es) && i < |es|
    ensures a <= i && ValueEq(es[a].key, es[i].key)
    ensures forall k :: 0 <= k < a ==> !ValueEq(es[k].key, es[a].key)
  {
    hide ValueEq;
    if k: nat :| k < i && ValueEq(es[k].key, es[i].key) {
      a := FirstWithKey(es, k);
      ValueEqTransitive(es[a].key, es[k].key, es[i].key);
    } else {
      a := i;
      assert NaNFreeEntry(es[i]);
      ValueEqReflexive(es[i].key);
    }
  }

  lemma EqualKeysMeanEqualEntries(es: seq<Entry>, i: nat, j: nat)
    requires NaNFreeEntries(es) && AcceptsSwaps(es) && EntriesAgree(es, es)
    requires i < |es| && j < |es| && ValueEq(es[i].key, es[j].key)
    ensures EntryEq(es[i], es[j])
  {
    var a := FirstWithKey(es, i);
    FirstHasSameValue(es, a, i);
    ValueEqTransitive(es[a].key, es[i].key, es[j].key);
    FirstHasSameValue(es, a, j);
    hide ValueEq;
    ValueEqSymmetric(es[a].val, es[i].val);
    ValueEqTransitive(es[i].val, es[a].val, es[j].val);
  }

  lemma FirstHasSameValue(es: seq<Entry>, a: nat, i: nat)
    requires NaNFreeEntries(es) && AcceptsSwaps(es) && EntriesAgree(es, es)
    requires a < |es| && i < |es| && ValueEq(es[a].key, es[i].key)
    requires forall k :: 0 <= k < a ==> !ValueEq(es[k].key, es[a].key)
    ensures ValueEq(es[a].val, es[i].val)
  {
    hide ValueEq, AcceptsSwaps, EntriesAgree;
    if a < i {
      RepeatedHasSameValue(es, a, i);
    } else if i < a {
      ValueEqSymmetric(es[a].key, es[i].key);
    } else {
      assert NaNFreeEntry(es[i]);
      ValueEqReflexive(es[i].val);
    }
  }

  lemma MapDecidesAgrees(es: seq<Entry>)
    requires NaNFreeEntries(es) && MapDecides(es)
    ensures EntriesAgree(es, es)
  {
    hide GreedyEq, ValueEq, NaNFree, MapDecides;
    forall i, j | 0 <= i < |es| && 0 <= j < |es|
      ensures KeyMatches(es[i], es[j]) <==> ValueEq(es[i].key, es[j].key)
      ensures ValueMatches(es[i], es[j]) <==> ValueEq(es[i].val, es[j].val)
    {
      EntryDecides(es, i);
      assert NaNFreeEntry(es[j]);
    }
  }

  lemma MapDecidesMeansRegular(es: seq<Entry>)
    requires NaNFreeEntries(es) && MapDecides(es)
    ensures KeysDistinct(es) || AllSame(es)
  {
    hide ValueEq, EntryEq, NaNFreeEntries, MapDecides, AcceptsSwaps;
    MapDecidesAgrees(es);
    MapDecidesAcceptsSwaps(es);
    forall i, j | 0 <= i < |es| && 0 <= j < |es| && ValueEq(es[i].key, es[j].key) ensures EntryEq(es[i], es[j]) {
      EqualKeysMeanEqualEntries(es, i, j);
    }
    if a: nat, b: nat :| a < |es| && b < |es| && a != b && ValueEq(es[a].key, es[b].key) {
      var a', b' := if a < b then a else b, if a < b then b else a;
      ValueEqSymmetric(es[a].key, es[b].key);
      forall i, j | 0 <= i < |es| && 0 <= j < |es| ensures EntryEq(es[i], es[j]) {
        RepeatedMeansSame(es, a', b', i);
        RepeatedMeansSame(es, a', b', j);
        EntryEqSymmetric(es[j], es[a']);
        EntryEqTransitive(es[i], es[a'], es[j]);
      }
    }
  }

  lemma {:induction false} DecidesMeansRegular(v: Value)
    requires NaNFree(v) && Decides(v)
    ensures Regular(v)
    decreases v
  {
    match v {
      case List(xs) =>
        forall i | 0 <= i < |xs| ensures Regular(xs[i]) {
          ItemDecides(xs, i);
          DecidesMeansRegular(xs[i]);
        }
      case Map(es) =>
        MapDecidesIsDecides(es);
        MapDecidesMeansRegular(es);
        forall i | 0 <= i < |es| ensures RegularEntry(es[i]) {
          EntryDecides(es, i);
          assert NaNFreeEntry(es[i]);
          EntryDecidesMeansRegular(es[i]);
        }
      case _ =>
    }
  }

  lemma {:induction false} EntryDecidesMeansRegular(e: Entry)
    requires NaNFreeEntry(e) && Decides(e.key) && Decides(e.val)
    ensures RegularEntry(e)
    decreases e
  {
    DecidesMeansRegular(e.key);
    DecidesMeansRegular(e.val);
  }

  /** Comparing a value without NaN with the others gives equality exactly if the value is regular. */
  lemma DecidesIff(v: Value)
    requires NaNFree(v)
    ensures Decides(v) <==> Regular(v)
  {
    if Regular(v) {
      hide GreedyEq, ValueEq, NaNFree, Regular;
      forall w | NaNFree(w) ensures GreedyEq(v, w) <==> ValueEq(v, w) { GreedyEqCorrect(v, w); }
    } else if Decides(v) {
      DecidesMeansRegular(v);
    }
  }

  // The order of entries.

  function One(b: bool): nat { if b then 1 else 0 }

  /** How many entries have a key equal to `key`. */
  ghost function KeyCount(es: seq<Entry>, key: Value): nat {
    if es == [] then 0 else KeyCount(es[..|es| - 1], key) + One(ValueEq(key, es[|es| - 1].key))
  }

  lemma {:induction false} KeyCountAppend(es: seq<Entry>, fs: seq<Entry>, key: Value)
    ensures KeyCount(es + fs, key) == KeyCount(es, key) + KeyCount(fs, key)
  {
    hide ValueEq;
    if fs == [] {
      assert es + fs == es;
    } else {
      assert (es + fs)[..|es + fs| - 1] == es + fs[..|fs| - 1];
      KeyCountAppend(es, fs[..|fs| - 1], key);
    }
  }

  lemma KeyCountWithout(a: seq<Entry>, e: Entry, b: seq<Entry>, key: Value)
    ensures KeyCount(a + [e] + b, key) == KeyCount(a + b, key) + KeyCount([e], key)
  {
    hide KeyCount;
    KeyCountAppend(a + [e], b, key);
    KeyCountAppend(a, [e], key);
    KeyCountAppend(a, b, key);
  }

  lemma {:induction false} KeyCountOfPermutation(es: seq<Entry>, fs: seq<Entry>, key: Value)
    requires multiset(es) == multiset(fs)
    ensures KeyCount(es, key) == KeyCount(fs, key)
    decreases |es|
  {
    assert |es| == |multiset(es)| == |multiset(fs)| == |fs|;
    if es == [] {
      assert fs == [];
    } else {
      hide KeyCount;
      var front, last := es[..|es| - 1], es[|es| - 1];
      assert es == front + [last] && last in multiset(fs);
      var i: nat :| i < |fs| && fs[i] == last;
      var a, b := fs[..i], fs[i + 1..];
      assert fs == a + [last] + b;
      SameWithout(front, last, a, b);
      KeyCountOfPermutation(front, a + b, key);
      KeyCountAppend(front, [last], key);
      KeyCountWithout(a, last, b, key);
    }
  }

  /** Which of the indices in `used` have that key. */
  ghost function WithKey(fs: seq<Entry>, used: set<nat>, key: Value): set<nat> {
    set j | j in used && j < |fs| && ValueEq(key, fs[j].key)
  }

  ghost function AllWithKey(fs: seq<Entry>, key: Value): set<nat> {
    set j: nat | j < |fs| && ValueEq(key, fs[j].key)
  }

  lemma AllWithKeySnoc(fs: seq<Entry>, f: Entry, key: Value)
    ensures AllWithKey(fs + [f], key) == if ValueEq(key, f.key) then AllWithKey(fs, key) + {|fs|} else AllWithKey(fs, key)
    ensures |fs| !in AllWithKey(fs, key)
  {
    hide ValueEq;
    var gs := fs + [f];
    forall j: nat ensures j in AllWithKey(gs, key) <==> j in AllWithKey(fs, key) || (j == |fs| && ValueEq(key, f.key)) {
      if j < |fs| {
        assert gs[j] == fs[j];
      }
    }
  }

  lemma {:induction false} WithKeyCount(fs: seq<Entry>, key: Value)
    ensures |AllWithKey(fs, key)| == KeyCount(fs, key)
  {
    if fs == [] {
      assert AllWithKey(fs, key) == {};
    } else {
      hide ValueEq, AllWithKey;
      var front, last := fs[..|fs| - 1], fs[|fs| - 1];
      assert fs == front + [last];
      WithKeyCount(front, key);
      AllWithKeySnoc(front, last, key);
    }
  }

  /** The indices used so far cover each key as often as the first `i` entries have it. */
  ghost predicate Balanced(es: seq<Entry>, fs: seq<Entry>, i: nat, used: set<nat>)
    requires i <= |es|
  {
    forall k :: 0 <= k < |es| ==> |WithKey(fs, used, es[k].key)| == KeyCount(es[..i], es[k].key)
  }

  lemma KeyCountGrows(es: seq<Entry>, i: nat, key: Value)
    requires i < |es|
    ensures KeyCount(es[..i + 1], key) == KeyCount(es[..i], key) + One(ValueEq(key, es[i].key))
    ensures KeyCount(es[..i + 1], key) <= KeyCount(es, key)
  {
    hide ValueEq;
    assert es[..i + 1][..i] == es[..i];
    assert es == es[..i + 1] + es[i + 1..];
    KeyCountAppend(es[..i + 1], es[i + 1..], key);
  }

  /** Some entry with the key of entry `i` is still free. */
  lemma FreeWithKey(es: seq<Entry>, fs: seq<Entry>, i: nat, used: set<nat>) returns (j: nat)
    requires NaNFreeEntries(es) && multiset(es) == multiset(fs) && i < |es| && Balanced(es, fs, i, used)
    ensures j < |fs| && j !in used && ValueEq(es[i].key, fs[j].key)
  {
    var key := es[i].key;
    assert ValueEq(key, key) by { assert NaNFreeEntry(es[i]); ValueEqReflexive(key); }
    hide ValueEq;
    KeyCountGrows(es, i, key);
    KeyCountOfPermutation(es, fs, key);
    WithKeyCount(fs, key);
    var taken, all := WithKey(fs, used, key), AllWithKey(fs, key);
    assert taken == all * taken;
    assert |all - taken| == |all| - |all * taken|;
    assert all - taken != {};
    j :| j in all - taken;
  }

  lemma BalancedStep(es: seq<Entry>, fs: seq<Entry>, i: nat, used: set<nat>, j: nat)
    requires i < |es| && Balanced(es, fs, i, used) && j < |fs| && j !in used && ValueEq(es[i].key, fs[j].key)
    ensures Balanced(es, fs, i + 1, used + {j})
  {
    hide ValueEq;
    forall k | 0 <= k < |es|
      ensures |WithKey(fs, used + {j}, es[k].key)| == KeyCount(es[..i + 1], es[k].key)
    {
      var key := es[k].key;
      KeyCountGrows(es, i, key);
      SameKeyClass(key, es[i].key, fs[j].key);
      assert WithKey(fs, used + {j}, key) == if ValueEq(key, fs[j].key) then WithKey(fs, used, key) + {j} else WithKey(fs, used, key);
    }
  }

  lemma SameKeyClass(key: Value, a: Value, b: Value)
    requires ValueEq(a, b)
    ensures ValueEq(key, a) <==> ValueEq(key, b)
  {
    hide ValueEq;
    ValueEqSymmetric(a, b);
    if ValueEq(key, a) {
      ValueEqTransitive(key, a, b);
    }
    if ValueEq(key, b) {
      ValueEqTransitive(key, b, a);
    }
  }

  /** Entries with equal keys have equal values. */
  ghost predicate KeysDetermineValues(es: seq<Entry>, fs: seq<Entry>) {
    forall i, j :: 0 <= i < |es| && 0 <= j < |fs| && ValueEq(es[i].key, fs[j].key) ==> ValueEq(es[i].val, fs[j].val)
  }

  lemma {:induction false} PermutedMatch(es: seq<Entry>, fs: seq<Entry>, i: nat, used: set<nat>)
    requires NaNFreeEntries(es) && multiset(es) == multiset(fs) && i <= |es| && Balanced(es, fs, i, used)
    requires EntriesAgree(es, fs) && KeysDetermineValues(es, fs)
    ensures GreedyMatch(es, fs, i, used)
    decreases |es| - i
  {
    if i < |es| {
      var free := FreeWithKey(es, fs, i, used);
      var j := FirstMatch(es[i], fs, used, 0);
      hide ValueEq, KeyMatches, ValueMatches, FirstMatch, Balanced, NaNFreeEntries;
      assert KeyMatches(es[i], fs[free]);
      assert j < |fs| && ValueEq(es[i].key, fs[j].key) && ValueMatches(es[i], fs[j]);
      BalancedStep(es, fs, i, used, j);
      PermutedMatch(es, fs, i + 1, used + {j});
    }
  }

  lemma PermutedFacts(es: seq<Entry>, fs: seq<Entry>)
    requires multiset(es) == multiset(fs) && EntriesAgree(es, es)
    ensures |es| == |fs| && EntriesAgree(es, fs)
    ensures KeysDetermineValues(es, es) ==> KeysDetermineValues(es, fs)
  {
    hide ValueEq, KeyMatches, ValueMatches;
    assert |multiset(es)| == |multiset(fs)|;
    forall j | 0 <= j < |fs| ensures fs[j] in es {
      assert fs[j] in multiset(es);
    }
  }

  /** The greedy matching accepts the entries in any order. */
  ghost predicate OrderIgnored(es: seq<Entry>) {
    forall fs :: multiset(fs) == multiset(es) ==> GreedyEq(Map(es), Map(fs))
  }

  lemma OrderIgnoredAcceptsSwaps(es: seq<Entry>)
    requires OrderIgnored(es)
    ensures AcceptsSwaps(es)
  {
    hide GreedyMatch;
    forall a: nat, b: nat | a < |es| && b < |es| ensures GreedyMatch(es, Swapped(es, a, b), 0, {}) {
      SwappedIsPermutation(es, a, b);
      assert GreedyEq(Map(es), Map(Swapped(es, a, b)));
    }
  }

  lemma SwappedIsPermutation(es: seq<Entry>, a: nat, b: nat)
    requires a < |es| && b < |es|
    ensures multiset(Swapped(es, a, b)) == multiset(es)
  {
    var fs := Swapped(es, a, b);
    forall e ensures multiset(fs)[e] == multiset(es)[e] {
      UpdateCount(es, a, es[b], e);
      UpdateCount(es[a := es[b]], b, es[a], e);
    }
  }

  lemma RegularAgrees(es: seq<Entry>)
    requires NaNFreeEntries(es) && forall i :: 0 <= i < |es| ==> RegularEntry(es[i])
    ensures EntriesAgree(es, es)
  {
    hide ValueEq, KeyMatches, ValueMatches, NaNFreeEntry, RegularEntry;
    forall i, j | 0 <= i < |es| && 0 <= j < |es|
      ensures KeyMatches(es[i], es[j]) <==> ValueEq(es[i].key, es[j].key)
      ensures ValueMatches(es[i], es[j]) <==> ValueEq(es[i].val, es[j].val)
    {
      GreedyEntryCorrect(es[i], es[j]);
    }
  }

  /** The order of a map's entries does not matter exactly if entries with equal keys have equal values. */
  lemma OrderIgnoredIff(es: seq<Entry>)
    requires NaNFreeEntries(es) && forall i :: 0 <= i < |es| ==> RegularEntry(es[i])
    ensures OrderIgnored(es) <==> KeysDetermineValues(es, es)
  {
    RegularAgrees(es);
    if OrderIgnored(es) {
      OrderIgnoredAcceptsSwaps(es);
      SwapsMeanSameValues(es);
    } else if KeysDetermineValues(es, es) {
      SameValuesMeanOrderIgnored(es);
    }
  }

  lemma SwapsMeanSameValues(es: seq<Entry>)
    requires NaNFreeEntries(es) && EntriesAgree(es, es) && AcceptsSwaps(es)
    ensures KeysDetermineValues(es, es)
  {
    hide ValueEq, EntriesAgree, AcceptsSwaps, NaNFreeEntries, EntryEq;
    forall i, j | 0 <= i < |es| && 0 <= j < |es| && ValueEq(es[i].key, es[j].key)
      ensures ValueEq(es[i].val, es[j].val)
    {
      EqualKeysMeanEqualEntries(es, i, j);
      EntryEqParts(es[i], es[j]);
    }
  }

  lemma SameValuesMeanOrderIgnored(es: seq<Entry>)
    requires NaNFreeEntries(es) && EntriesAgree(es, es) && KeysDetermineValues(es, es)
    ensures OrderIgnored(es)
  {
    hide GreedyMatch, NaNFreeEntries, EntriesAgree, KeysDetermineValues, Balanced;
    forall fs | multiset(fs) == multiset(es) ensures GreedyEq(Map(es), Map(fs)) {
      PermutedFacts(es, fs);
      NothingBalanced(es, fs);
      PermutedMatch(es, fs, 0, {});
    }
  }

  lemma NothingBalanced(es: seq<Entry>, fs: seq<Entry>)
    ensures Balanced(es, fs, 0, {})
  {
    forall k | 0 <= k < |es| ensures |WithKey(fs, {}, es[k].key)| == KeyCount(es[..0], es[k].key) {
      assert WithKey(fs, {}, es[k].key) == {};
      assert es[..0] == [];
    }
  }
}
