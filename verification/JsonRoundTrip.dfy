/**
 * What printing a value, then tokenising and decoding the text, gives back.
 *
 * The decoder leaves escape sequences as they are, so strings come back as they were
 * printed; values without escaped characters come back unchanged.
 */
module JsonRoundTrip {
  import opened Jsmn
  import opened JsmnInvariant
  import opened Json
  import opened JsonGrammar
  import opened JsonMeaning
  import opened JsonTokens
  import opened JsonDecode
  import opened JsonTexts

  /** No string of `v` has a character that is escaped, and no number reads as a keyword. */
  predicate Plain(v: Json) {
    match v
    case JsonNumber(lexeme) => lexeme == "" || lexeme[0] !in {'n', 't', 'f'}
    case JsonString(text) => NothingEscaped(text)
    case JsonArray(items) => forall i :: 0 <= i < |items| ==> Plain(items[i])
    case JsonObject(members) => forall i :: 0 <= i < |members| ==> Plain(members[i].value)
    case _ => true
  }

  predicate NothingEscaped(s: string) { forall i :: 0 <= i < |s| ==> Escape(s[i]) == [s[i]] }

  lemma {:induction false} EscapedIfPlain(s: string)
    ensures |Escaped(s)| >= |s|
    ensures |Escaped(s)| == |s| <==> NothingEscaped(s)
    ensures NothingEscaped(s) ==> Escaped(s) == s
  {
    hide Escape, Escaped, NothingEscaped;
    if s == "" {
      EscapedNothing();
    } else {
      EscapedSnoc(s);
      var front, c := s[..|s| - 1], s[|s| - 1];
      EscapedIfPlain(front);
      LastEscaped(front, c);
      EscapeLength(c);
      assert s == front + [c];
    }
  }

  lemma EscapedNothing()
    ensures Escaped("") == "" && NothingEscaped("")
  {
  }

  lemma LastEscaped(front: string, c: char)
    ensures NothingEscaped(front + [c]) <==> NothingEscaped(front) && |Escape(c)| == 1
    ensures Escape(c) == [c] <==> |Escape(c)| == 1
  {
    var s := front + [c];
    assert s[|front|] == c;
    forall i | 0 <= i < |front| && NothingEscaped(s) ensures Escape(front[i]) == [front[i]] {
      assert s[i] == front[i];
    }
  }

  /** Exactly the plain values are shown as themselves. */
  lemma {:induction false} ShownIfPlain(v: Json)
    ensures Shown(DocOf(v)) == v <==> Plain(v)
    decreases v
  {
    match v {
      case JsonString(text) => EscapedIfPlain(text);
      case JsonArray(items) =>
        forall i | 0 <= i < |items| ensures Shown(DocOf(items[i])) == items[i] <==> Plain(items[i]) {
          ShownIfPlain(items[i]);
        }
        var shown := ShownItems(DocsOf(items));
        assert shown == items <==> forall i :: 0 <= i < |items| ==> shown[i] == items[i];
      case JsonObject(members) =>
        forall i | 0 <= i < |members| ensures ShownField(FieldOf(members[i])) == members[i] <==> Plain(members[i].value) {
          ShownIfPlain(members[i].value);
        }
        var shown := ShownFields(FieldsOf(members));
        assert shown == members <==> forall i :: 0 <= i < |members| ==> shown[i] == members[i];
      case _ =>
    }
  }

  /** `r` stands for `v`, and all the strings it points to lie within [lo, hi). */
  ghost predicate Denotes(m: seq<char>, r: Ref, v: Json, lo: nat, hi: nat)
    decreases v
  {
    match v
    case JsonNull => r == NullRef
    case JsonTrue => r == TrueRef
    case JsonFalse => r == FalseRef
    case JsonNumber(lexeme) => r == NumberRef(lexeme)
    case JsonString(text) => r.StringRef? && HoldsCStr(m, r.at, text, lo, hi)
    case JsonArray(items) =>
      r.ArrayRef? && |r.items| == |items| && forall i :: 0 <= i < |items| ==> Denotes(m, r.items[i], items[i], lo, hi)
    case JsonObject(members) =>
      r.ObjectRef? && |r.members| == |members|
      && forall i :: 0 <= i < |members| ==> DenotesMember(m, r.members[i], members[i], lo, hi)
  }

  ghost predicate DenotesMember(m: seq<char>, r: RefMember, e: Member, lo: nat, hi: nat)
    decreases e
  {
    HoldsCStr(m, r.key, e.key, lo, hi) && Denotes(m, r.value, e.value, lo, hi)
  }

  /** A NUL-terminated string. */
  ghost predicate HoldsCStr(m: seq<char>, p: nat, s: string, lo: nat, hi: nat) {
    && lo <= p && p + |s| < hi <= |m|
    && HoldsText(m, p, s) && m[p + |s|] == '\0' && CString(s)
  }

  ghost predicate Same(m: seq<char>, m': seq<char>, lo: nat, hi: nat) {
    |m| == |m'| && forall i :: lo <= i < hi && i < |m| ==> m'[i] == m[i]
  }

  /** `m` and `m'` differ at most within [lo, hi). */
  ghost predicate SameOutside(m: seq<char>, m': seq<char>, lo: nat, hi: nat) {
    |m| == |m'| && forall i :: 0 <= i < |m| && !(lo <= i < hi) ==> m'[i] == m[i]
  }

  lemma CStrKept(m: seq<char>, m': seq<char>, p: nat, s: string, lo: nat, hi: nat, lo': nat, hi': nat)
    requires HoldsCStr(m, p, s, lo, hi) && Same(m, m', lo, hi) && lo' <= lo && hi <= hi' <= |m|
    ensures HoldsCStr(m', p, s, lo', hi')
  {
    assert m'[p..p + |s|] == m[p..p + |s|];
  }

  /** Writes elsewhere do not disturb a decoded value. */
  lemma {:induction false} DenotesKept(m: seq<char>, m': seq<char>, r: Ref, v: Json,
                                       lo: nat, hi: nat, lo': nat, hi': nat)
    requires Denotes(m, r, v, lo, hi) && Same(m, m', lo, hi) && lo' <= lo && hi <= hi' <= |m|
    ensures Denotes(m', r, v, lo', hi')
    decreases v
  {
    match v {
      case JsonString(text) => CStrKept(m, m', r.at, text, lo, hi, lo', hi');
      case JsonArray(items) =>
        forall i | 0 <= i < |items| ensures Denotes(m', r.items[i], items[i], lo', hi') {
          DenotesKept(m, m', r.items[i], items[i], lo, hi, lo', hi');
        }
      case JsonObject(members) =>
        forall i | 0 <= i < |members| ensures DenotesMember(m', r.members[i], members[i], lo', hi') {
          DenotesMemberKept(m, m', r.members[i], members[i], lo, hi, lo', hi');
        }
      case _ =>
    }
  }

  lemma {:induction false} DenotesMemberKept(m: seq<char>, m': seq<char>, r: RefMember, e: Member,
                                             lo: nat, hi: nat, lo': nat, hi': nat)
    requires DenotesMember(m, r, e, lo, hi) && Same(m, m', lo, hi) && lo' <= lo && hi <= hi' <= |m|
    ensures DenotesMember(m', r, e, lo', hi')
    decreases e
  {
    hide HoldsCStr;
    CStrKept(m, m', r.key, e.key, lo, hi, lo', hi');
    DenotesKept(m, m', r.value, e.value, lo, hi, lo', hi');
  }

  lemma {:induction false} DenotesResolves(m: seq<char>, r: Ref, v: Json, lo: nat, hi: nat)
    requires Denotes(m, r, v, lo, hi)
    ensures Resolve(m, r) == v
    decreases v
  {
    match v {
      case JsonString(text) => CStrIs(m, r.at, text);
      case JsonArray(items) =>
        forall i | 0 <= i < |items| ensures Resolve(m, r.items[i]) == items[i] {
          DenotesResolves(m, r.items[i], items[i], lo, hi);
        }
        assert Resolve(m, r).items == items;
      case JsonObject(members) =>
        forall i | 0 <= i < |members|
          ensures Member(CStr(m, r.members[i].key), Resolve(m, r.members[i].value)) == members[i]
        {
          MemberResolves(m, r.members[i], members[i], lo, hi);
        }
        assert Resolve(m, r).members == members;
      case _ =>
    }
  }

  lemma {:induction false} MemberResolves(m: seq<char>, r: RefMember, e: Member, lo: nat, hi: nat)
    requires DenotesMember(m, r, e, lo, hi)
    ensures CStr(m, r.key) == e.key && Resolve(m, r.value) == e.value
    decreases e
  {
    CStrIs(m, r.key, e.key);
    DenotesResolves(m, r.value, e.value, lo, hi);
  }

  // The decoder on the tokens of a text.

  ghost predicate ToksAt(toks: seq<Token>, i: nat, s: seq<Token>) {
    i + |s| <= |toks| && toks[i..i + |s|] == s
  }

  lemma SplitToks(toks: seq<Token>, i: nat, a: seq<Token>, b: seq<Token>)
    requires ToksAt(toks, i, a + b)
    ensures ToksAt(toks, i, a) && ToksAt(toks, i + |a|, b)
  {
    assert toks[i..i + |a|] == (a + b)[..|a|];
    assert toks[i + |a|..i + |a| + |b|] == (a + b)[|a|..];
  }

  /** The outcome `d` of decoding `n` tokens from token `i` on is `w`, and concerns [lo, hi) only. */
  ghost predicate DecodesAs(d: Decoded<Ref>, m: seq<char>, w: Json, i: nat, n: nat, lo: nat, hi: nat) {
    && d.Got? && d.next == i + n
    && SameOutside(m, d.m, lo, hi)
    && Denotes(d.m, d.value, w, lo, hi)
  }

  /** The outcome `d` of decoding the text `v` at `off`, from token `i` on. */
  ghost predicate Decodes(d: Decoded<Ref>, m: seq<char>, v: Doc, i: nat, off: nat) {
    DecodesAs(d, m, Shown(v), i, |Toks(v, off)|, off, off + |Render(v)|)
  }

  lemma DecodesWider(d: Decoded<Ref>, m: seq<char>, w: Json, i: nat, n: nat, lo: nat, hi: nat, lo': nat, hi': nat)
    requires DecodesAs(d, m, w, i, n, lo, hi) && lo' <= lo && hi <= hi' <= |m|
    ensures DecodesAs(d, m, w, i, n, lo', hi')
  {
    DenotesKept(d.m, d.m, d.value, w, lo, hi, lo', hi');
  }

  /** Numbers are terminated in place, so they must not end the memory. */
  ghost predicate HasRoom(m: seq<char>, v: Doc, off: nat) {
    v.core.Scalar? && Shown(v).JsonNumber? ==> off + |v.before| + |v.core.text| < |m|
  }

  lemma DecodePrimitiveText(m: seq<char>, toks: seq<Token>, i: nat, v: Doc, off: nat)
    requires v.core.Scalar? && Lexeme(v.core.text) && HoldsText(m, off, v.core.text)
    requires Shown(v).JsonNumber? ==> off + |v.core.text| < |m|
    requires ToksAt(toks, i, CoreToks(v.core, off))
    ensures DecodesAs(DecodeAt(m, toks, i), m, Shown(v), i, 1, off, off + |v.core.text|)
  {
    var s := v.core.text;
    var t := Token(Primitive, off, off + |s|, 0);
    assert toks[i..i + 1] == [t];
    assert toks[i] == toks[i..i + 1][0] == t;
    assert m[off] == m[off..off + |s|][0] == s[0];
    if Shown(v).JsonNumber? {
      var m' := m[t.end := '\0'];
      assert m'[off..off + |s|] == m[off..off + |s|];
      CStrIs(m', off, s);
    }
  }

  lemma DecodeString(m: seq<char>, toks: seq<Token>, i: nat, text: string, size: nat, off: nat)
    requires CString(text) && HoldsText(m, off, "\"" + text + "\"")
    requires ToksAt(toks, i, [Token(Str, off + 1, off + 1 + |text|, size)])
    ensures var d := DecodeAt(m, toks, i);
            && d == Got(StringRef(off + 1), i + 1, d.m)
            && SameOutside(m, d.m, off, off + |text| + 2)
            && HoldsCStr(d.m, off + 1, text, off, off + |text| + 2)
  {
    var t, s := Token(Str, off + 1, off + 1 + |text|, size), "\"" + text + "\"";
    assert toks[i..i + 1] == [t];
    assert toks[i] == toks[i..i + 1][0] == t;
    var m' := m[t.end := '\0'];
    assert s == "\"" + (text + "\"");
    SplitText(m, off, "\"", text + "\"");
    SplitText(m, off + 1, text, "\"");
    assert m'[off + 1..off + 1 + |text|] == m[off + 1..off + 1 + |text|];
  }

  lemma {:induction false} DecodeText(m: seq<char>, toks: seq<Token>, i: nat, v: Doc, off: nat)
    requires Tokenisable(v) && HoldsText(m, off, Render(v)) && HasRoom(m, v, off) && ToksAt(toks, i, Toks(v, off))
    ensures Decodes(DecodeAt(m, toks, i), m, v, i, off)
    decreases v
  {
    hide Tokenisable, HoldsText, Toks, CoreToks, Render, RenderCore, DecodeAt, DecodesAs, Shown;
    var p := off + |v.before|;
    CoreAt(m, off, v);
    TokensOfCore(v, off);
    DecodeCore(m, toks, i, v, p);
    DecodesWider(DecodeAt(m, toks, i), m, Shown(v), i, |CoreToks(v.core, p)|, p, p + |RenderCore(v.core)|, off, off + |Render(v)|);
  }

  lemma CoreAt(m: seq<char>, off: nat, v: Doc)
    requires HoldsText(m, off, Render(v))
    ensures HoldsText(m, off + |v.before|, RenderCore(v.core))
    ensures off + |v.before| + |RenderCore(v.core)| <= off + |Render(v)| <= |m|
  {
    hide RenderCore;
    SplitText(m, off, v.before + RenderCore(v.core), v.after);
    SplitText(m, off, v.before, RenderCore(v.core));
  }

  lemma DecodeCore(m: seq<char>, toks: seq<Token>, i: nat, v: Doc, off: nat)
    requires Tokenisable(v) && HoldsText(m, off, RenderCore(v.core)) && ToksAt(toks, i, CoreToks(v.core, off))
    requires v.core.Scalar? && Shown(v).JsonNumber? ==> off + |v.core.text| < |m|
    ensures DecodesAs(DecodeAt(m, toks, i), m, Shown(v), i, |CoreToks(v.core, off)|, off, off + |RenderCore(v.core)|)
    decreases v, 0
  {
    hide HoldsText, ToksAt, DecodeAt, DecodesAs, Shown;
    match v.core {
      case Scalar(_) => DecodePrimitiveText(m, toks, i, v, off);
      case Quoted(_) => DecodeQuoted(m, toks, i, v, off);
      case ListOf(items, _) => DecodeArrayText(m, toks, i, v, off);
      case ObjectOf(fields, _) => DecodeObjectText(m, toks, i, v, off);
    }
  }

  lemma DecodeQuoted(m: seq<char>, toks: seq<Token>, i: nat, v: Doc, off: nat)
    requires v.core.Quoted? && Quotable(v.core.raw) && HoldsText(m, off, RenderCore(v.core))
    requires ToksAt(toks, i, CoreToks(v.core, off))
    ensures DecodesAs(DecodeAt(m, toks, i), m, Shown(v), i, 1, off, off + |RenderCore(v.core)|)
  {
    hide StringEnd, DecodeAt;
    DecodeString(m, toks, i, v.core.raw, 0, off);
  }

  /** Where the elements of a container and their tokens are. */
  lemma ElementsAt(m: seq<char>, toks: seq<Token>, i: nat, off: nat, open: char, inner: string, rest: string, t: Token, ts: seq<Token>)
    requires HoldsText(m, off, [open] + (inner + rest)) && rest != "" && ToksAt(toks, i, [t] + ts)
    ensures HoldsText(m, off + 1, inner) && off + 1 + |inner| < |m|
    ensures ToksAt(toks, i + 1, ts) && i < |toks| && toks[i] == t
  {
    SplitText(m, off, [open], inner + rest);
    SplitText(m, off + 1, inner, rest);
    SplitToks(toks, i, [t], ts);
    assert toks[i] == toks[i..i + 1][0] == t;
  }

  lemma DecodeArrayText(m: seq<char>, toks: seq<Token>, i: nat, v: Doc, off: nat)
    requires v.core.ListOf? && forall k :: 0 <= k < |v.core.items| ==> Tokenisable(v.core.items[k])
    requires HoldsText(m, off, RenderCore(v.core)) && ToksAt(toks, i, CoreToks(v.core, off))
    ensures DecodesAs(DecodeAt(m, toks, i), m, Shown(v), i, |CoreToks(v.core, off)|, off, off + |RenderCore(v.core)|)
    decreases v.core.items, 2
  {
    hide RenderItems, ItemToks, DecodeItems, DecodeAt, Denotes, Tokenisable, ToksAt;
    var items, hi := v.core.items, off + |RenderCore(v.core)|;
    var t := Token(Array, off, hi, |items|);
    ElementsAt(m, toks, i, off, '[', RenderItems(items), v.core.blank + "]", t, ItemToks(items, off + 1));
    DecodeItemsText(m, toks, i + 1, items, off + 1);
    var d := DecodeItems(m, toks, i + 1, |items|);
    ContainerOutcome(m, toks, i);
    forall k | 0 <= k < |items| ensures Denotes(d.m, d.value[k], ShownItems(items)[k], off, hi) {
      DenotesKept(d.m, d.m, d.value[k], Shown(items[k]), off + 1, off + 1 + |RenderItems(items)|, off, hi);
    }
    DenotesArray(d.m, d.value, ShownItems(items), off, hi);
  }

  lemma ContainerOutcome(m: seq<char>, toks: seq<Token>, i: nat)
    requires i < |toks| && 0 <= toks[i].start < |m| && IsContainer(toks[i].kind)
    ensures toks[i].kind == Array ==>
              var d := DecodeItems(m, toks, i + 1, toks[i].size);
              d.Got? ==> DecodeAt(m, toks, i) == Got(ArrayRef(d.value), d.next, d.m)
    ensures toks[i].kind == Object ==>
              var d := DecodeMembers(m, toks, i + 1, toks[i].size);
              d.Got? ==> DecodeAt(m, toks, i) == Got(ObjectRef(d.value), d.next, d.m)
  {
  }

  lemma DenotesArray(m: seq<char>, refs: seq<Ref>, items: seq<Json>, lo: nat, hi: nat)
    requires |refs| == |items| && forall k :: 0 <= k < |items| ==> Denotes(m, refs[k], items[k], lo, hi)
    ensures Denotes(m, ArrayRef(refs), JsonArray(items), lo, hi)
  {
  }

  lemma DenotesObject(m: seq<char>, refs: seq<RefMember>, members: seq<Member>, lo: nat, hi: nat)
    requires |refs| == |members| && forall k :: 0 <= k < |members| ==> DenotesMember(m, refs[k], members[k], lo, hi)
    ensures Denotes(m, ObjectRef(refs), JsonObject(members), lo, hi)
  {
  }

  ghost predicate DecodesItems(d: Decoded<seq<Ref>>, m: seq<char>, items: seq<Doc>, i: nat, off: nat) {
    && d.Got? && d.next == i + |ItemToks(items, off)| && |d.value| == |items|
    && SameOutside(m, d.m, off, off + |RenderItems(items)|)
    && forall k :: 0 <= k < |items| ==> Denotes(d.m, d.value[k], Shown(items[k]), off, off + |RenderItems(items)|)
  }

  /** `off` is where the first item starts; a bracket follows the last. */
  lemma DecodeItemsText(m: seq<char>, toks: seq<Token>, i: nat, items: seq<Doc>, off: nat)
    requires forall k :: 0 <= k < |items| ==> Tokenisable(items[k])
    requires HoldsText(m, off, RenderItems(items)) && off + |RenderItems(items)| < |m|
    requires ToksAt(toks, i, ItemToks(items, off))
    ensures DecodesItems(DecodeItems(m, toks, i, |items|), m, items, i, off)
    decreases items, 1
  {
    hide Tokenisable, Render, RenderItems, Toks, ItemToks, DecodeItems, DecodesItems, LastItemAt;
    if items == [] {
      NoItemsDecoded(m, toks, i, off);
    } else {
      var front, last, at := items[..|items| - 1], items[|items| - 1], LastItemAt(items, off);
      ItemText(m, items, off);
      LastItemEnds(items, off);
      ItemToksSplit(items, off);
      SplitToks(toks, i, ItemToks(front, off), Toks(last, at));
      DecodeItemsText(m, toks, i, front, off);
      NextItemDecoded(m, toks, i, items, off);
    }
  }

  lemma NoItemsDecoded(m: seq<char>, toks: seq<Token>, i: nat, off: nat)
    requires i <= |toks|
    ensures DecodesItems(DecodeItems(m, toks, i, 0), m, [], i, off)
  {
  }

  /** The last item, once the items in front of it are decoded. */
  lemma NextItemDecoded(m: seq<char>, toks: seq<Token>, i: nat, items: seq<Doc>, off: nat)
    requires items != [] && i <= |toks| && Tokenisable(items[|items| - 1])
    requires HoldsText(m, off, RenderItems(items)) && off + |RenderItems(items)| < |m|
    requires DecodesItems(DecodeItems(m, toks, i, |items| - 1), m, items[..|items| - 1], i, off)
    requires ToksAt(toks, i + |ItemToks(items[..|items| - 1], off)|, Toks(items[|items| - 1], LastItemAt(items, off)))
    ensures DecodesItems(DecodeItems(m, toks, i, |items|), m, items, i, off)
    decreases items, 0
  {
    hide Tokenisable, Render, RenderItems, Toks, ItemToks, DecodeAt, Denotes, LastItemAt, ToksAt;
    var front, last, at := items[..|items| - 1], items[|items| - 1], LastItemAt(items, off);
    ItemText(m, items, off);
    LastItemEnds(items, off);
    var d := DecodeItems(m, toks, i, |front|);
    TextOutsideKept(m, d.m, off, off + |RenderItems(front)|, at, Render(last));
    RoomForValue(d.m, last, at);
    DecodeText(d.m, toks, d.next, last, at);
    ItemDecoded(d, DecodeAt(d.m, toks, d.next), m, items, i, off);
  }

  lemma LastItemEnds(items: seq<Doc>, off: nat)
    requires items != []
    ensures var front := items[..|items| - 1];
            off + |RenderItems(front)| <= LastItemAt(items, off)
            && LastItemAt(items, off) + |Render(items[|items| - 1])| == off + |RenderItems(items)|
  {
    hide Print;
  }

  lemma LastFieldEnds(members: seq<Field>, off: nat)
    requires members != []
    ensures var front := members[..|members| - 1];
            off + |RenderFields(front)| <= LastFieldAt(members, off)
            && LastFieldAt(members, off) + |RenderField(members[|members| - 1])| == off + |RenderFields(members)|
  {
    hide RenderField;
  }

  lemma SameOutsideTwice(m: seq<char>, m': seq<char>, m'': seq<char>, lo: nat, mid: nat, at: nat, hi: nat)
    requires SameOutside(m, m', lo, mid) && SameOutside(m', m'', at, hi) && lo <= mid <= at <= hi
    ensures SameOutside(m, m'', lo, hi) && |m| == |m'| == |m''|
  {
  }

  lemma ItemDecoded(d: Decoded<seq<Ref>>, e: Decoded<Ref>, m: seq<char>, items: seq<Doc>, i: nat, off: nat)
    requires items != [] && off + |RenderItems(items)| <= |m|
    requires DecodesItems(d, m, items[..|items| - 1], i, off)
    requires Decodes(e, d.m, items[|items| - 1], d.next, LastItemAt(items, off))
    ensures DecodesItems(Got(d.value + [e.value], e.next, e.m), m, items, i, off)
  {
    hide Render, RenderItems, Toks, ItemToks, Denotes, Shown, LastItemAt, SameOutside;
    var front, last, at := items[..|items| - 1], items[|items| - 1], LastItemAt(items, off);
    ItemToksSplit(items, off);
    LastItemEnds(items, off);
    var hi := off + |RenderItems(items)|;
    SameOutsideTwice(m, d.m, e.m, off, off + |RenderItems(front)|, at, hi);
    AllDenote(d.m, e.m, d.value, e.value, ShownItems(items), off, off + |RenderItems(front)|, at, hi);
  }

  /** The items decoded so far and the next one, which lies behind them. */
  lemma AllDenote(m: seq<char>, m': seq<char>, refs: seq<Ref>, r: Ref, items: seq<Json>,
                  lo: nat, mid: nat, at: nat, hi: nat)
    requires |items| == |refs| + 1 && lo <= mid <= at <= hi <= |m|
    requires SameOutside(m, m', at, hi)
    requires forall k :: 0 <= k < |refs| ==> Denotes(m, refs[k], items[k], lo, mid)
    requires Denotes(m', r, items[|refs|], at, hi)
    ensures forall k :: 0 <= k < |items| ==> Denotes(m', (refs + [r])[k], items[k], lo, hi)
  {
    hide Denotes;
    forall k | 0 <= k < |items| ensures Denotes(m', (refs + [r])[k], items[k], lo, hi) {
      if k < |refs| {
        DenotesKept(m, m', refs[k], items[k], lo, mid, lo, hi);
      } else {
        DenotesKept(m', m', r, items[k], at, hi, lo, hi);
      }
    }
  }

  lemma TextOutsideKept(m: seq<char>, m': seq<char>, lo: nat, hi: nat, at: nat, s: string)
    requires SameOutside(m, m', lo, hi) && hi <= at && HoldsText(m, at, s)
    ensures HoldsText(m', at, s)
  {
    assert m'[at..at + |s|] == m[at..at + |s|];
  }

  lemma DecodeObjectText(m: seq<char>, toks: seq<Token>, i: nat, v: Doc, off: nat)
    requires v.core.ObjectOf? && forall k :: 0 <= k < |v.core.fields| ==> TokenisableField(v.core.fields[k])
    requires HoldsText(m, off, RenderCore(v.core)) && ToksAt(toks, i, CoreToks(v.core, off))
    ensures DecodesAs(DecodeAt(m, toks, i), m, Shown(v), i, |CoreToks(v.core, off)|, off, off + |RenderCore(v.core)|)
    decreases v.core.fields, 2
  {
    hide RenderFields, FieldToks, DecodeMembers, DenotesMember, DecodeAt, Denotes, TokenisableField, ToksAt;
    var fields, hi := v.core.fields, off + |RenderCore(v.core)|;
    var t := Token(Object, off, hi, |fields|);
    ElementsAt(m, toks, i, off, '{', RenderFields(fields), v.core.blank + "}", t, FieldToks(fields, off + 1));
    DecodeFieldsText(m, toks, i + 1, fields, off + 1);
    var d := DecodeMembers(m, toks, i + 1, |fields|);
    ContainerOutcome(m, toks, i);
    forall k | 0 <= k < |fields| ensures DenotesMember(d.m, d.value[k], ShownFields(fields)[k], off, hi) {
      DenotesMemberKept(d.m, d.m, d.value[k], ShownField(fields[k]), off + 1, off + 1 + |RenderFields(fields)|, off, hi);
    }
    DenotesObject(d.m, d.value, ShownFields(fields), off, hi);
  }

  ghost predicate DecodesMembers(d: Decoded<seq<RefMember>>, m: seq<char>, fields: seq<Field>, i: nat, off: nat) {
    && d.Got? && d.next == i + |FieldToks(fields, off)| && |d.value| == |fields|
    && SameOutside(m, d.m, off, off + |RenderFields(fields)|)
    && forall k :: 0 <= k < |fields| ==>
         DenotesMember(d.m, d.value[k], ShownField(fields[k]), off, off + |RenderFields(fields)|)
  }

  ghost predicate DecodesPair(d: Decoded<RefMember>, m: seq<char>, e: Field, i: nat, off: nat) {
    && d.Got? && d.next == i + |PairToks(e, off)|
    && SameOutside(m, d.m, off, off + |RenderField(e)|)
    && DenotesMember(d.m, d.value, ShownField(e), off, off + |RenderField(e)|)
  }

  lemma KeyText(m: seq<char>, off: nat, f: Field)
    requires HoldsText(m, off, RenderKey(f))
    ensures HoldsText(m, off + |f.before|, "\"" + f.key + "\"") && |RenderKey(f)| >= |f.before| + |f.key| + 3
  {
    SplitText(m, off, f.before + ("\"" + f.key + "\""), f.colon + ":");
    SplitText(m, off, f.before, "\"" + f.key + "\"");
  }

  lemma DecodeFieldText(m: seq<char>, toks: seq<Token>, i: nat, e: Field, off: nat)
    requires TokenisableField(e)
    requires HoldsText(m, off, RenderField(e)) && off + |RenderField(e)| < |m|
    requires ToksAt(toks, i, PairToks(e, off))
    ensures DecodesPair(DecodePair(m, toks, i), m, e, i, off)
    decreases e
  {
    hide Tokenisable, Render, RenderKey, Toks, DecodeAt, Denotes, Shown, StringEnd, HoldsText, HoldsCStr;
    var p, at, hi := off + |e.before|, off + |RenderKey(e)|, off + |RenderField(e)|;
    var key := Token(Str, p + 1, p + 1 + |e.key|, 1);
    SplitText(m, off, RenderKey(e), Render(e.value));
    KeyText(m, off, e);
    SplitToks(toks, i, [key], Toks(e.value, at));
    DecodeString(m, toks, i, e.key, 1, p);
    var k := DecodeAt(m, toks, i);
    TextOutsideKept(m, k.m, p, p + |e.key| + 2, at, Render(e.value));
    RoomForValue(k.m, e.value, at);
    DecodeText(k.m, toks, i + 1, e.value, at);
    var d := DecodeAt(k.m, toks, i + 1);
    CStrKept(k.m, d.m, p + 1, e.key, p, p + |e.key| + 2, off, hi);
    DenotesKept(d.m, d.m, d.value, Shown(e.value), at, at + |Render(e.value)|, off, hi);
  }

  lemma RoomForValue(m: seq<char>, v: Doc, off: nat)
    requires off + |Render(v)| < |m|
    ensures HasRoom(m, v, off)
  {
  }

  lemma DecodeFieldsText(m: seq<char>, toks: seq<Token>, i: nat, fields: seq<Field>, off: nat)
    requires forall k :: 0 <= k < |fields| ==> TokenisableField(fields[k])
    requires HoldsText(m, off, RenderFields(fields)) && off + |RenderFields(fields)| < |m|
    requires ToksAt(toks, i, FieldToks(fields, off))
    ensures DecodesMembers(DecodeMembers(m, toks, i, |fields|), m, fields, i, off)
    decreases fields, 1
  {
    hide Tokenisable, Render, RenderField, RenderFields, PairToks, FieldToks, DecodeMembers, DecodesMembers, TokenisableField, LastFieldAt;
    if fields == [] {
      NoMembersDecoded(m, toks, i, off);
    } else {
      var front, last, at := fields[..|fields| - 1], fields[|fields| - 1], LastFieldAt(fields, off);
      LastFieldText(m, fields, off);
      FieldToksSplit(fields, off);
      SplitToks(toks, i, FieldToks(front, off), PairToks(last, at));
      DecodeFieldsText(m, toks, i, front, off);
      NextMemberDecoded(m, toks, i, fields, off);
    }
  }

  lemma NoMembersDecoded(m: seq<char>, toks: seq<Token>, i: nat, off: nat)
    requires i <= |toks|
    ensures DecodesMembers(DecodeMembers(m, toks, i, 0), m, [], i, off)
  {
  }

  /** The last member, once the fields in front of it are decoded. */
  lemma NextMemberDecoded(m: seq<char>, toks: seq<Token>, i: nat, fields: seq<Field>, off: nat)
    requires fields != [] && i <= |toks|
    requires TokenisableField(fields[|fields| - 1])
    requires HoldsText(m, off, RenderFields(fields)) && off + |RenderFields(fields)| < |m|
    requires DecodesMembers(DecodeMembers(m, toks, i, |fields| - 1), m, fields[..|fields| - 1], i, off)
    requires ToksAt(toks, i + |FieldToks(fields[..|fields| - 1], off)|,
                    PairToks(fields[|fields| - 1], LastFieldAt(fields, off)))
    ensures DecodesMembers(DecodeMembers(m, toks, i, |fields|), m, fields, i, off)
    decreases fields, 0
  {
    hide Tokenisable, Render, RenderField, RenderFields, PairToks, FieldToks, DecodePair, TokenisableField, DenotesMember;
    var front, last, at := fields[..|fields| - 1], fields[|fields| - 1], LastFieldAt(fields, off);
    LastFieldText(m, fields, off);
    var d := DecodeMembers(m, toks, i, |front|);
    TextOutsideKept(m, d.m, off, off + |RenderFields(front)|, at, RenderField(last));
    DecodeFieldText(d.m, toks, d.next, last, at);
    MemberDecoded(d, DecodePair(d.m, toks, d.next), m, fields, i, off);
  }

  lemma LastFieldText(m: seq<char>, fields: seq<Field>, off: nat)
    requires fields != [] && HoldsText(m, off, RenderFields(fields))
    ensures var at, last := LastFieldAt(fields, off), fields[|fields| - 1];
            && HoldsText(m, off, RenderFields(fields[..|fields| - 1]))
            && off + |RenderFields(fields[..|fields| - 1])| <= at
            && HoldsText(m, at, RenderField(last)) && at + |RenderField(last)| == off + |RenderFields(fields)|
  {
    FieldText(m, fields, off);
  }

  lemma MemberDecoded(d: Decoded<seq<RefMember>>, e: Decoded<RefMember>, m: seq<char>, fields: seq<Field>,
                      i: nat, off: nat)
    requires fields != [] && off + |RenderFields(fields)| <= |m|
    requires DecodesMembers(d, m, fields[..|fields| - 1], i, off)
    requires DecodesPair(e, d.m, fields[|fields| - 1], d.next, LastFieldAt(fields, off))
    ensures DecodesMembers(Got(d.value + [e.value], e.next, e.m), m, fields, i, off)
  {
    hide RenderField, RenderFields, PairToks, FieldToks, DenotesMember, ShownField, LastFieldAt, SameOutside;
    var front, last, at := fields[..|fields| - 1], fields[|fields| - 1], LastFieldAt(fields, off);
    FieldToksSplit(fields, off);
    LastFieldEnds(fields, off);
    var hi := off + |RenderFields(fields)|;
    SameOutsideTwice(m, d.m, e.m, off, off + |RenderFields(front)|, at, hi);
    AllMembersDenote(d.m, e.m, d.value, e.value, ShownFields(fields), off, off + |RenderFields(front)|, at, hi);
  }

  lemma AllMembersDenote(m: seq<char>, m': seq<char>, refs: seq<RefMember>, r: RefMember, fields: seq<Member>,
                         lo: nat, mid: nat, at: nat, hi: nat)
    requires |fields| == |refs| + 1 && lo <= mid <= at <= hi <= |m|
    requires SameOutside(m, m', at, hi)
    requires forall k :: 0 <= k < |refs| ==> DenotesMember(m, refs[k], fields[k], lo, mid)
    requires DenotesMember(m', r, fields[|refs|], at, hi)
    ensures forall k :: 0 <= k < |fields| ==> DenotesMember(m', (refs + [r])[k], fields[k], lo, hi)
  {
    hide DenotesMember;
    forall k | 0 <= k < |fields| ensures DenotesMember(m', (refs + [r])[k], fields[k], lo, hi) {
      if k < |refs| {
        DenotesMemberKept(m, m', refs[k], fields[k], lo, mid, lo, hi);
      } else {
        DenotesMemberKept(m', m', r, fields[k], at, hi, lo, hi);
      }
    }
  }

  /**
   * Decoding a text. `m` is memory that starts with the text `v`; only a number at the end of
   * the memory needs a byte behind it. If the token list is long enough for the tokens of
   * `v`, the message decodes to `Shown(v)` and uses up exactly those tokens; otherwise it is
   * rejected.
   */
  lemma DecodesAsShown(m: seq<char>, v: Doc)
    requires Tokenisable(v) && HoldsText(m, 0, Render(v)) && HasRoom(m, v, 0)
    ensures var d := DecodeJson(m, |Render(v)|);
            if |Toks(v, 0)| <= TOKENS
            then d.Got? && Resolve(d.m, d.value) == Shown(v)
                 && d.next == |Toks(v, 0)| == Tokenise(Render(v), TOKENS, INIT).code
            else d == Bad(m)
  {
    hide Toks, Render, DecodeAt, Resolve, Tokenise, Shown;
    var s, toks := Render(v), Toks(v, 0);
    assert m[..|s|] == m[0..|s|] == s;
    assert HoldsText(s, 0, s) by { assert s[0..|s|] == s; }
    if |toks| <= TOKENS {
      TextTokenises(s, TOKENS, v);
      assert ToksAt(Padded(toks), 0, toks);
      DecodeText(m, Padded(toks), 0, v, 0);
      var d := DecodeAt(m, Padded(toks), 0);
      DenotesResolves(d.m, d.value, Shown(v), 0, |s|);
    } else {
      TextTokenises(s, |toks|, v);
      DryRunPredictsTokens(s, |toks|);
      DryRunPredictsTokens(s, TOKENS);
      TokeniseKeepsForest(s, TOKENS, INIT);
    }
  }

  /**
   * Every JSON text, blanks included, that has room decodes to its value if and only if it
   * has at most 128 tokens and no escape sequence.
   */
  lemma JsonTextDecodesIff(m: seq<char>, v: Doc)
    requires Grammatical(v) && HoldsText(m, 0, Render(v)) && HasRoom(m, v, 0)
    ensures var d := DecodeJson(m, |Render(v)|);
            && (d.Got? <==> |Toks(v, 0)| <= TOKENS)
            && (d.Got? && Represents(v, Resolve(d.m, d.value)) <==> |Toks(v, 0)| <= TOKENS && Escapeless(v))
  {
    hide Toks, Render, DecodeJson, Resolve, Tokenise, Shown, Represents, Grammatical, Tokenisable, Escapeless;
    GrammaticalIsTokenisable(v);
    DecodesAsShown(m, v);
    ShownMeansIff(v);
  }

  /** The numbers of `v` print as lexemes. */
  predicate Lexical(v: Json) {
    match v
    case JsonNumber(lexeme) => Lexeme(lexeme)
    case JsonArray(items) => forall i :: 0 <= i < |items| ==> Lexical(items[i])
    case JsonObject(members) => forall i :: 0 <= i < |members| ==> Lexical(members[i].value)
    case _ => true
  }

  lemma {:induction false} QuotableIsLegible(v: Json)
    requires Lexical(v) && QuotableTexts(v)
    ensures Legible(v)
    decreases v
  {
    hide Quotable;
    match v {
      case JsonString(text) => QuotableIsCString(text);
      case JsonArray(items) =>
        forall i | 0 <= i < |items| ensures Legible(items[i]) { QuotableIsLegible(items[i]); }
      case JsonObject(members) =>
        forall i | 0 <= i < |members| ensures LegibleMember(members[i]) { QuotableIsLegible(members[i].value); }
      case _ =>
    }
  }

  lemma QuotableIsCString(q: string)
    requires Quotable(q)
    ensures CString(q)
  {
  }

  /**
   * Exactly those values survive the round trip that fit the token list, whose texts and
   * keys can stand between quotes, and where nothing is escaped.
   */
  lemma RoundTripsIff(m: seq<char>, v: Json)
    requires Lexical(v) && HoldsText(m, 0, Print(v)) && HasRoom(m, DocOf(v), 0)
    ensures var d := DecodeJson(m, |Print(v)|);
            (d.Got? && Resolve(d.m, d.value) == v) <==> (QuotableTexts(v) && Plain(v) && |Toks(DocOf(v), 0)| <= TOKENS)
  {
    hide Toks, Print, Render, DocOf, DecodeJson, Resolve, Tokenise, Shown, Lexical, Legible, Tokenisable, Plain, QuotableTexts;
    PrintIsRender(v);
    if QuotableTexts(v) {
      QuotableIsLegible(v);
      LegibleIsTokenisable(v);
      DecodesAsShown(m, DocOf(v));
      ShownIfPlain(v);
    } else if DecodeJson(m, |Print(v)|).Got? {
      DecodedTextsAreQuotable(m, |Print(v)|);
    }
  }

  /** A quote is printed like a tab, so no decoder could tell the two values apart. */
  lemma QuoteReadsAsTab()
    ensures Print(JsonString("\"")) == Print(JsonString("\t")) == "\"\\t\""
    ensures !Plain(JsonString("\"")) && Legible(JsonString("\""))
  {
    assert Escaped("\"") == Escaped("") + Escape('\"') && Escaped("\t") == Escaped("") + Escape('\t');
    assert Escape("\""[0]) != ['\"'];
  }
}
