/**
 * The strings and keys that come out of the decoder, whatever the message: each is the text
 * between the quotes of a token, undisturbed by the NULs written for the others.
 */
module JsonTexts {
  import opened Jsmn
  import opened JsmnInvariant
  import opened Json
  import opened JsonGrammar
  import opened JsonTokens
  import opened JsonDecode

  /** All strings and keys of `v` can stand between quotes as they are. */
  predicate QuotableTexts(v: Json) {
    match v
    case JsonString(text) => Quotable(text)
    case JsonArray(items) => forall i :: 0 <= i < |items| ==> QuotableTexts(items[i])
    case JsonObject(members) =>
      forall i :: 0 <= i < |members| ==> Quotable(members[i].key) && QuotableTexts(members[i].value)
    case _ => true
  }

  lemma {:induction false} CStrIs(m: seq<char>, p: nat, s: string)
    requires HoldsText(m, p, s) && CString(s) && p + |s| < |m| && m[p + |s|] == '\0'
    ensures CStr(m, p) == s
    decreases |s|
  {
    if s != "" {
      assert m[p] == m[p..p + |s|][0];
      assert m[p + 1..p + 1 + |s[1..]|] == m[p..p + |s|][1..];
      CStrIs(m, p + 1, s[1..]);
    }
  }

  // What lies between the quotes of a string token is quotable.

  lemma {:induction false} HexFromOutside(js: seq<char>, p: nat, s: string, i: nat, n: nat)
    requires HoldsText(js, p, s) && i <= |s| && HexEnd(js, p + i, n).At? && HexEnd(js, p + i, n).pos < p + |s|
    ensures HexEnd(s, i, n) == At(HexEnd(js, p + i, n).pos - p)
    decreases n
  {
    TextChars(js, p, s);
    if n != 0 && i < |s| && s[i] != '\0' && js[p + i] == s[i] {
      HexFromOutside(js, p, s, i + 1, n - 1);
    }
  }

  /** The converse of `ScanIsLocal`. */
  lemma {:induction false} ScanFromOutside(js: seq<char>, p: nat, q: string, i: nat)
    requires HoldsText(js, p, q + "\"") && i <= |q| && StringEnd(js, p + i) == At(p + |q|)
    ensures StringEnd(q + "\"", i) == At(|q|)
    decreases |q| - i
  {
    hide HexEnd;
    var s := q + "\"";
    TextChars(js, p, s);
    assert js[p + i] == s[i];
    if s[i] == '\\' {
      assert js[p + (i + 1)] == s[i + 1];
      if s[i + 1] == 'u' {
        HexFromOutside(js, p, s, i + 2, 4);
        ScanFromOutside(js, p, q, HexEnd(js, p + (i + 2), 4).pos - p);
      } else {
        ScanFromOutside(js, p, q, i + 2);
      }
    } else if s[i] != '\"' {
      ScanFromOutside(js, p, q, i + 1);
    }
  }

  lemma {:induction false} HexHasNoNul(js: seq<char>, p: nat, n: nat, k: nat)
    requires p <= k <= |js| && HexEnd(js, p, n).At? && k < HexEnd(js, p, n).pos
    ensures js[k] != '\0'
    decreases n
  {
    if p < k {
      HexHasNoNul(js, p + 1, n - 1, k);
    }
  }

  lemma {:induction false} ScanHasNoNul(js: seq<char>, p: nat, k: nat)
    requires p <= k <= |js| && StringEnd(js, p).At? && k < StringEnd(js, p).pos
    ensures js[k] != '\0'
    decreases |js| - p
  {
    hide HexEnd;
    if js[p] == '\\' {
      if js[p + 1] == 'u' {
        var h := HexEnd(js, p + 2, 4);
        if h.pos <= k {
          ScanHasNoNul(js, h.pos, k);
        } else if p + 2 <= k {
          HexHasNoNul(js, p + 2, 4, k);
        }
      } else if p + 2 <= k {
        ScanHasNoNul(js, p + 2, k);
      }
    } else if p < k {
      ScanHasNoNul(js, p + 1, k);
    }
  }

  lemma TextIsQuotable(js: seq<char>, p: nat, e: nat)
    requires p <= e <= |js| && StringEnd(js, p) == At(e)
    ensures Quotable(js[p..e])
  {
    hide StringEnd;
    var q := js[p..e];
    assert js[p..e + 1] == q + "\"";
    forall i | 0 <= i < |q| ensures q[i] != '\0' { ScanHasNoNul(js, p, p + i); }
    ScanFromOutside(js, p, q, 0);
  }

  /** A string ends at the first quote that no escape sequence takes; what is in front of it follows the grammar. */
  lemma StringEndIff(js: seq<char>, p: nat, e: nat)
    requires p <= |js|
    ensures StringEnd(js, p) == At(e) <==>
            p <= e < |js| && js[e] == '\"' && StringChars(js[p..e], FIRST_READ)
  {
    if p <= e < |js| && js[e] == '\"' {
      var q := js[p..e];
      QuotableIff(q);
      assert js[p..e + 1] == q + "\"";
      hide StringEnd, StringChars;
      if StringChars(q, FIRST_READ) {
        ScanIsLocal(js, p, q, 0);
      } else if StringEnd(js, p) == At(e) {
        TextIsQuotable(js, p, e);
      }
    }
  }

  // What the decoder writes and returns.

  predicate StringToken(toks: seq<Token>, k: nat, hi: nat) {
    k < hi <= |toks| && toks[k].kind == Str && 0 <= toks[k].start
  }

  /** `m` is `m0` but for NULs at the ends of strings among the first `hi` tokens. */
  ghost predicate Marked(m0: seq<char>, m: seq<char>, toks: seq<Token>, hi: nat) {
    |m| == |m0| && forall p :: 0 <= p < |m| && m[p] != m0[p] ==> MarkedAt(m, toks, hi, p)
  }

  ghost predicate MarkedAt(m: seq<char>, toks: seq<Token>, hi: nat, p: nat)
    requires p < |m|
  {
    m[p] == '\0' && exists k: nat :: StringToken(toks, k, hi) && toks[k].end == p
  }

  /** There is a string token at `p` whose end is marked. */
  ghost predicate TextAt(m: seq<char>, toks: seq<Token>, hi: nat, p: nat) {
    exists k: nat :: StringToken(toks, k, hi) && toks[k].start == p && 0 <= toks[k].end < |m| && m[toks[k].end] == '\0'
  }

  ghost predicate TextsAt(m: seq<char>, toks: seq<Token>, hi: nat, r: Ref) {
    match r
    case StringRef(p) => TextAt(m, toks, hi, p)
    case ArrayRef(items) => forall i :: 0 <= i < |items| ==> TextsAt(m, toks, hi, items[i])
    case ObjectRef(members) => forall i :: 0 <= i < |members| ==> MemberTextsAt(m, toks, hi, members[i])
    case _ => true
  }

  ghost predicate MemberTextsAt(m: seq<char>, toks: seq<Token>, hi: nat, e: RefMember) {
    TextAt(m, toks, hi, e.key) && TextsAt(m, toks, hi, e.value)
  }

  /** NULs stay. */
  ghost predicate NulsKept(m: seq<char>, m': seq<char>) {
    |m| == |m'| && forall p :: 0 <= p < |m| && m[p] == '\0' ==> m'[p] == '\0'
  }

  lemma {:induction false} TextsKept(m: seq<char>, m': seq<char>, toks: seq<Token>, hi: nat, hi': nat, r: Ref)
    requires TextsAt(m, toks, hi, r) && NulsKept(m, m') && hi <= hi' <= |toks|
    ensures TextsAt(m', toks, hi', r)
    decreases r
  {
    match r {
      case StringRef(p) => TextKept(m, m', toks, hi, hi', p);
      case ArrayRef(items) =>
        forall i | 0 <= i < |items| ensures TextsAt(m', toks, hi', items[i]) {
          TextsKept(m, m', toks, hi, hi', items[i]);
        }
      case ObjectRef(members) =>
        forall i | 0 <= i < |members| ensures MemberTextsAt(m', toks, hi', members[i]) {
          MemberTextsKept(m, m', toks, hi, hi', members[i]);
        }
      case _ =>
    }
  }

  lemma TextKept(m: seq<char>, m': seq<char>, toks: seq<Token>, hi: nat, hi': nat, p: nat)
    requires TextAt(m, toks, hi, p) && NulsKept(m, m') && hi <= hi' <= |toks|
    ensures TextAt(m', toks, hi', p)
  {
    var k: nat :| StringToken(toks, k, hi) && toks[k].start == p && 0 <= toks[k].end < |m| && m[toks[k].end] == '\0';
    assert StringToken(toks, k, hi');
  }

  lemma {:induction false} MemberTextsKept(m: seq<char>, m': seq<char>, toks: seq<Token>, hi: nat, hi': nat, e: RefMember)
    requires MemberTextsAt(m, toks, hi, e) && NulsKept(m, m') && hi <= hi' <= |toks|
    ensures MemberTextsAt(m', toks, hi', e)
    decreases e
  {
    hide TextAt, NulsKept;
    TextKept(m, m', toks, hi, hi', e.key);
    TextsKept(m, m', toks, hi, hi', e.value);
  }

  lemma MarkedMore(m0: seq<char>, m: seq<char>, toks: seq<Token>, hi: nat, hi': nat)
    requires Marked(m0, m, toks, hi) && hi <= hi' <= |toks|
    ensures Marked(m0, m, toks, hi')
  {
    forall p | 0 <= p < |m| && m[p] != m0[p] ensures MarkedAt(m, toks, hi', p) {
      assert MarkedAt(m, toks, hi, p);
      var k: nat :| StringToken(toks, k, hi) && toks[k].end == p;
      assert StringToken(toks, k, hi');
    }
  }

  /** Writing the NUL behind string token `i`. */
  lemma MarkOne(m0: seq<char>, m: seq<char>, toks: seq<Token>, i: nat)
    requires Marked(m0, m, toks, i) && StringToken(toks, i, i + 1) && 0 <= toks[i].end < |m|
    ensures var m' := m[toks[i].end := '\0'];
            Marked(m0, m', toks, i + 1) && NulsKept(m, m') && TextAt(m', toks, i + 1, toks[i].start)
  {
    MarkedMore(m0, m, toks, i, i + 1);
    var m' := m[toks[i].end := '\0'];
    forall p | 0 <= p < |m'| && m'[p] != m0[p] ensures MarkedAt(m', toks, i + 1, p) {
      if p == toks[i].end {
        assert StringToken(toks, i, i + 1);
      } else {
        assert MarkedAt(m, toks, i + 1, p);
        var k: nat :| StringToken(toks, k, i + 1) && toks[k].end == p;
      }
    }
  }

  /** From `m` on, where only tokens before `i` are marked. */
  lemma {:induction false} DecodeMarks(m0: seq<char>, m: seq<char>, toks: seq<Token>, i: nat)
    requires i <= |toks| && Marked(m0, m, toks, i) && DecodeAt(m, toks, i).Got?
    ensures var d := DecodeAt(m, toks, i);
            Marked(m0, d.m, toks, d.next) && NulsKept(m, d.m) && TextsAt(d.m, toks, d.next, d.value)
    decreases |toks| - i, 0
  {
    hide Marked, NulsKept, TextAt, DecodeItems, DecodeMembers, MemberTextsAt;
    var t := toks[i];
    if t.kind == Primitive {
      SameNuls(m);
      MarkedMore(m0, m, toks, i, i + 1);
    } else if t.kind == Str {
      MarkOne(m0, m, toks, i);
    } else if t.kind == Array {
      MarkedMore(m0, m, toks, i, i + 1);
      ItemsMark(m0, m, toks, i + 1, t.size);
    } else {
      MarkedMore(m0, m, toks, i, i + 1);
      MembersMark(m0, m, toks, i + 1, t.size);
    }
  }

  lemma SameNuls(m: seq<char>)
    ensures NulsKept(m, m)
  {
  }

  lemma NulsKeptTwice(m: seq<char>, m': seq<char>, m'': seq<char>)
    requires NulsKept(m, m') && NulsKept(m', m'')
    ensures NulsKept(m, m'')
  {
  }

  lemma {:induction false} ItemsMark(m0: seq<char>, m: seq<char>, toks: seq<Token>, i: nat, k: nat)
    requires i <= |toks| && Marked(m0, m, toks, i) && DecodeItems(m, toks, i, k).Got?
    ensures var d := DecodeItems(m, toks, i, k);
            Marked(m0, d.m, toks, d.next) && NulsKept(m, d.m)
            && forall l :: 0 <= l < k ==> TextsAt(d.m, toks, d.next, d.value[l])
    decreases |toks| - i, k + 1
  {
    hide Marked, NulsKept, TextsAt, DecodeAt;
    SameNuls(m);
    if k > 0 {
      ItemsMark(m0, m, toks, i, k - 1);
      var d := DecodeItems(m, toks, i, k - 1);
      DecodeMarks(m0, d.m, toks, d.next);
      var e := DecodeAt(d.m, toks, d.next);
      NulsKeptTwice(m, d.m, e.m);
      forall l | 0 <= l < k - 1 ensures TextsAt(e.m, toks, e.next, d.value[l]) {
        TextsKept(d.m, e.m, toks, d.next, e.next, d.value[l]);
      }
    }
  }

  lemma {:induction false} MembersMark(m0: seq<char>, m: seq<char>, toks: seq<Token>, i: nat, k: nat)
    requires i <= |toks| && Marked(m0, m, toks, i) && DecodeMembers(m, toks, i, k).Got?
    ensures var d := DecodeMembers(m, toks, i, k);
            Marked(m0, d.m, toks, d.next) && NulsKept(m, d.m)
            && forall l :: 0 <= l < k ==> MemberTextsAt(d.m, toks, d.next, d.value[l])
    decreases |toks| - i, k + 2
  {
    hide Marked, NulsKept, MemberTextsAt, DecodePair;
    SameNuls(m);
    if k > 0 {
      MembersMark(m0, m, toks, i, k - 1);
      var d := DecodeMembers(m, toks, i, k - 1);
      PairMarks(m0, d.m, toks, d.next);
      var e := DecodePair(d.m, toks, d.next);
      NulsKeptTwice(m, d.m, e.m);
      forall l | 0 <= l < k - 1 ensures MemberTextsAt(e.m, toks, e.next, d.value[l]) {
        MemberTextsKept(d.m, e.m, toks, d.next, e.next, d.value[l]);
      }
    }
  }

  lemma {:induction false} PairMarks(m0: seq<char>, m: seq<char>, toks: seq<Token>, i: nat)
    requires i <= |toks| && Marked(m0, m, toks, i) && DecodePair(m, toks, i).Got?
    ensures var d := DecodePair(m, toks, i);
            Marked(m0, d.m, toks, d.next) && NulsKept(m, d.m) && MemberTextsAt(d.m, toks, d.next, d.value)
    decreases |toks| - i, 1
  {
    hide Marked, NulsKept, TextAt, DecodeAt;
    DecodeMarks(m0, m, toks, i);
    var key := DecodeAt(m, toks, i);
    DecodeMarks(m0, key.m, toks, key.next);
    var e := DecodeAt(key.m, toks, key.next);
    NulsKeptTwice(m, key.m, e.m);
    TextKept(key.m, e.m, toks, key.next, e.next, key.value.at);
  }

  // Reading the marked texts.

  /** The tokens of a successful parse of `js`, and unused ones. */
  ghost predicate Tokens(js: seq<char>, toks: seq<Token>) {
    && (forall k :: 0 <= k < |toks| && toks[k].kind == Str ==>
          0 <= toks[k].start <= toks[k].end < |js| && StringEnd(js, toks[k].start) == At(toks[k].end))
    && (forall j, k :: 0 <= j < k < |toks| && toks[j].kind == Str && toks[k].kind == Str ==>
          toks[j].end <= toks[k].start)
  }

  lemma ParsedTokens(js: seq<char>)
    requires Tokenise(js, TOKENS, INIT).code >= 0
    ensures var toks := Tokenise(js, TOKENS, INIT).st.toks; |toks| <= TOKENS && Tokens(js, Padded(toks))
  {
    hide Tokenise, StringEnd;
    ParsedTokensAreNested(js, TOKENS);
    var toks := Tokenise(js, TOKENS, INIT).st.toks;
    forall k | 0 <= k < |toks| && toks[k].kind == Str
      ensures 0 <= toks[k].start <= toks[k].end < |js| && StringEnd(js, toks[k].start) == At(toks[k].end)
    {
      assert TokenFits(js, toks[k], |js|);
    }
    forall j, k | 0 <= j < k < |toks| && toks[j].kind == Str ensures toks[j].end <= toks[k].start {
      assert NestedOrDisjoint(toks[j], toks[k]);
    }
  }

  /** No NUL was written into the text of another string. */
  lemma TextIsUndisturbed(m0: seq<char>, m: seq<char>, size: nat, toks: seq<Token>, hi: nat, k: nat, p: nat)
    requires size <= |m0| && Tokens(m0[..size], toks) && Marked(m0, m, toks, hi)
    requires StringToken(toks, k, hi) && toks[k].start <= p < toks[k].end
    ensures m[p] == m0[p]
  {
    hide StringEnd;
    if m[p] != m0[p] {
      assert MarkedAt(m, toks, hi, p);
      var j: nat :| StringToken(toks, j, hi) && toks[j].end == p;
      assert StringEnd(m0[..size], toks[j].start) == At(toks[j].end);
      QuoteEndsScan(m0[..size], toks[k].start, p);
    }
  }

  lemma QuoteEndsScan(js: seq<char>, p: nat, e: nat)
    requires p == e < |js| && js[e] == '\"'
    ensures StringEnd(js, p) == At(e)
  {
  }

  lemma TextReadsBack(m0: seq<char>, m: seq<char>, size: nat, toks: seq<Token>, hi: nat, p: nat)
    requires size <= |m0| && Tokens(m0[..size], toks) && Marked(m0, m, toks, hi) && TextAt(m, toks, hi, p)
    ensures Quotable(CStr(m, p))
  {
    hide StringEnd;
    var k: nat :| StringToken(toks, k, hi) && toks[k].start == p && 0 <= toks[k].end < |m| && m[toks[k].end] == '\0';
    var e := toks[k].end;
    TextIsQuotable(m0[..size], p, e);
    forall i | p <= i < e ensures m[i] == m0[i] { TextIsUndisturbed(m0, m, size, toks, hi, k, i); }
    assert m[p..e] == m0[..size][p..e];
    CStrIs(m, p, m[p..e]);
  }

  lemma {:induction false} TextsReadBack(m0: seq<char>, m: seq<char>, size: nat, toks: seq<Token>, hi: nat, r: Ref)
    requires size <= |m0| && Tokens(m0[..size], toks) && Marked(m0, m, toks, hi) && TextsAt(m, toks, hi, r)
    ensures QuotableTexts(Resolve(m, r))
    decreases r
  {
    hide Tokens, Marked, TextAt, Quotable, CStr;
    match r {
      case StringRef(p) => TextReadsBack(m0, m, size, toks, hi, p);
      case ArrayRef(items) =>
        forall i | 0 <= i < |items| ensures QuotableTexts(Resolve(m, items[i])) {
          TextsReadBack(m0, m, size, toks, hi, items[i]);
        }
      case ObjectRef(members) =>
        forall i | 0 <= i < |members|
          ensures Quotable(CStr(m, members[i].key)) && QuotableTexts(Resolve(m, members[i].value))
        {
          MemberReadsBack(m0, m, size, toks, hi, members[i]);
        }
      case _ =>
    }
  }

  lemma {:induction false} MemberReadsBack(m0: seq<char>, m: seq<char>, size: nat, toks: seq<Token>, hi: nat, e: RefMember)
    requires size <= |m0| && Tokens(m0[..size], toks) && Marked(m0, m, toks, hi) && MemberTextsAt(m, toks, hi, e)
    ensures Quotable(CStr(m, e.key)) && QuotableTexts(Resolve(m, e.value))
    decreases e
  {
    hide Tokens, Marked, TextAt, Quotable, CStr;
    TextReadsBack(m0, m, size, toks, hi, e.key);
    TextsReadBack(m0, m, size, toks, hi, e.value);
  }

  /** Whatever the message, every string and key of the decoded value can stand between quotes. */
  lemma DecodedTextsAreQuotable(m: seq<char>, size: nat)
    requires size <= |m| && DecodeJson(m, size).Got?
    ensures var d := DecodeJson(m, size); QuotableTexts(Resolve(d.m, d.value))
  {
    hide Tokenise, DecodeAt, Tokens, Resolve, QuotableTexts;
    ParsedTokens(m[..size]);
    var toks := Padded(Tokenise(m[..size], TOKENS, INIT).st.toks);
    DecodeMarks(m, m, toks, 0);
    var d := DecodeAt(m, toks, 0);
    TextsReadBack(m, d.m, size, toks, d.next, d.value);
  }
}
