/**
 * The tokens of a JSON text.
 *
 * Reading a text of the grammar, with whatever blanks, the tokeniser appends exactly the
 * tokens of its value in preorder, with `size` counting the children.
 */
module JsonTokens {
  import opened Jsmn
  import opened JsonGrammar

  // The tokens of a text at `off`.

  function Toks(v: Doc, off: nat): seq<Token> { CoreToks(v.core, off + |v.before|) }

  function CoreToks(c: Core, off: nat): seq<Token> {
    match c
    case Scalar(text) => [Token(Primitive, off, off + |text|, 0)]
    case Quoted(raw) => [Token(Str, off + 1, off + 1 + |raw|, 0)]
    case ListOf(items, _) => [Token(Array, off, off + |RenderCore(c)|, |items|)] + ItemToks(items, off + 1)
    case ObjectOf(fields, _) => [Token(Object, off, off + |RenderCore(c)|, |fields|)] + FieldToks(fields, off + 1)
  }

  predicate Container(c: Core) { c.ListOf? || c.ObjectOf? }

  function ItemToks(items: seq<Doc>, off: nat): seq<Token> {
    if items == [] then []
    else ItemToks(items[..|items| - 1], off) + Toks(items[|items| - 1], LastItemAt(items, off))
  }

  function FieldToks(fields: seq<Field>, off: nat): seq<Token> {
    if fields == [] then []
    else FieldToks(fields[..|fields| - 1], off) + PairToks(fields[|fields| - 1], LastFieldAt(fields, off))
  }

  function PairToks(e: Field, off: nat): seq<Token> {
    [Token(Str, off + |e.before| + 1, off + |e.before| + 1 + |e.key|, 1)] + Toks(e.value, off + |RenderKey(e)|)
  }

  /** Where the last item starts when the first starts at `off`. */
  function LastItemAt(items: seq<Doc>, off: nat): nat
    requires items != []
  {
    off + |RenderItems(items[..|items| - 1])| + |Separator(|items| - 1)|
  }

  function LastFieldAt(fields: seq<Field>, off: nat): nat
    requires fields != []
  {
    off + |RenderFields(fields[..|fields| - 1])| + |Separator(|fields| - 1)|
  }

  ghost predicate Closed(toks: seq<Token>) { forall i :: 0 <= i < |toks| ==> !Open(toks[i]) }

  lemma {:induction false} ToksClosed(v: Doc, off: nat)
    ensures Closed(Toks(v, off))
    decreases v
  {
    match v.core {
      case ListOf(items, _) => ItemToksClosed(items, off + |v.before| + 1);
      case ObjectOf(fields, _) => FieldToksClosed(fields, off + |v.before| + 1);
      case _ =>
    }
  }

  lemma {:induction false} ItemToksClosed(items: seq<Doc>, off: nat)
    ensures Closed(ItemToks(items, off))
    decreases items
  {
    if items != [] {
      ItemToksClosed(items[..|items| - 1], off);
      ToksClosed(items[|items| - 1], LastItemAt(items, off));
    }
  }

  lemma {:induction false} FieldToksClosed(fields: seq<Field>, off: nat)
    ensures Closed(FieldToks(fields, off))
    decreases fields
  {
    if fields != [] {
      var e := fields[|fields| - 1];
      FieldToksClosed(fields[..|fields| - 1], off);
      ToksClosed(e.value, LastFieldAt(fields, off) + |RenderKey(e)|);
    }
  }

  lemma {:induction false} LastOpenSkipsClosed(base: seq<Token>, inner: seq<Token>)
    requires Closed(inner)
    ensures LastOpen(base + inner) == LastOpen(base) && LastOpenContainer(base + inner) == LastOpenContainer(base)
  {
    if inner == [] {
      assert base + inner == base;
    } else {
      assert (base + inner)[..|base + inner| - 1] == base + inner[..|inner| - 1];
      LastOpenSkipsClosed(base, inner[..|inner| - 1]);
    }
  }

  lemma LastOpenIsContainer(base: seq<Token>, t: Token, inner: seq<Token>)
    requires Open(t) && IsContainer(t.kind) && Closed(inner)
    ensures LastOpen(base + [t] + inner) == |base| && LastOpenContainer(base + [t] + inner) == |base|
  {
    LastOpenSkipsClosed(base + [t], inner);
  }

  lemma {:induction false} LastOpenOfBumped(toks: seq<Token>, super: int)
    requires -1 <= super < |toks|
    ensures LastOpen(Bump(toks, super)) == LastOpen(toks)
  {
    SameLastOpen(Bump(toks, super), toks);
  }

  lemma {:induction false} SameLastOpen(a: seq<Token>, b: seq<Token>)
    requires |a| == |b| && forall i :: 0 <= i < |a| ==> Open(a[i]) == Open(b[i])
    ensures LastOpen(a) == LastOpen(b)
  {
    if a != [] {
      SameLastOpen(a[..|a| - 1], b[..|b| - 1]);
    }
  }

  // Scanning text.

  ghost predicate HoldsText(js: seq<char>, off: nat, s: string) {
    off + |s| <= |js| && js[off..off + |s|] == s
  }

  lemma SplitText(js: seq<char>, off: nat, a: string, b: string)
    requires HoldsText(js, off, a + b)
    ensures HoldsText(js, off, a) && HoldsText(js, off + |a|, b)
  {
    assert js[off..off + |a|] == (a + b)[..|a|];
    assert js[off + |a|..off + |a| + |b|] == (a + b)[|a|..];
  }

  lemma TextChars(js: seq<char>, off: nat, s: string)
    requires HoldsText(js, off, s)
    ensures forall k :: 0 <= k < |s| ==> js[off + k] == s[k]
  {
    forall k | 0 <= k < |s| ensures js[off + k] == s[k] {
      assert js[off..off + |s|][k] == s[k];
    }
  }

  /** A primitive that ends at `e` is followed by nothing more of it. */
  ghost predicate Delimited(js: seq<char>, e: nat) {
    e <= |js| && (e == |js| || PrimitiveStop(js[e]))
  }

  lemma {:induction false} HexIsLocal(js: seq<char>, p: nat, s: string, i: nat, n: nat)
    requires HoldsText(js, p, s) && i <= |s| && HexEnd(s, i, n).At? && HexEnd(s, i, n).pos < |s|
    ensures HexEnd(js, p + i, n) == At(p + HexEnd(s, i, n).pos)
    decreases n
  {
    if n != 0 && s[i] != '\0' {
      TextChars(js, p, s);
      HexIsLocal(js, p, s, i + 1, n - 1);
    } else {
      TextChars(js, p, s);
    }
  }

  /** Scanning a quoted text does not look beyond its closing quote. */
  lemma {:induction false} ScanIsLocal(js: seq<char>, p: nat, q: string, i: nat)
    requires HoldsText(js, p, q + "\"") && i <= |q| && StringEnd(q + "\"", i) == At(|q|)
    ensures StringEnd(js, p + i) == At(p + |q|)
    decreases |q| - i
  {
    hide HexEnd;
    var s := q + "\"";
    TextChars(js, p, s);
    assert js[p + i] == s[i];
    if s[i] == '\\' {
      assert js[p + (i + 1)] == s[i + 1];
      if s[i + 1] == 'u' {
        var h := HexEnd(s, i + 2, 4);
        HexIsLocal(js, p, s, i + 2, 4);
        ScanIsLocal(js, p, q, h.pos);
      } else {
        ScanIsLocal(js, p, q, i + 2);
      }
    } else if s[i] != '\"' {
      ScanIsLocal(js, p, q, i + 1);
    }
  }

  // The tokeniser on text.

  ghost predicate Reaches(js: seq<char>, n: nat, st: Progress, st': Progress) {
    Ok(js, st) && Ok(js, st') && Tokenise(js, n, st) == Tokenise(js, n, st')
  }

  /** Where the tokeniser is after `v`. */
  ghost function After(st: Progress, v: Doc): Progress
    requires -1 <= st.super < |st.toks|
  {
    Progress(st.pos + |Render(v)|, Bump(st.toks, st.super) + Toks(v, st.pos),
             if Container(v.core) then LastOpen(st.toks) else st.super)
  }

  ghost function AfterCore(st: Progress, c: Core): Progress
    requires -1 <= st.super < |st.toks|
  {
    Progress(st.pos + |RenderCore(c)|, Bump(st.toks, st.super) + CoreToks(c, st.pos),
             if Container(c) then LastOpen(st.toks) else st.super)
  }

  lemma OneStep(js: seq<char>, n: nat, st: Progress)
    requires Ok(js, st) && st.pos < |js| && js[st.pos] != '\0' && Step(js, n, st).Next?
    ensures Reaches(js, n, st, Step(js, n, st).st)
  {
    TokeniseSteps(js, n, st);
  }

  /** Blanks only move the position. */
  lemma {:induction false} SkipBlanks(js: seq<char>, n: nat, b: string, st: Progress)
    requires Ok(js, st) && Blanks(b) && HoldsText(js, st.pos, b)
    ensures Reaches(js, n, st, st.(pos := st.pos + |b|))
    decreases |b|
  {
    if b == "" {
      StaysPut(js, n, st);
    } else {
      hide Tokenise, LastOpen, LastOpenContainer;
      TextChars(js, st.pos, b);
      assert js[st.pos + 0] == b[0];
      OneStep(js, n, st);
      assert b == [b[0]] + b[1..];
      SplitText(js, st.pos, [b[0]], b[1..]);
      SkipBlanks(js, n, b[1..], st.(pos := st.pos + 1));
    }
  }

  lemma SimulatePrimitive(js: seq<char>, n: nat, text: string, st: Progress)
    requires Ok(js, st) && Lexeme(text) && |st.toks| < n
    requires HoldsText(js, st.pos, text) && Delimited(js, st.pos + |text|)
    ensures Reaches(js, n, st, AfterCore(st, Scalar(text)))
  {
    hide Tokenise, LastOpen, LastOpenContainer, PrimitiveEnd;
    var p := st.pos;
    TextChars(js, p, text);
    forall k | p <= k < p + |text| ensures PrimitiveChar(js[k]) {
      assert js[p + (k - p)] == text[k - p];
    }
    PrimitiveEndIff(js, p, p + |text|);
    assert js[p + 0] == text[0] && PrimitiveChar(text[0]);
    assert Step(js, n, st) == PrimitiveStep(js, n, st);
    OneStep(js, n, st);
  }

  lemma QuotedScan(js: seq<char>, p: nat, text: string)
    requires Quotable(text) && HoldsText(js, p, "\"" + text + "\"")
    ensures p + 1 < |js| && js[p] == '\"' && StringEnd(js, p + 1) == At(p + 1 + |text|)
  {
    hide StringEnd;
    assert "\"" + text + "\"" == "\"" + (text + "\"");
    SplitText(js, p, "\"", text + "\"");
    assert js[p..p + 1][0] == '\"';
    ScanIsLocal(js, p + 1, text, 0);
  }

  lemma SimulateQuoted(js: seq<char>, n: nat, text: string, st: Progress)
    requires Ok(js, st) && Quotable(text) && |st.toks| < n
    requires HoldsText(js, st.pos, "\"" + text + "\"")
    ensures var t := Token(Str, st.pos + 1, st.pos + 1 + |text|, 0);
            Reaches(js, n, st, Progress(st.pos + |text| + 2, Bump(st.toks, st.super) + [t], st.super))
  {
    hide Tokenise, LastOpen, LastOpenContainer;
    hide HoldsText, Quotable, StringEnd;
    var p := st.pos;
    QuotedScan(js, p, text);
    assert Step(js, n, st) == StringStep(js, n, st);
    OneStep(js, n, st);
  }

  /** In an array, at the end of `items`. */
  ghost function InArray(items: seq<Doc>, base: seq<Token>, off: nat): Progress {
    Progress(off + 1 + |RenderItems(items)|,
             base + [Token(Array, off, -1, |items|)] + ItemToks(items, off + 1), |base|)
  }

  ghost function InObject(fields: seq<Field>, base: seq<Token>, off: nat, super: int): Progress {
    Progress(off + 1 + |RenderFields(fields)|,
             base + [Token(Object, off, -1, |fields|)] + FieldToks(fields, off + 1), super)
  }

  lemma InArrayFacts(items: seq<Doc>, base: seq<Token>, off: nat)
    ensures var st := InArray(items, base, off);
            && |base| < |st.toks| && st.super == |base| && st.toks[|base|] == Token(Array, off, -1, |items|)
            && LastOpen(st.toks) == |base|
  {
    hide Toks, ItemToks, LastOpen, LastOpenContainer;
    ItemToksClosed(items, off + 1);
    LastOpenIsContainer(base, Token(Array, off, -1, |items|), ItemToks(items, off + 1));
  }

  /** One more item, after the comma in front of it. */
  lemma ItemAdded(items: seq<Doc>, base: seq<Token>, off: nat)
    requires items != []
    ensures var front, last := items[..|items| - 1], items[|items| - 1];
            var st := InArray(front, base, off).(pos := LastItemAt(items, off + 1));
            -1 <= st.super < |st.toks| && After(st, last) == InArray(items, base, off)
  {
    var front, last := items[..|items| - 1], items[|items| - 1];
    var at := LastItemAt(items, off + 1);
    var st := InArray(front, base, off).(pos := at);
    InArrayFacts(front, base, off);
    hide Render, Toks, LastOpen;
    var bumped := base + [Token(Array, off, -1, |items|)] + ItemToks(front, off + 1);
    assert Bump(st.toks, |base|) == bumped;
    assert bumped + Toks(last, at) == base + [Token(Array, off, -1, |items|)] + ItemToks(items, off + 1);
  }

  lemma CommaInArray(js: seq<char>, n: nat, items: seq<Doc>, base: seq<Token>, off: nat)
    requires var st := InArray(items, base, off); st.pos < |js| && js[st.pos] == ','
    ensures var st := InArray(items, base, off);
            Reaches(js, n, st, st.(pos := st.pos + 1))
  {
    hide Render, RenderItems, Toks, ItemToks, LastOpen, LastOpenContainer, Tokenise;
    InArrayFacts(items, base, off);
    OneStep(js, n, InArray(items, base, off));
  }

  lemma CloseArray(js: seq<char>, n: nat, items: seq<Doc>, base: seq<Token>, off: nat, p: nat)
    requires p < |js| && js[p] == ']'
    ensures var st := InArray(items, base, off).(pos := p);
            var toks := base + ([Token(Array, off, p + 1, |items|)] + ItemToks(items, off + 1));
            Reaches(js, n, st, Progress(p + 1, toks, LastOpen(base)))
  {
    hide Render, RenderItems, Toks, ItemToks, LastOpen, LastOpenContainer, Tokenise;
    var st := InArray(items, base, off).(pos := p);
    var closed, inner := Token(Array, off, p + 1, |items|), ItemToks(items, off + 1);
    InArrayFacts(items, base, off);
    assert st.toks[|base| := closed] == base + ([closed] + inner);
    ItemToksClosed(items, off + 1);
    LastOpenSkipsClosed(base, [closed] + inner);
    OneStep(js, n, st);
  }

  lemma InObjectFacts(fields: seq<Field>, base: seq<Token>, off: nat)
    ensures var st := InObject(fields, base, off, |base|);
            && |base| < |st.toks| && st.toks[|base|] == Token(Object, off, -1, |fields|)
            && LastOpen(st.toks) == |base| && LastOpenContainer(st.toks) == |base|
  {
    hide Toks, FieldToks, LastOpen, LastOpenContainer;
    FieldToksClosed(fields, off + 1);
    LastOpenIsContainer(base, Token(Object, off, -1, |fields|), FieldToks(fields, off + 1));
  }

  /** The super token at the end of a field: the object, or the key. */
  ghost predicate SuperOfField(st: Progress, base: seq<Token>) {
    st.super == |base| || (|base| < st.super < |st.toks| && st.toks[st.super].kind == Str)
  }

  lemma CommaInObject(js: seq<char>, n: nat, fields: seq<Field>, base: seq<Token>, off: nat, super: int)
    requires var st := InObject(fields, base, off, super);
             st.pos < |js| && js[st.pos] == ',' && SuperOfField(st, base)
    ensures var st := InObject(fields, base, off, super);
            Reaches(js, n, st, Progress(st.pos + 1, st.toks, |base|))
  {
    hide Render, RenderFields, Toks, FieldToks, LastOpen, LastOpenContainer, Tokenise;
    InObjectFacts(fields, base, off);
    OneStep(js, n, InObject(fields, base, off, super));
  }

  lemma CloseObject(js: seq<char>, n: nat, fields: seq<Field>, base: seq<Token>, off: nat, super: int, p: nat)
    requires p < |js| && js[p] == '}' && SuperOfField(InObject(fields, base, off, super), base)
    ensures var st := InObject(fields, base, off, super).(pos := p);
            var toks := base + ([Token(Object, off, p + 1, |fields|)] + FieldToks(fields, off + 1));
            Reaches(js, n, st, Progress(p + 1, toks, LastOpen(base)))
  {
    hide Render, RenderFields, Toks, FieldToks, LastOpen, LastOpenContainer, Tokenise;
    var st := InObject(fields, base, off, super).(pos := p);
    var closed, inner := Token(Object, off, p + 1, |fields|), FieldToks(fields, off + 1);
    InObjectFacts(fields, base, off);
    assert st.toks[|base| := closed] == base + ([closed] + inner);
    FieldToksClosed(fields, off + 1);
    LastOpenSkipsClosed(base, [closed] + inner);
    OneStep(js, n, st);
  }

  /** The key and the colon of the last field. */
  ghost function AfterKey(fields: seq<Field>, base: seq<Token>, off: nat): Progress
    requires fields != []
  {
    var front, f := fields[..|fields| - 1], fields[|fields| - 1];
    var at := LastFieldAt(fields, off + 1);
    var q := at + |f.before| + 1;
    var toks := base + [Token(Object, off, -1, |fields|)] + FieldToks(front, off + 1) + [Token(Str, q, q + |f.key|, 0)];
    Progress(at + |RenderKey(f)|, toks, |toks| - 1)
  }

  /** A key, the blanks around it, and the colon. */
  lemma SimulateKeyText(js: seq<char>, n: nat, f: Field, st: Progress)
    requires Ok(js, st) && TokenisableField(f) && |st.toks| < n && HoldsText(js, st.pos, RenderKey(f))
    ensures var q := st.pos + |f.before| + 1;
            var toks := Bump(st.toks, st.super) + [Token(Str, q, q + |f.key|, 0)];
            Reaches(js, n, st, Progress(st.pos + |RenderKey(f)|, toks, |toks| - 1))
  {
    hide Tokenise, LastOpen, LastOpenContainer, Quotable, Tokenisable, Render, Reaches;
    var quoted, p := "\"" + f.key + "\"", st.pos + |f.before|;
    SplitText(js, st.pos, f.before + quoted, f.colon + ":");
    SplitText(js, st.pos, f.before, quoted);
    SplitText(js, p + |quoted|, f.colon, ":");
    SkipBlanks(js, n, f.before, st);
    var s1 := st.(pos := p);
    ReachesOk(js, n, st, s1);
    SimulateQuoted(js, n, f.key, s1);
    var toks := Bump(st.toks, st.super) + [Token(Str, p + 1, p + 1 + |f.key|, 0)];
    var s2 := Progress(p + |quoted|, toks, st.super);
    ReachesTwice(js, n, st, s1, s2);
    ReachesOk(js, n, s1, s2);
    SkipBlanks(js, n, f.colon, s2);
    var s3 := s2.(pos := s2.pos + |f.colon|);
    ReachesTwice(js, n, st, s2, s3);
    ReachesOk(js, n, s2, s3);
    TextChars(js, s3.pos, ":");
    assert js[s3.pos + 0] == ':';
    assert Step(js, n, s3) == Next(Progress(s3.pos + 1, toks, |toks| - 1));
    OneStep(js, n, s3);
    ReachesTwice(js, n, st, s3, Progress(s3.pos + 1, toks, |toks| - 1));
  }

  lemma SimulateKey(js: seq<char>, n: nat, fields: seq<Field>, base: seq<Token>, off: nat)
    requires fields != [] && TokenisableField(fields[|fields| - 1])
    requires HoldsText(js, LastFieldAt(fields, off + 1), RenderKey(fields[|fields| - 1]))
    requires |base| + 1 + |FieldToks(fields[..|fields| - 1], off + 1)| < n
    ensures var st := InObject(fields[..|fields| - 1], base, off, |base|).(pos := LastFieldAt(fields, off + 1));
            Reaches(js, n, st, AfterKey(fields, base, off))
  {
    hide Render, RenderKey, RenderFields, Toks, FieldToks, LastOpen, LastOpenContainer, Tokenise, LastFieldAt, TokenisableField;
    var front, f, at := fields[..|fields| - 1], fields[|fields| - 1], LastFieldAt(fields, off + 1);
    var st := InObject(front, base, off, |base|).(pos := at);
    InObjectFacts(front, base, off);
    SimulateKeyText(js, n, f, st);
    assert Bump(st.toks, |base|) == base + [Token(Object, off, -1, |fields|)] + FieldToks(front, off + 1);
  }

  lemma FieldToksSplit(fields: seq<Field>, off: nat)
    requires fields != []
    ensures FieldToks(fields, off)
            == FieldToks(fields[..|fields| - 1], off) + PairToks(fields[|fields| - 1], LastFieldAt(fields, off))
  {
    hide PairToks, LastFieldAt;
  }

  lemma ValueAdded(fields: seq<Field>, base: seq<Token>, off: nat)
    requires fields != []
    ensures var st, v := AfterKey(fields, base, off), fields[|fields| - 1].value;
            var super := if Container(v.core) then |base| else st.super;
            && -1 <= st.super < |st.toks|
            && After(st, v) == InObject(fields, base, off, super)
            && SuperOfField(InObject(fields, base, off, super), base)
  {
    hide Render, RenderKey, RenderFields, Toks, FieldToks, LastOpen, LastOpenContainer;
    var st, e := AfterKey(fields, base, off), fields[|fields| - 1];
    var front, at := fields[..|fields| - 1], LastFieldAt(fields, off + 1);
    var q := at + |e.before| + 1;
    var obj, inner := Token(Object, off, -1, |fields|), FieldToks(front, off + 1);
    var key0, key1 := Token(Str, q, q + |e.key|, 0), Token(Str, q, q + |e.key|, 1);
    FieldToksClosed(front, off + 1);
    LastOpenIsContainer(base, obj, inner + [key0]);
    assert base + [obj] + (inner + [key0]) == st.toks;
    assert Bump(st.toks, st.super) == base + [obj] + inner + [key1];
    var vt := Toks(e.value, at + |RenderKey(e)|);
    assert base + [obj] + inner + [key1] + vt == base + [obj] + (inner + ([key1] + vt));
    FieldToksSplit(fields, off + 1);
    RenderFieldsSnoc(fields);
    assert st.pos + |Render(e.value)| == off + 1 + |RenderFields(fields)|;
    assert st.toks[st.super].kind == Str;
  }

  lemma SimulateItems(js: seq<char>, n: nat, items: seq<Doc>, base: seq<Token>, off: nat)
    requires forall i :: 0 <= i < |items| ==> Tokenisable(items[i])
    requires HoldsText(js, off + 1, RenderItems(items))
    requires items != [] ==> Delimited(js, off + 1 + |RenderItems(items)|)
    requires |base| + 1 + |ItemToks(items, off + 1)| <= n
    ensures Reaches(js, n, InArray([], base, off), InArray(items, base, off))
    decreases items, 1
  {
    hide Tokenisable, Render, RenderItems, Toks, ItemToks, Reaches, InArray, Delimited;
    if items == [] {
      InArrayInBounds(js, [], base, off);
      StaysPut(js, n, InArray([], base, off));
    } else {
      var front := items[..|items| - 1];
      ItemText(js, items, off + 1);
      ItemToksSplit(items, off + 1);
      SimulateItems(js, n, front, base, off);
      ReachesOk(js, n, InArray([], base, off), InArray(front, base, off));
      SimulateItem(js, n, items, base, off);
      ReachesTwice(js, n, InArray([], base, off), InArray(front, base, off), InArray(items, base, off));
    }
  }

  lemma StaysPut(js: seq<char>, n: nat, st: Progress)
    requires Ok(js, st)
    ensures Reaches(js, n, st, st)
  {
  }

  lemma ReachesTwice(js: seq<char>, n: nat, a: Progress, b: Progress, c: Progress)
    requires Reaches(js, n, a, b) && Reaches(js, n, b, c)
    ensures Reaches(js, n, a, c)
  {
    hide Tokenise;
  }

  lemma ItemToksSplit(items: seq<Doc>, off: nat)
    requires items != []
    ensures ItemToks(items, off) == ItemToks(items[..|items| - 1], off) + Toks(items[|items| - 1], LastItemAt(items, off))
  {
    hide Toks, LastItemAt;
  }

  /** The last item, and the comma in front of it. */
  lemma SimulateItem(js: seq<char>, n: nat, items: seq<Doc>, base: seq<Token>, off: nat)
    requires items != [] && Tokenisable(items[|items| - 1])
    requires HoldsText(js, off + 1, RenderItems(items)) && Delimited(js, off + 1 + |RenderItems(items)|)
    requires |base| + 1 + |ItemToks(items, off + 1)| <= n
    requires Ok(js, InArray(items[..|items| - 1], base, off))
    ensures Reaches(js, n, InArray(items[..|items| - 1], base, off), InArray(items, base, off))
    decreases items, 0
  {
    hide Tokenisable, Render, RenderItems, Toks, ItemToks, LastItemAt, Delimited, Reaches, InArray, After;
    var front, last, at := items[..|items| - 1], items[|items| - 1], LastItemAt(items, off + 1);
    ItemText(js, items, off + 1);
    ItemToksSplit(items, off + 1);
    InArrayFacts(front, base, off);
    InArrayParts(front, base, off);
    var start := InArray(front, base, off);
    var st := start.(pos := at);
    if front != [] {
      CommaInArray(js, n, front, base, off);
    } else {
      StaysPut(js, n, start);
    }
    ReachesOk(js, n, start, st);
    ItemAdded(items, base, off);
    Simulate(js, n, last, st);
    ReachesTwice(js, n, start, st, InArray(items, base, off));
  }

  lemma ReachesOk(js: seq<char>, n: nat, st: Progress, st': Progress)
    requires Reaches(js, n, st, st')
    ensures Ok(js, st) && Ok(js, st')
  {
  }

  lemma InArrayInBounds(js: seq<char>, items: seq<Doc>, base: seq<Token>, off: nat)
    requires off + 1 + |RenderItems(items)| <= |js|
    ensures Ok(js, InArray(items, base, off))
  {
  }

  lemma InArrayParts(items: seq<Doc>, base: seq<Token>, off: nat)
    ensures InArray(items, base, off).pos == off + 1 + |RenderItems(items)|
    ensures |InArray(items, base, off).toks| == |base| + 1 + |ItemToks(items, off + 1)|
  {
  }

  lemma SeparatedText(js: seq<char>, off: nat, a: string, comma: string, b: string)
    requires HoldsText(js, off, a + comma + b) && (comma == "" || comma == ",")
    ensures HoldsText(js, off, a) && HoldsText(js, off + |a| + |comma|, b)
    ensures comma == "," ==> js[off + |a|] == ',' && Delimited(js, off + |a|)
  {
    SplitText(js, off, a + comma, b);
    SplitText(js, off, a, comma);
    if comma == "," {
      assert js[off + |a|..off + |a| + 1][0] == ',';
    }
  }

  lemma RenderItemsSnoc(items: seq<Doc>)
    requires items != []
    ensures RenderItems(items) == RenderItems(items[..|items| - 1]) + Separator(|items| - 1) + Render(items[|items| - 1])
  {
    hide Render, Separator;
  }

  lemma RenderFieldsSnoc(fields: seq<Field>)
    requires fields != []
    ensures RenderFields(fields) ==
            RenderFields(fields[..|fields| - 1]) + Separator(|fields| - 1) + RenderField(fields[|fields| - 1])
  {
    hide RenderField, Separator;
  }

  /** Where the pieces of an array's text are. */
  lemma ItemText(js: seq<char>, items: seq<Doc>, off: nat)
    requires items != [] && HoldsText(js, off, RenderItems(items))
    ensures var front, last := items[..|items| - 1], items[|items| - 1];
            && HoldsText(js, off, RenderItems(front))
            && HoldsText(js, LastItemAt(items, off), Render(last))
            && LastItemAt(items, off) + |Render(last)| == off + |RenderItems(items)|
            && (front != [] ==>
                  var comma := off + |RenderItems(front)|;
                  js[comma] == ',' && Delimited(js, comma) && LastItemAt(items, off) == comma + 1)
            && (front == [] ==> LastItemAt(items, off) == off + |RenderItems(front)|)
  {
    hide Render, RenderItems;
    var front, last := items[..|items| - 1], items[|items| - 1];
    var a, b := RenderItems(front), Render(last);
    RenderItemsSnoc(items);
    SeparatedText(js, off, a, Separator(|items| - 1), b);
  }

  lemma FieldText(js: seq<char>, fields: seq<Field>, off: nat)
    requires fields != [] && HoldsText(js, off, RenderFields(fields))
    ensures var front, last, at := fields[..|fields| - 1], fields[|fields| - 1], LastFieldAt(fields, off);
            && HoldsText(js, off, RenderFields(front))
            && HoldsText(js, at, RenderField(last)) && |RenderField(last)| == |RenderKey(last)| + |Render(last.value)|
            && HoldsText(js, at, RenderKey(last))
            && HoldsText(js, at + |RenderKey(last)|, Render(last.value))
            && at + |RenderKey(last)| + |Render(last.value)| == off + |RenderFields(fields)|
            && (front != [] ==>
                  var comma := off + |RenderFields(front)|;
                  js[comma] == ',' && Delimited(js, comma) && at == comma + 1)
            && (front == [] ==> at == off + |RenderFields(front)|)
  {
    hide Render, RenderKey, RenderFields;
    var front, last := fields[..|fields| - 1], fields[|fields| - 1];
    var a, b := RenderFields(front), RenderField(last);
    RenderFieldsSnoc(fields);
    SeparatedText(js, off, a, Separator(|fields| - 1), b);
    SplitText(js, LastFieldAt(fields, off), RenderKey(last), Render(last.value));
  }

  lemma InObjectParts(fields: seq<Field>, base: seq<Token>, off: nat, super: int)
    ensures InObject(fields, base, off, super).pos == off + 1 + |RenderFields(fields)|
    ensures |InObject(fields, base, off, super).toks| == |base| + 1 + |FieldToks(fields, off + 1)|
    ensures InObject(fields, base, off, super).super == super
    ensures InObject(fields, base, off, super) == InObject(fields, base, off, |base|).(super := super)
  {
  }

  lemma AfterKeyParts(fields: seq<Field>, base: seq<Token>, off: nat)
    requires fields != []
    ensures var st := AfterKey(fields, base, off);
            && st.pos == LastFieldAt(fields, off + 1) + |RenderKey(fields[|fields| - 1])|
            && |st.toks| == |base| + 2 + |FieldToks(fields[..|fields| - 1], off + 1)|
            && |FieldToks(fields, off + 1)|
               == |FieldToks(fields[..|fields| - 1], off + 1)| + 1 + |Toks(fields[|fields| - 1].value, st.pos)|
  {
    hide Render, RenderFields, Toks, LastFieldAt;
    var front, e, at := fields[..|fields| - 1], fields[|fields| - 1], LastFieldAt(fields, off + 1);
    assert FieldToks(fields, off + 1) == FieldToks(front, off + 1) + PairToks(e, at);
  }

  lemma SimulateFields(js: seq<char>, n: nat, fields: seq<Field>, base: seq<Token>, off: nat) returns (super: int)
    requires forall i :: 0 <= i < |fields| ==> TokenisableField(fields[i])
    requires HoldsText(js, off + 1, RenderFields(fields))
    requires fields != [] ==> Delimited(js, off + 1 + |RenderFields(fields)|)
    requires |base| + 1 + |FieldToks(fields, off + 1)| <= n
    ensures SuperOfField(InObject(fields, base, off, super), base) && (fields == [] ==> super == |base|)
    ensures Reaches(js, n, InObject([], base, off, |base|), InObject(fields, base, off, super))
    decreases fields, 0
  {
    hide Tokenisable, Render, RenderKey, RenderFields, Toks, FieldToks, LastOpen, LastOpenContainer, Tokenise, InObject, AfterKey, LastFieldAt;
    super := |base|;
    if fields == [] {
      InObjectParts(fields, base, off, super);
    } else {
      var front, last, at := fields[..|fields| - 1], fields[|fields| - 1], LastFieldAt(fields, off + 1);
      FieldText(js, fields, off + 1);
      AfterKeyParts(fields, base, off);
      var before := SimulateFields(js, n, front, base, off);
      InObjectFacts(front, base, off);
      InObjectParts(front, base, off, before);
      InObjectParts(front, base, off, |base|);
      if front != [] {
        CommaInObject(js, n, front, base, off, before);
      }
      SimulateKey(js, n, fields, base, off);
      ValueAdded(fields, base, off);
      var st := AfterKey(fields, base, off);
      Simulate(js, n, last.value, st);
      super := if Container(last.value.core) then |base| else st.super;
    }
  }

  /** The tokeniser at the text of `v` appends the tokens of `v`. */
  lemma {:induction false} Simulate(js: seq<char>, n: nat, v: Doc, st: Progress)
    requires Ok(js, st) && Tokenisable(v) && |st.toks| + |Toks(v, st.pos)| <= n
    requires HoldsText(js, st.pos, Render(v)) && Delimited(js, st.pos + |Render(v)|)
    ensures Reaches(js, n, st, After(st, v))
    decreases v
  {
    hide Tokenise, LastOpen, Reaches, Toks, CoreToks, Render, RenderCore, Bump, HoldsText, Delimited, Tokenisable;
    var s1 := st.(pos := st.pos + |v.before|);
    var s2 := AfterCore(s1, v.core);
    TextParts(js, st.pos, v);
    SkipBlanks(js, n, v.before, st);
    ReachesOk(js, n, st, s1);
    TokensOfCore(v, st.pos);
    SimulateCore(js, n, v, s1);
    ReachesOk(js, n, s1, s2);
    SkipBlanks(js, n, v.after, s2);
    ReachesTwice(js, n, st, s1, s2);
    ReachesTwice(js, n, st, s2, After(st, v));
  }

  /** Where the parts of a text are. */
  lemma TextParts(js: seq<char>, off: nat, v: Doc)
    requires Tokenisable(v) && HoldsText(js, off, Render(v)) && Delimited(js, off + |Render(v)|)
    ensures var p := off + |v.before|;
            && HoldsText(js, off, v.before) && HoldsText(js, p, RenderCore(v.core)) && Delimited(js, p + |RenderCore(v.core)|)
            && HoldsText(js, p + |RenderCore(v.core)|, v.after)
    ensures |Render(v)| == |v.before| + |RenderCore(v.core)| + |v.after| && Blanks(v.before) && Blanks(v.after)
  {
    hide RenderCore, HoldsText, Delimited;
    var core := RenderCore(v.core);
    SplitText(js, off, v.before + core, v.after);
    SplitText(js, off, v.before, core);
    BlanksDelimit(js, off + |v.before| + |core|, v.after);
  }

  lemma TokensOfCore(v: Doc, off: nat)
    ensures Toks(v, off) == CoreToks(v.core, off + |v.before|)
  {
  }

  /** Whether or not there are blanks, what follows a value ends a primitive. */
  lemma BlanksDelimit(js: seq<char>, p: nat, b: string)
    requires Blanks(b) && HoldsText(js, p, b) && Delimited(js, p + |b|)
    ensures Delimited(js, p)
  {
    if b != "" {
      TextChars(js, p, b);
      assert js[p + 0] == b[0];
    }
  }

  lemma SimulateCore(js: seq<char>, n: nat, v: Doc, st: Progress)
    requires Ok(js, st) && Tokenisable(v) && |st.toks| + |CoreToks(v.core, st.pos)| <= n
    requires HoldsText(js, st.pos, RenderCore(v.core)) && Delimited(js, st.pos + |RenderCore(v.core)|)
    ensures Reaches(js, n, st, AfterCore(st, v.core))
    decreases v, 0
  {
    hide Reaches, HoldsText, Delimited, LastOpen;
    match v.core {
      case Scalar(text) => SimulatePrimitive(js, n, text, st);
      case Quoted(raw) => SimulateQuoted(js, n, raw, st);
      case ListOf(items, blank) => SimulateArray(js, n, items, blank, st);
      case ObjectOf(fields, blank) => SimulateObject(js, n, fields, blank, st);
    }
  }

  lemma OpenContainer(js: seq<char>, n: nat, st: Progress, c: char)
    requires Ok(js, st) && |st.toks| < n && (c == '[' || c == '{') && HoldsText(js, st.pos, [c])
    ensures var base := Bump(st.toks, st.super);
            Reaches(js, n, st, if c == '[' then InArray([], base, st.pos) else InObject([], base, st.pos, |base|))
  {
    hide Tokenise, LastOpen, LastOpenContainer;
    TextChars(js, st.pos, [c]);
    assert js[st.pos + 0] == c;
    var base := Bump(st.toks, st.super);
    assert base + [Token(KindOf(c), st.pos, -1, 0)] + [] == base + [Token(KindOf(c), st.pos, -1, 0)];
    OneStep(js, n, st);
  }

  /** Where the parts of a container's text are. */
  lemma ContainerText(js: seq<char>, off: nat, open: char, inner: string, blank: string, close: char)
    requires HoldsText(js, off, [open] + (inner + (blank + [close]))) && Blanks(blank)
    requires close == ']' || close == '}'
    ensures HoldsText(js, off, [open]) && HoldsText(js, off + 1, inner) && HoldsText(js, off + 1 + |inner|, blank)
    ensures Delimited(js, off + 1 + |inner|)
    ensures var p := off + 1 + |inner| + |blank|; p < |js| && js[p] == close
  {
    var p := off + 1 + |inner| + |blank|;
    SplitText(js, off, [open], inner + (blank + [close]));
    SplitText(js, off + 1, inner, blank + [close]);
    SplitText(js, off + 1 + |inner|, blank, [close]);
    TextChars(js, p, [close]);
    assert js[p + 0] == close;
    BlanksDelimit(js, off + 1 + |inner|, blank);
  }

  lemma SimulateArray(js: seq<char>, n: nat, items: seq<Doc>, blank: string, st: Progress)
    requires Ok(js, st) && Blanks(blank) && forall i :: 0 <= i < |items| ==> Tokenisable(items[i])
    requires |st.toks| + 1 + |ItemToks(items, st.pos + 1)| <= n
    requires HoldsText(js, st.pos, RenderCore(ListOf(items, blank)))
    ensures Reaches(js, n, st, AfterCore(st, ListOf(items, blank)))
    decreases items, 2
  {
    hide Tokenise, LastOpen, LastOpenContainer, InArray, RenderItems, ItemToks, Step, Bump, Reaches, HoldsText, Delimited;
    var base, off := Bump(st.toks, st.super), st.pos;
    ContainerText(js, off, '[', RenderItems(items), blank, ']');
    OpenContainer(js, n, st, '[');
    SimulateItems(js, n, items, base, off);
    InArrayParts(items, base, off);
    var s1 := InArray(items, base, off);
    ReachesOk(js, n, InArray([], base, off), s1);
    SkipBlanks(js, n, blank, s1);
    var p := s1.pos + |blank|;
    CloseArray(js, n, items, base, off, p);
    LastOpenOfBumped(st.toks, st.super);
    ReachesTwice(js, n, st, InArray([], base, off), s1);
    ReachesTwice(js, n, st, s1, s1.(pos := p));
    ReachesTwice(js, n, st, s1.(pos := p), AfterCore(st, ListOf(items, blank)));
  }

  lemma SimulateObject(js: seq<char>, n: nat, fields: seq<Field>, blank: string, st: Progress)
    requires Ok(js, st) && Blanks(blank) && forall i :: 0 <= i < |fields| ==> TokenisableField(fields[i])
    requires |st.toks| + 1 + |FieldToks(fields, st.pos + 1)| <= n
    requires HoldsText(js, st.pos, RenderCore(ObjectOf(fields, blank)))
    ensures Reaches(js, n, st, AfterCore(st, ObjectOf(fields, blank)))
    decreases fields, 1
  {
    hide Tokenise, LastOpen, LastOpenContainer, InObject, RenderFields, FieldToks, Step, Bump, Reaches, HoldsText, Delimited;
    var base, off := Bump(st.toks, st.super), st.pos;
    ContainerText(js, off, '{', RenderFields(fields), blank, '}');
    OpenContainer(js, n, st, '{');
    var super := SimulateFields(js, n, fields, base, off);
    InObjectParts(fields, base, off, super);
    var start, s1 := InObject([], base, off, |base|), InObject(fields, base, off, super);
    ReachesOk(js, n, start, s1);
    SkipBlanks(js, n, blank, s1);
    var p := s1.pos + |blank|;
    CloseObject(js, n, fields, base, off, super, p);
    LastOpenOfBumped(st.toks, st.super);
    ReachesTwice(js, n, st, start, s1);
    ReachesTwice(js, n, st, s1, s1.(pos := p));
    ReachesTwice(js, n, st, s1.(pos := p), AfterCore(st, ObjectOf(fields, blank)));
  }

  /**
   * Texts tokenise to their own tokens: the size fields count their children, and the
   * returned count is the number of tokens.
   */
  lemma TextTokenises(js: seq<char>, n: nat, v: Doc)
    requires Tokenisable(v) && HoldsText(js, 0, Render(v)) && |js| >= |Render(v)|
    requires |js| == |Render(v)| || js[|Render(v)|] == '\0'
    requires |Toks(v, 0)| <= n
    ensures Tokenise(js, n, INIT) == Parsed(|Toks(v, 0)|, Progress(|Render(v)|, Toks(v, 0), -1))
  {
    hide Toks, Render, Tokenise, LastOpen, Tokenisable;
    Simulate(js, n, v, INIT);
    ToksClosed(v, 0);
    var st := After(INIT, v);
    assert st.toks == [] + Toks(v, 0);
    LastOpenSkipsClosed([], Toks(v, 0));
    TokeniseEnds(js, n, st);
  }

  /** Every JSON text tokenises to its own tokens. */
  lemma JsonTextTokenises(js: seq<char>, n: nat, v: Doc)
    requires Grammatical(v) && js == Render(v) && |Toks(v, 0)| <= n
    ensures Tokenise(js, n, INIT) == Parsed(|Toks(v, 0)|, Progress(|js|, Toks(v, 0), -1))
  {
    hide Tokenisable, Grammatical, Render;
    GrammaticalIsTokenisable(v);
    assert HoldsText(js, 0, js) by { assert js[0..|js|] == js; }
    TextTokenises(js, n, v);
  }
}
