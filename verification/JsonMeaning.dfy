/**
 * What JSON texts mean after RFC 8259, what the printer's texts mean, and what the decoder
 * takes texts for.
 */
module JsonMeaning {
  import opened Json
  import opened JsonGrammar

  // Section 7: what escape sequences stand for.

  /** A character, or a UTF-16 code unit above ASCII that was written as `\u`. */
  datatype Unit = Plain(c: char) | Utf16(code: nat)

  function HexValue(c: char): nat
    requires HexDigit(c)
  {
    if c <= '9' then c as nat - 0x30 else if c <= 'F' then c as nat - 0x41 + 10 else c as nat - 0x61 + 10
  }

  function CodeUnit(n: nat): Unit { if n < 128 then Plain(n as char) else Utf16(n) }

  /** Backspace, form feed, line feed, carriage return, tab, or the character itself. */
  function ShortMeaning(c: char): char {
    if c == 'b' then 8 as char
    else if c == 'f' then 12 as char
    else if c == 'n' then 10 as char
    else if c == 'r' then 13 as char
    else if c == 't' then 9 as char
    else c
  }

  function Unescape(q: string): seq<Unit>
    requires StringChars(q, FIRST_READ)
  {
    if q == "" then []
    else if q[0] != '\\' then [Plain(q[0])] + Unescape(q[1..])
    else if q[1] == 'u' then
      [CodeUnit(0x1000 * HexValue(q[2]) + 0x100 * HexValue(q[3]) + 0x10 * HexValue(q[4]) + HexValue(q[5]))] + Unescape(q[6..])
    else [Plain(ShortMeaning(q[1]))] + Unescape(q[2..])
  }

  function Literal(s: string): (u: seq<Unit>)
    ensures |u| == |s| && forall i :: 0 <= i < |s| ==> u[i] == Plain(s[i])
  {
    seq(|s|, i requires 0 <= i < |s| => Plain(s[i]))
  }

  /** Exactly texts without a backslash stand for themselves. */
  lemma {:induction false} UnescapeIff(q: string)
    requires StringChars(q, FIRST_READ)
    ensures |Unescape(q)| <= |q|
    ensures Unescape(q) == Literal(q) <==> '\\' !in q
  {
    UnescapeShortens(q);
    if '\\' !in q {
      UnescapePlain(q);
    } else {
      assert |Unescape(q)| < |q|;
    }
  }

  lemma {:induction false} UnescapeShortens(q: string)
    requires StringChars(q, FIRST_READ)
    ensures |Unescape(q)| <= |q| && ('\\' in q ==> |Unescape(q)| < |q|)
  {
    if q != "" {
      UnescapeShortens(q[if q[0] != '\\' then 1 else if q[1] == 'u' then 6 else 2..]);
    }
  }

  lemma {:induction false} UnescapePlain(q: string)
    requires StringChars(q, FIRST_READ) && '\\' !in q
    ensures Unescape(q) == Literal(q)
  {
    if q != "" {
      UnescapePlain(q[1..]);
    }
  }

  // What the printer writes for a string.

  lemma EscapedSnoc(text: string)
    requires text != ""
    ensures Escaped(text) == Escaped(text[..|text| - 1]) + Escape(text[|text| - 1])
  {
  }

  lemma EscapeLength(c: char)
    ensures |Escape(c)| == 1 || |Escape(c)| == 2
  {
  }

  lemma {:induction false} EscapedHead(s: string)
    requires s != ""
    ensures Escaped(s) == Escape(s[0]) + Escaped(s[1..])
  {
    hide Escape;
    var n := |s| - 1;
    if n == 0 {
      assert s[..0] == "" && s[1..] == "";
    } else {
      EscapedHead(s[..n]);
      assert s[..n][1..] == s[1..][..n - 1] && s[1..][n - 1] == s[n];
    }
  }

  function Tabbed(s: string): (t: string)
    ensures |t| == |s| && forall i :: 0 <= i < |s| ==> t[i] == if s[i] == '\"' then '\t' else s[i]
  {
    seq(|s|, i requires 0 <= i < |s| => if s[i] == '\"' then '\t' else s[i])
  }

  lemma EscapedCharMeans(c: char, rest: string)
    requires c != '\0' && StringChars(rest, FIRST_READ)
    ensures StringChars(Escape(c) + rest, FIRST_READ)
    ensures Unescape(Escape(c) + rest) == [Plain(if c == '\"' then '\t' else c)] + Unescape(rest)
  {
    var q := Escape(c) + rest;
    if q[0] == '\\' {
      assert q[2..] == rest;
    } else {
      assert q[1..] == rest;
    }
  }

  /** Reading a printed string by the grammar gives the string, with a tab for every quote. */
  lemma {:induction false} EscapedMeans(s: string)
    requires CString(s)
    ensures StringChars(Escaped(s), FIRST_READ)
    ensures Unescape(Escaped(s)) == Literal(Tabbed(s))
  {
    if s != "" {
      hide Escape, Escaped, StringChars, Unescape;
      var rest := s[1..];
      EscapedMeans(rest);
      EscapedHead(s);
      EscapedCharMeans(s[0], Escaped(rest));
      TabbedHead(s);
    }
  }

  lemma TabbedHead(s: string)
    requires s != ""
    ensures Literal(Tabbed(s)) == [Plain(if s[0] == '\"' then '\t' else s[0])] + Literal(Tabbed(s[1..]))
  {
  }

  /** It gives the string itself exactly if that has no quote. */
  lemma EscapedMeansIff(s: string)
    requires CString(s)
    ensures StringChars(Escaped(s), FIRST_READ)
    ensures Unescape(Escaped(s)) == Literal(s) <==> '\"' !in s
  {
    hide Escaped, StringChars, Unescape;
    EscapedMeans(s);
    if '\"' in s {
      var i :| 0 <= i < |s| && s[i] == '\"';
      assert Literal(Tabbed(s))[i] == Plain('\t') && Literal(s)[i] == Plain('\"');
    } else {
      assert Tabbed(s) == s;
    }
  }

  /** Control characters the printer has an escape for. */
  predicate HasEscape(c: char) { c as int in {8, 9, 10, 12, 13} }

  predicate Grammatically(s: string) { forall i :: 0 <= i < |s| ==> s[i] as int >= FIRST_BARE || HasEscape(s[i]) }

  /** A printed string is one of the grammar exactly if it has no other control character. */
  lemma {:induction false} EscapedIsGrammaticalIff(s: string)
    ensures StringChars(Escaped(s), FIRST_BARE) <==> Grammatically(s)
  {
    if s != "" {
      var rest := s[1..];
      EscapedIsGrammaticalIff(rest);
      EscapedHead(s);
      assert Escape(s[0]) + Escaped(rest) == Escaped(s);
      EscapedCharIsGrammatical(s[0], Escaped(rest));
      forall i | 0 <= i < |rest| ensures rest[i] == s[i + 1] {}
      assert Grammatically(s) ==> Grammatically(rest);
      hide Escape, Escaped, StringChars;
      forall i | 0 < i < |s| ensures s[i] == rest[i - 1] {}
    }
  }

  lemma EscapedCharIsGrammatical(c: char, rest: string)
    ensures StringChars(Escape(c) + rest, FIRST_BARE) <==>
            (c as int >= FIRST_BARE || HasEscape(c)) && StringChars(rest, FIRST_BARE)
  {
    var q := Escape(c) + rest;
    if q[0] == '\\' {
      assert q[2..] == rest;
    } else {
      assert q[1..] == rest;
    }
  }

  // Values.

  predicate Keyword(t: string) { t == "null" || t == "true" || t == "false" }

  /** `d` is a text for the value `v`. */
  ghost predicate Represents(d: Doc, v: Json)
    decreases v
  {
    match v
    case JsonNull => d.core == Scalar("null")
    case JsonTrue => d.core == Scalar("true")
    case JsonFalse => d.core == Scalar("false")
    case JsonNumber(lexeme) => d.core == Scalar(lexeme) && !Keyword(lexeme)
    case JsonString(text) => d.core.Quoted? && Spells(d.core.raw, text)
    case JsonArray(items) =>
      d.core.ListOf? && |d.core.items| == |items| && forall i :: 0 <= i < |items| ==> Represents(d.core.items[i], items[i])
    case JsonObject(members) =>
      d.core.ObjectOf? && |d.core.fields| == |members|
      && forall i :: 0 <= i < |members| ==> RepresentsMember(d.core.fields[i], members[i])
  }

  ghost predicate RepresentsMember(f: Field, e: Member)
    decreases e
  {
    Spells(f.key, e.key) && Represents(f.value, e.value)
  }

  /** Between quotes, `raw` stands for `text`. */
  predicate Spells(raw: string, text: string) {
    StringChars(raw, FIRST_READ) && Unescape(raw) == Literal(text)
  }

  // What the printer writes for a value, as concrete syntax.

  function Bare(c: Core): Doc { Doc("", c, "") }

  function DocOf(v: Json): Doc {
    match v
    case JsonNull => Bare(Scalar("null"))
    case JsonTrue => Bare(Scalar("true"))
    case JsonFalse => Bare(Scalar("false"))
    case JsonNumber(lexeme) => Bare(Scalar(lexeme))
    case JsonString(text) => Bare(Quoted(Escaped(text)))
    case JsonArray(items) => Bare(ListOf(DocsOf(items), ""))
    case JsonObject(members) => Bare(ObjectOf(FieldsOf(members), ""))
  }

  function DocsOf(items: seq<Json>): (docs: seq<Doc>)
    ensures |docs| == |items|
  {
    seq(|items|, i requires 0 <= i < |items| => DocOf(items[i]))
  }

  function FieldOf(e: Member): Field { Field("", e.key, "", DocOf(e.value)) }

  function FieldsOf(members: seq<Member>): (fields: seq<Field>)
    ensures |fields| == |members|
  {
    seq(|members|, i requires 0 <= i < |members| => FieldOf(members[i]))
  }

  lemma {:induction false} PrintIsRender(v: Json)
    ensures Render(DocOf(v)) == Print(v)
    decreases v
  {
    hide RenderItems, RenderFields, PrintItems, PrintMembers, Escaped;
    match v {
      case JsonArray(items) =>
        PrintItemsIsRender(items);
        BareBrackets("[", PrintItems(items), "]");
      case JsonObject(members) =>
        PrintMembersIsRender(members);
        BareBrackets("{", PrintMembers(members), "}");
      case JsonString(text) => BareText("\"" + Escaped(text) + "\"");
      case _ => BareText(Print(v));
    }
  }

  lemma BareText(s: string)
    ensures "" + s + "" == s
  {
  }

  lemma BareBrackets(open: string, s: string, close: string)
    ensures "" + (open + (s + ("" + close))) + "" == open + s + close
  {
  }

  lemma {:induction false} PrintItemsIsRender(items: seq<Json>)
    ensures RenderItems(DocsOf(items)) == PrintItems(items)
    decreases items
  {
    if items != [] {
      hide Render, Print, DocOf;
      var front, last := items[..|items| - 1], items[|items| - 1];
      PrintItemsIsRender(front);
      PrintIsRender(last);
      assert DocsOf(items)[..|items| - 1] == DocsOf(front);
    }
  }

  lemma {:induction false} PrintMembersIsRender(members: seq<Member>)
    ensures RenderFields(FieldsOf(members)) == PrintMembers(members)
    decreases members
  {
    if members != [] {
      hide RenderField, PrintMember, FieldOf;
      var front, last := members[..|members| - 1], members[|members| - 1];
      PrintMembersIsRender(front);
      PrintMemberIsRender(last);
      assert FieldsOf(members)[..|members| - 1] == FieldsOf(front);
    }
  }

  lemma {:induction false} PrintMemberIsRender(e: Member)
    ensures RenderField(FieldOf(e)) == PrintMember(e)
    decreases e
  {
    hide Render, Print, DocOf;
    PrintIsRender(e.value);
    assert "" + ("\"" + e.key + "\"") + ("" + ":") == "\"" + e.key + "\":";
  }

  /** Strings are C strings, number lexemes have no delimiters, and the keys can stand between quotes. */
  predicate Legible(v: Json) {
    match v
    case JsonNumber(lexeme) => Lexeme(lexeme)
    case JsonString(text) => CString(text)
    case JsonArray(items) => forall i :: 0 <= i < |items| ==> Legible(items[i])
    case JsonObject(members) => forall i :: 0 <= i < |members| ==> LegibleMember(members[i])
    case _ => true
  }

  predicate LegibleMember(e: Member) { Quotable(e.key) && Legible(e.value) }

  lemma {:induction false} LegibleIsTokenisable(v: Json)
    requires Legible(v)
    ensures Tokenisable(DocOf(v))
    decreases v
  {
    hide Quotable, Lexeme, StringChars, Escaped;
    match v {
      case JsonString(text) =>
        EscapedMeans(text);
        QuotableIff(Escaped(text));
      case JsonArray(items) =>
        forall i | 0 <= i < |items| ensures Tokenisable(DocsOf(items)[i]) { LegibleIsTokenisable(items[i]); }
      case JsonObject(members) =>
        forall i | 0 <= i < |members| ensures TokenisableField(FieldsOf(members)[i]) {
          assert LegibleMember(members[i]);
          LegibleIsTokenisable(members[i].value);
        }
      case _ => KeywordsAreLexemes();
    }
  }

  lemma KeywordsAreLexemes()
    ensures Lexeme("null") && Lexeme("true") && Lexeme("false")
  {
  }

  /** No string has a quote, no key a backslash, and no number prints as a keyword. */
  predicate Unambiguous(v: Json) {
    match v
    case JsonNumber(lexeme) => !Keyword(lexeme)
    case JsonString(text) => '\"' !in text
    case JsonArray(items) => forall i :: 0 <= i < |items| ==> Unambiguous(items[i])
    case JsonObject(members) => forall i :: 0 <= i < |members| ==> UnambiguousMember(members[i])
    case _ => true
  }

  predicate UnambiguousMember(e: Member) { '\\' !in e.key && Unambiguous(e.value) }

  /** What is printed for a value means that value exactly if it is unambiguous. */
  lemma {:induction false} PrintedMeansIff(v: Json)
    requires Legible(v)
    ensures Represents(DocOf(v), v) <==> Unambiguous(v)
    decreases v
  {
    hide Quotable, StringChars, Escaped, Unescape, Lexeme;
    match v {
      case JsonString(text) => EscapedMeansIff(text);
      case JsonArray(items) =>
        forall i | 0 <= i < |items| ensures Represents(DocsOf(items)[i], items[i]) <==> Unambiguous(items[i]) {
          PrintedMeansIff(items[i]);
        }
      case JsonObject(members) =>
        forall i | 0 <= i < |members|
          ensures RepresentsMember(FieldsOf(members)[i], members[i]) <==> UnambiguousMember(members[i])
        {
          PrintedMemberMeansIff(members[i]);
        }
      case _ =>
    }
  }

  lemma {:induction false} PrintedMemberMeansIff(e: Member)
    requires LegibleMember(e)
    ensures RepresentsMember(FieldOf(e), e) <==> UnambiguousMember(e)
    decreases e
  {
    hide Quotable, StringChars, Unescape;
    QuotableIff(e.key);
    UnescapeIff(e.key);
    PrintedMeansIff(e.value);
  }

  // What the decoder takes a text for.

  /** Strings and keys are taken as they stand in the text, primitives by their first character. */
  function Shown(d: Doc): Json {
    match d.core
    case Scalar(text) =>
      if text == "" then JsonNumber(text)
      else if text[0] == 'n' then JsonNull
      else if text[0] == 't' then JsonTrue
      else if text[0] == 'f' then JsonFalse
      else JsonNumber(text)
    case Quoted(raw) => JsonString(raw)
    case ListOf(items, _) => JsonArray(ShownItems(items))
    case ObjectOf(fields, _) => JsonObject(ShownFields(fields))
  }

  function ShownItems(items: seq<Doc>): (r: seq<Json>)
    ensures |r| == |items|
  {
    seq(|items|, i requires 0 <= i < |items| => Shown(items[i]))
  }

  function ShownFields(fields: seq<Field>): (r: seq<Member>)
    ensures |r| == |fields|
  {
    seq(|fields|, i requires 0 <= i < |fields| => ShownField(fields[i]))
  }

  function ShownField(f: Field): Member { Member(f.key, Shown(f.value)) }

  /** No string or key of the text has an escape sequence. */
  predicate Escapeless(d: Doc) {
    match d.core
    case Scalar(_) => true
    case Quoted(raw) => '\\' !in raw
    case ListOf(items, _) => forall i :: 0 <= i < |items| ==> Escapeless(items[i])
    case ObjectOf(fields, _) => forall i :: 0 <= i < |fields| ==> EscapelessField(fields[i])
  }

  predicate EscapelessField(f: Field) { '\\' !in f.key && Escapeless(f.value) }

  /** A JSON text is taken for the value it means exactly if it has no escape sequence. */
  lemma {:induction false} ShownMeansIff(d: Doc)
    requires Grammatical(d)
    ensures Represents(d, Shown(d)) <==> Escapeless(d)
    decreases d
  {
    hide StringChars, Unescape, ScalarText;
    match d.core {
      case Scalar(text) => ShownScalar(text);
      case Quoted(raw) =>
        FewerChars(raw);
        UnescapeIff(raw);
      case ListOf(items, _) =>
        forall i | 0 <= i < |items| ensures Represents(items[i], ShownItems(items)[i]) <==> Escapeless(items[i]) {
          ShownMeansIff(items[i]);
        }
      case ObjectOf(fields, _) =>
        forall i | 0 <= i < |fields|
          ensures RepresentsMember(fields[i], ShownFields(fields)[i]) <==> EscapelessField(fields[i])
        {
          ShownFieldMeansIff(fields[i]);
        }
    }
  }

  lemma {:induction false} ShownFieldMeansIff(f: Field)
    requires GrammaticalField(f)
    ensures RepresentsMember(f, ShownField(f)) <==> EscapelessField(f)
    decreases f
  {
    hide StringChars, Unescape;
    FewerChars(f.key);
    UnescapeIff(f.key);
    ShownMeansIff(f.value);
  }

  lemma ShownScalar(text: string)
    requires ScalarText(text)
    ensures text != ""
    ensures Keyword(text) ==> text[0] == 'n' || text[0] == 't' || text[0] == 'f'
    ensures text[0] == 'n' ==> text == "null"
    ensures text[0] == 't' ==> text == "true"
    ensures text[0] == 'f' ==> text == "false"
  {
    if NumberText(text) {
      NumberChars(text);
    }
  }
}
