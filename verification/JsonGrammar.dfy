/**
 * JSON texts after RFC 8259, as concrete syntax with all blanks, and the part of that syntax
 * that the tokeniser relies on.
 */
module JsonGrammar {
  import opened Jsmn

  // Section 7: strings.

  predicate HexDigit(c: char) { '0' <= c <= '9' || 'a' <= c <= 'f' || 'A' <= c <= 'F' }

  /** The character after the backslash of a two-character escape. */
  predicate ShortEscape(c: char) { c in {'\"', '\\', '/', 'b', 'f', 'n', 'r', 't'} }

  /** What can stand between quotes, if bare characters start at code `lowest`. */
  predicate StringChars(q: string, lowest: nat) {
    q == "" ||
    if q[0] == '\\' then
      |q| >= 2 &&
      if q[1] == 'u' then
        |q| >= 6 && HexDigit(q[2]) && HexDigit(q[3]) && HexDigit(q[4]) && HexDigit(q[5]) && StringChars(q[6..], lowest)
      else ShortEscape(q[1]) && StringChars(q[2..], lowest)
    else q[0] != '\"' && q[0] as int >= lowest && StringChars(q[1..], lowest)
  }

  /** The grammar leaves no control character bare; the tokeniser stops at NUL only. */
  const FIRST_BARE := 0x20
  const FIRST_READ := 1

  lemma {:induction false} FewerChars(q: string)
    requires StringChars(q, FIRST_BARE)
    ensures StringChars(q, FIRST_READ)
  {
    if q != "" {
      if q[0] != '\\' {
        FewerChars(q[1..]);
      } else if q[1] == 'u' {
        FewerChars(q[6..]);
      } else {
        FewerChars(q[2..]);
      }
    }
  }

  predicate CString(s: string) { forall i :: 0 <= i < |s| ==> s[i] != '\0' }

  lemma {:induction false} StringCharsAreCString(q: string)
    requires StringChars(q, FIRST_READ)
    ensures CString(q)
  {
    if q != "" {
      var k := if q[0] != '\\' then 1 else if q[1] == 'u' then 6 else 2;
      StringCharsAreCString(q[k..]);
      forall i | k <= i < |q| ensures q[i] != '\0' { assert q[i] == q[k..][i - k]; }
    }
  }

  /** `q` can stand between quotes: the scan after the opening quote ends at the closing one. */
  predicate Quotable(q: string) {
    CString(q) && StringEnd(q + "\"", 0) == At(|q|)
  }

  /** Four digits, a character that is none, or the end of the text. */
  lemma {:induction false} HexOutcome(s: string, p: nat, n: nat)
    requires p <= |s|
    ensures var h := HexEnd(s, p, n);
            if h.Fail? then exists k :: p <= k < p + n && k < |s| && !HexDigit(s[k])
            else if h.pos == p + n then forall k :: p <= k < p + n ==> HexDigit(s[k])
            else h.pos < p + n && (h.pos == |s| || s[h.pos] == '\0')
    decreases n
  {
    if n > 0 && p < |s| && s[p] != '\0' && IsHex(s[p]) {
      HexOutcome(s, p + 1, n - 1);
    }
  }

  lemma ScanHex(q: string, i: nat)
    requires i + 1 < |q| && q[i] == '\\' && q[i + 1] == 'u'
    ensures var s, h := q + "\"", HexEnd(q + "\"", i + 2, 4);
            if i + 6 <= |q| && HexDigit(q[i + 2]) && HexDigit(q[i + 3]) && HexDigit(q[i + 4]) && HexDigit(q[i + 5])
            then StringEnd(s, i) == StringEnd(s, i + 6)
            else StringEnd(s, i) != At(|q|)
  {
    var s, h := q + "\"", HexEnd(q + "\"", i + 2, 4);
    HexOutcome(s, i + 2, 4);
    assert StringEnd(s, i) == if h.Fail? then h else StringEnd(s, h.pos);
    assert s[|q|] == '\"';
  }

  /** The scan of a text with a quote behind it, from `i` on. */
  lemma {:induction false} ScanIff(q: string, i: nat)
    requires i <= |q|
    ensures StringEnd(q + "\"", i) == At(|q|) <==> StringChars(q[i..], FIRST_READ)
    decreases |q| - i
  {
    hide HexEnd;
    var s, t := q + "\"", q[i..];
    if i < |q| {
      assert t[0] == s[i] == q[i];
      if q[i] == '\\' {
        if i + 1 < |q| && q[i + 1] == 'u' {
          ScanHex(q, i);
          if i + 6 <= |q| {
            assert t[6..] == q[i + 6..];
            ScanIff(q, i + 6);
          }
        } else if i + 1 < |q| {
          assert t[2..] == q[i + 2..];
          ScanIff(q, i + 2);
        }
      } else {
        assert t[1..] == q[i + 1..];
        ScanIff(q, i + 1);
      }
    }
  }

  /** Exactly those texts that follow the grammar, control characters apart, can stand between quotes. */
  lemma QuotableIff(q: string)
    ensures Quotable(q) <==> StringChars(q, FIRST_READ)
  {
    ScanIff(q, 0);
    assert q[0..] == q;
    if StringChars(q, FIRST_READ) {
      StringCharsAreCString(q);
    }
  }

  // Section 6: numbers, as an automaton.

  datatype NumberState = Start | Minus | Zero | Digits | Dot | Fraction | Exp | Sign | ExpDigits | Broken

  predicate Digit(c: char) { '0' <= c <= '9' }

  function NumberStep(s: NumberState, c: char): NumberState {
    match s
    case Start => if c == '-' then Minus else if c == '0' then Zero else if Digit(c) then Digits else Broken
    case Minus => if c == '0' then Zero else if Digit(c) then Digits else Broken
    case Zero => if c == '.' then Dot else if c == 'e' || c == 'E' then Exp else Broken
    case Digits => if Digit(c) then Digits else if c == '.' then Dot else if c == 'e' || c == 'E' then Exp else Broken
    case Dot => if Digit(c) then Fraction else Broken
    case Fraction => if Digit(c) then Fraction else if c == 'e' || c == 'E' then Exp else Broken
    case Exp => if c == '+' || c == '-' then Sign else if Digit(c) then ExpDigits else Broken
    case Sign => if Digit(c) then ExpDigits else Broken
    case ExpDigits => if Digit(c) then ExpDigits else Broken
    case Broken => Broken
  }

  function NumberRun(t: string): NumberState {
    if t == "" then Start else NumberStep(NumberRun(t[..|t| - 1]), t[|t| - 1])
  }

  predicate NumberText(t: string) { NumberRun(t) in {Zero, Digits, Fraction, ExpDigits} }

  predicate ScalarText(t: string) { t == "null" || t == "true" || t == "false" || NumberText(t) }

  /** What the tokeniser reads as one primitive. */
  predicate Lexeme(s: string) {
    s != "" && s[0] !in {'{', '[', '\"'} && forall i :: 0 <= i < |s| ==> PrimitiveChar(s[i])
  }

  predicate PrimitiveChar(c: char) { 33 <= c as int < 127 && c !in {',', ':', ']', '}'} }

  predicate PrimitiveStop(c: char) { c in {'\0', '\t', '\r', '\n', ' ', ',', ':', ']', '}'} }

  /** A primitive consists of printable characters up to the first blank, comma, colon or closing bracket. */
  lemma {:induction false} PrimitiveEndIff(js: seq<char>, p: nat, e: nat)
    requires p <= |js|
    ensures PrimitiveEnd(js, p) == At(e) <==>
            && p <= e <= |js| && (forall k :: p <= k < e ==> PrimitiveChar(js[k]))
            && (e == |js| || PrimitiveStop(js[e]))
    decreases |js| - p
  {
    if p < |js| && !PrimitiveStop(js[p]) {
      PrimitiveEndIff(js, p + 1, e);
    }
  }

  lemma {:induction false} NumberChars(t: string)
    requires NumberRun(t) != Broken
    ensures forall i :: 0 <= i < |t| ==> Digit(t[i]) || t[i] in {'-', '+', '.', 'e', 'E'}
    ensures t != "" ==> Digit(t[0]) || t[0] == '-'
    ensures NumberRun(t) == Start ==> t == ""
  {
    if t != "" {
      NumberChars(t[..|t| - 1]);
    }
  }

  lemma ScalarIsLexeme(t: string)
    requires ScalarText(t)
    ensures Lexeme(t)
  {
    if NumberText(t) {
      NumberChars(t);
    }
  }

  // Sections 2 to 5: texts, with the blanks around every value.

  datatype Doc = Doc(before: string, core: Core, after: string)

  /** `blank` follows the last element. */
  datatype Core =
    | Scalar(text: string)
    | Quoted(raw: string)
    | ListOf(items: seq<Doc>, blank: string)
    | ObjectOf(fields: seq<Field>, blank: string)

  /** The key with the blanks in front of it and in front of the colon. */
  datatype Field = Field(before: string, key: string, colon: string, value: Doc)

  predicate Blanks(b: string) { forall i :: 0 <= i < |b| ==> b[i] in {' ', '\t', '\n', '\r'} }

  /** The separator in front of element `i`. */
  function Separator(i: nat): string { if i == 0 then "" else "," }

  function Render(d: Doc): string { d.before + RenderCore(d.core) + d.after }

  function RenderCore(c: Core): string {
    match c
    case Scalar(text) => text
    case Quoted(raw) => "\"" + raw + "\""
    case ListOf(items, blank) => "[" + (RenderItems(items) + (blank + "]"))
    case ObjectOf(fields, blank) => "{" + (RenderFields(fields) + (blank + "}"))
  }

  function RenderItems(items: seq<Doc>): string {
    if items == [] then ""
    else RenderItems(items[..|items| - 1]) + Separator(|items| - 1) + Render(items[|items| - 1])
  }

  function RenderKey(f: Field): string { f.before + ("\"" + f.key + "\"") + (f.colon + ":") }

  function RenderField(f: Field): string { RenderKey(f) + Render(f.value) }

  function RenderFields(fields: seq<Field>): string {
    if fields == [] then ""
    else RenderFields(fields[..|fields| - 1]) + Separator(|fields| - 1) + RenderField(fields[|fields| - 1])
  }

  /** A text of the grammar. */
  predicate Grammatical(d: Doc) {
    Blanks(d.before) && Blanks(d.after) &&
    match d.core
    case Scalar(text) => ScalarText(text)
    case Quoted(raw) => StringChars(raw, FIRST_BARE)
    case ListOf(items, blank) => Blanks(blank) && forall i :: 0 <= i < |items| ==> Grammatical(items[i])
    case ObjectOf(fields, blank) => Blanks(blank) && forall i :: 0 <= i < |fields| ==> GrammaticalField(fields[i])
  }

  predicate GrammaticalField(f: Field) {
    Blanks(f.before) && Blanks(f.colon) && StringChars(f.key, FIRST_BARE) && Grammatical(f.value)
  }

  /** The same, but for other primitives and control characters in strings. */
  predicate Tokenisable(d: Doc) {
    Blanks(d.before) && Blanks(d.after) &&
    match d.core
    case Scalar(text) => Lexeme(text)
    case Quoted(raw) => Quotable(raw)
    case ListOf(items, blank) => Blanks(blank) && forall i :: 0 <= i < |items| ==> Tokenisable(items[i])
    case ObjectOf(fields, blank) => Blanks(blank) && forall i :: 0 <= i < |fields| ==> TokenisableField(fields[i])
  }

  predicate TokenisableField(f: Field) {
    Blanks(f.before) && Blanks(f.colon) && Quotable(f.key) && Tokenisable(f.value)
  }

  lemma {:induction false} GrammaticalIsTokenisable(d: Doc)
    requires Grammatical(d)
    ensures Tokenisable(d)
    decreases d
  {
    hide Quotable, Lexeme, ScalarText, StringChars;
    match d.core {
      case Scalar(text) => ScalarIsLexeme(text);
      case Quoted(raw) =>
        FewerChars(raw);
        QuotableIff(raw);
      case ListOf(items, _) =>
        forall i | 0 <= i < |items| ensures Tokenisable(items[i]) { GrammaticalIsTokenisable(items[i]); }
      case ObjectOf(fields, _) =>
        forall i | 0 <= i < |fields| ensures TokenisableField(fields[i]) {
          assert GrammaticalField(fields[i]);
          FewerChars(fields[i].key);
          QuotableIff(fields[i].key);
          GrammaticalIsTokenisable(fields[i].value);
        }
    }
  }
}
