/**
 * JSON values and their printer: the size computation and the writer.
 *
 * Characters stand for bytes. A number is the lexeme that `%g` or `%lld` prints for it.
 */
module Json {
  datatype Member = Member(key: string, value: Json)

  datatype Json =
    | JsonNull
    | JsonTrue
    | JsonFalse
    | JsonNumber(lexeme: string)
    | JsonString(text: string)
    | JsonArray(items: seq<Json>)
    | JsonObject(members: seq<Member>)

  const BACKSPACE := 8 as char
  const FORM_FEED := 12 as char

  /** How the printer writes one character of a string. A quote becomes `\t`. */
  function Escape(c: char): string {
    if c == BACKSPACE then "\\b"
    else if c == FORM_FEED then "\\f"
    else if c == '\n' then "\\n"
    else if c == '\r' then "\\r"
    else if c == '\t' || c == '\"' then "\\t"
    else if c == '\\' then "\\\\"
    else [c]
  }

  function Escaped(s: string): string {
    if s == "" then "" else Escaped(s[..|s| - 1]) + Escape(s[|s| - 1])
  }

  /** The separator in front of element `i`. */
  function Comma(i: nat): string { if i == 0 then "" else "," }

  function PrintKey(key: string): string { "\"" + key + "\":" }

  function Print(v: Json): string {
    match v
    case JsonNull => "null"
    case JsonTrue => "true"
    case JsonFalse => "false"
    case JsonNumber(lexeme) => lexeme
    case JsonString(text) => "\"" + Escaped(text) + "\""
    case JsonArray(items) => "[" + PrintItems(items) + "]"
    case JsonObject(members) => "{" + PrintMembers(members) + "}"
  }

  function PrintItems(items: seq<Json>): string {
    if items == [] then ""
    else PrintItems(items[..|items| - 1]) + Comma(|items| - 1) + Print(items[|items| - 1])
  }

  function PrintMember(e: Member): string { PrintKey(e.key) + Print(e.value) }

  function PrintMembers(members: seq<Member>): string {
    if members == [] then ""
    else PrintMembers(members[..|members| - 1]) + Comma(|members| - 1) + PrintMember(members[|members| - 1])
  }

  lemma ItemsPrefix(items: seq<Json>, i: nat)
    requires i < |items|
    ensures PrintItems(items[..i + 1]) == PrintItems(items[..i]) + Comma(i) + Print(items[i])
  {
    assert items[..i + 1][..i] == items[..i];
  }

  lemma MembersPrefix(members: seq<Member>, i: nat)
    requires i < |members|
    ensures PrintMembers(members[..i + 1])
            == PrintMembers(members[..i]) + Comma(i) + PrintMember(members[i])
  {
    assert members[..i + 1][..i] == members[..i];
  }

  lemma EscapedPrefix(s: string, i: nat)
    requires i < |s|
    ensures Escaped(s[..i + 1]) == Escaped(s[..i]) + Escape(s[i])
  {
    assert s[..i + 1][..i] == s[..i];
  }

  /** What has been printed of an array when the loop is at item `i`. */
  ghost function ArrayText(items: seq<Json>, i: nat): string
    requires i <= |items|
  {
    "[" + PrintItems(items[..i]) + if 0 < i < |items| then "," else ""
  }

  ghost function ObjectText(members: seq<Member>, i: nat): string
    requires i <= |members|
  {
    "{" + PrintMembers(members[..i]) + if 0 < i < |members| then "," else ""
  }

  /** Element `i` of `n` with the comma that follows it. */
  ghost function Separated(text: string, i: nat, n: nat): string {
    if i + 1 == n then text else text + ","
  }

  lemma ArrayTextEnds(items: seq<Json>)
    ensures ArrayText(items, 0) == "[" && ArrayText(items, |items|) + "]" == Print(JsonArray(items))
  {
    assert items[..|items|] == items && items[..0] == [];
  }

  lemma ObjectTextEnds(members: seq<Member>)
    ensures ObjectText(members, 0) == "{" && ObjectText(members, |members|) + "}" == Print(JsonObject(members))
  {
    assert members[..|members|] == members && members[..0] == [];
  }

  lemma ArrayTextStep(items: seq<Json>, i: nat)
    requires i < |items|
    ensures ArrayText(items, i + 1) == ArrayText(items, i) + Separated(Print(items[i]), i, |items|)
  {
    hide Print, PrintItems;
    ItemsPrefix(items, i);
  }

  lemma ObjectTextStep(members: seq<Member>, i: nat)
    requires i < |members|
    ensures ObjectText(members, i + 1)
            == ObjectText(members, i) + Separated(PrintMember(members[i]), i, |members|)
  {
    hide Print, PrintMember, PrintMembers;
    MembersPrefix(members, i);
  }

  lemma {:induction false} ArrayTextGrows(items: seq<Json>, i: nat)
    requires i <= |items|
    ensures |ArrayText(items, i)| <= |ArrayText(items, |items|)|
    decreases |items| - i
  {
    if i < |items| {
      hide ArrayText, Print;
      ArrayTextStep(items, i);
      ArrayTextGrows(items, i + 1);
    }
  }

  lemma {:induction false} ObjectTextGrows(members: seq<Member>, i: nat)
    requires i <= |members|
    ensures |ObjectText(members, i)| <= |ObjectText(members, |members|)|
    decreases |members| - i
  {
    if i < |members| {
      hide ObjectText, PrintMember;
      ObjectTextStep(members, i);
      ObjectTextGrows(members, i + 1);
    }
  }

  // The size computation.

  /** The number of bytes `v` is printed as, without printing it. */
  method CalcValueSize(v: Json) returns (size: nat)
    ensures size == |Print(v)|
    decreases v
  {
    match v {
      case JsonNull => size := 4;
      case JsonTrue => size := 4;
      case JsonFalse => size := 5;
      case JsonNumber(lexeme) => size := |lexeme|;
      case JsonString(text) => size := CalcStringSize(text);
      case JsonArray(items) => size := CalcArraySize(items);
      case JsonObject(members) => size := CalcObjectSize(members);
    }
  }

  method CalcStringSize(text: string) returns (size: nat)
    ensures size == |Escaped(text)| + 2
  {
    size := 2;
    for i := 0 to |text|
      invariant size == |Escaped(text[..i])| + 2
    {
      EscapedPrefix(text, i);
      if text[i] in {BACKSPACE, FORM_FEED, '\n', '\r', '\t', '\"', '\\'} {
        size := size + 2;
      } else {
        size := size + 1;
      }
    }
    assert text[..|text|] == text;
  }

  method CalcArraySize(items: seq<Json>) returns (size: nat)
    ensures size == |PrintItems(items)| + 2
    decreases items
  {
    size := 2;
    for i := 0 to |items|
      invariant size == |PrintItems(items[..i])| + 2 + if 0 < i < |items| then 1 else 0
    {
      ItemsPrefix(items, i);
      var s := CalcValueSize(items[i]);
      size := size + s;
      if i + 1 != |items| {
        size := size + 1;
      }
    }
    assert items[..|items|] == items;
  }

  method CalcObjectSize(members: seq<Member>) returns (size: nat)
    ensures size == |PrintMembers(members)| + 2
    decreases members
  {
    size := 2;
    for i := 0 to |members|
      invariant size == |PrintMembers(members[..i])| + 2 + if 0 < i < |members| then 1 else 0
    {
      MembersPrefix(members, i);
      var s := CalcValueSize(members[i].value);
      size := size + |members[i].key| + 3 + s;
      if i + 1 != |members| {
        size := size + 1;
      }
    }
    assert members[..|members|] == members;
  }

  // The writer.

  /** From `m` to `m'`: `text` was written at `at`, and at most a NUL right after it. */
  ghost predicate Appended(m: seq<char>, m': seq<char>, at: nat, text: string) {
    && at + |text| < |m| == |m'|
    && m'[at..at + |text|] == text
    && forall i :: 0 <= i < |m| && !(at <= i <= at + |text|) ==> m'[i] == m[i]
  }

  lemma AppendedTwice(m: seq<char>, m': seq<char>, m'': seq<char>, at: nat, a: string, b: string)
    requires Appended(m, m', at, a) && Appended(m', m'', at + |a|, b)
    ensures Appended(m, m'', at, a + b)
  {
    assert m''[at..at + |a|] == m'[at..at + |a|];
    assert m''[at..at + |a + b|] == m''[at..at + |a|] + m''[at + |a|..at + |a| + |b|];
  }

  class Writer {
    const buf: array<char>
    var pos: nat

    constructor (buf: array<char>)
      ensures this.buf == buf && pos == 0
    {
      this.buf, pos := buf, 0;
    }

    method Put(c: char)
      requires pos + 1 < buf.Length
      modifies this`pos, buf
      ensures pos == old(pos) + 1 && Appended(old(buf[..]), buf[..], old(pos), [c])
    {
      buf[pos] := c;
      pos := pos + 1;
    }

    /** `sprintf`: the text and a terminating NUL, which the cursor does not pass. */
    method Sprintf(text: string)
      requires pos + |text| < buf.Length
      modifies this`pos, buf
      ensures pos == old(pos) + |text| && Appended(old(buf[..]), buf[..], old(pos), text)
    {
      forall i | 0 <= i < |text| {
        buf[pos + i] := text[i];
      }
      pos := pos + |text|;
      buf[pos] := '\0';
    }

    /** Appends the text of `v`, given one byte more than the computed size. */
    method WriteValue(v: Json)
      requires pos + |Print(v)| < buf.Length
      modifies this`pos, buf
      ensures pos == old(pos) + |Print(v)| && Appended(old(buf[..]), buf[..], old(pos), Print(v))
      decreases v
    {
      match v {
        case JsonNull => Sprintf("null");
        case JsonTrue => Sprintf("true");
        case JsonFalse => Sprintf("false");
        case JsonNumber(lexeme) => Sprintf(lexeme);
        case JsonString(text) => WriteString(text);
        case JsonArray(items) => WriteArray(items);
        case JsonObject(members) => WriteObject(members);
      }
    }

    method WriteString(text: string)
      requires pos + |Escaped(text)| + 2 < buf.Length
      modifies this`pos, buf
      ensures pos == old(pos) + |Escaped(text)| + 2
      ensures Appended(old(buf[..]), buf[..], old(pos), "\"" + Escaped(text) + "\"")
    {
      hide Appended, Escaped, Escape;
      ghost var start, m := pos, buf[..];
      Put('\"');
      ghost var done := ['\"'];
      assert done == "\"" + Escaped(text[..0]) by { EscapedEmpty(); }
      for i := 0 to |text|
        invariant done == "\"" + Escaped(text[..i]) && |Escaped(text[..i])| <= |Escaped(text)|
        invariant pos == start + |done| && Appended(m, buf[..], start, done)
      {
        EscapedPrefix(text, i);
        EscapedGrows(text, i + 1);
        ghost var before := buf[..];
        WriteChar(text[i]);
        AppendedTwice(m, before, buf[..], start, done, Escape(text[i]));
        assert "\"" + Escaped(text[..i]) + Escape(text[i]) == "\"" + Escaped(text[..i + 1]);
        done := done + Escape(text[i]);
      }
      assert text[..|text|] == text;
      ghost var before := buf[..];
      Put('\"');
      AppendedTwice(m, before, buf[..], start, done, ['\"']);
    }

    method WriteChar(c: char)
      requires pos + |Escape(c)| < buf.Length
      modifies this`pos, buf
      ensures pos == old(pos) + |Escape(c)| && Appended(old(buf[..]), buf[..], old(pos), Escape(c))
    {
      if c == BACKSPACE {
        PutEscape('b');
      } else if c == FORM_FEED {
        PutEscape('f');
      } else if c == '\n' {
        PutEscape('n');
      } else if c == '\r' {
        PutEscape('r');
      } else if c == '\t' {
        PutEscape('t');
      } else if c == '\"' {
        PutEscape('t');
      } else if c == '\\' {
        PutEscape('\\');
      } else {
        Put(c);
      }
    }

    method PutEscape(c: char)
      requires pos + 2 < buf.Length
      modifies this`pos, buf
      ensures pos == old(pos) + 2 && Appended(old(buf[..]), buf[..], old(pos), ['\\', c])
    {
      Put('\\');
      Put(c);
    }

    method WriteArray(items: seq<Json>)
      requires pos + |Print(JsonArray(items))| < buf.Length
      modifies this`pos, buf
      ensures pos == old(pos) + |Print(JsonArray(items))|
      ensures Appended(old(buf[..]), buf[..], old(pos), Print(JsonArray(items)))
      decreases items, 1
    {
      hide Appended, Print, ArrayText;
      ghost var start, m := pos, buf[..];
      ArrayTextEnds(items);
      Sprintf("[");
      for i := 0 to |items|
        invariant pos == start + |ArrayText(items, i)| && Appended(m, buf[..], start, ArrayText(items, i))
      {
        ghost var before := buf[..];
        ArrayTextStep(items, i);
        ArrayTextGrows(items, i + 1);
        WriteItem(items, i);
        AppendedTwice(m, before, buf[..], start, ArrayText(items, i), Separated(Print(items[i]), i, |items|));
      }
      ghost var before := buf[..];
      Sprintf("]");
      AppendedTwice(m, before, buf[..], start, ArrayText(items, |items|), "]");
    }

    /** One round of the loop over the items. */
    method WriteItem(items: seq<Json>, i: nat)
      requires i < |items| && pos + |Separated(Print(items[i]), i, |items|)| < buf.Length
      modifies this`pos, buf
      ensures pos == old(pos) + |Separated(Print(items[i]), i, |items|)|
      ensures Appended(old(buf[..]), buf[..], old(pos), Separated(Print(items[i]), i, |items|))
      decreases items, 0
    {
      hide Appended, Print;
      ghost var start, m := pos, buf[..];
      WriteValue(items[i]);
      if i + 1 != |items| {
        ghost var before := buf[..];
        Sprintf(",");
        AppendedTwice(m, before, buf[..], start, Print(items[i]), ",");
      }
    }

    method WriteObject(members: seq<Member>)
      requires pos + |Print(JsonObject(members))| < buf.Length
      modifies this`pos, buf
      ensures pos == old(pos) + |Print(JsonObject(members))|
      ensures Appended(old(buf[..]), buf[..], old(pos), Print(JsonObject(members)))
      decreases members, 1
    {
      hide Appended, Print, ObjectText, PrintMember;
      ghost var start, m := pos, buf[..];
      ObjectTextEnds(members);
      Sprintf("{");
      for i := 0 to |members|
        invariant pos == start + |ObjectText(members, i)| && Appended(m, buf[..], start, ObjectText(members, i))
      {
        ghost var before := buf[..];
        ObjectTextStep(members, i);
        ObjectTextGrows(members, i + 1);
        WriteMember(members, i);
        AppendedTwice(m, before, buf[..], start, ObjectText(members, i), Separated(PrintMember(members[i]), i, |members|));
      }
      ghost var before := buf[..];
      Sprintf("}");
      AppendedTwice(m, before, buf[..], start, ObjectText(members, |members|), "}");
    }

    /** One round of the loop over the members. */
    method WriteMember(members: seq<Member>, i: nat)
      requires i < |members| && pos + |Separated(PrintMember(members[i]), i, |members|)| < buf.Length
      modifies this`pos, buf
      ensures pos == old(pos) + |Separated(PrintMember(members[i]), i, |members|)|
      ensures Appended(old(buf[..]), buf[..], old(pos), Separated(PrintMember(members[i]), i, |members|))
      decreases members, 0
    {
      hide Appended, Print, PrintKey;
      ghost var start, m, e := pos, buf[..], members[i];
      Sprintf(PrintKey(members[i].key));
      ghost var before := buf[..];
      WriteValue(members[i].value);
      AppendedTwice(m, before, buf[..], start, PrintKey(e.key), Print(e.value));
      if i + 1 != |members| {
        before := buf[..];
        Sprintf(",");
        AppendedTwice(m, before, buf[..], start, PrintMember(e), ",");
      }
    }
  }

  lemma EscapedEmpty()
    ensures Escaped("") == ""
  {
  }

  lemma {:induction false} EscapedGrows(s: string, i: nat)
    requires i <= |s|
    ensures |Escaped(s[..i])| <= |Escaped(s)|
  {
    if i == |s| {
      assert s[..i] == s;
    } else {
      assert s[..|s| - 1][..i] == s[..i];
      EscapedGrows(s[..|s| - 1], i);
    }
  }

  /**
   * A message is encoded by the size computation, an allocation of one byte more, and the
   * writer. All but the terminator is the text of the value.
   */
  method EncodeJson(v: Json) returns (buf: array<char>, size: nat)
    ensures fresh(buf) && size == |Print(v)| && buf.Length == size + 1
    ensures buf[..size] == Print(v)
  {
    size := CalcValueSize(v);
    buf := new char[size + 1];
    var w := new Writer(buf);
    w.WriteValue(v);
  }
}
