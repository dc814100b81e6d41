/**
 * The JSON tokeniser, in its non-strict build without parent links.
 *
 * It keeps no stack. The open containers are the tokens whose end is still -1, and
 * `super` is the token whose `size` the next value increments. Characters stand for bytes.
 */
module Jsmn {
  datatype Kind = Undefined | Object | Array | Str | Primitive

  datatype Token = Token(kind: Kind, start: int, end: int, size: nat)

  const NOMEM := -1
  const INVAL := -2
  const PART := -3

  predicate Open(t: Token) { t.start != -1 && t.end == -1 }

  predicate IsContainer(k: Kind) { k == Object || k == Array }

  // Scanning one primitive or string.

  predicate EndsPrimitive(c: char) {
    c == ':' || c == '\t' || c == '\r' || c == '\n' || c == ' ' || c == ',' || c == ']' || c == '}'
  }

  predicate Printable(c: char) { 32 <= c as int < 127 }

  datatype Scan = At(pos: nat) | Fail(code: int)

  /** Where the primitive that continues at `p` ends. */
  function PrimitiveEnd(js: seq<char>, p: nat): (r: Scan)
    requires p <= |js|
    ensures r.At? ==> p <= r.pos <= |js|
    ensures r.Fail? ==> r.code == INVAL
    decreases |js| - p
  {
    if p == |js| || js[p] == '\0' || EndsPrimitive(js[p]) then At(p)
    else if !Printable(js[p]) then Fail(INVAL)
    else PrimitiveEnd(js, p + 1)
  }

  predicate IsHex(c: char) { '0' <= c <= '9' || 'A' <= c <= 'F' || 'a' <= c <= 'f' }

  predicate IsEscape(c: char) {
    c == '\"' || c == '/' || c == '\\' || c == 'b' || c == 'f' || c == 'r' || c == 'n' || c == 't'
  }

  /** After at most `n` hexadecimal digits; stops early at the end of the input. */
  function HexEnd(js: seq<char>, p: nat, n: nat): (r: Scan)
    requires p <= |js|
    ensures r.At? ==> p <= r.pos <= |js|
    ensures r.Fail? ==> r.code == INVAL
    decreases n
  {
    if n == 0 || p == |js| || js[p] == '\0' then At(p)
    else if !IsHex(js[p]) then Fail(INVAL)
    else HexEnd(js, p + 1, n - 1)
  }

  /** The closing quote of the string that continues at `p`. */
  function StringEnd(js: seq<char>, p: nat): (r: Scan)
    requires p <= |js|
    ensures r.At? ==> p <= r.pos < |js| && js[r.pos] == '\"'
    ensures r.Fail? ==> r.code == INVAL || r.code == PART
    decreases |js| - p
  {
    if p == |js| || js[p] == '\0' then Fail(PART)
    else if js[p] == '\"' then At(p)
    else if js[p] == '\\' && p + 1 < |js| then
      if IsEscape(js[p + 1]) then StringEnd(js, p + 2)
      else if js[p + 1] == 'u' then
        var h := HexEnd(js, p + 2, 4);
        if h.Fail? then h else StringEnd(js, h.pos)
      else Fail(INVAL)
    else StringEnd(js, p + 1)
  }

  // The tokeniser as a function: one character or token at a time.

  /** `toks` are the tokens filled so far. */
  datatype Progress = Progress(pos: nat, toks: seq<Token>, super: int)

  ghost predicate Ok(js: seq<char>, st: Progress) {
    st.pos <= |js| && -1 <= st.super < |st.toks|
  }

  function Bump(toks: seq<Token>, super: int): (r: seq<Token>)
    requires -1 <= super < |toks|
    ensures |r| == |toks|
    ensures forall i :: 0 <= i < |toks| ==> r[i] == if i == super then toks[i].(size := toks[i].size + 1) else toks[i]
  {
    if super == -1 then toks else toks[super := toks[super].(size := toks[super].size + 1)]
  }

  /** The last open token, or -1. */
  function LastOpen(toks: seq<Token>): (i: int)
    ensures -1 <= i < |toks|
    ensures i >= 0 ==> Open(toks[i])
    ensures forall j :: i < j < |toks| ==> !Open(toks[j])
  {
    if toks == [] then -1
    else if Open(toks[|toks| - 1]) then |toks| - 1
    else LastOpen(toks[..|toks| - 1])
  }

  function LastOpenContainer(toks: seq<Token>): (i: int)
    ensures -1 <= i < |toks|
  {
    if toks == [] then -1
    else if Open(toks[|toks| - 1]) && IsContainer(toks[|toks| - 1].kind) then |toks| - 1
    else LastOpenContainer(toks[..|toks| - 1])
  }

  datatype Stepped = Next(st: Progress) | Stop(code: int)

  function KindOf(c: char): Kind { if c == '{' || c == '}' then Object else Array }

  predicate Blank(c: char) { c == '\t' || c == '\r' || c == '\n' || c == ' ' }

  /** A value token after the super token was incremented. */
  function Push(st: Progress, n: nat, t: Token, pos: nat, super: int): Stepped
    requires -1 <= st.super < |st.toks|
  {
    if |st.toks| >= n then Stop(NOMEM)
    else Next(Progress(pos, Bump(st.toks, st.super) + [t], super))
  }

  function OpenStep(js: seq<char>, n: nat, st: Progress): Stepped
    requires st.pos < |js| && -1 <= st.super < |st.toks|
  {
    Push(st, n, Token(KindOf(js[st.pos]), st.pos, -1, 0), st.pos + 1, |st.toks|)
  }

  function CloseStep(js: seq<char>, st: Progress): Stepped
    requires st.pos < |js|
  {
    var i := LastOpen(st.toks);
    if i == -1 || st.toks[i].kind != KindOf(js[st.pos]) then Stop(INVAL)
    else
      var toks := st.toks[i := st.toks[i].(end := st.pos + 1)];
      Next(Progress(st.pos + 1, toks, LastOpen(toks)))
  }

  function StringStep(js: seq<char>, n: nat, st: Progress): Stepped
    requires st.pos < |js| && -1 <= st.super < |st.toks|
  {
    var q := StringEnd(js, st.pos + 1);
    if q.Fail? then Stop(q.code)
    else Push(st, n, Token(Str, st.pos + 1, q.pos, 0), q.pos + 1, st.super)
  }

  function CommaStep(st: Progress): Progress
    requires -1 <= st.super < |st.toks|
  {
    if st.super != -1 && !IsContainer(st.toks[st.super].kind) && LastOpenContainer(st.toks) != -1
    then Progress(st.pos + 1, st.toks, LastOpenContainer(st.toks))
    else st.(pos := st.pos + 1)
  }

  function PrimitiveStep(js: seq<char>, n: nat, st: Progress): Stepped
    requires st.pos < |js| && -1 <= st.super < |st.toks|
  {
    var q := PrimitiveEnd(js, st.pos);
    if q.Fail? then Stop(q.code)
    else Push(st, n, Token(Primitive, st.pos, q.pos, 0), q.pos, st.super)
  }

  function Step(js: seq<char>, n: nat, st: Progress): (r: Stepped)
    requires Ok(js, st) && st.pos < |js| && js[st.pos] != '\0'
    ensures r.Next? ==> Ok(js, r.st) && r.st.pos > st.pos
  {
    var c := js[st.pos];
    if c == '{' || c == '[' then OpenStep(js, n, st)
    else if c == '}' || c == ']' then CloseStep(js, st)
    else if c == '\"' then StringStep(js, n, st)
    else if Blank(c) then Next(st.(pos := st.pos + 1))
    else if c == ':' then Next(st.(pos := st.pos + 1, super := |st.toks| - 1))
    else if c == ',' then Next(CommaStep(st))
    else PrimitiveStep(js, n, st)
  }

  datatype Parsed = Parsed(code: int, st: Progress)

  /** From `st` to the end of the input, with room for `n` tokens. */
  function Tokenise(js: seq<char>, n: nat, st: Progress): Parsed
    requires Ok(js, st)
    decreases |js| - st.pos
  {
    if st.pos < |js| && js[st.pos] != '\0' then
      var r := Step(js, n, st);
      if r.Stop? then Parsed(r.code, st) else Tokenise(js, n, r.st)
    else if LastOpen(st.toks) != -1 then Parsed(PART, st)
    else Parsed(|st.toks|, st)
  }

  const INIT := Progress(0, [], -1)

  // The dry run, without a token array: a count only.

  function DryRun(js: seq<char>, pos: nat, count: nat): int
    requires pos <= |js|
    decreases |js| - pos
  {
    if pos == |js| || js[pos] == '\0' then count
    else
      var c := js[pos];
      if c == '{' || c == '[' then DryRun(js, pos + 1, count + 1)
      else if c == '}' || c == ']' || Blank(c) || c == ':' || c == ',' then DryRun(js, pos + 1, count)
      else if c == '\"' then
        var q := StringEnd(js, pos + 1);
        if q.Fail? then q.code else DryRun(js, q.pos + 1, count + 1)
      else
        var q := PrimitiveEnd(js, pos);
        if q.Fail? then q.code else
          PrimitiveAdvances(js, pos);
          DryRun(js, q.pos, count + 1)
  }

  lemma PrimitiveAdvances(js: seq<char>, p: nat)
    requires p < |js| && js[p] != '\0' && !EndsPrimitive(js[p])
    ensures PrimitiveEnd(js, p).At? ==> PrimitiveEnd(js, p).pos > p
  {
  }

  lemma StringStops(js: seq<char>, p: nat)
    requires p <= |js|
    ensures p == |js| || js[p] == '\0' ==> StringEnd(js, p) == Fail(PART)
    ensures p < |js| && js[p] == '\"' ==> StringEnd(js, p) == At(p)
  {
  }

  lemma LastOpenContainerSnoc(toks: seq<Token>, i: nat)
    requires i < |toks|
    ensures LastOpenContainer(toks[..i + 1])
            == if Open(toks[i]) && IsContainer(toks[i].kind) then i else LastOpenContainer(toks[..i])
  {
    assert toks[..i + 1][..i] == toks[..i];
  }

  // The tokeniser as it runs.

  class Parser {
    var pos: nat
    var toknext: nat
    var toksuper: int

    constructor ()
      ensures pos == 0 && toknext == 0 && toksuper == -1
    {
      pos, toknext, toksuper := 0, 0, -1;
    }

    /** How far the parse has come, when there is a token array. */
    ghost function Now(tokens: array<Token>): Progress
      reads this, tokens
      requires toknext <= tokens.Length
    {
      Progress(pos, tokens[..toknext], toksuper)
    }

    /** The tokens not filled yet are as before. */
    twostate predicate Unfilled(tokens: array<Token>)
      reads this, tokens
    {
      forall k :: toknext <= k < tokens.Length ==> tokens[k] == old(tokens[k])
    }

    /** The next unused token: its index, or -1 when there is none. */
    method AllocToken(tokens: array<Token>) returns (i: int)
      requires toknext <= tokens.Length
      modifies this`toknext, tokens
      ensures if old(toknext) < tokens.Length
              then i == old(toknext) && toknext == i + 1
                   && tokens[..toknext] == old(tokens[..toknext]) + [tokens[i]] && tokens[i].size == 0
              else i == -1 && toknext == old(toknext) && tokens[..] == old(tokens[..])
      ensures Unfilled(tokens)
    {
      if toknext >= tokens.Length {
        return -1;
      }
      i := toknext;
      toknext := toknext + 1;
      tokens[i] := tokens[i].(start := -1, end := -1, size := 0);
    }

    /** Allocates the next token and fills it; false when there is none. */
    method AddToken(tokens: array<Token>, t: Token) returns (ok: bool)
      requires toknext <= tokens.Length
      modifies this`toknext, tokens
      ensures ok == (old(toknext) < tokens.Length)
      ensures if ok then toknext == old(toknext) + 1 && tokens[..toknext] == old(tokens[..toknext]) + [t]
              else toknext == old(toknext) && tokens[..] == old(tokens[..])
      ensures Unfilled(tokens)
    {
      var i := AllocToken(tokens);
      ok := i != -1;
      if ok {
        tokens[i] := t;
      }
    }

    method ParsePrimitive(js: seq<char>, tokens: array?<Token>) returns (r: int)
      requires pos < |js| && js[pos] != '\0' && !EndsPrimitive(js[pos])
      requires tokens != null ==> toknext <= tokens.Length
      modifies this`pos, this`toknext, tokens
      ensures var q := PrimitiveEnd(js, old(pos));
              if q.Fail? then r == q.code && toknext == old(toknext)
              else if tokens == null then r == 0 && pos + 1 == q.pos && toknext == old(toknext)
              else if old(toknext) == tokens.Length then r == NOMEM && toknext == old(toknext)
              else r == 0 && pos + 1 == q.pos && toknext == old(toknext) + 1 <= tokens.Length
                   && tokens[..toknext] == old(tokens[..toknext]) + [Token(Primitive, old(pos), q.pos, 0)]
      ensures r < 0 && tokens != null ==> tokens[..toknext] == old(tokens[..toknext])
      ensures tokens != null ==> Unfilled(tokens)
      ensures r < 0 ==> pos == old(pos)
    {
      var start := pos;
      while pos < |js| && js[pos] != '\0'
        invariant start <= pos <= |js|
        invariant PrimitiveEnd(js, start) == PrimitiveEnd(js, pos)
        invariant toknext == old(toknext) && (tokens != null ==> tokens[..] == old(tokens[..]))
        decreases |js| - pos
      {
        if EndsPrimitive(js[pos]) {
          break;
        }
        if js[pos] as int < 32 || js[pos] as int >= 127 {
          pos := start;
          return INVAL;
        }
        pos := pos + 1;
      }
      PrimitiveAdvances(js, start);
      if tokens == null {
        pos := pos - 1;
        return 0;
      }
      var ok := AddToken(tokens, Token(Primitive, start, pos, 0));
      if !ok {
        pos := start;
        return NOMEM;
      }
      pos := pos - 1;
      return 0;
    }

    /** The escape sequence after the backslash at `pos - 1`; leaves the cursor on its last character. */
    method SkipEscape(js: seq<char>) returns (ok: bool)
      requires 0 < pos < |js| && js[pos - 1] == '\\'
      modifies this`pos
      ensures var h := if js[old(pos)] == 'u' then HexEnd(js, old(pos) + 1, 4)
                       else if IsEscape(js[old(pos)]) then At(old(pos) + 1) else Fail(INVAL);
              if ok then h == At(pos + 1) && pos >= old(pos) else h == Fail(INVAL)
    {
      if IsEscape(js[pos]) {
        return true;
      }
      if js[pos] != 'u' {
        return false;
      }
      var first := pos + 1;
      pos := first;
      var i := 0;
      while i < 4 && pos < |js| && js[pos] != '\0'
        invariant i <= 4 && first <= pos <= |js|
        invariant HexEnd(js, first, 4) == HexEnd(js, pos, 4 - i)
      {
        if !IsHex(js[pos]) {
          return false;
        }
        pos := pos + 1;
        i := i + 1;
      }
      pos := pos - 1;
      return true;
    }

    /** A character of a string, or the escape sequence that starts with it. */
    method SkipChar(js: seq<char>) returns (ok: bool)
      requires pos < |js| && js[pos] != '\0' && js[pos] != '\"'
      modifies this`pos
      ensures if ok then old(pos) < pos <= |js| && StringEnd(js, old(pos)) == StringEnd(js, pos)
              else StringEnd(js, old(pos)) == Fail(INVAL)
    {
      ok := true;
      if js[pos] == '\\' && pos + 1 < |js| {
        pos := pos + 1;
        ok := SkipEscape(js);
      }
      pos := pos + 1;
    }

    method ParseString(js: seq<char>, tokens: array?<Token>) returns (r: int)
      requires pos < |js|
      requires tokens != null ==> toknext <= tokens.Length
      modifies this`pos, this`toknext, tokens
      ensures var q := StringEnd(js, old(pos) + 1);
              if q.Fail? then r == q.code && toknext == old(toknext)
              else if tokens == null then r == 0 && pos == q.pos && toknext == old(toknext)
              else if old(toknext) == tokens.Length then r == NOMEM && toknext == old(toknext)
              else r == 0 && pos == q.pos && toknext == old(toknext) + 1 <= tokens.Length
                   && tokens[..toknext] == old(tokens[..toknext]) + [Token(Str, old(pos) + 1, q.pos, 0)]
      ensures r < 0 && tokens != null ==> tokens[..toknext] == old(tokens[..toknext])
      ensures tokens != null ==> Unfilled(tokens)
      ensures r < 0 ==> pos == old(pos)
    {
      hide StringEnd;
      var start := pos;
      pos := pos + 1;
      while pos < |js| && js[pos] != '\0'
        invariant start < pos <= |js|
        invariant StringEnd(js, start + 1) == StringEnd(js, pos)
        invariant toknext == old(toknext) && (tokens != null ==> tokens[..] == old(tokens[..]))
        decreases |js| - pos
      {
        StringStops(js, pos);
        if js[pos] == '\"' {
          if tokens == null {
            return 0;
          }
          var ok := AddToken(tokens, Token(Str, start + 1, pos, 0));
          if !ok {
            pos := start;
            return NOMEM;
          }
          return 0;
        }
        var ok := SkipChar(js);
        if !ok {
          pos := start;
          return INVAL;
        }
      }
      StringStops(js, pos);
      pos := start;
      return PART;
    }

    /** `tokens[toksuper].size++`, when there is a super token. */
    method BumpSuper(tokens: array<Token>, ghost n: nat)
      requires -1 <= toksuper < n <= toknext <= tokens.Length
      modifies tokens
      ensures tokens[..n] == Bump(old(tokens[..n]), toksuper)
      ensures tokens[n..] == old(tokens[n..])
    {
      if toksuper != -1 {
        tokens[toksuper] := tokens[toksuper].(size := tokens[toksuper].size + 1);
      }
    }

    method OnOpen(js: seq<char>, tokens: array<Token>) returns (r: int)
      requires toknext <= tokens.Length && Ok(js, Now(tokens)) && pos < |js| && IsContainer(KindOf(js[pos]))
      modifies this, tokens
      ensures toknext <= tokens.Length
      ensures var s := OpenStep(js, tokens.Length, old(Now(tokens)));
              if r == 0 then s == Next(Now(tokens).(pos := pos + 1)) else s == Stop(r) && r == NOMEM && Now(tokens) == old(Now(tokens))
      ensures Unfilled(tokens)
    {
      ghost var n := toknext;
      ghost var before := tokens[..toknext];
      var i := AllocToken(tokens);
      if i == -1 {
        return NOMEM;
      }
      assert tokens[..n] == before;
      BumpSuper(tokens, n);
      tokens[i] := tokens[i].(kind := KindOf(js[pos]), start := pos, end := -1, size := 0);
      toksuper := toknext - 1;
      assert tokens[..toknext] == tokens[..n] + [tokens[i]];
      return 0;
    }

    /** The loop that walks back from `from` to the nearest open token. */
    method FindOpen(tokens: array<Token>, from: int) returns (i: int)
      requires -1 <= from < tokens.Length
      ensures i == LastOpen(tokens[..from + 1])
    {
      i := from;
      while i >= 0
        invariant -1 <= i <= from && LastOpen(tokens[..from + 1]) == LastOpen(tokens[..i + 1])
      {
        if Open(tokens[i]) {
          return;
        }
        assert tokens[..i + 1][..i] == tokens[..i];
        i := i - 1;
      }
    }

    method OnClose(js: seq<char>, tokens: array<Token>) returns (r: int)
      requires toknext <= tokens.Length && Ok(js, Now(tokens)) && pos < |js|
      modifies this`toksuper, tokens
      ensures var s := CloseStep(js, old(Now(tokens)));
              if r == 0 then s == Next(Now(tokens).(pos := pos + 1)) else s == Stop(r) && r == INVAL && Now(tokens) == old(Now(tokens))
      ensures Unfilled(tokens)
    {
      hide LastOpen, KindOf;
      ghost var toks := tokens[..toknext];
      var i := FindOpen(tokens, toknext - 1);
      if i == -1 || tokens[i].kind != KindOf(js[pos]) {
        return INVAL;
      }
      toksuper := -1;
      tokens[i] := tokens[i].(end := pos + 1);
      ghost var closed := toks[i := tokens[i]];
      assert tokens[..toknext] == closed && toks[i] == old(tokens[i]);
      LastOpenAfter(closed, i);
      assert closed[..i + 1] == tokens[..i + 1];
      i := FindOpen(tokens, i);
      if i != -1 {
        toksuper := i;
      }
      return 0;
    }

    method OnComma(tokens: array<Token>, ghost js: seq<char>)
      requires toknext <= tokens.Length && Ok(js, Now(tokens))
      modifies this`toksuper
      ensures Now(tokens).(pos := pos + 1) == CommaStep(old(Now(tokens)))
    {
      if toksuper != -1 && !IsContainer(tokens[toksuper].kind) {
        ghost var toks := tokens[..toknext];
        assert toks[..toknext] == toks;
        var i := toknext - 1;
        while i >= 0
          invariant -1 <= i < toknext && LastOpenContainer(toks) == LastOpenContainer(toks[..i + 1])
          invariant toksuper == old(toksuper)
        {
          hide LastOpenContainer;
          LastOpenContainerSnoc(toks, i);
          if IsContainer(tokens[i].kind) && Open(tokens[i]) {
            toksuper := i;
            break;
          }
          i := i - 1;
        }
      }
    }

    /** One character of the input, or one string or primitive, with a token array. */
    method ParseOne(js: seq<char>, tokens: array<Token>) returns (r: int)
      requires toknext <= tokens.Length && Ok(js, Now(tokens)) && pos < |js| && js[pos] != '\0'
      modifies this, tokens
      ensures toknext <= tokens.Length
      ensures var s := Step(js, tokens.Length, old(Now(tokens)));
              if r == 0 then s == Next(Now(tokens).(pos := pos + 1)) else s == Stop(r) && Now(tokens) == old(Now(tokens))
      ensures Unfilled(tokens)
    {
      var c := js[pos];
      if c == '{' || c == '[' {
        r := OnOpen(js, tokens);
      } else if c == '}' || c == ']' {
        r := OnClose(js, tokens);
      } else if Blank(c) {
        r := 0;
      } else if c == ':' {
        toksuper := toknext - 1;
        r := 0;
      } else if c == ',' {
        OnComma(tokens, js);
        r := 0;
      } else {
        r := OnValue(js, tokens);
      }
    }

    method OnValue(js: seq<char>, tokens: array<Token>) returns (r: int)
      requires toknext <= tokens.Length && Ok(js, Now(tokens)) && pos < |js| && js[pos] != '\0'
      requires js[pos] == '\"' || !EndsPrimitive(js[pos])
      modifies this, tokens
      ensures toknext <= tokens.Length
      ensures var st := old(Now(tokens));
              var s := if js[st.pos] == '\"' then StringStep(js, tokens.Length, st) else PrimitiveStep(js, tokens.Length, st);
              if r == 0 then s == Next(Now(tokens).(pos := pos + 1)) else s == Stop(r) && Now(tokens) == st
      ensures Unfilled(tokens)
    {
      ghost var n := toknext;
      ghost var before := tokens[..toknext];
      if js[pos] == '\"' {
        r := ParseString(js, tokens);
      } else {
        r := ParsePrimitive(js, tokens);
      }
      if r < 0 {
        return;
      }
      ghost var last := tokens[n];
      assert tokens[..n] == before;
      BumpSuper(tokens, n);
      assert tokens[n] == last;
      assert tokens[..toknext] == tokens[..n] + [last];
    }

    /** One character, string or primitive, without a token array. */
    method SkipOne(js: seq<char>) returns (r: int)
      requires pos < |js| && js[pos] != '\0' && toknext == 0
      modifies this
      ensures toknext == 0
      ensures if r < 0 then r == DryRun(js, old(pos), 0) && forall count: nat :: r == DryRun(js, old(pos), count)
              else old(pos) <= pos < |js| && r <= 1
                   && forall count: nat :: DryRun(js, old(pos), count) == DryRun(js, pos + 1, count + r)
    {
      var c := js[pos];
      if c == '{' || c == '[' {
        return 1;
      } else if c == '}' || c == ']' || Blank(c) || c == ',' {
        return 0;
      } else if c == ':' {
        toksuper := toknext - 1;
        return 0;
      } else if c == '\"' {
        r := ParseString(js, null);
      } else {
        PrimitiveAdvances(js, pos);
        r := ParsePrimitive(js, null);
      }
      if r == 0 {
        r := 1;
      }
    }

    /**
     * The whole tokeniser. With a token array the result and the tokens are those of
     * `Tokenise`; without one the result is the count of the dry run.
     */
    method Parse(js: seq<char>, tokens: array?<Token>) returns (code: int)
      requires pos == 0 && toknext == 0 && toksuper == -1
      modifies this, tokens
      ensures tokens == null ==> code == DryRun(js, 0, 0)
      ensures tokens != null ==> toknext <= tokens.Length && Tokenise(js, tokens.Length, INIT) == Parsed(code, Now(tokens))
      ensures tokens != null ==> Unfilled(tokens)
    {
      hide Step, Tokenise, DryRun, LastOpen;
      var count: int := toknext;
      while pos < |js| && js[pos] != '\0'
        invariant pos <= |js| && count >= 0
        invariant tokens == null ==> toknext == 0 && DryRun(js, 0, 0) == DryRun(js, pos, count)
        invariant tokens != null ==> toknext <= tokens.Length && Ok(js, Now(tokens)) && count == toknext
        invariant tokens != null ==> Unfilled(tokens)
        invariant tokens != null ==> Tokenise(js, tokens.Length, INIT) == Tokenise(js, tokens.Length, Now(tokens))
        decreases |js| - pos
      {
        if tokens == null {
          var r := SkipOne(js);
          if r < 0 {
            return r;
          }
          count := count + r;
        } else {
          var c := js[pos];
          TokeniseSteps(js, tokens.Length, Now(tokens));
          StepCount(js, tokens.Length, Now(tokens));
          var r := ParseOne(js, tokens);
          if r != 0 {
            return r;
          }
          if !(c == '}' || c == ']' || Blank(c) || c == ':' || c == ',') {
            count := count + 1;
          }
        }
        pos := pos + 1;
      }
      if tokens != null {
        var i := FindOpen(tokens, toknext - 1);
        TokeniseEnds(js, tokens.Length, Now(tokens));
        if i != -1 {
          return PART;
        }
      } else {
        DryRunEnds(js, pos, count);
      }
      return count;
    }
  }

  lemma TokeniseSteps(js: seq<char>, n: nat, st: Progress)
    requires Ok(js, st) && st.pos < |js| && js[st.pos] != '\0'
    ensures var r := Step(js, n, st);
            Tokenise(js, n, st) == if r.Stop? then Parsed(r.code, st) else Tokenise(js, n, r.st)
  {
  }

  lemma TokeniseEnds(js: seq<char>, n: nat, st: Progress)
    requires Ok(js, st) && (st.pos == |js| || js[st.pos] == '\0')
    ensures Tokenise(js, n, st) == Parsed(if LastOpen(st.toks) != -1 then PART else |st.toks|, st)
  {
  }

  lemma DryRunEnds(js: seq<char>, pos: nat, count: nat)
    requires pos <= |js| && (pos == |js| || js[pos] == '\0')
    ensures DryRun(js, pos, count) == count
  {
  }

  /** Exactly the containers, strings and primitives add a token. */
  lemma StepCount(js: seq<char>, n: nat, st: Progress)
    requires Ok(js, st) && st.pos < |js| && js[st.pos] != '\0'
    ensures var r, c := Step(js, n, st), js[st.pos];
            r.Next? ==>
              |r.st.toks| == |st.toks| + if c == '}' || c == ']' || Blank(c) || c == ':' || c == ',' then 0 else 1
  {
    hide StringEnd, PrimitiveEnd, LastOpen, LastOpenContainer;
  }

  lemma {:induction false} LastOpenAfter(toks: seq<Token>, i: nat)
    requires i < |toks| && forall j :: i < j < |toks| ==> !Open(toks[j])
    ensures LastOpen(toks) == LastOpen(toks[..i + 1])
    decreases |toks|
  {
    if i == |toks| - 1 {
      assert toks[..i + 1] == toks;
    } else {
      assert toks[..|toks| - 1][..i + 1] == toks[..i + 1];
      LastOpenAfter(toks[..|toks| - 1], i);
    }
  }
}
