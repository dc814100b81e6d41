/**
 * What the tokeniser guarantees about its tokens.
 *
 * The token array is a well-nested forest at every step, its open tokens are the stack
 * of a bracket matcher, and the result is the one of a parser that does keep a stack.
 */
module JsmnInvariant {
  import opened Jsmn

  // The forest.

  predicate Opens(c: char, k: Kind) { (c == '{' && k == Object) || (c == '[' && k == Array) }

  predicate Closes(c: char, k: Kind) { (c == '}' && k == Object) || (c == ']' && k == Array) }

  /** `t` is a token of the text before `pos`; it may still be open. */
  predicate TokenFits(js: seq<char>, t: Token, pos: nat) {
    && 0 <= t.start < pos <= |js|
    && -1 <= t.end <= pos
    && (IsContainer(t.kind) ==>
          && Opens(js[t.start], t.kind)
          && (t.end != -1 ==> t.start + 2 <= t.end && Closes(js[t.end - 1], t.kind)))
    && (t.kind == Str ==>
          && 0 < t.start <= t.end < pos
          && js[t.start - 1] == '\"' && StringEnd(js, t.start) == At(t.end))
    && (t.kind == Primitive ==> t.start < t.end)
    && t.kind != Undefined
  }

  /** An earlier token either ends before a later one, or is a container around it. */
  predicate Ordered(a: Token, b: Token) {
    && a.start < b.start
    && (a.end == -1 || a.end <= b.start || (IsContainer(a.kind) && b.end != -1 && b.end < a.end))
  }

  ghost predicate Forest(js: seq<char>, toks: seq<Token>, pos: nat) {
    && (forall i :: 0 <= i < |toks| ==> TokenFits(js, toks[i], pos))
    && (forall i, j :: 0 <= i < j < |toks| ==> Ordered(toks[i], toks[j]))
  }

  lemma BumpKeepsForest(js: seq<char>, toks: seq<Token>, super: int, pos: nat)
    requires Forest(js, toks, pos) && -1 <= super < |toks|
    ensures Forest(js, Bump(toks, super), pos)
  {
    var r := Bump(toks, super);
    forall i | 0 <= i < |r| ensures TokenFits(js, r[i], pos) {
      assert TokenFits(js, toks[i], pos);
    }
    forall i, j | 0 <= i < j < |r| ensures Ordered(r[i], r[j]) {
      assert Ordered(toks[i], toks[j]);
    }
  }

  lemma LaterKeepsForest(js: seq<char>, toks: seq<Token>, pos: nat, later: nat)
    requires Forest(js, toks, pos) && pos <= later <= |js|
    ensures Forest(js, toks, later)
  {
    forall i | 0 <= i < |toks| ensures TokenFits(js, toks[i], later) {
      assert TokenFits(js, toks[i], pos);
    }
  }

  lemma AppendKeepsForest(js: seq<char>, toks: seq<Token>, pos: nat, t: Token, later: nat)
    requires Forest(js, toks, pos) && pos <= t.start && TokenFits(js, t, later)
    ensures Forest(js, toks + [t], later)
  {
    LaterKeepsForest(js, toks, pos, later);
    var r := toks + [t];
    forall i, j | 0 <= i < j < |r| ensures Ordered(r[i], r[j]) {
      assert TokenFits(js, toks[i], pos);
      if j < |toks| {
        assert Ordered(toks[i], toks[j]);
      }
    }
  }

  lemma CloseKeepsForest(js: seq<char>, toks: seq<Token>, pos: nat)
    requires Forest(js, toks, pos) && pos < |js|
    requires LastOpen(toks) != -1 && Closes(js[pos], toks[LastOpen(toks)].kind)
    ensures Forest(js, toks[LastOpen(toks) := toks[LastOpen(toks)].(end := pos + 1)], pos + 1)
  {
    var i := LastOpen(toks);
    var r := toks[i := toks[i].(end := pos + 1)];
    forall j | 0 <= j < |r| ensures TokenFits(js, r[j], pos + 1) {
      assert TokenFits(js, toks[j], pos);
    }
    forall j, k | 0 <= j < k < |r| ensures Ordered(r[j], r[k]) {
      assert Ordered(toks[j], toks[k]) && TokenFits(js, toks[k], pos) && TokenFits(js, toks[j], pos);
    }
  }

  /** One step of the tokeniser keeps the forest. */
  lemma StepKeepsForest(js: seq<char>, n: nat, st: Progress)
    requires Ok(js, st) && st.pos < |js| && js[st.pos] != '\0' && Forest(js, st.toks, st.pos)
    ensures var r := Step(js, n, st); r.Next? ==> Forest(js, r.st.toks, r.st.pos)
  {
    hide StringEnd, PrimitiveEnd, LastOpen, LastOpenContainer, Forest, Bump;
    var c, p := js[st.pos], st.pos;
    BumpKeepsForest(js, st.toks, st.super, p);
    LaterKeepsForest(js, st.toks, p, p + 1);
    if c == '{' || c == '[' {
      AppendKeepsForest(js, Bump(st.toks, st.super), p, Token(KindOf(c), p, -1, 0), p + 1);
    } else if c == '}' || c == ']' {
      var i := LastOpen(st.toks);
      if i != -1 && st.toks[i].kind == KindOf(c) {
        CloseKeepsForest(js, st.toks, p);
      }
    } else if c == '\"' {
      var q := StringEnd(js, p + 1);
      if q.At? {
        AppendKeepsForest(js, Bump(st.toks, st.super), p, Token(Str, p + 1, q.pos, 0), q.pos + 1);
      }
    } else if !Blank(c) && c != ':' && c != ',' {
      var q := PrimitiveEnd(js, p);
      PrimitiveAdvances(js, p);
      if q.At? {
        AppendKeepsForest(js, Bump(st.toks, st.super), p, Token(Primitive, p, q.pos, 0), q.pos);
      }
    }
  }

  lemma {:induction false} TokeniseKeepsForest(js: seq<char>, n: nat, st: Progress)
    requires Ok(js, st) && Forest(js, st.toks, st.pos) && |st.toks| <= n
    ensures var r := Tokenise(js, n, st);
            Ok(js, r.st) && Forest(js, r.st.toks, r.st.pos) && |r.st.toks| <= n
    ensures var r := Tokenise(js, n, st);
            r.code >= 0 ==> r.code == |r.st.toks| && LastOpen(r.st.toks) == -1
                            && (r.st.pos == |js| || js[r.st.pos] == '\0')
    decreases |js| - st.pos
  {
    hide Step, LastOpen, Forest;
    if st.pos < |js| && js[st.pos] != '\0' {
      TokeniseSteps(js, n, st);
      StepKeepsForest(js, n, st);
      StepCodes(js, n, st);
      var r := Step(js, n, st);
      if r.Next? {
        TokeniseKeepsForest(js, n, r.st);
      }
    } else {
      TokeniseEnds(js, n, st);
    }
  }

  /** A step that stops reports an error, and no step overfills the array. */
  lemma StepCodes(js: seq<char>, n: nat, st: Progress)
    requires Ok(js, st) && st.pos < |js| && js[st.pos] != '\0' && |st.toks| <= n
    ensures var r := Step(js, n, st);
            if r.Stop? then r.code == NOMEM || r.code == INVAL || r.code == PART
            else |r.st.toks| <= n
  {
    hide StringEnd, PrimitiveEnd, LastOpen, LastOpenContainer;
  }

  /** `a`, the earlier token, ends before `b` or contains it strictly. */
  predicate NestedOrDisjoint(a: Token, b: Token) {
    a.end <= b.start || (IsContainer(a.kind) && a.start < b.start && b.end < a.end)
  }

  /**
   * After a successful parse the returned count is the number of tokens filled, and the
   * tokens are a well-nested forest of closed ranges, in order of their start, where every
   * container lies between brackets of its own kind and every string between quotes.
   */
  lemma ParsedTokensAreNested(js: seq<char>, n: nat)
    requires Tokenise(js, n, INIT).code >= 0
    ensures var p := Tokenise(js, n, INIT);
            && p.code == |p.st.toks| <= n
            && (forall i :: 0 <= i < |p.st.toks| ==>
                  TokenFits(js, p.st.toks[i], |js|) && 0 <= p.st.toks[i].start <= p.st.toks[i].end <= |js|)
            && (forall i, j :: 0 <= i < j < |p.st.toks| ==>
                  p.st.toks[i].start < p.st.toks[j].start && NestedOrDisjoint(p.st.toks[i], p.st.toks[j]))
  {
    TokeniseKeepsForest(js, n, INIT);
    var p := Tokenise(js, n, INIT);
    hide Tokenise, LastOpen;
    LaterKeepsForest(js, p.st.toks, p.st.pos, |js|);
    forall i | 0 <= i < |p.st.toks|
      ensures TokenFits(js, p.st.toks[i], |js|) && 0 <= p.st.toks[i].start <= p.st.toks[i].end <= |js|
    {
      assert !Open(p.st.toks[i]);
    }
    forall i, j | 0 <= i < j < |p.st.toks|
      ensures p.st.toks[i].start < p.st.toks[j].start && NestedOrDisjoint(p.st.toks[i], p.st.toks[j])
    {
      assert Ordered(p.st.toks[i], p.st.toks[j]) && !Open(p.st.toks[i]) && TokenFits(js, p.st.toks[i], |js|);
    }
  }

  // The stack that the token array hides.

  /** The kinds of the open tokens, outermost first. */
  function OpenKinds(toks: seq<Token>): seq<Kind> {
    if toks == [] then []
    else if Open(toks[|toks| - 1]) then OpenKinds(toks[..|toks| - 1]) + [toks[|toks| - 1].kind]
    else OpenKinds(toks[..|toks| - 1])
  }

  /** A parser that keeps the bracket stack and counts values, but stores no token. */
  function StackParse(js: seq<char>, n: nat, pos: nat, stack: seq<Kind>, count: nat): int
    requires pos <= |js|
    decreases |js| - pos
  {
    if pos == |js| || js[pos] == '\0' then if stack == [] then count else PART
    else
      var c := js[pos];
      if c == '{' || c == '[' then
        if count >= n then NOMEM else StackParse(js, n, pos + 1, stack + [KindOf(c)], count + 1)
      else if c == '}' || c == ']' then
        if stack == [] || stack[|stack| - 1] != KindOf(c) then INVAL
        else StackParse(js, n, pos + 1, stack[..|stack| - 1], count)
      else if Blank(c) || c == ':' || c == ',' then StackParse(js, n, pos + 1, stack, count)
      else if c == '\"' then
        var q := StringEnd(js, pos + 1);
        if q.Fail? then q.code
        else if count >= n then NOMEM else StackParse(js, n, q.pos + 1, stack, count + 1)
      else
        var q := PrimitiveEnd(js, pos);
        if q.Fail? then q.code
        else if count >= n then NOMEM
        else
          PrimitiveAdvances(js, pos);
          StackParse(js, n, q.pos, stack, count + 1)
  }

  lemma {:induction false} LastOpenIsTop(toks: seq<Token>)
    ensures LastOpen(toks) == -1 <==> OpenKinds(toks) == []
    ensures LastOpen(toks) != -1 ==>
              OpenKinds(toks) != [] && OpenKinds(toks)[|OpenKinds(toks)| - 1] == toks[LastOpen(toks)].kind
  {
    if toks != [] && !Open(toks[|toks| - 1]) {
      LastOpenIsTop(toks[..|toks| - 1]);
    }
  }

  lemma {:induction false} SameOpenKinds(a: seq<Token>, b: seq<Token>)
    requires |a| == |b|
    requires forall i :: 0 <= i < |a| ==> Open(a[i]) == Open(b[i]) && a[i].kind == b[i].kind
    ensures OpenKinds(a) == OpenKinds(b)
  {
    if a != [] {
      SameOpenKinds(a[..|a| - 1], b[..|b| - 1]);
    }
  }

  lemma OpenKindsSnoc(toks: seq<Token>, t: Token)
    ensures OpenKinds(toks + [t]) == if Open(t) then OpenKinds(toks) + [t.kind] else OpenKinds(toks)
  {
    assert (toks + [t])[..|toks + [t]| - 1] == toks;
  }

  /** Closing the innermost open token pops the stack. */
  lemma {:induction false} ClosePops(toks: seq<Token>, end: int)
    requires LastOpen(toks) != -1 && end != -1 && OpenKinds(toks) != []
    ensures OpenKinds(toks[LastOpen(toks) := toks[LastOpen(toks)].(end := end)])
            == OpenKinds(toks)[..|OpenKinds(toks)| - 1]
  {
    var i, last := LastOpen(toks), |toks| - 1;
    var r := toks[i := toks[i].(end := end)];
    if i == last {
      assert r[..last] == toks[..last];
    } else {
      var front := toks[..last];
      assert LastOpen(front) == i && OpenKinds(front) == OpenKinds(toks);
      ClosePops(front, end);
      assert r[..last] == front[i := front[i].(end := end)];
    }
  }

  predicate Opening(c: char) { c == '{' || c == '[' }

  predicate Closing(c: char) { c == '}' || c == ']' }

  /** `k` after reading `c`: an opening bracket is pushed, its closing one popped. */
  function StackAfter(k: seq<Kind>, c: char): seq<Kind>
    requires Closing(c) ==> k != []
  {
    if Opening(c) then k + [KindOf(c)] else if Closing(c) then k[..|k| - 1] else k
  }

  /**
   * The open tokens are the stack. A closing bracket is accepted exactly if its kind is on
   * top; every step that is accepted moves the stack as its first character says.
   */
  lemma StepMovesStack(js: seq<char>, n: nat, st: Progress)
    requires Ok(js, st) && st.pos < |js| && js[st.pos] != '\0'
    ensures var r, k, c := Step(js, n, st), OpenKinds(st.toks), js[st.pos];
            && (Closing(c) ==> (r.Next? <==> k != [] && k[|k| - 1] == KindOf(c)))
            && (r.Next? ==> OpenKinds(r.st.toks) == StackAfter(k, c))
  {
    hide StringEnd, PrimitiveEnd, LastOpen, LastOpenContainer, OpenKinds, Bump;
    var c, p := js[st.pos], st.pos;
    var bumped := Bump(st.toks, st.super);
    SameOpenKinds(bumped, st.toks);
    if Opening(c) {
      OpenKindsSnoc(bumped, Token(KindOf(c), p, -1, 0));
    } else if Closing(c) {
      LastOpenIsTop(st.toks);
      if LastOpen(st.toks) != -1 {
        ClosePops(st.toks, p + 1);
      }
    } else if c == '\"' {
      var q := StringEnd(js, p + 1);
      if q.At? {
        OpenKindsSnoc(bumped, Token(Str, p + 1, q.pos, 0));
      }
    } else if !Blank(c) && c != ':' && c != ',' {
      var q := PrimitiveEnd(js, p);
      PrimitiveAdvances(js, p);
      if q.At? {
        OpenKindsSnoc(bumped, Token(Primitive, p, q.pos, 0));
      }
    }
  }

  /** A step of the tokeniser is one of the parser that keeps the stack. */
  lemma StepIsStackParse(js: seq<char>, n: nat, st: Progress)
    requires Ok(js, st) && st.pos < |js| && js[st.pos] != '\0'
    ensures var r, k := Step(js, n, st), OpenKinds(st.toks);
            StackParse(js, n, st.pos, k, |st.toks|)
            == if r.Stop? then r.code else StackParse(js, n, r.st.pos, OpenKinds(r.st.toks), |r.st.toks|)
  {
    hide StringEnd, PrimitiveEnd, LastOpen, LastOpenContainer, OpenKinds, Bump;
    StepMovesStack(js, n, st);
    var c := js[st.pos];
    if !Opening(c) && !Closing(c) && c != '\"' && !Blank(c) && c != ':' && c != ',' {
      PrimitiveAdvances(js, st.pos);
    }
  }

  lemma {:induction false} TokeniseIsStackParse(js: seq<char>, n: nat, st: Progress)
    requires Ok(js, st)
    ensures Tokenise(js, n, st).code == StackParse(js, n, st.pos, OpenKinds(st.toks), |st.toks|)
    decreases |js| - st.pos
  {
    hide Step, LastOpen, OpenKinds, Tokenise;
    if st.pos < |js| && js[st.pos] != '\0' {
      hide StackParse;
      TokeniseSteps(js, n, st);
      StepIsStackParse(js, n, st);
      var r := Step(js, n, st);
      if r.Next? {
        TokeniseIsStackParse(js, n, r.st);
      }
    } else {
      TokeniseEnds(js, n, st);
      LastOpenIsTop(st.toks);
    }
  }

  /** Searching the token array for open tokens matches brackets as a stack does. */
  lemma TokeniserMatchesBrackets(js: seq<char>, n: nat)
    ensures Tokenise(js, n, INIT).code == StackParse(js, n, 0, [], 0)
  {
    TokeniseIsStackParse(js, n, INIT);
  }

  // The dry run.

  lemma {:induction false} DryRunCounts(js: seq<char>, n: nat, pos: nat, stack: seq<Kind>, count: nat)
    requires pos <= |js| && count <= n
    ensures var dry, code := DryRun(js, pos, count), StackParse(js, n, pos, stack, count);
            && (code >= 0 ==> dry == code <= n)
            && (dry >= 0 ==> dry >= count && code in {dry, INVAL, PART, NOMEM})
            && (code == NOMEM && dry >= 0 ==> n < dry)
            && (dry < 0 ==> dry == INVAL || dry == PART)
    decreases |js| - pos
  {
    hide StringEnd, PrimitiveEnd;
    if pos < |js| && js[pos] != '\0' {
      var c := js[pos];
      if c == '{' || c == '[' {
        DryRunGrows(js, pos + 1, count + 1);
        if count < n {
          DryRunCounts(js, n, pos + 1, stack + [KindOf(c)], count + 1);
        }
      } else if c == '}' || c == ']' {
        DryRunGrows(js, pos + 1, count);
        if stack != [] && stack[|stack| - 1] == KindOf(c) {
          DryRunCounts(js, n, pos + 1, stack[..|stack| - 1], count);
        }
      } else if Blank(c) || c == ':' || c == ',' {
        DryRunCounts(js, n, pos + 1, stack, count);
      } else if c == '\"' {
        var q := StringEnd(js, pos + 1);
        if q.At? {
          DryRunGrows(js, q.pos + 1, count + 1);
          if count < n {
            DryRunCounts(js, n, q.pos + 1, stack, count + 1);
          }
        }
      } else {
        var q := PrimitiveEnd(js, pos);
        PrimitiveAdvances(js, pos);
        if q.At? {
          DryRunGrows(js, q.pos, count + 1);
          if count < n {
            DryRunCounts(js, n, q.pos, stack, count + 1);
          }
        }
      }
    }
  }

  lemma {:induction false} DryRunGrows(js: seq<char>, pos: nat, count: nat)
    requires pos <= |js|
    ensures var dry := DryRun(js, pos, count); dry >= count || dry == INVAL || dry == PART
    decreases |js| - pos
  {
    hide StringEnd, PrimitiveEnd;
    if pos < |js| && js[pos] != '\0' {
      var c := js[pos];
      if c == '{' || c == '[' {
        DryRunGrows(js, pos + 1, count + 1);
      } else if c == '}' || c == ']' || Blank(c) || c == ':' || c == ',' {
        DryRunGrows(js, pos + 1, count);
      } else if c == '\"' {
        var q := StringEnd(js, pos + 1);
        if q.At? {
          DryRunGrows(js, q.pos + 1, count + 1);
        }
      } else {
        var q := PrimitiveEnd(js, pos);
        PrimitiveAdvances(js, pos);
        if q.At? {
          DryRunGrows(js, q.pos, count + 1);
        }
      }
    }
  }

  /**
   * A parse that succeeds fills exactly the tokens a dry run counts, and an array of that
   * many tokens is never too small.
   */
  lemma DryRunPredictsTokens(js: seq<char>, n: nat)
    ensures var dry, p := DryRun(js, 0, 0), Tokenise(js, n, INIT);
            && (p.code >= 0 ==> dry == p.code == |p.st.toks|)
            && (0 <= dry <= n ==> p.code != NOMEM && (p.code == dry || p.code == INVAL || p.code == PART))
  {
    hide DryRun, StackParse, Tokenise, LastOpen;
    DryRunCounts(js, n, 0, [], 0);
    TokeniserMatchesBrackets(js, n);
    TokeniseKeepsForest(js, n, INIT);
  }
}
