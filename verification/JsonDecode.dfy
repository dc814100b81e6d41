/**
 * The JSON decoder. It trusts the preorder of the tokens and their size fields, and keeps
 * strings where they are: a decoded string is a position in the message, ended by the NUL
 * that the decoder writes over its closing quote.
 */
module JsonDecode {
  import opened Jsmn
  import opened JsmnInvariant
  import opened Json

  const TOKENS: nat := 128
  const EBADMSG := 74

  datatype RefMember = RefMember(key: nat, value: Ref)

  /** A decoded value; strings and keys are positions in the message. */
  datatype Ref =
    | NullRef
    | TrueRef
    | FalseRef
    | NumberRef(lexeme: string)
    | StringRef(at: nat)
    | ArrayRef(items: seq<Ref>)
    | ObjectRef(members: seq<RefMember>)

  /** The C string at `p`. */
  function CStr(m: seq<char>, p: nat): string
    decreases |m| - p
  {
    if p >= |m| || m[p] == '\0' then "" else [m[p]] + CStr(m, p + 1)
  }

  function Resolve(m: seq<char>, r: Ref): Json {
    match r
    case NullRef => JsonNull
    case TrueRef => JsonTrue
    case FalseRef => JsonFalse
    case NumberRef(lexeme) => JsonNumber(lexeme)
    case StringRef(at) => JsonString(CStr(m, at))
    case ArrayRef(items) => JsonArray(seq(|items|, i requires 0 <= i < |items| => Resolve(m, items[i])))
    case ObjectRef(members) =>
      JsonObject(seq(|members|, i requires 0 <= i < |members| =>
                   Member(CStr(m, members[i].key), Resolve(m, members[i].value))))
  }

  /**
   * `Got` a value and the message as it is then; `Bad` is EBADMSG; `Past` stands for an
   * access past the end of the message or of the token list.
   */
  datatype Decoded<T> = Got(value: T, next: nat, m: seq<char>) | Bad(m: seq<char>) | Past

  function DecodeAt(m: seq<char>, toks: seq<Token>, i: nat): (r: Decoded<Ref>)
    requires i <= |toks|
    ensures r.Got? ==> i < r.next <= |toks| && |r.m| == |m|
    ensures r.Bad? ==> |r.m| == |m|
    decreases |toks| - i, 0
  {
    if i == |toks| then Past else
      var t := toks[i];
      if t.kind == Undefined then Bad(m)
      else if !(0 <= t.start < |m|) then Past
      else if t.kind == Primitive then DecodePrimitive(m, t, i)
      else if t.kind == Str then
        if !(0 <= t.end < |m|) then Past else Got(StringRef(t.start), i + 1, m[t.end := '\0'])
      else if t.kind == Array then
        var d := DecodeItems(m, toks, i + 1, t.size);
        if d.Got? then Got(ArrayRef(d.value), d.next, d.m) else if d.Bad? then Bad(d.m) else Past
      else
        var d := DecodeMembers(m, toks, i + 1, t.size);
        if d.Got? then Got(ObjectRef(d.value), d.next, d.m) else if d.Bad? then Bad(d.m) else Past
  }

  /** The end of a number is replaced by a NUL for as long as it is converted. */
  function DecodePrimitive(m: seq<char>, t: Token, i: nat): (r: Decoded<Ref>)
    requires 0 <= t.start < |m|
    ensures r.Got? ==> r.next == i + 1 && r.m == m
    ensures !r.Bad?
  {
    if m[t.start] == 'n' then Got(NullRef, i + 1, m)
    else if m[t.start] == 't' then Got(TrueRef, i + 1, m)
    else if m[t.start] == 'f' then Got(FalseRef, i + 1, m)
    else if !(0 <= t.end < |m|) then Past
    else Got(NumberRef(CStr(m[t.end := '\0'], t.start)), i + 1, m)
  }

  /** `k` values from token `i` on. */
  function DecodeItems(m: seq<char>, toks: seq<Token>, i: nat, k: nat): (r: Decoded<seq<Ref>>)
    requires i <= |toks|
    ensures r.Got? ==> i <= r.next <= |toks| && |r.m| == |m| && |r.value| == k
    ensures r.Bad? ==> |r.m| == |m|
    decreases |toks| - i, k + 1
  {
    if k == 0 then Got([], i, m) else
      var d := DecodeItems(m, toks, i, k - 1);
      if !d.Got? then d else
        var e := DecodeAt(d.m, toks, d.next);
        if e.Got? then Got(d.value + [e.value], e.next, e.m) else if e.Bad? then Bad(e.m) else Past
  }

  function DecodeMembers(m: seq<char>, toks: seq<Token>, i: nat, k: nat): (r: Decoded<seq<RefMember>>)
    requires i <= |toks|
    ensures r.Got? ==> i <= r.next <= |toks| && |r.m| == |m| && |r.value| == k
    ensures r.Bad? ==> |r.m| == |m|
    decreases |toks| - i, k + 2
  {
    if k == 0 then Got([], i, m) else
      var d := DecodeMembers(m, toks, i, k - 1);
      if !d.Got? then d else
        var e := DecodePair(d.m, toks, d.next);
        if e.Got? then Got(d.value + [e.value], e.next, e.m) else if e.Bad? then Bad(e.m) else Past
  }

  /** A key, which has to be a string, and a value. */
  function DecodePair(m: seq<char>, toks: seq<Token>, i: nat): (r: Decoded<RefMember>)
    requires i <= |toks|
    ensures r.Got? ==> i < r.next <= |toks| && |r.m| == |m|
    ensures r.Bad? ==> |r.m| == |m|
    decreases |toks| - i, 1
  {
    var key := DecodeAt(m, toks, i);
    if key.Bad? then Bad(key.m)
    else if key.Past? then Past
    else if !key.value.StringRef? then Bad(key.m)
    else
      var e := DecodeAt(key.m, toks, key.next);
      if e.Got? then Got(RefMember(key.value.at, e.value), e.next, e.m) else if e.Bad? then Bad(e.m) else Past
  }

  /** The token list, whose unused part is zero. */
  function Padded(toks: seq<Token>): seq<Token>
    requires |toks| <= TOKENS
  {
    toks + seq(TOKENS - |toks|, _ => Token(Undefined, 0, 0, 0))
  }

  lemma ParsedTokensFit(js: seq<char>)
    ensures |Tokenise(js, TOKENS, INIT).st.toks| <= TOKENS
  {
    TokeniseKeepsForest(js, TOKENS, INIT);
  }

  /** A message of `size` bytes at the start of the memory `m`. */
  function DecodeJson(m: seq<char>, size: nat): Decoded<Ref>
    requires size <= |m|
  {
    var p := Tokenise(m[..size], TOKENS, INIT);
    if p.code < 0 then Bad(m) else
      ParsedTokensFit(m[..size]);
      DecodeAt(m, Padded(p.st.toks), 0)
  }

  /** Stands for an access outside the message or the token list, which is not checked. */
  const OUTSIDE := -1

  // Once the decoder has failed it stays failed.

  lemma {:induction false} ItemsFailForGood(m: seq<char>, toks: seq<Token>, i: nat, j: nat, k: nat)
    requires i <= |toks| && j <= k && !DecodeItems(m, toks, i, j).Got?
    ensures DecodeItems(m, toks, i, k) == DecodeItems(m, toks, i, j)
    decreases k - j
  {
    if j < k {
      ItemsFailForGood(m, toks, i, j, k - 1);
    }
  }

  lemma {:induction false} MembersFailForGood(m: seq<char>, toks: seq<Token>, i: nat, j: nat, k: nat)
    requires i <= |toks| && j <= k && !DecodeMembers(m, toks, i, j).Got?
    ensures DecodeMembers(m, toks, i, k) == DecodeMembers(m, toks, i, j)
    decreases k - j
  {
    if j < k {
      MembersFailForGood(m, toks, i, j, k - 1);
    }
  }

  // The decoder as it runs.

  /** The message, its token list, and the next token. */
  class Decoder {
    const message: array<char>
    const tokens: array<Token>
    var next: nat

    constructor (message: array<char>, tokens: array<Token>)
      ensures this.message == message && this.tokens == tokens && next == 0
    {
      this.message, this.tokens, next := message, tokens, 0;
    }

    /** What the call did, as an outcome of the specification. */
    twostate predicate Outcome<T>(d: Decoded<T>, ok: int, value: T)
      reads this, message
    {
      if ok == 0 then d == Got(value, next, message[..])
      else if ok == EBADMSG then d == Bad(message[..])
      else ok == OUTSIDE && d == Past
    }

    method DecodeValue() returns (ok: int, value: Ref)
      requires next <= tokens.Length
      modifies this`next, message
      ensures Outcome(DecodeAt(old(message[..]), tokens[..], old(next)), ok, value)
      decreases tokens.Length - next, 0
    {
      ok, value := 0, NullRef;
      if next == tokens.Length {
        return OUTSIDE, value;
      }
      var t := tokens[next];
      next := next + 1;
      if t.kind == Undefined {
        ok := EBADMSG;
      } else if !(0 <= t.start < message.Length) {
        ok := OUTSIDE;
      } else if t.kind == Primitive {
        ok, value := DecodePrimitiveAt(t);
      } else if t.kind == Str {
        if !(0 <= t.end < message.Length) {
          return OUTSIDE, value;
        }
        message[t.end] := '\0';
        value := StringRef(t.start);
      } else if t.kind == Array {
        var items;
        ok, items := DecodeArray(t.size);
        value := ArrayRef(items);
      } else {
        var members;
        ok, members := DecodeObject(t.size);
        value := ObjectRef(members);
      }
    }

    method DecodePrimitiveAt(t: Token) returns (ok: int, value: Ref)
      requires 0 <= t.start < message.Length
      modifies message
      ensures var d := DecodePrimitive(old(message[..]), t, 0);
              if ok == 0 then d == Got(value, 1, message[..]) else ok == OUTSIDE && d == Past
      ensures message[..] == old(message[..])
    {
      ok := 0;
      if message[t.start] == 'n' {
        value := NullRef;
      } else if message[t.start] == 't' {
        value := TrueRef;
      } else if message[t.start] == 'f' {
        value := FalseRef;
      } else if !(0 <= t.end < message.Length) {
        return OUTSIDE, NullRef;
      } else {
        var c := message[t.end];
        message[t.end] := '\0';
        assert message[..] == old(message[..])[t.end := '\0'];
        value := NumberRef(CStr(message[..], t.start));
        message[t.end] := c;
        assert message[..] == old(message[..]);
      }
    }

    method DecodeArray(size: nat) returns (ok: int, items: seq<Ref>)
      requires next <= tokens.Length
      modifies this`next, message
      ensures Outcome(DecodeItems(old(message[..]), tokens[..], old(next), size), ok, items)
      decreases tokens.Length - next, size + 1
    {
      hide DecodeAt;
      ghost var m, toks, start := message[..], tokens[..], next;
      items := [];
      for i := 0 to size
        invariant DecodeItems(m, toks, start, i) == Got(items, next, message[..])
        invariant start <= next <= tokens.Length && tokens[..] == toks
      {
        var item;
        ok, item := DecodeValue();
        if ok != 0 {
          ItemsFailForGood(m, toks, start, i + 1, size);
          return;
        }
        items := items + [item];
      }
      ok := 0;
    }

    method DecodeObject(size: nat) returns (ok: int, members: seq<RefMember>)
      requires next <= tokens.Length
      modifies this`next, message
      ensures Outcome(DecodeMembers(old(message[..]), tokens[..], old(next), size), ok, members)
      decreases tokens.Length - next, size + 2
    {
      hide DecodeAt, DecodePair;
      ghost var m, toks, start := message[..], tokens[..], next;
      members := [];
      for i := 0 to size
        invariant DecodeMembers(m, toks, start, i) == Got(members, next, message[..])
        invariant start <= next <= tokens.Length && tokens[..] == toks
      {
        var member;
        ok, member := DecodeMember();
        if ok != 0 {
          MembersFailForGood(m, toks, start, i + 1, size);
          return;
        }
        members := members + [member];
      }
      ok := 0;
    }

    /** One round of the loop over the members of an object. */
    method DecodeMember() returns (ok: int, member: RefMember)
      requires next <= tokens.Length
      modifies this`next, message
      ensures Outcome(DecodePair(old(message[..]), tokens[..], old(next)), ok, member)
      decreases tokens.Length - next, 1
    {
      hide DecodeAt;
      member := RefMember(0, NullRef);
      var key, value;
      ok, key := DecodeValue();
      if ok != 0 {
        return;
      }
      if !key.StringRef? {
        return EBADMSG, member;
      }
      ok, value := DecodeValue();
      member := RefMember(key.at, value);
    }
  }

  /** Tokenises the message, then decodes the first value. */
  method DecodeJsonMessage(message: array<char>, size: nat) returns (ok: int, value: Ref)
    requires size <= message.Length
    modifies message
    ensures var d := DecodeJson(old(message[..]), size);
            if ok == 0 then d.Got? && d.value == value && d.m == message[..]
            else if ok == EBADMSG then d == Bad(message[..])
            else ok == OUTSIDE && d == Past
  {
    var tokens := new Token[TOKENS](_ => Token(Undefined, 0, 0, 0));
    var parser := new Parser();
    ghost var js := message[..][..size];
    assert message[..size] == js;
    var count := parser.Parse(message[..size], tokens);
    if count < 0 {
      return EBADMSG, NullRef;
    }
    assert tokens[..] == Padded(tokens[..parser.toknext]);
    var decoder := new Decoder(message, tokens);
    ok, value := decoder.DecodeValue();
  }
}
