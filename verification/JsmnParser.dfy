/** The imperative jsmn parser: its fields and the token array move exactly as `Jsmn.Step` says. */
module JsmnParser {
  import opened Bytes
  import opened Jsmn

  lemma {:induction false} LastOpenPrefix(a: seq<Token>, b: seq<Token>, i: nat)
    requires i <= |a| && i <= |b| && a[..i] == b[..i]
    ensures LastOpen(a, i) == LastOpen(b, i)
  {
    if i > 0 {
      assert a[i - 1] == a[..i][i - 1] == b[..i][i - 1] == b[i - 1];
      assert a[..i - 1] == a[..i][..i - 1] == b[..i - 1];
      LastOpenPrefix(a, b, i - 1);
    }
  }

  lemma LastOpenAfterClose(toks: seq<Token>, i: nat, end: nat)
    requires i < |toks|
    ensures LastOpen(toks[i := toks[i].(end := end)], i + 1) == LastOpen(toks, i)
  {
    LastOpenPrefix(toks, toks[i := toks[i].(end := end)], i);
  }

  class Parser {
    var pos: nat
    var toknext: nat
    var toksuper: int

    /** `jsmn_init`. */
    constructor ()
      ensures pos == 0 && toknext == 0 && toksuper == -1
    {
      pos := 0;
      toknext := 0;
      toksuper := -1;
    }

    ghost predicate Valid(tokens: array<Token>, cap: nat)
      reads this
    {
      toknext <= cap <= tokens.Length && -1 <= toksuper < toknext
    }

    ghost function Now(tokens: array<Token>): State
      requires toknext <= tokens.Length
      reads this, tokens
    {
      State(pos, tokens[..toknext], toksuper)
    }

    method AllocToken(tokens: array<Token>, cap: nat) returns (i: int)
      requires toknext <= tokens.Length && cap <= tokens.Length
      modifies this`toknext, tokens
      ensures i == -1 <==> old(toknext) >= cap
      ensures i == -1 ==> toknext == old(toknext) && tokens[..] == old(tokens[..])
      ensures i != -1 ==> i == old(toknext) && toknext == i + 1 && tokens[..i] == old(tokens[..i])
    {
      if toknext >= cap {
        return -1;
      }
      i := toknext;
      toknext := toknext + 1;
      tokens[i] := tokens[i].(start := -1, end := -1, size := 0);
    }

    /** The hex digits after \u; `pos` is on the first of them. */
    method SkipHex(js: seq<byte>) returns (ok: bool)
      requires pos <= |js|
      modifies this`pos
      ensures HexStop(js, old(pos), 0) == if ok then Ok(pos) else Fail(Invalid)
    {
      var i := 0;
      while i < 4 && pos < |js| && js[pos] != NUL
        invariant 0 <= i <= 4 && pos <= |js|
        invariant HexStop(js, old(pos), 0) == HexStop(js, pos, i)
      {
        if !((js[pos] >= 48 && js[pos] <= 57) || (js[pos] >= 65 && js[pos] <= 70)
            || (js[pos] >= 97 && js[pos] <= 102)) {
          return false;
        }
        pos := pos + 1;
        i := i + 1;
      }
      return true;
    }

    /** The scanning loop of `jsmn_parse_string`: `pos` stops on the closing quote. */
    method SkipString(js: seq<byte>) returns (r: int)
      requires pos < |js|
      modifies this`pos
      ensures match StringEnd(js, old(pos) + 1)
              case Ok(q) => r == 0 && pos == q
              case Fail(e) => r == e.Code() && pos == old(pos)
    {
      hide HexStop;
      var start := pos;
      pos := pos + 1;
      while pos < |js| && js[pos] != NUL
        invariant start < pos <= |js|
        invariant StringEnd(js, start + 1) == StringEnd(js, pos)
        decreases |js| - pos
      {
        var c := js[pos];
        if c == QUOTE {
          return 0;
        }
        if c == BACKSLASH && pos + 1 < |js| {
          pos := pos + 1;
          var e := js[pos];
          if e == QUOTE || e == SLASH || e == BACKSLASH || e == LETTER_B || e == LETTER_F || e == LETTER_R
              || e == LETTER_N || e == LETTER_T {
          } else if e == LETTER_U {
            pos := pos + 1;
            var ok := SkipHex(js);
            if !ok {
              pos := start;
              return Invalid.Code();
            }
            pos := pos - 1;
          } else {
            pos := start;
            return Invalid.Code();
          }
        }
        pos := pos + 1;
      }
      pos := start;
      return Partial.Code();
    }

    /** `jsmn_parse_string`; on success `pos` is on the closing quote. */
    method ParseString(js: seq<byte>, tokens: array?<Token>, cap: nat) returns (r: int)
      requires pos < |js|
      requires tokens != null ==> Valid(tokens, cap)
      modifies this`pos, this`toknext, tokens
      ensures tokens == null ==> toknext == old(toknext)
      ensures match StringEnd(js, old(pos) + 1)
              case Fail(e) => r == e.Code()
              case Ok(q) =>
                && (tokens != null && old(toknext) >= cap ==> r == NoMemory.Code())
                && (tokens == null ==> r == 0 && pos == q)
                && (tokens != null && old(toknext) < cap ==>
                      r == 0 && pos == q && toknext == old(toknext) + 1
                      && tokens[..toknext] == old(tokens[..toknext]) + [Token(String, old(pos) + 1, q, 0)])
    {
      var start := pos;
      r := SkipString(js);
      if r < 0 || tokens == null {
        return;
      }
      var i := AllocToken(tokens, cap);
      if i == -1 {
        pos := start;
        return NoMemory.Code();
      }
      tokens[i] := Token(String, start + 1, pos, 0);
    }

    /** `jsmn_parse_primitive`; on success `pos` is on the primitive's last byte. */
    method ParsePrimitive(js: seq<byte>, tokens: array?<Token>, cap: nat) returns (r: int)
      requires !AtEnd(js, pos) && !EndsPrimitive(js[pos])
      requires tokens != null ==> Valid(tokens, cap)
      modifies this`pos, this`toknext, tokens
      ensures tokens == null ==> toknext == old(toknext)
      ensures match PrimitiveEnd(js, old(pos))
              case Fail(e) => r == e.Code()
              case Ok(end) =>
                && (tokens != null && old(toknext) >= cap ==> r == NoMemory.Code())
                && (tokens == null ==> r == 0 && pos + 1 == end)
                && (tokens != null && old(toknext) < cap ==>
                      r == 0 && pos + 1 == end && toknext == old(toknext) + 1
                      && tokens[..toknext] == old(tokens[..toknext]) + [Token(Primitive, old(pos), end, 0)])
    {
      var start := pos;
      while pos < |js| && js[pos] != NUL && !EndsPrimitive(js[pos])
        invariant start <= pos <= |js| && toknext == old(toknext)
        invariant tokens != null ==> tokens[..] == old(tokens[..])
        invariant PrimitiveEnd(js, start) == PrimitiveEnd(js, pos)
        decreases |js| - pos
      {
        if js[pos] < 32 || js[pos] >= 127 {
          pos := start;
          return Invalid.Code();
        }
        pos := pos + 1;
      }
      if tokens == null {
        pos := pos - 1;
        return 0;
      }
      var i := AllocToken(tokens, cap);
      if i == -1 {
        pos := start;
        return NoMemory.Code();
      }
      tokens[i] := Token(Primitive, start, pos, 0);
      pos := pos - 1;
      return 0;
    }

    /** The `{` and `[` cases. */
    method OpenBracket(js: seq<byte>, tokens: array<Token>, cap: nat) returns (r: int)
      requires pos < |js| && Valid(tokens, cap)
      modifies this`toknext, this`toksuper, tokens
      ensures match OpenContainer(js, old(Now(tokens)), cap)
              case Fail(e) => r == e.Code()
              case Ok(st) => r == 0 && Valid(tokens, cap) && Now(tokens) == st.(pos := pos)
    {
      ghost var was := tokens[..toknext];
      var i := AllocToken(tokens, cap);
      if i == -1 {
        return NoMemory.Code();
      }
      assert tokens[..i] == was;
      if toksuper != -1 {
        tokens[toksuper] := tokens[toksuper].(size := tokens[toksuper].size + 1);
      }
      tokens[i] := Token(if js[pos] == LBRACE then Object else Array, pos, -1, 0);
      assert tokens[..i] == Bump(was, toksuper);
      assert tokens[..toknext] == tokens[..i] + [tokens[i]];
      toksuper := toknext - 1;
      return 0;
    }

    /** The backward search for an open token. */
    method FindOpen(tokens: array<Token>, from: int) returns (i: int)
      requires -1 <= from < toknext <= tokens.Length
      ensures i == LastOpen(tokens[..toknext], from + 1)
    {
      i := from;
      while i >= 0
        invariant -1 <= i <= from
        invariant LastOpen(tokens[..toknext], i + 1) == LastOpen(tokens[..toknext], from + 1)
      {
        if tokens[i].start != -1 && tokens[i].end == -1 {
          return;
        }
        i := i - 1;
      }
    }

    /** The `}` and `]` cases. */
    method CloseBracket(js: seq<byte>, tokens: array<Token>, cap: nat) returns (r: int)
      requires pos < |js| && Valid(tokens, cap)
      modifies this`toksuper, tokens
      ensures match CloseContainer(js, old(Now(tokens)))
              case Fail(e) => r == e.Code()
              case Ok(st) => r == 0 && Valid(tokens, cap) && Now(tokens) == st.(pos := pos)
    {
      ghost var was := tokens[..toknext];
      var kind := if js[pos] == RBRACE then Object else Array;
      var i := FindOpen(tokens, toknext - 1);
      if i == -1 || tokens[i].kind != kind {
        return Invalid.Code();
      }
      tokens[i] := tokens[i].(end := pos + 1);
      assert tokens[..toknext] == was[i := was[i].(end := pos + 1)];
      LastOpenAfterClose(was, i, pos + 1);
      toksuper := -1;
      var j := FindOpen(tokens, i);
      if j >= 0 {
        toksuper := j;
      }
      return 0;
    }

    /** The `,` case. */
    method AfterComma(tokens: array<Token>, cap: nat)
      requires Valid(tokens, cap)
      modifies this`toksuper
      ensures Valid(tokens, cap) && Now(tokens) == Comma(old(Now(tokens))).(pos := pos)
    {
      if toksuper != -1 && !tokens[toksuper].kind.Array? && !tokens[toksuper].kind.Object? {
        var i := toknext - 1;
        while i >= 0
          invariant -1 <= i < toknext
          invariant LastOpenContainer(tokens[..toknext], i + 1) == LastOpenContainer(tokens[..toknext], toknext)
        {
          if tokens[i].kind.Array? || tokens[i].kind.Object? {
            if tokens[i].start != -1 && tokens[i].end == -1 {
              toksuper := i;
              return;
            }
          }
          i := i - 1;
        }
      }
    }

    /** `tokens[parser->toksuper].size++` after a string or a primitive. */
    method BumpSuper(tokens: array<Token>, ghost before: seq<Token>, ghost t: Token)
      requires toknext <= tokens.Length && toknext == |before| + 1 && -1 <= toksuper < |before|
      requires tokens[..toknext] == before + [t]
      modifies tokens
      ensures tokens[..toknext] == Bump(before, toksuper) + [t]
    {
      assert forall k | 0 <= k < |before| :: tokens[k] == tokens[..toknext][k] == before[k];
      assert tokens[|before|] == tokens[..toknext][|before|] == t;
      if toksuper != -1 {
        tokens[toksuper] := tokens[toksuper].(size := tokens[toksuper].size + 1);
      }
      assert tokens[..|before|] == Bump(before, toksuper);
      assert tokens[..toknext] == tokens[..|before|] + [tokens[|before|]];
    }

    /** One turn of the main loop with a token array, without its final `pos++`. */
    method Turn(js: seq<byte>, tokens: array<Token>, cap: nat) returns (r: int)
      requires !AtEnd(js, pos) && Valid(tokens, cap)
      modifies this, tokens
      ensures match Step(js, old(Now(tokens)), cap)
              case Fail(e) => r == e.Code()
              case Ok(st) =>
                && r >= 0 && r == |st.toks| - old(toknext)
                && Valid(tokens, cap) && Now(tokens).(pos := pos + 1) == st
    {
      hide LastOpen, LastOpenContainer, StringEnd, PrimitiveEnd;
      var c := js[pos];
      ghost var was := Now(tokens);
      if c == LBRACE || c == LBRACKET {
        r := OpenBracket(js, tokens, cap);
        if r == 0 {
          r := 1;
        }
      } else if c == RBRACE || c == RBRACKET {
        r := CloseBracket(js, tokens, cap);
      } else if c == QUOTE {
        r := ParseString(js, tokens, cap);
        if r < 0 {
          return;
        }
        BumpSuper(tokens, was.toks, Token(String, was.pos + 1, pos, 0));
        r := 1;
      } else if c == TAB || c == CR || c == LF || c == SPACE {
        r := 0;
      } else if c == COLON {
        toksuper := toknext - 1;
        r := 0;
      } else if c == COMMA {
        AfterComma(tokens, cap);
        r := 0;
      } else {
        r := ParsePrimitive(js, tokens, cap);
        if r < 0 {
          return;
        }
        BumpSuper(tokens, was.toks, Token(Primitive, was.pos, pos + 1, 0));
        r := 1;
      }
    }

    /** `jsmn_parse` with a token array. */
    method Parse(js: seq<byte>, tokens: array<Token>, cap: nat) returns (r: int)
      requires Valid(tokens, cap) && pos <= |js|
      modifies this, tokens
      ensures match Run(js, old(Now(tokens)), cap)
              case Fail(e) => r == e.Code()
              case Ok(st) => Valid(tokens, cap) && Now(tokens) == st && r == toknext
    {
      var count := toknext;
      while pos < |js| && js[pos] != NUL
        invariant Valid(tokens, cap) && pos <= |js| && count == toknext
        invariant Run(js, Now(tokens), cap) == Run(js, old(Now(tokens)), cap)
        decreases |js| - pos
      {
        r := Turn(js, tokens, cap);
        if r < 0 {
          return;
        }
        count := count + r;
        pos := pos + 1;
      }
      var i := FindOpen(tokens, toknext - 1);
      if i >= 0 {
        return Partial.Code();
      }
      return count;
    }

    /** `jsmn_parse` with a NULL token array: the counting pass. */
    method CountTokens(js: seq<byte>) returns (r: int)
      requires pos <= |js|
      modifies this
      ensures match Count(js, old(pos), old(toknext))
              case Fail(e) => r == e.Code()
              case Ok(n) => r == n
    {
      var count := toknext;
      while pos < |js| && js[pos] != NUL
        invariant pos <= |js| && toknext == old(toknext)
        invariant Count(js, pos, count) == Count(js, old(pos), old(toknext))
        decreases |js| - pos
      {
        var c := js[pos];
        if c == LBRACE || c == LBRACKET {
          count := count + 1;
        } else if c == RBRACE || c == RBRACKET || c == TAB || c == CR || c == LF || c == SPACE || c == COMMA {
        } else if c == QUOTE {
          r := ParseString(js, null, 0);
          if r < 0 {
            return;
          }
          count := count + 1;
        } else if c == COLON {
          toksuper := toknext - 1;
        } else {
          r := ParsePrimitive(js, null, 0);
          if r < 0 {
            return;
          }
          count := count + 1;
        }
        pos := pos + 1;
      }
      return count;
    }
  }
}
