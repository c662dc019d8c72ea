/**
 * Key lookup over jsmn tokens (json.c) and the in-place parse of the handoff data (handoff.c):
 * `handoff_parse_data` terminates strings inside the receive buffer while it is still being read.
 */
module Handoff {
  import opened Bytes
  import opened Jsmn
  import opened JsmnSound
  import opened JsmnParser

  // ----- json_tok_eq, json_find_key

  predicate TokEq(js: seq<byte>, t: Token, key: seq<byte>)
    requires 0 <= t.start && t.end <= |js|
  {
    t.kind.String? && t.start <= t.end && js[t.start..t.end] == key
  }

  predicate InText(js: seq<byte>, toks: seq<Token>) {
    forall i | 0 <= i < |toks| :: 0 <= toks[i].start && toks[i].end <= |js|
  }

  /** How far the lookup moves from the key at `i`: over the key and, by its size, over the value. */
  function NextKey(toks: seq<Token>, i: nat): nat
    requires i < |toks|
  {
    if i + 1 < |toks| && toks[i + 1].Container() then i + 2 + toks[i + 1].size * 2 else i + 2
  }

  function FindFrom(js: seq<byte>, toks: seq<Token>, key: seq<byte>, i: nat): (r: int)
    requires InText(js, toks)
    ensures r == -1 || i < r < |toks|
    decreases |toks| - i
  {
    if i >= |toks| then -1
    else if TokEq(js, toks[i], key) then (if i + 1 < |toks| then i + 1 else -1)
    else FindFrom(js, toks, key, NextKey(toks, i))
  }

  /** The index of the value token `json_find_key` reports, or -1. */
  function FindKey(js: seq<byte>, toks: seq<Token>, key: seq<byte>): (r: int)
    requires InText(js, toks)
    ensures r == -1 || 1 < r < |toks|
  {
    if |toks| < 1 || !toks[0].kind.Object? then -1 else FindFrom(js, toks, key, 1)
  }

  method JsonFindKey(js: seq<byte>, tokens: array<Token>, num: nat, key: seq<byte>) returns (r: int)
    requires num <= tokens.Length && InText(js, tokens[..num])
    ensures r == FindKey(js, tokens[..num], key)
  {
    if num < 1 || !tokens[0].kind.Object? {
      return -1;
    }
    var i := 1;
    while i < num
      invariant FindFrom(js, tokens[..num], key, 1) == FindFrom(js, tokens[..num], key, i)
      decreases num - i
    {
      if TokEq(js, tokens[i], key) {
        if i + 1 < num {
          return i + 1;
        }
        return -1;
      }
      i := i + 1;
      if i < num {
        if tokens[i].kind.Object? || tokens[i].kind.Array? {
          i := i + 1 + tokens[i].size * 2;
        } else {
          i := i + 1;
        }
      }
    }
    return -1;
  }

  /** `after` differs from `js` at most where a string token's closing quote was. */
  predicate OnlyQuotesChanged(js: seq<byte>, after: seq<byte>, toks: seq<Token>) {
    && |after| == |js|
    && forall k | 0 <= k < |js| && after[k] != js[k] ::
         exists i :: 0 <= i < |toks| && toks[i].kind.String? && toks[i].end == k
  }

  lemma TextUnchanged(js: seq<byte>, after: seq<byte>, toks: seq<Token>, j: nat)
    requires GoodTokens(js, toks) && OnlyQuotesChanged(js, after, toks) && j < |toks| && toks[j].kind.String?
    ensures 0 <= toks[j].start <= toks[j].end <= |js|
    ensures after[toks[j].start..toks[j].end] == js[toks[j].start..toks[j].end]
  {
    StringTokens(js, toks, j);
    forall k | toks[j].start <= k < toks[j].end
      ensures after[k] == js[k]
    {
      if after[k] != js[k] {
        var i :| 0 <= i < |toks| && toks[i].kind.String? && toks[i].end == k;
        ClosingQuotesApart(js, toks, i, j);
        assert false;
      }
    }
  }

  lemma GoodTokensInText(js: seq<byte>, toks: seq<Token>)
    requires GoodTokens(js, toks)
    ensures InText(js, toks)
  {
    forall i | 0 <= i < |toks|
      ensures 0 <= toks[i].start && toks[i].end <= |js|
    {
      assert Delimited(js, toks[i], |js|);
    }
  }

  lemma {:induction false} FindFromSurvives(js: seq<byte>, after: seq<byte>, toks: seq<Token>, key: seq<byte>, i: nat)
    requires GoodTokens(js, toks) && OnlyQuotesChanged(js, after, toks) && InText(js, toks) && InText(after, toks)
    ensures FindFrom(after, toks, key, i) == FindFrom(js, toks, key, i)
    decreases |toks| - i
  {
    if i < |toks| {
      if toks[i].kind.String? {
        TextUnchanged(js, after, toks, i);
      }
      FindFromSurvives(js, after, toks, key, NextKey(toks, i));
    }
  }

  /** Terminating strings in place never changes the answer of a later lookup, on any text. */
  lemma LookupSurvives(js: seq<byte>, after: seq<byte>, toks: seq<Token>, key: seq<byte>)
    requires GoodTokens(js, toks) && OnlyQuotesChanged(js, after, toks)
    ensures InText(js, toks) && InText(after, toks)
    ensures FindKey(after, toks, key) == FindKey(js, toks, key)
  {
    GoodTokensInText(js, toks);
    FindFromSurvives(js, after, toks, key, 1);
  }

  // ----- json_tok_int

  const INT64_MAX: int := 0x7FFF_FFFF_FFFF_FFFF
  const TOK_INT_BUFFER: nat := 32

  predicate IsDigit(c: byte) {
    ZERO <= c <= NINE
  }

  /** The number written by the digits at the front of `s`, read after `acc`. */
  function DigitsValue(s: seq<byte>, acc: nat): nat {
    if s == [] || !IsDigit(s[0]) then acc else DigitsValue(s[1..], acc * 10 + (s[0] - ZERO) as nat)
  }

  function Saturate(n: int): int {
    if n > INT64_MAX then INT64_MAX else if n < -INT64_MAX - 1 then -INT64_MAX - 1 else n
  }

  /** `strtoll` in base 10 on a text without leading blanks. */
  function StrToLL(s: seq<byte>): int {
    if s != [] && s[0] == MINUS then Saturate(-(DigitsValue(s[1..], 0) as int))
    else if s != [] && s[0] == PLUS then Saturate(DigitsValue(s[1..], 0))
    else Saturate(DigitsValue(s, 0))
  }

  function TokInt(js: seq<byte>, t: Token): int
    requires 0 <= t.start && t.end <= |js|
  {
    if !t.kind.Primitive? || t.end < t.start || t.end - t.start >= TOK_INT_BUFFER then 0
    else StrToLL(js[t.start..t.end])
  }

  /** The cast from 64 to 32 bits. */
  function ToInt32(n: int): int {
    (n + 0x8000_0000) % 0x1_0000_0000 - 0x8000_0000
  }

  lemma {:induction false} DigitsAppend(s: seq<byte>, d: byte, acc: nat)
    requires IsDigit(d) && forall i | 0 <= i < |s| :: IsDigit(s[i])
    ensures DigitsValue(s + [d], acc) == DigitsValue(s, acc) * 10 + (d - ZERO) as nat
  {
    if s == [] {
      assert [] + [d] == [d] && [d][1..] == [];
    } else {
      assert (s + [d])[1..] == s[1..] + [d];
      DigitsAppend(s[1..], d, acc * 10 + (s[0] - ZERO) as nat);
    }
  }

  lemma {:induction false} DecimalReads(n: nat)
    ensures DigitsValue(Decimal(n), 0) == n
    ensures Decimal(n) != [] && forall i | 0 <= i < |Decimal(n)| :: IsDigit(Decimal(n)[i])
  {
    if n >= 10 {
      DecimalReads(n / 10);
      DigitsAppend(Decimal(n / 10), ZERO + n % 10, 0);
    } else {
      assert [ZERO + n][1..] == [];
    }
  }

  function Signed(n: int): seq<byte> {
    if n < 0 then [MINUS] + Decimal(-n) else Decimal(n)
  }

  /** Every number written in decimal reads back, up to the range of 64 bits. */
  lemma SignedReads(n: int)
    ensures StrToLL(Signed(n)) == Saturate(n)
  {
    DecimalReads(if n < 0 then -n else n);
    assert n < 0 ==> Signed(n)[1..] == Decimal(-n);
  }

  function Tens(digits: nat): nat {
    if digits == 0 then 1 else 10 * Tens(digits - 1)
  }

  lemma OneDigit()
    ensures Tens(1) == 10
  {
  }

  lemma {:induction false} DecimalLength(n: nat, digits: nat, limit: nat)
    requires digits > 0 && limit == Tens(digits) && n < limit
    ensures |Decimal(n)| <= digits
  {
    if n >= 10 {
      assert digits > 1 by { OneDigit(); }
      DecimalLength(n / 10, digits - 1, Tens(digits - 1));
    }
  }

  lemma NineteenDigits()
    ensures Tens(19) == 10_000_000_000_000_000_000 > INT64_MAX + 1
  {
    assert Tens(10) == 10_000_000_000 by { assert Tens(5) == 100_000; }
    assert Tens(15) == 1_000_000_000_000_000;
  }

  /**
   * A number token is read exactly if it fits 64 bits, and the narrower field keeps it exactly if it fits
   * 32; longer texts than the buffer holds read as 0.
   */
  lemma NumberFieldsIff(js: seq<byte>, t: Token, n: int)
    requires 0 <= t.start <= t.end <= |js| && t.kind.Primitive? && js[t.start..t.end] == Signed(n)
    ensures TokInt(js, t) == n <==> -INT64_MAX - 1 <= n <= INT64_MAX
    ensures ToInt32(TokInt(js, t)) == n <==> -0x8000_0000 <= n < 0x8000_0000
  {
    SignedReads(n);
    if -INT64_MAX - 1 <= n <= INT64_MAX {
      NineteenDigits();
      DecimalLength(if n < 0 then -n else n, 19, Tens(19));
    }
  }

  // ----- handoff_parse_data

  const MAX_JSON_TOKENS: nat := 32

  predicate IsTrimmed(c: byte) {
    c == NUL || IsBlank(c)
  }

  /** The length of the C string at `p`. */
  function StrLen(s: seq<byte>, p: nat): nat
    requires p <= |s|
    decreases |s| - p
  {
    if p == |s| || s[p] == NUL then 0 else 1 + StrLen(s, p + 1)
  }

  lemma {:induction false} StrLenTo(s: seq<byte>, p: nat, e: nat)
    requires p <= e < |s| && s[e] == NUL && forall k | p <= k < e :: s[k] != NUL
    ensures StrLen(s, p) == e - p
    decreases e - p
  {
    if p < e {
      StrLenTo(s, p + 1, e);
    }
  }

  /** The token of a key whose value is a string. */
  function StringValue(js: seq<byte>, toks: seq<Token>, key: seq<byte>): Option<Token>
    requires InText(js, toks)
  {
    var i := FindKey(js, toks, key);
    if i > 0 && toks[i].kind.String? then Some(toks[i]) else None
  }

  /** The number of a key whose value is one; 0 without the key or for any other value. */
  function IntValue(js: seq<byte>, toks: seq<Token>, key: seq<byte>): int
    requires InText(js, toks)
  {
    var i := FindKey(js, toks, key);
    if i > 0 then TokInt(js, toks[i]) else 0
  }

  /** The part of the buffer between leading and trailing blanks and NULs. */
  predicate Trims(data: seq<byte>, len: nat, lo: nat, n: nat) {
    && lo + n <= len <= |data|
    && (forall k | 0 <= k < lo :: IsTrimmed(data[k]))
    && (forall k | lo + n <= k < len :: IsTrimmed(data[k]))
    && (n > 0 ==> !IsTrimmed(data[lo]) && !IsTrimmed(data[lo + n - 1]))
  }

  method Trim(data: array<byte>, len: nat) returns (lo: nat, n: nat)
    requires len <= data.Length
    ensures Trims(data[..], len, lo, n)
  {
    lo, n := 0, len;
    while n > 0 && (data[lo] == NUL || data[lo] == SPACE || data[lo] == TAB || data[lo] == LF || data[lo] == CR)
      invariant lo + n == len
      invariant forall k | 0 <= k < lo :: IsTrimmed(data[k])
    {
      lo := lo + 1;
      n := n - 1;
    }
    while n > 0 && (data[lo + n - 1] == NUL || data[lo + n - 1] == SPACE || data[lo + n - 1] == TAB ||
                    data[lo + n - 1] == LF || data[lo + n - 1] == CR)
      invariant lo + n <= len
      invariant forall k | lo + n <= k < len :: IsTrimmed(data[k])
      invariant n > 0 ==> !IsTrimmed(data[lo])
    {
      n := n - 1;
    }
  }

  const USER_ID_KEY: seq<byte> := Ascii("user_id")
  const MAX_TOKENS_KEY: seq<byte> := Ascii("max_tokens")
  const PROMPT_KEY: seq<byte> := Ascii("prompt")
  const MODEL_KEY: seq<byte> := Ascii("model")

  /** A NUL is stored at the closing quote of `t`, in the text that starts at `lo`. */
  function Terminated(text: seq<byte>, t: Option<Token>): seq<byte>
    requires t.Some? ==> 0 <= t.value.end < |text|
  {
    if t.None? then text else text[t.value.end := NUL]
  }

  /** What the buffer's text becomes: both strings terminated, as looked up in the original text. */
  function TextAfter(js: seq<byte>, toks: seq<Token>): seq<byte>
    requires GoodTokens(js, toks)
  {
    GoodTokensInText(js, toks);
    var prompt, model := StringValue(js, toks, PROMPT_KEY), StringValue(js, toks, MODEL_KEY);
    assert forall i | 0 <= i < |toks| :: Delimited(js, toks[i], |js|);
    Terminated(Terminated(js, prompt), model)
  }

  /** A terminated token's C string is exactly the token's text. */
  predicate IsCString(text: seq<byte>, js: seq<byte>, t: Token) {
    && 0 <= t.start <= t.end < |text| == |js|
    && StrLen(text, t.start) == t.end - t.start
    && text[t.start..t.end] == js[t.start..t.end]
  }

  lemma TextAfterQuotes(js: seq<byte>, toks: seq<Token>)
    requires GoodTokens(js, toks)
    ensures OnlyQuotesChanged(js, TextAfter(js, toks), toks)
  {
    GoodTokensInText(js, toks);
  }

  lemma TerminatedIsCString(js: seq<byte>, toks: seq<Token>, i: nat)
    requires GoodTokens(js, toks) && i < |toks| && toks[i].kind.String?
    requires InText(js, toks)
    requires StringValue(js, toks, PROMPT_KEY) == Some(toks[i]) || StringValue(js, toks, MODEL_KEY) == Some(toks[i])
    ensures IsCString(TextAfter(js, toks), js, toks[i])
  {
    var after := TextAfter(js, toks);
    TextAfterQuotes(js, toks);
    TextUnchanged(js, after, toks, i);
    StringTokens(js, toks, i);
    assert after[toks[i].end] == NUL;
    forall k | toks[i].start <= k < toks[i].end
      ensures after[k] != NUL
    {
      assert after[toks[i].start..toks[i].end][k - toks[i].start] == js[toks[i].start..toks[i].end][k - toks[i].start];
    }
    StrLenTo(after, toks[i].start, toks[i].end);
  }

  /** What `handoff_parse_data` stores: two numbers, and two pointers as offsets into the data buffer. */
  class HandoffData {
    var userId: int
    var maxTokens: int
    var prompt: Option<nat>
    var model: Option<nat>

    constructor ()
      ensures userId == 0 && maxTokens == 0 && prompt == None && model == None
    {
      userId := 0;
      maxTokens := 0;
      prompt := None;
      model := None;
    }
  }

  predicate PointsTo(p: Option<nat>, lo: nat, t: Option<Token>) {
    if t.None? then p == None else p.Some? && p.value == lo + t.value.start
  }

  lemma StringValueInside(js: seq<byte>, toks: seq<Token>, key: seq<byte>)
    requires GoodTokens(js, toks) && InText(js, toks)
    ensures var t := StringValue(js, toks, key);
            t.Some? ==> 0 <= t.value.start <= t.value.end < |js| && t.value.kind.String? && t.value in toks
  {
    var i := FindKey(js, toks, key);
    if i > 0 {
      assert Delimited(js, toks[i], |js|);
    }
  }

  /** One lookup of a number field. */
  method NumberOf(js: seq<byte>, tokens: array<Token>, num: nat, key: seq<byte>) returns (n: int)
    requires num <= tokens.Length && InText(js, tokens[..num])
    ensures n == IntValue(js, tokens[..num], key)
  {
    n := 0;
    var i := JsonFindKey(js, tokens, num, key);
    if i > 0 {
      n := TokInt(js, tokens[i]);
    }
  }

  /** One lookup-and-terminate of `handoff_parse_data`, on a buffer where others may have happened. */
  method TerminateValue(data: array<byte>, base: nat, size: nat, tokens: array<Token>, num: nat, key: seq<byte>,
                        ghost js: seq<byte>)
      returns (p: Option<nat>)
    requires base + size <= data.Length && num <= tokens.Length && |js| == size
    requires GoodTokens(js, tokens[..num]) && InText(js, tokens[..num])
    requires OnlyQuotesChanged(js, data[base..base + size], tokens[..num])
    modifies data
    ensures InText(js, tokens[..num])
    ensures PointsTo(p, base, StringValue(js, tokens[..num], key))
    ensures var t := StringValue(js, tokens[..num], key);
            && (t.Some? ==> 0 <= t.value.end < size)
            && data[base..base + size] == Terminated(old(data[base..base + size]), t)
            && OnlyQuotesChanged(js, data[base..base + size], tokens[..num])
    ensures data[..base] == old(data[..base]) && data[base + size..] == old(data[base + size..])
  {
    ghost var toks, text := tokens[..num], data[base..base + size];
    LookupSurvives(js, text, toks, key);
    StringValueInside(js, toks, key);
    var i := JsonFindKey(data[base..base + size], tokens, num, key);
    p := None;
    if i > 0 && tokens[i].kind.String? {
      assert StringValue(js, toks, key) == Some(toks[i]);
      p := Some(base + tokens[i].start);
      data[base + tokens[i].end] := NUL;
      assert data[base..base + size] == text[toks[i].end := NUL];
    }
  }

  /** `json_parse` into the fixed token array. */
  method ParseTokens(js: seq<byte>, tokens: array<Token>) returns (num: int)
    requires tokens.Length == MAX_JSON_TOKENS
    modifies tokens
    ensures num < 0 <==> Tokenize(js, MAX_JSON_TOKENS).Fail?
    ensures num >= 0 ==>
              num <= tokens.Length && Tokenize(js, MAX_JSON_TOKENS) == Ok(tokens[..num])
              && GoodTokens(js, tokens[..num]) && InText(js, tokens[..num])
  {
    var parser := new Parser();
    assert tokens[..0] == [];
    num := parser.Parse(js, tokens, MAX_JSON_TOKENS);
    if num < 0 {
      return -1;
    }
    TokenizeSound(js, MAX_JSON_TOKENS);
    GoodTokensInText(js, tokens[..num]);
  }

  /** The two number fields. */
  method ReadNumbers(js: seq<byte>, tokens: array<Token>, num: nat, out: HandoffData)
    requires num <= tokens.Length && InText(js, tokens[..num])
    modifies out`userId, out`maxTokens
    ensures out.userId == IntValue(js, tokens[..num], USER_ID_KEY)
    ensures out.maxTokens == ToInt32(IntValue(js, tokens[..num], MAX_TOKENS_KEY))
  {
    hide IntValue, ToInt32;
    out.userId := NumberOf(js, tokens, num, USER_ID_KEY);
    var n := NumberOf(js, tokens, num, MAX_TOKENS_KEY);
    out.maxTokens := ToInt32(n);
  }

  /** The two text fields, terminated in place one after the other. */
  method ReadTexts(data: array<byte>, base: nat, size: nat, tokens: array<Token>, num: nat, out: HandoffData)
    requires base + size <= data.Length && num <= tokens.Length
    requires GoodTokens(data[base..base + size], tokens[..num]) && InText(data[base..base + size], tokens[..num])
    modifies data, out`prompt, out`model
    ensures var js, toks := old(data[base..base + size]), tokens[..num];
            && PointsTo(out.prompt, base, StringValue(js, toks, PROMPT_KEY))
            && PointsTo(out.model, base, StringValue(js, toks, MODEL_KEY))
            && data[base..base + size] == TextAfter(js, toks)
            && data[..base] == old(data[..base]) && data[base + size..] == old(data[base + size..])
  {
    hide PointsTo, StringValue, Terminated;
    ghost var js := data[base..base + size];
    out.prompt := TerminateValue(data, base, size, tokens, num, PROMPT_KEY, js);
    out.model := TerminateValue(data, base, size, tokens, num, MODEL_KEY, js);
  }

  lemma EmptyText()
    ensures Tokenize([], MAX_JSON_TOKENS) == Ok([]) && GoodTokens([], []) && InText([], [])
    ensures TextAfter([], []) == []
            && IntValue([], [], USER_ID_KEY) == IntValue([], [], MAX_TOKENS_KEY) == ToInt32(0) == 0
    ensures StringValue([], [], PROMPT_KEY) == StringValue([], [], MODEL_KEY) == None
  {
  }

  /**
   * `handoff_parse_data`.  The lookup of "model" reads the buffer after the prompt was terminated
   * in it, yet all four fields and the whole final buffer are those of the original text.
   */
  method HandoffParseData(data: array<byte>, len: nat, out: HandoffData) returns (ghost lo: nat, ghost n: nat)
    requires len <= data.Length
    modifies data, out
    ensures Trims(old(data[..]), len, lo, n)
    ensures var js := old(data[lo..lo + n]);
            match Tokenize(js, MAX_JSON_TOKENS)
            case Fail(_) =>
              data[..] == old(data[..]) && out.userId == 0 && out.maxTokens == 0 && out.prompt == None
                  && out.model == None
            case Ok(toks) =>
              && GoodTokens(js, toks) && InText(js, toks)
              && out.userId == IntValue(js, toks, USER_ID_KEY)
              && out.maxTokens == ToInt32(IntValue(js, toks, MAX_TOKENS_KEY))
              && PointsTo(out.prompt, lo, StringValue(js, toks, PROMPT_KEY))
              && PointsTo(out.model, lo, StringValue(js, toks, MODEL_KEY))
              && data[lo..lo + n] == TextAfter(js, toks)
              && data[..lo] == old(data[..lo]) && data[lo + n..] == old(data[lo + n..])
  {
    hide IntValue, ToInt32, TextAfter, StringValue, Tokenize;
    out.userId := 0;
    out.maxTokens := 0;
    out.prompt := None;
    out.model := None;
    var base, size := Trim(data, len);
    lo, n := base, size;
    if size == 0 {
      assert data[lo..lo + n] == [];
      EmptyText();
      return;
    }
    var tokens := new Token[MAX_JSON_TOKENS](_ => Token(Primitive, 0, 0, 0));
    ghost var js := data[lo..lo + n];
    var num := ParseTokens(data[base..base + size], tokens);
    if num < 0 {
      return;
    }
    ReadNumbers(data[base..base + size], tokens, num, out);
    ReadTexts(data, base, size, tokens, num, out);
  }
}
