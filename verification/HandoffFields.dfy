/**
 * The handoff data from text to fields: what `handoff_parse_data` leaves behind when it is given an object written
 * as JSON.
 */
module HandoffFields {
  import opened Bytes
  import opened JsonString
  import opened Jsmn
  import opened JsmnSound
  import opened JsmnTrees
  import opened Handoff
  import opened KeyLookup

  /** Pair `m` is the first with this key, and the lookup steps over the values before it exactly. */
  predicate FirstNamed(pairs: seq<Pair>, key: seq<byte>, m: nat) {
    && m < |pairs| && Print(pairs[m].key) == key
    && forall i | 0 <= i < m :: Print(pairs[i].key) != key && Measured(pairs[i].value)
  }

  /** No pair has this key, and the lookup steps over all values exactly. */
  predicate NeverNamed(pairs: seq<Pair>, key: seq<byte>) {
    forall i | 0 <= i < |pairs| :: Print(pairs[i].key) != key && Measured(pairs[i].value)
  }

  lemma {:induction false} PairAt(js: seq<byte>, pairs: seq<Pair>, p: nat, k: nat)
    requires k < |pairs| && OccursAt(js, WritePairs(pairs), p)
    ensures OccursAt(js, WritePair(pairs[k]), PairStart(pairs, p, k))
    decreases k
  {
    hide WritePair, WritePairs;
    PairsTextUnfold(js, pairs, p);
    if k > 0 {
      PairAt(js, pairs[1..], p + |WritePair(pairs[0])| + 1, k - 1);
    }
  }

  /** The value of pair `k` and its token, in the text of an object. */
  lemma ValueInText(t: Tree, k: nat)
    requires Valid(t) && t.Dict? && k < |t.pairs|
    ensures var p := ValueAt(t.pairs[k], PairStart(t.pairs, 1, k));
            OccursAt(Write(t), Write(t.pairs[k].value), p)
  {
    hide Write, WritePairs, WritePair, Layout, ValueAt, OccursAt, PairStart, Valid;
    var js := Write(t);
    ObjectTokens([], t, []);
    assert [] + (js + []) == js;
    PairAt(js, t.pairs, 1, k);
    PairSplit(js, t.pairs[k], PairStart(t.pairs, 1, k));
  }

  /** What the lookup of a named key finds in a written object: the first token of its value, and its text. */
  lemma Found(t: Tree, key: seq<byte>, m: nat)
    requires Valid(t) && t.Dict? && FirstNamed(t.pairs, key, m)
    ensures var js, toks := Write(t), Layout(t, 0);
            && InText(js, toks)
            && var r, p := FindKey(js, toks, key), ValueAt(t.pairs[m], PairStart(t.pairs, 1, m));
               r > 0 && toks[r] == Layout(t.pairs[m].value, p)[0] && OccursAt(js, Write(t.pairs[m].value), p)
  {
    hide Write, Layout, FindKey, Print, Measured, OccursAt, ValueAt, PairStart, Valid, InText;
    assert FirstPair(t.pairs, key) == Some(m);
    FindKeyFirst([], t, [], key);
    assert [] + (Write(t) + []) == Write(t);
    ValueInText(t, m);
  }

  lemma NotFound(t: Tree, key: seq<byte>)
    requires Valid(t) && t.Dict? && NeverNamed(t.pairs, key)
    ensures InText(Write(t), Layout(t, 0)) && FindKey(Write(t), Layout(t, 0), key) == -1
  {
    hide Write, Layout, FindKey, Print, Measured, Valid, InText;
    assert FirstPair(t.pairs, key) == None;
    FindKeyFirst([], t, [], key);
    assert [] + (Write(t) + []) == Write(t);
  }

  // ----- numbers

  /** The number of a key, read from the text: its own where it fits 64 bits. */
  lemma NumberFound(t: Tree, key: seq<byte>, m: nat, n: int)
    requires Valid(t) && t.Dict? && FirstNamed(t.pairs, key, m) && t.pairs[m].value == Prim(Signed(n))
    ensures InText(Write(t), Layout(t, 0))
    ensures var v := IntValue(Write(t), Layout(t, 0), key);
            && (v == n <==> -INT64_MAX - 1 <= n <= INT64_MAX)
            && (ToInt32(v) == n <==> -0x8000_0000 <= n < 0x8000_0000)
  {
    hide FindKey, Signed, ToInt32, TokInt, FirstNamed, Valid;
    Found(t, key, m);
    var js, toks := Write(t), Layout(t, 0);
    var r := FindKey(js, toks, key);
    NumberFieldsIff(js, toks[r], n);
  }

  /** Any other value counts as 0. */
  lemma NoNumberFound(t: Tree, key: seq<byte>, m: nat)
    requires Valid(t) && t.Dict? && FirstNamed(t.pairs, key, m) && !t.pairs[m].value.Prim?
    ensures InText(Write(t), Layout(t, 0)) && IntValue(Write(t), Layout(t, 0), key) == 0
  {
    hide FindKey, FirstNamed, Valid, OccursAt;
    Found(t, key, m);
  }

  // ----- strings

  lemma TextOfString(js: seq<byte>, items: seq<Item>, p: nat)
    requires OccursAt(js, Write(Text(items)), p)
    ensures var v := Layout(Text(items), p)[0];
            0 <= v.start <= v.end <= |js| && js[v.start..v.end] == Print(items) && v.kind.String?
  {
    hide Print;
    OccursSplit(js, [QUOTE], Print(items) + [QUOTE], p);
    OccursSplit(js, Print(items), [QUOTE], p + 1);
  }

  /** The token of a string value, and its text. */
  lemma StringFound(t: Tree, key: seq<byte>, m: nat)
    requires Valid(t) && t.Dict? && FirstNamed(t.pairs, key, m) && t.pairs[m].value.Text?
    ensures InText(Write(t), Layout(t, 0))
    ensures var v := StringValue(Write(t), Layout(t, 0), key);
            && v.Some? && v.value in Layout(t, 0) && 0 <= v.value.start <= v.value.end <= |Write(t)|
            && Write(t)[v.value.start..v.value.end] == Print(t.pairs[m].value.items)
  {
    hide FindKey, Valid, Print, Write, Layout, Measured, OccursAt, ValueAt, PairStart;
    Found(t, key, m);
    TextOfString(Write(t), t.pairs[m].value.items, ValueAt(t.pairs[m], PairStart(t.pairs, 1, m)));
  }

  lemma NoStringFound(t: Tree, key: seq<byte>, m: nat)
    requires Valid(t) && t.Dict? && FirstNamed(t.pairs, key, m) && !t.pairs[m].value.Text?
    ensures InText(Write(t), Layout(t, 0)) && StringValue(Write(t), Layout(t, 0), key) == None
  {
    hide FindKey, FirstNamed, Valid, OccursAt;
    Found(t, key, m);
  }

  // ----- the whole function

  /** The value of the first pair with this key, if the lookup steps over the values before it exactly. */
  ghost predicate Holds(t: Tree, key: seq<byte>, v: Tree)
    requires t.Dict?
  {
    exists m: nat :: m < |t.pairs| && FirstNamed(t.pairs, key, m) && t.pairs[m].value == v
  }

  /** Apart from blanks and zero bytes around it, the text is `s`. */
  predicate Surrounds(data: seq<byte>, s: seq<byte>, lo: nat) {
    && lo + |s| <= |data| && data[lo..lo + |s|] == s
    && (forall k | 0 <= k < lo :: IsTrimmed(data[k])) && (forall k | lo + |s| <= k < |data| :: IsTrimmed(data[k]))
  }

  lemma TrimsToText(data: seq<byte>, len: nat, s: seq<byte>, at: nat, lo: nat, n: nat)
    requires len <= |data| && Surrounds(data[..len], s, at) && Trims(data, len, lo, n)
    requires s != [] && !IsTrimmed(s[0]) && !IsTrimmed(s[|s| - 1])
    ensures lo == at && n == |s| && lo + n <= |data| && data[lo..lo + n] == s
  {
    hide IsTrimmed;
    assert data[..len][at..at + |s|][0] == data[at] && data[..len][at..at + |s|][|s| - 1] == data[at + |s| - 1];
    assert forall k | 0 <= k < len :: data[..len][k] == data[k];
    assert data[at..at + |s|] == data[..len][at..at + |s|];
  }

  lemma ObjectEnds(t: Tree)
    requires Valid(t) && t.Dict?
    ensures var s := Write(t); s != [] && !IsTrimmed(s[0]) && !IsTrimmed(s[|s| - 1])
  {
    hide WritePairs;
  }

  /** The C string a pointer leads to. */
  predicate CStringAt(data: seq<byte>, p: Option<nat>, s: seq<byte>) {
    && p.Some? && p.value + |s| < |data| && data[p.value..p.value + |s|] == s && data[p.value + |s|] == NUL
    && NUL !in s
  }

  lemma StringToken(js: seq<byte>, toks: seq<Token>, key: seq<byte>)
    requires InText(js, toks)
    ensures StringValue(js, toks, key).Some? ==> StringValue(js, toks, key).value.kind.String?
  {
  }

  lemma {:induction false} CStringEnds(s: seq<byte>, p: nat, e: nat)
    requires p <= e < |s| && StrLen(s, p) == e - p
    ensures s[e] == NUL && NUL !in s[p..e]
    decreases e - p
  {
    if p < e {
      CStringEnds(s, p + 1, e);
      assert s[p..e] == [s[p]] + s[p + 1..e];
    }
  }

  lemma InsideSlice(data: seq<byte>, lo: nat, n: nat, from: nat, to: nat)
    requires from <= to < n && lo + n <= |data|
    ensures data[lo..lo + n][from..to] == data[lo + from..lo + to] && data[lo..lo + n][to] == data[lo + to]
  {
    var s, t := data[lo..lo + n][from..to], data[lo + from..lo + to];
    forall k | 0 <= k < |s|
      ensures s[k] == t[k]
    {
      assert data[lo..lo + n][from + k] == data[lo + from + k];
    }
  }

  lemma StringStored(data: seq<byte>, lo: nat, t: Tree, key: seq<byte>, items: seq<Item>)
    requires Valid(t) && t.Dict? && Holds(t, key, Text(items)) && (key == PROMPT_KEY || key == MODEL_KEY)
    requires GoodTokens(Write(t), Layout(t, 0)) && InText(Write(t), Layout(t, 0))
    requires lo + |Write(t)| <= |data| && data[lo..lo + |Write(t)|] == TextAfter(Write(t), Layout(t, 0))
    ensures var v := StringValue(Write(t), Layout(t, 0), key);
            v.Some? && v.value.start >= 0 && CStringAt(data, Some(lo + v.value.start), Print(items))
  {
    hide Write, Layout, Valid, FirstNamed, StringValue, TextAfter, Print, GoodTokens, InText, StrLen;
    var m: nat :| m < |t.pairs| && FirstNamed(t.pairs, key, m) && t.pairs[m].value == Text(items);
    StringFound(t, key, m);
    var js, toks, text := Write(t), Layout(t, 0), data[lo..lo + |Write(t)|];
    var v := StringValue(js, toks, key).value;
    var i :| 0 <= i < |toks| && toks[i] == v;
    StringToken(js, toks, key);
    TerminatedIsCString(js, toks, i);
    CStringEnds(text, v.start, v.end);
    InsideSlice(data, lo, |text|, v.start, v.end);
  }

  lemma Zero()
    ensures ToInt32(0) == 0
  {
  }

  lemma Numbers(t: Tree)
    requires Valid(t) && t.Dict? && InText(Write(t), Layout(t, 0))
    ensures forall n | Holds(t, USER_ID_KEY, Prim(Signed(n))) ::
              IntValue(Write(t), Layout(t, 0), USER_ID_KEY) == n <==> -INT64_MAX - 1 <= n <= INT64_MAX
    ensures forall n | Holds(t, MAX_TOKENS_KEY, Prim(Signed(n))) ::
              ToInt32(IntValue(Write(t), Layout(t, 0), MAX_TOKENS_KEY)) == n <==> -0x8000_0000 <= n < 0x8000_0000
  {
    hide Write, Layout, Valid, FirstNamed, IntValue, ToInt32, Signed, InText, Ascii;
    forall n | Holds(t, USER_ID_KEY, Prim(Signed(n)))
      ensures IntValue(Write(t), Layout(t, 0), USER_ID_KEY) == n <==> -INT64_MAX - 1 <= n <= INT64_MAX
    {
      var m: nat :| m < |t.pairs| && FirstNamed(t.pairs, USER_ID_KEY, m) && t.pairs[m].value == Prim(Signed(n));
      NumberFound(t, USER_ID_KEY, m, n);
    }
    forall n | Holds(t, MAX_TOKENS_KEY, Prim(Signed(n)))
      ensures ToInt32(IntValue(Write(t), Layout(t, 0), MAX_TOKENS_KEY)) == n <==> -0x8000_0000 <= n < 0x8000_0000
    {
      var m: nat :| m < |t.pairs| && FirstNamed(t.pairs, MAX_TOKENS_KEY, m) && t.pairs[m].value == Prim(Signed(n));
      NumberFound(t, MAX_TOKENS_KEY, m, n);
    }
  }

  lemma NotThere(t: Tree, key: seq<byte>)
    requires Valid(t) && t.Dict? && InText(Write(t), Layout(t, 0))
    ensures NeverNamed(t.pairs, key) ==>
              IntValue(Write(t), Layout(t, 0), key) == 0 && StringValue(Write(t), Layout(t, 0), key) == None
    ensures forall v | Holds(t, key, v) && !v.Prim? :: IntValue(Write(t), Layout(t, 0), key) == 0
    ensures forall v | Holds(t, key, v) && !v.Text? :: StringValue(Write(t), Layout(t, 0), key) == None
  {
    hide Write, Layout, Valid, FirstNamed, NeverNamed, FindKey, InText;
    if NeverNamed(t.pairs, key) {
      NotFound(t, key);
    }
    forall v | Holds(t, key, v)
      ensures !v.Prim? ==> IntValue(Write(t), Layout(t, 0), key) == 0
      ensures !v.Text? ==> StringValue(Write(t), Layout(t, 0), key) == None
    {
      var m: nat :| m < |t.pairs| && FirstNamed(t.pairs, key, m) && t.pairs[m].value == v;
      if !v.Prim? {
        NoNumberFound(t, key, m);
      }
      if !v.Text? {
        NoStringFound(t, key, m);
      }
    }
  }

  /** The object has no more tokens than the fixed array. */
  predicate Fits(t: Tree) {
    |Layout(t, 0)| <= MAX_JSON_TOKENS
  }

  /**
   * `handoff_parse_data` on an object written as JSON, with blanks or zero bytes around it: each number field holds
   * its number exactly if that fits the field, each text pointer leads to a C string of its text, and what is not
   * there, or is of the other kind, leaves 0 and no pointer.  An object with more tokens than fit leaves nothing.
   */
  method ParseWritten(data: array<byte>, len: nat, out: HandoffData, ghost t: Tree, ghost at: nat)
    requires len <= data.Length && Valid(t) && t.Dict?
    requires Surrounds(data[..len], Write(t), at)
    modifies data, out
    ensures !Fits(t) ==>
              && data[..] == old(data[..]) && out.userId == out.maxTokens == 0 && out.prompt == out.model == None
    ensures forall n | Fits(t) && Holds(t, Ascii("user_id"), Prim(Signed(n))) ::
              out.userId == n <==> -INT64_MAX - 1 <= n <= INT64_MAX
    ensures forall n | Fits(t) && Holds(t, Ascii("max_tokens"), Prim(Signed(n))) ::
              out.maxTokens == n <==> -0x8000_0000 <= n < 0x8000_0000
    ensures forall items | Fits(t) && Holds(t, Ascii("prompt"), Text(items)) ::
              CStringAt(data[..], out.prompt, Print(items))
    ensures forall items | Fits(t) && Holds(t, Ascii("model"), Text(items)) ::
              CStringAt(data[..], out.model, Print(items))
    ensures Fits(t) && NeverNamed(t.pairs, Ascii("user_id")) ==> out.userId == 0
    ensures Fits(t) && NeverNamed(t.pairs, Ascii("max_tokens")) ==> out.maxTokens == 0
    ensures Fits(t) && NeverNamed(t.pairs, Ascii("prompt")) ==> out.prompt == None
    ensures Fits(t) && NeverNamed(t.pairs, Ascii("model")) ==> out.model == None
    ensures forall v | Fits(t) && Holds(t, Ascii("user_id"), v) && !v.Prim? :: out.userId == 0
    ensures forall v | Fits(t) && Holds(t, Ascii("max_tokens"), v) && !v.Prim? :: out.maxTokens == 0
    ensures forall v | Fits(t) && Holds(t, Ascii("prompt"), v) && !v.Text? :: out.prompt == None
    ensures forall v | Fits(t) && Holds(t, Ascii("model"), v) && !v.Text? :: out.model == None
  {
    hide Write, Layout, Valid, Holds, NeverNamed, TextAfter, Trims, Surrounds, Tokenize, IntValue, StringValue, Ascii,
         CStringAt, Print, GoodTokens, InText, ToInt32, Signed;
    ghost var was := data[..];
    ghost var lo, n := HandoffParseData(data, len, out);
    ObjectEnds(t);
    TrimsToText(was, len, Write(t), at, lo, n);
    TokenizeComplete([], t, [], MAX_JSON_TOKENS);
    assert [] + (Write(t) + []) == Write(t);
    if Fits(t) {
      Numbers(t);
      NotThere(t, USER_ID_KEY);
      NotThere(t, MAX_TOKENS_KEY);
      NotThere(t, PROMPT_KEY);
      NotThere(t, MODEL_KEY);
      Zero();
      assert data[..][lo..lo + n] == data[lo..lo + n];
      forall items | Holds(t, Ascii("prompt"), Text(items))
        ensures CStringAt(data[..], out.prompt, Print(items))
      {
        StringStored(data[..], lo, t, PROMPT_KEY, items);
      }
      forall items | Holds(t, Ascii("model"), Text(items))
        ensures CStringAt(data[..], out.model, Print(items))
      {
        StringStored(data[..], lo, t, MODEL_KEY, items);
      }
    }
  }
}
