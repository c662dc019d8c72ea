/** What every successful tokenization guarantees, for every input text. */
module JsmnSound {
  import opened Bytes
  import opened Jsmn

  /** `t` is a span of the text scanned up to `p`, delimited the way its kind requires. */
  predicate Delimited(js: seq<byte>, t: Token, p: nat)
    requires p <= |js|
  {
    && 0 <= t.start < p
    && (t.Open() || t.start <= t.end <= p)
    && match t.kind
       case Object => js[t.start] == LBRACE && (!t.Open() ==> t.end >= t.start + 2 && js[t.end - 1] == RBRACE)
       case Array => js[t.start] == LBRACKET && (!t.Open() ==> t.end >= t.start + 2 && js[t.end - 1] == RBRACKET)
       case String => !t.Open() && 1 <= t.start && t.end < p && js[t.start - 1] == QUOTE
           && StringEnd(js, t.start) == Ok(t.end)
       case Primitive => !t.Open() && t.start < t.end
  }

  /** An earlier and a later token: starts increase, and the spans are disjoint or properly nested. */
  predicate Ordered(a: Token, b: Token) {
    && a.start < b.start
    && (!a.Open() ==>
          || (if a.kind.String? then a.end < b.start else a.end <= b.start)
          || (a.Container() && !b.Open() && b.end < a.end))
  }

  predicate WellNested(js: seq<byte>, toks: seq<Token>, p: nat)
    requires p <= |js|
  {
    && (forall i | 0 <= i < |toks| :: Delimited(js, toks[i], p))
    && (forall i, j | 0 <= i < j < |toks| :: Ordered(toks[i], toks[j]))
  }

  predicate Inv(js: seq<byte>, st: State) {
    st.Live() && st.pos <= |js| && WellNested(js, st.toks, st.pos)
  }

  predicate SameSpan(a: Token, b: Token) {
    a.kind == b.kind && a.start == b.start && a.end == b.end
  }

  lemma BumpKeepsSpans(toks: seq<Token>, super: int)
    requires -1 <= super < |toks|
    ensures forall i | 0 <= i < |toks| :: SameSpan(Bump(toks, super)[i], toks[i])
  {
  }

  lemma SpansDecide(js: seq<byte>, a: Token, b: Token, p: nat, q: nat)
    requires p <= q <= |js| && SameSpan(a, b) && Delimited(js, a, p)
    ensures Delimited(js, b, q)
  {
  }

  /** A new token whose span starts where scanning stood. */
  lemma PushKeeps(js: seq<byte>, st: State, t: Token, pos: nat, super: int)
    requires Inv(js, st) && st.pos <= t.start && st.pos <= pos <= |js| && Delimited(js, t, pos)
    requires -1 <= super <= |st.toks|
    ensures Inv(js, Push(st, t, pos, super))
  {
    var toks := Push(st, t, pos, super).toks;
    BumpKeepsSpans(st.toks, st.super);
    forall i | 0 <= i < |toks|
      ensures Delimited(js, toks[i], pos)
    {
      if i < |st.toks| {
        SpansDecide(js, st.toks[i], toks[i], st.pos, pos);
      }
    }
    forall i, j | 0 <= i < j < |toks|
      ensures Ordered(toks[i], toks[j])
    {
      assert SameSpan(toks[i], st.toks[i]) && Delimited(js, st.toks[i], st.pos);
      if j < |st.toks| {
        assert SameSpan(toks[j], st.toks[j]) && Ordered(st.toks[i], st.toks[j]);
      }
    }
  }

  /** Closing the innermost open container encloses everything opened after it. */
  lemma CloseKeeps(js: seq<byte>, st: State)
    requires Inv(js, st) && !AtEnd(js, st.pos) && (js[st.pos] == RBRACE || js[st.pos] == RBRACKET)
    requires CloseContainer(js, st).Ok?
    ensures Inv(js, CloseContainer(js, st).value)
  {
    var next := CloseContainer(js, st).value;
    var i := LastOpen(st.toks, |st.toks|);
    forall k | 0 <= k < |next.toks|
      ensures Delimited(js, next.toks[k], next.pos)
    {
      assert Delimited(js, st.toks[k], st.pos);
      if k != i {
        SpansDecide(js, st.toks[k], next.toks[k], st.pos, next.pos);
      }
    }
    forall k, l | 0 <= k < l < |next.toks|
      ensures Ordered(next.toks[k], next.toks[l])
    {
      assert Ordered(st.toks[k], st.toks[l]);
      assert Delimited(js, st.toks[l], st.pos);
      assert k == i ==> !st.toks[l].Open();
      assert l == i ==> st.toks[l].Open();
    }
  }

  lemma StepKeeps(js: seq<byte>, st: State, cap: nat)
    requires Inv(js, st) && !AtEnd(js, st.pos) && Step(js, st, cap).Ok?
    ensures Inv(js, Step(js, st, cap).value)
  {
    hide StringEnd, PrimitiveEnd;
    var c, next := js[st.pos], Step(js, st, cap).value;
    if c == LBRACE || c == LBRACKET {
      PushKeeps(js, st, Token(if c == LBRACE then Object else Array, st.pos, -1, 0), st.pos + 1, |st.toks|);
    } else if c == RBRACE || c == RBRACKET {
      CloseKeeps(js, st);
    } else if c == QUOTE {
      var q := StringEnd(js, st.pos + 1).value;
      PushKeeps(js, st, Token(String, st.pos + 1, q, 0), q + 1, st.super);
    } else if IsBlank(c) || c == COLON || c == COMMA {
      forall i | 0 <= i < |st.toks|
        ensures Delimited(js, st.toks[i], st.pos + 1)
      {
        SpansDecide(js, st.toks[i], st.toks[i], st.pos, st.pos + 1);
      }
    } else {
      var e := PrimitiveEnd(js, st.pos).value;
      PushKeeps(js, st, Token(Primitive, st.pos, e, 0), e, st.super);
    }
  }

  lemma {:induction false} RunKeeps(js: seq<byte>, st: State, cap: nat)
    requires Inv(js, st) && Run(js, st, cap).Ok?
    ensures var end := Run(js, st, cap).value;
            Inv(js, end) && LastOpen(end.toks, |end.toks|) == -1
    decreases |js| - st.pos
  {
    if !AtEnd(js, st.pos) {
      StepKeeps(js, st, cap);
      RunKeeps(js, Step(js, st, cap).value, cap);
    }
  }

  lemma {:induction false} RunFits(js: seq<byte>, st: State, cap: nat)
    requires st.Live() && |st.toks| <= cap && Run(js, st, cap).Ok?
    ensures |st.toks| <= |Run(js, st, cap).value.toks| <= cap
    decreases |js| - st.pos
  {
    if !AtEnd(js, st.pos) {
      RunFits(js, Step(js, st, cap).value, cap);
    }
  }

  /** The tokens of a text, when it tokenizes within `cap` tokens. */
  function Tokenize(js: seq<byte>, cap: nat): Outcome<seq<Token>> {
    var r := Run(js, FRESH, cap);
    if r.Fail? then Fail(r.error) else Ok(r.value.toks)
  }

  /** A finished, well-formed token list for `js`. */
  predicate GoodTokens(js: seq<byte>, toks: seq<Token>) {
    && WellNested(js, toks, |js|)
    && forall i | 0 <= i < |toks| :: !toks[i].Open()
  }

  /**
   * For every text: on success the tokens fit, are closed, delimited by their matching quotes and
   * brackets, start in strictly increasing order and are pairwise disjoint or properly nested; and
   * the counting pass reports the same number.
   */
  lemma TokenizeSound(js: seq<byte>, cap: nat)
    requires Tokenize(js, cap).Ok?
    ensures var toks := Tokenize(js, cap).value;
            && GoodTokens(js, toks) && |toks| <= cap
            && Count(js, 0, 0) == Ok(|toks|)
  {
    RunKeeps(js, FRESH, cap);
    RunFits(js, FRESH, cap);
    CountAgrees(js, FRESH, cap);
    var end := Run(js, FRESH, cap).value;
    forall i | 0 <= i < |end.toks|
      ensures Delimited(js, end.toks[i], |js|)
    {
      SpansDecide(js, end.toks[i], end.toks[i], end.pos, |js|);
    }
  }

  /** A string token holds no NUL and is closed by the only quote a C string must lose. */
  lemma StringTokens(js: seq<byte>, toks: seq<Token>, i: nat)
    requires GoodTokens(js, toks) && i < |toks| && toks[i].kind.String?
    ensures 1 <= toks[i].start <= toks[i].end < |js|
    ensures js[toks[i].end] == QUOTE && forall k | toks[i].start <= k < toks[i].end :: js[k] != NUL
  {
    assert Delimited(js, toks[i], |js|);
  }

  /** The closing quote of one string lies in no other string. */
  lemma ClosingQuotesApart(js: seq<byte>, toks: seq<Token>, i: nat, j: nat)
    requires GoodTokens(js, toks) && i < |toks| && j < |toks|
    requires toks[i].kind.String? && toks[j].kind.String?
    ensures !(toks[j].start <= toks[i].end < toks[j].end)
  {
    assert Delimited(js, toks[i], |js|) && Delimited(js, toks[j], |js|);
    if i < j {
      assert Ordered(toks[i], toks[j]);
    } else if j < i {
      assert Ordered(toks[j], toks[i]);
    }
  }
}
