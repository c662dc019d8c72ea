/**
 * When `json_find_key` is right: on well-formed objects whose values its skip rule measures
 * correctly it returns the first matching key's value; on others it can miss keys.
 */
module KeyLookup {
  import opened Bytes
  import opened JsonString
  import opened Jsmn
  import opened JsmnSound
  import opened JsmnTrees
  import opened Handoff

  // ----- how many tokens a value takes, and how many the lookup skips

  function Nodes(t: Tree): nat
    decreases t, 0
  {
    match t
    case Text(_) => 1
    case Prim(_) => 1
    case List(_, elems) => 1 + ElemNodes(elems)
    case Dict(_, pairs) => 1 + PairNodes(pairs)
  }

  function ElemNodes(elems: seq<Elem>): nat
    decreases elems, 1
  {
    if elems == [] then 0 else Nodes(elems[0].value) + ElemNodes(elems[1..])
  }

  function PairNodes(pairs: seq<Pair>): nat
    decreases pairs, 1
  {
    if pairs == [] then 0 else 1 + Nodes(pairs[0].value) + PairNodes(pairs[1..])
  }

  lemma {:induction false} LayoutLength(t: Tree, p: nat)
    ensures |Layout(t, p)| == Nodes(t)
    decreases t, 0
  {
    match t {
      case Text(_) =>
      case Prim(_) =>
      case List(_, elems) => ElemsLength(elems, p + 1);
      case Dict(_, pairs) => PairsLength(pairs, p + 1);
    }
  }

  lemma {:induction false} ElemsLength(elems: seq<Elem>, p: nat)
    ensures |LayoutElems(elems, p)| == ElemNodes(elems)
    decreases elems, 1
  {
    if elems != [] {
      LayoutLength(elems[0].value, p + |elems[0].before|);
      ElemsLength(elems[1..], p + |WriteElem(elems[0])| + 1);
    }
  }

  lemma {:induction false} PairsLength(pairs: seq<Pair>, p: nat)
    ensures |LayoutPairs(pairs, p)| == PairNodes(pairs)
    decreases pairs, 1
  {
    if pairs != [] {
      LayoutLength(pairs[0].value, ValueAt(pairs[0], p));
      PairsLength(pairs[1..], p + |WritePair(pairs[0])| + 1);
    }
  }

  /** The tokens the lookup steps over for this value: one, and two for each child it counts. */
  function Skipped(t: Tree): nat {
    match t
    case Text(_) => 1
    case Prim(_) => 1
    case List(_, elems) => 1 + 2 * |elems|
    case Dict(_, pairs) => 1 + 2 * |pairs|
  }

  /** The lookup steps over exactly this value. */
  predicate Measured(t: Tree) {
    Skipped(t) == Nodes(t)
  }

  predicate Scalar(t: Tree) {
    t.Text? || t.Prim?
  }

  lemma {:induction false} FlatPairNodes(pairs: seq<Pair>)
    requires forall i | 0 <= i < |pairs| :: Scalar(pairs[i].value)
    ensures PairNodes(pairs) == 2 * |pairs|
  {
    if pairs != [] {
      FlatPairNodes(pairs[1..]);
    }
  }

  /** Scalars, empty containers and objects of scalars are all measured. */
  lemma SimpleValuesMeasured(t: Tree)
    requires Scalar(t) || (t.List? && t.elems == [])
             || (t.Dict? && forall i | 0 <= i < |t.pairs| :: Scalar(t.pairs[i].value))
    ensures Measured(t)
  {
    if t.Dict? {
      FlatPairNodes(t.pairs);
    }
  }

  lemma {:induction false} ScalarElemNodes(elems: seq<Elem>)
    requires forall i | 0 <= i < |elems| :: Scalar(elems[i].value)
    ensures ElemNodes(elems) == |elems|
  {
    if elems != [] {
      ScalarElemNodes(elems[1..]);
    }
  }

  /** The lookup steps too far over every array of scalars that is not empty. */
  lemma ScalarArraysOvershoot(t: Tree)
    requires t.List? && t.elems != [] && forall i | 0 <= i < |t.elems| :: Scalar(t.elems[i].value)
    ensures Skipped(t) > Nodes(t)
  {
    ScalarElemNodes(t.elems);
  }

  // ----- the lookup on a tree

  /** The first pair whose key is written as `key`. */
  function FirstPair(pairs: seq<Pair>, key: seq<byte>): (r: Option<nat>)
    ensures r.Some? ==> r.value < |pairs| && Print(pairs[r.value].key) == key
    ensures r.Some? ==> forall i | 0 <= i < r.value :: Print(pairs[i].key) != key
    ensures r.None? ==> forall i | 0 <= i < |pairs| :: Print(pairs[i].key) != key
  {
    if pairs == [] then None
    else if Print(pairs[0].key) == key then Some(0)
    else
      var r := FirstPair(pairs[1..], key);
      if r.None? then None else Some(r.value + 1)
  }

  /** The pairs that stand before the first match; all of them when there is none. */
  function PairsBefore(pairs: seq<Pair>, key: seq<byte>): (n: nat)
    ensures n <= |pairs|
  {
    var m := FirstPair(pairs, key);
    if m.Some? then m.value else |pairs|
  }

  /** Where pair `k` starts in the text, when the pairs start at `p`. */
  function PairStart(pairs: seq<Pair>, p: nat, k: nat): nat
    requires k <= |pairs|
  {
    if k == 0 then p else PairStart(pairs[1..], p + |WritePair(pairs[0])| + 1, k - 1)
  }

  /**
   * The index of key `k`'s token, when that of the first key is `i`; for `k` the number of pairs, one past
   * the last token.
   */
  function KeyAt(pairs: seq<Pair>, i: nat, k: nat): nat
    requires k <= |pairs|
  {
    if k == 0 then i else KeyAt(pairs[1..], i + 1 + Nodes(pairs[0].value), k - 1)
  }

  lemma KeyText(js: seq<byte>, p: nat, pair: Pair, key: seq<byte>, size: nat)
    requires OccursAt(js, WritePair(pair), p)
    ensures var t := KeyToken(pair, p, size);
            0 <= t.start <= t.end <= |js| && (TokEq(js, t, key) <==> Print(pair.key) == key)
  {
    hide Write, Print;
    var rest := pair.mid + ([COLON] + (pair.gap + (Write(pair.value) + pair.after)));
    OccursSplit(js, pair.before, WriteKey(pair) + rest, p);
    OccursSplit(js, WriteKey(pair), rest, p + |pair.before|);
    OccursSplit(js, [QUOTE], Print(pair.key) + [QUOTE], p + |pair.before|);
    OccursSplit(js, Print(pair.key), [QUOTE], p + |pair.before| + 1);
  }

  lemma ContainerSize(t: Tree, p: nat)
    ensures var root := Layout(t, p)[0];
            (if root.Container() then 1 + root.size * 2 else 1) == Skipped(t)
  {
  }

  /** The tokens of the first pair. */
  function PairTokens(pair: Pair, p: nat): seq<Token> {
    [KeyToken(pair, p, 1)] + Layout(pair.value, ValueAt(pair, p))
  }

  lemma PairsTextUnfold(js: seq<byte>, pairs: seq<Pair>, p: nat)
    requires pairs != [] && OccursAt(js, WritePairs(pairs), p)
    ensures OccursAt(js, WritePair(pairs[0]), p)
    ensures |pairs| > 1 ==> OccursAt(js, WritePairs(pairs[1..]), p + |WritePair(pairs[0])| + 1)
  {
    hide WritePair, OccursAt;
    var tail := if |pairs| == 1 then [] else [COMMA] + WritePairs(pairs[1..]);
    OccursSplit(js, WritePair(pairs[0]), tail, p);
    if |pairs| > 1 {
      OccursSplit(js, [COMMA], WritePairs(pairs[1..]), p + |WritePair(pairs[0])|);
    }
  }

  lemma PairsUnfold(js: seq<byte>, pairs: seq<Pair>, p: nat)
    requires pairs != [] && OccursAt(js, WritePairs(pairs), p)
    ensures LayoutPairs(pairs, p) == PairTokens(pairs[0], p) + LayoutPairs(pairs[1..], p + |WritePair(pairs[0])| + 1)
    ensures OccursAt(js, WritePair(pairs[0]), p)
    ensures |pairs| > 1 ==> OccursAt(js, WritePairs(pairs[1..]), p + |WritePair(pairs[0])| + 1)
  {
    hide WritePair, WritePairs, Layout, KeyToken, ValueAt, OccursAt;
    PairsTextUnfold(js, pairs, p);
  }

  /** One stop of the walk: the key is compared as text, and its value is stepped over as far as the rule says. */
  lemma AtFirstKey(js: seq<byte>, front: seq<Token>, pair: Pair, p: nat, rest: seq<Token>, key: seq<byte>)
    requires InText(js, front + (PairTokens(pair, p) + rest)) && OccursAt(js, WritePair(pair), p)
    ensures var toks := front + (PairTokens(pair, p) + rest);
            && |front| + 1 < |toks| && toks == (front + PairTokens(pair, p)) + rest
            && toks[|front|] == KeyToken(pair, p, 1) && (TokEq(js, toks[|front|], key) <==> Print(pair.key) == key)
            && toks[|front| + 1] == Layout(pair.value, ValueAt(pair, p))[0]
            && NextKey(toks, |front|) == |front| + 1 + Skipped(pair.value)
            && |front + PairTokens(pair, p)| == |front| + 1 + Nodes(pair.value)
  {
    hide Layout, Print, WritePair;
    KeyText(js, p, pair, key, 1);
    ContainerSize(pair.value, ValueAt(pair, p));
    LayoutLength(pair.value, ValueAt(pair, p));
    var toks := front + (PairTokens(pair, p) + rest);
    assert toks[|front|] == KeyToken(pair, p, 1);
  }

  /** The stop at key `k`, anywhere in the walk. */
  lemma {:induction false} AtKey(js: seq<byte>, front: seq<Token>, pairs: seq<Pair>, p: nat, key: seq<byte>, k: nat)
    requires InText(js, front + LayoutPairs(pairs, p)) && OccursAt(js, WritePairs(pairs), p) && k < |pairs|
    ensures var toks, i := front + LayoutPairs(pairs, p), KeyAt(pairs, |front|, k);
            && i + 1 < |toks| && KeyAt(pairs, |front|, k + 1) == i + 1 + Nodes(pairs[k].value)
            && toks[i] == KeyToken(pairs[k], PairStart(pairs, p, k), 1)
            && (TokEq(js, toks[i], key) <==> Print(pairs[k].key) == key)
            && toks[i + 1] == Layout(pairs[k].value, ValueAt(pairs[k], PairStart(pairs, p, k)))[0]
            && NextKey(toks, i) == i + 1 + Skipped(pairs[k].value)
    decreases k
  {
    hide WritePair, WritePairs, Layout, Print, PairTokens, TokEq, NextKey, Skipped, KeyToken;
    var pair, p' := pairs[0], p + |WritePair(pairs[0])| + 1;
    PairsUnfold(js, pairs, p);
    AtFirstKey(js, front, pair, p, LayoutPairs(pairs[1..], p'), key);
    if k > 0 {
      AtKey(js, front + PairTokens(pair, p), pairs[1..], p', key, k - 1);
    }
  }

  lemma {:induction false} LastKeyAt(pairs: seq<Pair>, i: nat)
    ensures KeyAt(pairs, i, |pairs|) == i + PairNodes(pairs)
  {
    if pairs != [] {
      LastKeyAt(pairs[1..], i + 1 + Nodes(pairs[0].value));
    }
  }

  lemma FirstKeyAt(pairs: seq<Pair>, i: nat)
    ensures KeyAt(pairs, i, 0) == i
  {
  }

  /** While no key matches and every value is measured, the walk goes from key to key. */
  lemma {:induction false} WalkTo(js: seq<byte>, front: seq<Token>, pairs: seq<Pair>, p: nat, key: seq<byte>, k: nat)
    requires InText(js, front + LayoutPairs(pairs, p)) && (pairs == [] || OccursAt(js, WritePairs(pairs), p))
             && k <= |pairs|
    requires forall i | 0 <= i < k :: Measured(pairs[i].value) && Print(pairs[i].key) != key
    ensures var toks := front + LayoutPairs(pairs, p);
            FindFrom(js, toks, key, |front|) == FindFrom(js, toks, key, KeyAt(pairs, |front|, k))
    decreases k
  {
    hide Layout, LayoutPairs, WritePairs, Print, TokEq, NextKey, KeyAt, PairStart;
    if k > 0 {
      WalkTo(js, front, pairs, p, key, k - 1);
      AtKey(js, front, pairs, p, key, k - 1);
    } else {
      FirstKeyAt(pairs, |front|);
    }
  }

  lemma PairsText(js: seq<byte>, before: Blanks, t: Tree, after: Blanks)
    requires t.Dict? && t.pairs != [] && js == before + (Write(t) + after)
    ensures OccursAt(js, WritePairs(t.pairs), |before| + 1)
  {
    hide WritePairs;
    assert js[0..|js|] == js;
    OccursSplit(js, before, Write(t) + after, 0);
    OccursSplit(js, Write(t), after, |before|);
    OccursSplit(js, [LBRACE], WritePairs(t.pairs) + [RBRACE], |before|);
    OccursSplit(js, WritePairs(t.pairs), [RBRACE], |before| + 1);
  }

  /** The text and tokens of an object, as the lookup sees them. */
  lemma ObjectTokens(before: Blanks, t: Tree, after: Blanks)
    requires Valid(t) && t.Dict?
    ensures var js, toks := before + (Write(t) + after), Layout(t, |before|);
            && InText(js, toks) && toks == [toks[0]] + LayoutPairs(t.pairs, |before| + 1) && toks[0].kind.Object?
            && (t.pairs == [] || OccursAt(js, WritePairs(t.pairs), |before| + 1))
            && |toks| == KeyAt(t.pairs, 1, |t.pairs|)
  {
    hide Write, Tokenize, LayoutPairs, KeyAt;
    var js, toks := before + (Write(t) + after), Layout(t, |before|);
    TokenizeComplete(before, t, after, |toks|);
    TokenizeSound(js, |toks|);
    GoodTokensInText(js, toks);
    if t.pairs != [] {
      PairsText(js, before, t, after);
    }
    LayoutLength(t, |before|);
    LastKeyAt(t.pairs, 1);
  }

  /**
   * For every well-formed object the lookup reports the root token of the first matching pair's value,
   * and -1 when no key matches, provided the values before that pair are measured.
   */
  lemma FindKeyFirst(before: Blanks, t: Tree, after: Blanks, key: seq<byte>)
    requires Valid(t) && t.Dict?
    requires forall i | 0 <= i < PairsBefore(t.pairs, key) :: Measured(t.pairs[i].value)
    ensures var js, toks := before + (Write(t) + after), Layout(t, |before|);
            && InText(js, toks)
            && var r, m := FindKey(js, toks, key), FirstPair(t.pairs, key);
               if m.None? then r == -1
               else
                 && r == KeyAt(t.pairs, 1, m.value) + 1
                 && var p := t.pairs[m.value];
                    toks[r] == Layout(p.value, ValueAt(p, PairStart(t.pairs, |before| + 1, m.value)))[0]
  {
    hide Write, Layout, LayoutPairs, WritePairs, WritePair, Print, TokEq, NextKey, KeyAt, PairStart, Measured, Valid,
         InText, OccursAt, FirstPair, ValueAt, KeyToken, Skipped, Nodes;
    var js, toks, m := before + (Write(t) + after), Layout(t, |before|), FirstPair(t.pairs, key);
    ObjectTokens(before, t, after);
    WalkTo(js, [toks[0]], t.pairs, |before| + 1, key, PairsBefore(t.pairs, key));
    if m.Some? {
      AtKey(js, [toks[0]], t.pairs, |before| + 1, key, m.value);
    }
  }

  // ----- when the walk keeps to the keys

  /** The token the walk stops at after `n` steps from `i`, when nothing matches. */
  function Stop(toks: seq<Token>, i: nat, n: nat): nat
    decreases n
  {
    if n == 0 || i >= |toks| then i else Stop(toks, NextKey(toks, i), n - 1)
  }

  /** The first `n` steps lead from key to key. */
  predicate InStep(toks: seq<Token>, i: nat, pairs: seq<Pair>, n: nat)
    requires n <= |pairs|
  {
    forall k | 0 <= k <= n :: Stop(toks, i, k) == KeyAt(pairs, i, k)
  }

  lemma {:induction false} StopSnoc(toks: seq<Token>, i: nat, n: nat)
    ensures var s := Stop(toks, i, n); Stop(toks, i, n + 1) == if s >= |toks| then s else NextKey(toks, s)
    decreases n
  {
    if n > 0 && i < |toks| {
      StopSnoc(toks, NextKey(toks, i), n - 1);
    }
  }

  lemma NoStep(toks: seq<Token>, i: nat)
    ensures Stop(toks, i, 0) == i
  {
  }

  lemma {:induction false} InStepIff(js: seq<byte>, front: seq<Token>, pairs: seq<Pair>, p: nat, n: nat)
    requires InText(js, front + LayoutPairs(pairs, p)) && (pairs == [] || OccursAt(js, WritePairs(pairs), p))
             && n <= |pairs|
    ensures InStep(front + LayoutPairs(pairs, p), |front|, pairs, n) <==>
            forall k | 0 <= k < n :: Measured(pairs[k].value)
  {
    hide LayoutPairs, Layout, WritePairs, NextKey, TokEq, KeyAt, PairStart, Stop, Skipped, Nodes;
    var toks := front + LayoutPairs(pairs, p);
    if n == 0 {
      FirstKeyAt(pairs, |front|);
      NoStep(toks, |front|);
    } else {
      InStepIff(js, front, pairs, p, n - 1);
      AtKey(js, front, pairs, p, [], n - 1);
      StopSnoc(toks, |front|, n - 1);
    }
  }

  /**
   * Exactly when the walk over a well-formed object keeps to its keys: its first `n` steps lead from key
   * to key if and only if the first `n` values are measured.
   */
  lemma KeepsToKeysIff(before: Blanks, t: Tree, after: Blanks, n: nat)
    requires Valid(t) && t.Dict? && n <= |t.pairs|
    ensures InStep(Layout(t, |before|), 1, t.pairs, n) <==> forall k | 0 <= k < n :: Measured(t.pairs[k].value)
  {
    hide Write, Layout, LayoutPairs, WritePairs, InStep, Measured, Valid;
    ObjectTokens(before, t, after);
    InStepIff(before + (Write(t) + after), [Layout(t, |before|)[0]], t.pairs, |before| + 1, n);
  }

  /**
   * The first value that is stepped over too far hides the next key: the lookup of that key finds a later
   * token or nothing, never the key's value.
   */
  lemma OvershootHidesNextKey(before: Blanks, t: Tree, after: Blanks, key: seq<byte>, n: nat)
    requires Valid(t) && t.Dict? && FirstPair(t.pairs, key) == Some(n + 1)
    requires (forall k | 0 <= k < n :: Measured(t.pairs[k].value))
             && Skipped(t.pairs[n].value) > Nodes(t.pairs[n].value)
    ensures var js, toks := before + (Write(t) + after), Layout(t, |before|);
            && InText(js, toks)
            && var r := FindKey(js, toks, key); r == -1 || r > KeyAt(t.pairs, 1, n + 1) + 1
  {
    hide Write, Layout, LayoutPairs, WritePairs, Print, TokEq, NextKey, KeyAt, PairStart, Measured, Valid, Skipped,
         Nodes;
    var js, toks := before + (Write(t) + after), Layout(t, |before|);
    ObjectTokens(before, t, after);
    WalkTo(js, [toks[0]], t.pairs, |before| + 1, key, n);
    AtKey(js, [toks[0]], t.pairs, |before| + 1, key, n);
  }

  predicate DistinctKeys(pairs: seq<Pair>) {
    forall i, j | 0 <= i < j < |pairs| :: Print(pairs[i].key) != Print(pairs[j].key)
  }

  /** The lookup finds the value of pair `k`. */
  predicate Finds(js: seq<byte>, toks: seq<Token>, pairs: seq<Pair>, k: nat)
    requires InText(js, toks) && k < |pairs|
  {
    FindKey(js, toks, Print(pairs[k].key)) == KeyAt(pairs, 1, k) + 1
  }

  lemma FirstOfDistinct(pairs: seq<Pair>, k: nat)
    requires DistinctKeys(pairs) && k < |pairs|
    ensures FirstPair(pairs, Print(pairs[k].key)) == Some(k)
  {
    hide Print, FirstPair;
    var m := FirstPair(pairs, Print(pairs[k].key));
    assert m.Some?;
    assert m.value == k;
  }

  lemma {:induction false} FirstUnmeasured(pairs: seq<Pair>, n: nat) returns (k: nat)
    requires n < |pairs| && !Measured(pairs[n].value)
    ensures k <= n && !Measured(pairs[k].value) && forall i | 0 <= i < k :: Measured(pairs[i].value)
  {
    k := n;
    if i :| 0 <= i < n && !Measured(pairs[i].value) {
      k := FirstUnmeasured(pairs, i);
    }
  }

  /**
   * On an object with distinct keys whose values take no more tokens than are skipped for them (scalars,
   * arrays of scalars and empty containers, objects of scalars), every key is found if and only if every
   * value but the last is measured.
   */
  lemma AllKeysFoundIff(before: Blanks, t: Tree, after: Blanks)
    requires Valid(t) && t.Dict? && DistinctKeys(t.pairs)
    requires forall i | 0 <= i < |t.pairs| :: Nodes(t.pairs[i].value) <= Skipped(t.pairs[i].value)
    ensures var js, toks := before + (Write(t) + after), Layout(t, |before|);
            && InText(js, toks)
            && ((forall k | 0 <= k < |t.pairs| :: Finds(js, toks, t.pairs, k))
                <==> forall i | 0 <= i < |t.pairs| - 1 :: Measured(t.pairs[i].value))
  {
    hide Write, Layout, Print, KeyAt, FirstPair, FindKey, Valid, DistinctKeys, Skipped, Nodes;
    var js, toks := before + (Write(t) + after), Layout(t, |before|);
    ObjectTokens(before, t, after);
    if n: nat :| n < |t.pairs| - 1 && !Measured(t.pairs[n].value) {
      var k := FirstUnmeasured(t.pairs, n);
      FirstOfDistinct(t.pairs, k + 1);
      OvershootHidesNextKey(before, t, after, Print(t.pairs[k + 1].key), k);
      assert !Finds(js, toks, t.pairs, k + 1);
    } else {
      forall k | 0 <= k < |t.pairs|
        ensures Finds(js, toks, t.pairs, k)
      {
        FirstOfDistinct(t.pairs, k);
        FindKeyFirst(before, t, after, Print(t.pairs[k].key));
      }
    }
  }

  // ----- a document whose first value is a list

  function Raws(s: seq<byte>): seq<Item> {
    seq(|s|, i requires 0 <= i < |s| => Raw(s[i]))
  }

  lemma {:induction false} PrintRaws(s: seq<byte>)
    ensures Print(Raws(s)) == s
  {
    if s != [] {
      PrintRaws(s[1..]);
      assert Raws(s)[1..] == Raws(s[1..]);
    }
  }

  predicate Unescaped(s: seq<byte>) {
    forall i | 0 <= i < |s| :: IsUnescaped(s[i])
  }

  function Simple(key: seq<byte>, value: Tree): Pair {
    Pair([], Raws(key), [], [], value, [])
  }

  function Listed(a: seq<byte>): Tree {
    List([], [Elem([], Text(Raws(a)), [])])
  }

  /** {"m":["a"],"key":"x"} */
  function Behind(m: seq<byte>, a: seq<byte>, key: seq<byte>, x: seq<byte>): Tree {
    Dict([], [Simple(m, Listed(a)), Simple(key, Text(Raws(x)))])
  }

  lemma SimpleText(key: seq<byte>, value: Tree)
    ensures WritePair(Simple(key, value)) == [QUOTE] + key + [QUOTE, COLON] + Write(value)
  {
    hide Write, Print, Raws;
    PrintRaws(key);
  }

  lemma RawText(s: seq<byte>)
    ensures Write(Text(Raws(s))) == [QUOTE] + (s + [QUOTE])
  {
    hide Print, Raws;
    PrintRaws(s);
  }

  lemma ListedText(a: seq<byte>)
    ensures Write(Listed(a)) == [LBRACKET, QUOTE] + a + [QUOTE, RBRACKET]
  {
    hide Print, Raws;
    RawText(a);
    var e := Elem([], Text(Raws(a)), []);
    assert WriteElem(e) == [] + (Write(Text(Raws(a))) + []) == [QUOTE] + (a + [QUOTE]);
    assert WriteElems([e]) == WriteElem(e) + [];
  }

  lemma TwoPairsText(p: Pair, q: Pair)
    ensures Write(Dict([], [p, q])) == [LBRACE] + WritePair(p) + [COMMA] + WritePair(q) + [RBRACE]
  {
    hide WritePair;
    assert [p, q][1..] == [q];
    assert WritePairs([q]) == WritePair(q) + [];
    assert WritePairs([p, q]) == WritePair(p) + ([COMMA] + WritePairs([q]));
  }

  lemma BehindText(m: seq<byte>, a: seq<byte>, key: seq<byte>, x: seq<byte>)
    ensures Write(Behind(m, a, key, x))
            == [LBRACE, QUOTE] + m + [QUOTE, COLON, LBRACKET, QUOTE] + a + [QUOTE, RBRACKET, COMMA, QUOTE]
               + key + [QUOTE, COLON, QUOTE] + x + [QUOTE, RBRACE]
  {
    hide Write, WritePair, Raws;
    TwoPairsText(Simple(m, Listed(a)), Simple(key, Text(Raws(x))));
    SimpleText(m, Listed(a));
    ListedText(a);
    SimpleText(key, Text(Raws(x)));
    RawText(x);
  }

  lemma TextValid(s: seq<byte>)
    requires Unescaped(s)
    ensures Valid(Text(Raws(s))) && Nodes(Text(Raws(s))) == 1
  {
  }

  lemma ListedValid(a: seq<byte>)
    requires Unescaped(a)
    ensures Valid(Listed(a)) && Nodes(Listed(a)) == 2
  {
    var e := Elem([], Text(Raws(a)), []);
    TextValid(a);
    assert ValidElems([e][1..]) && ElemNodes([e][1..]) == 0;
    assert ValidElems([e]) && ElemNodes([e]) == Nodes(e.value) + ElemNodes([e][1..]);
  }

  /** An object of two pairs, unfolded. */
  lemma TwoPairs(p: Pair, q: Pair)
    ensures ValidItems(p.key) && Valid(p.value) && ValidItems(q.key) && Valid(q.value) ==> Valid(Dict([], [p, q]))
    ensures Nodes(Dict([], [p, q])) == 3 + Nodes(p.value) + Nodes(q.value)
    ensures KeyAt([p, q], 1, 1) == 2 + Nodes(p.value)
  {
    hide ValidItems;
    assert [p, q][1..] == [q] && [q][1..] == [];
    assert PairNodes([q]) == 1 + Nodes(q.value) + PairNodes([q][1..]) == 1 + Nodes(q.value);
    assert PairNodes([p, q]) == 1 + Nodes(p.value) + PairNodes([q]);
    assert Valid(q.value) && ValidItems(q.key) ==> ValidPairs([q]);
  }

  lemma BehindFirst(m: seq<byte>, a: seq<byte>, key: seq<byte>, x: seq<byte>)
    requires m != key
    ensures FirstPair(Behind(m, a, key, x).pairs, key) == Some(1)
  {
    PrintRaws(m);
    PrintRaws(key);
  }

  /** Behind a list of one string the next key is not found at all. */
  lemma ListHidesKey(m: seq<byte>, a: seq<byte>, key: seq<byte>, x: seq<byte>, cap: nat)
    requires Unescaped(m) && Unescaped(a) && Unescaped(key) && Unescaped(x) && m != key && cap >= 6
    ensures var js := Write(Behind(m, a, key, x));
            match Tokenize(js, cap)
            case Ok(toks) => InText(js, toks) && |toks| == 6 && FindKey(js, toks, key) == -1
            case Fail(_) => false
  {
    hide Write, Tokenize, Layout, Valid, FirstPair, KeyAt, Nodes, FindKey;
    var t := Behind(m, a, key, x);
    ListedValid(a);
    TwoPairs(Simple(m, Listed(a)), Simple(key, Text(Raws(x))));
    TextValid(x);
    BehindFirst(m, a, key, x);
    LayoutLength(t, 0);
    TokenizeComplete([], t, [], cap);
    OvershootHidesNextKey([], t, [], key, 0);
    assert [] + (Write(t) + []) == Write(t);
  }

  lemma Regrouped<T>(a: seq<T>, b: seq<T>, c: seq<T>, d: seq<T>, e: seq<T>)
    ensures a + b + c + d + e == a + (b + (c + d + e))
  {
  }

  lemma BeforePrompt()
    ensures Ascii("{\"m\":[\"a\"],\"")
            == [LBRACE, QUOTE] + Ascii("m") + [QUOTE, COLON, LBRACKET, QUOTE] + Ascii("a")
               + [QUOTE, RBRACKET, COMMA, QUOTE]
  {
  }

  lemma AfterPrompt()
    ensures Ascii("\":\"x\"}") == [QUOTE, COLON, QUOTE] + Ascii("x") + [QUOTE, RBRACE]
    ensures Ascii("prompt\":\"x\"}") == PROMPT_KEY + Ascii("\":\"x\"}")
  {
    AsciiConcat("prompt", "\":\"x\"}");
  }

  lemma PromptBehindText()
    ensures Write(Behind(Ascii("m"), Ascii("a"), PROMPT_KEY, Ascii("x")))
            == Ascii("{\"m\":[\"a\"],\"prompt\":\"x\"}")
  {
    hide Write, Ascii, Behind;
    BehindText(Ascii("m"), Ascii("a"), PROMPT_KEY, Ascii("x"));
    BeforePrompt();
    AfterPrompt();
    Regrouped(Ascii("{\"m\":[\"a\"],\""), PROMPT_KEY, [QUOTE, COLON, QUOTE], Ascii("x"), [QUOTE, RBRACE]);
    var (before, after) := ("{\"m\":[\"a\"],\"", "prompt\":\"x\"}");
    AsciiConcat(before, after);
    assert before + after == "{\"m\":[\"a\"],\"prompt\":\"x\"}";
  }

  lemma PlainTexts()
    ensures Unescaped(Ascii("m")) && Unescaped(Ascii("a")) && Unescaped(PROMPT_KEY) && Unescaped(Ascii("x"))
    ensures Ascii("m") != PROMPT_KEY
  {
    assert |Ascii("m")| != |PROMPT_KEY|;
  }

  /** In this document the prompt stands behind a list, and its lookup reports no such key. */
  lemma PromptBehindList()
    ensures var js := Ascii("{\"m\":[\"a\"],\"prompt\":\"x\"}");
            match Tokenize(js, MAX_JSON_TOKENS)
            case Ok(toks) => InText(js, toks) && FindKey(js, toks, PROMPT_KEY) == -1
            case Fail(_) => false
  {
    hide Write, Tokenize, FindKey, InText, Behind, Ascii, Unescaped;
    PlainTexts();
    ListHidesKey(Ascii("m"), Ascii("a"), PROMPT_KEY, Ascii("x"), MAX_JSON_TOKENS);
    PromptBehindText();
  }
}
