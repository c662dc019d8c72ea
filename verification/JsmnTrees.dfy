/**
 * Completeness of the tokenizer: every well-formed JSON text, with blanks wherever the grammar
 * allows them, tokenizes to the preorder listing of its syntax tree.
 */
module JsmnTrees {
  import opened Bytes
  import opened JsonString
  import opened Jsmn
  import opened JsmnSound

  type Blanks = s: seq<byte> | forall i | 0 <= i < |s| :: IsBlank(s[i])

  /** The text of a number or of true, false or null. */
  predicate IsPrimitiveText(s: seq<byte>) {
    && s != [] && s[0] != LBRACE && s[0] != LBRACKET && s[0] != QUOTE && s[0] != COLON
    && forall i | 0 <= i < |s| :: 32 < s[i] < 127 && !EndsPrimitive(s[i])
  }

  datatype Tree =
    | Text(items: seq<Item>)
    | Prim(text: seq<byte>)
    | List(listPad: Blanks, elems: seq<Elem>)
    | Dict(dictPad: Blanks, pairs: seq<Pair>)

  datatype Elem = Elem(before: Blanks, value: Tree, after: Blanks)
  datatype Pair = Pair(before: Blanks, key: seq<Item>, mid: Blanks, gap: Blanks, value: Tree, after: Blanks)

  predicate Valid(t: Tree)
    decreases t, 0
  {
    match t
    case Text(items) => ValidItems(items)
    case Prim(s) => IsPrimitiveText(s)
    case List(_, elems) => ValidElems(elems)
    case Dict(_, pairs) => ValidPairs(pairs)
  }

  predicate ValidElems(elems: seq<Elem>)
    decreases elems, 1
  {
    elems != [] ==> Valid(elems[0].value) && ValidElems(elems[1..])
  }

  predicate ValidPairs(pairs: seq<Pair>)
    decreases pairs, 1
  {
    pairs != [] ==> ValidItems(pairs[0].key) && Valid(pairs[0].value) && ValidPairs(pairs[1..])
  }

  // ----- the text of a tree

  function Write(t: Tree): (s: seq<byte>)
    ensures Valid(t) ==> s != []
    decreases t, 0
  {
    match t
    case Text(items) => [QUOTE] + (Print(items) + [QUOTE])
    case Prim(s) => s
    case List(pad, elems) => [LBRACKET] + ((if elems == [] then pad else WriteElems(elems)) + [RBRACKET])
    case Dict(pad, pairs) => [LBRACE] + ((if pairs == [] then pad else WritePairs(pairs)) + [RBRACE])
  }

  function WriteElem(e: Elem): seq<byte>
    decreases e, 1
  {
    e.before + (Write(e.value) + e.after)
  }

  function WriteElems(elems: seq<Elem>): seq<byte>
    decreases elems, 2
  {
    if elems == [] then []
    else WriteElem(elems[0]) + (if |elems| == 1 then [] else [COMMA] + WriteElems(elems[1..]))
  }

  function WriteKey(p: Pair): seq<byte> {
    [QUOTE] + (Print(p.key) + [QUOTE])
  }

  function WritePair(p: Pair): seq<byte>
    decreases p, 1
  {
    p.before + (WriteKey(p) + (p.mid + ([COLON] + (p.gap + (Write(p.value) + p.after)))))
  }

  function WritePairs(pairs: seq<Pair>): seq<byte>
    decreases pairs, 2
  {
    if pairs == [] then []
    else WritePair(pairs[0]) + (if |pairs| == 1 then [] else [COMMA] + WritePairs(pairs[1..]))
  }

  // ----- the preorder listing

  function Layout(t: Tree, p: nat): (toks: seq<Token>)
    ensures toks != []
    decreases t, 0
  {
    match t
    case Text(items) => [Token(String, p + 1, p + 1 + |Print(items)|, 0)]
    case Prim(s) => [Token(Primitive, p, p + |s|, 0)]
    case List(_, elems) => [Token(Array, p, p + |Write(t)|, |elems|)] + LayoutElems(elems, p + 1)
    case Dict(_, pairs) => [Token(Object, p, p + |Write(t)|, |pairs|)] + LayoutPairs(pairs, p + 1)
  }

  function LayoutElems(elems: seq<Elem>, p: nat): seq<Token>
    decreases elems, 1
  {
    if elems == [] then []
    else Layout(elems[0].value, p + |elems[0].before|) + LayoutElems(elems[1..], p + |WriteElem(elems[0])| + 1)
  }

  function KeyToken(pair: Pair, p: nat, size: nat): Token {
    var start := p + |pair.before| + 1;
    Token(String, start, start + |Print(pair.key)|, size)
  }

  function ValueAt(pair: Pair, p: nat): nat {
    p + |pair.before| + |WriteKey(pair)| + |pair.mid| + 1 + |pair.gap|
  }

  function LayoutPairs(pairs: seq<Pair>, p: nat): seq<Token>
    decreases pairs, 1
  {
    if pairs == [] then []
    else
      [KeyToken(pairs[0], p, 1)] + Layout(pairs[0].value, ValueAt(pairs[0], p))
      + LayoutPairs(pairs[1..], p + |WritePair(pairs[0])| + 1)
  }

  // ----- pieces of text

  lemma OccursSplit(js: seq<byte>, a: seq<byte>, b: seq<byte>, p: nat)
    requires OccursAt(js, a + b, p)
    ensures OccursAt(js, a, p) && OccursAt(js, b, p + |a|)
  {
    var s := js[p..p + |a + b|];
    assert s[..|a|] == a && s[|a|..] == b;
    assert js[p..p + |a|] == s[..|a|];
    assert js[p + |a|..p + |a| + |b|] == s[|a|..];
  }

  lemma OccursByte(js: seq<byte>, b: byte, p: nat)
    requires OccursAt(js, [b], p)
    ensures p < |js| && js[p] == b
  {
    assert js[p..p + 1][0] == js[p];
  }

  lemma OccursIndex(js: seq<byte>, s: seq<byte>, p: nat, i: nat)
    requires OccursAt(js, s, p) && i < |s|
    ensures js[p + i] == s[i]
  {
    assert js[p..p + |s|][i] == js[p + i];
  }

  lemma HexStopFour(js: seq<byte>, p: nat, h: seq<byte>)
    requires IsHex4(h) && OccursAt(js, h, p)
    ensures HexStop(js, p, 0) == Ok(p + 4)
  {
    OccursIndex(js, h, p, 0);
    OccursIndex(js, h, p, 1);
    OccursIndex(js, h, p, 2);
    OccursIndex(js, h, p, 3);
    assert HexStop(js, p + 3, 3) == Ok(p + 4);
    assert HexStop(js, p + 1, 1) == HexStop(js, p + 2, 2) == HexStop(js, p + 3, 3);
  }

  lemma StringEndStep(js: seq<byte>, p: nat, it: Item)
    requires ValidItem(it) && OccursAt(js, PrintItem(it), p)
    ensures StringEnd(js, p) == StringEnd(js, p + |PrintItem(it)|)
  {
    var w := PrintItem(it);
    OccursIndex(js, w, p, 0);
    match it {
      case Raw(b) =>
      case Short(c) =>
        OccursIndex(js, w, p, 1);
      case Unicode(h) =>
        OccursIndex(js, w, p, 1);
        OccursSplit(js, [BACKSLASH, LETTER_U], h, p);
        HexStopFour(js, p + 2, h);
    }
  }

  lemma {:induction false} StringEndPrint(js: seq<byte>, p: nat, items: seq<Item>)
    requires ValidItems(items) && OccursAt(js, Print(items), p)
    requires p + |Print(items)| < |js| && js[p + |Print(items)|] == QUOTE
    ensures StringEnd(js, p) == Ok(p + |Print(items)|)
    decreases |items|
  {
    if items != [] {
      hide StringEnd, PrintItem, OccursAt, Print;
      PrintUnfold(items);
      OccursSplit(js, PrintItem(items[0]), Print(items[1..]), p);
      StringEndStep(js, p, items[0]);
      StringEndPrint(js, p + |PrintItem(items[0])|, items[1..]);
    }
  }

  /** Nothing that could extend a primitive stands at `p`. */
  predicate Boundary(js: seq<byte>, p: nat) {
    AtEnd(js, p) || EndsPrimitive(js[p])
  }

  lemma {:induction false} PrimitiveEndText(js: seq<byte>, p: nat, s: seq<byte>)
    requires OccursAt(js, s, p) && Boundary(js, p + |s|)
    requires forall i | 0 <= i < |s| :: 32 < s[i] < 127 && !EndsPrimitive(s[i])
    ensures PrimitiveEnd(js, p) == Ok(p + |s|)
    decreases |s|
  {
    if s != [] {
      OccursIndex(js, s, p, 0);
      assert s == [s[0]] + s[1..];
      OccursSplit(js, [s[0]], s[1..], p);
      PrimitiveEndText(js, p + 1, s[1..]);
    }
  }

  lemma {:induction false} SkipBlanks(js: seq<byte>, st: State, cap: nat, ws: Blanks)
    requires st.Live() && OccursAt(js, ws, st.pos)
    ensures Run(js, st, cap) == Run(js, st.(pos := st.pos + |ws|), cap)
    decreases |ws|
  {
    if ws != [] {
      OccursIndex(js, ws, st.pos, 0);
      assert ws == [ws[0]] + ws[1..];
      OccursSplit(js, [ws[0]], ws[1..], st.pos);
      SkipBlanks(js, st.(pos := st.pos + 1), cap, ws[1..]);
    }
  }

  // ----- token lists

  /** `n` more children for token `c`. */
  function Grow(toks: seq<Token>, c: nat, n: nat): (r: seq<Token>)
    requires c < |toks|
    ensures |r| == |toks|
  {
    toks[c := toks[c].(size := toks[c].size + n)]
  }

  predicate AllClosed(toks: seq<Token>) {
    forall i | 0 <= i < |toks| :: !toks[i].Open()
  }

  /** `c` is the innermost open container. */
  predicate Innermost(toks: seq<Token>, c: int) {
    && -1 <= c < |toks|
    && (c >= 0 ==> toks[c].Open() && toks[c].Container())
    && forall i | c < i < |toks| :: !toks[i].Open()
  }

  lemma {:induction false} LastContainer(toks: seq<Token>, c: nat, i: nat)
    requires c < i <= |toks| && toks[c].Open() && toks[c].Container()
    requires forall k | c < k < |toks| :: !toks[k].Open()
    ensures LastOpenContainer(toks, i) == c
  {
    if i - 1 > c {
      LastContainer(toks, c, i - 1);
    }
  }

  lemma InnermostIsLast(toks: seq<Token>, c: int)
    requires Innermost(toks, c)
    ensures LastOpen(toks, |toks|) == c
    ensures c >= 0 ==> LastOpenContainer(toks, |toks|) == c
  {
    if c >= 0 {
      LastContainer(toks, c, |toks|);
    }
  }

  lemma {:induction false} LayoutClosed(t: Tree, p: nat)
    ensures AllClosed(Layout(t, p))
    decreases t, 0
  {
    match t {
      case Text(_) =>
      case Prim(_) =>
      case List(_, elems) => LayoutElemsClosed(elems, p + 1);
      case Dict(_, pairs) => LayoutPairsClosed(pairs, p + 1);
    }
  }

  lemma {:induction false} LayoutElemsClosed(elems: seq<Elem>, p: nat)
    ensures AllClosed(LayoutElems(elems, p))
    decreases elems, 1
  {
    if elems != [] {
      LayoutClosed(elems[0].value, p + |elems[0].before|);
      LayoutElemsClosed(elems[1..], p + |WriteElem(elems[0])| + 1);
    }
  }

  lemma {:induction false} LayoutPairsClosed(pairs: seq<Pair>, p: nat)
    ensures AllClosed(LayoutPairs(pairs, p))
    decreases pairs, 1
  {
    if pairs != [] {
      LayoutClosed(pairs[0].value, ValueAt(pairs[0], p));
      LayoutPairsClosed(pairs[1..], p + |WritePair(pairs[0])| + 1);
    }
  }

  lemma InnermostAfter(toks: seq<Token>, c: int, more: seq<Token>, super: int)
    requires Innermost(toks, c) && AllClosed(more) && -1 <= super < |toks|
    ensures Innermost(Bump(toks, super) + more, c)
  {
  }

  // ----- running over a tree

  /** The state once the value has been read. */
  function After(st: State, t: Tree, c: int): State
    requires st.Live()
  {
    State(st.pos + |Write(t)|, Bump(st.toks, st.super) + Layout(t, st.pos), if t.Text? || t.Prim? then st.super else c)
  }

  predicate Ready(js: seq<byte>, st: State, c: int, s: seq<byte>, room: nat, cap: nat) {
    && st.Live() && Innermost(st.toks, c) && OccursAt(js, s, st.pos)
    && |st.toks| + room <= cap
  }

  lemma RunText(js: seq<byte>, st: State, cap: nat, items: seq<Item>)
    requires st.Live() && |st.toks| < cap && ValidItems(items)
    requires OccursAt(js, [QUOTE] + (Print(items) + [QUOTE]), st.pos)
    ensures var t := Token(String, st.pos + 1, st.pos + 1 + |Print(items)|, 0);
            Run(js, st, cap) == Run(js, Push(st, t, st.pos + |Print(items)| + 2, st.super), cap)
  {
    hide StringEnd, Print;
    OccursSplit(js, [QUOTE], Print(items) + [QUOTE], st.pos);
    OccursByte(js, QUOTE, st.pos);
    OccursSplit(js, Print(items), [QUOTE], st.pos + 1);
    OccursByte(js, QUOTE, st.pos + 1 + |Print(items)|);
    StringEndPrint(js, st.pos + 1, items);
  }

  lemma RunPrim(js: seq<byte>, st: State, cap: nat, s: seq<byte>)
    requires st.Live() && |st.toks| < cap && IsPrimitiveText(s)
    requires OccursAt(js, s, st.pos) && Boundary(js, st.pos + |s|)
    ensures var t := Token(Primitive, st.pos, st.pos + |s|, 0);
            Run(js, st, cap) == Run(js, Push(st, t, st.pos + |s|, st.super), cap)
  {
    OccursIndex(js, s, st.pos, 0);
    PrimitiveEndText(js, st.pos, s);
  }

  /** Opening a container makes it innermost and the parent of what follows. */
  lemma RunOpen(js: seq<byte>, st: State, cap: nat, b: byte, c: int)
    requires st.Live() && |st.toks| < cap && Innermost(st.toks, c)
    requires (b == LBRACE || b == LBRACKET) && OccursAt(js, [b], st.pos)
    ensures var t := Token(if b == LBRACE then Object else Array, st.pos, -1, 0);
            var next := Push(st, t, st.pos + 1, |st.toks|);
            next.Live() && Innermost(next.toks, |st.toks|) && Run(js, st, cap) == Run(js, next, cap)
  {
    OccursByte(js, b, st.pos);
  }

  lemma {:induction false} LastOpenFrom(toks: seq<Token>, c: int, i: nat)
    requires -1 <= c < i <= |toks| && (c >= 0 ==> toks[c].Open()) && forall k | c < k < i :: !toks[k].Open()
    ensures LastOpen(toks, i) == c
  {
  }

  /** Closing the innermost container `i` hands over to the one around it. */
  lemma RunClose(js: seq<byte>, st: State, cap: nat, b: byte, i: nat, c: int)
    requires st.Live() && Innermost(st.toks, i)
    requires -1 <= c < i && (c >= 0 ==> st.toks[c].Open()) && forall k | c < k < i :: !st.toks[k].Open()
    requires b == (if st.toks[i].kind.Object? then RBRACE else RBRACKET) && OccursAt(js, [b], st.pos)
    ensures var next := State(st.pos + 1, st.toks[i := st.toks[i].(end := st.pos + 1)], c);
            next.Live() && Run(js, st, cap) == Run(js, next, cap)
  {
    OccursByte(js, b, st.pos);
    InnermostIsLast(st.toks, i);
    if i > 0 {
      LastOpenFrom(st.toks, c, i);
    }
  }

  /** The parent is the container `c`, or a key inside it. */
  predicate Descends(st: State, c: nat)
    requires st.Live()
  {
    st.super == c || (c < st.super && !st.toks[st.super].Container())
  }

  /** A comma always leaves the innermost container as the parent. */
  lemma RunComma(js: seq<byte>, st: State, cap: nat, c: nat)
    requires st.Live() && Innermost(st.toks, c) && OccursAt(js, [COMMA], st.pos)
    requires Descends(st, c)
    ensures Run(js, st, cap) == Run(js, State(st.pos + 1, st.toks, c), cap)
  {
    OccursByte(js, COMMA, st.pos);
    InnermostIsLast(st.toks, c);
  }

  lemma {:induction false} RunValue(js: seq<byte>, t: Tree, st: State, c: int, cap: nat)
    requires Valid(t) && Ready(js, st, c, Write(t), |Layout(t, st.pos)|, cap)
    requires Boundary(js, st.pos + |Write(t)|)
    ensures After(st, t, c).Live() && Innermost(After(st, t, c).toks, c)
    ensures Run(js, st, cap) == Run(js, After(st, t, c), cap)
    decreases t, 1
  {
    hide Run, OccursAt, Innermost;
    LayoutClosed(t, st.pos);
    InnermostAfter(st.toks, c, Layout(t, st.pos), st.super);
    match t {
      case Text(items) => RunText(js, st, cap, items);
      case Prim(s) => RunPrim(js, st, cap, s);
      case List(_, _) => RunList(js, t, st, c, cap);
      case Dict(_, _) => RunDict(js, t, st, c, cap);
    }
  }

  lemma GrowBump(toks: seq<Token>, c: nat)
    requires c < |toks|
    ensures Bump(toks, c) == Grow(toks, c, 1)
  {
  }

  lemma GrowMore(toks: seq<Token>, c: nat, more: seq<Token>, n: nat)
    requires c < |toks|
    ensures Grow(Grow(toks, c, 1) + more, c, n) == Grow(toks, c, n + 1) + more
  {
  }

  /** A closing container: its size filled in, its end set, its contents behind it. */
  lemma CloseToken(toks: seq<Token>, t: Token, n: nat, more: seq<Token>, end: int)
    ensures var filled := Grow(toks + [t], |toks|, n) + more;
            && |toks| < |filled| && filled[|toks|] == t.(size := t.size + n)
            && filled[..|toks|] == toks
            && filled[|toks| := filled[|toks|].(end := end)] == toks + ([t.(size := t.size + n, end := end)] + more)
  {
  }

  lemma ElemSplit(js: seq<byte>, e: Elem, p: nat)
    requires OccursAt(js, WriteElem(e), p)
    ensures OccursAt(js, e.before, p) && OccursAt(js, Write(e.value), p + |e.before|)
    ensures OccursAt(js, e.after, p + |e.before| + |Write(e.value)|)
    ensures |WriteElem(e)| == |e.before| + |Write(e.value)| + |e.after|
    ensures Boundary(js, p + |WriteElem(e)|) ==> Boundary(js, p + |e.before| + |Write(e.value)|)
  {
    hide Write;
    OccursSplit(js, e.before, Write(e.value) + e.after, p);
    OccursSplit(js, Write(e.value), e.after, p + |e.before|);
    if e.after != [] {
      OccursIndex(js, e.after, p + |e.before| + |Write(e.value)|, 0);
    }
  }

  lemma InnermostBounds(toks: seq<Token>, c: int)
    requires Innermost(toks, c)
    ensures -1 <= c < |toks|
  {
  }

  lemma {:induction false} RunElem(js: seq<byte>, e: Elem, st: State, c: nat, cap: nat)
    requires Valid(e.value) && st.super == c
    requires Ready(js, st, c, WriteElem(e), |Layout(e.value, st.pos + |e.before|)|, cap)
    requires Boundary(js, st.pos + |WriteElem(e)|)
    ensures var next := State(st.pos + |WriteElem(e)|, Grow(st.toks, c, 1) + Layout(e.value, st.pos + |e.before|), c);
            next.Live() && Innermost(next.toks, c) && Run(js, st, cap) == Run(js, next, cap)
    decreases e, 2
  {
    hide Run, Write, Layout, Valid, WriteElem, OccursAt, Innermost;
    ElemSplit(js, e, st.pos);
    SkipBlanks(js, st, cap, e.before);
    var st1 := st.(pos := st.pos + |e.before|);
    RunValue(js, e.value, st1, c, cap);
    InnermostBounds(st.toks, c);
    GrowBump(st.toks, c);
    SkipBlanks(js, After(st1, e.value, c), cap, e.after);
  }

  lemma {:induction false} RunElems(js: seq<byte>, elems: seq<Elem>, st: State, c: nat, cap: nat)
    requires ValidElems(elems) && elems != [] && st.super == c
    requires Ready(js, st, c, WriteElems(elems), |LayoutElems(elems, st.pos)|, cap)
    requires Boundary(js, st.pos + |WriteElems(elems)|)
    ensures var next := State(st.pos + |WriteElems(elems)|, Grow(st.toks, c, |elems|) + LayoutElems(elems, st.pos), c);
            next.Live() && Innermost(next.toks, c) && Run(js, st, cap) == Run(js, next, cap)
    decreases elems, 3
  {
    hide Run, Write, Layout, Valid, WriteElem, OccursAt, Grow;
    var e, l := elems[0], Layout(elems[0].value, st.pos + |elems[0].before|);
    if |elems| == 1 {
      assert WriteElems(elems) == WriteElem(e) + [] == WriteElem(e);
      assert LayoutElems(elems, st.pos) == l + [] == l;
      RunElem(js, e, st, c, cap);
    } else {
      var rest := WriteElems(elems[1..]);
      OccursSplit(js, WriteElem(e), [COMMA] + rest, st.pos);
      var at := st.pos + |WriteElem(e)|;
      OccursSplit(js, [COMMA], rest, at);
      OccursByte(js, COMMA, at);
      RunElem(js, e, st, c, cap);
      var st1 := State(at, Grow(st.toks, c, 1) + l, c);
      RunComma(js, st1, cap, c);
      RunElems(js, elems[1..], st1.(pos := at + 1), c, cap);
      GrowMore(st.toks, c, l, |elems| - 1);
      Assoc(Grow(st.toks, c, |elems|), l, LayoutElems(elems[1..], at + 1));
    }
  }

  lemma NothingInside(toks: seq<Token>, i: nat, p: nat)
    requires i < |toks|
    ensures Grow(toks, i, 0) + LayoutElems([], p) == toks && Grow(toks, i, 0) + LayoutPairs([], p) == toks
  {
  }

  function Inside(t: Tree): seq<byte>
    requires t.List? || t.Dict?
  {
    if t.List? then (if t.elems == [] then t.listPad else WriteElems(t.elems))
    else (if t.pairs == [] then t.dictPad else WritePairs(t.pairs))
  }

  function Children(t: Tree): nat
    requires t.List? || t.Dict?
  {
    if t.List? then |t.elems| else |t.pairs|
  }

  function Contents(t: Tree, p: nat): seq<Token>
    requires t.List? || t.Dict?
  {
    if t.List? then LayoutElems(t.elems, p + 1) else LayoutPairs(t.pairs, p + 1)
  }

  function Opened(t: Tree, p: nat): Token
    requires t.List? || t.Dict?
  {
    Token(if t.List? then Array else Object, p, -1, 0)
  }

  lemma ContainerText(js: seq<byte>, t: Tree, p: nat)
    requires (t.List? || t.Dict?) && OccursAt(js, Write(t), p)
    ensures OccursAt(js, [if t.List? then LBRACKET else LBRACE], p)
    ensures OccursAt(js, Inside(t), p + 1)
    ensures OccursAt(js, [if t.List? then RBRACKET else RBRACE], p + 1 + |Inside(t)|)
    ensures |Write(t)| == |Inside(t)| + 2
    ensures Boundary(js, p + 1 + |Inside(t)|)
  {
    hide WriteElems, WritePairs;
    var open, close := if t.List? then LBRACKET else LBRACE, if t.List? then RBRACKET else RBRACE;
    OccursSplit(js, [open], Inside(t) + [close], p);
    OccursSplit(js, Inside(t), [close], p + 1);
    OccursByte(js, close, p + 1 + |Inside(t)|);
  }

  /** The state of a container whose inside has been read. */
  function Filled(st: State, t: Tree, super: int): State
    requires st.Live() && (t.List? || t.Dict?)
  {
    State(st.pos + 1 + |Inside(t)|,
          Grow(Bump(st.toks, st.super) + [Opened(t, st.pos)], |st.toks|, Children(t)) + Contents(t, st.pos),
          super)
  }

  lemma OpenBefore(toks: seq<Token>, super: int, c: int, t: Token, n: nat, more: seq<Token>)
    requires Innermost(toks, c) && -1 <= super < |toks|
    ensures var filled := Grow(Bump(toks, super) + [t], |toks|, n) + more;
            (c >= 0 ==> filled[c].Open()) && forall k | c < k < |toks| :: !filled[k].Open()
  {
  }

  /** From the closing bracket of a filled container to the state after it. */
  lemma CloseUp(js: seq<byte>, t: Tree, st: State, super: int, c: int, cap: nat)
    requires st.Live() && Innermost(st.toks, c) && (t.List? || t.Dict?) && OccursAt(js, Write(t), st.pos)
    requires Filled(st, t, super).Live() && Innermost(Filled(st, t, super).toks, |st.toks|)
    ensures After(st, t, c).Live() && Run(js, Filled(st, t, super), cap) == Run(js, After(st, t, c), cap)
  {
    hide Run, LayoutElems, LayoutPairs, Write, Innermost, Inside;
    ContainerText(js, t, st.pos);
    var st2 := Filled(st, t, super);
    OpenBefore(st.toks, st.super, c, Opened(t, st.pos), Children(t), Contents(t, st.pos));
    CloseToken(Bump(st.toks, st.super), Opened(t, st.pos), Children(t), Contents(t, st.pos), st2.pos + 1);
    InnermostBounds(st.toks, c);
    RunClose(js, st2, cap, if t.List? then RBRACKET else RBRACE, |st.toks|, c);
  }

  lemma {:induction false} RunList(js: seq<byte>, t: Tree, st: State, c: int, cap: nat)
    requires Valid(t) && t.List? && Ready(js, st, c, Write(t), |Layout(t, st.pos)|, cap)
    ensures After(st, t, c).Live()
    ensures Run(js, st, cap) == Run(js, After(st, t, c), cap)
    decreases t, 0
  {
    hide Run, WriteElems, ValidElems, LayoutElems, Grow, Innermost, OccursAt, Write, After;
    ContainerText(js, t, st.pos);
    RunOpen(js, st, cap, LBRACKET, c);
    var i := |st.toks|;
    var st1 := Push(st, Opened(t, st.pos), st.pos + 1, i);
    if t.elems == [] {
      SkipBlanks(js, st1, cap, t.listPad);
      NothingInside(st1.toks, i, st.pos + 1);
    } else {
      RunElems(js, t.elems, st1, i, cap);
    }
    CloseUp(js, t, st, i, c, cap);
  }

  /** The state once a pair has been read; `super` is its key when the value was a scalar. */
  function AfterPair(st: State, p: Pair, c: nat): State
    requires c < |st.toks|
  {
    State(st.pos + |WritePair(p)|,
          Grow(st.toks, c, 1) + ([KeyToken(p, st.pos, 1)] + Layout(p.value, ValueAt(p, st.pos))),
          if p.value.Text? || p.value.Prim? then |st.toks| else c)
  }

  lemma RunColon(js: seq<byte>, st: State, cap: nat)
    requires st.Live() && OccursAt(js, [COLON], st.pos)
    ensures Run(js, st, cap) == Run(js, State(st.pos + 1, st.toks, |st.toks| - 1), cap)
  {
    OccursByte(js, COLON, st.pos);
  }

  /** From the end of a key to the start of its value. */
  lemma RunGap(js: seq<byte>, p: Pair, st: State, cap: nat)
    requires st.Live() && OccursAt(js, p.mid + ([COLON] + p.gap), st.pos)
    ensures Run(js, st, cap) == Run(js, State(st.pos + |p.mid| + 1 + |p.gap|, st.toks, |st.toks| - 1), cap)
  {
    hide Run;
    OccursSplit(js, p.mid, [COLON] + p.gap, st.pos);
    SkipBlanks(js, st, cap, p.mid);
    var st1 := st.(pos := st.pos + |p.mid|);
    OccursSplit(js, [COLON], p.gap, st1.pos);
    RunColon(js, st1, cap);
    SkipBlanks(js, State(st1.pos + 1, st.toks, |st.toks| - 1), cap, p.gap);
  }

  /** From the blanks before a key to the start of its value. */
  lemma RunKey(js: seq<byte>, p: Pair, st: State, c: nat, cap: nat)
    requires ValidItems(p.key) && st.super == c < |st.toks| && |st.toks| < cap
    requires OccursAt(js, p.before + (WriteKey(p) + (p.mid + ([COLON] + p.gap))), st.pos)
    ensures var next := State(ValueAt(p, st.pos), Grow(st.toks, c, 1) + [KeyToken(p, st.pos, 0)], |st.toks|);
            next.Live() && Run(js, st, cap) == Run(js, next, cap)
  {
    hide Run, Print;
    var gap := p.mid + ([COLON] + p.gap);
    OccursSplit(js, p.before, WriteKey(p) + gap, st.pos);
    SkipBlanks(js, st, cap, p.before);
    var st1 := st.(pos := st.pos + |p.before|);
    OccursSplit(js, WriteKey(p), gap, st1.pos);
    RunText(js, st1, cap, p.key);
    GrowBump(st.toks, c);
    RunGap(js, p, State(st1.pos + |WriteKey(p)|, Grow(st.toks, c, 1) + [KeyToken(p, st.pos, 0)], c), cap);
  }

  lemma PairRegroup<T>(a: seq<T>, b: seq<T>, c: seq<T>, d: seq<T>, e: seq<T>, tail: seq<T>)
    ensures a + (b + (c + (d + (e + tail)))) == (a + (b + (c + (d + e)))) + tail
  {
  }

  lemma PairSplit(js: seq<byte>, p: Pair, at: nat)
    requires OccursAt(js, WritePair(p), at)
    ensures OccursAt(js, p.before + (WriteKey(p) + (p.mid + ([COLON] + p.gap))), at)
    ensures OccursAt(js, Write(p.value), ValueAt(p, at)) && OccursAt(js, p.after, ValueAt(p, at) + |Write(p.value)|)
    ensures at + |WritePair(p)| == ValueAt(p, at) + |Write(p.value)| + |p.after|
    ensures Boundary(js, at + |WritePair(p)|) ==> Boundary(js, ValueAt(p, at) + |Write(p.value)|)
  {
    hide Write, WriteKey, OccursAt;
    var head := p.before + (WriteKey(p) + (p.mid + ([COLON] + p.gap)));
    var tail := Write(p.value) + p.after;
    PairRegroup(p.before, WriteKey(p), p.mid, [COLON], p.gap, tail);
    OccursSplit(js, head, tail, at);
    OccursSplit(js, Write(p.value), p.after, at + |head|);
    if p.after != [] {
      OccursIndex(js, p.after, ValueAt(p, at) + |Write(p.value)|, 0);
    }
  }

  /** A key's size counts its value. */
  lemma KeyGains(toks: seq<Token>, p: Pair, at: nat, value: seq<Token>)
    ensures Bump(toks + [KeyToken(p, at, 0)], |toks|) + value == toks + ([KeyToken(p, at, 1)] + value)
  {
    assert Bump(toks + [KeyToken(p, at, 0)], |toks|) == toks + [KeyToken(p, at, 1)];
  }

  lemma KeyIsNoContainer(toks: seq<Token>, p: Pair, at: nat, value: seq<Token>)
    ensures !(toks + ([KeyToken(p, at, 1)] + value))[|toks|].Container()
  {
    assert (toks + ([KeyToken(p, at, 1)] + value))[|toks|] == KeyToken(p, at, 1);
  }

  lemma {:induction false} RunPair(js: seq<byte>, p: Pair, st: State, c: nat, cap: nat)
    requires ValidItems(p.key) && Valid(p.value) && st.super == c
    requires Ready(js, st, c, WritePair(p), 1 + |Layout(p.value, ValueAt(p, st.pos))|, cap)
    requires Boundary(js, st.pos + |WritePair(p)|)
    ensures AfterPair(st, p, c).Live() && Innermost(AfterPair(st, p, c).toks, c) && Descends(AfterPair(st, p, c), c)
    ensures Run(js, st, cap) == Run(js, AfterPair(st, p, c), cap)
    decreases p, 2
  {
    hide Run, Write, Layout, Valid, WritePair, WriteKey, ValueAt, OccursAt;
    PairSplit(js, p, st.pos);
    RunKey(js, p, st, c, cap);
    var at := ValueAt(p, st.pos);
    var st1 := State(at, Grow(st.toks, c, 1) + [KeyToken(p, st.pos, 0)], |st.toks|);
    RunValue(js, p.value, st1, c, cap);
    KeyGains(Grow(st.toks, c, 1), p, st.pos, Layout(p.value, at));
    SkipBlanks(js, After(st1, p.value, c), cap, p.after);
    KeyIsNoContainer(Grow(st.toks, c, 1), p, st.pos, Layout(p.value, at));
  }

  lemma {:induction false} RunPairs(js: seq<byte>, pairs: seq<Pair>, st: State, c: nat, cap: nat) returns (super: int)
    requires ValidPairs(pairs) && pairs != [] && st.super == c
    requires Ready(js, st, c, WritePairs(pairs), |LayoutPairs(pairs, st.pos)|, cap)
    requires Boundary(js, st.pos + |WritePairs(pairs)|)
    ensures var toks := Grow(st.toks, c, |pairs|) + LayoutPairs(pairs, st.pos);
            var next := State(st.pos + |WritePairs(pairs)|, toks, super);
            next.Live() && Innermost(next.toks, c) && Run(js, st, cap) == Run(js, next, cap)
    decreases pairs, 3
  {
    hide Run, Write, Layout, Valid, WritePair, WriteKey, ValueAt, KeyToken, Grow, OccursAt;
    var p, l := pairs[0], [KeyToken(pairs[0], st.pos, 1)] + Layout(pairs[0].value, ValueAt(pairs[0], st.pos));
    if |pairs| == 1 {
      assert WritePairs(pairs) == WritePair(p) + [] == WritePair(p);
      assert LayoutPairs(pairs, st.pos) == l + [] == l;
      RunPair(js, p, st, c, cap);
      super := AfterPair(st, p, c).super;
    } else {
      var rest := WritePairs(pairs[1..]);
      OccursSplit(js, WritePair(p), [COMMA] + rest, st.pos);
      var at := st.pos + |WritePair(p)|;
      OccursSplit(js, [COMMA], rest, at);
      OccursByte(js, COMMA, at);
      RunPair(js, p, st, c, cap);
      var st1 := AfterPair(st, p, c);
      RunComma(js, st1, cap, c);
      super := RunPairs(js, pairs[1..], State(at + 1, st1.toks, c), c, cap);
      GrowMore(st.toks, c, l, |pairs| - 1);
      Assoc(Grow(st.toks, c, |pairs|), l, LayoutPairs(pairs[1..], at + 1));
    }
  }

  lemma {:induction false} RunDict(js: seq<byte>, t: Tree, st: State, c: int, cap: nat)
    requires Valid(t) && t.Dict? && Ready(js, st, c, Write(t), |Layout(t, st.pos)|, cap)
    ensures After(st, t, c).Live()
    ensures Run(js, st, cap) == Run(js, After(st, t, c), cap)
    decreases t, 0
  {
    hide Run, WritePairs, ValidPairs, LayoutPairs, Grow, Innermost, OccursAt, Write, After;
    ContainerText(js, t, st.pos);
    RunOpen(js, st, cap, LBRACE, c);
    var i := |st.toks|;
    var st1, super := Push(st, Opened(t, st.pos), st.pos + 1, i), i;
    if t.pairs == [] {
      SkipBlanks(js, st1, cap, t.dictPad);
      NothingInside(st1.toks, i, st.pos + 1);
    } else {
      super := RunPairs(js, t.pairs, st1, i, cap);
    }
    CloseUp(js, t, st, super, c, cap);
  }

  lemma DocumentText(before: Blanks, t: Tree, after: Blanks)
    requires Valid(t)
    ensures var js := before + (Write(t) + after);
            && OccursAt(js, before, 0) && OccursAt(js, Write(t), |before|) && OccursAt(js, after, |before| + |Write(t)|)
            && Boundary(js, |before| + |Write(t)|) && |js| == |before| + |Write(t)| + |after|
  {
    hide Write;
    var js := before + (Write(t) + after);
    assert js[0..|js|] == js;
    OccursSplit(js, before, Write(t) + after, 0);
    OccursSplit(js, Write(t), after, |before|);
    if after != [] {
      OccursIndex(js, after, |before| + |Write(t)|, 0);
    }
  }

  lemma RunFinish(js: seq<byte>, st: State, cap: nat)
    requires st.Live() && AtEnd(js, st.pos) && Innermost(st.toks, -1)
    ensures Run(js, st, cap) == Ok(st)
  {
    InnermostIsLast(st.toks, -1);
  }

  /** With room for its tokens, a JSON text tokenizes to the preorder listing of its tree. */
  lemma TokenizeWithRoom(before: Blanks, t: Tree, after: Blanks, cap: nat)
    requires Valid(t) && |Layout(t, |before|)| <= cap
    ensures Run(before + (Write(t) + after), FRESH, cap).Ok?
    ensures Tokenize(before + (Write(t) + after), cap) == Ok(Layout(t, |before|))
  {
    hide Run, OccursAt, Write, Layout, Valid;
    var js := before + (Write(t) + after);
    DocumentText(before, t, after);
    SkipBlanks(js, FRESH, cap, before);
    var st := State(|before|, [], -1);
    RunValue(js, t, st, -1, cap);
    var st1 := After(st, t, -1);
    SkipBlanks(js, st1, cap, after);
    RunFinish(js, st1.(pos := |js|), cap);
    assert st1.toks == Layout(t, |before|);
  }

  lemma StepFits(js: seq<byte>, st: State, cap: nat, small: nat)
    requires st.Live() && !AtEnd(js, st.pos) && |st.toks| <= small <= cap && Step(js, st, cap).Ok?
    ensures |Step(js, st, cap).value.toks| <= cap
    ensures Step(js, st, small) == if |Step(js, st, cap).value.toks| <= small then Step(js, st, cap) else Fail(NoMemory)
  {
  }

  /** A smaller token array makes no difference until it is full. */
  lemma {:induction false} SmallerCap(js: seq<byte>, st: State, cap: nat, small: nat)
    requires st.Live() && |st.toks| <= small <= cap && Run(js, st, cap).Ok?
    ensures Run(js, st, small) == if |Run(js, st, cap).value.toks| <= small then Run(js, st, cap) else Fail(NoMemory)
    decreases |js| - st.pos
  {
    if !AtEnd(js, st.pos) {
      var next := Step(js, st, cap).value;
      RunFits(js, next, cap);
      StepFits(js, st, cap, small);
      if |next.toks| <= small {
        SmallerCap(js, next, cap, small);
      }
    }
  }

  /**
   * A JSON text, with blanks around it, tokenizes to the preorder listing of its tree when the listing
   * fits the token array, and runs out of tokens otherwise.
   */
  lemma TokenizeComplete(before: Blanks, t: Tree, after: Blanks, cap: nat)
    requires Valid(t)
    ensures var toks := Layout(t, |before|);
            Tokenize(before + (Write(t) + after), cap) == if |toks| <= cap then Ok(toks) else Fail(NoMemory)
  {
    hide Run, Write, Layout, Valid;
    var js, toks := before + (Write(t) + after), Layout(t, |before|);
    var most := if |toks| <= cap then cap else |toks|;
    TokenizeWithRoom(before, t, after, most);
    SmallerCap(js, FRESH, most, cap);
  }
}
