/**
 * The strict decoder of `JsonValue` follows the grammar: whatever it reads is the text of a syntax tree of
 * RFC 8259, written without blanks, and the value it returns is what that tree means.  It works on bytes: that
 * unescaped bytes outside ASCII are UTF-8 it does not ask, and `Utf8Text` says which of the texts here are.
 */
module JsonGrammar {
  import opened Bytes
  import opened JsonString
  import opened JsonValue
  import opened JsmnTrees

  /** A tree of strings, arrays and objects only. */
  predicate NoPrims(t: Tree)
    decreases t, 0
  {
    match t
    case Text(_) => true
    case Prim(_) => false
    case List(_, elems) => NoPrimElems(elems)
    case Dict(_, pairs) => NoPrimPairs(pairs)
  }

  predicate NoPrimElems(elems: seq<Elem>)
    decreases elems, 1
  {
    elems != [] ==> NoPrims(elems[0].value) && NoPrimElems(elems[1..])
  }

  predicate NoPrimPairs(pairs: seq<Pair>)
    decreases pairs, 1
  {
    pairs != [] ==> NoPrims(pairs[0].value) && NoPrimPairs(pairs[1..])
  }

  /** The value a tree stands for. */
  function Meaning(t: Tree): Json
    requires Valid(t) && NoPrims(t)
    decreases t, 0
  {
    match t
    case Text(items) => Str(Decode(items))
    case List(_, elems) => Arr(ElemMeanings(elems))
    case Dict(_, pairs) => Obj(PairMeanings(pairs))
  }

  function ElemMeanings(elems: seq<Elem>): seq<Json>
    requires ValidElems(elems) && NoPrimElems(elems)
    decreases elems, 1
  {
    if elems == [] then [] else [Meaning(elems[0].value)] + ElemMeanings(elems[1..])
  }

  function PairMeanings(pairs: seq<Pair>): seq<Field>
    requires ValidPairs(pairs) && NoPrimPairs(pairs)
    decreases pairs, 1
  {
    if pairs == [] then []
    else [Field(Decode(pairs[0].key), Meaning(pairs[0].value))] + PairMeanings(pairs[1..])
  }

  /** `t` is the text of tree `c`, which means `j`, followed by `rest`. */
  predicate Reads(t: seq<byte>, c: Tree, j: Json, rest: seq<byte>) {
    Valid(c) && NoPrims(c) && Meaning(c) == j && t == Write(c) + rest
  }

  predicate ReadsElems(t: seq<byte>, elems: seq<Elem>, js: seq<Json>, rest: seq<byte>) {
    && elems != [] && ValidElems(elems) && NoPrimElems(elems) && ElemMeanings(elems) == js
    && t == WriteElems(elems) + ([RBRACKET] + rest)
  }

  predicate ReadsPairs(t: seq<byte>, pairs: seq<Pair>, fs: seq<Field>, rest: seq<byte>) {
    && pairs != [] && ValidPairs(pairs) && NoPrimPairs(pairs) && PairMeanings(pairs) == fs
    && t == WritePairs(pairs) + ([RBRACE] + rest)
  }

  lemma StringSound(t: seq<byte>) returns (items: seq<Item>)
    requires ParseString(t).Some?
    ensures ValidItems(items) && ParseString(t).value.0 == Decode(items)
    ensures t == ([QUOTE] + (Print(items) + [QUOTE])) + ParseString(t).value.1
  {
    hide Lex, Decode;
    LexSound(t[1..]);
    items := Lex(t[1..]).value.0;
    assert t == [QUOTE] + t[1..];
    Reassociate([QUOTE], Print(items), [QUOTE], Lex(t[1..]).value.1);
  }

  lemma OneElem(t: seq<byte>, c: Tree, j: Json, rest: seq<byte>)
    requires Reads(t, c, j, rest) && rest != [] && rest[0] == RBRACKET
    ensures ReadsElems(t, [Elem([], c, [])], [j], rest[1..])
  {
    hide Write, Valid, NoPrims, Meaning;
    var e := Elem([], c, []);
    assert [e][1..] == [] && [] + (Write(c) + []) == Write(c);
    assert rest == [RBRACKET] + rest[1..];
    assert WriteElems([e]) == Write(c) + [];
    assert ElemMeanings([e]) == [j] + ElemMeanings([e][1..]);
  }

  lemma ElemsUnfold(e: Elem, elems: seq<Elem>)
    requires elems != []
    ensures WriteElems([e] + elems) == WriteElem(e) + ([COMMA] + WriteElems(elems))
  {
    assert ([e] + elems)[1..] == elems;
  }

  lemma PairsUnfoldText(p: Pair, pairs: seq<Pair>)
    requires pairs != []
    ensures WritePairs([p] + pairs) == WritePair(p) + ([COMMA] + WritePairs(pairs))
  {
    assert ([p] + pairs)[1..] == pairs;
  }

  lemma Chain<T>(a: seq<T>, b: seq<T>, c: seq<T>, d: seq<T>)
    ensures a + (b + (c + d)) == (a + (b + c)) + d
  {
  }

  lemma MoreElems(t: seq<byte>, c: Tree, j: Json, rest: seq<byte>, elems: seq<Elem>, js: seq<Json>, end: seq<byte>)
    requires Reads(t, c, j, rest) && rest != [] && rest[0] == COMMA && ReadsElems(rest[1..], elems, js, end)
    ensures ReadsElems(t, [Elem([], c, [])] + elems, [j] + js, end)
  {
    hide Write, Valid, NoPrims, Meaning;
    var e := Elem([], c, []);
    var all := [e] + elems;
    assert all[0] == e && all[1..] == elems;
    assert [] + (Write(c) + []) == Write(c);
    assert rest == [COMMA] + rest[1..];
    hide WriteElems;
    assert WriteElems(all) == Write(c) + ([COMMA] + WriteElems(elems)) by { ElemsUnfold(e, elems); }
    Chain(Write(c), [COMMA], WriteElems(elems), [RBRACKET] + end);
  }

  /** A key, a colon and a value, read one after the other. */
  predicate ReadsPair(t: seq<byte>, p: Pair, f: Field, rest: seq<byte>) {
    ValidItems(p.key) && Valid(p.value) && NoPrims(p.value) && Field(Decode(p.key), Meaning(p.value)) == f
        && t == WritePair(p) + rest
  }

  lemma PairText(p: Pair, mid: seq<byte>, rest: seq<byte>)
    requires p.before == p.mid == p.gap == p.after == [] && mid != [] && mid[0] == COLON
             && mid[1..] == Write(p.value) + rest
    ensures WritePair(p) + rest == WriteKey(p) + mid
  {
    hide Write, WriteKey;
    assert [] + (Write(p.value) + []) == Write(p.value);
    assert [] + ([COLON] + Write(p.value)) == [COLON] + Write(p.value);
    assert WritePair(p) == [] + (WriteKey(p) + ([COLON] + Write(p.value)));
    assert mid == [COLON] + mid[1..];
    Chain(WriteKey(p), [COLON], Write(p.value), rest);
  }

  lemma OnePair(t: seq<byte>, p: Pair, f: Field, rest: seq<byte>)
    requires ReadsPair(t, p, f, rest) && rest != [] && rest[0] == RBRACE
    ensures ReadsPairs(t, [p], [f], rest[1..])
  {
    hide WritePair, Valid, NoPrims, Meaning;
    assert [p][1..] == [] && rest == [RBRACE] + rest[1..];
    assert WritePairs([p]) == WritePair(p) + [];
    assert PairMeanings([p]) == [f] + PairMeanings([p][1..]);
  }

  lemma MorePairs(t: seq<byte>, p: Pair, f: Field, rest: seq<byte>, pairs: seq<Pair>, fs: seq<Field>, end: seq<byte>)
    requires ReadsPair(t, p, f, rest) && rest != [] && rest[0] == COMMA && ReadsPairs(rest[1..], pairs, fs, end)
    ensures ReadsPairs(t, [p] + pairs, [f] + fs, end)
  {
    hide WritePair, WritePairs, Valid, NoPrims, Meaning;
    var all := [p] + pairs;
    assert all[0] == p && all[1..] == pairs && rest == [COMMA] + rest[1..];
    PairsUnfoldText(p, pairs);
    Chain(WritePair(p), [COMMA], WritePairs(pairs), [RBRACE] + end);
  }

  /** Acceptance is a production of the grammar, with the value and the rest that were returned. */
  lemma ValueSound(t: seq<byte>) returns (c: Tree)
    requires ParseValue(t).Some?
    ensures Reads(t, c, ParseValue(t).value.0, ParseValue(t).value.1)
    decreases |t|, 0
  {
    hide ParseElems, ParseFields;
    var (j, rest) := ParseValue(t).value;
    if t[0] == QUOTE {
      var items := StringSound(t);
      c := Text(items);
    } else if t[0] == LBRACKET {
      if |t| >= 2 && t[1] == RBRACKET {
        c := List([], []);
        assert t == ([LBRACKET] + ([] + [RBRACKET])) + t[2..];
      } else {
        var elems := ElemsSound(t[1..]);
        c := List([], elems);
        assert t == [LBRACKET] + t[1..];
        Chain([LBRACKET], [], WriteElems(elems) + [RBRACKET], rest);
        Assoc(WriteElems(elems), [RBRACKET], rest);
      }
    } else {
      if |t| >= 2 && t[1] == RBRACE {
        c := Dict([], []);
        assert t == ([LBRACE] + ([] + [RBRACE])) + t[2..];
      } else {
        var pairs := FieldsSound(t[1..]);
        c := Dict([], pairs);
        assert t == [LBRACE] + t[1..];
        Assoc(WritePairs(pairs), [RBRACE], rest);
        Assoc([LBRACE], WritePairs(pairs) + [RBRACE], rest);
      }
    }
  }

  lemma ElemsSound(t: seq<byte>) returns (elems: seq<Elem>)
    requires ParseElems(t).Some?
    ensures ReadsElems(t, elems, ParseElems(t).value.0, ParseElems(t).value.1)
    decreases |t|, 1
  {
    hide Reads, ReadsElems;
    var (j, rest) := ParseValue(t).value;
    var c := ValueSound(t);
    if rest[0] == RBRACKET {
      OneElem(t, c, j, rest);
      elems := [Elem([], c, [])];
    } else {
      var more := ElemsSound(rest[1..]);
      MoreElems(t, c, j, rest, more, ParseElems(rest[1..]).value.0, ParseElems(rest[1..]).value.1);
      elems := [Elem([], c, [])] + more;
    }
  }

  lemma FieldSound(t: seq<byte>) returns (p: Pair)
    requires ParseField(t).Some?
    ensures ReadsPair(t, p, ParseField(t).value.0, ParseField(t).value.1)
    decreases |t|, 1
  {
    var items := StringSound(t);
    var mid := ParseString(t).value.1;
    var c := ValueSound(mid[1..]);
    p := Pair([], items, [], [], c, []);
    PairText(p, mid, ParseField(t).value.1);
  }

  lemma FieldsSound(t: seq<byte>) returns (pairs: seq<Pair>)
    requires ParseFields(t).Some?
    ensures ReadsPairs(t, pairs, ParseFields(t).value.0, ParseFields(t).value.1)
    decreases |t|, 2
  {
    hide ReadsPair, ReadsPairs;
    var (f, rest) := ParseField(t).value;
    var p := FieldSound(t);
    if rest[0] == RBRACE {
      OnePair(t, p, f, rest);
      pairs := [p];
    } else {
      var more := FieldsSound(rest[1..]);
      MorePairs(t, p, f, rest, more, ParseFields(rest[1..]).value.0, ParseFields(rest[1..]).value.1);
      pairs := [p] + more;
    }
  }
}
