/**
 * JSON values built of strings, arrays and objects: a compact printer and a strict decoder.
 * The decoder takes no insignificant whitespace; that it follows the grammar of RFC 8259 is proved in
 * `JsonGrammar`.
 */
module JsonValue {
  import opened Bytes
  import opened JsonString
  import opened GoStrings

  datatype Json = Str(s: seq<byte>) | Arr(elems: seq<Json>) | Obj(fields: seq<Field>)
  datatype Field = Field(key: seq<byte>, value: Json)

  function Quoted(s: seq<byte>): seq<byte> {
    [QUOTE] + (Escape(s) + [QUOTE])
  }

  function Show(j: Json): seq<byte>
    decreases j, 0
  {
    match j
    case Str(s) => Quoted(s)
    case Arr(elems) => [LBRACKET] + ShowElems(elems) + [RBRACKET]
    case Obj(fields) => [LBRACE] + ShowFields(fields) + [RBRACE]
  }

  function ShowElems(elems: seq<Json>): seq<byte>
    decreases elems, 1
  {
    if elems == [] then []
    else if |elems| == 1 then Show(elems[0])
    else Show(elems[0]) + ([COMMA] + ShowElems(elems[1..]))
  }

  function ShowField(f: Field): seq<byte>
    decreases f, 1
  {
    Quoted(f.key) + ([COLON] + Show(f.value))
  }

  function ShowFields(fields: seq<Field>): seq<byte>
    decreases fields, 2
  {
    if fields == [] then []
    else if |fields| == 1 then ShowField(fields[0])
    else ShowField(fields[0]) + ([COMMA] + ShowFields(fields[1..]))
  }

  // ----- the decoder

  type Parsed<T> = Option<(T, seq<byte>)>

  function ParseString(t: seq<byte>): (r: Parsed<seq<byte>>)
    ensures r.Some? ==> |r.value.1| < |t|
  {
    if t == [] || t[0] != QUOTE then None
    else
      var l := Lex(t[1..]);
      if l.None? then None else Some((Decode(l.value.0), l.value.1))
  }

  function ParseValue(t: seq<byte>): (r: Parsed<Json>)
    ensures r.Some? ==> |r.value.1| < |t|
    decreases |t|, 0
  {
    if t == [] then None
    else if t[0] == QUOTE then
      var p := ParseString(t);
      if p.None? then None else Some((Str(p.value.0), p.value.1))
    else if t[0] == LBRACKET then
      if |t| >= 2 && t[1] == RBRACKET then Some((Arr([]), t[2..]))
      else
        var p := ParseElems(t[1..]);
        if p.None? then None else Some((Arr(p.value.0), p.value.1))
    else if t[0] == LBRACE then
      if |t| >= 2 && t[1] == RBRACE then Some((Obj([]), t[2..]))
      else
        var p := ParseFields(t[1..]);
        if p.None? then None else Some((Obj(p.value.0), p.value.1))
    else None
  }

  /** One or more elements, up to and including the closing bracket. */
  function ParseElems(t: seq<byte>): (r: Parsed<seq<Json>>)
    ensures r.Some? ==> |r.value.1| < |t|
    decreases |t|, 1
  {
    var p := ParseValue(t);
    if p.None? || p.value.1 == [] then None
    else
      var (j, rest) := p.value;
      if rest[0] == RBRACKET then Some(([j], rest[1..]))
      else if rest[0] != COMMA then None
      else
        var q := ParseElems(rest[1..]);
        if q.None? then None else Some(([j] + q.value.0, q.value.1))
  }

  function ParseField(t: seq<byte>): (r: Parsed<Field>)
    ensures r.Some? ==> |r.value.1| < |t|
    decreases |t|, 1
  {
    var k := ParseString(t);
    if k.None? || k.value.1 == [] || k.value.1[0] != COLON then None
    else
      var v := ParseValue(k.value.1[1..]);
      if v.None? then None else Some((Field(k.value.0, v.value.0), v.value.1))
  }

  /** One or more fields, up to and including the closing brace. */
  function ParseFields(t: seq<byte>): (r: Parsed<seq<Field>>)
    ensures r.Some? ==> |r.value.1| < |t|
    decreases |t|, 2
  {
    var p := ParseField(t);
    if p.None? || p.value.1 == [] then None
    else
      var (f, rest) := p.value;
      if rest[0] == RBRACE then Some(([f], rest[1..]))
      else if rest[0] != COMMA then None
      else
        var q := ParseFields(rest[1..]);
        if q.None? then None else Some(([f] + q.value.0, q.value.1))
  }

  // ----- printing then decoding

  lemma ParseQuoted(s: seq<byte>, rest: seq<byte>)
    ensures ParseString(Quoted(s) + rest) == Some((s, rest))
    ensures (Quoted(s) + rest)[0] == QUOTE
  {
    var t := Quoted(s) + rest;
    assert t[1..] == Escape(s) + ([QUOTE] + rest);
    LexPrint(EscapeItems(s), rest);
    DecodeEscaped(s);
  }

  lemma ShowHead(j: Json)
    ensures Show(j) != [] && Show(j)[0] != RBRACKET && Show(j)[0] != RBRACE
  {
  }

  lemma ElemsLast(t: seq<byte>, j: Json, rest: seq<byte>)
    requires ParseValue(t) == Some((j, [RBRACKET] + rest))
    ensures ParseElems(t) == Some(([j], rest))
  {
    assert ([RBRACKET] + rest)[1..] == rest;
  }

  lemma ElemsMore(t: seq<byte>, j: Json, u: seq<byte>, js: seq<Json>, rest: seq<byte>)
    requires ParseValue(t) == Some((j, [COMMA] + u)) && ParseElems(u) == Some((js, rest))
    ensures ParseElems(t) == Some(([j] + js, rest))
  {
    assert ([COMMA] + u)[1..] == u;
  }

  lemma FieldStep(t: seq<byte>, key: seq<byte>, u: seq<byte>, j: Json, rest: seq<byte>)
    requires ParseString(t) == Some((key, [COLON] + u)) && ParseValue(u) == Some((j, rest))
    ensures ParseField(t) == Some((Field(key, j), rest))
  {
    assert ([COLON] + u)[1..] == u;
  }

  lemma FieldsLast(t: seq<byte>, f: Field, rest: seq<byte>)
    requires ParseField(t) == Some((f, [RBRACE] + rest))
    ensures ParseFields(t) == Some(([f], rest))
  {
    assert ([RBRACE] + rest)[1..] == rest;
  }

  lemma FieldsMore(t: seq<byte>, f: Field, u: seq<byte>, fs: seq<Field>, rest: seq<byte>)
    requires ParseField(t) == Some((f, [COMMA] + u)) && ParseFields(u) == Some((fs, rest))
    ensures ParseFields(t) == Some(([f] + fs, rest))
  {
    assert ([COMMA] + u)[1..] == u;
  }

  lemma BracketStep(u: seq<byte>, elems: seq<Json>, rest: seq<byte>)
    requires u != [] && u[0] != RBRACKET && ParseElems(u) == Some((elems, rest))
    ensures ParseValue([LBRACKET] + u) == Some((Arr(elems), rest))
  {
    assert ([LBRACKET] + u)[1..] == u;
  }

  lemma BraceStep(u: seq<byte>, fields: seq<Field>, rest: seq<byte>)
    requires u != [] && u[0] != RBRACE && ParseFields(u) == Some((fields, rest))
    ensures ParseValue([LBRACE] + u) == Some((Obj(fields), rest))
  {
    assert ([LBRACE] + u)[1..] == u;
  }

  lemma ParseEmpty(rest: seq<byte>)
    ensures ParseValue(Show(Arr([])) + rest) == Some((Arr([]), rest))
    ensures ParseValue(Show(Obj([])) + rest) == Some((Obj([]), rest))
  {
    assert Show(Arr([])) + rest == [LBRACKET, RBRACKET] + rest && ([LBRACKET, RBRACKET] + rest)[2..] == rest;
    assert Show(Obj([])) + rest == [LBRACE, RBRACE] + rest && ([LBRACE, RBRACE] + rest)[2..] == rest;
  }

  lemma Reassociate<T>(a: seq<T>, b: seq<T>, c: seq<T>, d: seq<T>)
    ensures (a + b + c) + d == a + (b + (c + d))
    ensures (a + (b + c)) + d == a + (b + (c + d))
  {
  }

  lemma ListHeads(j: Json)
    ensures j.Arr? && j.elems != [] ==> ShowElems(j.elems) != [] && ShowElems(j.elems)[0] != RBRACKET
    ensures j.Obj? && j.fields != [] ==> ShowFields(j.fields) != [] && ShowFields(j.fields)[0] == QUOTE
  {
    if j.Arr? && j.elems != [] {
      ShowHead(j.elems[0]);
    }
  }

  /** The decoder reads every value back from its printed text, whatever follows it. */
  lemma ParseShow(j: Json, rest: seq<byte>)
    ensures ParseValue(Show(j) + rest) == Some((j, rest))
    decreases j, 0
  {
    ListHeads(j);
    match j {
      case Str(s) =>
        ParseQuoted(s, rest);
      case Arr(elems) =>
        if elems == [] {
          ParseEmpty(rest);
        } else {
          ParseShowElems(elems, rest);
          Reassociate([LBRACKET], ShowElems(elems), [RBRACKET], rest);
          BracketStep(ShowElems(elems) + ([RBRACKET] + rest), elems, rest);
        }
      case Obj(fields) =>
        if fields == [] {
          ParseEmpty(rest);
        } else {
          ParseShowFields(fields, rest);
          Reassociate([LBRACE], ShowFields(fields), [RBRACE], rest);
          BraceStep(ShowFields(fields) + ([RBRACE] + rest), fields, rest);
        }
    }
  }

  lemma ParseShowElems(elems: seq<Json>, rest: seq<byte>)
    requires elems != []
    ensures ParseElems(ShowElems(elems) + ([RBRACKET] + rest)) == Some((elems, rest))
    decreases elems, 1
  {
    var j, tail := elems[0], [RBRACKET] + rest;
    if |elems| == 1 {
      ParseShow(j, tail);
      ElemsLast(Show(j) + tail, j, rest);
      assert elems == [j];
    } else {
      var u := ShowElems(elems[1..]) + tail;
      Reassociate(Show(j), [COMMA], ShowElems(elems[1..]), tail);
      ParseShow(j, [COMMA] + u);
      ParseShowElems(elems[1..], rest);
      ElemsMore(Show(j) + ([COMMA] + u), j, u, elems[1..], rest);
      assert elems == [j] + elems[1..];
    }
  }

  lemma ParseShowField(f: Field, rest: seq<byte>)
    ensures ParseField(ShowField(f) + rest) == Some((f, rest))
    decreases f, 1
  {
    var u := Show(f.value) + rest;
    Reassociate(Quoted(f.key), [COLON], Show(f.value), rest);
    ParseQuoted(f.key, [COLON] + u);
    ParseShow(f.value, rest);
    FieldStep(Quoted(f.key) + ([COLON] + u), f.key, u, f.value, rest);
  }

  lemma ParseShowFields(fields: seq<Field>, rest: seq<byte>)
    requires fields != []
    ensures ParseFields(ShowFields(fields) + ([RBRACE] + rest)) == Some((fields, rest))
    decreases fields, 2
  {
    var f, tail := fields[0], [RBRACE] + rest;
    if |fields| == 1 {
      ParseShowField(f, tail);
      FieldsLast(ShowField(f) + tail, f, rest);
      assert fields == [f];
    } else {
      var u := ShowFields(fields[1..]) + tail;
      Reassociate(ShowField(f), [COMMA], ShowFields(fields[1..]), tail);
      ParseShowField(f, [COMMA] + u);
      ParseShowFields(fields[1..], rest);
      FieldsMore(ShowField(f) + ([COMMA] + u), f, u, fields[1..], rest);
      assert fields == [f] + fields[1..];
    }
  }

  /** How a printer that adds elements one by one, comma first, extends the text. */
  lemma {:induction false} ShowElemsSnoc(elems: seq<Json>, j: Json)
    ensures ShowElems(elems + [j]) == ShowElems(elems) + ((if elems == [] then [] else [COMMA]) + Show(j))
  {
    if elems == [] {
      assert elems + [j] == [j];
    } else {
      var e, rest := elems[0], elems[1..];
      ShowElemsSnoc(rest, j);
      assert (elems + [j])[0] == e && (elems + [j])[1..] == rest + [j];
      if rest == [] {
        assert ShowElems(rest + [j]) == Show(j);
      } else {
        calc {
          ShowElems(elems + [j]);
          Show(e) + ([COMMA] + ShowElems(rest + [j]));
          Show(e) + ([COMMA] + (ShowElems(rest) + ([COMMA] + Show(j))));
          { Assoc([COMMA], ShowElems(rest), [COMMA] + Show(j)); }
          Show(e) + (([COMMA] + ShowElems(rest)) + ([COMMA] + Show(j)));
          { Assoc(Show(e), [COMMA] + ShowElems(rest), [COMMA] + Show(j)); }
          ShowElems(elems) + ([COMMA] + Show(j));
        }
      }
    }
  }
}
