/**
 * `appendContentWithAttachments` of backends/langgraph.go: the hand-written JSON for a prompt
 * with attachments, proved to be the printed form of a value that a simple list describes.
 */
module MessageContent {
  import opened Bytes
  import opened JsonString
  import opened GoStrings
  import opened JsonValue
  import opened NameOrder
  import opened Placeholders

  datatype Image = Image(base64: seq<byte>, mime: seq<byte>)

  /** The content format: "anthropic", or anything else, which the switch treats as "openai". */
  datatype Format = Anthropic | OpenAI

  /** How a request is rendered: its format, and the test that a MIME type starts with "image/". */
  datatype Style = Style(format: Format, isImage: seq<byte> -> bool) {
    predicate Emits(mime: seq<byte>) {
      isImage(mime) || format.Anthropic?
    }
  }

  const DEFAULT_MIME: seq<byte> := Ascii("image/jpeg")

  function ImageMime(img: Image): seq<byte> {
    if img.mime == [] then DEFAULT_MIME else img.mime
  }

  // ----- the list specification

  datatype Piece = Text(text: seq<byte>) | Binary(mime: seq<byte>, base64: seq<byte>)

  function BinaryPiece(mime: seq<byte>, base64: seq<byte>, ref: name, style: Style): seq<Piece> {
    if style.Emits(mime) then [Binary(mime, base64)]
    else if ref != [] then [Text([LBRACE] + ref + [RBRACE])]
    else []
  }

  /** Unreferenced binaries, by name. */
  function UnreferencedBinaries(names: seq<name>, atts: Attachments, style: Style): seq<Piece>
    requires forall n | n in names :: n in atts
  {
    if names == [] then []
    else
      var last := names[|names| - 1];
      UnreferencedBinaries(names[..|names| - 1], atts, style)
      + (if atts[last].isText then [] else BinaryPiece(atts[last].mime, atts[last].base64, [], style))
  }

  /** Images that came outside the attachment map. */
  function ImagePieces(images: seq<Image>, style: Style): seq<Piece> {
    if images == [] then []
    else
      var last := images[|images| - 1];
      ImagePieces(images[..|images| - 1], style) + BinaryPiece(ImageMime(last), last.base64, [], style)
  }

  /** The prompt itself, part by part. */
  function PromptPieces(parts: seq<Part>, style: Style): seq<Piece> {
    if parts == [] then []
    else
      var last := parts[|parts| - 1];
      PromptPieces(parts[..|parts| - 1], style)
      + (if last.attachment.None? then [Text(last.text)]
         else BinaryPiece(last.attachment.value.mime, last.attachment.value.base64, last.ref, style))
  }

  /** Unreferenced text attachments, by name. */
  function UnreferencedTexts(names: seq<name>, atts: Attachments): seq<Piece>
    requires forall n | n in names :: n in atts
  {
    if names == [] then []
    else
      var last := names[|names| - 1];
      UnreferencedTexts(names[..|names| - 1], atts) + (if atts[last].isText then [Text(atts[last].text)] else [])
  }

  function AllPieces(parts: seq<Part>, names: seq<name>, atts: Attachments, images: seq<Image>,
      style: Style): seq<Piece>
    requires forall n | n in names :: n in atts
  {
    UnreferencedBinaries(names, atts, style) + ImagePieces(images, style) + PromptPieces(parts, style)
        + UnreferencedTexts(names, atts)
  }

  // ----- merging adjacent text

  /** Elements already written, and text not yet flushed. */
  datatype Merge = Merge(elems: seq<Piece>, pending: seq<byte>) {
    function Flush(): Merge {
      if pending == [] then this else Merge(elems + [Text(pending)], [])
    }
  }

  function MergeOne(m: Merge, p: Piece): Merge {
    match p
    case Text(t) => m.(pending := m.pending + t)
    case Binary(_, _) => var f := m.Flush(); f.(elems := f.elems + [p])
  }

  function MergeAll(pieces: seq<Piece>): Merge {
    if pieces == [] then Merge([], []) else MergeOne(MergeAll(pieces[..|pieces| - 1]), pieces[|pieces| - 1])
  }

  function Merged(pieces: seq<Piece>): seq<Piece> {
    MergeAll(pieces).Flush().elems
  }

  lemma MergeSnoc(pieces: seq<Piece>, p: Piece)
    ensures MergeAll(pieces + [p]) == MergeOne(MergeAll(pieces), p)
  {
    assert (pieces + [p])[..|pieces|] == pieces;
  }

  /** What a piece list says when run together: bytes of text with binaries between them. */
  datatype Token = Char(b: byte) | Attached(mime: seq<byte>, base64: seq<byte>)

  function Chars(t: seq<byte>): seq<Token> {
    seq(|t|, i requires 0 <= i < |t| => Char(t[i]))
  }

  function Tokens(pieces: seq<Piece>): seq<Token> {
    if pieces == [] then []
    else
      var last := pieces[|pieces| - 1];
      Tokens(pieces[..|pieces| - 1]) + (if last.Text? then Chars(last.text) else [Attached(last.mime, last.base64)])
  }

  lemma TokensSnoc(pieces: seq<Piece>, p: Piece)
    ensures Tokens(pieces + [p]) == Tokens(pieces) + (if p.Text? then Chars(p.text) else [Attached(p.mime, p.base64)])
  {
    assert (pieces + [p])[..|pieces|] == pieces;
  }

  /** No empty text, and no two texts next to each other. */
  predicate Normal(pieces: seq<Piece>) {
    && (forall i | 0 <= i < |pieces| :: pieces[i].Text? ==> pieces[i].text != [])
    && (forall i | 0 <= i < |pieces| - 1 :: pieces[i].Text? ==> pieces[i + 1].Binary?)
  }

  predicate EndsOpen(m: Merge) {
    m.elems != [] ==> m.elems[|m.elems| - 1].Binary?
  }

  lemma FlushSays(m: Merge)
    ensures Tokens(m.Flush().elems) == Tokens(m.elems) + Chars(m.pending)
  {
    if m.pending == [] {
      assert Tokens(m.elems) + Chars(m.pending) == Tokens(m.elems);
    } else {
      TokensSnoc(m.elems, Text(m.pending));
    }
  }

  predicate MergeHolds(m: Merge, pieces: seq<Piece>) {
    Normal(m.elems) && EndsOpen(m) && Tokens(m.elems) + Chars(m.pending) == Tokens(pieces)
  }

  lemma MergeTextHolds(m: Merge, pieces: seq<Piece>, t: seq<byte>)
    requires MergeHolds(m, pieces)
    ensures MergeHolds(MergeOne(m, Text(t)), pieces + [Text(t)])
  {
    hide Normal, Tokens;
    assert Chars(m.pending + t) == Chars(m.pending) + Chars(t);
    Assoc(Tokens(m.elems), Chars(m.pending), Chars(t));
    TokensSnoc(pieces, Text(t));
  }

  lemma FlushNormal(m: Merge)
    requires Normal(m.elems) && EndsOpen(m)
    ensures Normal(m.Flush().elems)
  {
  }

  lemma MergeBinaryHolds(m: Merge, pieces: seq<Piece>, p: Piece)
    requires MergeHolds(m, pieces) && p.Binary?
    ensures MergeHolds(MergeOne(m, p), pieces + [p])
  {
    hide Tokens;
    FlushSays(m);
    FlushNormal(m);
    TokensSnoc(m.Flush().elems, p);
    TokensSnoc(pieces, p);
    assert Tokens(MergeOne(m, p).elems) + Chars([]) == Tokens(MergeOne(m, p).elems);
  }

  lemma {:induction false} MergeInvariant(pieces: seq<Piece>)
    ensures MergeHolds(MergeAll(pieces), pieces)
  {
    if pieces != [] {
      var before, p := pieces[..|pieces| - 1], pieces[|pieces| - 1];
      MergeInvariant(before);
      assert pieces == before + [p];
      if p.Text? {
        MergeTextHolds(MergeAll(before), before, p.text);
      } else {
        MergeBinaryHolds(MergeAll(before), before, p);
      }
    }
  }

  /** Merging says the same thing in normal form. */
  lemma MergedMeaning(pieces: seq<Piece>)
    ensures Normal(Merged(pieces)) && Tokens(Merged(pieces)) == Tokens(pieces)
  {
    var m := MergeAll(pieces);
    MergeInvariant(pieces);
    FlushNormal(m);
    FlushSays(m);
  }

  // ----- the value

  function DataUrl(mime: seq<byte>, base64: seq<byte>): seq<byte> {
    Ascii("data:") + mime + Ascii(BASE64_MARK) + base64
  }

  function PieceJson(p: Piece, style: Style): Json {
    match p
    case Text(t) =>
      Obj([Field(Ascii("type"), Str(Ascii("text"))), Field(Ascii("text"), Str(t))])
    case Binary(mime, base64) =>
      if style.isImage(mime) then
        Obj([Field(Ascii("type"), Str(Ascii("image_url"))),
             Field(Ascii("image_url"), Obj([Field(Ascii("url"), Str(DataUrl(mime, base64)))]))])
      else
        Obj([Field(Ascii("type"), Str(Ascii("document"))),
             Field(Ascii("source"), Obj([Field(Ascii("type"), Str(Ascii("base64"))),
                                         Field(Ascii("media_type"), Str(mime)),
                                         Field(Ascii("data"), Str(base64))]))])
  }

  function PieceJsons(pieces: seq<Piece>, style: Style): (r: seq<Json>)
    ensures |r| == |pieces|
  {
    seq(|pieces|, i requires 0 <= i < |pieces| => PieceJson(pieces[i], style))
  }

  predicate HasBinary(parts: seq<Part>, names: seq<name>, atts: Attachments, images: seq<Image>, style: Style)
    requires forall n | n in names :: n in atts
  {
    || images != []
    || (exists n | n in names :: !atts[n].isText && style.Emits(atts[n].mime))
    || (exists p | p in parts :: p.attachment.Some? && style.Emits(p.attachment.value.mime))
  }

  /** The prompt as one string; a binary that cannot be shown keeps its placeholder. */
  function PromptText(parts: seq<Part>): seq<byte> {
    if parts == [] then []
    else
      var last := parts[|parts| - 1];
      PromptText(parts[..|parts| - 1])
      + (if last.attachment.Some? && !last.attachment.value.isText then [LBRACE] + last.ref + [RBRACE] else last.text)
  }

  function TrailingText(names: seq<name>, atts: Attachments): seq<byte>
    requires forall n | n in names :: n in atts
  {
    if names == [] then []
    else
      var last := names[|names| - 1];
      TrailingText(names[..|names| - 1], atts) + (if atts[last].isText then atts[last].text else [])
  }

  /** The content value of a message: a plain string, or the list of merged pieces. */
  function Content(parts: seq<Part>, names: seq<name>, atts: Attachments, images: seq<Image>, style: Style): Json
    requires forall n | n in names :: n in atts
  {
    if HasBinary(parts, names, atts, images, style) then
      Arr(PieceJsons(Merged(AllPieces(parts, names, atts, images, style)), style))
    else Str(PromptText(parts) + TrailingText(names, atts))
  }

  // ----- fixed text of the printer

  const TEXT_OPEN := "{\"type\":\"text\",\"text\":\""
  const IMAGE_TYPE := "{\"type\":\"image_url\","
  const IMAGE_URL := "\"image_url\":{\"url\":\"data:"
  const IMAGE_OPEN := IMAGE_TYPE + IMAGE_URL
  const BASE64_MARK := ";base64,"
  const DOCUMENT_TYPE := "{\"type\":\"document\",\"source\":"
  const DOCUMENT_SOURCE := "{\"type\":\"base64\",\"media_type\":\""
  const DOCUMENT_OPEN := DOCUMENT_TYPE + DOCUMENT_SOURCE
  const DATA_OPEN := "\",\"data\":\""
  const CLOSE_ONE := "\"}"
  const CLOSE_TWO := "\"}}"

  predicate Plain(s: string) {
    forall i | 0 <= i < |s| :: s[i] as int < 128 && IsUnescaped(s[i] as int)
  }

  function Q(s: string): string {
    "\"" + s + "\""
  }

  lemma QuotedPlain(s: string)
    requires Plain(s)
    ensures Quoted(Ascii(s)) == Ascii(Q(s))
  {
    hide Escape;
    PlainIsUnescaped(Ascii(s));
    AsciiConcat("\"", s);
    AsciiConcat("\"" + s, "\"");
    Assoc([QUOTE], Ascii(s), [QUOTE]);
  }

  lemma Punctuation()
    ensures Ascii("{") == [LBRACE] && Ascii("}") == [RBRACE] && Ascii(",") == [COMMA] && Ascii(":") == [COLON]
    ensures Ascii("\"") == [QUOTE] && Ascii(":\"") == [COLON] + [QUOTE]
  {
  }

  lemma ShowObject(fields: seq<Field>)
    ensures Show(Obj(fields)) == Ascii("{") + (ShowFields(fields) + Ascii("}"))
  {
    Punctuation();
    Assoc([LBRACE], ShowFields(fields), [RBRACE]);
  }

  lemma ShowFieldsCons(f: Field, fields: seq<Field>)
    requires fields != []
    ensures ShowFields([f] + fields) == ShowField(f) + (Ascii(",") + ShowFields(fields))
  {
    Punctuation();
    var fs := [f] + fields;
    assert fs[0] == f && fs[1..] == fields;
  }

  lemma ShowTwo(f: Field, g: Field)
    ensures Show(Obj([f, g])) == Ascii("{") + (ShowField(f) + (Ascii(",") + (ShowField(g) + Ascii("}"))))
  {
    assert [f, g] == [f] + [g];
    ShowFieldsCons(f, [g]);
    ShowObject([f, g]);
    Reassociate(ShowField(f), Ascii(","), ShowField(g), Ascii("}"));
  }

  lemma ShowThree(f: Field, g: Field, h: Field)
    ensures Show(Obj([f, g, h])) ==
            Ascii("{") + (ShowField(f) + (Ascii(",") + (ShowField(g) + (Ascii(",") + (ShowField(h) + Ascii("}"))))))
  {
    assert [f, g, h] == [f] + [g, h] && [g, h] == [g] + [h];
    ShowFieldsCons(g, [h]);
    ShowFieldsCons(f, [g, h]);
    ShowObject([f, g, h]);
    Reassociate(ShowField(f), Ascii(","), ShowField(g) + (Ascii(",") + ShowField(h)), Ascii("}"));
    Reassociate(ShowField(g), Ascii(","), ShowField(h), Ascii("}"));
  }

  /** A field whose value is a fixed string. */
  lemma PlainField(key: string, value: string)
    requires Plain(key) && Plain(value)
    ensures ShowField(Field(Ascii(key), Str(Ascii(value)))) == Ascii(Q(key) + (":" + Q(value)))
  {
    Punctuation();
    QuotedPlain(key);
    QuotedPlain(value);
    AsciiConcat(":", Q(value));
    AsciiConcat(Q(key), ":" + Q(value));
  }

  /** A field whose value is an arbitrary string. */
  lemma StringField(key: string, value: seq<byte>)
    requires Plain(key)
    ensures ShowField(Field(Ascii(key), Str(value))) == Ascii(Q(key) + ":\"") + (Escape(value) + Ascii("\""))
  {
    Punctuation();
    QuotedPlain(key);
    AsciiConcat(Q(key), ":\"");
    Reassociate(Ascii(Q(key)), [COLON], [QUOTE], Escape(value) + [QUOTE]);
  }

  /** A field whose value is an object. */
  lemma ObjectField(key: string, value: Json)
    requires Plain(key)
    ensures ShowField(Field(Ascii(key), value)) == Ascii(Q(key) + ":") + Show(value)
  {
    Punctuation();
    QuotedPlain(key);
    AsciiConcat(Q(key), ":");
    Assoc(Ascii(Q(key)), [COLON], Show(value));
  }

  lemma TextLiterals()
    ensures TEXT_OPEN == "{" + ((Q("type") + (":" + Q("text"))) + ("," + (Q("text") + ":\"")))
    ensures CLOSE_ONE == "\"" + "}"
    ensures Plain("type") && Plain("text")
  {
  }

  lemma Gather4(a: seq<byte>, b: seq<byte>, c: seq<byte>, d: seq<byte>, x: seq<byte>, y: seq<byte>, z: seq<byte>)
    ensures a + (b + (c + ((d + (x + y)) + z))) == (a + (b + (c + d))) + (x + (y + z))
  {
  }

  lemma ShowText(t: seq<byte>, style: Style)
    ensures Show(PieceJson(Text(t), style)) == Ascii(TEXT_OPEN) + (Escape(t) + Ascii(CLOSE_ONE))
  {
    TextLiterals();
    var f, g := Field(Ascii("type"), Str(Ascii("text"))), Field(Ascii("text"), Str(t));
    ShowTwo(f, g);
    PlainField("type", "text");
    StringField("text", t);
    var a, b, c, d := "{", Q("type") + (":" + Q("text")), ",", Q("text") + ":\"";
    AsciiConcat(c, d);
    AsciiConcat(b, c + d);
    AsciiConcat(a, b + (c + d));
    AsciiConcat("\"", "}");
    Gather4(Ascii(a), Ascii(b), Ascii(c), Ascii(d), Escape(t), Ascii("\""), Ascii("}"));
  }

  lemma ImageLiterals()
    ensures IMAGE_TYPE == "{" + ((Q("type") + (":" + Q("image_url"))) + ",")
    ensures IMAGE_URL == (Q("image_url") + ":") + ("{" + ((Q("url") + ":\"") + "data:"))
    ensures CLOSE_TWO == "\"" + ("}" + "}")
    ensures Plain("type") && Plain("image_url") && Plain("url") && Plain("data:") && Plain(BASE64_MARK)
  {
  }

  lemma Regroup<T>(a: seq<T>, b: seq<T>, c: seq<T>, d: seq<T>)
    ensures (a + (b + c)) + d == a + (b + (c + d))
  {
  }

  lemma EscapeDataUrl(mime: seq<byte>, base64: seq<byte>)
    ensures Escape(DataUrl(mime, base64)) == Ascii("data:") + (Escape(mime) + (Ascii(BASE64_MARK) + Escape(base64)))
  {
    hide Escape;
    ImageLiterals();
    PlainIsUnescaped(Ascii("data:"));
    PlainIsUnescaped(Ascii(BASE64_MARK));
    var d, m := Ascii("data:"), Ascii(BASE64_MARK);
    EscapeAppend(d, mime);
    EscapeAppend(d + mime, m);
    EscapeAppend(d + mime + m, base64);
    Reassociate(d, Escape(mime), m, Escape(base64));
  }

  lemma Gather6(a: seq<byte>, b: seq<byte>, c: seq<byte>, d: seq<byte>, u: seq<byte>, p: seq<byte>,
                x: seq<byte>, q: seq<byte>, z: seq<byte>)
    ensures a + (b + (c + ((d + (a + ((u + ((p + x) + q)) + z))) + z)))
         == (a + (b + (c + (d + (a + (u + p)))))) + (x + (q + (z + z)))
  {
  }

  lemma ShowImage(mime: seq<byte>, base64: seq<byte>, style: Style)
    requires style.isImage(mime)
    ensures Show(PieceJson(Binary(mime, base64), style))
         == Ascii(IMAGE_OPEN) + ((Escape(mime) + (Ascii(BASE64_MARK) + Escape(base64))) + Ascii(CLOSE_TWO))
  {
    ImageLiterals();
    EscapeDataUrl(mime, base64);
    var url := Field(Ascii("url"), Str(DataUrl(mime, base64)));
    StringField("url", DataUrl(mime, base64));
    ShowObject([url]);
    ObjectField("image_url", Obj([url]));
    PlainField("type", "image_url");
    ShowTwo(Field(Ascii("type"), Str(Ascii("image_url"))), Field(Ascii("image_url"), Obj([url])));
    assert PieceJson(Binary(mime, base64), style)
        == Obj([Field(Ascii("type"), Str(Ascii("image_url"))), Field(Ascii("image_url"), Obj([url]))]);
    var b, d, u := Q("type") + (":" + Q("image_url")), Q("image_url") + ":", Q("url") + ":\"";
    AsciiConcat(u, "data:");
    AsciiConcat("{", u + "data:");
    AsciiConcat(d, "{" + (u + "data:"));
    AsciiConcat(",", d + ("{" + (u + "data:")));
    AsciiConcat(b, "," + (d + ("{" + (u + "data:"))));
    AsciiConcat("{", b + ("," + (d + ("{" + (u + "data:")))));
    Regroup("{", b, ",", d + ("{" + (u + "data:")));
    AsciiConcat("}", "}");
    AsciiConcat("\"", "}" + "}");
    Gather6(Ascii("{"), Ascii(b), Ascii(","), Ascii(d), Ascii(u), Ascii("data:"),
            Escape(mime) + (Ascii(BASE64_MARK) + Escape(base64)), Ascii("\""), Ascii("}"));
  }

  lemma DocumentOpening()
    ensures DOCUMENT_TYPE == "{" + ((Q("type") + (":" + Q("document"))) + ("," + (Q("source") + ":")))
  {
  }

  lemma DocumentKeys()
    ensures Plain("type") && Plain("document") && Plain("source")
  {
  }

  lemma SourceOpening()
    ensures DOCUMENT_SOURCE == "{" + ((Q("type") + (":" + Q("base64"))) + ("," + (Q("media_type") + ":\"")))
  {
  }

  lemma SourceKeys()
    ensures DATA_OPEN == "\"" + ("," + (Q("data") + ":\""))
    ensures CLOSE_TWO == "\"" + ("}" + "}")
    ensures Plain("base64") && Plain("media_type") && Plain("data")
  {
  }

  lemma Gather9(a: seq<byte>, b: seq<byte>, c: seq<byte>, d: seq<byte>, e: seq<byte>, f: seq<byte>, q: seq<byte>,
      g: seq<byte>,
                x: seq<byte>, y: seq<byte>, z: seq<byte>)
    ensures a + (b + (c + ((d + (a + (e + (c + ((f + (x + q)) + (c + ((g + (y + q)) + z))))))) + z)))
         == (a + (b + (c + (d + (a + (e + (c + f))))))) + (x + ((q + (c + g)) + (y + (q + (z + z)))))
  {
  }

  lemma ShowDocument(mime: seq<byte>, base64: seq<byte>, style: Style)
    requires !style.isImage(mime)
    ensures Show(PieceJson(Binary(mime, base64), style))
         == Ascii(DOCUMENT_OPEN) + (Escape(mime) + (Ascii(DATA_OPEN) + (Escape(base64) + Ascii(CLOSE_TWO))))
  {
    DocumentOpening();
    DocumentKeys();
    SourceOpening();
    SourceKeys();
    var f, g, h := Field(Ascii("type"), Str(Ascii("base64"))), Field(Ascii("media_type"), Str(mime)),
        Field(Ascii("data"), Str(base64));
    PlainField("type", "base64");
    StringField("media_type", mime);
    StringField("data", base64);
    ShowThree(f, g, h);
    ObjectField("source", Obj([f, g, h]));
    PlainField("type", "document");
    ShowTwo(Field(Ascii("type"), Str(Ascii("document"))), Field(Ascii("source"), Obj([f, g, h])));
    assert PieceJson(Binary(mime, base64), style)
        == Obj([Field(Ascii("type"), Str(Ascii("document"))), Field(Ascii("source"), Obj([f, g, h]))]);
    var b, d, e := Q("type") + (":" + Q("document")), Q("source") + ":", Q("type") + (":" + Q("base64"));
    var m, k := Q("media_type") + ":\"", Q("data") + ":\"";
    AsciiConcat(",", m);
    AsciiConcat(e, "," + m);
    AsciiConcat("{", e + ("," + m));
    AsciiConcat(d, "{" + (e + ("," + m)));
    AsciiConcat(",", d + ("{" + (e + ("," + m))));
    AsciiConcat(b, "," + (d + ("{" + (e + ("," + m)))));
    AsciiConcat("{", b + ("," + (d + ("{" + (e + ("," + m))))));
    Regroup("{", b, "," + d, "{" + (e + ("," + m)));
    Assoc(",", d, "{" + (e + ("," + m)));
    AsciiConcat(",", k);
    AsciiConcat("\"", "," + k);
    AsciiConcat("}", "}");
    AsciiConcat("\"", "}" + "}");
    Gather9(Ascii("{"), Ascii(b), Ascii(","), Ascii(d), Ascii(e), Ascii(m), Ascii("\""), Ascii(k),
            Escape(mime), Escape(base64), Ascii("}"));
  }
}
