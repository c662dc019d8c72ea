/** The imperative half of `appendContentWithAttachments`: a growing buffer and a text accumulator. */
module ContentWriter {
  import opened Bytes
  import opened GoStrings
  import opened JsonValue
  import opened NameOrder
  import opened Placeholders
  import opened MessageContent

  lemma PieceJsonsSnoc(pieces: seq<Piece>, p: Piece, style: Style)
    ensures PieceJsons(pieces + [p], style) == PieceJsons(pieces, style) + [PieceJson(p, style)]
  {
  }

  lemma CloseArray(before: seq<byte>, elems: seq<Json>)
    ensures before + ([LBRACKET] + ShowElems(elems)) + [RBRACKET] == before + Show(Arr(elems))
  {
    Assoc(before, [LBRACKET] + ShowElems(elems), [RBRACKET]);
  }

  lemma Chain5<T>(a: seq<T>, b: seq<T>, c: seq<T>, d: seq<T>, e: seq<T>)
    ensures a + b + c + d + e == a + (b + (c + (d + e)))
    ensures a + b + c + d + e == a + ((b + (c + d)) + e)
  {
  }

  lemma ImageText(mime: seq<byte>, base64: seq<byte>, printed: seq<byte>, style: Style)
    requires style.isImage(mime)
    requires printed == Ascii(IMAGE_OPEN) + Escape(mime) + Ascii(BASE64_MARK) + Escape(base64) + Ascii(CLOSE_TWO)
    ensures printed == Show(PieceJson(Binary(mime, base64), style))
  {
    ShowImage(mime, base64, style);
    Chain5(Ascii(IMAGE_OPEN), Escape(mime), Ascii(BASE64_MARK), Escape(base64), Ascii(CLOSE_TWO));
  }

  lemma DocumentText(mime: seq<byte>, base64: seq<byte>, printed: seq<byte>, style: Style)
    requires !style.isImage(mime)
    requires printed == Ascii(DOCUMENT_OPEN) + Escape(mime) + Ascii(DATA_OPEN) + Escape(base64) + Ascii(CLOSE_TWO)
    ensures printed == Show(PieceJson(Binary(mime, base64), style))
  {
    ShowDocument(mime, base64, style);
    Chain5(Ascii(DOCUMENT_OPEN), Escape(mime), Ascii(DATA_OPEN), Escape(base64), Ascii(CLOSE_TWO));
  }

  /** The content array while it is being written. */
  class ArrayWriter {
    var buf: seq<byte>
    var first: bool
    var textAccum: seq<byte>
    const style: Style
    ghost const before: seq<byte>
    ghost var done: seq<Piece>

    /** The buffer holds the merge of the pieces done so far, the accumulator its unflushed tail. */
    ghost predicate Valid()
      reads this
    {
      var m := MergeAll(done);
      && textAccum == m.pending
      && (first <==> m.elems == [])
      && buf == before + ([LBRACKET] + ShowElems(PieceJsons(m.elems, style)))
    }

    constructor (buf: seq<byte>, style: Style)
      ensures Valid() && before == buf && this.style == style && done == []
    {
      this.buf := buf + [LBRACKET];
      this.first := true;
      this.textAccum := [];
      this.style := style;
      this.before := buf;
      this.done := [];
    }

    /** Appends one printed element, comma first unless it is the first. */
    method Element(printed: seq<byte>, ghost elems: seq<Piece>, ghost p: Piece)
      requires printed == Show(PieceJson(p, style))
      requires first <==> elems == []
      requires buf == before + ([LBRACKET] + ShowElems(PieceJsons(elems, style)))
      modifies this`buf, this`first
      ensures !first
      ensures buf == before + ([LBRACKET] + ShowElems(PieceJsons(elems + [p], style)))
    {
      PieceJsonsSnoc(elems, p, style);
      ShowElemsSnoc(PieceJsons(elems, style), PieceJson(p, style));
      ghost var shown, comma := ShowElems(PieceJsons(elems, style)), if first then [] else [COMMA];
      Regroup([LBRACKET], shown, comma, printed);
      Assoc(before, [LBRACKET] + shown, comma + printed);
      Assoc([LBRACKET], shown, comma + printed);
      Assoc(buf, comma, printed);
      if !first {
        buf := buf + [COMMA];
      } else {
        assert buf + comma == buf;
      }
      first := false;
      buf := buf + printed;
    }

    method FlushText()
      requires Valid()
      modifies this`buf, this`first, this`textAccum
      ensures textAccum == []
      ensures var m := MergeAll(done).Flush();
              && (first <==> m.elems == [])
              && buf == before + ([LBRACKET] + ShowElems(PieceJsons(m.elems, style)))
    {
      if |textAccum| > 0 {
        var printed := AppendJSONEscaped(Ascii(TEXT_OPEN), textAccum);
        ShowText(textAccum, style);
        Assoc(Ascii(TEXT_OPEN), Escape(textAccum), Ascii(CLOSE_ONE));
        Element(printed + Ascii(CLOSE_ONE), MergeAll(done).elems, Text(textAccum));
        textAccum := [];
      }
    }

    /** Flushes the remaining text and closes the array. */
    method Finish() returns (r: seq<byte>)
      requires Valid()
      modifies this
      ensures r == before + Show(Arr(PieceJsons(Merged(old(done)), style)))
    {
      CloseArray(before, PieceJsons(Merged(done), style));
      FlushText();
      r := buf + [RBRACKET];
    }

    /** `textAccum.WriteString`. */
    method WriteText(t: seq<byte>)
      requires Valid()
      modifies this`textAccum, this`done
      ensures Valid() && done == old(done) + [Text(t)]
    {
      MergeSnoc(done, Text(t));
      textAccum := textAccum + t;
      done := done + [Text(t)];
    }

    method AppendImageURL(mime: seq<byte>, base64: seq<byte>)
      requires Valid() && style.isImage(mime)
      modifies this
      ensures Valid() && done == old(done) + [Binary(mime, base64)]
    {
      ghost var p, m := Binary(mime, base64), MergeAll(done).Flush();
      FlushText();
      var printed := AppendJSONEscaped(Ascii(IMAGE_OPEN), mime);
      printed := printed + Ascii(BASE64_MARK);
      printed := AppendJSONEscaped(printed, base64);
      printed := printed + Ascii(CLOSE_TWO);
      ImageText(mime, base64, printed, style);
      Element(printed, m.elems, p);
      MergeSnoc(done, p);
      done := done + [p];
    }

    method AppendDocument(mime: seq<byte>, base64: seq<byte>)
      requires Valid() && !style.isImage(mime)
      modifies this
      ensures Valid() && done == old(done) + [Binary(mime, base64)]
    {
      ghost var p, m := Binary(mime, base64), MergeAll(done).Flush();
      FlushText();
      var printed := AppendJSONEscaped(Ascii(DOCUMENT_OPEN), mime);
      printed := printed + Ascii(DATA_OPEN);
      printed := AppendJSONEscaped(printed, base64);
      printed := printed + Ascii(CLOSE_TWO);
      DocumentText(mime, base64, printed, style);
      Element(printed, m.elems, p);
      MergeSnoc(done, p);
      done := done + [p];
    }

    method AppendBinary(mime: seq<byte>, base64: seq<byte>, ref: name)
      requires Valid()
      modifies this
      ensures Valid() && done == old(done) + BinaryPiece(mime, base64, ref, style)
    {
      var isImage := style.isImage(mime);
      match style.format {
        case Anthropic =>
          if isImage {
            AppendImageURL(mime, base64);
          } else {
            AppendDocument(mime, base64);
          }
        case OpenAI =>
          if isImage {
            AppendImageURL(mime, base64);
          } else if ref != [] {
            WriteText([LBRACE] + ref + [RBRACE]);
          }
      }
    }
  }

  // ----- the tests that choose between a string and an array

  method CollectReferenced(parts: seq<Part>) returns (referenced: set<name>)
    ensures referenced == Referenced(parts)
  {
    referenced := {};
    for i := 0 to |parts|
      invariant referenced == Referenced(parts[..i])
    {
      var p := parts[i];
      assert parts[..i + 1] == parts[..i] + [p];
      if p.ref != [] {
        referenced := referenced + {p.ref};
      }
    }
    assert parts[..|parts|] == parts;
  }

  lemma SubsetOfFullSize<T>(a: set<T>, b: set<T>)
    requires a <= b && |a| >= |b|
    ensures a == b
  {
    assert b == a + (b - a);
  }

  /** The names no placeholder used, sorted, whichever way the attachment map was walked. */
  method CollectUnreferenced(walk: seq<name>, referenced: set<name>, atts: Attachments) returns (names: seq<name>)
    requires forall i, j | 0 <= i < j < |walk| :: walk[i] != walk[j]
    requires Elements(walk) == atts.Keys && referenced <= atts.Keys
    ensures Lists(names, atts.Keys - referenced)
  {
    if |referenced| >= |atts| {
      SubsetOfFullSize(referenced, atts.Keys);
      return [];
    }
    var kept: seq<name> := [];
    for i := 0 to |walk|
      invariant forall n :: n in kept <==> n in walk[..i] && n !in referenced
      invariant forall j, k | 0 <= j < k < |kept| :: kept[j] != kept[k]
    {
      assert walk[..i + 1] == walk[..i] + [walk[i]];
      assert walk[i] !in walk[..i];
      if walk[i] !in referenced {
        assert walk[i] !in kept;
        kept := kept + [walk[i]];
      }
    }
    assert walk[..|walk|] == walk;
    assert forall n :: n in walk <==> n in Elements(walk);
    names := SortNames(kept);
  }

  method AnyBinary(parts: seq<Part>, names: seq<name>, atts: Attachments, images: seq<Image>, style: Style)
      returns (r: bool)
    requires forall n | n in names :: n in atts
    ensures r == HasBinary(parts, names, atts, images, style)
  {
    if |images| > 0 {
      return true;
    }
    for i := 0 to |names|
      invariant forall k | 0 <= k < i :: atts[names[k]].isText || !style.Emits(atts[names[k]].mime)
    {
      if !atts[names[i]].isText && style.Emits(atts[names[i]].mime) {
        return true;
      }
    }
    for i := 0 to |parts|
      invariant forall k | 0 <= k < i :: parts[k].attachment.None? || !style.Emits(parts[k].attachment.value.mime)
    {
      if parts[i].attachment.Some? && style.Emits(parts[i].attachment.value.mime) {
        assert parts[i] in parts;
        return true;
      }
    }
    return false;
  }

  // ----- the whole function

  method AppendTrailing(buf: seq<byte>, ghost said: seq<byte>, ghost before: seq<byte>, names: seq<name>,
      atts: Attachments)
      returns (r: seq<byte>)
    requires forall n | n in names :: n in atts
    requires buf == before + Escape(said)
    ensures r == before + Escape(said + TrailingText(names, atts))
  {
    r := buf;
    assert said + [] == said;
    for i := 0 to |names|
      invariant r == before + Escape(said + TrailingText(names[..i], atts))
    {
      assert names[..i + 1][..i] == names[..i];
      ghost var so := TrailingText(names[..i], atts);
      var att := atts[names[i]];
      if att.isText {
        r := AppendJSONEscaped(r, att.text);
        EscapeAppend(said + so, att.text);
        Assoc(said, so, att.text);
        Assoc(before, Escape(said + so), Escape(att.text));
      } else {
        assert so + [] == so;
      }
    }
    assert names[..|names|] == names;
  }

  /** A prompt that needs no array: every part and every trailing text inside one pair of quotes. */
  method AppendPlain(buf: seq<byte>, parts: seq<Part>, names: seq<name>, atts: Attachments) returns (r: seq<byte>)
    requires forall n | n in names :: n in atts
    ensures r == buf + Show(Str(PromptText(parts) + TrailingText(names, atts)))
  {
    r := buf + [QUOTE];
    for i := 0 to |parts|
      invariant r == buf + [QUOTE] + Escape(PromptText(parts[..i]))
    {
      var p := parts[i];
      assert parts[..i + 1][..i] == parts[..i];
      ghost var so := PromptText(parts[..i]);
      var t := if p.attachment.Some? && !p.attachment.value.isText then [LBRACE] + p.ref + [RBRACE] else p.text;
      r := AppendJSONEscaped(r, t);
      EscapeAppend(so, t);
      Assoc(buf + [QUOTE], Escape(so), Escape(t));
    }
    assert parts[..|parts|] == parts;
    ghost var said := PromptText(parts);
    r := AppendTrailing(r, said, buf + [QUOTE], names, atts);
    said := said + TrailingText(names, atts);
    Regroup(buf, [QUOTE], Escape(said), [QUOTE]);
    Assoc(buf + [QUOTE], Escape(said), [QUOTE]);
    Assoc(buf, [QUOTE], Escape(said) + [QUOTE]);
    r := r + [QUOTE];
  }

  method WriteUnreferencedBinaries(w: ArrayWriter, names: seq<name>, atts: Attachments)
    requires w.Valid() && forall n | n in names :: n in atts
    modifies w
    ensures w.Valid() && w.done == old(w.done) + UnreferencedBinaries(names, atts, w.style)
  {
    for i := 0 to |names|
      invariant w.Valid() && w.done == old(w.done) + UnreferencedBinaries(names[..i], atts, w.style)
    {
      assert names[..i + 1][..i] == names[..i];
      var att := atts[names[i]];
      if !att.isText {
        w.AppendBinary(att.mime, att.base64, []);
      }
    }
    assert names[..|names|] == names;
  }

  method WriteImages(w: ArrayWriter, images: seq<Image>)
    requires w.Valid()
    modifies w
    ensures w.Valid() && w.done == old(w.done) + ImagePieces(images, w.style)
  {
    for i := 0 to |images|
      invariant w.Valid() && w.done == old(w.done) + ImagePieces(images[..i], w.style)
    {
      assert images[..i + 1][..i] == images[..i];
      w.AppendBinary(ImageMime(images[i]), images[i].base64, []);
    }
    assert images[..|images|] == images;
  }

  method WriteParts(w: ArrayWriter, parts: seq<Part>)
    requires w.Valid()
    modifies w
    ensures w.Valid() && w.done == old(w.done) + PromptPieces(parts, w.style)
  {
    for i := 0 to |parts|
      invariant w.Valid() && w.done == old(w.done) + PromptPieces(parts[..i], w.style)
    {
      assert parts[..i + 1][..i] == parts[..i];
      var p := parts[i];
      if p.attachment.Some? {
        w.AppendBinary(p.attachment.value.mime, p.attachment.value.base64, p.ref);
      } else {
        w.WriteText(p.text);
      }
    }
    assert parts[..|parts|] == parts;
  }

  method WriteUnreferencedTexts(w: ArrayWriter, names: seq<name>, atts: Attachments)
    requires w.Valid() && forall n | n in names :: n in atts
    modifies w
    ensures w.Valid() && w.done == old(w.done) + UnreferencedTexts(names, atts)
  {
    for i := 0 to |names|
      invariant w.Valid() && w.done == old(w.done) + UnreferencedTexts(names[..i], atts)
    {
      assert names[..i + 1][..i] == names[..i];
      if atts[names[i]].isText {
        w.WriteText(atts[names[i]].text);
      }
    }
    assert names[..|names|] == names;
  }

  /** A prompt with binaries: the array of merged pieces. */
  method AppendArray(buf: seq<byte>, parts: seq<Part>, names: seq<name>, atts: Attachments, images: seq<Image>,
      style: Style)
      returns (r: seq<byte>)
    requires forall n | n in names :: n in atts
    ensures r == buf + Show(Arr(PieceJsons(Merged(AllPieces(parts, names, atts, images, style)), style)))
  {
    var w := new ArrayWriter(buf, style);
    WriteUnreferencedBinaries(w, names, atts);
    WriteImages(w, images);
    WriteParts(w, parts);
    WriteUnreferencedTexts(w, names, atts);
    assert [] + UnreferencedBinaries(names, atts, style) == UnreferencedBinaries(names, atts, style);
    r := w.Finish();
  }

  /**
   * `appendContentWithAttachments`: for every walk order of the attachment map the bytes appended
   * are the printed content value of the list specification.
   */
  method AppendContent(buf: seq<byte>, text: seq<byte>, atts: Attachments, images: seq<Image>, style: Style,
      walk: seq<name>)
      returns (r: seq<byte>, names: seq<name>)
    requires forall i, j | 0 <= i < j < |walk| :: walk[i] != walk[j]
    requires Elements(walk) == atts.Keys
    ensures Lists(names, Unreferenced(text, atts)) && forall n | n in names :: n in atts
    ensures r == buf + Show(Content(Parts(text, atts), names, atts, images, style))
  {
    var parts := ParsePlaceholders(text, atts);
    var referenced := CollectReferenced(parts);
    ReferencedKnown(text, atts);
    names := CollectUnreferenced(walk, referenced, atts);
    assert forall n | n in names :: n in Elements(names);
    var hasBinary := AnyBinary(parts, names, atts, images, style);
    if hasBinary {
      r := AppendArray(buf, parts, names, atts, images, style);
    } else {
      r := AppendPlain(buf, parts, names, atts);
    }
  }

  /** The appended bytes decode to the specified value, which does not depend on the walk order. */
  lemma ContentDecodes(text: seq<byte>, atts: Attachments, images: seq<Image>, style: Style,
                       names: seq<name>, others: seq<name>, rest: seq<byte>)
    requires Lists(names, Unreferenced(text, atts)) && Lists(others, Unreferenced(text, atts))
    requires forall n | n in names :: n in atts
    ensures names == others
    ensures var value := Content(Parts(text, atts), names, atts, images, style);
            ParseValue(Show(value) + rest) == Some((value, rest))
  {
    ListingUnique(names, others, Unreferenced(text, atts));
    ParseShow(Content(Parts(text, atts), names, atts, images, style), rest);
  }
}
