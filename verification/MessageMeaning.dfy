/**
 * What a message with attachments says: the content value read as characters with attachments between them, described
 * from the prompt, the attachments and the images alone.
 */
module MessageMeaning {
  import opened Bytes
  import opened JsonValue
  import opened NameOrder
  import opened Placeholders
  import opened MessageContent

  // ----- what is to be said

  /** The format can show an attachment of this type. */
  predicate Shows(style: Style, mime: seq<byte>) {
    style.format.Anthropic? || style.isImage(mime)
  }

  /** A binary attachment on its own. */
  function Alone(mime: seq<byte>, base64: seq<byte>, style: Style): seq<Token> {
    if Shows(style, mime) then [Attached(mime, base64)] else []
  }

  /**
   * A mark of the prompt: a character, or an attachment, for which its placeholder stands where the format cannot show
   * it; but an empty placeholder only in a plain string.
   */
  function SaidOf(m: Mark, style: Style, list: bool): seq<Token> {
    match m
    case Letter(b) => [Char(b)]
    case Shown(ref, a) =>
      if Shows(style, a.mime) then [Attached(a.mime, a.base64)]
      else if list && ref == [] then []
      else Chars([LBRACE] + ref + [RBRACE])
  }

  function Said(marks: seq<Mark>, style: Style, list: bool): seq<Token> {
    if marks == [] then [] else SaidOf(marks[0], style, list) + Said(marks[1..], style, list)
  }

  /** The binary attachments with these names, in order. */
  function Binaries(names: seq<name>, atts: Attachments, style: Style): seq<Token>
    requires forall n | n in names :: n in atts
  {
    if names == [] then []
    else
      var a := atts[names[0]];
      (if a.isText then [] else Alone(a.mime, a.base64, style)) + Binaries(names[1..], atts, style)
  }

  /** The text attachments with these names, in order. */
  function Texts(names: seq<name>, atts: Attachments): seq<Token>
    requires forall n | n in names :: n in atts
  {
    if names == [] then []
    else (if atts[names[0]].isText then Chars(atts[names[0]].text) else []) + Texts(names[1..], atts)
  }

  function Pictures(images: seq<Image>, style: Style): seq<Token> {
    if images == [] then []
    else
      var mime := if images[0].mime == [] then Ascii("image/jpeg") else images[0].mime;
      Alone(mime, images[0].base64, style) + Pictures(images[1..], style)
  }

  /**
   * Unreferenced binaries and images first, then the prompt with its attachments where it names them, then the
   * unreferenced texts.
   */
  function Message(text: seq<byte>, atts: Attachments, names: seq<name>, images: seq<Image>, style: Style, list: bool)
    : seq<Token>
    requires forall n | n in names :: n in atts
  {
    Binaries(names, atts, style) + Pictures(images, style) + Said(Reading(text, atts, |text|), style, list)
    + Texts(names, atts)
  }

  /** Something in it is not a character. */
  predicate HasAttached(tokens: seq<Token>) {
    exists i | 0 <= i < |tokens| :: tokens[i].Attached?
  }

  lemma HasConcat(a: seq<Token>, b: seq<Token>)
    ensures HasAttached(a + b) <==> HasAttached(a) || HasAttached(b)
  {
    if i :| 0 <= i < |a| && a[i].Attached? {
      assert (a + b)[i].Attached?;
    }
    if i :| 0 <= i < |b| && b[i].Attached? {
      assert (a + b)[|a| + i].Attached?;
    }
  }

  lemma CharsHasNone(t: seq<byte>)
    ensures !HasAttached(Chars(t))
  {
  }

  // ----- the pieces say it

  lemma NoTokens()
    ensures Tokens([]) == []
  {
  }

  lemma {:induction false} TokensConcat(a: seq<Piece>, b: seq<Piece>)
    ensures Tokens(a + b) == Tokens(a) + Tokens(b)
  {
    hide Tokens, Chars;
    if b == [] {
      assert a + b == a;
      NoTokens();
    } else {
      var before, last := b[..|b| - 1], b[|b| - 1];
      TokensConcat(a, before);
      assert a + b == (a + before) + [last] && b == before + [last];
      TokensSnoc(a + before, last);
      TokensSnoc(before, last);
      Assoc(Tokens(a), Tokens(before), if last.Text? then Chars(last.text) else [Attached(last.mime, last.base64)]);
    }
  }

  lemma TokensOne(p: Piece)
    ensures Tokens([p]) == if p.Text? then Chars(p.text) else [Attached(p.mime, p.base64)]
    ensures Tokens([]) == []
  {
    TokensSnoc([], p);
    assert [] + [p] == [p];
  }

  /** One binary as the writer treats it. */
  lemma BinarySays(mime: seq<byte>, base64: seq<byte>, ref: name, style: Style)
    ensures Tokens(BinaryPiece(mime, base64, ref, style)) ==
            if Shows(style, mime) then [Attached(mime, base64)]
            else if ref == [] then [] else Chars([LBRACE] + ref + [RBRACE])
  {
    if Shows(style, mime) {
      TokensOne(Binary(mime, base64));
    } else if ref != [] {
      TokensOne(Text([LBRACE] + ref + [RBRACE]));
    }
  }

  lemma {:induction false} BinariesSnoc(names: seq<name>, n: name, atts: Attachments, style: Style)
    requires n in atts && forall m | m in names :: m in atts
    ensures forall m | m in names + [n] :: m in atts
    ensures Binaries(names + [n], atts, style)
            == Binaries(names, atts, style) + Binaries([n], atts, style)
    ensures Texts(names + [n], atts) == Texts(names, atts) + Texts([n], atts)
  {
    if names == [] {
      assert [] + [n] == [n];
    } else {
      hide Alone, Chars;
      BinariesSnoc(names[1..], n, atts, style);
      assert (names + [n])[1..] == names[1..] + [n];
      var a := atts[names[0]];
      Assoc(if a.isText then [] else Alone(a.mime, a.base64, style), Binaries(names[1..], atts, style),
        Binaries([n], atts, style));
      Assoc(if a.isText then Chars(a.text) else [], Texts(names[1..], atts), Texts([n], atts));
    }
  }

  lemma OneName(n: name, atts: Attachments, style: Style)
    requires n in atts
    ensures Binaries([n], atts, style) == if atts[n].isText then [] else Alone(atts[n].mime, atts[n].base64, style)
    ensures Texts([n], atts) == if atts[n].isText then Chars(atts[n].text) else []
  {
    assert [n][1..] == [];
  }

  lemma OnItsOwn(a: Attachment, style: Style)
    ensures Alone(a.mime, a.base64, style) == if Shows(style, a.mime) then [Attached(a.mime, a.base64)] else []
  {
  }

  lemma CharsConcat(a: seq<byte>, b: seq<byte>)
    ensures Chars(a + b) == Chars(a) + Chars(b) && Chars([]) == []
  {
  }

  lemma {:induction false} NamesSay(names: seq<name>, atts: Attachments, style: Style)
    requires forall n | n in names :: n in atts
    ensures Tokens(UnreferencedBinaries(names, atts, style)) == Binaries(names, atts, style)
    ensures Tokens(UnreferencedTexts(names, atts)) == Texts(names, atts)
    ensures Chars(TrailingText(names, atts)) == Texts(names, atts)
  {
    if names != [] {
      hide Tokens, BinaryPiece, Binaries, Texts, Alone;
      var before, n := names[..|names| - 1], names[|names| - 1];
      var a := atts[n];
      assert names == before + [n];
      NamesSay(before, atts, style);
      BinariesSnoc(before, n, atts, style);
      OneName(n, atts, style);
      TokensOne(Text(a.text));
      BinarySays(a.mime, a.base64, [], style);
      OnItsOwn(a, style);
      TokensConcat(UnreferencedBinaries(before, atts, style),
        if a.isText then [] else BinaryPiece(a.mime, a.base64, [], style));
      TokensConcat(UnreferencedTexts(before, atts), if a.isText then [Text(a.text)] else []);
      CharsConcat(TrailingText(before, atts), if a.isText then a.text else []);
    }
  }

  lemma OnePicture(i: Image, style: Style)
    ensures Pictures([i], style) == Alone(ImageMime(i), i.base64, style)
  {
    hide Alone;
    assert [i][1..] == [];
  }

  lemma {:induction false} PicturesSnoc(images: seq<Image>, i: Image, style: Style)
    ensures Pictures(images + [i], style) == Pictures(images, style) + Pictures([i], style)
  {
    if images == [] {
      assert [] + [i] == [i];
    } else {
      hide Alone;
      PicturesSnoc(images[1..], i, style);
      assert (images + [i])[1..] == images[1..] + [i];
      Assoc(Pictures([images[0]], style), Pictures(images[1..], style), Pictures([i], style));
      OnePicture(images[0], style);
    }
  }

  lemma {:induction false} ImagesSay(images: seq<Image>, style: Style)
    ensures Tokens(ImagePieces(images, style)) == Pictures(images, style)
  {
    if images != [] {
      hide Tokens, BinaryPiece, Pictures, ImageMime;
      var before, i := images[..|images| - 1], images[|images| - 1];
      assert images == before + [i];
      ImagesSay(before, style);
      PicturesSnoc(before, i, style);
      OnePicture(i, style);
      BinarySays(ImageMime(i), i.base64, [], style);
      TokensConcat(ImagePieces(before, style), BinaryPiece(ImageMime(i), i.base64, [], style));
    }
  }

  // ----- the prompt

  lemma {:induction false} SaidConcat(a: seq<Mark>, b: seq<Mark>, style: Style, list: bool)
    ensures Said(a + b, style, list) == Said(a, style, list) + Said(b, style, list)
  {
    if a == [] {
      assert a + b == b;
    } else {
      hide SaidOf;
      SaidConcat(a[1..], b, style, list);
      assert (a + b)[1..] == a[1..] + b;
      Assoc(SaidOf(a[0], style, list), Said(a[1..], style, list), Said(b, style, list));
    }
  }

  lemma {:induction false} LettersSaid(t: seq<byte>, style: Style, list: bool)
    ensures Said(Letters(t), style, list) == Chars(t)
  {
    if t != [] {
      LettersSaid(t[1..], style, list);
      assert Letters(t)[1..] == Letters(t[1..]);
      assert Chars(t) == [Char(t[0])] + Chars(t[1..]);
    }
  }

  /** A part shows binaries only. */
  predicate Sound(p: Part) {
    p.attachment.Some? ==> !p.attachment.value.isText
  }

  predicate AllSound(parts: seq<Part>) {
    forall p | p in parts :: Sound(p)
  }

  lemma FirstPartsSound(text: seq<byte>, atts: Attachments)
    requires text != []
    ensures AllSound(FirstParts(text, atts).0)
  {
    hide IndexByte;
  }

  lemma {:induction false} ScanSound(text: seq<byte>, atts: Attachments)
    ensures AllSound(Scan(text, atts))
    decreases |text|
  {
    if text != [] {
      FirstPartsSound(text, atts);
      ScanSound(text[FirstParts(text, atts).1..], atts);
    }
  }

  lemma PartSaid(p: Part, style: Style)
    requires Sound(p)
    ensures Said(Says(p), style, true) ==
            Tokens(if p.attachment.None? then [Text(p.text)]
                   else BinaryPiece(p.attachment.value.mime, p.attachment.value.base64, p.ref, style))
    ensures (p.attachment.Some? ==> !Shows(style, p.attachment.value.mime)) ==>
              Said(Says(p), style, false)
              == Chars(if p.attachment.Some? && !p.attachment.value.isText then [LBRACE] + p.ref + [RBRACE] else p.text)
  {
    hide Chars, Letters, Shows, BinaryPiece, Tokens;
    if p.attachment.Some? {
      var a, m := p.attachment.value, Shown(p.ref, p.attachment.value);
      BinarySays(a.mime, a.base64, p.ref, style);
      assert [m][1..] == [];
    } else {
      TokensOne(Text(p.text));
      LettersSaid(p.text, style, true);
      LettersSaid(p.text, style, false);
    }
  }

  lemma NothingSaid(style: Style)
    ensures Tokens(PromptPieces([], style)) == [] == Said(SaysAll([]), style, true)
    ensures Chars(PromptText([])) == [] == Said(SaysAll([]), style, false)
  {
  }

  lemma {:induction false} PartsSaid(parts: seq<Part>, style: Style)
    requires AllSound(parts)
    ensures Tokens(PromptPieces(parts, style)) == Said(SaysAll(parts), style, true)
    ensures (forall p | p in parts && p.attachment.Some? :: !Shows(style, p.attachment.value.mime)) ==>
              Chars(PromptText(parts)) == Said(SaysAll(parts), style, false)
  {
    if parts != [] {
      hide Tokens, BinaryPiece, Said, Says, SaysAll, Chars, Shows;
      var before, p := parts[..|parts| - 1], parts[|parts| - 1];
      assert parts == before + [p] && p in parts && forall x | x in before :: x in parts;
      assert Sound(p);
      PartsSaid(before, style);
      SaysAppend(before, [p]);
      SaysOne(p);
      SaidConcat(SaysAll(before), Says(p), style, true);
      SaidConcat(SaysAll(before), Says(p), style, false);
      PartSaid(p, style);
      TokensConcat(PromptPieces(before, style), if p.attachment.None? then [Text(p.text)]
                   else BinaryPiece(p.attachment.value.mime, p.attachment.value.base64, p.ref, style));
      CharsConcat(PromptText(before),
        if p.attachment.Some? && !p.attachment.value.isText then [LBRACE] + p.ref + [RBRACE] else p.text);
    } else {
      NothingSaid(style);
    }
  }

  lemma PromptSaid(text: seq<byte>, atts: Attachments, style: Style)
    ensures Tokens(PromptPieces(Parts(text, atts), style)) == Said(Reading(text, atts, |text|), style, true)
    ensures (forall p | p in Parts(text, atts) && p.attachment.Some? :: !Shows(style, p.attachment.value.mime)) ==>
              Chars(PromptText(Parts(text, atts))) == Said(Reading(text, atts, |text|), style, false)
  {
    hide Tokens, Said, PromptPieces, PromptText, Chars, Shows, Reading;
    ScanSound(text, atts);
    PartsRead(text, atts);
    PartsSaid(Parts(text, atts), style);
  }

  // ----- when there is something to attach

  lemma AloneAttaches(mime: seq<byte>, base64: seq<byte>, style: Style)
    ensures HasAttached(Alone(mime, base64, style)) <==> Shows(style, mime)
    ensures !HasAttached([])
  {
    assert [Attached(mime, base64)][0].Attached?;
  }

  lemma {:induction false} BinariesAttach(names: seq<name>, atts: Attachments, style: Style)
    requires forall n | n in names :: n in atts
    ensures HasAttached(Binaries(names, atts, style)) <==>
            exists n | n in names :: !atts[n].isText && Shows(style, atts[n].mime)
    ensures !HasAttached(Texts(names, atts))
  {
    if names != [] {
      hide Shows, Chars, HasAttached;
      var a := atts[names[0]];
      BinariesAttach(names[1..], atts, style);
      AloneAttaches(a.mime, a.base64, style);
      CharsHasNone(a.text);
      CharsHasNone([]);
      CharsConcat([], []);
      HasConcat(if a.isText then [] else Alone(a.mime, a.base64, style), Binaries(names[1..], atts, style));
      HasConcat(if a.isText then Chars(a.text) else [], Texts(names[1..], atts));
      assert forall n | n in names :: n == names[0] || n in names[1..];
    } else {
      assert !HasAttached([]);
    }
  }

  lemma OnePartAttaches(p: Part, style: Style, list: bool)
    ensures HasAttached(Said(Says(p), style, list)) <==>
            p.attachment.Some? && Shows(style, p.attachment.value.mime)
  {
    hide Chars, HasAttached, Shows;
    if p.attachment.Some? {
      var a, m := p.attachment.value, Shown(p.ref, p.attachment.value);
      assert [m][1..] == [];
      assert Said(Says(p), style, list) == SaidOf(m, style, list) + [] == SaidOf(m, style, list);
      AloneAttaches(a.mime, a.base64, style);
      CharsHasNone([LBRACE] + p.ref + [RBRACE]);
    } else {
      LettersSaid(p.text, style, list);
      CharsHasNone(p.text);
    }
  }

  lemma {:induction false} PromptAttaches(parts: seq<Part>, style: Style, list: bool)
    ensures HasAttached(Said(SaysAll(parts), style, list)) <==>
            exists p | p in parts :: p.attachment.Some? && Shows(style, p.attachment.value.mime)
  {
    if parts != [] {
      hide Shows, HasAttached, Says, Said;
      PromptAttaches(parts[1..], style, list);
      OnePartAttaches(parts[0], style, list);
      SaidConcat(Says(parts[0]), SaysAll(parts[1..]), style, list);
      HasConcat(Said(Says(parts[0]), style, list), Said(SaysAll(parts[1..]), style, list));
      assert forall p | p in parts :: p == parts[0] || p in parts[1..];
    } else {
      AloneAttaches([], [], style);
      assert Said([], style, list) == [];
    }
  }

  lemma NothingShown(images: seq<Image>, style: Style)
    ensures images == [] ==> Pictures(images, style) == []
  {
  }

  lemma EmitsShows(style: Style)
    ensures forall mime :: style.Emits(mime) == Shows(style, mime)
  {
  }

  /** The test for a list: an image is there, or something in the message is not a character. */
  lemma ListIff(text: seq<byte>, atts: Attachments, names: seq<name>, images: seq<Image>, style: Style, list: bool)
    requires forall n | n in names :: n in atts
    ensures HasBinary(Parts(text, atts), names, atts, images, style) <==>
            images != [] || HasAttached(Message(text, atts, names, images, style, list))
  {
    hide HasAttached, Binaries, Texts, Pictures, Said, Reading, Parts, SaysAll;
    var parts := Parts(text, atts);
    BinariesAttach(names, atts, style);
    PartsRead(text, atts);
    PromptAttaches(parts, style, list);
    NothingShown(images, style);
    AloneAttaches([], [], style);
    var a, b := Binaries(names, atts, style), Pictures(images, style);
    var c, d := Said(Reading(text, atts, |text|), style, list), Texts(names, atts);
    HasConcat(a, b);
    HasConcat(a + b, c);
    HasConcat(a + b + c, d);
    EmitsShows(style);
  }

  // ----- the message

  lemma {:induction false} NoBinaries(names: seq<name>, atts: Attachments, style: Style)
    requires forall n | n in names :: n in atts && (atts[n].isText || !Shows(style, atts[n].mime))
    ensures Binaries(names, atts, style) == []
  {
    if names != [] {
      NoBinaries(names[1..], atts, style);
    }
  }

  /** Without an array the binaries and images say nothing. */
  lemma PlainMessage(text: seq<byte>, atts: Attachments, names: seq<name>, images: seq<Image>, style: Style)
    requires (forall n | n in names :: n in atts) && !HasBinary(Parts(text, atts), names, atts, images, style)
    ensures Chars(PromptText(Parts(text, atts)) + TrailingText(names, atts))
            == Message(text, atts, names, images, style, false)
  {
    hide Texts, Pictures, Said, Reading, Parts, Tokens, Chars, PromptText, TrailingText;
    EmitsShows(style);
    NamesSay(names, atts, style);
    PromptSaid(text, atts, style);
    NoBinaries(names, atts, style);
    NothingShown(images, style);
    CharsConcat(PromptText(Parts(text, atts)), TrailingText(names, atts));
  }

  /**
   * The content value says the message: as one string, if there is no image and nothing in it but characters, and
   * otherwise as a list of merged pieces.
   */
  lemma ContentSays(text: seq<byte>, atts: Attachments, names: seq<name>, images: seq<Image>, style: Style)
      returns (pieces: seq<Piece>)
    requires forall n | n in names :: n in atts
    ensures var value := Content(Parts(text, atts), names, atts, images, style);
            if images == [] && !HasAttached(Message(text, atts, names, images, style, false)) then
              value.Str? && Chars(value.s) == Message(text, atts, names, images, style, false)
            else
              && value == Arr(PieceJsons(pieces, style)) && Normal(pieces)
              && Tokens(pieces) == Message(text, atts, names, images, style, true)
  {
    hide HasAttached, Binaries, Texts, Pictures, Said, Reading, Parts, Tokens, Normal, Chars, Shows, HasBinary, Merged,
         PromptPieces, PromptText, TrailingText, UnreferencedBinaries, UnreferencedTexts, ImagePieces, PieceJsons;
    var parts := Parts(text, atts);
    ListIff(text, atts, names, images, style, false);
    NamesSay(names, atts, style);
    PromptSaid(text, atts, style);
    pieces := Merged(AllPieces(parts, names, atts, images, style));
    if HasBinary(parts, names, atts, images, style) {
      ImagesSay(images, style);
      var a, b, c, d := UnreferencedBinaries(names, atts, style), ImagePieces(images, style),
                        PromptPieces(parts, style), UnreferencedTexts(names, atts);
      TokensConcat(a, b);
      TokensConcat(a + b, c);
      TokensConcat(a + b + c, d);
      MergedMeaning(AllPieces(parts, names, atts, images, style));
    } else {
      PlainMessage(text, atts, names, images, style);
    }
  }

  // ----- nothing is left out

  predicate PartKnown(p: Part, atts: Attachments) {
    p.ref != [] ==> p.ref in atts && p == Resolved(p.ref, atts[p.ref])
  }

  lemma FirstPartsAreKnown(text: seq<byte>, atts: Attachments)
    requires text != []
    ensures forall p | p in FirstParts(text, atts).0 :: PartKnown(p, atts)
  {
    hide IndexByte;
  }

  lemma {:induction false} ScanIsKnown(text: seq<byte>, atts: Attachments)
    ensures forall p | p in Scan(text, atts) :: PartKnown(p, atts)
    decreases |text|
  {
    if text != [] {
      hide PartKnown, FirstParts;
      FirstPartsAreKnown(text, atts);
      ScanIsKnown(text[FirstParts(text, atts).1..], atts);
    }
  }

  lemma {:induction false} PartIsSaid(parts: seq<Part>, p: Part, style: Style, list: bool)
    requires p in parts && p.attachment.Some? && Shows(style, p.attachment.value.mime)
    ensures Attached(p.attachment.value.mime, p.attachment.value.base64) in Said(SaysAll(parts), style, list)
  {
    hide Shows, Chars;
    SaidConcat(Says(parts[0]), SaysAll(parts[1..]), style, list);
    if parts[0] == p {
      var m := Shown(p.ref, p.attachment.value);
      assert Says(p) == [m] && [m][1..] == [];
      assert Said([m], style, list) == SaidOf(m, style, list) + [] == SaidOf(m, style, list);
      assert SaidOf(m, style, list)[0] == Attached(p.attachment.value.mime, p.attachment.value.base64);
    } else {
      PartIsSaid(parts[1..], p, style, list);
    }
  }

  lemma {:induction false} BinaryIsSaid(names: seq<name>, atts: Attachments, style: Style, n: name)
    requires (forall m | m in names :: m in atts) && n in names && !atts[n].isText && Shows(style, atts[n].mime)
    ensures Attached(atts[n].mime, atts[n].base64) in Binaries(names, atts, style)
  {
    hide Shows;
    if names[0] == n {
      assert Alone(atts[n].mime, atts[n].base64, style)[0] == Attached(atts[n].mime, atts[n].base64);
    } else {
      BinaryIsSaid(names[1..], atts, style, n);
    }
  }

  lemma {:induction false} PictureIsSaid(images: seq<Image>, style: Style, i: Image)
    requires i in images && Shows(style, ImageMime(i))
    ensures Attached(ImageMime(i), i.base64) in Pictures(images, style)
  {
    hide Shows;
    if images[0] == i {
      assert Alone(ImageMime(i), i.base64, style)[0] == Attached(ImageMime(i), i.base64);
    } else {
      PictureIsSaid(images[1..], style, i);
    }
  }

  /** Every attachment the format can show is in the message, wherever the prompt names it, and so is every image. */
  lemma NothingMissing(text: seq<byte>, atts: Attachments, names: seq<name>, images: seq<Image>, style: Style,
      list: bool)
    requires Lists(names, Unreferenced(text, atts)) && forall n | n in names :: n in atts
    ensures forall n | n in atts && !atts[n].isText && Shows(style, atts[n].mime) ::
              Attached(atts[n].mime, atts[n].base64) in Message(text, atts, names, images, style, list)
    ensures forall i | i in images && Shows(style, ImageMime(i)) ::
              Attached(ImageMime(i), i.base64) in Message(text, atts, names, images, style, list)
  {
    hide Shows, Said, Reading, Binaries, Pictures, Texts, ImageMime, SaysAll;
    PartsRead(text, atts);
    ScanIsKnown(text, atts);
    forall n | n in atts && !atts[n].isText && Shows(style, atts[n].mime)
      ensures Attached(atts[n].mime, atts[n].base64) in Message(text, atts, names, images, style, list)
    {
      if n in Referenced(Parts(text, atts)) {
        var p :| p in Parts(text, atts) && p.ref == n && p.ref != [];
        assert PartKnown(p, atts);
        PartIsSaid(Parts(text, atts), p, style, list);
      } else {
        assert n in Elements(names);
        BinaryIsSaid(names, atts, style, n);
      }
    }
    forall i | i in images && Shows(style, ImageMime(i))
      ensures Attached(ImageMime(i), i.base64) in Message(text, atts, names, images, style, list)
    {
      PictureIsSaid(images, style, i);
    }
  }
}
