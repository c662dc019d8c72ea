/**
 * Which of the bytes the daemons write are UTF-8 text (RFC 3629): what escaping, unescaping and the message writer
 * keep, and when the bounded encoder cuts a character in two.
 */
module Utf8Text {
  import opened Bytes
  import opened JsonString
  import opened GoStrings
  import opened SseFrames
  import opened SseFormat
  import opened JsonValue
  import opened NameOrder
  import opened Placeholders
  import opened MessageContent

  /** A sequence of well-formed characters. */
  predicate IsUtf8(s: seq<byte>)
    decreases |s|
  {
    s == [] || (ReadUtf8(s).Some? && IsUtf8(ReadUtf8(s).value.1))
  }

  /** The width of the first character. */
  function Width(s: seq<byte>): (n: nat)
    requires ReadUtf8(s).Some?
    ensures 1 <= n <= |s| && n <= 4 && ReadUtf8(s).value.1 == s[n..]
  {
    if s[0] <= 0x7F then 1 else if s[0] <= 0xDF then 2 else if s[0] <= 0xEF then 3 else 4
  }

  /** The bytes of a character: a byte of ASCII, or a leading byte and trailing bytes. */
  lemma FirstCharacter(s: seq<byte>)
    requires ReadUtf8(s).Some?
    ensures !IsTrail(s[0]) && (Width(s) == 1 <==> s[0] < 0x80) && forall k | 1 <= k < Width(s) :: IsTrail(s[k])
  {
  }

  lemma Unfold(s: seq<byte>)
    requires IsUtf8(s) && s != []
    ensures ReadUtf8(s).Some? && IsUtf8(s[Width(s)..]) && s == s[..Width(s)] + s[Width(s)..]
  {
  }

  lemma ReadFront(a: seq<byte>, b: seq<byte>)
    requires ReadUtf8(a).Some?
    ensures ReadUtf8(a + b).Some? && Width(a + b) == Width(a)
    ensures (a + b)[Width(a)..] == a[Width(a)..] + b
  {
    hide Shift;
  }

  /** In front of a text, only a text makes a text. */
  lemma {:induction false} AppendUtf8(a: seq<byte>, b: seq<byte>)
    requires IsUtf8(a)
    ensures IsUtf8(a + b) <==> IsUtf8(b)
    decreases |a|
  {
    if a == [] {
      assert a + b == b;
    } else {
      hide ReadUtf8, Width;
      Unfold(a);
      ReadFront(a, b);
      AppendUtf8(a[Width(a)..], b);
      assert ReadUtf8(a + b).value.1 == (a + b)[Width(a + b)..];
    }
  }

  predicate IsAscii(s: seq<byte>) {
    forall i | 0 <= i < |s| :: s[i] < 0x80
  }

  lemma {:induction false} AsciiUtf8(s: seq<byte>)
    requires IsAscii(s)
    ensures IsUtf8(s)
  {
    if s != [] {
      AsciiUtf8(s[1..]);
    }
  }

  lemma AsciiInFront(a: seq<byte>, b: seq<byte>)
    requires IsAscii(a)
    ensures IsUtf8(a + b) <==> IsUtf8(b)
  {
    AsciiUtf8(a);
    AppendUtf8(a, b);
  }

  lemma CharacterUtf8(cp: nat)
    requires IsScalar(cp)
    ensures IsUtf8(Utf8(cp))
  {
    Utf8RoundTrip(cp, []);
    assert Utf8(cp) + [] == Utf8(cp);
  }

  lemma FirstCharacterUtf8(s: seq<byte>)
    requires ReadUtf8(s).Some?
    ensures IsUtf8(s[..Width(s)])
  {
    hide Shift;
    var u := s[..Width(s)];
    assert ReadUtf8(u).Some? && Width(u) == |u|;
  }

  lemma HalfCharacter(s: seq<byte>, k: nat)
    requires ReadUtf8(s).Some? && 0 < k < Width(s)
    ensures !IsUtf8(s[..k])
  {
    hide Shift;
    assert s[..k][0] == s[0];
  }

  /** A text can be cut exactly where no character goes on. */
  lemma {:induction false} CutUtf8Iff(s: seq<byte>, k: nat)
    requires IsUtf8(s) && k <= |s|
    ensures IsUtf8(s[..k]) <==> k == |s| || !IsTrail(s[k])
    decreases |s|
  {
    if s != [] {
      hide ReadUtf8, Width;
      Unfold(s);
      FirstCharacter(s);
      var n := Width(s);
      if k >= n {
        FirstCharacterUtf8(s);
        assert s[..k] == s[..n] + s[n..][..k - n];
        AppendUtf8(s[..n], s[n..][..k - n]);
        CutUtf8Iff(s[n..], k - n);
      } else if k > 0 {
        HalfCharacter(s, k);
      }
    }
  }

  /** Both sides of a byte of ASCII. */
  lemma AtAscii(s: seq<byte>, k: nat)
    requires IsUtf8(s) && k < |s| && s[k] < 0x80
    ensures IsUtf8(s[..k]) && IsUtf8(s[..k + 1]) && IsUtf8(s[k + 1..])
  {
    CutUtf8Iff(s, k);
    AppendUtf8(s[..k], [s[k]]);
    assert s[..k + 1] == s[..k] + [s[k]];
    AsciiUtf8([s[k]]);
    assert s == s[..k + 1] + s[k + 1..];
    AppendUtf8(s[..k + 1], s[k + 1..]);
  }

  // ----- escaping and unescaping

  lemma UnescapeByte(b: byte, t: seq<byte>)
    requires b != BACKSLASH
    ensures Unescape([b] + t) == [b] + Unescape(t)
  {
    assert ([b] + t)[1..] == t;
  }

  /** Unescaping copies what has no backslash. */
  lemma {:induction false} UnescapeCopies(a: seq<byte>, b: seq<byte>)
    requires BACKSLASH !in a
    ensures Unescape(a + b) == a + Unescape(b)
  {
    if a == [] {
      assert a + b == b;
    } else {
      hide Unescape;
      UnescapeCopies(a[1..], b);
      UnescapeByte(a[0], a[1..] + b);
      assert a == [a[0]] + a[1..];
      Assoc([a[0]], a[1..], b);
      Assoc([a[0]], a[1..], Unescape(b));
    }
  }

  lemma ChunkText(t: seq<byte>)
    requires |t| >= 2 && t[0] == BACKSLASH && t[1] < 0x80
    ensures IsUtf8(Chunk(t).0)
  {
    hide Utf8, Combine;
    if t[1] != LETTER_U || |t| < 6 || !IsHex4(t[2..6]) {
      AsciiUtf8(Chunk(t).0);
    } else {
      var cp := HexValue(t[2..6]);
      if IsHighSurrogate(cp) && LowFollows(t) {
        CharacterUtf8(Combine(cp, HexValue(t[8..12])));
      } else {
        CharacterUtf8(if IsScalar(cp) then cp else REPLACEMENT);
      }
    }
  }

  lemma HexAscii(t: seq<byte>, i: nat)
    requires i + 4 <= |t| && IsHex4(t[i..i + 4])
    ensures t[i] < 0x80 && t[i + 1] < 0x80 && t[i + 2] < 0x80 && t[i + 3] < 0x80
  {
    var h := t[i..i + 4];
    assert h[0] == t[i] && h[1] == t[i + 1] && h[2] == t[i + 2] && h[3] == t[i + 3];
  }

  lemma ChunkAscii(t: seq<byte>)
    requires |t| >= 2 && t[0] == BACKSLASH && t[1] < 0x80
    ensures IsAscii(t[..Chunk(t).1])
  {
    hide Utf8, Combine, HexValue, IsHex4;
    var n := Chunk(t).1;
    if n > 2 {
      HexAscii(t, 2);
      if n > 6 {
        HexAscii(t, 8);
      }
    }
  }

  /** What one escape says is text, and the text goes on after it. */
  lemma EscapeChunk(t: seq<byte>)
    requires IsUtf8(t) && |t| >= 2 && t[0] == BACKSLASH && t[1] < 0x80
    ensures IsUtf8(Chunk(t).0) && IsUtf8(t[Chunk(t).1..])
  {
    hide Chunk;
    ChunkText(t);
    ChunkAscii(t);
    var n := Chunk(t).1;
    assert t == t[..n] + t[n..];
    AsciiInFront(t[..n], t[n..]);
  }

  lemma LoneBackslash(t: seq<byte>)
    requires t == [BACKSLASH]
    ensures Unescape(t) == t
  {
    assert t[1..] == [];
  }

  /** A backslash in front of a character outside ASCII is dropped. */
  lemma SkippedBackslash(t: seq<byte>)
    requires |t| >= 2 && t[0] == BACKSLASH && t[1] >= 0x80
    ensures Unescape(t) == Unescape(t[1..])
  {
    assert t[1..][1..] == t[2..];
  }

  /** A text is unescaped to a text, however its escapes are formed. */
  lemma {:induction false} UnescapeUtf8(t: seq<byte>)
    requires IsUtf8(t)
    ensures IsUtf8(Unescape(t))
    decreases |t|
  {
    hide ReadUtf8, Chunk, Width;
    if t != [] {
      Unfold(t);
      FirstCharacter(t);
      if t[0] != BACKSLASH {
        var u := t[..Width(t)];
        assert BACKSLASH !in u;
        UnescapeCopies(u, t[Width(t)..]);
        UnescapeUtf8(t[Width(t)..]);
        FirstCharacterUtf8(t);
        AppendUtf8(u, Unescape(t[Width(t)..]));
      } else if |t| == 1 {
        LoneBackslash(t);
      } else if t[1] < 0x80 {
        EscapeChunk(t);
        UnescapeUtf8(t[Chunk(t).1..]);
        AppendUtf8(Chunk(t).0, Unescape(t[Chunk(t).1..]));
      } else {
        AtAscii(t, 0);
        SkippedBackslash(t);
        UnescapeUtf8(t[1..]);
      }
    }
  }

  lemma {:induction false} EscapeAscii(s: seq<byte>)
    requires IsAscii(s)
    ensures IsAscii(Escape(s))
  {
    if s != [] {
      EscapeAscii(s[1..]);
      assert EscapeItems(s)[1..] == EscapeItems(s[1..]);
      assert IsAscii(PrintItem(EscapeByte(s[0])));
    }
  }

  lemma EscapeCharacter(s: seq<byte>)
    requires ReadUtf8(s).Some?
    ensures IsUtf8(Escape(s[..Width(s)]))
  {
    hide Escape, Width, ReadUtf8;
    FirstCharacter(s);
    var u := s[..Width(s)];
    if s[0] < 0x80 {
      EscapeAscii(u);
      AsciiUtf8(Escape(u));
    } else {
      PlainIsUnescaped(u);
      FirstCharacterUtf8(s);
    }
  }

  lemma {:induction false} EscapeKeeps(s: seq<byte>)
    requires IsUtf8(s)
    ensures IsUtf8(Escape(s))
    decreases |s|
  {
    hide Escape, ReadUtf8, Width;
    if s == [] {
      NothingEscaped();
    } else {
      Unfold(s);
      EscapeCharacter(s);
      EscapeKeeps(s[Width(s)..]);
      EscapeAppend(s[..Width(s)], s[Width(s)..]);
      AppendUtf8(Escape(s[..Width(s)]), Escape(s[Width(s)..]));
    }
  }

  /** What is escaped is text exactly when it was. */
  lemma EscapeUtf8Iff(s: seq<byte>)
    ensures IsUtf8(Escape(s)) <==> IsUtf8(s)
  {
    hide Escape;
    if IsUtf8(s) {
      EscapeKeeps(s);
    } else if IsUtf8(Escape(s)) {
      UnescapeUtf8(Escape(s));
      EscapeRoundTrip(s);
    }
  }

  lemma BetweenAscii(a: seq<byte>, s: seq<byte>, b: seq<byte>)
    requires IsAscii(a) && IsAscii(b)
    ensures IsUtf8(a + (s + b)) <==> IsUtf8(s)
  {
    AsciiInFront(a, s + b);
    AsciiUtf8(b);
    if IsUtf8(s) {
      AppendUtf8(s, b);
    }
    if IsUtf8(s + b) {
      assert (s + b)[..|s|] == s;
      assert b != [] ==> (s + b)[|s|] == b[0];
      CutUtf8Iff(s + b, |s|);
    }
  }

  /** A frame is text exactly when its content is. */
  lemma FrameUtf8Iff(s: seq<byte>)
    ensures IsUtf8(Frame(s)) <==> IsUtf8(s)
  {
    hide Escape;
    var close := FRAME_CLOSE + BLANK_LINE;
    BetweenAscii(FRAME_OPEN, Escape(s), close);
    assert Frame(s) == FRAME_OPEN + (Escape(s) + close);
    EscapeUtf8Iff(s);
  }

  /**
   * The tests of the repository want text in every answer.  The frame `stream_format_sse` makes of a text is one
   * exactly when the text is kept whole or cut between two characters.
   */
  lemma CutFrameUtf8Iff(s: seq<byte>)
    requires IsUtf8(s)
    ensures IsUtf8(Frame(Cut(s))) <==> Cut(s) == s || !IsTrail(s[|Cut(s)|])
  {
    hide Escape, Frame;
    CutUtf8Iff(s, |Cut(s)|);
    FrameUtf8Iff(Cut(s));
  }

  lemma PlainCut(s: seq<byte>)
    requires forall i | 0 <= i < |s| :: IsUnescaped(s[i])
    ensures Cut(s) == if |s| <= ENOUGH then s else s[..ENOUGH]
  {
    hide Escape;
    var n := CutFrom(s, 0);
    PlainIsUnescaped(s[..n]);
    if n > ENOUGH {
      PlainIsUnescaped(s[..ENOUGH]);
      assert false;
    }
  }

  /** So a text with nothing to escape is cut in a character exactly when byte 4089 is in the middle of one, */
  lemma PlainFrameUtf8Iff(s: seq<byte>)
    requires IsUtf8(s) && forall i | 0 <= i < |s| :: IsUnescaped(s[i])
    ensures IsUtf8(Frame(Cut(s))) <==> |s| <= ENOUGH || !IsTrail(s[ENOUGH])
  {
    hide Frame, Cut;
    PlainCut(s);
    CutFrameUtf8Iff(s);
  }

  /** which some character of two bytes can be. */
  lemma CutInside(cp: nat)
    requires 0x80 <= cp < 0x800
    ensures var s := seq(ENOUGH - 1, _ => SPACE) + Utf8(cp); IsUtf8(s) && !IsUtf8(Frame(Cut(s)))
  {
    hide Frame, Cut;
    var front := seq(ENOUGH - 1, _ => SPACE);
    CharacterUtf8(cp);
    AsciiInFront(front, Utf8(cp));
    var s := front + Utf8(cp);
    assert s[ENOUGH] == Utf8(cp)[1];
    PlainFrameUtf8Iff(s);
  }

  // ----- extraction

  lemma {:induction false} ScanEnds(t: seq<byte>)
    ensures ScanLength(t) < |t| ==> t[ScanLength(t)] < 0x80
    decreases |t|
  {
    if t != [] && t[0] != QUOTE && !(t[0] == BACKSLASH && |t| == 1) {
      var k := if t[0] == BACKSLASH && SkipsTwo(t[1]) then 2 else 1;
      ScanEnds(t[k..]);
    }
  }

  lemma BodyUtf8(t: seq<byte>)
    requires IsUtf8(t)
    ensures IsUtf8(ReadBody(t))
  {
    hide Unescape, ScanLength;
    ScanEnds(t);
    CutUtf8Iff(t, ScanLength(t));
    UnescapeUtf8(t[..ScanLength(t)]);
  }

  lemma AfterPattern(data: seq<byte>)
    requires ContentStart(data).Some?
    ensures var k := ContentStart(data).value; k > 0 && data[k - 1] == QUOTE
  {
    var from := IndexOf(data, DELTA_PATTERN).value + |DELTA_PATTERN|;
    var at := IndexOf(data[from..], CONTENT_PATTERN).value;
    assert data[from..][at..at + |CONTENT_PATTERN|] == CONTENT_PATTERN;
    assert CONTENT_PATTERN[|CONTENT_PATTERN| - 1] == QUOTE;
    assert data[from..][at..at + |CONTENT_PATTERN|][|CONTENT_PATTERN| - 1] == data[from + at + |CONTENT_PATTERN| - 1];
  }

  /** What is extracted from a text is text. */
  lemma ExtractUtf8(data: seq<byte>)
    requires IsUtf8(data)
    ensures IsUtf8(Extract(data))
  {
    hide ContentStart, ReadBody;
    if ContentStart(data).Some? {
      var k := ContentStart(data).value;
      AfterPattern(data);
      AtAscii(data, k - 1);
      BodyUtf8(data[k..]);
    }
  }

  // ----- values

  /** Every string of the value is text. */
  predicate TextOnly(j: Json)
    decreases j, 0
  {
    match j
    case Str(s) => IsUtf8(s)
    case Arr(elems) => AllText(elems)
    case Obj(fields) => FieldsText(fields)
  }

  predicate AllText(elems: seq<Json>)
    decreases elems, 1
  {
    elems == [] || (TextOnly(elems[0]) && AllText(elems[1..]))
  }

  predicate FieldsText(fields: seq<Field>)
    decreases fields, 1
  {
    fields == [] || (IsUtf8(fields[0].key) && TextOnly(fields[0].value) && FieldsText(fields[1..]))
  }

  lemma QuotedUtf8(s: seq<byte>)
    requires IsUtf8(s)
    ensures IsUtf8(Quoted(s))
  {
    hide Escape;
    EscapeKeeps(s);
    BetweenAscii([QUOTE], Escape(s), [QUOTE]);
  }

  lemma CommaUtf8(a: seq<byte>, b: seq<byte>)
    requires IsUtf8(a) && IsUtf8(b)
    ensures IsUtf8(a + ([COMMA] + b)) && IsUtf8(a + ([COLON] + b))
  {
    AsciiInFront([COMMA], b);
    AsciiInFront([COLON], b);
    AppendUtf8(a, [COMMA] + b);
    AppendUtf8(a, [COLON] + b);
  }

  /** A value of texts is printed as text. */
  lemma {:induction false} ShowUtf8(j: Json)
    requires TextOnly(j)
    ensures IsUtf8(Show(j))
    decreases j, 0
  {
    hide IsUtf8, Quoted;
    match j {
      case Str(s) =>
        QuotedUtf8(s);
      case Arr(elems) =>
        ShowElemsUtf8(elems);
        BetweenAscii([LBRACKET], ShowElems(elems), [RBRACKET]);
        Assoc([LBRACKET], ShowElems(elems), [RBRACKET]);
      case Obj(fields) =>
        ShowFieldsUtf8(fields);
        BetweenAscii([LBRACE], ShowFields(fields), [RBRACE]);
        Assoc([LBRACE], ShowFields(fields), [RBRACE]);
    }
  }

  lemma {:induction false} ShowElemsUtf8(elems: seq<Json>)
    requires AllText(elems)
    ensures IsUtf8(ShowElems(elems))
    decreases elems, 1
  {
    if elems != [] {
      hide ReadUtf8;
      ShowUtf8(elems[0]);
      ShowElemsUtf8(elems[1..]);
      CommaUtf8(Show(elems[0]), ShowElems(elems[1..]));
    }
  }

  lemma {:induction false} ShowFieldsUtf8(fields: seq<Field>)
    requires FieldsText(fields)
    ensures IsUtf8(ShowFields(fields))
    decreases fields, 1
  {
    if fields != [] {
      hide ReadUtf8, Quoted;
      var f := fields[0];
      QuotedUtf8(f.key);
      ShowUtf8(f.value);
      CommaUtf8(Quoted(f.key), Show(f.value));
      ShowFieldsUtf8(fields[1..]);
      CommaUtf8(ShowField(f), ShowFields(fields[1..]));
    }
  }

  // ----- messages

  /** A text attachment whose text was checked, or a binary one with a type and its base64. */
  predicate TextAttachment(a: Attachment) {
    if a.isText then IsUtf8(a.text) else IsUtf8(a.mime) && IsUtf8(a.base64)
  }

  predicate TextAttachments(atts: Attachments) {
    forall n | n in atts :: TextAttachment(atts[n])
  }

  predicate TextImages(images: seq<Image>) {
    forall i | i in images :: IsUtf8(i.mime) && IsUtf8(i.base64)
  }

  predicate TextPart(p: Part) {
    && IsUtf8(p.text) && IsUtf8(p.ref)
    && (p.attachment.Some? ==> !p.attachment.value.isText && TextAttachment(p.attachment.value))
  }

  predicate TextParts(parts: seq<Part>) {
    forall p | p in parts :: TextPart(p)
  }

  lemma NothingIsUtf8()
    ensures IsUtf8([])
  {
  }

  /** The text around and inside a placeholder, and after it. */
  lemma AroundPlaceholder(text: seq<byte>, open: nat, close: nat)
    requires IsUtf8(text) && open < |text| && text[open] == LBRACE
    requires close < |text[open + 1..]| && text[open + 1..][close] == RBRACE
    ensures var end := open + 1 + close + 1;
            IsUtf8(text[..open]) && IsUtf8(text[open + 1..][..close]) && IsUtf8(text[..end]) && IsUtf8(text[end..])
  {
    hide IsUtf8;
    AtAscii(text, open);
    AtAscii(text[open + 1..], close);
    AtAscii(text, open + 1 + close);
  }

  lemma FirstPartsText(text: seq<byte>, atts: Attachments)
    requires text != [] && IsUtf8(text) && TextAttachments(atts)
    ensures TextParts(FirstParts(text, atts).0) && IsUtf8(text[FirstParts(text, atts).1..])
  {
    hide IsUtf8, IndexByte;
    NothingIsUtf8();
    assert text[|text|..] == [];
    var open := IndexByte(text, LBRACE);
    if open.Some? {
      var close := IndexByte(text[open.value + 1..], RBRACE);
      if close.Some? {
        AroundPlaceholder(text, open.value, close.value);
      }
    }
  }

  lemma {:induction false} ScanText(text: seq<byte>, atts: Attachments)
    requires IsUtf8(text) && TextAttachments(atts)
    ensures TextParts(Scan(text, atts))
    decreases |text|
  {
    if text != [] {
      hide IsUtf8, FirstParts, TextPart;
      FirstPartsText(text, atts);
      ScanText(text[FirstParts(text, atts).1..], atts);
    }
  }

  lemma PartsText(text: seq<byte>, atts: Attachments)
    requires IsUtf8(text) && TextAttachments(atts)
    ensures TextParts(Parts(text, atts))
  {
    NothingIsUtf8();
    ScanText(text, atts);
  }

  predicate TextPiece(p: Piece) {
    match p
    case Text(t) => IsUtf8(t)
    case Binary(mime, base64) => IsUtf8(mime) && IsUtf8(base64)
  }

  predicate TextPieces(pieces: seq<Piece>) {
    forall p | p in pieces :: TextPiece(p)
  }

  lemma InBraces(ref: seq<byte>)
    requires IsUtf8(ref)
    ensures IsUtf8([LBRACE] + ref + [RBRACE])
  {
    BetweenAscii([LBRACE], ref, [RBRACE]);
    Assoc([LBRACE], ref, [RBRACE]);
  }

  lemma BinaryPieceText(mime: seq<byte>, base64: seq<byte>, ref: name, style: Style)
    requires IsUtf8(mime) && IsUtf8(base64) && IsUtf8(ref)
    ensures TextPieces(BinaryPiece(mime, base64, ref, style))
  {
    InBraces(ref);
  }

  lemma {:induction false} NamesText(names: seq<name>, atts: Attachments, style: Style)
    requires TextAttachments(atts) && forall n | n in names :: n in atts
    ensures TextPieces(UnreferencedBinaries(names, atts, style)) && TextPieces(UnreferencedTexts(names, atts))
    ensures IsUtf8(TrailingText(names, atts))
  {
    if names != [] {
      hide IsUtf8, BinaryPiece;
      NothingIsUtf8();
      var before, a := names[..|names| - 1], atts[names[|names| - 1]];
      NamesText(before, atts, style);
      assert TextAttachment(a);
      if a.isText {
        AppendUtf8(TrailingText(before, atts), a.text);
      } else {
        BinaryPieceText(a.mime, a.base64, [], style);
        AppendUtf8(TrailingText(before, atts), []);
      }
    }
  }

  lemma {:induction false} ImagesText(images: seq<Image>, style: Style)
    requires TextImages(images)
    ensures TextPieces(ImagePieces(images, style))
  {
    if images != [] {
      hide IsUtf8, BinaryPiece;
      NothingIsUtf8();
      AsciiUtf8(DEFAULT_MIME);
      var last := images[|images| - 1];
      ImagesText(images[..|images| - 1], style);
      BinaryPieceText(ImageMime(last), last.base64, [], style);
    }
  }

  lemma {:induction false} PromptUtf8(parts: seq<Part>, style: Style)
    requires TextParts(parts)
    ensures TextPieces(PromptPieces(parts, style)) && IsUtf8(PromptText(parts))
  {
    if parts != [] {
      hide IsUtf8, BinaryPiece;
      var before, p := parts[..|parts| - 1], parts[|parts| - 1];
      PromptUtf8(before, style);
      assert TextPart(p);
      if p.attachment.Some? {
        BinaryPieceText(p.attachment.value.mime, p.attachment.value.base64, p.ref, style);
        InBraces(p.ref);
        AppendUtf8(PromptText(before), [LBRACE] + p.ref + [RBRACE]);
      } else {
        AppendUtf8(PromptText(before), p.text);
      }
    }
  }

  lemma {:induction false} MergeText(pieces: seq<Piece>)
    requires TextPieces(pieces)
    ensures TextPieces(MergeAll(pieces).elems) && IsUtf8(MergeAll(pieces).pending)
  {
    if pieces == [] {
      NothingIsUtf8();
    } else {
      hide IsUtf8;
      var before, p := pieces[..|pieces| - 1], pieces[|pieces| - 1];
      MergeText(before);
      assert TextPiece(p);
      NothingIsUtf8();
      if p.Text? {
        AppendUtf8(MergeAll(before).pending, p.text);
      }
    }
  }

  lemma DataUrlUtf8(mime: seq<byte>, base64: seq<byte>)
    requires IsUtf8(mime) && IsUtf8(base64)
    ensures IsUtf8(DataUrl(mime, base64))
  {
    hide IsUtf8;
    AsciiInFront(Ascii("data:"), mime);
    AsciiInFront(Ascii(BASE64_MARK), base64);
    AppendUtf8(Ascii("data:") + mime, Ascii(BASE64_MARK) + base64);
    Assoc(Ascii("data:") + mime, Ascii(BASE64_MARK), base64);
  }

  lemma Label(s: string)
    requires forall i | 0 <= i < |s| :: s[i] as int < 0x80
    ensures IsUtf8(Ascii(s))
  {
    hide IsUtf8;
    AsciiUtf8(Ascii(s));
  }

  lemma OneField(f: Field)
    requires IsUtf8(f.key) && TextOnly(f.value)
    ensures TextOnly(Obj([f]))
  {
    hide IsUtf8;
    assert FieldsText([f][1..]);
    assert FieldsText([f]);
  }

  lemma OneMoreField(f: Field, fields: seq<Field>)
    requires IsUtf8(f.key) && TextOnly(f.value) && TextOnly(Obj(fields))
    ensures TextOnly(Obj([f] + fields))
  {
    hide IsUtf8;
    assert ([f] + fields)[1..] == fields;
  }

  lemma TextJson(t: seq<byte>)
    requires IsUtf8(t)
    ensures TextOnly(Obj([Field(Ascii("type"), Str(Ascii("text"))), Field(Ascii("text"), Str(t))]))
  {
    hide IsUtf8, Ascii;
    Label("type");
    Label("text");
    var kind, f := Field(Ascii("type"), Str(Ascii("text"))), Field(Ascii("text"), Str(t));
    OneField(f);
    OneMoreField(kind, [f]);
    assert [kind] + [f] == [kind, f];
  }

  lemma ImageJson(url: seq<byte>)
    requires IsUtf8(url)
    ensures TextOnly(Obj([Field(Ascii("type"), Str(Ascii("image_url"))),
                          Field(Ascii("image_url"), Obj([Field(Ascii("url"), Str(url))]))]))
  {
    hide IsUtf8, Ascii;
    Label("type");
    Label("image_url");
    Label("url");
    OneField(Field(Ascii("url"), Str(url)));
    var kind := Field(Ascii("type"), Str(Ascii("image_url")));
    var image := Field(Ascii("image_url"), Obj([Field(Ascii("url"), Str(url))]));
    OneField(image);
    OneMoreField(kind, [image]);
    assert [kind] + [image] == [kind, image];
  }

  lemma SourceJson(mime: seq<byte>, base64: seq<byte>)
    requires IsUtf8(mime) && IsUtf8(base64)
    ensures TextOnly(Obj([Field(Ascii("type"), Str(Ascii("base64"))), Field(Ascii("media_type"), Str(mime)),
                          Field(Ascii("data"), Str(base64))]))
  {
    hide IsUtf8, Ascii;
    Label("type");
    Label("base64");
    Label("media_type");
    Label("data");
    var kind, media := Field(Ascii("type"), Str(Ascii("base64"))), Field(Ascii("media_type"), Str(mime));
    var data := Field(Ascii("data"), Str(base64));
    OneField(data);
    OneMoreField(media, [data]);
    OneMoreField(kind, [media] + [data]);
    assert [kind] + ([media] + [data]) == [kind, media, data];
  }

  lemma DocumentJson(source: Json)
    requires TextOnly(source)
    ensures TextOnly(Obj([Field(Ascii("type"), Str(Ascii("document"))), Field(Ascii("source"), source)]))
  {
    hide IsUtf8, Ascii;
    Label("type");
    Label("document");
    Label("source");
    var kind, f := Field(Ascii("type"), Str(Ascii("document"))), Field(Ascii("source"), source);
    OneField(f);
    OneMoreField(kind, [f]);
    assert [kind] + [f] == [kind, f];
  }

  lemma PieceText(p: Piece, style: Style)
    requires TextPiece(p)
    ensures TextOnly(PieceJson(p, style))
  {
    hide IsUtf8, Ascii, TextOnly;
    match p {
      case Text(t) =>
        TextJson(t);
      case Binary(mime, base64) =>
        if style.isImage(mime) {
          DataUrlUtf8(mime, base64);
          ImageJson(DataUrl(mime, base64));
        } else {
          SourceJson(mime, base64);
          DocumentJson(PieceJson(p, style).fields[1].value);
        }
    }
  }

  lemma {:induction false} PiecesText(pieces: seq<Piece>, style: Style)
    requires TextPieces(pieces)
    ensures AllText(PieceJsons(pieces, style))
  {
    if pieces != [] {
      hide PieceJson, TextPiece, TextOnly;
      PieceText(pieces[0], style);
      PiecesText(pieces[1..], style);
      assert PieceJsons(pieces, style)[1..] == PieceJsons(pieces[1..], style);
    }
  }

  lemma MergedText(pieces: seq<Piece>)
    requires TextPieces(pieces)
    ensures TextPieces(Merged(pieces))
  {
    MergeText(pieces);
  }

  /**
   * For a prompt that is text, checked text attachments, and binaries whose types and base64 are text, the content
   * value that is appended is text.
   */
  lemma ContentUtf8(text: seq<byte>, atts: Attachments, names: seq<name>, images: seq<Image>, style: Style)
    requires IsUtf8(text) && TextAttachments(atts) && TextImages(images) && forall n | n in names :: n in atts
    ensures IsUtf8(Show(Content(Parts(text, atts), names, atts, images, style)))
  {
    hide IsUtf8, Parts, TextPiece, Show, HasBinary, Merged, PieceJsons;
    var parts := Parts(text, atts);
    PartsText(text, atts);
    PromptUtf8(parts, style);
    NamesText(names, atts, style);
    if HasBinary(parts, names, atts, images, style) {
      ImagesText(images, style);
      var all := AllPieces(parts, names, atts, images, style);
      MergedText(all);
      PiecesText(Merged(all), style);
    } else {
      AppendUtf8(PromptText(parts), TrailingText(names, atts));
    }
    ShowUtf8(Content(parts, names, atts, images, style));
  }
}
