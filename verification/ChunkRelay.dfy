/**
 * The Rust mock server's chunks read by the C daemon: which of them it relays, and which texts arrive.
 */
module ChunkRelay {
  import opened Bytes
  import opened JsonString
  import opened GoStrings
  import opened RustChunks
  import opened SseFormat
  import opened SseFrames

  // ----- the content field comes first where it was put

  /** Text without zero bytes in which no field name begins with "co, whatever follows it. */
  predicate NoContent(head: seq<byte>) {
    && NUL !in head && head != [] && head[|head| - 1] != QUOTE && head[|head| - 1] != 99
    && forall i | 0 <= i < |head| - 2 :: !(head[i] == QUOTE && head[i + 1] == 99 && head[i + 2] == 111)
  }

  lemma NoContentConcat(a: seq<byte>, b: seq<byte>)
    requires NoContent(a) && NoContent(b)
    ensures NoContent(a + b)
  {
    var s := a + b;
    forall i | 0 <= i < |s| - 2
      ensures !(s[i] == QUOTE && s[i + 1] == 99 && s[i + 2] == 111)
    {
      if i < |a| - 2 {
        assert s[i] == a[i] && s[i + 1] == a[i + 1] && s[i + 2] == a[i + 2];
      } else if i >= |a| {
        assert s[i] == b[i - |a|] && s[i + 1] == b[i - |a| + 1] && s[i + 2] == b[i - |a| + 2];
      }
    }
  }

  predicate TextHasNoContent(s: string) {
    && s != "" && s[|s| - 1] != '"' && s[|s| - 1] != 'c' && (forall i | 0 <= i < |s| :: 0 < s[i] as int < 128)
    && forall i | 0 <= i < |s| - 2 :: s[i] == '"' && s[i + 1] == 'c' ==> s[i + 2] != 'o'
  }

  lemma AsciiHasNoContent(s: string)
    requires TextHasNoContent(s)
    ensures NoContent(Ascii(s))
  {
  }

  lemma IdText()
    ensures TextHasNoContent(ID_TEXT)
  {
  }

  lemma ObjectText()
    ensures TextHasNoContent(OBJECT_TEXT)
  {
  }

  lemma ModelText()
    ensures TextHasNoContent(MODEL_TEXT)
  {
  }

  lemma ChoicesText()
    ensures TextHasNoContent(CHOICES_TEXT) && TextHasNoContent("\"delta\":{")
  {
  }

  const FIELD_HEAD: seq<byte> := CHUNK_HEAD + DELTA_PATTERN

  lemma HeadHasNoContent()
    ensures NoContent(FIELD_HEAD)
  {
    hide Ascii;
    IdText();
    ObjectText();
    ModelText();
    ChoicesText();
    AsciiHasNoContent(ID_TEXT);
    AsciiHasNoContent(OBJECT_TEXT);
    AsciiHasNoContent(MODEL_TEXT);
    AsciiHasNoContent(CHOICES_TEXT);
    AsciiHasNoContent("\"delta\":{");
    NoContentConcat(Ascii(MODEL_TEXT), Ascii(CHOICES_TEXT));
    NoContentConcat(Ascii(OBJECT_TEXT), Ascii(MODEL_TEXT) + Ascii(CHOICES_TEXT));
    NoContentConcat(Ascii(ID_TEXT), Ascii(OBJECT_TEXT) + (Ascii(MODEL_TEXT) + Ascii(CHOICES_TEXT)));
    NoContentConcat(CHUNK_HEAD, DELTA_PATTERN);
  }

  lemma ContentStartsCo(data: seq<byte>, i: nat)
    ensures OccursAt(data, CONTENT_PATTERN, i) ==>
              i + 2 < |data| && data[i] == QUOTE && data[i + 1] == 99 && data[i + 2] == 111
  {
    if OccursAt(data, CONTENT_PATTERN, i) {
      var w := data[i..i + |CONTENT_PATTERN|];
      assert w[0] == data[i] && w[1] == data[i + 1] && w[2] == data[i + 2];
    }
  }

  lemma NoContentComesFirst(head: seq<byte>)
    requires NoContent(head)
    ensures ComesFirst(head, CONTENT_PATTERN)
  {
    forall i: nat | i < |head|
      ensures !OccursAt(head + CONTENT_PATTERN, CONTENT_PATTERN, i)
    {
      ContentStartsCo(head + CONTENT_PATTERN, i);
    }
  }

  lemma ChunkHasField(s: seq<scalar>)
    ensures HasField(ChunkLine(s), FIELD_HEAD, Print(EscapeChars(s)) + ([QUOTE] + CHUNK_TAIL))
  {
    hide Print, EscapeChars, ComesFirst, NoContent;
    var body := Print(EscapeChars(s)) + ([QUOTE] + CHUNK_TAIL);
    HeadHasNoContent();
    NoContentComesFirst(FIELD_HEAD);
    Assoc(CHUNK_HEAD, DELTA_PATTERN, CONTENT_PATTERN + body);
    assert DATA == DATA_PREFIX + [SPACE];
    Assoc(DATA_PREFIX, [SPACE], FIELD_HEAD + (CONTENT_PATTERN + body));
    assert FIELD_HEAD[0] == LBRACE != DONE[0];
  }

  // ----- what the C decoder makes of the Rust escapes

  /** A character that Rust does not write as \u, or that is not one of the newline, carriage return and tab. */
  predicate Plain(c: scalar) {
    !IsControl(c) || c == LF || c == CR || c == TAB
  }

  lemma CharDecodes(c: scalar, t: seq<byte>)
    ensures var d := CDecode(Print(EscapeChar(c)) + t);
            if Plain(c) then d == Utf8(c) + CDecode(t) else d != [] && Utf8(c) != [] && d[0] != Utf8(c)[0]
  {
    hide CDecode;
    PrintOne(EscapeChar(c));
    if EscapeChar(c)[0].Raw? {
      PrintRaw(Utf8(c));
      Copied(Utf8(c), t);
    } else {
      ItemDecodes(EscapeChar(c)[0], t);
    }
  }

  lemma NextChar(s: seq<scalar>, tail: seq<byte>)
    requires s != []
    ensures Print(EscapeChars(s)) + tail == Print(EscapeChar(s[0])) + (Print(EscapeChars(s[1..])) + tail)
  {
    PrintAppend(EscapeChar(s[0]), EscapeChars(s[1..]));
    Assoc(Print(EscapeChar(s[0])), Print(EscapeChars(s[1..])), tail);
  }

  lemma {:induction false} CharsDecode(s: seq<scalar>, rest: seq<byte>)
    requires forall c | c in s :: Plain(c)
    ensures CDecode(Print(EscapeChars(s)) + ([QUOTE] + rest)) == Utf8All(s)
  {
    hide CDecode, EscapeChar, Utf8;
    if s == [] {
      NothingToDecode(rest);
    } else {
      NextChar(s, [QUOTE] + rest);
      CharDecodes(s[0], Print(EscapeChars(s[1..])) + ([QUOTE] + rest));
      CharsDecode(s[1..], rest);
    }
  }

  /** Any other control character shows: what the daemon reads differs at that character. */
  lemma {:induction false} CharsDiffer(s: seq<scalar>, rest: seq<byte>) returns (p: nat)
    requires exists c | c in s :: !Plain(c)
    ensures var d := CDecode(Print(EscapeChars(s)) + ([QUOTE] + rest));
            p < |d| && p < |Utf8All(s)| && d[p] != Utf8All(s)[p]
  {
    hide CDecode, EscapeChar, Utf8;
    NextChar(s, [QUOTE] + rest);
    CharDecodes(s[0], Print(EscapeChars(s[1..])) + ([QUOTE] + rest));
    if Plain(s[0]) {
      p := CharsDiffer(s[1..], rest);
      p := |Utf8(s[0])| + p;
    } else {
      p := 0;
    }
  }

  lemma TextNotEmpty(s: seq<scalar>)
    ensures Utf8All(s) == [] <==> s == []
  {
  }

  /**
   * Exactly the Unicode strings that the C daemon takes out of their chunk as they are: not empty, of at most 4095
   * bytes, and with no control character but newline, carriage return and tab.
   */
  lemma ChunkArrivesIff(s: seq<scalar>)
    ensures SseContent(ChunkLine(s)) == Some(Utf8All(s)) <==>
            s != [] && |Utf8All(s)| <= CONTENT_MAX && forall c | c in s :: Plain(c)
  {
    hide CDecode, Utf8All, EscapeChars, Plain, ChunkLine;
    var body := Print(EscapeChars(s)) + ([QUOTE] + CHUNK_TAIL);
    ChunkHasField(s);
    ContentThere(ChunkLine(s), FIELD_HEAD, body);
    TextNotEmpty(s);
    if forall c | c in s :: Plain(c) {
      CharsDecode(s, CHUNK_TAIL);
    } else {
      var p := CharsDiffer(s, CHUNK_TAIL);
      assert p < |Clip(CDecode(body))| ==> Clip(CDecode(body))[p] != Utf8All(s)[p];
    }
  }

  lemma FixedTextIsPlain()
    ensures NUL !in DATA_PREFIX + [SPACE] && NUL !in CONTENT_PATTERN && NUL !in [QUOTE] + CHUNK_TAIL
  {
  }

  lemma HeadIsPlain(head: seq<byte>)
    requires NoContent(head)
    ensures NUL !in head
  {
  }

  lemma DataPrefix()
    ensures DATA == DATA_PREFIX + [SPACE]
  {
  }

  lemma ChunkIsPlain(s: seq<scalar>)
    ensures NUL !in ChunkLine(s)
  {
    hide Ascii, NoContent;
    var body := Print(EscapeChars(s)) + ([QUOTE] + CHUNK_TAIL);
    ChunkHasField(s);
    HeadHasNoContent();
    HeadIsPlain(FIELD_HEAD);
    FixedTextIsPlain();
    DecodeEscapedChars(s);
    NoControlBytes(EscapeChars(s));
    NotInConcat(NUL, Print(EscapeChars(s)), [QUOTE] + CHUNK_TAIL);
    NotInConcat(NUL, CONTENT_PATTERN, body);
    NotInConcat(NUL, FIELD_HEAD, CONTENT_PATTERN + body);
    assert DATA == DATA_PREFIX + [SPACE] by { DataPrefix(); }
    NotInConcat(NUL, DATA, FIELD_HEAD + (CONTENT_PATTERN + body));
  }

  /** Such a string is relayed, in the frame of what one frame holds of it. */
  method RelayChunk(s: seq<scalar>) returns (frame: Option<seq<byte>>)
    requires s != [] && |Utf8All(s)| <= CONTENT_MAX && forall c | c in s :: Plain(c)
    ensures frame == Some(Frame(Cut(Utf8All(s))))
  {
    hide Utf8All, ChunkLine, Plain;
    ChunkArrivesIff(s);
    ChunkIsPlain(s);
    frame := ProcessSseLine(ChunkLine(s));
  }
}
