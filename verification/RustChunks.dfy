/**
 * The Rust mock server's chunk encoder (mock-llm-api/src/patterns.rs) read by the Go daemon:
 * across the two languages' escape rules every Unicode string arrives as its UTF-8 bytes.
 */
module RustChunks {
  import opened Bytes
  import opened JsonString
  import opened GoStrings

  type scalar = c: nat | IsScalar(c)

  /** Rust's `char::is_control`: the Unicode category Cc. */
  predicate IsControl(c: scalar) {
    c <= 0x1F || 0x7F <= c <= 0x9F
  }

  function RawItems(bs: seq<byte>): (r: seq<Item>)
    ensures |r| == |bs| && forall i | 0 <= i < |r| :: r[i] == Raw(bs[i])
  {
    seq(|bs|, i requires 0 <= i < |bs| => Raw(bs[i]))
  }

  function Hex4(c: nat): (h: seq<byte>)
    requires c < 0x10000
    ensures IsHex4(h)
  {
    [HexChar(c / 0x1000), HexChar(c / 0x100 % 0x10), HexChar(c / 0x10 % 0x10), HexChar(c % 0x10)]
  }

  /** What `json_escape` pushes for one character. */
  function EscapeChar(c: scalar): seq<Item> {
    if c == QUOTE || c == BACKSLASH then [Short(c)]
    else if c == LF then [Short(LETTER_N)]
    else if c == CR then [Short(LETTER_R)]
    else if c == TAB then [Short(LETTER_T)]
    else if IsControl(c) then [Unicode(Hex4(c))]
    else RawItems(Utf8(c))
  }

  function EscapeChars(s: seq<scalar>): seq<Item> {
    if s == [] then [] else EscapeChar(s[0]) + EscapeChars(s[1..])
  }

  lemma PrintOne(items: seq<Item>)
    ensures |items| == 1 ==> Print(items) == PrintItem(items[0])
  {
    if |items| == 1 {
      assert Print(items) == PrintItem(items[0]) + Print([]);
    }
  }

  lemma {:induction false} PrintRaw(bs: seq<byte>)
    ensures Print(RawItems(bs)) == bs
  {
    if bs != [] {
      PrintRaw(bs[1..]);
      assert RawItems(bs)[1..] == RawItems(bs[1..]);
      assert bs == [bs[0]] + bs[1..];
    }
  }

  method JsonEscape(s: seq<scalar>) returns (result: seq<byte>)
    ensures result == Print(EscapeChars(s))
  {
    result := [];
    var i := 0;
    while i < |s|
      invariant 0 <= i <= |s|
      invariant result + Print(EscapeChars(s[i..])) == Print(EscapeChars(s))
    {
      var c := s[i];
      var piece: seq<byte>;
      PrintOne(EscapeChar(c));
      if c == QUOTE {
        piece := [BACKSLASH, QUOTE];
      } else if c == BACKSLASH {
        piece := [BACKSLASH, BACKSLASH];
      } else if c == LF {
        piece := [BACKSLASH, LETTER_N];
      } else if c == CR {
        piece := [BACKSLASH, LETTER_R];
      } else if c == TAB {
        piece := [BACKSLASH, LETTER_T];
      } else if IsControl(c) {
        piece := [BACKSLASH, LETTER_U] + Hex4(c);
      } else {
        piece := Utf8(c);
        PrintRaw(piece);
      }
      assert piece == Print(EscapeChar(c));
      assert s[i..][0] == c && s[i..][1..] == s[i + 1..];
      PrintAppend(EscapeChar(c), EscapeChars(s[i + 1..]));
      Assoc(result, piece, Print(EscapeChars(s[i + 1..])));
      result := result + piece;
      i := i + 1;
    }
  }

  function Utf8All(s: seq<scalar>): seq<byte> {
    if s == [] then [] else Utf8(s[0]) + Utf8All(s[1..])
  }

  lemma {:induction false} DecodeRaw(bs: seq<byte>, more: seq<Item>)
    requires ValidItems(RawItems(bs)) && ValidItems(more)
    ensures Decode(RawItems(bs) + more) == bs + Decode(more)
  {
    var items := RawItems(bs) + more;
    if bs == [] {
      assert items == more;
    } else {
      assert RawItems(bs)[1..] == RawItems(bs[1..]);
      assert items[0] == Raw(bs[0]) && items[1..] == RawItems(bs[1..]) + more;
      DecodeRaw(bs[1..], more);
      assert bs == [bs[0]] + bs[1..];
      Assoc([bs[0]], bs[1..], Decode(more));
    }
  }

  lemma Hex4Value(c: nat)
    requires c <= 0x9F
    ensures HexValue(Hex4(c)) == c
  {
  }

  /** Decoding a single item that stands for an ASCII byte or an unpaired code point. */
  lemma DecodeSingle(it: Item, more: seq<Item>)
    requires ValidItem(it) && ValidItems(more)
    requires it.Unicode? ==> IsScalar(HexValue(it.hex))
    ensures var one := if it.Unicode? then Utf8(HexValue(it.hex))
                       else if it.Short? then [ShortMeaning(it.c)] else [it.b];
            Decode([it] + more) == one + Decode(more)
  {
    var items := [it] + more;
    assert items[0] == it && items[1..] == more;
    assert !StartsWithPair(items);
  }

  /** Decoding one escaped character ahead of anything valid gives that character's UTF-8. */
  lemma DecodeEscapedChar(c: scalar, more: seq<Item>)
    requires ValidItems(more)
    ensures ValidItems(EscapeChar(c)) && Decode(EscapeChar(c) + more) == Utf8(c) + Decode(more)
  {
    if c == QUOTE || c == BACKSLASH {
      DecodeSingle(Short(c), more);
    } else if c == LF {
      DecodeSingle(Short(LETTER_N), more);
    } else if c == CR {
      DecodeSingle(Short(LETTER_R), more);
    } else if c == TAB {
      DecodeSingle(Short(LETTER_T), more);
    } else if IsControl(c) {
      Hex4Value(c);
      DecodeSingle(Unicode(Hex4(c)), more);
    } else {
      DecodeRaw(Utf8(c), more);
    }
  }

  lemma {:induction false} DecodeEscapedChars(s: seq<scalar>)
    ensures ValidItems(EscapeChars(s)) && Decode(EscapeChars(s)) == Utf8All(s)
  {
    if s != [] {
      DecodeEscapedChars(s[1..]);
      DecodeEscapedChar(s[0], EscapeChars(s[1..]));
    }
  }

  // ----- make_chunk and the reader of its line

  const DATA_PREFIX: seq<byte> := Ascii("data:")
  const ID_TEXT := "{\"id\":\"chatcmpl-test\","
  const OBJECT_TEXT := "\"object\":\"chat.completion.chunk\","
  const MODEL_TEXT := "\"created\":0,\"model\":\"test-model\","
  const CHOICES_TEXT := "\"choices\":[{\"index\":0,"
  const CHUNK_HEAD: seq<byte> := Ascii(ID_TEXT) + (Ascii(OBJECT_TEXT) + (Ascii(MODEL_TEXT) + Ascii(CHOICES_TEXT)))
  const CHUNK_TAIL: seq<byte> := Ascii("},\"finish_reason\":null}]}")

  /** The chunk's single line, without the blank line that ends the event. */
  function ChunkLine(s: seq<scalar>): seq<byte> {
    var body := Print(EscapeChars(s)) + ([QUOTE] + CHUNK_TAIL);
    DATA_PREFIX + ([SPACE] + (CHUNK_HEAD + (DELTA_PATTERN + (CONTENT_PATTERN + body))))
  }

  method MakeChunk(content: seq<scalar>) returns (chunk: seq<byte>)
    ensures chunk == ChunkLine(content) + [LF, LF]
  {
    var escaped := JsonEscape(content);
    var body := escaped + ([QUOTE] + CHUNK_TAIL);
    chunk := DATA_PREFIX + ([SPACE] + (CHUNK_HEAD + (DELTA_PATTERN + (CONTENT_PATTERN + body))));
    chunk := chunk + [LF, LF];
  }

  /** What the Go loop makes of one non-empty line of the event stream. */
  function ReadLine(line: seq<byte>): seq<byte> {
    if !(DATA_PREFIX <= line) then []
    else
      var data := line[|DATA_PREFIX|..];
      Extract(if [SPACE] <= data then data[1..] else data)
  }

  /** Text that goes in front of the delta pattern: no `"d` pair and no newline. */
  predicate NoDelta(head: seq<byte>) {
    && head != [] && head[|head| - 1] != QUOTE && LF !in head
    && forall i | 0 <= i < |head| - 1 :: !(head[i] == QUOTE && head[i + 1] == 100)
  }

  lemma NoDeltaConcat(a: seq<byte>, b: seq<byte>)
    requires NoDelta(a) && NoDelta(b)
    ensures NoDelta(a + b)
  {
    var s := a + b;
    forall i | 0 <= i < |s| - 1
      ensures !(s[i] == QUOTE && s[i + 1] == 100)
    {
      if i < |a| - 1 {
        assert s[i] == a[i] && s[i + 1] == a[i + 1];
      } else if i >= |a| {
        assert s[i] == b[i - |a|] && s[i + 1] == b[i - |a| + 1];
      }
    }
  }

  predicate TextHasNoDelta(s: string) {
    && s != "" && s[|s| - 1] != '"'
    && (forall i | 0 <= i < |s| :: s[i] != '\n' && s[i] as int < 128)
    && forall i | 0 <= i < |s| - 1 :: s[i] == '"' ==> s[i + 1] != 'd'
  }

  lemma AsciiHasNoDelta(s: string)
    requires TextHasNoDelta(s)
    ensures NoDelta(Ascii(s))
  {
  }

  lemma IdTextHasNoDelta()
    ensures TextHasNoDelta(ID_TEXT) && TextHasNoDelta(CHOICES_TEXT)
  {
  }

  lemma ObjectTextHasNoDelta()
    ensures TextHasNoDelta(OBJECT_TEXT)
  {
  }

  lemma ModelTextHasNoDelta()
    ensures TextHasNoDelta(MODEL_TEXT)
  {
  }

  lemma HeadHasNoDelta()
    ensures NoDelta(CHUNK_HEAD)
  {
    IdTextHasNoDelta();
    ObjectTextHasNoDelta();
    ModelTextHasNoDelta();
    AsciiHasNoDelta(ID_TEXT);
    AsciiHasNoDelta(OBJECT_TEXT);
    AsciiHasNoDelta(MODEL_TEXT);
    AsciiHasNoDelta(CHOICES_TEXT);
    NoDeltaConcat(Ascii(MODEL_TEXT), Ascii(CHOICES_TEXT));
    NoDeltaConcat(Ascii(OBJECT_TEXT), Ascii(MODEL_TEXT) + Ascii(CHOICES_TEXT));
    NoDeltaConcat(Ascii(ID_TEXT), Ascii(OBJECT_TEXT) + (Ascii(MODEL_TEXT) + Ascii(CHOICES_TEXT)));
  }

  lemma FixedTextHasNoNewline()
    ensures LF !in DATA_PREFIX && LF !in DELTA_PATTERN && LF !in CONTENT_PATTERN && LF !in CHUNK_TAIL
  {
  }

  lemma DeltaStart(data: seq<byte>, i: nat)
    ensures OccursAt(data, DELTA_PATTERN, i) ==> data[i] == QUOTE && data[i + 1] == 100
  {
    if OccursAt(data, DELTA_PATTERN, i) {
      var w := data[i..i + |DELTA_PATTERN|];
      assert w[0] == data[i] && w[1] == data[i + 1];
    }
  }

  lemma NoDeltaComesFirst(head: seq<byte>)
    requires NoDelta(head)
    ensures ComesFirst(head, DELTA_PATTERN)
  {
    forall i: nat | i < |head|
      ensures !OccursAt(head + DELTA_PATTERN, DELTA_PATTERN, i)
    {
      DeltaStart(head + DELTA_PATTERN, i);
    }
  }

  lemma ReadLineStrips(data: seq<byte>)
    ensures ReadLine(DATA_PREFIX + ([SPACE] + data)) == Extract(data)
  {
    var line := DATA_PREFIX + ([SPACE] + data);
    assert line[..|DATA_PREFIX|] == DATA_PREFIX;
    assert line[|DATA_PREFIX|..] == [SPACE] + data && ([SPACE] + data)[1..] == data;
  }

  /** The Go reader recovers the UTF-8 bytes of every Unicode string from its chunk. */
  lemma ChunkRoundTrip(s: seq<scalar>)
    ensures ReadLine(ChunkLine(s)) == Utf8All(s)
  {
    DecodeEscapedChars(s);
    HeadHasNoDelta();
    NoDeltaComesFirst(CHUNK_HEAD);
    ExtractBetween(CHUNK_HEAD, [], EscapeChars(s), CHUNK_TAIL);
    var found := CONTENT_PATTERN + (Print(EscapeChars(s)) + ([QUOTE] + CHUNK_TAIL));
    assert [] + found == found;
    ReadLineStrips(CHUNK_HEAD + (DELTA_PATTERN + (CONTENT_PATTERN + (Print(EscapeChars(s)) + ([QUOTE] + CHUNK_TAIL)))));
  }

  lemma NotInConcat(x: byte, a: seq<byte>, b: seq<byte>)
    requires x !in a && x !in b
    ensures x !in a + b
  {
  }

  /** The chunk is one line, so the reader's line splitter hands it over whole. */
  lemma ChunkIsOneLine(s: seq<scalar>)
    ensures LF !in ChunkLine(s)
  {
    DecodeEscapedChars(s);
    NoControlBytes(EscapeChars(s));
    HeadHasNoDelta();
    FixedTextHasNoNewline();
    var head, tail, body := CHUNK_HEAD, CHUNK_TAIL, Print(EscapeChars(s));
    NotInConcat(LF, body, [QUOTE] + tail);
    NotInConcat(LF, CONTENT_PATTERN, body + ([QUOTE] + tail));
    NotInConcat(LF, DELTA_PATTERN, CONTENT_PATTERN + (body + ([QUOTE] + tail)));
    NotInConcat(LF, head, DELTA_PATTERN + (CONTENT_PATTERN + (body + ([QUOTE] + tail))));
  }
}
