/**
 * The io_uring daemon's bounded frame encoder (streaming.c) and the decoder of upstream lines
 * (curl_manager.c): what one call keeps of a text, and which texts survive both.
 */
module SseFormat {
  import opened Bytes
  import opened JsonString
  import opened GoStrings
  import opened SseFrames
  import opened LineAssembly

  const SCRATCH: nat := 4096
  const ENOUGH: nat := SCRATCH - 1 - 6  // escaped bytes after which no further byte is taken
  const RELAY_BUFFER: nat := 8192

  // ----- stream_format_sse

  /** How much of the text is escaped: up to the first point where the scratch buffer is nearly full. */
  function CutFrom(s: seq<byte>, k: nat): (n: nat)
    requires k <= |s|
    ensures k <= n <= |s| && (n == |s| || |Escape(s[..n])| >= ENOUGH)
    ensures forall j | k <= j < n :: |Escape(s[..j])| < ENOUGH
    decreases |s| - k
  {
    if k == |s| || |Escape(s[..k])| >= ENOUGH then k else CutFrom(s, k + 1)
  }

  function Cut(s: seq<byte>): seq<byte> {
    s[..CutFrom(s, 0)]
  }

  lemma {:induction false} EscapeGrows(s: seq<byte>)
    ensures |Escape(s)| >= |s|
  {
    if s != [] {
      EscapeGrows(s[1..]);
      assert EscapeItems(s)[1..] == EscapeItems(s[1..]);
      assert |PrintItem(EscapeByte(s[0]))| >= 1;
    }
  }

  lemma LongerEscape(a: seq<byte>, b: seq<byte>)
    ensures |Escape(a + b)| == |Escape(a)| + |Escape(b)| && |Escape(b)| >= |b|
  {
    EscapeAppend(a, b);
    EscapeGrows(b);
  }

  /** The whole text is kept exactly when all of it but the last byte fits. */
  lemma WholeIff(s: seq<byte>)
    ensures Cut(s) == s <==> s == [] || |Escape(s[..|s| - 1])| < ENOUGH
    ensures |Escape(s)| <= ENOUGH ==> Cut(s) == s
  {
    if s != [] {
      var n, last := CutFrom(s, 0), s[..|s| - 1];
      assert s == last + [s[|s| - 1]];
      LongerEscape(last, [s[|s| - 1]]);
      if n < |s| {
        assert last == s[..n] + s[n..|s| - 1];
        LongerEscape(s[..n], s[n..|s| - 1]);
      }
    }
  }

  /** The scratch buffer is never overrun, and the frame of a relayed line always fits its buffer. */
  lemma CutFits(s: seq<byte>)
    ensures |Escape(Cut(s))| <= SCRATCH - 2 && |Frame(Cut(s))| == |Escape(Cut(s))| + 22 < RELAY_BUFFER
  {
    var n := CutFrom(s, 0);
    if n > 0 {
      assert s[..n] == s[..n - 1] + [s[n - 1]];
      EscapeSnoc(s[..n - 1], s[n - 1]);
      assert |PrintItem(EscapeByte(s[n - 1]))| <= 6;
    }
  }

  /** Writes one escaped byte at `out`. */
  method PutEscaped(escaped: array<byte>, out: nat, c: byte) returns (width: nat)
    requires out + 6 <= escaped.Length
    modifies escaped
    ensures width == |PrintItem(EscapeByte(c))| <= 6
    ensures escaped[..out + width] == old(escaped[..out]) + PrintItem(EscapeByte(c))
  {
    if c == QUOTE || c == BACKSLASH {
      escaped[out], escaped[out + 1] := BACKSLASH, c;
      width := 2;
    } else if c == LF {
      escaped[out], escaped[out + 1] := BACKSLASH, LETTER_N;
      width := 2;
    } else if c == CR {
      escaped[out], escaped[out + 1] := BACKSLASH, LETTER_R;
      width := 2;
    } else if c == TAB {
      escaped[out], escaped[out + 1] := BACKSLASH, LETTER_T;
      width := 2;
    } else if c < 32 {
      escaped[out], escaped[out + 1], escaped[out + 2] := BACKSLASH, LETTER_U, ZERO;
      escaped[out + 3], escaped[out + 4], escaped[out + 5] := ZERO, HexChar(c / 16), HexChar(c % 16);
      width := 6;
    } else {
      escaped[out] := c;
      width := 1;
    }
  }

  lemma NothingEscaped()
    ensures Escape([]) == []
  {
  }

  /** `stream_format_sse`: the frame of the part that was cut, or -1 when it does not fit the buffer. */
  method FormatSse(content: seq<byte>, bufLen: nat) returns (n: int, buf: seq<byte>)
    requires NUL !in content
    ensures n == -1 <==> |Frame(Cut(content))| >= bufLen
    ensures n != -1 ==> buf == Frame(Cut(content)) && n == |buf|
  {
    hide Escape;
    var escaped := new byte[SCRATCH](_ => NUL);
    var out, remaining, i := 0, SCRATCH - 1, 0;
    NothingEscaped();
    while i < |content| && remaining > 6
      invariant i <= |content| && 0 <= out && 0 <= remaining && out + remaining == SCRATCH - 1
      invariant escaped[..out] == Escape(content[..i])
      invariant CutFrom(content, 0) == CutFrom(content, i)
    {
      var width := PutEscaped(escaped, out, content[i]);
      EscapeSnoc(content[..i], content[i]);
      assert content[..i] + [content[i]] == content[..i + 1];
      out := out + width;
      remaining := remaining - width;
      i := i + 1;
    }
    buf := FRAME_OPEN + escaped[..out] + FRAME_CLOSE + BLANK_LINE;
    n := if |buf| >= bufLen then -1 else |buf|;
  }

  // ----- process_sse_line

  const DATA: seq<byte> := Ascii("data: ")
  const DONE: seq<byte> := Ascii("[DONE]")
  const CONTENT_MAX: nat := 4095

  /** The meaning the C decoder gives to the byte after a backslash. */
  function Meaning(c: byte): byte {
    if c == LETTER_N then LF else if c == LETTER_R then CR else if c == LETTER_T then TAB else c
  }

  /** The C decoder, without its length limit. */
  function CDecode(t: seq<byte>): (r: seq<byte>)
    ensures NUL !in t ==> NUL !in r
    decreases |t|
  {
    if t == [] || t[0] == QUOTE then []
    else if t[0] == BACKSLASH && |t| > 1 then [Meaning(t[1])] + CDecode(t[2..])
    else [t[0]] + CDecode(t[1..])
  }

  function Clip(s: seq<byte>): seq<byte> {
    if |s| <= CONTENT_MAX then s else s[..CONTENT_MAX]
  }

  method DecodeContent(t: seq<byte>) returns (r: seq<byte>)
    requires NUL !in t
    ensures r == Clip(CDecode(t))
  {
    var content := new byte[CONTENT_MAX + 1](_ => NUL);
    var i, k := 0, 0;
    while k < |t| && t[k] != QUOTE && i < CONTENT_MAX
      invariant k <= |t| && i <= CONTENT_MAX
      invariant CDecode(t) == content[..i] + CDecode(t[k..])
      decreases |t| - k
    {
      ghost var before, rest := content[..i], t[k..];
      if t[k] == BACKSLASH && k + 1 < |t| {
        k := k + 1;
        content[i] := Meaning(t[k]);
        assert rest[2..] == t[k + 1..];
      } else {
        content[i] := t[k];
        assert rest[1..] == t[k + 1..];
      }
      i := i + 1;
      k := k + 1;
      assert content[..i] == before + [content[i - 1]];
      Assoc(before, [content[i - 1]], CDecode(t[k..]));
    }
    content[i] := NUL;
    r := content[..i];
  }

  /** The text a line carries, if it is a data line with a non-empty content. */
  function SseContent(line: seq<byte>): Option<seq<byte>> {
    if !(DATA <= line) then None
    else
      var json := line[|DATA|..];
      if DONE <= json then None
      else
        match IndexOf(json, CONTENT_PATTERN)
        case None => None
        case Some(k) =>
          var content := Clip(CDecode(json[k + |CONTENT_PATTERN|..]));
          if content == [] then None else Some(content)
  }

  // ----- which texts the decoder recovers

  predicate CleanByte(b: byte) {
    b >= 0x20 || b == LF || b == CR || b == TAB
  }

  /** No control byte other than newline, carriage return and tab. */
  predicate Clean(s: seq<byte>) {
    forall b | b in s :: CleanByte(b)
  }

  lemma DecodeStep(c: byte, t: seq<byte>)
    ensures CleanByte(c) ==> CDecode(PrintItem(EscapeByte(c)) + t) == [c] + CDecode(t)
    ensures !CleanByte(c) ==>
              var d := CDecode(PrintItem(EscapeByte(c)) + t); d != [] && d[0] == LETTER_U
  {
    var p := PrintItem(EscapeByte(c));
    if p[0] == BACKSLASH {
      assert (p + t)[0] == BACKSLASH && (p + t)[1] == p[1];
      assert CDecode(p + t) == [Meaning(p[1])] + CDecode((p + t)[2..]);
      assert CleanByte(c) ==> (p + t)[2..] == t;
    } else {
      assert p == [c] && (p + t)[1..] == t;
    }
  }

  /** One escaped byte in front of an escaped text. */
  lemma EscapedFirst(s: seq<byte>, rest: seq<byte>)
    requires s != []
    ensures Escape(s) + rest == PrintItem(EscapeByte(s[0])) + (Escape(s[1..]) + rest)
  {
    assert EscapeItems(s)[1..] == EscapeItems(s[1..]);
    Assoc(PrintItem(EscapeByte(s[0])), Escape(s[1..]), rest);
  }

  lemma {:induction false} DecodesClean(s: seq<byte>, rest: seq<byte>)
    requires Clean(s)
    ensures CDecode(Escape(s) + ([QUOTE] + rest)) == s
  {
    hide Escape;
    if s == [] {
      NothingEscaped();
      assert [] + ([QUOTE] + rest) == [QUOTE] + rest;
    } else {
      EscapedFirst(s, [QUOTE] + rest);
      DecodeStep(s[0], Escape(s[1..]) + ([QUOTE] + rest));
      DecodesClean(s[1..], rest);
    }
  }

  /** An unclean text comes back wrong: the decoder turns the escape of its first unclean byte into a letter. */
  lemma {:induction false} DecodesUnclean(s: seq<byte>, rest: seq<byte>) returns (p: nat)
    requires !Clean(s)
    ensures p < |s| && var d := CDecode(Escape(s) + ([QUOTE] + rest)); p < |d| && d[p] != s[p]
  {
    hide Escape;
    EscapedFirst(s, [QUOTE] + rest);
    DecodeStep(s[0], Escape(s[1..]) + ([QUOTE] + rest));
    if CleanByte(s[0]) {
      p := DecodesUnclean(s[1..], rest);
      p := p + 1;
    } else {
      p := 0;
    }
  }

  /** An item the C decoder reads as RFC 8259 does: not \b, \f or \u. */
  predicate Understood(it: Item) {
    it.Raw? || (it.Short? && it.c != LETTER_B && it.c != LETTER_F)
  }

  lemma CopiedByte(b: byte, t: seq<byte>)
    requires b != QUOTE && b != BACKSLASH
    ensures CDecode([b] + t) == [b] + CDecode(t)
  {
    assert ([b] + t)[1..] == t;
  }

  lemma {:induction false} Copied(bs: seq<byte>, t: seq<byte>)
    requires forall k | 0 <= k < |bs| :: bs[k] != QUOTE && bs[k] != BACKSLASH
    ensures CDecode(bs + t) == bs + CDecode(t)
  {
    if bs == [] {
      assert bs + t == t;
    } else {
      hide CDecode;
      Copied(bs[1..], t);
      CopiedByte(bs[0], bs[1..] + t);
      assert bs == [bs[0]] + bs[1..];
      Assoc([bs[0]], bs[1..], t);
      Assoc([bs[0]], bs[1..], CDecode(t));
    }
  }

  lemma Escaped(c: byte, t: seq<byte>)
    ensures CDecode([BACKSLASH, c] + t) == [Meaning(c)] + CDecode(t)
  {
    assert ([BACKSLASH, c] + t)[2..] == t;
  }

  /** What the C decoder makes of one item: of \u the letter and its digits. */
  function ReadAs(it: Item): seq<byte> {
    match it
    case Raw(b) => [b]
    case Short(c) => [if Understood(it) then ShortMeaning(c) else c]
    case Unicode(h) => [LETTER_U] + h
  }

  lemma ItemDecodes(it: Item, t: seq<byte>)
    requires ValidItem(it)
    ensures CDecode(PrintItem(it) + t) == ReadAs(it) + CDecode(t)
  {
    hide CDecode;
    match it {
      case Raw(b) => CopiedByte(b, t);
      case Short(c) => Escaped(c, t);
      case Unicode(h) =>
        Assoc([BACKSLASH, LETTER_U], h, t);
        Escaped(LETTER_U, h + t);
        Copied(h, t);
    }
  }

  lemma FirstDecodes(items: seq<Item>, rest: seq<byte>)
    requires ValidItems(items) && items != []
    ensures CDecode(Print(items) + ([QUOTE] + rest))
            == ReadAs(items[0]) + CDecode(Print(items[1..]) + ([QUOTE] + rest))
  {
    hide CDecode;
    var tail := Print(items[1..]) + ([QUOTE] + rest);
    ItemDecodes(items[0], tail);
    Assoc(PrintItem(items[0]), Print(items[1..]), [QUOTE] + rest);
  }

  lemma NothingToDecode(rest: seq<byte>)
    ensures CDecode(Print([]) + ([QUOTE] + rest)) == []
  {
    assert Print([]) + ([QUOTE] + rest) == [QUOTE] + rest;
  }

  lemma Utf8Short(cp: nat)
    requires IsScalar(cp)
    ensures 1 <= |Utf8(cp)| <= 4
  {
  }

  /** The decoder never says less than RFC 8259 does, and says more of every \u. */
  lemma {:induction false} DecodeLength(items: seq<Item>, rest: seq<byte>)
    requires ValidItems(items)
    ensures |CDecode(Print(items) + ([QUOTE] + rest))| >= |Decode(items)|
    ensures items != [] && items[0].Unicode? ==> |CDecode(Print(items) + ([QUOTE] + rest))| > |Decode(items)|
    decreases |items|
  {
    hide CDecode, Utf8, Combine, Print;
    if items == [] {
      NothingToDecode(rest);
    } else {
      FirstDecodes(items, rest);
      DecodeLength(items[1..], rest);
      if StartsWithPair(items) {
        FirstDecodes(items[1..], rest);
        assert items[1..][1..] == items[2..];
        DecodeLength(items[2..], rest);
        Utf8Short(Combine(HexValue(items[0].hex), HexValue(items[1].hex)));
      } else if items[0].Unicode? {
        Utf8Short(if IsScalar(HexValue(items[0].hex)) then HexValue(items[0].hex) else REPLACEMENT);
      }
    }
  }

  lemma SameFirst(x: byte, y: byte, a: seq<byte>, b: seq<byte>)
    ensures [x] + a == [y] + b <==> x == y && a == b
  {
    assert ([x] + a)[0] == x && ([x] + a)[1..] == a && ([y] + b)[0] == y && ([y] + b)[1..] == b;
  }

  /** Exactly the string bodies that the C decoder reads as RFC 8259 does: those without \b, \f and \u. */
  lemma {:induction false} DecodesAlikeIff(items: seq<Item>, rest: seq<byte>)
    requires ValidItems(items)
    ensures CDecode(Print(items) + ([QUOTE] + rest)) == Decode(items) <==> forall it | it in items :: Understood(it)
  {
    hide CDecode, Print;
    if items == [] {
      NothingToDecode(rest);
    } else {
      assert forall it | it in items :: it == items[0] || it in items[1..];
      if items[0].Unicode? {
        DecodeLength(items, rest);
        assert !Understood(items[0]);
      } else {
        FirstDecodes(items, rest);
        DecodesAlikeIff(items[1..], rest);
        assert forall it | it in items[1..] :: it in items;
        var c := if items[0].Raw? then items[0].b else ShortMeaning(items[0].c);
        assert Decode(items) == [c] + Decode(items[1..]);
        SameFirst(ReadAs(items[0])[0], c, CDecode(Print(items[1..]) + ([QUOTE] + rest)), Decode(items[1..]));
      }
    }
  }

  // ----- which lines are relayed

  /** A data line that is not the end marker, with a content field behind `head`, where it is found first. */
  ghost predicate HasField(line: seq<byte>, head: seq<byte>, body: seq<byte>) {
    line == DATA + (head + (CONTENT_PATTERN + body)) && ComesFirst(head, CONTENT_PATTERN) && !(DONE <= head)
  }

  lemma ContentThere(line: seq<byte>, head: seq<byte>, body: seq<byte>)
    requires HasField(line, head, body)
    ensures var content := Clip(CDecode(body)); SseContent(line) == if content == [] then None else Some(content)
  {
    hide CDecode, IndexOf, OccursAt, ComesFirst, Clip;
    var json := head + (CONTENT_PATTERN + body);
    assert line[|DATA|..] == json;
    FoundAt(head, CONTENT_PATTERN, body);
    assert json[..|head|] == head && json[|head|] == CONTENT_PATTERN[0] == QUOTE;
    assert forall k | 0 <= k < |DONE| :: DONE[k] != QUOTE;
    assert !(DONE <= json);
  }

  /** The field of a line carries the escape of a text, whatever stands around it. */
  ghost predicate Carries(line: seq<byte>, head: seq<byte>, s: seq<byte>, tail: seq<byte>) {
    HasField(line, head, Escape(s) + ([QUOTE] + tail)) && s != [] && Clean(s)
  }

  lemma ContentCarried(line: seq<byte>, head: seq<byte>, s: seq<byte>, tail: seq<byte>)
    requires Carries(line, head, s, tail)
    ensures SseContent(line) == Some(Clip(s))
  {
    hide CDecode, Escape, SseContent;
    ContentThere(line, head, Escape(s) + ([QUOTE] + tail));
    DecodesClean(s, tail);
  }

  /** The four kinds of line that carry nothing. */
  ghost predicate Empty(line: seq<byte>) {
    || !(DATA <= line)
    || DATA + DONE <= line
    || Absent(line[|DATA|..], CONTENT_PATTERN)
    || exists head, body :: HasField(line, head, body) && (body == [] || body[0] == QUOTE)
  }

  lemma DoneLine(line: seq<byte>)
    requires DATA <= line
    ensures DATA + DONE <= line <==> DONE <= line[|DATA|..]
  {
    assert line == DATA + line[|DATA|..];
    if DONE <= line[|DATA|..] {
      assert line[|DATA|..][..|DONE|] == DONE;
      assert line[..|DATA| + |DONE|] == DATA + DONE;
    }
    if DATA + DONE <= line {
      assert line[|DATA|..][..|DONE|] == (DATA + DONE)[|DATA|..];
    }
  }

  /** Where the field of a line with one is. */
  lemma FieldAt(line: seq<byte>, k: nat) returns (head: seq<byte>, body: seq<byte>)
    requires DATA <= line && !(DATA + DONE <= line) && IndexOf(line[|DATA|..], CONTENT_PATTERN) == Some(k)
    ensures HasField(line, head, body)
  {
    hide IndexOf;
    var json := line[|DATA|..];
    head, body := json[..k], json[k + |CONTENT_PATTERN|..];
    assert json == head + (CONTENT_PATTERN + body);
    assert line == DATA + json;
    forall i: nat | i < |head|
      ensures !OccursAt(head + CONTENT_PATTERN, CONTENT_PATTERN, i)
    {
      assert (head + CONTENT_PATTERN)[i..i + |CONTENT_PATTERN|] == json[i..i + |CONTENT_PATTERN|];
      assert !OccursAt(json, CONTENT_PATTERN, i);
    }
    DoneLine(line);
  }

  lemma NothingDecoded(body: seq<byte>)
    ensures Clip(CDecode(body)) == [] <==> body == [] || body[0] == QUOTE
  {
  }

  /** Exactly those lines are not relayed. */
  lemma EmptyIff(line: seq<byte>)
    ensures SseContent(line) == None <==> Empty(line)
  {
    hide CDecode, IndexOf, Clip;
    if DATA <= line {
      DoneLine(line);
      if !(DATA + DONE <= line) {
        var at := IndexOf(line[|DATA|..], CONTENT_PATTERN);
        if at.Some? {
          assert OccursAt(line[|DATA|..], CONTENT_PATTERN, at.value);
          var head, body := FieldAt(line, at.value);
          ContentThere(line, head, body);
          NothingDecoded(body);
        }
        if head, body :| HasField(line, head, body) && (body == [] || body[0] == QUOTE) {
          ContentThere(line, head, body);
          NothingDecoded(body);
        }
      }
    }
  }

  /** `process_sse_line`, up to queueing: the frame to send to the client, if any. */
  method ProcessSseLine(line: seq<byte>) returns (frame: Option<seq<byte>>)
    requires NUL !in line
    ensures frame == match SseContent(line) case None => None case Some(text) => Some(Frame(Cut(text)))
    ensures frame == None <==> Empty(line)
    ensures forall head, s, tail | Carries(line, head, s, tail) :: frame == Some(Frame(Cut(Clip(s))))
  {
    hide CDecode, Frame, Cut, Empty, Carries;
    EmptyIff(line);
    forall head, s, tail | Carries(line, head, s, tail)
      ensures SseContent(line) == Some(Clip(s))
    {
      ContentCarried(line, head, s, tail);
    }
    if !(DATA <= line) {
      return None;
    }
    var json := line[|DATA|..];
    if DONE <= json {
      return None;
    }
    var at := IndexOf(json, CONTENT_PATTERN);
    if at.None? {
      return None;
    }
    var content := DecodeContent(json[at.value + |CONTENT_PATTERN|..]);
    if content == [] {
      return None;
    }
    CutFits(content);
    var n, buf := FormatSse(content, RELAY_BUFFER);
    return Some(buf);
  }

  // ----- both together

  /** The line a client of `FormatSse` sees, without the blank line that ends the frame. */
  function FrameLine(text: seq<byte>): seq<byte> {
    FRAME_OPEN + Escape(text) + FRAME_CLOSE
  }

  /** Where the decoder starts reading a frame's line. */
  lemma FrameHasField(text: seq<byte>)
    ensures HasField(FrameLine(text), [LBRACE], Escape(text) + ([QUOTE] + [RBRACE]))
  {
    hide Escape;
    var tail := Escape(text) + ([QUOTE] + [RBRACE]);
    assert FRAME_OPEN == DATA + ([LBRACE] + CONTENT_PATTERN);
    assert FrameLine(text) == DATA + ([LBRACE] + (CONTENT_PATTERN + tail));
    assert !OccursAt([LBRACE] + CONTENT_PATTERN, CONTENT_PATTERN, 0) by {
      assert ([LBRACE] + CONTENT_PATTERN)[0..|CONTENT_PATTERN|][0] == LBRACE != CONTENT_PATTERN[0];
    }
  }

  /**
   * Exactly the texts that come back from a round trip through both: not empty, short enough to be
   * kept whole, and with no control byte but newline, carriage return and tab.
   */
  lemma RoundTripIff(s: seq<byte>)
    ensures SseContent(FrameLine(Cut(s))) == Some(s) <==> s != [] && Cut(s) == s && Clean(s)
  {
    hide CDecode, Escape, FrameLine, SseContent;
    var t := Cut(s);
    var d := CDecode(Escape(t) + ([QUOTE] + [RBRACE]));
    FrameHasField(t);
    ContentThere(FrameLine(t), [LBRACE], Escape(t) + ([QUOTE] + [RBRACE]));
    CutFits(s);
    EscapeGrows(t);
    assert |t| < CONTENT_MAX;
    if Clean(t) {
      DecodesClean(t, [RBRACE]);
      assert d == t;
    } else {
      var p := DecodesUnclean(t, [RBRACE]);
      assert t[p] == s[p] && Clip(d)[p] == d[p] != s[p];
      assert Clean(s) ==> Clean(t);
    }
  }

  lemma LineIsPlain(text: seq<byte>)
    ensures LF !in FrameLine(text) && NUL !in Frame(text) && StripCr(FrameLine(text)) == FrameLine(text)
    ensures Frame(text) == FrameLine(text) + ([LF] + [LF])
  {
    NoControlBytes(EscapeItems(text));
    assert forall b | b in FRAME_OPEN :: b >= 0x20;
    Assoc(FrameLine(text), [LF], [LF]);
  }

  lemma StripTwo(line: seq<byte>)
    requires StripCr(line) == line
    ensures StripAll([line, []]) == [line, []]
  {
    assert [line, []][1..] == [[]];
    assert StripAll([[]]) == [StripCr([])] + StripAll([[]][1..]);
  }

  /** A frame is two lines, the second of them empty; nothing is held back. */
  lemma FrameLines(text: seq<byte>)
    ensures FoundLines(Frame(text)) == [FrameLine(text), []] && Kept(Frame(text)) == []
  {
    hide FrameLine, Frame, FoundLines, Kept, RawLines, Rest, StripCr, IndexByte;
    var line := FrameLine(text);
    LineIsPlain(text);
    NulFree(Frame(text));
    UnsplitNone([]);
    var none: seq<seq<byte>> := [];
    UnsplitCons([], none, []);
    UnsplitCons(line, [[]], []);
    assert [[]] + none == [[]];
    assert Unsplit([[]], []) == [LF] by {
      assert [] + ([LF] + []) == [LF];
    }
    assert Unsplit([line, []], []) == Frame(text);
    assert [line] + [[]] == [line, []];
    SplitUnique([line, []], []);
    StripTwo(line);
  }
}
