/**
 * The Go daemon's hand-written string code: `appendJSONEscaped` (backends/sse.go) and
 * `unescapeJSON`, `extractContentFast` (backends/openai.go).
 */
module GoStrings {
  import opened Bytes
  import opened JsonString

  // ----- unescapeJSON

  /** `strconv.ParseUint(s, 16, 32)` on a four-byte slice. */
  function ParseHex(s: seq<byte>): Option<nat>
    requires |s| == 4
  {
    if IsHex4(s) then Some(HexValue(s)) else None
  }

  /** Does `t`, which starts with a \u escape, go on with a \u escape of a low surrogate? */
  predicate LowFollows(t: seq<byte>) {
    |t| >= 12 && t[6] == BACKSLASH && t[7] == LETTER_U && IsHex4(t[8..12]) && IsLowSurrogate(HexValue(t[8..12]))
  }

  /** What one iteration appends, and how many bytes it consumes. */
  function Chunk(t: seq<byte>): (r: (seq<byte>, nat))
    requires t != []
    ensures 1 <= r.1 <= |t|
  {
    if t[0] != BACKSLASH || |t| == 1 then ([t[0]], 1)
    else if t[1] != LETTER_U then ([ShortMeaning(t[1])], 2)
    else if |t| < 6 || !IsHex4(t[2..6]) then ([], 2)
    else
      var cp := HexValue(t[2..6]);
      if IsHighSurrogate(cp) && LowFollows(t) then (Utf8(Combine(cp, HexValue(t[8..12]))), 12)
      else (Utf8(if IsScalar(cp) then cp else REPLACEMENT), 6)
  }

  function Unescape(t: seq<byte>): seq<byte>
    decreases |t|
  {
    if t == [] then [] else Chunk(t).0 + Unescape(t[Chunk(t).1..])
  }

  lemma {:induction false} UnescapePlain(t: seq<byte>)
    requires BACKSLASH !in t
    ensures Unescape(t) == t
  {
    if t != [] {
      UnescapePlain(t[1..]);
      assert t == [t[0]] + t[1..];
    }
  }

  /** The body of the loop in `unescapeJSON`, entered at index `i`. */
  method NextChunk(b: seq<byte>, i: nat) returns (piece: seq<byte>, n: nat)
    requires i < |b|
    ensures (piece, n) == Chunk(b[i..])
  {
    ghost var t := b[i..];
    if b[i] == BACKSLASH && i + 1 < |b| {
      var j := i + 1;
      var c := b[j];
      assert c == t[1];
      if c == LETTER_N { return [LF], 2; }
      if c == LETTER_R { return [CR], 2; }
      if c == LETTER_T { return [TAB], 2; }
      if c == LETTER_B { return [BACKSPACE], 2; }
      if c == LETTER_F { return [FORMFEED], 2; }
      if c != LETTER_U { return [c], 2; }
      if j + 4 >= |b| { return [], 2; }
      assert b[j + 1..j + 5] == t[2..6];
      var codepoint := ParseHex(b[j + 1..j + 5]);
      if codepoint.None? { return [], 2; }
      if IsHighSurrogate(codepoint.value) {
        if j + 10 < |b| && b[j + 5] == BACKSLASH && b[j + 6] == LETTER_U {
          assert b[j + 7..j + 11] == t[8..12];
          var lo := ParseHex(b[j + 7..j + 11]);
          if lo.Some? && IsLowSurrogate(lo.value) {
            return Utf8(Combine(codepoint.value, lo.value)), 12;
          }
        }
        return Utf8(REPLACEMENT), 6;
      } else if IsLowSurrogate(codepoint.value) {
        return Utf8(REPLACEMENT), 6;
      } else {
        return Utf8(codepoint.value), 6;
      }
    } else {
      return [b[i]], 1;
    }
  }

  method UnescapeJSON(b: seq<byte>) returns (result: seq<byte>)
    ensures result == Unescape(b)
  {
    if BACKSLASH !in b {
      UnescapePlain(b);
      return b;
    }
    result := [];
    var i := 0;
    while i < |b|
      invariant 0 <= i <= |b|
      invariant result + Unescape(b[i..]) == Unescape(b)
    {
      var piece, n := NextChunk(b, i);
      Assoc(result, piece, Unescape(b[i + n..]));
      assert b[i..][n..] == b[i + n..];
      result := result + piece;
      i := i + n;
    }
    assert b[i..] == [];
  }

  /** The front of a printed \u item. */
  lemma UnicodeFront(items: seq<Item>)
    requires ValidItems(items) && items != [] && items[0].Unicode?
    ensures var t := Print(items);
            && |t| >= 6 && t[0] == BACKSLASH && t[1] == LETTER_U && t[2..6] == items[0].hex
               && t[6..] == Print(items[1..])
  {
    var h, rest := items[0].hex, Print(items[1..]);
    hide Print;
    assert Print(items) == ([BACKSLASH, LETTER_U] + h) + rest by {
      PrintUnfold(items);
    }
  }

  /** Only a \u item puts a backslash and a u at the front. */
  lemma FrontIsUnicode(items: seq<Item>)
    requires ValidItems(items)
    ensures var t := Print(items);
            |t| >= 2 && t[0] == BACKSLASH && t[1] == LETTER_U ==> items != [] && items[0].Unicode?
  {
    if items != [] && !items[0].Unicode? {
      PrintUnfold(items);
      hide Print;
      var p := PrintItem(items[0]);
      assert Print(items)[0] == p[0];
      if items[0].Short? {
        assert Print(items)[1] == p[1];
      }
    }
  }

  /** The look-ahead for a low surrogate sees the next item and nothing else. */
  lemma NextItem(items: seq<Item>)
    requires ValidItems(items) && items != [] && items[0].Unicode?
    ensures LowFollows(Print(items)) <==> |items| >= 2 && items[1].Unicode? && IsLowSurrogate(HexValue(items[1].hex))
    ensures |items| >= 2 && items[1].Unicode? ==>
              var t := Print(items); |t| >= 12 && t[8..12] == items[1].hex && t[12..] == Print(items[2..])
  {
    hide Print, HexValue;
    var t, u := Print(items), Print(items[1..]);
    UnicodeFront(items);
    FrontIsUnicode(items[1..]);
    assert forall k | 0 <= k < |u| :: t[6 + k] == u[k];
    if |items| >= 2 && items[1].Unicode? {
      UnicodeFront(items[1..]);
      assert items[1..][1..] == items[2..];
      assert t[8..12] == u[2..6] && t[12..] == u[6..];
    }
  }

  /** On every body of the grammar the Go decoder agrees with the reference decoder. */
  lemma {:induction false} UnescapeDecodes(items: seq<Item>)
    requires ValidItems(items)
    ensures Unescape(Print(items)) == Decode(items)
    decreases |items|
  {
    if items == [] {
    } else {
      var t, it := Print(items), items[0];
      match it {
        case Raw(b) =>
          assert t[1..] == Print(items[1..]);
        case Short(c) =>
          assert t[0] == BACKSLASH && t[1] == c && t[2..] == Print(items[1..]);
        case Unicode(h) =>
          UnicodeFront(items);
          NextItem(items);
          if StartsWithPair(items) {
            UnescapeDecodes(items[2..]);
          }
      }
      if !StartsWithPair(items) {
        UnescapeDecodes(items[1..]);
      }
    }
  }

  // ----- extractContentFast

  const DELTA_PATTERN: seq<byte> := Ascii("\"delta\":{")
  const CONTENT_PATTERN: seq<byte> := Ascii("\"content\":\"")

  predicate SkipsTwo(next: byte) {
    IsShortEscape(next) || next == LETTER_U
  }

  /** How far the closing-quote scan runs into `t`. */
  function ScanLength(t: seq<byte>): (n: nat)
    ensures n <= |t|
    decreases |t|
  {
    if t == [] || t[0] == QUOTE then 0
    else if t[0] == BACKSLASH && |t| == 1 then 0
    else if t[0] == BACKSLASH && SkipsTwo(t[1]) then 2 + ScanLength(t[2..])
    else 1 + ScanLength(t[1..])
  }

  /** Where the bytes after the content pattern start, when both patterns are present. */
  function ContentStart(data: seq<byte>): (r: Option<nat>)
    ensures r.Some? ==> r.value <= |data|
  {
    var delta := IndexOf(data, DELTA_PATTERN);
    if delta.None? then None
    else
      var from := delta.value + |DELTA_PATTERN|;
      var idx := IndexOf(data[from..], CONTENT_PATTERN);
      if idx.None? then None else Some(from + idx.value + |CONTENT_PATTERN|)
  }

  /** The string whose body starts `t`. */
  function ReadBody(t: seq<byte>): seq<byte> {
    Unescape(t[..ScanLength(t)])
  }

  /** The extracted content, empty when there is none. */
  function Extract(data: seq<byte>): seq<byte> {
    var start := ContentStart(data);
    if start.None? then [] else ReadBody(data[start.value..])
  }

  lemma ReadNothing()
    ensures ReadBody([]) == []
  {
  }

  /** The unescaped-quote search of `extractContentFast`. */
  method ScanToQuote(data: seq<byte>, start: nat) returns (end: nat)
    requires start <= |data|
    ensures end == start + ScanLength(data[start..])
  {
    end := start;
    while end < |data|
      invariant start <= end <= |data|
      invariant end + ScanLength(data[end..]) == start + ScanLength(data[start..])
    {
      ghost var t := data[end..];
      if data[end] == BACKSLASH {
        if end + 1 >= |data| { break; }
        var next := data[end + 1];
        assert t[1] == next && t[1..] == data[end + 1..] && t[2..] == data[end + 2..];
        if next == QUOTE || next == BACKSLASH || next == SLASH || next == LETTER_B || next == LETTER_F ||
           next == LETTER_N || next == LETTER_R || next == LETTER_T || next == LETTER_U {
          end := end + 2;
          continue;
        }
        end := end + 1;
        continue;
      }
      if data[end] == QUOTE { break; }
      assert t[1..] == data[end + 1..];
      end := end + 1;
    }
  }

  method ExtractContentFast(data: seq<byte>) returns (content: seq<byte>)
    ensures content == Extract(data)
  {
    hide IndexOf, Unescape, ScanLength;
    var deltaIdx := IndexOf(data, DELTA_PATTERN);
    if deltaIdx.None? { return []; }
    var searchFrom := deltaIdx.value + |DELTA_PATTERN|;
    var idx := IndexOf(data[searchFrom..], CONTENT_PATTERN);
    if idx.None? { return []; }
    var start := searchFrom + idx.value + |CONTENT_PATTERN|;
    assert ContentStart(data) == Some(start);
    if start >= |data| {
      assert data[start..] == [];
      ReadNothing();
      return [];
    }
    var end := ScanToQuote(data, start);
    var raw := data[start..end];
    assert raw == data[start..][..end - start];
    if BACKSLASH in raw {
      content := UnescapeJSON(raw);
    } else {
      UnescapePlain(raw);
      content := raw;
    }
  }

  /** Four hex digits are walked over one at a time. */
  lemma ScanHex(h: seq<byte>, rest: seq<byte>)
    requires IsHex4(h)
    ensures ScanLength(h + rest) == 4 + ScanLength(rest)
  {
    var t := h + rest;
    assert ScanLength(t) == 1 + ScanLength(t[1..]);
    assert t[1..][1..] == t[2..];
    assert ScanLength(t[1..]) == 1 + ScanLength(t[2..]);
    assert t[2..][1..] == t[3..];
    assert ScanLength(t[2..]) == 1 + ScanLength(t[3..]);
    assert t[3..][1..] == rest;
  }

  /** The scan stops exactly at the closing quote of every body of the grammar. */
  lemma {:induction false} ScanStopsAtQuote(items: seq<Item>, rest: seq<byte>)
    requires ValidItems(items)
    ensures ScanLength(Print(items) + ([QUOTE] + rest)) == |Print(items)|
  {
    var tail := [QUOTE] + rest;
    if items == [] {
      assert Print(items) + tail == tail;
    } else {
      var p, q := PrintItem(items[0]), Print(items[1..]);
      Assoc(p, q, tail);
      ScanStopsAtQuote(items[1..], rest);
      var t := p + (q + tail);
      match items[0] {
        case Raw(b) => assert t[1..] == q + tail;
        case Short(c) => assert t[0] == BACKSLASH && t[1] == c && t[2..] == q + tail;
        case Unicode(h) =>
          assert t[0] == p[0] == BACKSLASH && t[1] == p[1] == LETTER_U;
          assert t[2..] == h + (q + tail);
          ScanHex(h, q + tail);
      }
    }
  }

  lemma ReadBodyDecodes(items: seq<Item>, rest: seq<byte>)
    requires ValidItems(items)
    ensures ReadBody(Print(items) + ([QUOTE] + rest)) == Decode(items)
  {
    var body := Print(items);
    ScanStopsAtQuote(items, rest);
    UnescapeDecodes(items);
    assert (body + ([QUOTE] + rest))[..|body|] == body;
  }

  /**
   * For every chunk whose first content field after its first delta holds a body that the strict
   * lexer accepts, extraction yields exactly what RFC 8259 says the body means.
   */
  lemma ExtractDecodes(data: seq<byte>, start: nat)
    requires ContentStart(data) == Some(start) && Lex(data[start..]).Some?
    ensures Extract(data) == Decode(Lex(data[start..]).value.0)
  {
    LexSound(data[start..]);
    ReadBodyDecodes(Lex(data[start..]).value.0, Lex(data[start..]).value.1);
  }

  /**
   * The content is read wherever the two patterns stand: the first delta, and after anything else the first
   * content field behind it.
   */
  lemma ExtractBetween(head: seq<byte>, between: seq<byte>, items: seq<Item>, tail: seq<byte>)
    requires ComesFirst(head, DELTA_PATTERN) && ComesFirst(between, CONTENT_PATTERN) && ValidItems(items)
    ensures Extract(head + (DELTA_PATTERN + (between + (CONTENT_PATTERN + (Print(items) + ([QUOTE] + tail))))))
            == Decode(items)
  {
    hide IndexOf, ReadBody, Print, Decode;
    var t := Print(items) + ([QUOTE] + tail);
    var rest := between + (CONTENT_PATTERN + t);
    FoundAt(head, DELTA_PATTERN, rest);
    FoundAt(between, CONTENT_PATTERN, t);
    var data, from := head + (DELTA_PATTERN + rest), |head| + |DELTA_PATTERN|;
    assert data[from + |between| + |CONTENT_PATTERN|..] == data[from..][|between| + |CONTENT_PATTERN|..];
    ReadBodyDecodes(items, tail);
  }

  /** Without a delta, or without a content field behind the first one, there is nothing to read. */
  lemma ExtractNothing(data: seq<byte>, head: seq<byte>, rest: seq<byte>)
    ensures Absent(data, DELTA_PATTERN) ==> Extract(data) == []
    ensures ComesFirst(head, DELTA_PATTERN) && Absent(rest, CONTENT_PATTERN) ==>
              Extract(head + (DELTA_PATTERN + rest)) == []
  {
    hide IndexOf, ReadBody;
    if ComesFirst(head, DELTA_PATTERN) {
      FoundAt(head, DELTA_PATTERN, rest);
    }
  }

  // ----- appendJSONEscaped

  /** The item one byte is written as. */
  function EscapeByte(c: byte): (it: Item)
    ensures ValidItem(it)
  {
    if c == BACKSLASH || c == QUOTE then Short(c)
    else if c == LF then Short(LETTER_N)
    else if c == CR then Short(LETTER_R)
    else if c == TAB then Short(LETTER_T)
    else if c < 0x20 then Unicode([ZERO, ZERO, HexChar(c / 16), HexChar(c % 16)])
    else Raw(c)
  }

  function EscapeItems(s: seq<byte>): (items: seq<Item>)
    ensures ValidItems(items)
  {
    if s == [] then [] else [EscapeByte(s[0])] + EscapeItems(s[1..])
  }

  function Escape(s: seq<byte>): seq<byte> {
    Print(EscapeItems(s))
  }

  lemma {:induction false} EscapeItemsAppend(a: seq<byte>, b: seq<byte>)
    ensures EscapeItems(a + b) == EscapeItems(a) + EscapeItems(b)
  {
    if a == [] {
      assert a + b == b;
    } else {
      EscapeItemsAppend(a[1..], b);
      assert (a + b)[0] == a[0] && (a + b)[1..] == a[1..] + b;
      Assoc([EscapeByte(a[0])], EscapeItems(a[1..]), EscapeItems(b));
    }
  }

  lemma EscapeAppend(a: seq<byte>, b: seq<byte>)
    ensures Escape(a + b) == Escape(a) + Escape(b)
  {
    EscapeItemsAppend(a, b);
    PrintAppend(EscapeItems(a), EscapeItems(b));
  }

  lemma EscapeSnoc(a: seq<byte>, c: byte)
    ensures Escape(a + [c]) == Escape(a) + PrintItem(EscapeByte(c))
  {
    EscapeAppend(a, [c]);
    assert EscapeItems([c]) == [EscapeByte(c)];
    assert Print([EscapeByte(c)]) == PrintItem(EscapeByte(c)) + Print([]);
  }

  lemma {:induction false} PlainIsUnescaped(s: seq<byte>)
    requires forall i | 0 <= i < |s| :: IsUnescaped(s[i])
    ensures Escape(s) == s
  {
    if s != [] {
      PlainIsUnescaped(s[1..]);
      assert EscapeItems(s)[1..] == EscapeItems(s[1..]);
      assert s == [s[0]] + s[1..];
    }
  }

  method AppendJSONEscaped(buf: seq<byte>, s: seq<byte>) returns (r: seq<byte>)
    ensures r == buf + Escape(s)
  {
    r := buf;
    for i := 0 to |s|
      invariant r == buf + Escape(s[..i])
    {
      var c := s[i];
      ghost var was := r;
      if c == BACKSLASH || c == QUOTE {
        r := r + [BACKSLASH, c];
      } else if c == LF {
        r := r + [BACKSLASH, LETTER_N];
      } else if c == CR {
        r := r + [BACKSLASH, LETTER_R];
      } else if c == TAB {
        r := r + [BACKSLASH, LETTER_T];
      } else if c < 0x20 {
        r := r + [BACKSLASH, LETTER_U, ZERO, ZERO, HexChar(c / 16), HexChar(c % 16)];
        assert [BACKSLASH, LETTER_U] + [ZERO, ZERO, HexChar(c / 16), HexChar(c % 16)]
            == [BACKSLASH, LETTER_U, ZERO, ZERO, HexChar(c / 16), HexChar(c % 16)];
      } else {
        r := r + [c];
      }
      assert r == was + PrintItem(EscapeByte(c));
      EscapeSnoc(s[..i], c);
      assert s[..i] + [c] == s[..i + 1];
      Assoc(buf, Escape(s[..i]), PrintItem(EscapeByte(c)));
    }
    assert s[..|s|] == s;
  }

  lemma DecodeEscapedByte(c: byte)
    ensures EscapeByte(c).Unicode? ==> HexValue(EscapeByte(c).hex) == c < 0x20
    ensures EscapeByte(c).Short? ==> ShortMeaning(EscapeByte(c).c) == c
    ensures EscapeByte(c).Raw? ==> EscapeByte(c).b == c
  {
  }

  lemma {:induction false} DecodeEscaped(s: seq<byte>)
    ensures Decode(EscapeItems(s)) == s
  {
    if s != [] {
      DecodeEscaped(s[1..]);
      DecodeEscapedByte(s[0]);
      var items := EscapeItems(s);
      assert items[0] == EscapeByte(s[0]) && items[1..] == EscapeItems(s[1..]);
      hide EscapeItems, EscapeByte;
      assert !StartsWithPair(items);
      assert Decode(items) == [s[0]] + Decode(items[1..]);
      assert s == [s[0]] + s[1..];
    }
  }

  /** Unescaping undoes escaping, on every byte string. */
  lemma EscapeRoundTrip(s: seq<byte>)
    ensures Unescape(Escape(s)) == s
  {
    hide Decode;
    UnescapeDecodes(EscapeItems(s));
    DecodeEscaped(s);
  }

  /** An escaped string has no byte below 0x20, hence no newline. */
  lemma {:induction false} NoControlBytes(items: seq<Item>)
    requires ValidItems(items)
    ensures forall b | b in Print(items) :: b >= 0x20
  {
    if items != [] {
      NoControlBytes(items[1..]);
      assert forall b | b in PrintItem(items[0]) :: b >= 0x20;
    }
  }
}
