/**
 * JSON string bodies: the grammar of RFC 8259 section 7, a reference decoder into UTF-8
 * (RFC 3629 section 3), and a strict lexer for the grammar.  Nothing in this module follows
 * the shape of the Go code; `GoStrings` is proved against it.
 */
module JsonString {
  import opened Bytes

  // ----- hexadecimal digits

  predicate IsHex(b: byte) {
    ZERO <= b <= NINE || 65 <= b <= 70 || 97 <= b <= 102
  }

  function HexDigit(b: byte): (v: nat)
    requires IsHex(b)
    ensures v < 16
  {
    if b <= NINE then b - ZERO else if b <= 70 then b - 55 else b - 87
  }

  predicate IsHex4(h: seq<byte>) {
    |h| == 4 && IsHex(h[0]) && IsHex(h[1]) && IsHex(h[2]) && IsHex(h[3])
  }

  function HexValue(h: seq<byte>): (v: nat)
    requires IsHex4(h)
    ensures v < 0x10000
  {
    HexDigit(h[0]) * 0x1000 + HexDigit(h[1]) * 0x100 + HexDigit(h[2]) * 0x10 + HexDigit(h[3])
  }

  /** The lower-case digit the encoders write. */
  function HexChar(v: nat): (b: byte)
    requires v < 16
    ensures IsHex(b) && HexDigit(b) == v
  {
    if v < 10 then ZERO + v else 87 + v
  }

  // ----- code points

  predicate IsHighSurrogate(cp: nat) { 0xD800 <= cp <= 0xDBFF }

  predicate IsLowSurrogate(cp: nat) { 0xDC00 <= cp <= 0xDFFF }

  predicate IsScalar(cp: nat) {
    cp <= 0x10FFFF && !IsHighSurrogate(cp) && !IsLowSurrogate(cp)
  }

  const REPLACEMENT: nat := 0xFFFD

  /** The code point a surrogate pair stands for. */
  function Combine(hi: nat, lo: nat): (cp: nat)
    requires IsHighSurrogate(hi) && IsLowSurrogate(lo)
    ensures IsScalar(cp) && cp >= 0x10000
  {
    0x10000 + (hi - 0xD800) * 0x400 + (lo - 0xDC00)
  }

  function Utf8(cp: nat): seq<byte>
    requires IsScalar(cp)
  {
    if cp < 0x80 then [cp]
    else if cp < 0x800 then [0xC0 + cp / 0x40, 0x80 + cp % 0x40]
    else if cp < 0x10000 then [0xE0 + cp / 0x1000, 0x80 + cp / 0x40 % 0x40, 0x80 + cp % 0x40]
    else [0xF0 + cp / 0x40000, 0x80 + cp / 0x1000 % 0x40, 0x80 + cp / 0x40 % 0x40, 0x80 + cp % 0x40]
  }

  predicate IsTrail(b: byte) { 0x80 <= b <= 0xBF }

  /** A six-bit group below the bits read so far. */
  function Shift(high: nat, group: nat): nat {
    high * 0x40 + group
  }

  /** One code point off the front of `s`, by the byte table of RFC 3629 section 4. */
  function ReadUtf8(s: seq<byte>): Option<(nat, seq<byte>)> {
    if |s| >= 1 && s[0] <= 0x7F then Some((s[0], s[1..]))
    else if |s| >= 2 && 0xC2 <= s[0] <= 0xDF && IsTrail(s[1]) then
      Some((Shift(s[0] - 0xC0, s[1] - 0x80), s[2..]))
    else if |s| >= 3 && 0xE0 <= s[0] <= 0xEF && IsTrail(s[1]) && IsTrail(s[2])
            && (s[0] == 0xE0 ==> s[1] >= 0xA0) && (s[0] == 0xED ==> s[1] <= 0x9F) then
      Some((Shift(Shift(s[0] - 0xE0, s[1] - 0x80), s[2] - 0x80), s[3..]))
    else if |s| >= 4 && 0xF0 <= s[0] <= 0xF4 && IsTrail(s[1]) && IsTrail(s[2]) && IsTrail(s[3])
            && (s[0] == 0xF0 ==> s[1] >= 0x90) && (s[0] == 0xF4 ==> s[1] <= 0x8F) then
      Some((Shift(Shift(Shift(s[0] - 0xF0, s[1] - 0x80), s[2] - 0x80), s[3] - 0x80), s[4..]))
    else None
  }

  lemma Thousands(x: nat)
    ensures x / 0x1000 == x / 0x40 / 0x40
    ensures x / 0x40 / 0x1000 == x / 0x40000
  {
    var a, b := x / 0x1000, x % 0x1000;
    assert x == a * 0x1000 + b;
    assert x / 0x40 == a * 0x40 + b / 0x40;
  }

  lemma Groups(cp: nat)
    ensures cp == Shift(cp / 0x40, cp % 0x40)
    ensures cp == Shift(Shift(cp / 0x1000, cp / 0x40 % 0x40), cp % 0x40)
    ensures cp == Shift(Shift(Shift(cp / 0x40000, cp / 0x1000 % 0x40), cp / 0x40 % 0x40), cp % 0x40)
  {
    Thousands(cp);
    Thousands(cp / 0x40);
  }

  lemma ShortRoundTrip(cp: nat, rest: seq<byte>)
    requires cp < 0x800
    ensures ReadUtf8(Utf8(cp) + rest) == Some((cp, rest))
  {
    hide Shift;
    Groups(cp);
    var u := Utf8(cp);
    assert (u + rest)[|u|..] == rest;
  }

  lemma LongRoundTrip(cp: nat, rest: seq<byte>)
    requires 0x10000 <= cp <= 0x10FFFF
    ensures ReadUtf8(Utf8(cp) + rest) == Some((cp, rest))
  {
    hide Shift;
    Groups(cp);
    var u := Utf8(cp);
    var s := u + rest;
    assert s[|u|..] == rest;
    var a, b, c, d := cp / 0x40000, cp / 0x1000 % 0x40, cp / 0x40 % 0x40, cp % 0x40;
    assert s[0] == 0xF0 + a && s[1] == 0x80 + b && s[2] == 0x80 + c && s[3] == 0x80 + d;
  }

  /** Every scalar value's encoding is well-formed UTF-8 that reads back to it, whatever follows. */
  lemma Utf8RoundTrip(cp: nat, rest: seq<byte>)
    requires IsScalar(cp)
    ensures ReadUtf8(Utf8(cp) + rest) == Some((cp, rest))
  {
    hide Shift;
    Groups(cp);
    var u := Utf8(cp);
    assert (u + rest)[|u|..] == rest;
    if cp < 0x800 {
      ShortRoundTrip(cp, rest);
    } else if cp < 0x10000 {
      var s := u + rest;
      assert s[0] == 0xE0 + cp / 0x1000 && s[1] == 0x80 + cp / 0x40 % 0x40 && s[2] == 0x80 + cp % 0x40;
    } else {
      LongRoundTrip(cp, rest);
    }
  }

  // ----- the grammar

  /** One element of a string body: an unescaped byte, a two-character escape, or \uXXXX. */
  datatype Item = Raw(b: byte) | Short(c: byte) | Unicode(hex: seq<byte>)

  predicate IsShortEscape(c: byte) {
    c == QUOTE || c == BACKSLASH || c == SLASH || c == LETTER_B || c == LETTER_F || c == LETTER_N || c == LETTER_R
        || c == LETTER_T
  }

  predicate IsUnescaped(b: byte) {
    b >= 0x20 && b != QUOTE && b != BACKSLASH
  }

  predicate ValidItem(it: Item) {
    match it
    case Raw(b) => IsUnescaped(b)
    case Short(c) => IsShortEscape(c)
    case Unicode(h) => IsHex4(h)
  }

  predicate ValidItems(items: seq<Item>) {
    forall i | 0 <= i < |items| :: ValidItem(items[i])
  }

  function PrintItem(it: Item): seq<byte> {
    match it
    case Raw(b) => [b]
    case Short(c) => [BACKSLASH, c]
    case Unicode(h) => [BACKSLASH, LETTER_U] + h
  }

  function Print(items: seq<Item>): seq<byte> {
    if items == [] then [] else PrintItem(items[0]) + Print(items[1..])
  }

  lemma PrintUnfold(items: seq<Item>)
    requires items != []
    ensures Print(items) == PrintItem(items[0]) + Print(items[1..])
  {
  }

  lemma {:induction false} PrintAppend(a: seq<Item>, b: seq<Item>)
    ensures Print(a + b) == Print(a) + Print(b)
  {
    if a == [] {
      assert a + b == b;
    } else {
      calc {
        Print(a + b);
        { assert (a + b)[0] == a[0] && (a + b)[1..] == a[1..] + b; }
        PrintItem(a[0]) + Print(a[1..] + b);
        { PrintAppend(a[1..], b); }
        PrintItem(a[0]) + (Print(a[1..]) + Print(b));
        { Assoc(PrintItem(a[0]), Print(a[1..]), Print(b)); }
        Print(a) + Print(b);
      }
    }
  }

  // ----- the reference decoder

  function ShortMeaning(c: byte): byte {
    if c == LETTER_B then BACKSPACE
    else if c == LETTER_F then FORMFEED
    else if c == LETTER_N then LF
    else if c == LETTER_R then CR
    else if c == LETTER_T then TAB
    else c
  }

  /** Is `items[0..2]` a high surrogate directly followed by a low one? */
  predicate StartsWithPair(items: seq<Item>)
    requires ValidItems(items)
  {
    |items| >= 2 && items[0].Unicode? && items[1].Unicode?
    && IsHighSurrogate(HexValue(items[0].hex)) && IsLowSurrogate(HexValue(items[1].hex))
  }

  /** What a string body means, in UTF-8: pairs combine, an unpaired surrogate becomes U+FFFD. */
  function Decode(items: seq<Item>): seq<byte>
    requires ValidItems(items)
  {
    if items == [] then []
    else if StartsWithPair(items) then
      Utf8(Combine(HexValue(items[0].hex), HexValue(items[1].hex))) + Decode(items[2..])
    else
      (match items[0]
       case Raw(b) => [b]
       case Short(c) => [ShortMeaning(c)]
       case Unicode(h) => Utf8(if IsScalar(HexValue(h)) then HexValue(h) else REPLACEMENT))
      + Decode(items[1..])
  }

  // ----- the strict lexer

  /** The item at the front of `t`, with its width; None when no production of the grammar applies. */
  function ReadItem(t: seq<byte>): Option<(Item, nat)> {
    if t == [] then None
    else if IsUnescaped(t[0]) then Some((Raw(t[0]), 1))
    else if |t| >= 2 && t[0] == BACKSLASH && IsShortEscape(t[1]) then Some((Short(t[1]), 2))
    else if |t| >= 6 && t[0] == BACKSLASH && t[1] == LETTER_U && IsHex4(t[2..6]) then Some((Unicode(t[2..6]), 6))
    else None
  }

  /** Reads a string body up to and including its closing quote; None when the grammar is violated. */
  function Lex(t: seq<byte>): (r: Option<(seq<Item>, seq<byte>)>)
    ensures r.Some? ==> ValidItems(r.value.0) && |r.value.1| < |t|
    decreases |t|
  {
    if t == [] then None
    else if t[0] == QUOTE then Some(([], t[1..]))
    else
      var step := ReadItem(t);
      if step.None? then None
      else
        var rest := Lex(t[step.value.1..]);
        if rest.None? then None else Some(([step.value.0] + rest.value.0, rest.value.1))
  }

  lemma ReadItemSound(t: seq<byte>)
    requires ReadItem(t).Some?
    ensures var (it, n) := ReadItem(t).value; ValidItem(it) && 1 <= n <= |t| && t[..n] == PrintItem(it)
  {
    var (it, n) := ReadItem(t).value;
    if it.Unicode? {
      assert t[..6] == [t[0], t[1]] + t[2..6];
    }
  }

  lemma ReadItemPrint(it: Item, rest: seq<byte>)
    requires ValidItem(it)
    ensures ReadItem(PrintItem(it) + rest) == Some((it, |PrintItem(it)|))
    ensures (PrintItem(it) + rest)[|PrintItem(it)|..] == rest
    ensures (PrintItem(it) + rest)[0] != QUOTE
  {
    var p := PrintItem(it);
    var t := p + rest;
    if it.Unicode? {
      assert p == [BACKSLASH, LETTER_U] + it.hex;
      assert t[2..6] == p[2..6] == it.hex;
    }
  }

  /** Whatever the lexer accepts is a printed sequence of valid items closed by a quote. */
  lemma {:induction false} LexSound(t: seq<byte>)
    requires Lex(t).Some?
    ensures var (items, rest) := Lex(t).value; ValidItems(items) && t == Print(items) + ([QUOTE] + rest)
    decreases |t|
  {
    if t[0] == QUOTE {
      assert t == [QUOTE] + t[1..];
    } else {
      ReadItemSound(t);
      var (it, n) := ReadItem(t).value;
      LexSound(t[n..]);
      var (tail, rest) := Lex(t[n..]).value;
      var items := [it] + tail;
      calc {
        t;
        t[..n] + t[n..];
        PrintItem(it) + (Print(tail) + ([QUOTE] + rest));
        { Assoc(PrintItem(it), Print(tail), [QUOTE] + rest); }
        (PrintItem(it) + Print(tail)) + ([QUOTE] + rest);
        { assert items[0] == it && items[1..] == tail; }
        Print(items) + ([QUOTE] + rest);
      }
    }
  }

  /** The lexer accepts everything the grammar prints, and recovers the items. */
  lemma {:induction false} LexPrint(items: seq<Item>, rest: seq<byte>)
    requires ValidItems(items)
    ensures Lex(Print(items) + ([QUOTE] + rest)) == Some((items, rest))
  {
    var tail := [QUOTE] + rest;
    if items == [] {
      assert Print(items) + tail == tail && tail[1..] == rest;
    } else {
      var it := items[0];
      LexPrint(items[1..], rest);
      ReadItemPrint(it, Print(items[1..]) + tail);
      Assoc(PrintItem(it), Print(items[1..]), tail);
      assert items == [it] + items[1..];
    }
  }
}
