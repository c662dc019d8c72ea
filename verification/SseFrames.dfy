/**
 * The SSE frames the Go daemon sends (backends/sse.go), and why a client can always take a
 * stream of them apart again.
 */
module SseFrames {
  import opened Bytes
  import opened JsonString
  import opened GoStrings

  const FRAME_OPEN: seq<byte> := Ascii("data: {\"content\":\"")
  const FRAME_CLOSE: seq<byte> := [QUOTE, RBRACE]
  const BLANK_LINE: seq<byte> := [LF, LF]
  const DONE_FRAME: seq<byte> := Ascii("data: [DONE]") + BLANK_LINE

  /** The frame `SendSSE` writes for `content`. */
  function Frame(content: seq<byte>): seq<byte> {
    FRAME_OPEN + Escape(content) + FRAME_CLOSE + BLANK_LINE
  }

  method BuildFrame(content: seq<byte>) returns (buf: seq<byte>)
    ensures buf == Frame(content)
  {
    buf := FRAME_OPEN;
    buf := AppendJSONEscaped(buf, content);
    buf := buf + (FRAME_CLOSE + BLANK_LINE);
  }

  /** A byte string that ends in a blank line and has no newline before it. */
  predicate IsFrame(f: seq<byte>) {
    |f| >= 2 && f[|f| - 2..] == BLANK_LINE && LF !in f[..|f| - 2]
  }

  lemma SentFramesAreFrames(content: seq<byte>)
    ensures IsFrame(Frame(content)) && IsFrame(DONE_FRAME)
  {
    NoControlBytes(EscapeItems(content));
    var open := FRAME_OPEN;
    assert LF !in open;
    var body := open + Escape(content) + FRAME_CLOSE;
    assert LF !in body;
    assert Frame(content)[..|body|] == body;
    var done := Ascii("data: [DONE]");
    assert LF !in done;
    assert DONE_FRAME[..|done|] == done;
  }

  /** How an EventSource client cuts the stream: after every blank line. */
  function SplitFrames(s: seq<byte>): seq<seq<byte>>
    decreases |s|
  {
    var k := IndexOf(s, BLANK_LINE);
    if k.None? then [] else [s[..k.value + 2]] + SplitFrames(s[k.value + 2..])
  }

  /** Any concatenation of frames splits back into exactly those frames. */
  lemma {:induction false} FramesSplitUniquely(frames: seq<seq<byte>>)
    requires forall i | 0 <= i < |frames| :: IsFrame(frames[i])
    ensures SplitFrames(Flatten(frames)) == frames
  {
    hide IndexOf;
    if frames == [] {
    } else {
      var f, rest := frames[0], Flatten(frames[1..]);
      var s, k := f + rest, |f| - 2;
      assert s[k..k + 2] == f[k..] == BLANK_LINE;
      forall i: nat | i < k
        ensures !OccursAt(s, BLANK_LINE, i)
      {
        assert s[i] == f[..k][i];
        assert s[i..i + 2][0] == s[i];
      }
      FirstOccurrence(s, BLANK_LINE, k);
      assert s[..|f|] == f && s[|f|..] == rest;
      FramesSplitUniquely(frames[1..]);
      assert frames == [f] + frames[1..];
    }
  }

  /** What the client reads out of one frame. */
  function ReadFrame(f: seq<byte>): seq<byte> {
    if |f| < |FRAME_OPEN| then [] else ReadBody(f[|FRAME_OPEN|..])
  }

  lemma ReadSentFrame(content: seq<byte>)
    ensures ReadFrame(Frame(content)) == content
  {
    var items := EscapeItems(content);
    var rest := [RBRACE, LF, LF];
    var t := Frame(content)[|FRAME_OPEN|..];
    assert t == Print(items) + ([QUOTE] + rest);
    ScanStopsAtQuote(items, rest);
    assert t[..|Print(items)|] == Print(items);
    EscapeRoundTrip(content);
  }

  function Frames(contents: seq<seq<byte>>): (r: seq<seq<byte>>)
    ensures |r| == |contents| && forall i | 0 <= i < |r| :: r[i] == Frame(contents[i])
  {
    seq(|contents|, i requires 0 <= i < |contents| => Frame(contents[i]))
  }

  /** The client recovers every content sent, for every sequence of arbitrary byte strings. */
  lemma StreamRoundTrip(contents: seq<seq<byte>>)
    ensures var got := SplitFrames(Flatten(Frames(contents)));
            |got| == |contents| && forall i | 0 <= i < |got| :: ReadFrame(got[i]) == contents[i]
  {
    forall i | 0 <= i < |contents|
      ensures IsFrame(Frames(contents)[i]) && ReadFrame(Frames(contents)[i]) == contents[i]
    {
      SentFramesAreFrames(contents[i]);
      ReadSentFrame(contents[i]);
    }
    FramesSplitUniquely(Frames(contents));
  }
}
