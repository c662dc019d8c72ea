/**
 * What a request relays from the upstream to its client (curl_manager.c): the response headers, the frame of every
 * upstream line that has content, and the end marker.
 */
module CurlRelay {
  import opened Bytes
  import LineAssembly
  import SseFormat
  import SseFrames

  const SSE_HEADERS: seq<byte> :=
    Ascii("HTTP/1.1 200 OK\r\n") + Ascii("Content-Type: text/event-stream\r\n") + Ascii("Cache-Control: no-cache\r\n")
    + Ascii("Connection: close\r\n") + Ascii("X-Accel-Buffering: no\r\n") + Ascii("\r\n")
  const SSE_DONE: seq<byte> := Ascii("data: [DONE]\n\n")

  /** What is relayed of a line: its frame, or nothing if it has no content. */
  function FrameFor(line: seq<byte>): seq<byte> {
    match SseFormat.SseContent(line)
    case None => []
    case Some(text) => SseFrames.Frame(SseFormat.Cut(text))
  }

  function FramesFor(lines: seq<seq<byte>>): seq<byte> {
    if lines == [] then [] else FramesFor(lines[..|lines| - 1]) + FrameFor(lines[|lines| - 1])
  }

  lemma FramesSnoc(lines: seq<seq<byte>>, line: seq<byte>)
    ensures FramesFor(lines + [line]) == FramesFor(lines) + FrameFor(line)
  {
    assert (lines + [line])[..|lines|] == lines;
  }

  /**
   * The state of a request: what came from the upstream, what of it is held back as an unfinished line, the lines
   * handled, whether the headers and the end marker are queued, and whether it is behind, in the middle of a
   * chunk or for good.
   */
  datatype Relay = Relay(upstream: seq<byte>, held: seq<byte>, lines: seq<seq<byte>>, headers: bool, done: bool,
                         behind: bool) {
    /** Everything queued for the client. */
    function Wire(): seq<byte> {
      (if headers then SSE_HEADERS + FramesFor(lines) else []) + (if done then SSE_DONE else [])
    }

    /** However the upstream came in chunks, the lines handled are its lines, in order and, unless behind, all. */
    predicate Faithful() {
      && lines <= LineAssembly.FoundLines(upstream)
      && (!behind ==> lines == LineAssembly.FoundLines(upstream) && held == LineAssembly.Kept(upstream))
      && (!headers ==> lines == [] && !done)
    }
  }

  /** What a chunk does to a request that is not behind: all its lines are handled, or some and it stays behind. */
  predicate Taken(was: Relay, chunk: seq<byte>, now: Relay, ok: bool) {
    if ok then
      now == Relay(was.upstream + chunk, LineAssembly.Kept(was.held + chunk),
                   was.lines + LineAssembly.FoundLines(was.held + chunk), true, was.done, false)
    else
      && now.behind && was.lines <= now.lines && now.done == was.done
      && (now.upstream == was.upstream || now.upstream == was.upstream + chunk)
  }

  const NO_RELAY := Relay([], [], [], false, false, false)

  lemma NothingRelayed()
    ensures NO_RELAY.Faithful() && NO_RELAY.Wire() == []
  {
    LineAssembly.NothingFound([]);
  }

  /** The headers come first. */
  lemma HeadersNext(r: Relay)
    requires r.Faithful() && !r.headers
    ensures r.(headers := true).Faithful() && r.(headers := true).Wire() == r.Wire() + SSE_HEADERS
  {
    assert r.Wire() == [] && FramesFor([]) == [];
  }

  /** A chunk comes in. */
  lemma ChunkNext(r: Relay, chunk: seq<byte>)
    requires r.Faithful() && !r.behind
    ensures var all := LineAssembly.FoundLines(r.upstream + chunk);
            && all == r.lines + LineAssembly.FoundLines(r.held + chunk)
            && LineAssembly.Kept(r.upstream + chunk) == LineAssembly.Kept(r.held + chunk)
            && var next := r.(upstream := r.upstream + chunk, behind := true);
               next.Faithful() && next.Wire() == r.Wire()
  {
    hide LineAssembly.FoundLines, LineAssembly.Kept;
    LineAssembly.CutAnywhere(r.upstream, chunk);
  }

  /** All lines of a chunk are handled. */
  lemma ChunkDone(r: Relay, held: seq<byte>)
    requires r.Faithful() && r.lines == LineAssembly.FoundLines(r.upstream) && held == LineAssembly.Kept(r.upstream)
    ensures var next := r.(held := held, behind := false); next.Faithful() && next.Wire() == r.Wire()
  {
  }

  /** The transfer is given up. */
  lemma GivenUp(r: Relay)
    requires r.Faithful()
    ensures r.(behind := true).Faithful() && r.(behind := true).Wire() == r.Wire()
  {
  }

  /** A line is handled. */
  lemma LineNext(r: Relay, line: seq<byte>)
    requires r.Faithful() && r.behind && r.headers && !r.done
    requires r.lines + [line] <= LineAssembly.FoundLines(r.upstream)
    ensures var next := r.(lines := r.lines + [line]); next.Faithful() && next.Wire() == r.Wire() + FrameFor(line)
  {
    hide LineAssembly.FoundLines, LineAssembly.Kept, FramesFor, FrameFor;
    FramesSnoc(r.lines, line);
    Assoc(SSE_HEADERS, FramesFor(r.lines), FrameFor(line));
  }

  /** The end marker comes last. */
  lemma DoneNext(r: Relay)
    requires r.Faithful() && r.headers && !r.done
    ensures r.(done := true).Faithful() && r.(done := true).Wire() == r.Wire() + SSE_DONE
  {
  }

  lemma {:induction false} FoundLinesClean(s: seq<byte>)
    ensures forall line | line in LineAssembly.FoundLines(s) :: NUL !in line
  {
    hide LineAssembly.StrChrLf;
    match LineAssembly.StrChrLf(s)
    case None =>
    case Some(i) => FoundLinesClean(s[i + 1..]);
  }
}
