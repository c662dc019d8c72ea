/**
 * The Go daemon's response to one client (streaming_daemon.go): headers sent lazily with the first
 * body write, a real error status when nothing was sent, an error event when something was.
 */
module LazyHeaders {
  import opened Bytes
  import opened GoStrings

  datatype Error = NoError | ClientDisconnected | DeadlineExceeded | Canceled | Panicked | ShortWrite | Other

  /** How the connection answers one write: bytes accepted, and the error. */
  datatype Reply = Reply(n: nat, err: Error)

  /** The client connection: everything it accepted, and how many status lines were begun. */
  class Wire {
    var bytes: seq<byte>
    ghost var statusLines: nat

    constructor ()
      ensures bytes == [] && statusLines == 0
    {
      bytes := [];
      statusLines := 0;
    }

    /** One write: some prefix of `p` goes out, however the reply claims more. */
    method Write(p: seq<byte>, reply: Reply) returns (n: nat, err: Error)
      modifies this`bytes
      ensures n == (if reply.n <= |p| then reply.n else |p|) && err == reply.err
      ensures bytes == old(bytes) + p[..n]
    {
      n := if reply.n <= |p| then reply.n else |p|;
      bytes := bytes + p[..n];
      err := reply.err;
    }
  }

  /** `writeAll`: writes until everything is out, an error, or no progress. */
  method WriteAll(w: Wire, buf: seq<byte>, replies: nat -> Reply) returns (written: nat, err: Error)
    modifies w`bytes
    ensures written <= |buf| && w.bytes == old(w.bytes) + buf[..written]
    ensures err == NoError ==> written == |buf|
    ensures (forall i | 0 <= i < |buf| :: replies(i).err == NoError && replies(i).n > 0) ==> err == NoError
  {
    var rest := buf;
    written := 0;
    var turn := 0;
    while |rest| > 0
      invariant written <= |buf| && rest == buf[written..] && turn <= written
      invariant w.bytes == old(w.bytes) + buf[..written]
      decreases |rest|
    {
      var n, e := w.Write(rest, replies(turn));
      assert buf[..written] + rest[..n] == buf[..written + n];
      Assoc(old(w.bytes), buf[..written], rest[..n]);
      if n > 0 {
        written := written + n;
        rest := rest[n..];
      }
      if e != NoError {
        return written, e;
      }
      if n == 0 {
        return written, ShortWrite;
      }
      turn := turn + 1;
    }
    err := NoError;
  }

  // ----- error responses and error events

  function ErrorResponse(status: seq<byte>, body: seq<byte>): seq<byte> {
    Ascii("HTTP/1.1 ") + status + Ascii("\r\nContent-Type: text/plain\r\nContent-Length: ") + Decimal(|body|)
    + Ascii("\r\nConnection: close\r\n") + Ascii("\r\n") + body
  }

  /** The replies the system gives while an error response or event is written. */
  datatype Farewell = Farewell(deadlineOk: bool, replies: nat -> Reply) {
    /** A message of `len` bytes goes out whole. */
    ghost predicate Generous(len: nat) {
      deadlineOk && forall i: nat :: replies(i).err == NoError && replies(i).n > 0 && replies(i).n >= len
    }
  }

  /** `writeErrorResponse`. */
  method WriteErrorResponse(w: Wire, status: seq<byte>, body: seq<byte>, f: Farewell) returns (n: nat)
    modifies w
    ensures n <= |ErrorResponse(status, body)| && w.bytes == old(w.bytes) + ErrorResponse(status, body)[..n]
    ensures f.Generous(|ErrorResponse(status, body)|) ==> n == |ErrorResponse(status, body)|
    ensures w.statusLines == old(w.statusLines) + (if f.deadlineOk then 1 else 0)
    ensures !f.deadlineOk ==> n == 0
  {
    n := 0;
    if !f.deadlineOk {
      return;
    }
    w.statusLines := w.statusLines + 1;
    var e;
    n, e := WriteAll(w, ErrorResponse(status, body), f.replies);
  }

  function ErrorEvent(msg: seq<byte>): seq<byte> {
    Ascii("data: {\"error\":\"") + Escape(msg) + Ascii("\"}\n\n")
  }

  /** `SendSSEError`: one write, whose length nobody counts. */
  method SendSseError(w: Wire, msg: seq<byte>, f: Farewell) returns (ghost n: nat)
    modifies w`bytes
    ensures n <= |ErrorEvent(msg)| && w.bytes == old(w.bytes) + ErrorEvent(msg)[..n]
    ensures f.Generous(|ErrorEvent(msg)|) ==> n == |ErrorEvent(msg)|
  {
    n := 0;
    if f.deadlineOk {
      var e;
      var m;
      m, e := w.Write(ErrorEvent(msg), f.replies(0));
      n := m;
    }
  }

  // ----- the lazy header connection

  class LazyConn {
    const wire: Wire
    const headers: seq<byte>
    var headersSent: bool
    var headerBytes: nat
    ghost var body: seq<byte>  // what of the backend's writes was accepted

    constructor (wire: Wire, headers: seq<byte>)
      ensures this.wire == wire && this.headers == headers && !headersSent && headerBytes == 0 && body == []
    {
      this.wire := wire;
      this.headers := headers;
      headersSent := false;
      headerBytes := 0;
      body := [];
    }

    /** Since `start`, the client got a prefix of the headers and then the accepted body. */
    ghost predicate Sent(start: seq<byte>, lines: nat)
      reads this, wire
    {
      && headerBytes <= |headers| && wire.bytes == start + headers[..headerBytes] + body
      && (!headersSent ==> headerBytes == 0 && body == [] && wire.statusLines == lines)
      && (headersSent ==> wire.statusLines == lines + 1)
    }

    /** `lazyHeaderConn.Write`: returns how much of `p` itself was accepted. */
    method Write(p: seq<byte>, reply: Reply, ghost start: seq<byte>, ghost lines: nat) returns (n: nat, err: Error)
      requires Sent(start, lines)
      modifies this, wire
      ensures Sent(start, lines) && headersSent
      ensures n <= |p| && body == old(body) + p[..n]
      ensures old(headersSent) ==> headerBytes == old(headerBytes)
      ensures !old(headersSent) && err == NoError ==> headerBytes == |headers| && n == |p|
      ensures !old(headersSent) && headerBytes < |headers| ==> n == 0
      ensures reply.err == NoError && reply.n >= (if old(headersSent) then 0 else |headers|) + |p| ==>
              err == NoError && n == |p|
    {
      if headersSent {
        n, err := wire.Write(p, reply);
        Assoc(start + headers[..headerBytes], body, p[..n]);
        body := body + p[..n];
        return;
      }
      headersSent := true;
      wire.statusLines := wire.statusLines + 1;
      var total;
      total, err := wire.Write(headers + p, reply);
      if err == NoError && total < |headers| + |p| {
        err := ShortWrite;
      }
      assert wire.bytes == start + (headers + p)[..total] by {
        assert start + headers[..0] + [] == start;
      }
      if total >= |headers| {
        headerBytes := |headers|;
        n := total - |headers|;
        assert (headers + p)[..total] == headers[..headerBytes] + p[..n];
        Assoc(start, headers[..headerBytes], p[..n]);
      } else {
        headerBytes := total;
        n := 0;
        assert (headers + p)[..total] == headers[..headerBytes];
        assert start + headers[..headerBytes] + p[..0] == start + headers[..headerBytes];
      }
      body := body + p[..n];
      assert body == p[..n];
    }
  }

  // ----- a backend's run

  /** One `SendSSE` of a backend: arming the deadline may fail, or the write may. */
  datatype Chunk = Chunk(frame: seq<byte>, deadlineOk: bool, reply: Reply) {
    predicate Whole(before: nat) {
      deadlineOk && reply.err == NoError && reply.n >= before + |frame|
    }
  }

  /** What a backend does: writes frames, stopping at the first error, and then returns or panics. */
  datatype Backend = Backend(chunks: seq<Chunk>, end: Error)

  /** The backend wrote nothing: it failed, or returned, before its first write. */
  predicate WritesNothing(b: Backend) {
    b.chunks == [] || !b.chunks[0].deadlineOk
  }

  /** Every write of the backend, the first one with the headers, is accepted whole. */
  predicate Obliging(b: Backend, headers: seq<byte>) {
    forall i | 0 <= i < |b.chunks| :: b.chunks[i].Whole(if i == 0 then |headers| else 0)
  }

  function AllFrames(chunks: seq<Chunk>): (r: seq<seq<byte>>)
    ensures |r| == |chunks| && forall i | 0 <= i < |r| :: r[i] == chunks[i].frame
  {
    seq(|chunks|, i requires 0 <= i < |chunks| => chunks[i].frame)
  }

  /** The frames a client may see, each in part. */
  ghost predicate IsAccepted(body: seq<byte>, chunks: seq<Chunk>, parts: seq<seq<byte>>) {
    && |parts| <= |chunks| && body == Flatten(parts)
    && forall i | 0 <= i < |parts| :: parts[i] <= chunks[i].frame
  }

  /** `Stream` of any backend: the count it returns is exactly what was accepted of its frames. */
  method RunBackend(c: LazyConn, b: Backend, ghost start: seq<byte>, ghost lines: nat)
    returns (bodyBytes: nat, err: Error, ghost parts: seq<seq<byte>>)
    requires c.Sent(start, lines) && !c.headersSent
    modifies c, c.wire
    ensures c.Sent(start, lines) && bodyBytes == |c.body| && IsAccepted(c.body, b.chunks, parts)
    ensures c.headersSent <==> !WritesNothing(b)
    ensures Obliging(b, c.headers) ==>
            err == b.end && parts == AllFrames(b.chunks) && (c.headersSent ==> c.headerBytes == |c.headers|)
  {
    bodyBytes := 0;
    parts := [];
    for i := 0 to |b.chunks|
      invariant c.Sent(start, lines) && bodyBytes == |c.body| && |parts| == i && IsAccepted(c.body, b.chunks, parts)
      invariant c.headersSent <==> i > 0
      invariant i > 0 ==> b.chunks[0].deadlineOk && c.headerBytes == |c.headers|
      invariant Obliging(b, c.headers) ==> forall k | 0 <= k < i :: parts[k] == b.chunks[k].frame
    {
      var chunk := b.chunks[i];
      assert Obliging(b, c.headers) ==> chunk.Whole(if i == 0 then |c.headers| else 0);
      if !chunk.deadlineOk {
        return bodyBytes, Other, parts;
      }
      var n;
      n, err := c.Write(chunk.frame, chunk.reply, start, lines);
      bodyBytes := bodyBytes + n;
      FlattenSnoc(parts, chunk.frame[..n]);
      parts := parts + [chunk.frame[..n]];
      if err != NoError {
        return bodyBytes, err, parts;
      }
    }
    err := b.end;
  }

  // ----- the whole response

  /** The parts of a response: headers, body and error event, or else an error response. */
  datatype Response = Response(headers: seq<byte>, body: seq<byte>, event: seq<byte>, instead: seq<byte>) {
    function All(): seq<byte> {
      headers + body + event + instead
    }
  }

  function StatusFor(err: Error): (r: (seq<byte>, seq<byte>)) {
    if err == DeadlineExceeded then (Ascii("504 Gateway Timeout"), Ascii("Upstream timeout\n"))
    else if err == Canceled then (Ascii("503 Service Unavailable"), Ascii("Stream cancelled\n"))
    else (Ascii("502 Bad Gateway"), Ascii("Upstream error\n"))
  }

  function MessageFor(err: Error): seq<byte> {
    if err == DeadlineExceeded then Ascii("stream timed out")
    else if err == Canceled then Ascii("stream cancelled")
    else Ascii("upstream error")
  }

  /**
   * The shape every response has: part of the headers, the accepted body and part of an error event;
   * or, when the backend wrote nothing, part of an error response. Nothing else is on the wire.
   */
  ghost predicate WellFormed(r: Response, c: LazyConn, start: seq<byte>)
    reads c, c.wire
  {
    && c.wire.bytes == start + r.All()
    && r.headers <= c.headers && r.body == c.body && |r.headers| == c.headerBytes
    && (r.instead != [] ==> !c.headersSent && r.headers == r.body == r.event == [])
    && (r.event != [] ==> c.headersSent)
  }

  lemma PlainShape(c: LazyConn, start: seq<byte>, lines: nat) returns (r: Response)
    requires c.Sent(start, lines)
    ensures WellFormed(r, c, start) && r.event == r.instead == []
  {
    r := Response(c.headers[..c.headerBytes], c.body, [], []);
    assert r.All() == c.headers[..c.headerBytes] + c.body;
    Assoc(start, c.headers[..c.headerBytes], c.body);
  }

  /** One more piece at the end of the wire is the event or the response, whichever was still empty. */
  lemma Ended(start: seq<byte>, r: Response, tail: seq<byte>)
    requires r.event == r.instead == []
    ensures (start + r.All()) + tail == start + r.(event := tail).All() == start + r.(instead := tail).All()
  {
    assert r.(event := tail).All() == r.All() + tail;
    assert r.(instead := tail).All() == r.All() + tail;
    Assoc(start, r.All(), tail);
  }

  /** `streamToClientWithBytes`, for every backend and every reply of the connection. */
  method StreamToClient(c: LazyConn, b: Backend, f: Farewell, ghost start: seq<byte>, ghost lines: nat)
    returns (total: nat, err: Error, ghost r: Response, ghost parts: seq<seq<byte>>)
    requires c.Sent(start, lines) && !c.headersSent
    modifies c, c.wire
    ensures WellFormed(r, c, start) && IsAccepted(r.body, b.chunks, parts)
    ensures (c.headersSent <==> !WritesNothing(b)) && (!c.headersSent ==> r.headers == r.body == [])
    ensures err != Panicked ==> total == |r.headers| + |r.body| + |r.instead|
    ensures err == Panicked ==> r.event == r.instead == []
    ensures lines <= c.wire.statusLines <= lines + 1
    ensures r.instead != [] ==> r.instead <= ErrorResponse(StatusFor(err).0, StatusFor(err).1)
    ensures r.instead != [] ==> err != NoError && err != ClientDisconnected
    ensures r.event != [] ==> r.event <= ErrorEvent(MessageFor(err)) && err != NoError && err != ClientDisconnected
    ensures err == Panicked && !c.headersSent ==> c.wire.statusLines == lines
    ensures Obliging(b, c.headers) ==>
              && err == b.end && parts == AllFrames(b.chunks) && (c.headersSent ==> r.headers == c.headers)
              && (err == NoError ==> r.event == r.instead == [])
    ensures c.headersSent && err != NoError && err != ClientDisconnected && err != Panicked
            && f.Generous(|ErrorEvent(MessageFor(err))|) ==>
              r.event == ErrorEvent(MessageFor(err))
    ensures !c.headersSent && err != NoError && err != ClientDisconnected && err != Panicked
            && f.Generous(|ErrorResponse(StatusFor(err).0, StatusFor(err).1)|) ==>
              r.instead == ErrorResponse(StatusFor(err).0, StatusFor(err).1)
  {
    hide ErrorResponse, ErrorEvent, StatusFor, MessageFor;
    var bodyBytes;
    bodyBytes, err, parts := RunBackend(c, b, start, lines);
    r := PlainShape(c, start, lines);
    total := c.headerBytes + bodyBytes;
    if err == NoError || err == ClientDisconnected || err == Panicked {
      return;
    }
    if !c.headersSent {
      var status, body := StatusFor(err).0, StatusFor(err).1;
      var n := WriteErrorResponse(c.wire, status, body, f);
      Ended(start, r, ErrorResponse(status, body)[..n]);
      r := r.(instead := ErrorResponse(status, body)[..n]);
      total := total + n;
    } else {
      ghost var n := SendSseError(c.wire, MessageFor(err), f);
      Ended(start, r, ErrorEvent(MessageFor(err))[..n]);
      r := r.(event := ErrorEvent(MessageFor(err))[..n]);
    }
  }

  // ----- the connection handler

  /** What happens before a backend runs. */
  datatype Prelude = Malformed | ImageRejected | AttachmentRejected | Ready

  /** The benchmark counters. */
  class Stats {
    var active: int
    var started: nat
    var completed: nat
    var failed: nat
    var bytes: nat

    constructor ()
      ensures active == started == completed == failed == bytes == 0
    {
      active, started, completed, failed, bytes := 0, 0, 0, 0, 0;
    }

    method StreamStart()
      modifies this`active, this`started
      ensures active == old(active) + 1 && started == old(started) + 1
    {
      started := started + 1;
      active := active + 1;
    }

    method StreamEnd(success: bool, sent: nat)
      modifies this`active, this`completed, this`failed, this`bytes
      ensures active == old(active) - 1 && bytes == old(bytes) + sent
      ensures completed == old(completed) + (if success then 1 else 0)
              && failed == old(failed) + (if success then 0 else 1)
    {
      active := active - 1;
      if success {
        completed := completed + 1;
      } else {
        failed := failed + 1;
      }
      bytes := bytes + sent;
    }
  }

  const PANIC_TEXT: seq<byte> := Ascii("internal server error")

  function PanicResponse(): seq<byte> {
    ErrorResponse(Ascii("500 Internal Server Error"), Ascii("Internal server error\n"))
  }

  /** The panic handler: an event if headers are on the wire, otherwise an error response. */
  method Recover(w: Wire, headersSent: bool, ghost was: Response, f: Farewell) returns (ghost r: Response)
    requires w.bytes == was.All() && was.event == was.instead == []
    modifies w
    ensures w.bytes == r.All() && r.headers == was.headers && r.body == was.body
    ensures if headersSent then
              && r.instead == [] && r.event <= ErrorEvent(PANIC_TEXT) && w.statusLines == old(w.statusLines)
              && (f.Generous(|ErrorEvent(PANIC_TEXT)|) ==> r.event == ErrorEvent(PANIC_TEXT))
            else
              && r.event == [] && r.instead <= PanicResponse()
              && w.statusLines == old(w.statusLines) + (if f.deadlineOk then 1 else 0)
              && (f.Generous(|PanicResponse()|) ==> r.instead == PanicResponse())
  {
    hide ErrorResponse, ErrorEvent;
    assert [] + was.All() == was.All();
    if headersSent {
      ghost var n := SendSseError(w, PANIC_TEXT, f);
      Ended([], was, ErrorEvent(PANIC_TEXT)[..n]);
      r := was.(event := ErrorEvent(PANIC_TEXT)[..n]);
    } else {
      var status, text := Ascii("500 Internal Server Error"), Ascii("Internal server error\n");
      var n := WriteErrorResponse(w, status, text, f);
      Ended([], was, ErrorResponse(status, text)[..n]);
      r := was.(instead := ErrorResponse(status, text)[..n]);
    }
  }

  function RejectionText(prelude: Prelude): seq<byte> {
    match prelude
    case ImageRejected => Ascii("Image path not allowed\n")
    case AttachmentRejected => Ascii("Attachment not allowed\n")
    case _ => Ascii("Malformed handoff data\n")
  }

  function Rejection(prelude: Prelude): seq<byte> {
    ErrorResponse(Ascii("400 Bad Request"), RejectionText(prelude))
  }

  /** A request that could not be understood is answered with 400. */
  method Reject(w: Wire, prelude: Prelude, f: Farewell) returns (ghost r: Response)
    requires w.bytes == [] && prelude != Ready
    modifies w
    ensures w.bytes == r.All() && r.headers == r.body == r.event == [] && r.instead <= Rejection(prelude)
    ensures w.statusLines == old(w.statusLines) + (if f.deadlineOk then 1 else 0)
    ensures f.Generous(|Rejection(prelude)|) ==> r.instead == Rejection(prelude)
  {
    hide ErrorResponse;
    r := Response([], [], [], []);
    var text := if prelude == Malformed then Ascii("Malformed handoff data\n")
                else if prelude == ImageRejected then Ascii("Image path not allowed\n")
                else Ascii("Attachment not allowed\n");
    var n := WriteErrorResponse(w, Ascii("400 Bad Request"), text, f);
    Ended([], r, ErrorResponse(Ascii("400 Bad Request"), text)[..n]);
    r := r.(instead := ErrorResponse(Ascii("400 Bad Request"), text)[..n]);
  }

  lemma Finished(r: Response)
    requires r.event == r.instead == []
    ensures r.All() == r.headers + r.body
  {
  }

  /** The last words of a response: each is cut off at most, goes out whole where it can, and is not sent otherwise. */
  ghost predicate Ends(r: Response, event: Option<seq<byte>>, instead: Option<seq<byte>>, f: Farewell) {
    && (match event
        case None => r.event == []
        case Some(m) => r.event <= m && (f.Generous(|m|) ==> r.event == m))
    && (match instead
        case None => r.instead == []
        case Some(m) => r.instead <= m && (f.Generous(|m|) ==> r.instead == m))
  }

  /**
   * `handleConnection` from the client socket on. However the backend ends, a panic included, the
   * client sees at most one status line, and a stream that was started is ended and counted once.
   */
  method HandleConnection(w: Wire, stats: Stats, prelude: Prelude, headers: seq<byte>, b: Backend, f: Farewell,
      last: Farewell)
    returns (ghost r: Response, ghost parts: seq<seq<byte>>, ghost err: Error)
    requires w.bytes == []
    modifies w, stats
    ensures w.bytes == r.All() && r.headers <= headers && IsAccepted(r.body, b.chunks, parts)
    ensures w.statusLines <= old(w.statusLines) + 1
    ensures r.instead != [] ==> r.headers == r.body == r.event == [] && (prelude != Ready || WritesNothing(b))
    ensures stats.active == old(stats.active)
    ensures stats.started - stats.completed - stats.failed == old(stats.started - stats.completed - stats.failed)
    ensures stats.completed == old(stats.completed) + (if prelude == Ready && err == NoError then 1 else 0)
    ensures err == NoError ==> prelude != Ready || r.event == r.instead == []
    ensures stats.bytes == old(stats.bytes)
            + (if prelude == Ready && err != Panicked then |r.headers| + |r.body| + |r.instead| else 0)
    ensures prelude != Ready ==> Ends(r, None, Some(Rejection(prelude)), f)
    ensures prelude == Ready ==>
              var sent := !WritesNothing(b);
              match err
              case NoError => Ends(r, None, None, f)
              case ClientDisconnected => Ends(r, None, None, f)
              case Panicked =>
                Ends(r, if sent then Some(ErrorEvent(PANIC_TEXT)) else None,
                     if sent then None else Some(PanicResponse()),
                  last)
              case _ =>
                Ends(r, if sent then Some(ErrorEvent(MessageFor(err))) else None,
                  if sent then None else Some(ErrorResponse(StatusFor(err).0, StatusFor(err).1)), f)
    ensures prelude == Ready && Obliging(b, headers) ==> err == b.end
    ensures prelude == Ready && Obliging(b, headers) && b.end == NoError ==>
              && w.bytes == (if b.chunks == [] then [] else headers + Flatten(AllFrames(b.chunks)))
              && err == NoError
  {
    hide ErrorResponse, ErrorEvent;
    parts := [];
    if prelude != Ready {
      r := Reject(w, prelude, f);
      err := NoError;
      return;
    }
    stats.StreamStart();
    var c := new LazyConn(w, headers);
    assert [] + headers[..0] + [] == [];
    var total, e;
    total, e, r, parts := StreamToClient(c, b, f, [], w.statusLines);
    err := e;
    stats.StreamEnd(e == NoError, if e == Panicked then 0 else total);
    if e == Panicked {
      r := Recover(w, c.headersSent, r, last);
    } else if e == NoError && Obliging(b, headers) {
      Finished(r);
    }
  }
}
