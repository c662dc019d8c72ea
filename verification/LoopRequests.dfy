/**
 * A request relayed through a connection's buffer: whatever the event loop does, no byte queued for the client is lost
 * or repeated, and the connection is counted as completed only when the client has accepted all of them.
 */
module LoopRequests {
  import opened Bytes
  import opened Connections
  import opened CurlRelay
  import opened LoopEvents
  import opened LoopMachine
  import opened LoopRuns
  import opened WriteBuffers
  import LineAssembly
  import SseFormat

  /**
   * A request in progress: the client has accepted what was taken off the queue, as much is counted as sent, and the
   * rest of what was queued is unsent.
   */
  predicate Tidy(slot: Slot) {
    && (slot.state == CurlPending || slot.state == CurlActive || slot.state == Closing)
    && !slot.pooled && !slot.misled && (slot.ticket.Some? ==> slot.Busy())
    && slot.taken <= slot.appended && slot.delivered == slot.taken && slot.out == NO_WRITE.(sent := |slot.taken|)
    && slot.Unsent() == |slot.appended| - |slot.taken|
  }

  /** The event, if it is a completion for `c`, is that of the write it waits for, and of no more than is queued. */
  predicate Own(s: Snapshot, e: LoopEvent, c: Conn) {
    e.WriteDone? && e.serial in s.ring.writes && s.ring.writes[e.serial].slot == c ==>
      s.Of(c).ticket == Some(e.serial) && e.res <= s.ring.writes[e.serial].len && e.res <= s.Of(c).Unsent()
  }

  lemma AppendedLength(shape: Layout, len: nat, canGrow: bool)
    requires shape.tail <= shape.head
    ensures var after := shape.Appended(len, canGrow);
            && after.busy == shape.busy
            && after.head - after.tail == shape.head - shape.tail + (if shape.Accepts(len, canGrow) then len else 0)
  {
  }

  lemma QueuedTidy(slot: Slot, data: seq<byte>, canCreate: bool, canGrow: bool)
    requires Tidy(slot)
    ensures Tidy(slot.Queued(data, canCreate, canGrow))
  {
    hide Layout.Appended, Layout.Accepts;
    AppendedLength(if slot.shape.Some? then slot.shape.value else EMPTY_SHAPE, |data|, canGrow);
  }

  lemma PushedTidy(s: Snapshot, c: Conn, data: seq<byte>, after: ConnState, next: Relay, canCreate: bool, canGrow: bool)
    requires Tidy(s.Of(c)) && (after == CurlActive || after == Closing)
    ensures Tidy(Pushed(s, c, data, after, next, canCreate, canGrow).0.Of(c))
  {
    hide Slot.Queued, Slot.Accepts;
    QueuedTidy(s.Of(c), data, canCreate, canGrow);
  }

  lemma TriedTidy(s: Snapshot, c: Conn, writeOk: bool)
    requires Tidy(s.Of(c))
    ensures Tidy(Tried(s, c, writeOk).Of(c))
  {
  }

  lemma RelayedTidy(s: Snapshot, c: Conn, data: seq<byte>, next: Relay, call: AppendCall)
    requires Tidy(s.Of(c))
    ensures Tidy(Relayed(s, c, data, next, call).0.Of(c))
  {
    hide Pushed, Tried, Tidy;
    PushedTidy(s, c, data, CurlActive, next, call.canCreate, call.canGrow);
    if Pushed(s, c, data, CurlActive, next, call.canCreate, call.canGrow).1 {
      TriedTidy(Pushed(s, c, data, CurlActive, next, call.canCreate, call.canGrow).0, c, call.writeOk);
    }
  }

  lemma NotedTidy(s: Snapshot, c: Conn, next: Relay)
    requires Tidy(s.Of(c))
    ensures Tidy(s.With(c, s.Of(c).(relay := next)).Of(c))
  {
  }

  lemma LineTidy(s: Snapshot, c: Conn, line: seq<byte>, call: AppendCall)
    requires Tidy(s.Of(c))
    ensures Tidy(LineTaken(s, c, line, call).0.Of(c))
  {
    hide Relayed, Tidy;
    var later := s.Of(c).relay.(lines := s.Of(c).relay.lines + [line]);
    match SseFormat.SseContent(line) {
      case None => NotedTidy(s, c, later);
      case Some(text) => RelayedTidy(s, c, FrameFor(line), later, call);
    }
  }

  lemma {:induction false} LinesTidy(s: Snapshot, c: Conn, lines: seq<seq<byte>>, calls: seq<AppendCall>, first: nat)
    requires Tidy(s.Of(c))
    ensures Tidy(LinesTaken(s, c, lines, calls, first).0.Of(c))
    decreases |lines|
  {
    hide LineTaken, Tidy;
    if lines != [] {
      LineTidy(s, c, lines[0], AppendFor(calls, first));
      var (t, ok) := LineTaken(s, c, lines[0], AppendFor(calls, first));
      if ok {
        LinesTidy(t, c, lines[1..], calls, first + 1);
      }
    }
  }

  lemma ChunkTidy(s: Snapshot, c: Conn, chunk: seq<byte>, calls: seq<AppendCall>)
    requires Tidy(s.Of(c))
    ensures Tidy(ChunkTaken(s, c, chunk, calls).0.Of(c))
  {
    hide LinesTaken, Tried, LineAssembly.FoundLines, LineAssembly.Kept, Tidy;
    var slot := s.Of(c);
    var all, next := slot.relay.held + chunk, slot.relay.(upstream := slot.relay.upstream + chunk, behind := true);
    NotedTidy(s, c, next);
    var begun := s.With(c, slot.(relay := next));
    LinesTidy(begun, c, LineAssembly.FoundLines(all), calls, 1);
    var (t, n) := LinesTaken(begun, c, LineAssembly.FoundLines(all), calls, 1);
    var done := t.Of(c).relay.(held := LineAssembly.Kept(all), behind := false);
    NotedTidy(t, c, done);
    TriedTidy(t.With(c, t.Of(c).(relay := done)), c, AppendFor(calls, 1 + n).writeOk);
  }

  lemma BytesTidy(s: Snapshot, c: Conn, chunk: seq<byte>, room: bool, calls: seq<AppendCall>)
    requires Tidy(s.Of(c))
    ensures Tidy(BytesTaken(s, c, chunk, room, calls).0.Of(c))
  {
    hide Relayed, ChunkTaken, Tidy;
    var next := s.Of(c).relay.(headers := true);
    RelayedTidy(s, c, SSE_HEADERS, next, AppendFor(calls, 0));
    var (t, _) :=
      if s.Of(c).relay.headers then (s, true) else Relayed(s, c, SSE_HEADERS, next, AppendFor(calls, 0));
    ChunkTidy(t, c, chunk, calls);
    NotedTidy(t, c, t.Of(c).relay.(behind := true));
  }

  lemma ClosedTidy(s: Snapshot, c: Conn)
    requires Tidy(s.Of(c))
    ensures Tidy(s.With(c, s.Of(c).(state := Closing)).Of(c))
  {
  }

  lemma EndedTidy(s: Snapshot, c: Conn, success: bool, canGrow: bool)
    requires Tidy(s.Of(c))
    ensures Tidy(RequestEnded(s, c, success, canGrow).Of(c))
  {
    hide Pushed, Tidy;
    var done := s.Of(c).relay.(done := true);
    PushedTidy(s, c, SSE_DONE, Closing, done, false, canGrow);
    ClosedTidy(s, c);
    ClosedTidy(Pushed(s, c, SSE_DONE, Closing, done, false, canGrow).0, c);
  }

  /** What curl reports, and what is not for a request at all. */
  lemma NextOnTidy(s: Snapshot, c: Conn, e: LoopEvent)
    requires Tidy(s.Of(c))
    ensures Tidy(NextOn(s, c, e).Of(c))
  {
    hide BytesTaken, RequestEnded, Tried;
    match e {
      case CurlBytes(_, chunk, room, appends) => BytesTidy(s, c, chunk, room, appends);
      case CurlDone(_, success, canGrow) => EndedTidy(s, c, success, canGrow);
      case Immediate(_, writeOk) => TriedTidy(s, c, writeOk);
      case _ =>
    }
  }

  lemma ResentTidy(s: Snapshot, c: Conn, writeOk: bool, linkOk: bool)
    requires Tidy(s.Of(c))
    ensures var t := Resent(s, c, writeOk, linkOk);
            if t.Of(c) == FREE_SLOT then t.tally == s.tally.Ended(Some(Failed), 0) else Tidy(t.Of(c))
  {
  }

  lemma CompletedTidy(slot: Slot, n: nat)
    requires Tidy(slot) && n <= slot.Unsent()
    ensures var after := slot.Completed(n, true);
            && Tidy(after.(ticket := None))
            && after.delivered == slot.delivered + slot.appended[|slot.taken|..|slot.taken| + n]
            && after.Unsent() == slot.Unsent() - n && after.appended == slot.appended && after.state == slot.state
  {
    assert slot.appended[..|slot.taken| + n] == slot.taken + slot.appended[|slot.taken|..|slot.taken| + n];
  }

  /** How a completion can end a request: with everything queued accepted while it is closing, or as a failure. */
  predicate Ending(s: Snapshot, t: Snapshot, c: Conn, res: int) {
    var slot := s.Of(c);
    if slot.state == Closing && 0 <= res == slot.Unsent() then
      t.tally == s.tally.Ended(Some(Completed), |slot.appended|) && slot.delivered + slot.Front(res) == slot.appended
    else t.tally == s.tally.Ended(Some(Failed), 0)
  }

  lemma GoneOnTidy(s: Snapshot, c: Conn, writeOk: bool, linkOk: bool)
    requires Tidy(s.Of(c))
    ensures var t := GoneOn(s, c, writeOk, linkOk);
            if t.Of(c) != FREE_SLOT then Tidy(t.Of(c))
            else if s.Of(c).Unsent() == 0 then
              s.Of(c).state == Closing && t.tally == s.tally.Ended(Some(Completed), s.Of(c).out.sent)
            else t.tally == s.tally.Ended(Some(Failed), 0)
  {
    hide Resent;
    ResentTidy(s, c, writeOk, linkOk);
  }

  lemma DrainedTidy(s: Snapshot, c: Conn, res: int, writeOk: bool, linkOk: bool)
    requires Tidy(s.Of(c)) && s.Of(c).ticket == None && res <= s.Of(c).Unsent()
    ensures var t := Drained(s, c, true, res, writeOk, linkOk);
            if t.Of(c) == FREE_SLOT then Ending(s, t, c, res) else Tidy(t.Of(c))
  {
    hide GoneOn;
    if res >= 0 {
      var slot := s.Of(c);
      CompletedTidy(slot, res);
      hide Slot.Completed;
      GoneOnTidy(s.With(c, slot.Completed(res, true)), c, writeOk, linkOk);
      assert slot.taken + slot.appended[|slot.taken|..] == slot.appended;
    }
  }

  lemma ArrivedTidy(s: Snapshot, c: Conn, k: nat, t: Snapshot, res: int)
    requires Tidy(s.Of(c))
    ensures var now := Arrived(s, c, k);
            Tidy(now.Of(c)) && now.Of(c) == s.Of(c).(ticket := None) && Ending(now, t, c, res) == Ending(s, t, c, res)
  {
  }

  lemma CqeTidy(s: Snapshot, e: LoopEvent, c: Conn)
    requires Tidy(s.Of(c)) && Own(s, e, c)
    requires e.WriteDone? && e.serial in s.ring.writes && s.ring.writes[e.serial].slot == c
    ensures var t := CqeTaken(s, e.serial, e.res, e.next, e.writeOk, e.linkOk);
            if t.Of(c) == FREE_SLOT then Ending(s, t, c, e.res) else Tidy(t.Of(c))
  {
    hide Drained, Ending;
    var t := Arrived(s, c, e.serial);
    ArrivedTidy(s, c, e.serial, CqeTaken(s, e.serial, e.res, e.next, e.writeOk, e.linkOk), e.res);
    DrainedTidy(t, c, e.res, e.writeOk, e.linkOk);
  }

  lemma FlushedTidy(s: Snapshot, c: Conn, call: Submission)
    requires Tidy(s.Of(c))
    ensures var t := Flushed(s, c, call); t.Of(c) == FREE_SLOT || Tidy(t.Of(c))
  {
    hide Resent;
    ResentTidy(s, c, call.writeOk, call.linkOk);
  }

  lemma {:induction false} FlushTidy(s: Snapshot, was: seq<Conn>, calls: seq<Submission>, j: nat, c: Conn)
    requires Tidy(s.Of(c)) && j <= |was|
    ensures var t := FlushedTo(s, was, calls, j); t.Of(c) == FREE_SLOT || Tidy(t.Of(c))
  {
    hide Flushed, Tidy;
    if j > 0 {
      FlushTidy(s, was, calls, j - 1, c);
      var t, call := FlushedTo(s, was, calls, j - 1), CallFor(calls, was[j - 1].id);
      FlushedElsewhere(t, was[j - 1], call, c);
      if was[j - 1] == c && t.Of(c) != FREE_SLOT {
        FlushedTidy(t, c, call);
      }
    }
  }

  lemma StillThere(slot: Slot)
    ensures Tidy(slot) ==> slot.state != Unused
  {
  }

  /** Every event leaves a request in order, or ends it; a completion ends it as completed only with all accepted. */
  lemma RequestStep(conns: seq<Conn>, s: Snapshot, e: LoopEvent, c: Conn)
    requires Tidy(s.Of(c)) && c !in s.free && Own(s, e, c)
    ensures var t := Next(conns, s, e);
            && (t.Of(c) == FREE_SLOT || (Tidy(t.Of(c)) && c !in t.free))
            && (t.Of(c) == FREE_SLOT ==> e.Flush? || (e.WriteDone? && Ending(s, t, c, e.res)))
  {
    hide NextOn, CqeTaken, FlushedTo, Tidy, Ending, Own;
    StillThere(s.Of(c));
    if !Concerns(conns, s, e, c) {
      Bystander(conns, s, e, c);
    } else if e.WriteDone? {
      CqeTidy(s, e, c);
      CompletionElsewhere(s, e.serial, e.res, e.next, e.writeOk, e.linkOk, c);
    } else if e.Flush? {
      FlushTidy(s, s.dirty, e.calls, |s.dirty|, c);
      FlushElsewhere(s, s.dirty, e.calls, |s.dirty|, c);
    } else if !e.AcceptOne? {
      NextOnTidy(s, c, e);
      NextOnElsewhere(s, c, e, c);
      StillThere(NextOn(s, c, e).Of(c));
    }
  }

  predicate AllOwn(conns: seq<Conn>, s: Snapshot, events: seq<LoopEvent>, c: Conn) {
    events == []
    || (AllOwn(conns, s, events[..|events| - 1], c)
        && Own(AfterAll(conns, s, events[..|events| - 1]), events[|events| - 1], c))
  }

  /** A request that curl has just been given. */
  lemma RequestBegins(s: Snapshot, c: Conn)
    requires s.Of(c) == FREE_SLOT.(state := ReceivingFd)
    ensures Tidy(FdTaken(s, c, Good(ToCurl(true))).Of(c))
  {
  }

  /**
   * Through every run in which its slot stays in use, a request is in order: what the client has accepted is the
   * beginning of what was queued, what is unsent is the rest, and as much is counted as was accepted.
   */
  lemma {:induction false} RequestGoesOn(conns: seq<Conn>, s: Snapshot, events: seq<LoopEvent>, c: Conn)
    requires Tidy(s.Of(c)) && c !in s.free && InUse(conns, s, events, c) && AllOwn(conns, s, events, c)
    ensures var t := AfterAll(conns, s, events); Tidy(t.Of(c)) && c !in t.free
  {
    hide Next, Tidy, Own;
    if events != [] {
      var k := |events| - 1;
      RequestGoesOn(conns, s, events[..k], c);
      RequestStep(conns, AfterAll(conns, s, events[..k]), events[k], c);
    }
  }

  /**
   * The event that ends it is a flush whose submission is refused, or a completion: then the connection is counted as
   * completed if and only if it was closing and the client has now accepted everything that was queued, with just
   * these bytes, and as failed otherwise.
   */
  lemma RequestEnds(conns: seq<Conn>, s: Snapshot, events: seq<LoopEvent>, e: LoopEvent, c: Conn)
    requires Tidy(s.Of(c)) && c !in s.free && InUse(conns, s, events, c) && AllOwn(conns, s, events + [e], c)
    requires AfterAll(conns, s, events + [e]).Of(c).state == Unused
    ensures var now, t := AfterAll(conns, s, events), AfterAll(conns, s, events + [e]);
            t.Of(c) == FREE_SLOT && (e.Flush? || (e.WriteDone? && Ending(now, t, c, e.res)))
  {
    hide Next, Own, Ending;
    assert (events + [e])[..|events|] == events;
    RequestGoesOn(conns, s, events, c);
    RequestStep(conns, AfterAll(conns, s, events), e, c);
  }
}
