/**
 * What whole runs of the event loop amount to: which events a connection notices, how many connections are started,
 * what a request has received from its upstream, what was sent, and how a stream whose writes all succeed ends.
 */
module LoopRuns {
  import opened Bytes
  import opened Connections
  import opened CurlRelay
  import opened LoopEvents
  import opened LoopMachine
  import opened WriteBuffers
  import LineAssembly
  import SseFormat

  /** The event is about connection `c`. */
  predicate Concerns(conns: seq<Conn>, s: Snapshot, e: LoopEvent, c: Conn) {
    match e
    case AcceptOne(_, _) => s.free != [] && s.free[0] == c
    case WriteDone(k, _, _, _, _) => k in s.ring.writes && s.ring.writes[k].slot == c
    case Flush(_) => c in s.dirty
    case _ => e.id < |conns| && conns[e.id] == c
  }

  // ----- what work on one slot leaves alone

  /** Work on slot `c`, which may end it: what shows of it at slot `d`, on the free list and in the starts. */
  predicate Elsewhere(s: Snapshot, t: Snapshot, c: Conn, d: Conn) {
    && (d != c ==> t.Of(d) == s.Of(d))
    && (d != c ==> (d in t.dirty <==> d in s.dirty))
    && t.tally.started == s.tally.started
    && (t.free == s.free || (t.free == [c] + s.free && t.Of(c) == FREE_SLOT))
  }

  /** The slot is free, or its request is where it was and it has sent `n` bytes more. */
  predicate Further(s: Snapshot, t: Snapshot, c: Conn, n: nat) {
    t.Of(c) == FREE_SLOT
    || (t.Of(c).out.sent == s.Of(c).out.sent + n && t.Of(c).relay.(done := false) == s.Of(c).relay.(done := false))
  }

  /** Work on the queue of slot `c`. */
  predicate Queueing(s: Snapshot, t: Snapshot, c: Conn, d: Conn) {
    && (d != c ==> t.Of(d) == s.Of(d) && (d in t.dirty <==> d in s.dirty))
    && t.tally == s.tally && t.free == s.free && t.Of(c).out == s.Of(c).out
  }

  lemma PushedQueues(s: Snapshot, c: Conn, data: seq<byte>, after: ConnState, next: Relay, canCreate: bool,
      canGrow: bool, d: Conn)
    ensures var (t, ok) := Pushed(s, c, data, after, next, canCreate, canGrow);
            && Queueing(s, t, c, d) && t.Of(c).relay == (if ok then next else s.Of(c).relay)
            && t.Of(c).state == (if ok then after else s.Of(c).state)
  {
    hide Layout.Appended, Layout.Accepts, Slot.Accepts;
  }

  lemma TriedQueues(s: Snapshot, c: Conn, writeOk: bool, d: Conn)
    ensures var t := Tried(s, c, writeOk);
            && Queueing(s, t, c, d) && t.Of(c).relay == s.Of(c).relay && t.Of(c).state == s.Of(c).state
            && (t.Of(c).Busy() <==> s.Of(c).Busy() || (s.Of(c).Unsent() > 0 && writeOk))
  {
  }

  lemma RelayedQueues(s: Snapshot, c: Conn, data: seq<byte>, next: Relay, call: AppendCall, d: Conn)
    ensures var (t, ok) := Relayed(s, c, data, next, call);
            && Queueing(s, t, c, d) && t.Of(c).relay == (if ok then next else s.Of(c).relay)
            && t.Of(c).state == (if ok then CurlActive else s.Of(c).state)
  {
    hide Pushed, Tried;
    var (t, _) := Pushed(s, c, data, CurlActive, next, call.canCreate, call.canGrow);
    PushedQueues(s, c, data, CurlActive, next, call.canCreate, call.canGrow, d);
    TriedQueues(t, c, call.writeOk, d);
  }

  lemma LineQueues(s: Snapshot, c: Conn, line: seq<byte>, call: AppendCall, d: Conn)
    ensures var (t, ok) := LineTaken(s, c, line, call);
            && Queueing(s, t, c, d)
            && t.Of(c).relay == (if ok then s.Of(c).relay.(lines := s.Of(c).relay.lines + [line]) else s.Of(c).relay)
  {
    hide Relayed;
    var later := s.Of(c).relay.(lines := s.Of(c).relay.lines + [line]);
    match SseFormat.SseContent(line) {
      case None =>
      case Some(text) => RelayedQueues(s, c, FrameFor(line), later, call, d);
    }
  }

  lemma QueuesOn(s: Snapshot, t: Snapshot, u: Snapshot, c: Conn, d: Conn)
    requires Queueing(s, t, c, d) && Queueing(t, u, c, d)
    ensures Queueing(s, u, c, d)
  {
  }

  lemma {:induction false} LinesQueue(s: Snapshot, c: Conn, lines: seq<seq<byte>>, calls: seq<AppendCall>, first: nat,
      d: Conn)
    ensures var (t, n) := LinesTaken(s, c, lines, calls, first);
            && n <= |lines| && Queueing(s, t, c, d)
            && t.Of(c).relay == s.Of(c).relay.(lines := s.Of(c).relay.lines + lines[..n])
    decreases |lines|
  {
    hide LineTaken, Snapshot.Of;
    assert s.Of(c).relay.lines + [] == s.Of(c).relay.lines;
    if lines != [] {
      hide Queueing;
      var (t, ok) := LineTaken(s, c, lines[0], AppendFor(calls, first));
      LineQueues(s, c, lines[0], AppendFor(calls, first), d);
      if ok {
        LinesQueue(t, c, lines[1..], calls, first + 1, d);
        var (u, n) := LinesTaken(t, c, lines[1..], calls, first + 1);
        QueuesOn(s, t, u, c, d);
        assert s.Of(c).relay.lines + [lines[0]] + lines[1..][..n] == s.Of(c).relay.lines + lines[..n + 1];
      }
    }
  }

  lemma ChunkQueues(s: Snapshot, c: Conn, chunk: seq<byte>, calls: seq<AppendCall>, d: Conn)
    ensures var (t, ok) := ChunkTaken(s, c, chunk, calls);
            && Queueing(s, t, c, d) && t.Of(c).relay.upstream == s.Of(c).relay.upstream + chunk
            && t.Of(c).relay.behind == !ok
  {
    hide LinesTaken, Tried, LineAssembly.FoundLines, LineAssembly.Kept;
    var all := s.Of(c).relay.held + chunk;
    var slot := s.Of(c);
    var begun := s.With(c, slot.(relay := slot.relay.(upstream := slot.relay.upstream + chunk, behind := true)));
    LinesQueue(begun, c, LineAssembly.FoundLines(all), calls, 1, d);
    var (t, n) := LinesTaken(begun, c, LineAssembly.FoundLines(all), calls, 1);
    var after := t.Of(c);
    var done := t.With(c, after.(relay := after.relay.(held := LineAssembly.Kept(all), behind := false)));
    TriedQueues(done, c, AppendFor(calls, 1 + n).writeOk, d);
  }

  /** A chunk for a request that goes on is added to what came before; otherwise the request is behind for good. */
  lemma BytesQueue(s: Snapshot, c: Conn, chunk: seq<byte>, room: bool, calls: seq<AppendCall>, d: Conn)
    ensures var t := BytesTaken(s, c, chunk, room, calls).0;
            && Queueing(s, t, c, d)
            && var fed := (s.Of(c).state == CurlPending || s.Of(c).state == CurlActive) && !s.Of(c).relay.behind;
               if fed && !t.Of(c).relay.behind then t.Of(c).relay.upstream == s.Of(c).relay.upstream + chunk
               else t.Of(c).relay.behind == (fed || s.Of(c).relay.behind) && (!fed ==> t == s)
  {
    hide Relayed, ChunkTaken;
    var slot := s.Of(c);
    if (slot.state == CurlPending || slot.state == CurlActive) && !slot.relay.behind {
      var next := slot.relay.(headers := true);
      RelayedQueues(s, c, SSE_HEADERS, next, AppendFor(calls, 0), d);
      var (t, _) := if slot.relay.headers then (s, true) else Relayed(s, c, SSE_HEADERS, next, AppendFor(calls, 0));
      ChunkQueues(t, c, chunk, calls, d);
    }
  }

  lemma EndedQueues(s: Snapshot, c: Conn, success: bool, canGrow: bool, d: Conn)
    ensures var t := RequestEnded(s, c, success, canGrow);
            && Queueing(s, t, c, d) && Further(s, t, c, 0)
            && (s.Of(c).state == CurlPending || s.Of(c).state == CurlActive ==> t.Of(c).state == Closing)
  {
    hide Pushed;
    PushedQueues(s, c, SSE_DONE, Closing, s.Of(c).relay.(done := true), false, canGrow, d);
  }

  // ----- one event

  lemma StartedElsewhere(s: Snapshot, c: Conn, writeOk: bool, linkOk: bool, d: Conn)
    ensures var t := Started(s, c, writeOk, linkOk); Elsewhere(s, t, c, d) && Further(s, t, c, 0)
  {
  }

  lemma ResentElsewhere(s: Snapshot, c: Conn, writeOk: bool, linkOk: bool, d: Conn)
    ensures var t := Resent(s, c, writeOk, linkOk); Elsewhere(s, t, c, d) && Further(s, t, c, 0)
  {
  }

  lemma PooledElsewhere(s: Snapshot, c: Conn, e: LoopEvent, d: Conn)
    requires e.FdReceived? || e.Collected? || e.WorkerFinished?
    ensures var t := NextOn(s, c, e); Elsewhere(s, t, c, d)
    ensures var t := NextOn(s, c, e); !e.WorkerFinished? ==> Further(s, t, c, 0)
  {
    hide Started, Without;
    match e {
      case FdReceived(_, got) =>
        if got.Good? && got.next.Direct? {
          StartedElsewhere(s, c, got.next.writeOk, got.next.linkOk, d);
        }
      case Collected(_, writeOk, linkOk) =>
        StartedElsewhere(s, c, writeOk, linkOk, d);
      case _ =>
    }
  }

  lemma NextOnElsewhere(s: Snapshot, c: Conn, e: LoopEvent, d: Conn)
    ensures var t := NextOn(s, c, e); Elsewhere(s, t, c, d)
    ensures var t := NextOn(s, c, e); !e.CurlBytes? && !e.WorkerFinished? ==> Further(s, t, c, 0)
    ensures e.CurlBytes? ==> NextOn(s, c, e).Of(c).out == s.Of(c).out
  {
    hide FdTaken, Worked, GivenBack, BytesTaken, RequestEnded, Tried;
    match e {
      case FdReceived(_, _) =>
        PooledElsewhere(s, c, e, d);
      case WorkerFinished(_, _, _) =>
        PooledElsewhere(s, c, e, d);
      case Collected(_, _, _) =>
        PooledElsewhere(s, c, e, d);
      case CurlBytes(_, chunk, room, appends) =>
        BytesQueue(s, c, chunk, room, appends, d);
      case CurlDone(_, success, canGrow) =>
        EndedQueues(s, c, success, canGrow, d);
      case Immediate(_, writeOk) =>
        TriedQueues(s, c, writeOk, d);
      case _ =>
    }
  }

  /** `process_cqe` looks at the completion of write `k`. */
  predicate Looked(s: Snapshot, k: nat, res: int) {
    && k in s.ring.writes && res <= s.ring.writes[k].len
    && var slot := s.Of(s.ring.writes[k].slot);
       slot.state == Closing || slot.state == if slot.shape.Some? then CurlActive else Streaming
  }

  lemma WrittenElsewhere(s: Snapshot, c: Conn, own: bool, res: int, next: NextMessage, writeOk: bool, linkOk: bool,
      d: Conn)
    ensures var t := Written(s, c, own, res, next, writeOk, linkOk);
            Elsewhere(s, t, c, d) && Further(s, t, c, if res < 0 then 0 else res)
  {
    hide NextLen, FrameOf, NextMessage.Content, RingAfter;
  }

  lemma DrainedElsewhere(s: Snapshot, c: Conn, own: bool, res: int, writeOk: bool, linkOk: bool, d: Conn)
    ensures var t := Drained(s, c, own, res, writeOk, linkOk);
            Elsewhere(s, t, c, d) && (s.Of(c).shape.Some? ==> Further(s, t, c, if res < 0 then 0 else res))
  {
    hide Resent, Layout.Consumed, Slot.Front;
    if res >= 0 {
      ResentElsewhere(s.With(c, s.Of(c).Completed(res, own)), c, writeOk, linkOk, d);
    }
  }

  lemma CompletionElsewhere(s: Snapshot, k: nat, res: int, next: NextMessage, writeOk: bool, linkOk: bool, d: Conn)
    ensures var t := CqeTaken(s, k, res, next, writeOk, linkOk);
            if k !in s.ring.writes then t == s
            else
              var c := s.ring.writes[k].slot;
              Elsewhere(s, t, c, d) && Further(s, t, c, if Looked(s, k, res) && res > 0 then res else 0)
  {
    hide Written, Drained;
    if k in s.ring.writes && res <= s.ring.writes[k].len {
      var c := s.ring.writes[k].slot;
      var own := s.Of(c).ticket == Some(k);
      WrittenElsewhere(Arrived(s, c, k), c, own, res, next, writeOk, linkOk, d);
      DrainedElsewhere(Arrived(s, c, k), c, own, res, writeOk, linkOk, d);
    }
  }

  lemma FlushedElsewhere(s: Snapshot, c: Conn, call: Submission, d: Conn)
    ensures var t := Flushed(s, c, call);
            Elsewhere(s, t, c, d) && Further(s, t, c, 0) && (s.Of(c) == FREE_SLOT ==> t == s)
  {
    hide Resent;
    ResentElsewhere(s, c, call.writeOk, call.linkOk, d);
  }

  /** A flush changes the slots it walks over, and frees some of them. */
  lemma {:induction false} FlushElsewhere(s: Snapshot, was: seq<Conn>, calls: seq<Submission>, j: nat, d: Conn)
    requires j <= |was|
    ensures var t := FlushedTo(s, was, calls, j);
            && (d !in was[..j] ==> t.Of(d) == s.Of(d)) && Further(s, t, d, 0)
            && t.tally.started == s.tally.started
            && (d in t.free ==> d in s.free || (d in was[..j] && t.Of(d) == FREE_SLOT))
            && (d !in was[..j] ==> (d in t.dirty <==> d in s.dirty))
  {
    hide Flushed;
    if j > 0 {
      var t := FlushedTo(s, was, calls, j - 1);
      FlushElsewhere(s, was, calls, j - 1, d);
      FlushedElsewhere(t, was[j - 1], CallFor(calls, was[j - 1].id), d);
      assert was[..j] == was[..j - 1] + [was[j - 1]];
    }
  }

  lemma OneElsewhere(s: Snapshot, t: Snapshot, c: Conn, d: Conn)
    requires c != d ==> Elsewhere(s, t, c, d)
    ensures c != d ==> t.Of(d) == s.Of(d) && (d in t.free ==> d in s.free) && (d in t.dirty <==> d in s.dirty)
  {
  }

  /** An event that is not about a connection leaves its slot alone, and does not free it. */
  lemma Bystander(conns: seq<Conn>, s: Snapshot, e: LoopEvent, c: Conn)
    requires !Concerns(conns, s, e, c)
    ensures var t := Next(conns, s, e);
            t.Of(c) == s.Of(c) && (c in t.free ==> c in s.free) && (c in t.dirty <==> c in s.dirty)
  {
    hide NextOn, CqeTaken, FlushedTo, Elsewhere, Further;
    if e.WriteDone? {
      CompletionElsewhere(s, e.serial, e.res, e.next, e.writeOk, e.linkOk, c);
      OneElsewhere(s, Next(conns, s, e), if e.serial in s.ring.writes then s.ring.writes[e.serial].slot else c, c);
    } else if e.Flush? {
      assert s.dirty[..|s.dirty|] == s.dirty;
      FlushElsewhere(s, s.dirty, e.calls, |s.dirty|, c);
    } else if !e.AcceptOne? && e.id < |conns| {
      NextOnElsewhere(s, conns[e.id], e, c);
      OneElsewhere(s, Next(conns, s, e), conns[e.id], c);
    }
  }

  /** No event of the run is about the connection. */
  predicate Elsewhen(conns: seq<Conn>, s: Snapshot, events: seq<LoopEvent>, c: Conn) {
    events == []
    || (Elsewhen(conns, s, events[..|events| - 1], c)
        && !Concerns(conns, AfterAll(conns, s, events[..|events| - 1]), events[|events| - 1], c))
  }

  /** A run that is not about a connection leaves its slot alone. */
  lemma {:induction false} Isolated(conns: seq<Conn>, s: Snapshot, events: seq<LoopEvent>, c: Conn)
    requires Elsewhen(conns, s, events, c)
    ensures AfterAll(conns, s, events).Of(c) == s.Of(c)
  {
    hide Next, Concerns;
    if events != [] {
      var k := |events| - 1;
      Isolated(conns, s, events[..k], c);
      Bystander(conns, AfterAll(conns, s, events[..k]), events[k], c);
    }
  }

  // ----- how many connections are started

  /** A client is accepted: there is a free slot, and memory. */
  predicate Admits(s: Snapshot, e: LoopEvent) {
    e.AcceptOne? && e.mallocOk && s.free != []
  }

  function Admitted(conns: seq<Conn>, s: Snapshot, events: seq<LoopEvent>): nat {
    if events == [] then 0
    else
      var k := |events| - 1;
      Admitted(conns, s, events[..k]) + (if Admits(AfterAll(conns, s, events[..k]), events[k]) then 1 else 0)
  }

  lemma NothingToDo(conns: seq<Conn>, s: Snapshot, e: LoopEvent)
    requires if e.WriteDone? then e.serial !in s.ring.writes else e.Flush? && s.dirty == []
    ensures Next(conns, s, e) == s
  {
  }

  lemma StartedCount(conns: seq<Conn>, s: Snapshot, e: LoopEvent)
    ensures Next(conns, s, e).tally.started == s.tally.started + (if Admits(s, e) then 1 else 0)
  {
    hide NextOn, CqeTaken, FlushedTo, Further;
    if e.WriteDone? && e.serial in s.ring.writes {
      CompletionElsewhere(s, e.serial, e.res, e.next, e.writeOk, e.linkOk, s.ring.writes[e.serial].slot);
    } else if e.Flush? && s.dirty != [] {
      FlushElsewhere(s, s.dirty, e.calls, |s.dirty|, s.dirty[0]);
    } else if e.Flush? || e.WriteDone? {
      NothingToDo(conns, s, e);
    } else if !e.AcceptOne? && e.id < |conns| {
      NextOnElsewhere(s, conns[e.id], e, conns[e.id]);
    }
  }

  /** Over a whole run, exactly the clients admitted are counted as started. */
  lemma {:induction false} StartedIsAdmitted(conns: seq<Conn>, s: Snapshot, events: seq<LoopEvent>)
    ensures AfterAll(conns, s, events).tally.started == s.tally.started + Admitted(conns, s, events)
  {
    hide Next, Admits;
    if events != [] {
      var k := |events| - 1;
      StartedIsAdmitted(conns, s, events[..k]);
      StartedCount(conns, AfterAll(conns, s, events[..k]), events[k]);
    }
  }

  // ----- what a request receives

  /** A connection's slot is in use after every event of a run. */
  predicate InUse(conns: seq<Conn>, s: Snapshot, events: seq<LoopEvent>, c: Conn) {
    AfterAll(conns, s, events).Of(c).state != Unused
    && (events == [] || InUse(conns, s, events[..|events| - 1], c))
  }

  /** The event brings a chunk for the request of `c`. */
  predicate Feeds(conns: seq<Conn>, s: Snapshot, e: LoopEvent, c: Conn) {
    e.CurlBytes? && e.id < |conns| && conns[e.id] == c && (s.Of(c).state == CurlPending || s.Of(c).state == CurlActive)
  }

  /** The chunks of a run for the request of `c`, one after another. */
  function Chunks(conns: seq<Conn>, s: Snapshot, events: seq<LoopEvent>, c: Conn): seq<byte> {
    if events == [] then []
    else
      var k := |events| - 1;
      Chunks(conns, s, events[..k], c)
      + (if Feeds(conns, AfterAll(conns, s, events[..k]), events[k], c) then events[k].chunk else [])
  }

  lemma RelayOn(s: Snapshot, c: Conn, e: LoopEvent)
    ensures var t := NextOn(s, c, e);
            && (e.WorkerFinished? ==> t.Of(c).relay == s.Of(c).relay)
            && (e.CurlBytes? && !t.Of(c).relay.behind ==>
                  var fed := s.Of(c).state == CurlPending || s.Of(c).state == CurlActive;
                  && !s.Of(c).relay.behind
                  && t.Of(c).relay.upstream == s.Of(c).relay.upstream + (if fed then e.chunk else []))
  {
    hide BytesTaken;
    if e.CurlBytes? {
      BytesQueue(s, c, e.chunk, e.room, e.appends, c);
    }
  }

  /** Unless it frees the slot, an event leaves behind what is behind, and only a chunk adds to what was received. */
  lemma UpstreamGrows(conns: seq<Conn>, s: Snapshot, e: LoopEvent, c: Conn)
    requires s.Of(c).state != Unused && Next(conns, s, e).Of(c).state != Unused && !Next(conns, s, e).Of(c).relay.behind
    ensures !s.Of(c).relay.behind
    ensures Next(conns, s, e).Of(c).relay.upstream
            == s.Of(c).relay.upstream + (if Feeds(conns, s, e, c) then e.chunk else [])
  {
    hide NextOn, CqeTaken, FlushedTo, Elsewhere;
    if !Concerns(conns, s, e, c) {
      Bystander(conns, s, e, c);
    } else if e.WriteDone? {
      CompletionElsewhere(s, e.serial, e.res, e.next, e.writeOk, e.linkOk, c);
    } else if e.Flush? {
      FlushElsewhere(s, s.dirty, e.calls, |s.dirty|, c);
    } else if !e.AcceptOne? {
      NextOnElsewhere(s, c, e, c);
      RelayOn(s, c, e);
    }
  }

  /**
   * As long as a connection's slot is in use and its transfer is not given up, what its request has received from the
   * upstream is all the chunks that came for it, in order.
   */
  lemma {:induction false} UpstreamIsChunks(conns: seq<Conn>, s: Snapshot, events: seq<LoopEvent>, c: Conn)
    requires InUse(conns, s, events, c) && !AfterAll(conns, s, events).Of(c).relay.behind
    ensures !s.Of(c).relay.behind
    ensures AfterAll(conns, s, events).Of(c).relay.upstream == s.Of(c).relay.upstream + Chunks(conns, s, events, c)
  {
    hide Next;
    if events == [] {
      assert s.Of(c).relay.upstream + [] == s.Of(c).relay.upstream;
    } else {
      var k := |events| - 1;
      var now := AfterAll(conns, s, events[..k]);
      var more := if Feeds(conns, now, events[k], c) then events[k].chunk else [];
      UpstreamGrows(conns, now, events[k], c);
      UpstreamIsChunks(conns, s, events[..k], c);
      Assoc(s.Of(c).relay.upstream, Chunks(conns, s, events[..k], c), more);
    }
  }

  // ----- what is sent

  /** What a completion counts as sent for `c`. */
  function Reported(s: Snapshot, e: LoopEvent, c: Conn): nat {
    if e.WriteDone? && e.res > 0 && Looked(s, e.serial, e.res) && s.ring.writes[e.serial].slot == c then e.res else 0
  }

  function AllReported(conns: seq<Conn>, s: Snapshot, events: seq<LoopEvent>, c: Conn): nat {
    if events == [] then 0
    else
      var k := |events| - 1;
      AllReported(conns, s, events[..k], c) + Reported(AfterAll(conns, s, events[..k]), events[k], c)
  }

  /** No worker of the pool reports on the connection. */
  predicate Unworked(conns: seq<Conn>, events: seq<LoopEvent>, c: Conn) {
    forall e | e in events :: e.WorkerFinished? && e.id < |conns| ==> conns[e.id] != c
  }

  lemma SentGrows(conns: seq<Conn>, s: Snapshot, e: LoopEvent, c: Conn)
    requires s.Of(c).state != Unused && Next(conns, s, e).Of(c).state != Unused
    requires e.WorkerFinished? && e.id < |conns| ==> conns[e.id] != c
    ensures Next(conns, s, e).Of(c).out.sent == s.Of(c).out.sent + Reported(s, e, c)
  {
    hide NextOn, CqeTaken, FlushedTo, Elsewhere;
    if !Concerns(conns, s, e, c) {
      Bystander(conns, s, e, c);
    } else if e.WriteDone? {
      CompletionElsewhere(s, e.serial, e.res, e.next, e.writeOk, e.linkOk, c);
    } else if e.Flush? {
      FlushElsewhere(s, s.dirty, e.calls, |s.dirty|, c);
    } else if !e.AcceptOne? {
      NextOnElsewhere(s, c, e, c);
    }
  }

  /** On both write paths, what a connection has sent is the sum of what its completions reported. */
  lemma {:induction false} SentIsReported(conns: seq<Conn>, s: Snapshot, events: seq<LoopEvent>, c: Conn)
    requires InUse(conns, s, events, c) && Unworked(conns, events, c)
    ensures AfterAll(conns, s, events).Of(c).out.sent == s.Of(c).out.sent + AllReported(conns, s, events, c)
  {
    hide Next, Reported;
    if events != [] {
      var k := |events| - 1;
      assert events[k] in events && forall e | e in events[..k] :: e in events;
      SentIsReported(conns, s, events[..k], c);
      SentGrows(conns, AfterAll(conns, s, events[..k]), events[k], c);
    }
  }

  // ----- what a flush leaves

  /** Connection `c` has met its fate: it is over, or off the list, or on it and its buffer, if any, in flight. */
  predicate Met(s: Snapshot, t: Snapshot, c: Conn, call: Submission) {
    match Fated(s.Of(c), call)
    case Ends(_) => t.Of(c) == FREE_SLOT && c !in t.dirty
    case Leaves => t.Of(c) == s.Of(c) && c !in t.dirty
    case Stays => c in t.dirty && t.Of(c).appended == s.Of(c).appended && (t.Of(c).shape.Some? ==> t.Of(c).Busy())
  }

  lemma TurnMeets(s: Snapshot, c: Conn, call: Submission)
    requires c in s.dirty
    ensures Met(s, Flushed(s, c, call), c, call)
  {
    hide Without;
  }

  lemma StillMet(s: Snapshot, t: Snapshot, u: Snapshot, c: Conn, call: Submission)
    requires Met(s, t, c, call) && u.Of(c) == t.Of(c) && (c in u.dirty <==> c in t.dirty)
    ensures Met(s, u, c, call)
  {
    hide Fated;
  }

  lemma MetFrom(s: Snapshot, t: Snapshot, u: Snapshot, c: Conn, call: Submission)
    requires Met(t, u, c, call) && t.Of(c) == s.Of(c)
    ensures Met(s, u, c, call)
  {
    hide Fated;
  }

  /** Whoever is listed meets its fate, whatever the rest of the flush does. */
  lemma {:induction false} FlushMeets(s: Snapshot, was: seq<Conn>, calls: seq<Submission>, j: nat, i: nat)
    requires NoDup(was) && i < |was| && j <= |was| && was[i] in s.dirty
    ensures var t, c := FlushedTo(s, was, calls, j), was[i];
            if j <= i then t.Of(c) == s.Of(c) && c in t.dirty else Met(s, t, c, CallFor(calls, c.id))
  {
    hide Flushed, Met;
    if j > 0 {
      FlushMeets(s, was, calls, j - 1, i);
      var t, call := FlushedTo(s, was, calls, j - 1), CallFor(calls, was[j - 1].id);
      var u := Flushed(t, was[j - 1], call);
      if j - 1 == i {
        TurnMeets(t, was[i], call);
        MetFrom(s, t, u, was[i], call);
      } else {
        FlushedElsewhere(t, was[j - 1], call, was[i]);
        if j - 1 > i {
          StillMet(s, t, u, was[i], CallFor(calls, was[i].id));
        }
      }
    }
  }
}
