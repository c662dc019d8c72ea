/**
 * The event loop as a machine on values: what every event makes of the slots, the lists, the ring and the counters.
 * `EventLoop` is proved to run it.
 */
module LoopMachine {
  import opened Bytes
  import opened Connections
  import opened CurlRelay
  import opened LoopEvents
  import LineAssembly
  import SseFormat
  import SseFrames

  datatype Snapshot = Snapshot(slots: map<Conn, Slot>, free: seq<Conn>, dirty: seq<Conn>, ring: Ring, tally: Tally) {
    function Of(c: Conn): Slot {
      if c in slots then slots[c] else FREE_SLOT
    }

    function With(c: Conn, slot: Slot): Snapshot {
      this.(slots := slots[c := slot])
    }

    /** A connection is over: counted, off the dirty list, and first on the free list. */
    function Ended(c: Conn, end: Outcome, sent: nat): Snapshot {
      Snapshot(slots[c := FREE_SLOT], [c] + free, Without(dirty, c), ring, tally.Ended(Some(end), sent))
    }

    /** A write of `len` bytes is offered to the ring, with its timeout. */
    function Offered(c: Conn, len: nat, writeOk: bool, linkOk: bool): Snapshot {
      this.(ring := ring.Offered(c, len, writeOk, linkOk))
    }

    /** The write and its timeout were accepted: the connection waits for it. */
    function Waits(c: Conn, slot: Slot, len: nat): Snapshot {
      Offered(c, len, true, true).With(c, slot.(ticket := Some(ring.serial)))
    }

    function Listed(c: Conn): Snapshot {
      if c in dirty then this else this.(dirty := dirty + [c])
    }
  }

  // ----- accepting, the descriptor, the pool

  function Accepted(s: Snapshot, mallocOk: bool, recvmsgOk: bool): Snapshot {
    if s.free == [] || !mallocOk then s
    else
      var started := s.tally.(started := s.tally.started + 1);
      if recvmsgOk then
        var c := s.free[0];
        s.(free := s.free[1..], tally := started).With(c, s.Of(c).(state := ReceivingFd))
      else s.(tally := started.Ended(Some(Dropped), 0))
  }

  /** The headers are offered to the ring. */
  function Started(s: Snapshot, c: Conn, writeOk: bool, linkOk: bool): Snapshot {
    var slot := s.Of(c).(state := Streaming, pooled := false, out := Begun(SSE_HEADERS, false, [], s.Of(c).out.sent));
    if writeOk && linkOk then s.Waits(c, slot, |SSE_HEADERS|)
    else s.Offered(c, |SSE_HEADERS|, writeOk, linkOk).Ended(c, Failed, 0)
  }

  /** A parsed request goes to curl, to the pool, or is streamed at once. */
  function Served(s: Snapshot, c: Conn, next: Handover): Snapshot {
    match next
    case ToCurl(startOk) =>
      if startOk then s.With(c, s.Of(c).(state := CurlPending)) else s.Ended(c, Failed, 0)
    case ToPool(submitOk) =>
      if submitOk then s.With(c, s.Of(c).(state := LlmQueued, pooled := true)) else s.Ended(c, Failed, 0)
    case Direct(writeOk, linkOk) => Started(s, c, writeOk, linkOk)
  }

  function FdTaken(s: Snapshot, c: Conn, got: Received): Snapshot {
    if s.Of(c).state != ReceivingFd then s
    else if got.Good? then Served(s, c, got.next)
    else s.Ended(c, Failed, 0)
  }

  function Worked(s: Snapshot, c: Conn, result: int, sent: nat): Snapshot {
    var slot := s.Of(c);
    if slot.state != LlmQueued || !slot.pooled then s
    else if result > 0 then s.With(c, slot.(state := Streamed, out := slot.out.(sent := sent)))
    else s.With(c, slot.(state := if result == 0 then Streaming else Closing))
  }

  function GivenBack(s: Snapshot, c: Conn, writeOk: bool, linkOk: bool): Snapshot {
    var slot := s.Of(c);
    if !slot.pooled || slot.state == LlmQueued || !slot.Unstarted() then s
    else if slot.state == Streaming then Started(s, c, writeOk, linkOk)
    else if slot.state == Streamed then s.Ended(c, Completed, slot.out.sent)
    else s.Ended(c, Failed, 0)
  }

  // ----- completions

  /** The path without a buffer: the next write, or the end. */
  function Written(s: Snapshot, c: Conn, own: bool, res: int, next: NextMessage, writeOk: bool, linkOk: bool)
    : Snapshot
  {
    var slot := s.Of(c);
    if res < 0 then s.Ended(c, Failed, 0)
    else
      var len := NextLen(slot.state, slot.out, res, next);
      var t := if len.Some? then s.Offered(c, len.value, writeOk, linkOk) else s;
      match WriteEnd(slot.state, slot.out, res, next, writeOk, linkOk)
      case Some(why) => t.Ended(c, why, slot.out.sent + res)
      case None =>
        var offset := slot.out.offset + res;
        var rest := if offset <= |slot.out.message| then slot.out.message[offset..] else [];
        var out :=
          if slot.out.IsShort(res) then
            slot.out.(submitted := rest, offset := offset, sent := slot.out.sent + res)
          else if next.NoMemory? then slot.out
          else next.Write(slot.out.frames + [slot.out.message], slot.out.sent + res);
        var state := if slot.out.IsShort(res) then slot.state else if next.EndOfStream? then Closing else Streaming;
        var got := if own && res <= |slot.out.submitted| then slot.out.submitted[..res] else [];
        t.With(c, slot.(state := state, out := out, delivered := slot.delivered + got, misled := slot.misled || !own,
                        ticket := Some(s.ring.serial)))
  }

  /** What is queued is offered to the ring with its timeout, if nothing is in flight; a refusal ends the connection. */
  function Resent(s: Snapshot, c: Conn, writeOk: bool, linkOk: bool): Snapshot {
    var slot := s.Of(c);
    if !slot.Ready() then s
    else if writeOk && linkOk then s.Waits(c, slot.Submitted(), slot.Unsent())
    else s.Offered(c, slot.Unsent(), writeOk, linkOk).Ended(c, Failed, 0)
  }

  /** What is left in the queue is offered; a connection that is closing is over once it is drained. */
  function GoneOn(s: Snapshot, c: Conn, writeOk: bool, linkOk: bool): Snapshot {
    var slot := s.Of(c);
    if slot.Unsent() > 0 then Resent(s, c, writeOk, linkOk)
    else if slot.state == Closing then s.Ended(c, Completed, slot.out.sent)
    else s
  }

  /** The buffered path: what the completion took leaves the queue. */
  function Drained(s: Snapshot, c: Conn, own: bool, res: int, writeOk: bool, linkOk: bool): Snapshot {
    if res < 0 then s.Ended(c, Failed, 0)
    else GoneOn(s.With(c, s.Of(c).Completed(res, own)), c, writeOk, linkOk)
  }

  /** Write `k` is out of the ring, and its slot waits for none. */
  function Arrived(s: Snapshot, c: Conn, k: nat): Snapshot {
    s.(ring := s.ring.Without(k)).With(c, s.Of(c).(ticket := None))
  }

  /** Completion of write `k`, by the state and the buffer of its slot. */
  function CqeTaken(s: Snapshot, k: nat, res: int, next: NextMessage, writeOk: bool, linkOk: bool): Snapshot {
    if k !in s.ring.writes || res > s.ring.writes[k].len then s
    else
      var c := s.ring.writes[k].slot;
      var slot := s.Of(c);
      var own := slot.ticket == Some(k);
      if slot.shape.Some? then
        if slot.state == CurlActive || slot.state == Closing then
          Drained(Arrived(s, c, k), c, own, res, writeOk, linkOk)
        else s.(ring := s.ring.Without(k))
      else if slot.state == Streaming || slot.state == Closing then
        Written(Arrived(s, c, k), c, own, res, next, writeOk, linkOk)
      else s.(ring := s.ring.Without(k))
  }

  // ----- the curl path

  /** Append, mark and move, if the buffer accepts the bytes. */
  function Pushed(s: Snapshot, c: Conn, data: seq<byte>, after: ConnState, next: Relay, canCreate: bool, canGrow: bool)
    : (Snapshot, bool)
  {
    var slot := s.Of(c);
    var t := s.With(c, slot.Pushed(data, after, next, canCreate, canGrow));
    if slot.Accepts(|data|, canCreate, canGrow) then (t.Listed(c), true) else (t, false)
  }

  /** What is queued is submitted at once, if nothing is in flight and the ring has room. */
  function Tried(s: Snapshot, c: Conn, writeOk: bool): Snapshot {
    var slot := s.Of(c);
    if slot.Ready() && writeOk then s.Waits(c, slot.Submitted(), slot.Unsent()) else s
  }

  function Relayed(s: Snapshot, c: Conn, data: seq<byte>, next: Relay, call: AppendCall): (Snapshot, bool) {
    var (t, ok) := Pushed(s, c, data, CurlActive, next, call.canCreate, call.canGrow);
    if ok then (Tried(t, c, call.writeOk), true) else (t, false)
  }

  function LineTaken(s: Snapshot, c: Conn, line: seq<byte>, call: AppendCall): (Snapshot, bool) {
    var slot := s.Of(c);
    var later := slot.relay.(lines := slot.relay.lines + [line]);
    match SseFormat.SseContent(line)
    case None => (s.With(c, slot.(relay := later)), true)
    case Some(text) => Relayed(s, c, SseFrames.Frame(SseFormat.Cut(text)), later, call)
  }

  /** The lines of a chunk, up to the first that is refused; how many were taken. */
  function LinesTaken(s: Snapshot, c: Conn, lines: seq<seq<byte>>, calls: seq<AppendCall>, first: nat): (Snapshot, nat)
    decreases |lines|
  {
    if lines == [] then (s, 0)
    else
      var (t, ok) := LineTaken(s, c, lines[0], AppendFor(calls, first));
      if !ok then (t, 0)
      else
        var (u, n) := LinesTaken(t, c, lines[1..], calls, first + 1);
        (u, n + 1)
  }

  /** The outcome for all lines, after `n` of them were taken. */
  predicate Onward(s: Snapshot, c: Conn, lines: seq<seq<byte>>, calls: seq<AppendCall>, first: nat, n: nat,
      now: Snapshot)
    requires n <= |lines|
  {
    var (t, m) := LinesTaken(now, c, lines[n..], calls, first + n);
    LinesTaken(s, c, lines, calls, first) == (t, n + m)
  }

  lemma OneLineOn(s: Snapshot, c: Conn, lines: seq<seq<byte>>, calls: seq<AppendCall>, first: nat, n: nat,
      now: Snapshot, t: Snapshot, ok: bool)
    requires n < |lines| && Onward(s, c, lines, calls, first, n, now)
    requires LineTaken(now, c, lines[n], AppendFor(calls, first + n)) == (t, ok)
    ensures if ok then Onward(s, c, lines, calls, first, n + 1, t) else LinesTaken(s, c, lines, calls, first) == (t, n)
  {
    hide LineTaken;
    assert lines[n..][0] == lines[n] && lines[n..][1..] == lines[n + 1..];
  }

  lemma LinesBegin(s: Snapshot, c: Conn, lines: seq<seq<byte>>, calls: seq<AppendCall>, first: nat)
    ensures Onward(s, c, lines, calls, first, 0, s)
  {
    assert lines[0..] == lines;
  }

  lemma LinesEnd(s: Snapshot, c: Conn, lines: seq<seq<byte>>, calls: seq<AppendCall>, first: nat, now: Snapshot)
    requires Onward(s, c, lines, calls, first, |lines|, now)
    ensures LinesTaken(s, c, lines, calls, first) == (now, |lines|)
  {
  }

  /** A chunk, and whether all of it was taken. */
  function ChunkTaken(s: Snapshot, c: Conn, chunk: seq<byte>, calls: seq<AppendCall>): (Snapshot, bool) {
    var slot := s.Of(c);
    var all := slot.relay.held + chunk;
    var begun := s.With(c, slot.(relay := slot.relay.(upstream := slot.relay.upstream + chunk, behind := true)));
    var (t, n) := LinesTaken(begun, c, LineAssembly.FoundLines(all), calls, 1);
    if n < |LineAssembly.FoundLines(all)| then (t, false)
    else
      var after := t.Of(c);
      (Tried(t.With(c, after.(relay := after.relay.(held := LineAssembly.Kept(all), behind := false))), c,
             AppendFor(calls, 1 + n).writeOk), true)
  }

  /** A chunk of the upstream: the headers before the first one, then its lines. */
  function BytesTaken(s: Snapshot, c: Conn, chunk: seq<byte>, room: bool, calls: seq<AppendCall>): (Snapshot, bool) {
    var slot := s.Of(c);
    if (slot.state != CurlPending && slot.state != CurlActive) || slot.relay.behind then (s, false)
    else
      var (t, ok) := if slot.relay.headers then (s, true)
                     else Relayed(s, c, SSE_HEADERS, slot.relay.(headers := true), AppendFor(calls, 0));
      if ok && room then ChunkTaken(t, c, chunk, calls)
      else (t.With(c, t.Of(c).(relay := t.Of(c).relay.(behind := true))), false)
  }

  /** The request is done: the end marker, if it succeeded, and then closing in any case. */
  function RequestEnded(s: Snapshot, c: Conn, success: bool, canGrow: bool): Snapshot {
    var slot := s.Of(c);
    if slot.state != CurlPending && slot.state != CurlActive then s
    else if success && slot.relay.headers && slot.shape.Some? then
      var (t, ok) := Pushed(s, c, SSE_DONE, Closing, slot.relay.(done := true), false, canGrow);
      if ok then t else t.With(c, t.Of(c).(state := Closing))
    else s.With(c, slot.(state := Closing))
  }

  // ----- flushing

  /** What a flush does with a listed connection. */
  function Fated(slot: Slot, call: Submission): Fate {
    if slot.Ready() && !call.Accepted() then Ends(call.stale)
    else if slot.shape.Some? && !slot.Ready() && !slot.Busy() then Leaves
    else Stays
  }

  function FatesIn(s: Snapshot, list: seq<Conn>, calls: seq<Submission>): (r: seq<Fate>)
    ensures |r| == |list| && forall k | 0 <= k < |list| :: r[k] == Fated(s.Of(list[k]), CallFor(calls, list[k].id))
  {
    if list == [] then [] else [Fated(s.Of(list[0]), CallFor(calls, list[0].id))] + FatesIn(s, list[1..], calls)
  }

  /** The event is a flush that damages the list. */
  predicate Breaks(s: Snapshot, e: LoopEvent) {
    e.Flush? && Damages(FatesIn(s, s.dirty, e.calls))
  }

  /** One connection of the dirty list. */
  function Flushed(s: Snapshot, c: Conn, call: Submission): Snapshot {
    var slot := s.Of(c);
    if slot.Ready() then Resent(s, c, call.writeOk, call.linkOk)
    else if slot.shape.Some? && !slot.Busy() then s.(dirty := Without(s.dirty, c))
    else s
  }

  /** The first `j` connections of a flush. */
  function FlushedTo(s: Snapshot, was: seq<Conn>, calls: seq<Submission>, j: nat): Snapshot
    requires j <= |was|
  {
    if j == 0 then s else Flushed(FlushedTo(s, was, calls, j - 1), was[j - 1], CallFor(calls, was[j - 1].id))
  }

  // ----- all of it

  /** An event about connection `c`. */
  function NextOn(s: Snapshot, c: Conn, e: LoopEvent): Snapshot {
    match e
    case FdReceived(_, got) => FdTaken(s, c, got)
    case WorkerFinished(_, result, sent) => Worked(s, c, result, sent)
    case Collected(_, writeOk, linkOk) => GivenBack(s, c, writeOk, linkOk)
    case CurlBytes(_, chunk, room, appends) => BytesTaken(s, c, chunk, room, appends).0
    case CurlDone(_, success, canGrow) => RequestEnded(s, c, success, canGrow)
    case Immediate(_, writeOk) => Tried(s, c, writeOk)
    case _ => s
  }

  /** What an event makes of a snapshot, unless it `Breaks` it. */
  function Next(conns: seq<Conn>, s: Snapshot, e: LoopEvent): Snapshot {
    match e
    case AcceptOne(mallocOk, recvmsgOk) => Accepted(s, mallocOk, recvmsgOk)
    case WriteDone(k, res, next, writeOk, linkOk) => CqeTaken(s, k, res, next, writeOk, linkOk)
    case Flush(calls) => FlushedTo(s, s.dirty, calls, |s.dirty|)
    case _ => if e.id < |conns| then NextOn(s, conns[e.id], e) else s
  }

  /** The events of a run, one after another. */
  function AfterAll(conns: seq<Conn>, s: Snapshot, events: seq<LoopEvent>): Snapshot {
    if events == [] then s
    else Next(conns, AfterAll(conns, s, events[..|events| - 1]), events[|events| - 1])
  }

  /** Event `i` of a run finds the daemon in a state that it does not break. */
  predicate Unbroken(conns: seq<Conn>, s: Snapshot, events: seq<LoopEvent>, i: nat)
    requires i < |events|
  {
    !Breaks(AfterAll(conns, s, events[..i]), events[i])
  }

  lemma OneMore(conns: seq<Conn>, s: Snapshot, events: seq<LoopEvent>, k: nat)
    requires k < |events|
    ensures AfterAll(conns, s, events[..k + 1]) == Next(conns, AfterAll(conns, s, events[..k]), events[k])
  {
    hide Next;
    assert events[..k + 1][..k] == events[..k];
  }

  // ----- composing

  /** A turn of a flush is a submission, unless it finds the connection drained. */
  lemma FlushedAs(s: Snapshot, c: Conn, call: Submission)
    ensures var sent := Resent(s, c, call.writeOk, call.linkOk);
            if Fated(s.Of(c), call).Leaves? then sent == s && Flushed(s, c, call) == s.(dirty := Without(s.dirty, c))
            else Flushed(s, c, call) == sent
  {
  }

  /** What is done to a slot twice, or before it ends, is done once. */
  lemma Again(s: Snapshot, c: Conn, a: Slot, b: Slot)
    ensures s.With(c, a).With(c, b) == s.With(c, b) && s.With(c, a).Of(c) == a
    ensures forall why, sent :: s.With(c, a).Ended(c, why, sent) == s.Ended(c, why, sent)
  {
    assert s.slots[c := a][c := b] == s.slots[c := b];
    assert s.slots[c := a][c := FREE_SLOT] == s.slots[c := FREE_SLOT];
  }

  lemma NoneAccepted(s: Snapshot, mallocOk: bool, recvmsgOk: bool)
    requires s.free == [] || !mallocOk
    ensures Accepted(s, mallocOk, recvmsgOk) == s
  {
  }

  lemma FreedAgain(s: Snapshot, c: Conn, slot: Slot)
    requires c in s.slots && s.slots[c] == FREE_SLOT
    ensures s.slots[c := slot][c := FREE_SLOT] == s.slots
  {
  }

  lemma StartedAgain(s: Snapshot, c: Conn, slot: Slot, writeOk: bool, linkOk: bool)
    requires slot.(state := Streaming, pooled := false) == s.Of(c).(state := Streaming, pooled := false)
    ensures Started(s.With(c, slot), c, writeOk, linkOk) == Started(s, c, writeOk, linkOk)
  {
    var t := s.With(c, slot);
    assert t.Of(c) == slot;
    var begun := Begun(SSE_HEADERS, false, [], slot.out.sent);
    var next := s.Of(c).(state := Streaming, pooled := false, out := begun);
    assert slot.(state := Streaming, pooled := false, out := begun) == next;
    Again(s.Offered(c, |SSE_HEADERS|, writeOk, linkOk), c, slot, next.(ticket := Some(s.ring.serial)));
  }

  lemma ServedAgain(s: Snapshot, c: Conn, state: ConnState, next: Handover)
    requires !s.Of(c).pooled
    ensures Served(s.With(c, s.Of(c).(state := state)), c, next) == Served(s, c, next)
  {
    hide Started;
    var slot := s.Of(c).(state := state);
    Again(s, c, slot, s.Of(c).(state := CurlPending));
    Again(s, c, slot, s.Of(c).(state := LlmQueued, pooled := true));
    if next.Direct? {
      StartedAgain(s, c, slot, next.writeOk, next.linkOk);
    }
  }

  /** What the ring holds after a completion, with what is submitted next. */
  predicate RingAfter(s: Snapshot, c: Conn, len: Option<nat>, writeOk: bool, linkOk: bool, ring: Ring) {
    ring == match len
            case Some(n) => s.ring.Offered(c, n, writeOk, linkOk)
            case None => s.ring
  }

  lemma WrittenOn(s: Snapshot, c: Conn, own: bool, res: nat, next: NextMessage, writeOk: bool, linkOk: bool,
      slot: Slot, ring: Ring)
    requires var was := s.Of(c);
             && WriteEnd(was.state, was.out, res, next, writeOk, linkOk) == None
             && GoesOn((was.state, was.out), res, next, slot.state, slot.out)
             && (own ==> res <= |was.out.submitted|)
             && slot == was.(state := slot.state, out := slot.out, misled := was.misled || !own,
                             delivered := was.delivered + (if own then was.out.submitted[..res] else []),
                             ticket := Some(s.ring.serial))
             && RingAfter(s, c, NextLen(was.state, was.out, res, next), writeOk, linkOk, ring)
    ensures s.(ring := ring).With(c, slot) == Written(s, c, own, res, next, writeOk, linkOk)
  {
  }

  lemma WrittenOff(s: Snapshot, c: Conn, own: bool, res: nat, next: NextMessage, writeOk: bool, linkOk: bool,
      slot: Slot, ring: Ring, why: Outcome)
    requires var was := s.Of(c);
             && WriteEnd(was.state, was.out, res, next, writeOk, linkOk) == Some(why)
             && RingAfter(s, c, NextLen(was.state, was.out, res, next), writeOk, linkOk, ring)
    ensures s.(ring := ring).With(c, slot).Ended(c, why, s.Of(c).out.sent + res)
            == Written(s, c, own, res, next, writeOk, linkOk)
  {
    Again(s.(ring := ring), c, slot, FREE_SLOT);
  }

  lemma Refused(s: Snapshot, c: Conn, own: bool, res: int, next: NextMessage, writeOk: bool, linkOk: bool, sent: nat)
    requires res < 0
    ensures s.Ended(c, Failed, sent) == Written(s, c, own, res, next, writeOk, linkOk)
    ensures s.Ended(c, Failed, sent) == Drained(s, c, own, res, writeOk, linkOk)
  {
  }
}
