/**
 * What the io_uring event loop reacts to, and the values it keeps (daemon.c, ring.c): events with the outcomes of the
 * calls they lead to, the counters, the writes in the ring, and the lists of connections.
 */
module LoopEvents {
  import opened Bytes
  import opened Connections
  import opened CurlRelay
  import opened WriteBuffers
  import SseFormat
  import SseFrames

  predicate NoDup<T(==)>(s: seq<T>) {
    forall i, j | 0 <= i < j < |s| :: s[i] != s[j]
  }

  /** Element `i`, or null past the end: where the link of element `i - 1` points. */
  function At(s: seq<Conn>, i: nat): Conn? {
    if i < |s| then s[i] else null
  }

  function Last(s: seq<Conn>): Conn? {
    if s == [] then null else s[|s| - 1]
  }

  /** `s` without `x`, order kept. */
  function Without<T(==)>(s: seq<T>, x: T): (r: seq<T>)
    ensures forall y | y in r :: y in s && y != x
    ensures forall y | y in s && y != x :: y in r
    ensures NoDup(s) ==> NoDup(r)
  {
    if s == [] then []
    else
      var r := Without(s[1..], x);
      assert forall y | y in s :: y == s[0] || y in s[1..];
      assert forall y | y in s[1..] :: y in s;
      if s[0] == x then r
      else
        assert NoDup(s) ==> s[0] !in s[1..] && NoDup(s[1..]);
        [s[0]] + r
  }

  lemma {:induction false} WithoutAbsent<T>(s: seq<T>, x: T)
    requires x !in s
    ensures Without(s, x) == s
  {
    if s != [] {
      WithoutAbsent(s[1..], x);
    }
  }

  lemma {:induction false} WithoutAt<T>(s: seq<T>, i: nat)
    requires NoDup(s) && i < |s|
    ensures Without(s, s[i]) == s[..i] + s[i + 1..]
  {
    if i == 0 {
      assert s[0] !in s[1..];
      WithoutAbsent(s[1..], s[0]);
    } else {
      assert s[1..][i - 1] == s[i];
      WithoutAt(s[1..], i - 1);
      assert s[1..][..i - 1] == s[1..i] && s[1..][i..] == s[i + 1..];
      assert [s[0]] + s[1..i] == s[..i];
    }
  }

  /** Cutting element `i` out of a chain: who is left, and who follows whom. */
  lemma Cut(was: seq<Conn>, i: nat)
    requires NoDup(was) && i < |was|
    ensures var cut := was[..i] + was[i + 1..];
            && NoDup(cut)
            && (forall d | d in cut :: d in was && d != was[i])
            && (forall d | d in was && d != was[i] :: d in cut)
            && (forall k | 0 <= k < |cut| :: cut[k] == was[if k < i then k else k + 1])
            && (forall k: nat | k <= |cut| :: At(cut, k) == At(was, if k < i then k else k + 1))
  {
    var cut := was[..i] + was[i + 1..];
    forall d | d in was && d != was[i]
      ensures d in cut
    {
      var k :| 0 <= k < |was| && was[k] == d;
      assert d == cut[if k < i then k else k - 1];
    }
  }

  lemma Split<T>(s: seq<T>, x: T, rest: seq<T>)
    requires s == [x] + rest && NoDup(s)
    ensures x in s && x !in rest && forall y :: y in rest <==> y in s && y != x
  {
    assert s[0] == x;
    forall k | 0 <= k < |rest|
      ensures rest[k] != x && rest[k] in s
    {
      assert rest[k] == s[k + 1];
    }
  }

  /**
   * What a flush does with a listed connection: it stays, it leaves the list drained, or it ends because its
   * write was refused.  The flush then looks once more at the buffer that was freed, and `stale` is
   * whether what it reads there still looks like work.
   */
  datatype Fate = Stays | Leaves | Ends(stale: bool)

  /** The first `j` that stay, in order. */
  function Staying<T>(was: seq<T>, fates: seq<Fate>, j: nat): (r: seq<T>)
    requires j <= |was| == |fates|
    ensures forall y | y in r :: y in was
  {
    if j == 0 then [] else Staying(was, fates, j - 1) + (if fates[j - 1].Stays? then [was[j - 1]] else [])
  }

  /** The first `j` that end, in order. */
  function Ending<T>(was: seq<T>, fates: seq<Fate>, j: nat): (r: seq<T>)
    requires j <= |was| == |fates|
    ensures forall y | y in r :: y in was
  {
    if j == 0 then [] else Ending(was, fates, j - 1) + (if fates[j - 1].Ends? then [was[j - 1]] else [])
  }

  /**
   * After `j` turns the walk takes a freed slot for the last connection that stayed: since a turn that ended
   * one and took its freed buffer for work, only ends were met.
   */
  predicate Astray(fates: seq<Fate>, j: nat)
    requires j <= |fates|
  {
    exists i | 0 <= i < j :: fates[i] == Ends(true) && forall k | i < k < j :: fates[k].Ends?
  }

  /** The walk then comes to a drained connection, and unlinks it from the freed slot. */
  predicate Damages(fates: seq<Fate>) {
    exists j: nat :: j < |fates| && fates[j].Leaves? && Astray(fates, j)
  }

  /**
   * A refused connection in front of a drained one is enough, unless the freed buffer reads as empty or a
   * connection that stays comes between them.
   */
  lemma RefusedBeforeDrained()
    ensures Damages([Ends(true), Leaves])
    ensures !Damages([Ends(false), Leaves]) && !Damages([Ends(true), Stays, Leaves])
  {
    var lost, kept := [Ends(true), Leaves], [Ends(true), Stays, Leaves];
    assert lost[0] == Ends(true) && lost[1].Leaves?;
    assert Astray(lost, 1);
    assert kept[1].Stays?;
    assert !Astray(kept, 2);
  }

  lemma StayingStep<T>(was: seq<T>, fates: seq<Fate>, j: nat)
    requires j < |was| == |fates|
    ensures var before := Staying(was, fates, j);
            Staying(was, fates, j + 1) == if fates[j].Stays? then before + [was[j]] else before
  {
  }

  lemma EndingStep<T>(was: seq<T>, fates: seq<Fate>, j: nat)
    requires j < |was| == |fates|
    ensures Ending(was, fates, j + 1) == Ending(was, fates, j) + (if fates[j].Ends? then [was[j]] else [])
  {
  }

  lemma AstrayStep(fates: seq<Fate>, j: nat)
    requires j < |fates|
    ensures Astray(fates, j + 1) <==> fates[j] == Ends(true) || (fates[j].Ends? && Astray(fates, j))
  {
  }

  /** The element after `kept` in `kept + [x] + rest`, kept or cut out. */
  lemma Middle<T>(all: seq<T>, kept: seq<T>, x: T, rest: seq<T>)
    requires all == kept + ([x] + rest) && NoDup(all)
    ensures |kept| < |all| && all[|kept|] == x && all == (kept + [x]) + rest
    ensures all[..|kept|] + all[|kept| + 1..] == kept + rest
    ensures x !in kept && x !in rest && (kept != [] ==> all[|kept| - 1] == kept[|kept| - 1])
    ensures (forall y | y in kept :: y in all) && (forall y | y in rest :: y in all)
  {
    assert all == (kept + [x]) + rest;
    assert all[..|kept|] == kept && all[|kept| + 1..] == rest;
    assert forall k | 0 <= k < |kept| :: kept[k] == all[k] != all[|kept|];
    assert forall k | 0 <= k < |rest| :: rest[k] == all[|kept| + 1 + k] != all[|kept|];
  }

  /** How a connection ends: counted as completed, as failed, or (a failed first submission) not at all. */
  datatype Outcome = Completed | Failed | Dropped

  /**
   * The benchmark counters: connections started, completed and failed, and the bytes of those completed.  The
   * program has no counter for the dropped ones.
   */
  datatype Tally = Tally(started: nat, completed: nat, failed: nat, dropped: nat, bytes: nat) {
    /** After a connection that has sent `sent` bytes ends, if it does. */
    function Ended(end: Option<Outcome>, sent: nat): Tally {
      match end
      case None => this
      case Some(Completed) => this.(completed := completed + 1, bytes := bytes + sent)
      case Some(Failed) => this.(failed := failed + 1)
      case Some(Dropped) => this.(dropped := dropped + 1)
    }
  }

  /** Where `handle_recv_fd` sends a parsed connection, and whether that hand-over succeeds. */
  datatype Handover = ToCurl(startOk: bool) | ToPool(submitOk: bool) | Direct(writeOk: bool, linkOk: bool) {
    function Next(): ConnState {
      match this
      case ToCurl(_) => CurlPending
      case ToPool(_) => LlmQueued
      case Direct(_, _) => Streaming
    }
  }

  /** What the recvmsg brought. */
  datatype Received = RecvError | NoFd | BadSocket | Good(next: Handover) {
    predicate Served() {
      Good? && match next
               case ToCurl(ok) => ok
               case ToPool(ok) => ok
               case Direct(writeOk, linkOk) => writeOk && linkOk
    }
  }

  type CString = s: seq<byte> | NUL !in s

  const FRAME_BUFFER: nat := 4096

  /** The frame of a message, which ends the connection if it does not fit its buffer. */
  function FrameOf(text: CString): seq<byte> {
    SseFrames.Frame(SseFormat.Cut(text))
  }

  /** What `handle_write` has to send next: nothing, a message, or one it has no memory for. */
  datatype NextMessage = EndOfStream | NoMemory | Message(text: CString) {
    predicate Fits() {
      Message? && |FrameOf(text)| < FRAME_BUFFER
    }

    function Content(): seq<byte>
      requires !NoMemory?
    {
      if EndOfStream? then SSE_DONE else FrameOf(text)
    }

    /** The next write, where there is one: the end marker, a constant, or a frame. */
    function Write(frames: seq<seq<byte>>, sent: nat): Outgoing
      requires !NoMemory?
    {
      Begun(Content(), Message?, frames, sent)
    }

    /**
     * How the connection ends, if it does: a stream whose end marker cannot be submitted has still sent
     * all its messages and counts as completed; everything else that goes wrong counts as failed.
     */
    function End(writeOk: bool, linkOk: bool): Option<Outcome> {
      if EndOfStream? && !writeOk then Some(Completed)
      else if writeOk && linkOk && (EndOfStream? || Fits()) then None
      else Some(Failed)
    }
  }

  /** How a completion of `res` bytes ends a connection with this write under way, if it does. */
  function WriteEnd(state: ConnState, out: Outgoing, res: int, next: NextMessage, writeOk: bool, linkOk: bool)
    : Option<Outcome>
  {
    if res < 0 then Some(Failed)
    else if out.IsShort(res) then (if out.buf.Some? && writeOk && linkOk then None else Some(Failed))
    else if state == Closing then Some(Completed)
    else next.End(writeOk, linkOk)
  }

  /** Whether that completion leads to another write, and how long it is. */
  function NextLen(state: ConnState, out: Outgoing, res: int, next: NextMessage): Option<nat> {
    if res < 0 then None
    else if out.IsShort(res) then (if out.buf.Some? then Some(out.len - (out.offset + res)) else None)
    else if state == Streaming && (next.EndOfStream? || next.Fits()) then Some(|next.Content()|)
    else None
  }

  lemma GoingOn(state: ConnState, out: Outgoing, res: int, next: NextMessage, writeOk: bool, linkOk: bool)
    requires state == Streaming || state == Closing
    ensures WriteEnd(state, out, res, next, writeOk, linkOk) == None ==>
              res >= 0 && NextLen(state, out, res, next).Some? && writeOk && linkOk
  {
    hide FrameOf;
  }

  lemma Failing(state: ConnState, out: Outgoing, res: int, next: NextMessage, writeOk: bool, linkOk: bool)
    requires res < 0
    ensures WriteEnd(state, out, res, next, writeOk, linkOk) == Some(Failed) && NextLen(state, out, res, next) == None
  {
  }

  /** What is under way after a completion that does not end the connection. */
  predicate GoesOn(was: (ConnState, Outgoing), res: nat, next: NextMessage, state: ConnState, out: Outgoing) {
    if was.1.IsShort(res) then
      && state == was.0 && out.offset == was.1.offset + res <= |out.message|
      && out == was.1.(submitted := out.message[out.offset..], offset := out.offset, sent := was.1.sent + res)
    else
      && !next.NoMemory? && out == next.Write(was.1.frames + [was.1.message], was.1.sent + res)
      && state == if next.EndOfStream? then Closing else Streaming
  }

  /** What a completion of `res` bytes leaves in the queue, if anything. */
  function Leftover(queued: int, res: int): Option<nat> {
    if res < 0 || queued <= res then None else Some(queued - res)
  }

  /** How it ends the connection, if it does. */
  function AsyncEnd(state: ConnState, queued: int, res: int, writeOk: bool, linkOk: bool): Option<Outcome> {
    if res < 0 then Some(Failed)
    else if Leftover(queued, res).Some? then (if writeOk && linkOk then None else Some(Failed))
    else if state == Closing then Some(Completed)
    else None
  }

  /** How a submission of the flush goes, and how memory it has freed reads afterwards. */
  datatype Submission = Submission(writeOk: bool, linkOk: bool, stale: bool) {
    predicate Accepted() {
      writeOk && linkOk
    }
  }

  /** How the allocations of an append go, and the submission that follows it. */
  datatype AppendCall = AppendCall(canCreate: bool, canGrow: bool, writeOk: bool)

  /** The outcomes for append number `i`; good unless said otherwise. */
  function AppendFor(calls: seq<AppendCall>, i: nat): AppendCall {
    if i < |calls| then calls[i] else AppendCall(true, true, true)
  }

  lemma NextLine(done: seq<seq<byte>>, lines: seq<seq<byte>>, n: nat)
    requires n < |lines|
    ensures done + lines[..n] + [lines[n]] <= done + lines && done + lines[..n + 1] == done + lines[..n] + [lines[n]]
    ensures lines[n] in done + lines
  {
    assert done + lines == (done + lines[..n] + [lines[n]]) + lines[n + 1..];
    assert (done + lines)[|done| + n] == lines[n];
  }

  /** No call has its write accepted and its timeout refused. */
  predicate AllLinked(calls: seq<Submission>) {
    forall call | call in calls :: call.writeOk ==> call.linkOk
  }

  /** The submission for connection `id`; accepted unless said otherwise. */
  function CallFor(calls: seq<Submission>, id: nat): Submission {
    if id < |calls| then calls[id] else Submission(true, true, false)
  }

  /**
   * What the event loop reacts to; `id` names the connection, `serial` the write that is complete, and the flags
   * say which calls succeed.
   */
  datatype LoopEvent =
    | AcceptOne(mallocOk: bool, recvmsgOk: bool)
    | FdReceived(id: nat, got: Received)
    | WorkerFinished(id: nat, result: int, sent: nat)
    | Collected(id: nat, writeOk: bool, linkOk: bool)
    | WriteDone(serial: nat, res: int, next: NextMessage, writeOk: bool, linkOk: bool)
    | CurlBytes(id: nat, chunk: seq<byte>, room: bool, appends: seq<AppendCall>)
    | CurlDone(id: nat, success: bool, canGrow: bool)
    | Immediate(id: nat, writeOk: bool)
    | Flush(calls: seq<Submission>)
  {
    /** No write that this event hands to the ring has its timeout refused, and with it its slot freed. */
    predicate Linked() {
      match this
      case FdReceived(_, Good(Direct(writeOk, linkOk))) => writeOk ==> linkOk
      case Collected(_, writeOk, linkOk) => writeOk ==> linkOk
      case WriteDone(_, _, _, writeOk, linkOk) => writeOk ==> linkOk
      case Flush(calls) => AllLinked(calls)
      case _ => true
    }
  }

  /** A write the ring has accepted and not completed: for which slot, and how long. */
  datatype RingWrite = RingWrite(slot: Conn, len: nat)

  /**
   * What the ring has of writes, by serial number; the next number; and how many writes it accepted whose timeout
   * it refused, so that their slot was freed.
   */
  datatype Ring = Ring(writes: map<nat, RingWrite>, serial: nat, abandoned: nat) {
    function Offered(slot: Conn, len: nat, writeOk: bool, linkOk: bool): Ring {
      if !writeOk then this
      else Ring(writes[serial := RingWrite(slot, len)], serial + 1, abandoned + (if linkOk then 0 else 1))
    }

    function Without(k: nat): Ring {
      this.(writes := writes - {k})
    }
  }

  /** What of a connection a client could see. */
  datatype Seen = Seen(state: ConnState, wb: WriteBuffer?, unsent: bool, appended: seq<byte>, taken: seq<byte>,
                       delivered: seq<byte>, misled: bool)

  const NOTHING := Seen(Unused, null, false, [], [], [], false)

  /** The same, with nothing left of the connections in `lost`. */
  ghost function After(seens: map<Conn, Seen>, lost: seq<Conn>): map<Conn, Seen> {
    map c | c in seens :: if c in lost then NOTHING else seens[c]
  }

  lemma AfterOneMore(seens: map<Conn, Seen>, was: seq<Conn>, fates: seq<Fate>, j: nat)
    requires j < |was| == |fates| && was[j] in seens
    ensures var before, after := Ending(was, fates, j), Ending(was, fates, j + 1);
            && |after| == |before| + (if fates[j].Ends? then 1 else 0)
            && After(seens, after) == if fates[j].Ends? then After(seens, before)[was[j] := NOTHING]
                                      else After(seens, before)
  {
    hide Ending;
    EndingStep(was, fates, j);
  }

  lemma Emptied(c: Conn)
    requires c.Conserves() && c.wb != null
    ensures !c.HasUnsent() <==> c.taken == c.appended
  {
    assert |c.appended| == |c.taken| + |c.wb.Contents()|;
    assert c.wb.Contents() == [] ==> c.taken + c.wb.Contents() == c.taken;
  }
}
