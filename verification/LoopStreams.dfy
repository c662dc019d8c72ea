/**
 * A connection that is streamed to directly and whose writes are all accepted whole: whatever else the event loop does
 * meanwhile, its client gets the headers, the frame of every message and the end marker, and it is counted once.
 */
module LoopStreams {
  import opened Bytes
  import opened Connections
  import opened CurlRelay
  import opened LoopEvents
  import opened LoopMachine
  import opened LoopRuns

  function Frames(texts: seq<CString>): (r: seq<seq<byte>>)
    ensures |r| == |texts|
  {
    if texts == [] then [] else Frames(texts[..|texts| - 1]) + [FrameOf(texts[|texts| - 1])]
  }

  /** What the client of a stream gets: the headers, a frame for each text and, once it is over, the end marker. */
  function Script(texts: seq<CString>, over: bool): seq<seq<byte>> {
    [SSE_HEADERS] + Frames(texts) + (if over then [SSE_DONE] else [])
  }

  lemma ScriptSnoc(texts: seq<CString>, text: CString)
    ensures Script(texts + [text], false) == Script(texts, false) + [FrameOf(text)]
    ensures Script(texts, true) == Script(texts, false) + [SSE_DONE]
  {
    hide FrameOf;
    assert (texts + [text])[..|texts|] == texts;
  }

  /** The last write of `all` is under way, whole, and the client has accepted those before it. */
  predicate Sending(slot: Slot, all: seq<seq<byte>>) {
    var out := slot.out;
    && slot.shape == None && !slot.pooled && !slot.misled && (slot.state == Streaming || slot.state == Closing)
    && out.frames + [out.message] == all && out.offset == 0 && out.len == |out.message|
    && out.submitted == out.message
    && slot.delivered == Flatten(out.frames) && out.sent == |slot.delivered|
  }

  /** The event is a completion of a write of slot `c`. */
  predicate Answers(s: Snapshot, e: LoopEvent, c: Conn) {
    e.WriteDone? && e.serial in s.ring.writes && s.ring.writes[e.serial].slot == c
  }

  /** If it is, the write the connection waits for was accepted whole, and what is to be sent next can be. */
  predicate Obliging(s: Snapshot, e: LoopEvent, c: Conn) {
    Answers(s, e, c) ==>
      && s.Of(c).ticket == Some(e.serial) && e.res == |s.Of(c).out.submitted| <= s.ring.writes[e.serial].len
      && e.writeOk && e.linkOk && (s.Of(c).state == Streaming ==> e.next.EndOfStream? || e.next.Fits())
  }

  lemma Deaf(conns: seq<Conn>, s: Snapshot, e: LoopEvent, c: Conn)
    requires var slot := s.Of(c);
             slot.shape == None && !slot.pooled && (slot.state == Streaming || slot.state == Closing)
    requires !e.AcceptOne? && !e.WriteDone? && !e.Flush? && e.id < |conns| && conns[e.id] == c
    ensures Next(conns, s, e) == s
  {
  }

  /** A connection that streams notices nothing but completions. */
  lemma OnlyAnswers(conns: seq<Conn>, s: Snapshot, e: LoopEvent, c: Conn, all: seq<seq<byte>>)
    requires Sending(s.Of(c), all) && c !in s.free && c !in s.dirty && !Answers(s, e, c)
    ensures var t := Next(conns, s, e); t.Of(c) == s.Of(c) && c !in t.free && c !in t.dirty
  {
    hide Next, FrameOf, Flatten, Script;
    if !Concerns(conns, s, e, c) {
      Bystander(conns, s, e, c);
    } else {
      Deaf(conns, s, e, c);
    }
  }

  /** A completion in the middle of the stream, and the one that ends it. */
  lemma Answered(s: Snapshot, e: LoopEvent, c: Conn, all: seq<seq<byte>>)
    requires Sending(s.Of(c), all) && Answers(s, e, c) && Obliging(s, e, c)
    ensures var t := CqeTaken(s, e.serial, e.res, e.next, e.writeOk, e.linkOk);
            && s.Of(c).delivered + s.Of(c).out.submitted == Flatten(all)
            && if s.Of(c).state == Streaming then
                 && Sending(t.Of(c), all + [e.next.Content()]) && t.free == s.free && t.dirty == s.dirty
                 && t.Of(c).state == if e.next.EndOfStream? then Closing else Streaming
               else
                 t.Of(c) == FREE_SLOT && t.tally == s.tally.Ended(Some(Completed), |Flatten(all)|)
  {
    hide FrameOf, Flatten;
    var out := s.Of(c).out;
    FlattenSnoc(out.frames, out.message);
    assert out.submitted[..e.res] == out.message;
  }

  /** The texts that the completions of a run bring for `c`. */
  function Texts(conns: seq<Conn>, s: Snapshot, events: seq<LoopEvent>, c: Conn): seq<CString> {
    if events == [] then []
    else
      var k := |events| - 1;
      var now, e := AfterAll(conns, s, events[..k]), events[k];
      Texts(conns, s, events[..k], c)
      + (if Answers(now, e, c) && now.Of(c).state == Streaming && e.next.Message? then [e.next.text] else [])
  }

  predicate AllObliging(conns: seq<Conn>, s: Snapshot, events: seq<LoopEvent>, c: Conn) {
    events == []
    || (AllObliging(conns, s, events[..|events| - 1], c)
        && Obliging(AfterAll(conns, s, events[..|events| - 1]), events[|events| - 1], c))
  }

  /** A connection that begins to stream. */
  predicate Starting(s: Snapshot, c: Conn) {
    Sending(s.Of(c), Script([], false)) && s.Of(c).state == Streaming && c !in s.free && c !in s.dirty
  }

  /** A request that streams at once begins with its headers. */
  lemma DirectBegins(s: Snapshot, c: Conn)
    requires s.Of(c) == FREE_SLOT.(state := ReceivingFd)
    ensures var t := FdTaken(s, c, Good(Direct(true, true)));
            t.Of(c).state == Streaming && Sending(t.Of(c), Script([], false))
  {
    assert [] + [SSE_HEADERS] == Script([], false);
  }

  lemma PoolQueued(s: Snapshot, c: Conn, id: nat)
    requires s.Of(c) == FREE_SLOT.(state := ReceivingFd)
    ensures var t := NextOn(s, c, FdReceived(id, Good(ToPool(true))));
            t.Of(c) == FREE_SLOT.(state := LlmQueued, pooled := true) && t.tally == s.tally
  {
  }

  lemma PoolWorked(s: Snapshot, c: Conn, id: nat, result: int, sent: nat)
    requires s.Of(c) == FREE_SLOT.(state := LlmQueued, pooled := true)
    ensures var t := NextOn(s, c, WorkerFinished(id, result, sent));
            && t.tally == s.tally && t.Of(c).pooled && t.Of(c).Unstarted() && t.Of(c).delivered == [] && !t.Of(c).misled
            && t.Of(c).state == (if result == 0 then Streaming else if result > 0 then Streamed else Closing)
            && t.Of(c).out.sent == (if result > 0 then sent else 0)
  {
  }

  lemma PoolGivesBack(s: Snapshot, c: Conn, id: nat, writeOk: bool, linkOk: bool)
    requires var slot := s.Of(c); slot.pooled && slot.Unstarted() && slot.delivered == [] && !slot.misled
    ensures var slot, t := s.Of(c), NextOn(s, c, Collected(id, writeOk, linkOk));
            && (slot.state == Streamed ==>
                  t.Of(c) == FREE_SLOT && t.tally == s.tally.Ended(Some(Completed), slot.out.sent))
            && (slot.state == Closing || (slot.state == Streaming && !(writeOk && linkOk)) ==>
                  t.Of(c) == FREE_SLOT && t.tally == s.tally.Ended(Some(Failed), 0))
            && (slot.state == Streaming && slot.out.sent == 0 && writeOk && linkOk ==>
                  t.Of(c).state == Streaming && Sending(t.Of(c), Script([], false)))
  {
    assert [] + [SSE_HEADERS] == Script([], false);
  }

  /**
   * A request for the pool: the worker has streamed itself, which completes the connection when it is given back; or
   * it has failed; or it leaves the streaming to the loop, which begins with the headers if the ring takes them.
   */
  lemma PoolBegins(s: Snapshot, c: Conn, id: nat, result: int, sent: nat, writeOk: bool, linkOk: bool)
    requires s.Of(c) == FREE_SLOT.(state := ReceivingFd)
    ensures var queued := NextOn(s, c, FdReceived(id, Good(ToPool(true))));
            var worked := NextOn(queued, c, WorkerFinished(id, result, sent));
            var t := NextOn(worked, c, Collected(id, writeOk, linkOk));
            && queued.Of(c).state == LlmQueued
            && (result > 0 ==> t.Of(c) == FREE_SLOT && t.tally == s.tally.Ended(Some(Completed), sent))
            && (result < 0 || (result == 0 && !(writeOk && linkOk)) ==>
                  t.Of(c) == FREE_SLOT && t.tally == s.tally.Ended(Some(Failed), 0))
            && (result == 0 && writeOk && linkOk ==>
                  t.Of(c).state == Streaming && Sending(t.Of(c), Script([], false)))
  {
    hide NextOn, Script, Sending, Flatten;
    PoolQueued(s, c, id);
    var queued := NextOn(s, c, FdReceived(id, Good(ToPool(true))));
    PoolWorked(queued, c, id, result, sent);
    PoolGivesBack(NextOn(queued, c, WorkerFinished(id, result, sent)), c, id, writeOk, linkOk);
  }

  lemma StreamsOrCloses(slot: Slot, all: seq<seq<byte>>)
    requires Sending(slot, all)
    ensures slot.state == Streaming || slot.state == Closing
  {
  }

  lemma OneMoreAnswer(conns: seq<Conn>, s: Snapshot, e: LoopEvent, c: Conn, texts: seq<CString>)
    requires var slot := s.Of(c);
             Sending(slot, Script(texts, slot.state == Closing)) && c !in s.free && c !in s.dirty
    requires Obliging(s, e, c)
    ensures var t := Next(conns, s, e);
            var closing := s.Of(c).state == Closing;
            if !Answers(s, e, c) then t.Of(c) == s.Of(c) && c !in t.free && c !in t.dirty
            else if closing then
              t.Of(c) == FREE_SLOT && t.tally == s.tally.Ended(Some(Completed), |Flatten(Script(texts, true))|)
              && s.Of(c).delivered + s.Of(c).out.submitted == Flatten(Script(texts, true))
            else
              && Sending(t.Of(c), Script(if e.next.Message? then texts + [e.next.text] else texts, e.next.EndOfStream?))
              && (t.Of(c).state == Closing <==> e.next.EndOfStream?) && c !in t.free && c !in t.dirty
  {
    hide Sending, CqeTaken, FrameOf, Flatten, Script;
    var all := Script(texts, s.Of(c).state == Closing);
    if Answers(s, e, c) {
      StreamsOrCloses(s.Of(c), all);
      Answered(s, e, c, all);
      if e.next.Message? {
        ScriptSnoc(texts, e.next.text);
      } else if e.next.EndOfStream? {
        ScriptSnoc(texts, []);
      }
    } else {
      OnlyAnswers(conns, s, e, c, all);
    }
  }

  /**
   * However a run interleaves with other connections, while a stream lasts its client has accepted the headers and
   * the frames of the messages so far, but for the last write, which is under way.
   */
  lemma {:induction false} StreamGoesOn(conns: seq<Conn>, s: Snapshot, events: seq<LoopEvent>, c: Conn)
    requires Starting(s, c) && InUse(conns, s, events, c) && AllObliging(conns, s, events, c)
    ensures var t := AfterAll(conns, s, events);
            && Sending(t.Of(c), Script(Texts(conns, s, events, c), t.Of(c).state == Closing))
            && c !in t.free && c !in t.dirty
  {
    hide Next, Obliging, Answers, Sending, Script;
    if events != [] {
      var k := |events| - 1;
      var now := AfterAll(conns, s, events[..k]);
      StreamGoesOn(conns, s, events[..k], c);
      OneMoreAnswer(conns, now, events[k], c, Texts(conns, s, events[..k], c));
      assert Texts(conns, s, events[..k], c) + [] == Texts(conns, s, events[..k], c);
      StreamsOrCloses(now.Of(c), Script(Texts(conns, s, events[..k], c), now.Of(c).state == Closing));
    }
  }

  /**
   * The only event that ends it is the completion of the end marker: the client has then accepted the headers, every
   * frame and the end marker, and the connection is counted as completed, once, with exactly these bytes.
   */
  lemma StreamEnds(conns: seq<Conn>, s: Snapshot, events: seq<LoopEvent>, e: LoopEvent, c: Conn)
    requires Starting(s, c) && InUse(conns, s, events, c) && AllObliging(conns, s, events + [e], c)
    requires AfterAll(conns, s, events + [e]).Of(c).state == Unused
    ensures var now, t := AfterAll(conns, s, events), AfterAll(conns, s, events + [e]);
            var all := Flatten(Script(Texts(conns, s, events, c), true));
            && now.Of(c).state == Closing && now.Of(c).delivered + now.Of(c).out.submitted == all
            && t.Of(c) == FREE_SLOT && t.tally == now.tally.Ended(Some(Completed), |all|)
  {
    hide Next, Obliging, Answers, Script, Flatten, FrameOf;
    assert (events + [e])[..|events|] == events;
    StreamGoesOn(conns, s, events, c);
    OneMoreAnswer(conns, AfterAll(conns, s, events), e, c, Texts(conns, s, events, c));
  }

  // ----- from the accept to the end

  function WholeTo(serial: nat, texts: seq<CString>, j: nat): (r: seq<LoopEvent>)
    requires j <= |texts| + 2
    ensures |r| == j
  {
    if j == 0 then []
    else
      var next := if j - 1 < |texts| then Message(texts[j - 1]) else EndOfStream;
      WholeTo(serial, texts, j - 1)
      + [WriteDone(serial + j - 1, |Script(texts, true)[j - 1]|, next, true, true)]
  }

  /** The events of one client's stream: every write is accepted whole, and the texts come one after another. */
  function Whole(id: nat, serial: nat, texts: seq<CString>): seq<LoopEvent> {
    [AcceptOne(true, true), FdReceived(id, Good(Direct(true, true)))] + WholeTo(serial, texts, |texts| + 2)
  }

  /** Write `j` of the script is under way. */
  function Stage(s: Snapshot, c: Conn, texts: seq<CString>, j: nat): Snapshot
    requires j < |Script(texts, true)| && s.free != []
  {
    var script := Script(texts, true);
    var before := Flatten(script[..j]);
    var out := Begun(script[j], 0 < j <= |texts|, script[..j], |before|);
    var slot := FREE_SLOT.(state := if j <= |texts| then Streaming else Closing, out := out, delivered := before,
                           ticket := Some(s.ring.serial + j));
    s.(free := s.free[1..], tally := s.tally.(started := s.tally.started + 1),
       ring := Ring(s.ring.writes[s.ring.serial + j := RingWrite(c, |script[j]|)], s.ring.serial + j + 1,
                    s.ring.abandoned)).With(c, slot)
  }

  /** The slot is free and waits for its next client. */
  predicate Vacant(s: Snapshot, c: Conn) {
    s.free != [] && s.free[0] == c && c in s.slots && s.slots[c] == FREE_SLOT && c !in s.dirty
    && forall k | k in s.ring.writes :: k < s.ring.serial
  }

  lemma ScriptAt(texts: seq<CString>, j: nat)
    requires j <= |texts| + 1
    ensures var script := Script(texts, true);
            |script| == |texts| + 2 && script[0] == SSE_HEADERS && script[|texts| + 1] == SSE_DONE
            && (0 < j <= |texts| ==> script[j] == FrameOf(texts[j - 1]))
    decreases |texts|
  {
    hide FrameOf;
    if texts != [] {
      var k := |texts| - 1;
      if 0 < j <= k {
        ScriptAt(texts[..k], j);
        assert Frames(texts)[..k] == Frames(texts[..k]);
        assert Script(texts, true)[j] == Frames(texts)[j - 1] == Frames(texts[..k])[j - 1];
      }
    }
  }

  /** The accept and the descriptor bring the headers under way. */
  lemma WholeBegins(conns: seq<Conn>, s: Snapshot, c: Conn, id: nat, texts: seq<CString>)
    requires Vacant(s, c) && id < |conns| && conns[id] == c
    ensures |Script(texts, true)| == |texts| + 2
    ensures Next(conns, Next(conns, s, AcceptOne(true, true)), FdReceived(id, Good(Direct(true, true))))
            == Stage(s, c, texts, 0)
  {
    hide FrameOf, Frames;
    ScriptAt(texts, 0);
    assert Script(texts, true)[..0] == [];
  }

  /** The slot of a stage, and with it everything else. */
  lemma StageParts(s: Snapshot, c: Conn, texts: seq<CString>, j: nat)
    requires Vacant(s, c) && j < |Script(texts, true)|
    ensures var t := Stage(s, c, texts, j);
            var write := Script(texts, true)[j];
            var before := Flatten(Script(texts, true)[..j]);
            && t.Of(c) == FREE_SLOT.(state := if j <= |texts| then Streaming else Closing, delivered := before,
                                     out := Begun(write, 0 < j <= |texts|, Script(texts, true)[..j], |before|),
                                     ticket := Some(s.ring.serial + j))
            && t.ring == Ring(s.ring.writes, s.ring.serial + j, s.ring.abandoned).Offered(c, |write|, true, true)
            && t.ring.Without(s.ring.serial + j) == Ring(s.ring.writes, s.ring.serial + j + 1, s.ring.abandoned)
  {
    hide Script, Flatten;
    var k := s.ring.serial + j;
    assert s.ring.writes[k := RingWrite(c, |Script(texts, true)[j]|)] - {k} == s.ring.writes;
  }

  /** A stage is the vacant slot with its next write under way. */
  lemma StageIs(s: Snapshot, c: Conn, texts: seq<CString>, j: nat, t: Snapshot, slot: Slot, ring: Ring)
    requires Vacant(s, c) && j + 1 < |Script(texts, true)| && t == Arrived(Stage(s, c, texts, j), c, s.ring.serial + j)
    requires slot == Stage(s, c, texts, j + 1).Of(c) && ring == Stage(s, c, texts, j + 1).ring
    ensures t.(ring := ring).With(c, slot) == Stage(s, c, texts, j + 1)
  {
    hide Script, Flatten;
    var u, v := Stage(s, c, texts, j).Of(c), t.Of(c);
    assert s.slots[c := u][c := v][c := slot] == s.slots[c := slot];
  }

  /** The write a stage waits for is its own. */
  lemma StageTaken(s: Snapshot, c: Conn, k: nat, res: nat, next: NextMessage)
    requires s.Of(c).ticket == Some(k) && s.Of(c).shape == None
    requires s.Of(c).state == Streaming || s.Of(c).state == Closing
    requires k in s.ring.writes && s.ring.writes[k] == RingWrite(c, res)
    ensures CqeTaken(s, k, res, next, true, true) == Written(Arrived(s, c, k), c, true, res, next, true, true)
    ensures Arrived(s, c, k).ring == s.ring.Without(k) && Arrived(s, c, k).Of(c) == s.Of(c).(ticket := None)
  {
    hide Written;
  }

  /** A whole write is accepted, and the next one goes out. */
  lemma StageOn(t: Snapshot, c: Conn, res: nat, next: NextMessage, slot: Slot, ring: Ring)
    requires var was := t.Of(c);
             && was.state == Streaming && !was.misled && was.out.len == res && was.out.offset == 0
             && was.out.submitted == was.out.message && |was.out.message| == res
             && (next.EndOfStream? || next.Fits())
             && slot == was.(state := if next.EndOfStream? then Closing else Streaming,
                             out := next.Write(was.out.frames + [was.out.message], was.out.sent + res),
                             delivered := was.delivered + was.out.message, ticket := Some(t.ring.serial))
    requires ring == t.ring.Offered(c, |next.Content()|, true, true)
    ensures t.(ring := ring).With(c, slot) == Written(t, c, true, res, next, true, true)
  {
    hide FrameOf, Written;
    assert t.Of(c).out.submitted[..res] == t.Of(c).out.message;
    WrittenOn(t, c, true, res, next, true, true, slot, ring);
  }

  /** What changes in the slot from one stage to the next. */
  lemma StageSlots(s: Snapshot, c: Conn, texts: seq<CString>, j: nat)
    requires Vacant(s, c) && j <= |texts| && |Script(texts, true)| == |texts| + 2
    ensures var next := if j < |texts| then Message(texts[j]) else EndOfStream;
            var was, now := Stage(s, c, texts, j).Of(c), Stage(s, c, texts, j + 1).Of(c);
            && was.state == Streaming && !was.misled && was.out.len == |Script(texts, true)[j]| && was.out.offset == 0
            && was.out.submitted == was.out.message == Script(texts, true)[j]
            && Script(texts, true)[j + 1] == next.Content()
            && now == was.(state := if next.EndOfStream? then Closing else Streaming,
                           out := next.Write(was.out.frames + [was.out.message], was.out.sent + was.out.len),
                           delivered := was.delivered + was.out.message, ticket := Some(s.ring.serial + j + 1))
  {
    hide FrameOf, Frames, Script, Flatten, Stage;
    var script := Script(texts, true);
    ScriptAt(texts, j);
    ScriptAt(texts, j + 1);
    FlattenSnoc(script[..j], script[j]);
    assert script[..j + 1] == script[..j] + [script[j]];
    StageParts(s, c, texts, j);
    StageParts(s, c, texts, j + 1);
  }

  /** Write `j` is accepted, and the next one is under way. */
  lemma WholeGoesOn(conns: seq<Conn>, s: Snapshot, c: Conn, texts: seq<CString>, j: nat)
    requires Vacant(s, c) && j <= |texts| && |Script(texts, true)| == |texts| + 2
    requires j < |texts| ==> Message(texts[j]).Fits()
    ensures var next := if j < |texts| then Message(texts[j]) else EndOfStream;
            var e := WriteDone(s.ring.serial + j, |Script(texts, true)[j]|, next, true, true);
            Next(conns, Stage(s, c, texts, j), e) == Stage(s, c, texts, j + 1)
  {
    hide FrameOf, Frames, Script, Flatten, Stage, Written, CqeTaken, Arrived, NextMessage.Write, NextMessage.Content;
    var next := if j < |texts| then Message(texts[j]) else EndOfStream;
    var was, now := Stage(s, c, texts, j), Stage(s, c, texts, j + 1);
    StageParts(s, c, texts, j);
    StageParts(s, c, texts, j + 1);
    StageSlots(s, c, texts, j);
    var k, res := s.ring.serial + j, |Script(texts, true)[j]|;
    var t := Arrived(was, c, k);
    StageTaken(was, c, k, res, next);
    StageIs(s, c, texts, j, t, now.Of(c), now.ring);
    StageOn(t, c, res, next, now.Of(c), now.ring);
  }

  lemma Closes(t: Snapshot, c: Conn, res: nat)
    requires t.Of(c).state == Closing && t.Of(c).out.len == res && t.Of(c).out.offset == 0
    ensures Written(t, c, true, res, EndOfStream, true, true) == t.Ended(c, Completed, t.Of(c).out.sent + res)
  {
  }

  lemma LastWritten(s: Snapshot, c: Conn, texts: seq<CString>, res: nat)
    requires Vacant(s, c) && |Script(texts, true)| == |texts| + 2 && res == |Script(texts, true)[|texts| + 1]|
    ensures var t := Arrived(Stage(s, c, texts, |texts| + 1), c, s.ring.serial + |texts| + 1);
            var sent := |Flatten(Script(texts, true)[..|texts| + 1])| + res;
            Written(t, c, true, res, EndOfStream, true, true)
            == s.(ring := Ring(s.ring.writes, s.ring.serial + |texts| + 2, s.ring.abandoned),
                  tally := s.tally.(started := s.tally.started + 1, completed := s.tally.completed + 1,
                                    bytes := s.tally.bytes + sent))
  {
    hide FrameOf, Frames, Script, Flatten, Written;
    var last := Stage(s, c, texts, |texts| + 1);
    StageParts(s, c, texts, |texts| + 1);
    WithoutAbsent(s.dirty, c);
    var t := Arrived(last, c, s.ring.serial + |texts| + 1);
    Closes(t, c, res);
    assert s.slots[c := last.Of(c)][c := t.Of(c)][c := FREE_SLOT] == s.slots;
    assert [c] + s.free[1..] == s.free;
  }

  /** The end marker is accepted, and the slot is vacant again. */
  lemma WholeEnds(conns: seq<Conn>, s: Snapshot, c: Conn, texts: seq<CString>)
    requires Vacant(s, c) && |Script(texts, true)| == |texts| + 2
    ensures var n, all := |texts| + 1, Flatten(Script(texts, true));
            var e := WriteDone(s.ring.serial + n, |Script(texts, true)[n]|, EndOfStream, true, true);
            var t := Next(conns, Stage(s, c, texts, n), e);
            t == s.(ring := Ring(s.ring.writes, s.ring.serial + n + 1, s.ring.abandoned),
                    tally := s.tally.(started := s.tally.started + 1, completed := s.tally.completed + 1,
                                      bytes := s.tally.bytes + |all|))
  {
    hide FrameOf, Frames, Script, Flatten, Written, CqeTaken, Arrived;
    var script, n := Script(texts, true), |texts| + 1;
    FlattenSnoc(script[..n], script[n]);
    assert script == script[..n] + [script[n]];
    StageParts(s, c, texts, n);
    StageTaken(Stage(s, c, texts, n), c, s.ring.serial + n, |script[n]|, EndOfStream);
    LastWritten(s, c, texts, |script[n]|);
  }

  lemma OneAnswer(conns: seq<Conn>, s: Snapshot, begin: seq<LoopEvent>, serial: nat, texts: seq<CString>, j: nat)
    requires 0 < j <= |texts| + 2 && |Script(texts, true)| == |texts| + 2
    ensures var next := if j - 1 < |texts| then Message(texts[j - 1]) else EndOfStream;
            var e := WriteDone(serial + j - 1, |Script(texts, true)[j - 1]|, next, true, true);
            AfterAll(conns, s, begin + WholeTo(serial, texts, j))
            == Next(conns, AfterAll(conns, s, begin + WholeTo(serial, texts, j - 1)), e)
  {
    hide Next, Script;
    var before, all := WholeTo(serial, texts, j - 1), WholeTo(serial, texts, j);
    assert (begin + all)[..|begin + all| - 1] == begin + before;
  }

  lemma TwoEvents(conns: seq<Conn>, s: Snapshot, a: LoopEvent, b: LoopEvent)
    ensures AfterAll(conns, s, [a, b]) == Next(conns, Next(conns, s, a), b)
  {
    hide Next;
    assert [a, b][..1] == [a] && [a][..0] == [];
    assert AfterAll(conns, s, [a]) == Next(conns, AfterAll(conns, s, []), a);
  }

  /** After the first `j` completions. */
  lemma {:induction false} WholeRuns(conns: seq<Conn>, s: Snapshot, c: Conn, id: nat, texts: seq<CString>, j: nat)
    requires Vacant(s, c) && id < |conns| && conns[id] == c && j <= |texts| + 1 && |Script(texts, true)| == |texts| + 2
    requires forall text | text in texts :: Message(text).Fits()
    ensures var begin := [AcceptOne(true, true), FdReceived(id, Good(Direct(true, true)))];
            AfterAll(conns, s, begin + WholeTo(s.ring.serial, texts, j)) == Stage(s, c, texts, j)
  {
    hide Next, Stage, Script, FrameOf, NextMessage.Fits;
    var begin := [AcceptOne(true, true), FdReceived(id, Good(Direct(true, true)))];
    if j == 0 {
      WholeBegins(conns, s, c, id, texts);
      TwoEvents(conns, s, begin[0], begin[1]);
      assert begin + [] == [begin[0], begin[1]];
    } else {
      WholeRuns(conns, s, c, id, texts, j - 1);
      WholeGoesOn(conns, s, c, texts, j - 1);
      OneAnswer(conns, s, begin, s.ring.serial, texts, j);
    }
  }

  /**
   * For every list of texts that fit: the client that takes the first free slot gets the headers, the frames and the
   * end marker, one completion with just these bytes is counted, and everything else is as before.
   */
  lemma WholeStream(conns: seq<Conn>, s: Snapshot, c: Conn, id: nat, texts: seq<CString>)
    requires Vacant(s, c) && id < |conns| && conns[id] == c
    requires forall text | text in texts :: Message(text).Fits()
    ensures AfterAll(conns, s, Whole(id, s.ring.serial, texts))
            == s.(ring := Ring(s.ring.writes, s.ring.serial + |texts| + 2, s.ring.abandoned),
                  tally := s.tally.(started := s.tally.started + 1, completed := s.tally.completed + 1,
                                    bytes := s.tally.bytes + |Flatten(Script(texts, true))|))
  {
    hide Next, Stage, Script, FrameOf, NextMessage.Fits, Flatten, AfterAll, WholeTo, Vacant;
    ScriptAt(texts, 0);
    var n := |texts| + 1;
    WholeRuns(conns, s, c, id, texts, n);
    WholeEnds(conns, s, c, texts);
    var begin := [AcceptOne(true, true), FdReceived(id, Good(Direct(true, true)))];
    OneAnswer(conns, s, begin, s.ring.serial, texts, n + 1);
  }
}
