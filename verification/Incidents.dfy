/**
 * Two runs of the event loop in which something goes wrong, step by step through its handlers: a completion that
 * is taken for another connection's, and a flush that damages the dirty list.
 */
module Incidents {
  import opened Bytes
  import opened Connections
  import opened CurlRelay
  import opened EventLoop
  import opened LoopEvents
  import opened WriteBuffers
  import LoopMachine

  lemma FirstOf(free: seq<Conn>, c: Conn, rest: seq<Conn>)
    requires free == [c] + rest
    ensures free != [] && free[0] == c
  {
  }

  lemma Streams(d: Daemon, c: Conn)
    requires d.Inv() && c in d.conns && c.state == Streaming
    ensures c.wb == null
  {
    assert c.Conserves();
  }

  /**
   * From every state in which a connection is about to start streaming: its header write is accepted, the timeout is
   * refused, and the slot is freed with the write still in the ring.  The next client gets the slot, and when that
   * write completes, the daemon takes the headers of the new connection for delivered and goes on to the next
   * message, although its client has been sent nothing that is known to have arrived.
   */
  method SlotReused(d: Daemon, c: Conn)
    requires d.Inv() && c in d.conns && c.state == Streaming && c.Unstarted() && !c.pooled
    modifies d, d.Slots()
    ensures d.Inv() && d.ring.abandoned == old(d.ring.abandoned) + 1
    ensures c.misled && c.out.frames == [SSE_HEADERS] && c.out.offset == 0 && c.delivered == []
  {
    hide Daemon.Inv, Conn.Conserves, Conn.Single, Daemon.Snap, LoopMachine.Started, LoopMachine.Accepted,
         LoopMachine.FdTaken, LoopMachine.Written, LoopMachine.Arrived;
    var k := d.ring.serial;
    d.StartStreaming(c, true, false);
    FirstOf(d.free, c, d.free[1..]);
    d.HandleAccept(true, true);
    d.HandleRecvFd(c, Good(Direct(true, true)));
    Streams(d, c);
    var end := d.HandleWrite(c, k, |SSE_HEADERS|, EndOfStream, true, true);
  }

  /** The bytes just queued on an idle connection can be sent. */
  lemma Unsent(d: Daemon, c: Conn)
    requires d.Inv() && c in d.conns && c.wb != null
    ensures c.HasUnsent() <==> c.taken != c.appended
    ensures c.Conserves() && |c.appended| == |c.taken| + (c.wb.head - c.wb.tail)
  {
    assert c.Conserves();
    Emptied(c);
  }

  /** A slot that nothing was relayed through, in this state. */
  ghost predicate Quiet(c: Conn, state: ConnState)
    reads c
  {
    c.state == state && c.wb == null && c.relay == NO_RELAY
  }

  twostate lemma StaysQuiet(c: Conn, new state: ConnState)
    requires old(Quiet(c, state)) && c.Now() == old(c.Now())
    ensures Quiet(c, state)
  {
  }

  lemma HeadersFit(d: Daemon, c: Conn)
    requires d.Inv() && c in d.conns && c.state == CurlPending && c.wb == null
    ensures c.Conserves() && c.Accepts(|SSE_HEADERS|, true, true) && c.taken == [] && c !in d.dirty && !c.Busy()
  {
    assert c.Conserves();
  }

  /** A request that has not begun queues its headers. */
  method SendHeaders(d: Daemon, c: Conn)
    requires d.Inv() && c in d.conns && Quiet(c, CurlPending)
    modifies d`dirty, d`dirtyHead, d`dirtyTail, d`owner, d.Slots()`dirtyNext, d.Slots()`onDirtyList
    modifies c`wb, c`appended, c`state, c`relay, c.Memory()
    ensures d.Inv() && fresh(d.owner.Keys - old(d.owner.Keys)) && c.state == CurlActive && c.wb != null
    ensures c.HasUnsent() && !c.Busy() && c.taken == [] && c.appended == SSE_HEADERS
    ensures d.dirty == old(d.dirty) + [c]
    ensures forall x | x in d.conns && x != c :: x.Now() == old(x.Now())
  {
    hide Daemon.Inv, Conn.Now, Conn.Relaying, Conn.HasUnsent, Conn.Busy, Conn.Conserves, Conn.Relays, Conn.Accepts,
         Relay.Wire, Relay.Faithful, Daemon.Snap, LoopMachine.Pushed;
    NothingRelayed();
    HeadersNext(NO_RELAY);
    HeadersFit(d, c);
    d.Excepting(c);
    d.RelayKnown(c);
    var ok := d.Push(c, SSE_HEADERS, CurlActive, NO_RELAY.(headers := true), true, true);
    Unsent(d, c);
  }

  /** A connection whose headers are queued has them written and accepted: nothing is left to send. */
  method HeadersArrive(d: Daemon, c: Conn)
    requires d.Inv() && c in d.conns && c.state == CurlActive && c.wb != null && c.HasUnsent() && !c.Busy()
    requires c.taken == [] && c.appended == SSE_HEADERS
    modifies d, d.Slots()`dirtyNext, c, c.wb
    ensures d.Inv() && d.dirty == old(d.dirty) && d.owner == old(d.owner)
    ensures c.wb != null && !c.HasUnsent() && !c.Busy()
    ensures forall x | x in d.conns && x != c :: x.Now() == old(x.Now())
  {
    hide Daemon.Inv, Conn.Conserves, Conn.Relays, Daemon.Snap, LoopMachine.Drained, LoopMachine.Arrived,
         LoopMachine.Tried;
    Unsent(d, c);
    var k := d.ring.serial;
    d.TryImmediateWrite(c, true);
    Unsent(d, c);
    var end := d.HandleAsyncWrite(c, k, |SSE_HEADERS|, true, true);
    Unsent(d, c);
  }

  lemma TwoFates(d: Daemon, a: Conn, b: Conn, calls: seq<Submission>)
    requires d.dirty == [a, b] && a.id == 0 && b.id == 1 && calls == [Submission(false, true, true)]
    requires a.HasUnsent() && !a.Busy() && b.wb != null && !b.HasUnsent() && !b.Busy()
    ensures Damages(d.Fates(d.dirty, calls))
  {
    var fates := d.Fates(d.dirty, calls);
    assert fates[0] == d.FateOf(d.dirty[0], calls) == Ends(true);
    assert fates[1] == d.FateOf(d.dirty[1], calls) == Leaves;
    assert fates == [Ends(true), Leaves];
    RefusedBeforeDrained();
  }

  twostate lemma SameView(c: Conn)
    requires c.Now() == old(c.Now())
    ensures c.HasUnsent() == old(c.HasUnsent()) && c.Busy() == old(c.Busy()) && c.wb == old(c.wb)
            && c.state == old(c.state) && c.relay == old(c.relay)
  {
  }

  /** Two requests begin to answer. */
  method BothQueue(d: Daemon, a: Conn, b: Conn)
    requires d.Inv() && a in d.conns && b in d.conns && a != b && d.dirty == []
    requires Quiet(a, CurlPending) && Quiet(b, CurlPending)
    modifies d`dirty, d`dirtyHead, d`dirtyTail, d`owner, d.Slots()
    ensures d.Inv() && d.dirty == [a, b] && fresh(d.owner.Keys - old(d.owner.Keys))
    ensures a.HasUnsent() && !a.Busy() && b.HasUnsent() && !b.Busy() && b.state == CurlActive && b.wb != null
    ensures b.taken == [] && b.appended == SSE_HEADERS
  {
    hide Daemon.Inv, Conn.Conserves, Conn.Relays, Conn.Now, Conn.HasUnsent, Conn.Busy;
    label Start:
    SendHeaders(d, a);
    SameView@Start(b);
    label Queued:
    SendHeaders(d, b);
    SameView@Queued(a);
  }

  /** The headers of the second arrive at once, those of the first wait. */
  method OneWaitsOneDrains(d: Daemon, a: Conn, b: Conn)
    requires d.Inv() && a in d.conns && b in d.conns && a != b && d.dirty == []
    requires Quiet(a, CurlPending) && Quiet(b, CurlPending)
    modifies d, d.Slots(), d.owner.Keys
    ensures d.Inv() && d.dirty == [a, b] && fresh(d.owner.Keys - old(d.owner.Keys))
    ensures a.HasUnsent() && !a.Busy() && b.wb != null && !b.HasUnsent() && !b.Busy()
  {
    hide Daemon.Inv, Conn.Conserves, Conn.Relays, Conn.Now, Conn.HasUnsent, Conn.Busy;
    BothQueue(d, a, b);
    d.InOwner(b);
    label Queued:
    HeadersArrive(d, b);
    SameView@Queued(a);
  }

  /**
   * When the ring then refuses the first one's write, and its freed buffer still reads as in use, the flush unlinks
   * the second from the freed slot, and no list fits the links and flags any more.
   */
  method FlushDamages(d: Daemon, a: Conn, b: Conn)
    requires d.Inv() && a in d.conns && b in d.conns && a.id == 0 && b.id == 1 && d.dirty == []
    requires Quiet(a, CurlPending) && Quiet(b, CurlPending)
    modifies d, d.Slots(), d.owner.Keys
    ensures forall list :: !d.Chained(list)
  {
    hide Daemon.Inv, Daemon.Chained, Conn.Conserves, Conn.Relays, Daemon.Fates, Damages, Daemon.Buffers;
    OneWaitsOneDrains(d, a, b);
    TwoFates(d, a, b, [Submission(false, true, true)]);
    d.BuffersOwned();
    var damaged := d.FlushStreaming([Submission(false, true, true)]);
  }

  /** The first free slot is taken, */
  method Connect(d: Daemon, c: Conn, rest: seq<Conn>)
    requires d.Inv() && d.free == [c] + rest && Quiet(c, Unused)
    modifies d, d.Slots()
    ensures d.Inv() && c in d.conns && Quiet(c, ReceivingFd) && d.free == rest
    ensures d.dirty == old(d.dirty) && d.owner == old(d.owner)
    ensures forall x | x in d.conns && x != c :: x.Now() == old(x.Now())
  {
    hide Daemon.Inv;
    FirstOf(d.free, c, rest);
    d.HandleAccept(true, true);
  }

  /** and its request is handed to curl. */
  method Ask(d: Daemon, c: Conn)
    requires d.Inv() && c in d.conns && Quiet(c, ReceivingFd)
    modifies d, d.Slots()`dirtyNext, c
    ensures d.Inv() && Quiet(c, CurlPending) && d.dirty == old(d.dirty) && d.owner == old(d.owner)
    ensures forall x | x in d.conns && x != c :: x.Now() == old(x.Now())
  {
    hide Daemon.Inv;
    d.HandleRecvFd(c, Good(ToCurl(true)));
  }

  /** Two such requests are soon there. */
  method TwoRequests() returns (d: Daemon, a: Conn, b: Conn)
    ensures fresh(d) && fresh(d.Slots()) && fresh(d.owner.Keys)
    ensures d.Inv() && a in d.conns && b in d.conns && a.id == 0 && b.id == 1 && d.dirty == []
    ensures Quiet(a, CurlPending) && Quiet(b, CurlPending)
  {
    hide Daemon.Inv, Conn.Now, Daemon.Snap, Conn.Look;
    a := new Conn(0);
    b := new Conn(1);
    d := new Daemon([a, b]);
    label Start:
    Connect(d, a, [b]);
    StaysQuiet@Start(b, Unused);
    label One:
    Connect(d, b, []);
    StaysQuiet@One(a, ReceivingFd);
    label Two:
    Ask(d, a);
    StaysQuiet@Two(b, ReceivingFd);
    label Three:
    Ask(d, b);
    StaysQuiet@Three(a, CurlPending);
  }

  /** From the start of the daemon to a damaged list. */
  method DamageFromTheStart() returns (d: Daemon)
    ensures forall list :: !d.Chained(list)
  {
    hide Daemon.Chained, Daemon.Inv;
    var a, b;
    d, a, b := TwoRequests();
    FlushDamages(d, a, b);
  }
}
