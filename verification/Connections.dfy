/**
 * One connection of the io_uring daemon and its two write paths (daemon.c, curl_manager.c): one message after
 * another, or a buffer in which appends, submissions and completions interleave.  No byte is lost, repeated or
 * reordered, unless a completion of an earlier connection in the same slot is taken for the connection's own.
 */
module Connections {
  import opened Bytes
  import opened CurlRelay
  import opened WriteBuffers

  datatype ConnState =
    | Unused | Accepting | ReceivingFd | Parsing | LlmQueued | LlmPending
    | CurlPending | CurlActive | Streaming | Streamed | Closing

  /** A submitted write: where its bytes lie in the buffer, and which they are. */
  datatype Flight = Flight(offset: nat, bytes: seq<byte>)

  /** Everything the invariants look at in a connection and its memory. */
  datatype View = View(state: ConnState, wb: WriteBuffer?, appended: seq<byte>, taken: seq<byte>,
                       delivered: seq<byte>, misled: bool, flight: Option<Flight>,
                       array: object?, capacity: nat, head: nat, tail: nat, pending: bool, bytes: seq<byte>,
                       out: Outgoing, ticket: Option<nat>, pooled: bool, relay: Relay)

  /**
   * The write of the path without a buffer: its memory, unless it is a constant, its length and how much of it
   * was accepted, what the ring holds of it, all of it, and the writes completed before it; and the bytes
   * counted as sent, on either path.
   */
  datatype Outgoing = Outgoing(buf: Option<seq<byte>>, len: nat, offset: nat, submitted: seq<byte>,
                               message: seq<byte>, frames: seq<seq<byte>>, sent: nat) {
    /** A completion of `res` bytes leaves part of the write unsent. */
    predicate IsShort(res: int) {
      len > 0 && offset + res < len
    }
  }

  /** A write just begun, after `frames`. */
  function Begun(message: seq<byte>, buffered: bool, frames: seq<seq<byte>>, sent: nat): Outgoing {
    Outgoing(if buffered then Some(message) else None, |message|, 0, message, message, frames, sent)
  }

  const NO_WRITE := Outgoing(None, 0, 0, [], [], [], 0)

  const EMPTY_SHAPE: Layout := Layout(DEFAULT_SIZE, 0, 0, false)

  /** A connection without its memory: of the write buffer, if it has one, only the shape. */
  datatype Slot = Slot(state: ConnState, shape: Option<Layout>, appended: seq<byte>, taken: seq<byte>,
                       delivered: seq<byte>, misled: bool, out: Outgoing, ticket: Option<nat>, pooled: bool,
                       relay: Relay) {
    /** How much is queued. */
    function Unsent(): int {
      if shape.Some? then shape.value.head - shape.value.tail else 0
    }

    predicate Busy() {
      shape.Some? && shape.value.busy
    }

    /** There is something to submit, and no write in flight. */
    predicate Ready() {
      Unsent() > 0 && !Busy()
    }

    predicate Unstarted() {
      shape == None && out == NO_WRITE.(sent := out.sent)
    }

    /** Exactly the appends that succeed. */
    predicate Accepts(len: nat, canCreate: bool, canGrow: bool) {
      (shape.Some? || canCreate) && (if shape.Some? then shape.value else EMPTY_SHAPE).Accepts(len, canGrow)
    }

    /** After an append, accepted or not; the buffer is created on first use. */
    function Queued(data: seq<byte>, canCreate: bool, canGrow: bool): Slot {
      if shape == None && !canCreate then this
      else
        var was := if shape.Some? then shape.value else EMPTY_SHAPE;
        this.(shape := Some(was.Appended(|data|, canGrow)),
              appended := appended + (if was.Accepts(|data|, canGrow) then data else []))
    }

    /** After an append that also moves the connection on, if it is accepted. */
    function Pushed(data: seq<byte>, after: ConnState, next: Relay, canCreate: bool, canGrow: bool): Slot {
      var queued := Queued(data, canCreate, canGrow);
      if Accepts(|data|, canCreate, canGrow) then queued.(state := after, relay := next) else queued
    }

    /** With everything queued in the ring. */
    function Submitted(): Slot {
      if shape == None then this else this.(shape := Some(shape.value.(busy := true)))
    }

    /** What a completion of `n` bytes takes off the queue. */
    function Front(n: nat): seq<byte> {
      if |taken| + n <= |appended| then appended[|taken|..|taken| + n]
      else if |taken| <= |appended| then appended[|taken|..]
      else []
    }

    /** After a completion of `n` bytes, of the write it waits for or of another. */
    function Completed(n: nat, own: bool): Slot {
      if shape == None then this
      else
        this.(shape := Some(shape.value.Consumed(n).(busy := false)), taken := taken + Front(n),
              delivered := delivered + (if own then Front(n) else []),
              misled := misled || (!own && (n > 0 || Busy())), out := out.(sent := out.sent + n))
    }
  }

  const FREE_SLOT: Slot := Slot(Unused, None, [], [], [], false, NO_WRITE, None, false, NO_RELAY)

  function Sketch(v: View): Slot {
    var shape := if v.wb == null then None else Some(Layout(v.capacity, v.head, v.tail, v.pending));
    Slot(v.state, shape, v.appended, v.taken, v.delivered, v.misled, v.out, v.ticket, v.pooled, v.relay)
  }

  lemma InFlightStays(after: seq<byte>, front: seq<byte>, f: Flight)
    requires |front| <= |after| && after[..|front|] == front && f.offset + |f.bytes| <= |front|
    requires front[f.offset..f.offset + |f.bytes|] == f.bytes
    ensures after[f.offset..f.offset + |f.bytes|] == f.bytes
  {
    assert after[f.offset..f.offset + |f.bytes|] == after[..|front|][f.offset..f.offset + |f.bytes|];
  }

  /** Taking bytes out of the middle shows, unless there are none. */
  lemma LostFront<T>(front: seq<T>, lost: seq<T>, queue: seq<T>)
    ensures front + queue == front + (lost + queue) <==> lost == []
  {
    assert |front + queue| == |front + (lost + queue)| - |lost|;
    assert lost == [] ==> lost + queue == queue;
  }

  class Conn {
    const id: nat
    var state: ConnState
    var nextFree: Conn?
    var dirtyNext: Conn?
    var onDirtyList: bool
    var wb: WriteBuffer?
    var out: Outgoing
    ghost var appended: seq<byte>
    ghost var taken: seq<byte>      // what completions took off the queue
    ghost var delivered: seq<byte>  // what the client accepted
    ghost var misled: bool          // a completion that was not the connection's own was taken for one
    var flight: Option<Flight>      // what the ring holds for this connection
    ghost var ticket: Option<nat>   // the serial number of the write it waits for
    var pooled: bool                // the thread pool has it
    var relay: Relay

    constructor (id: nat)
      ensures this.id == id && state == Unused && nextFree == null && dirtyNext == null && !onDirtyList
      ensures Blank()
    {
      this.id := id;
      state := Unused;
      nextFree := null;
      dirtyNext := null;
      onDirtyList := false;
      wb := null;
      out := NO_WRITE;
      appended, taken, delivered, misled := [], [], [], false;
      flight, ticket, pooled, relay := None, None, false, NO_RELAY;
    }

    ghost function Memory(): set<object?>
      reads this`wb, wb
    {
      if wb == null then {} else {wb, wb.buffer}
    }

    /** Nothing was sent, and nothing is being sent. */
    predicate Unstarted()
      reads this`wb, this`out
    {
      wb == null && out == NO_WRITE.(sent := out.sent)
    }

    /** The writes come in order: the headers first, and the end marker last. */
    predicate Scripted()
      reads this`state, this`out
    {
      && (out.frames != [] ==> out.frames[0] == SSE_HEADERS)
      && (state == Streaming && out.frames == [] ==> out.message == [] || out.message == SSE_HEADERS)
      && (state == Closing && out.message != [] ==> out.frames != [] && out.message == SSE_DONE)
    }

    /**
     * The path without a buffer: the client has accepted every completed write and the first bytes of the one
     * under way, of which the ring holds the rest, if anything.
     */
    ghost predicate InScript()
      reads this`state, this`out, this`delivered
    {
      && out.offset <= |out.message| && (out.submitted == [] || out.submitted == out.message[out.offset..])
      && delivered == Flatten(out.frames) + out.message[..out.offset] && out.sent == |delivered| && Scripted()
    }

    /** The connection's bytes while it has no write buffer.  What the pool has is not started. */
    ghost predicate Single()
      reads this`state, this`wb, this`appended, this`taken, this`delivered, this`misled, this`flight, this`out
      reads this`pooled
    {
      && appended == taken == [] && flight == None
      && (pooled ==> state in {LlmQueued, Streaming, Streamed, Closing} && (misled || Unstarted()))
      && if state == Streaming || state == Closing then
           && out.len == |out.message| && (out.buf.Some? ==> out.buf.value == out.message)
           && (misled || InScript())
         else
           Unstarted() && delivered == [] && !misled && (out.sent == 0 || state == Streamed)
    }

    /** The client has accepted what was taken off the queue, and as much was counted. */
    ghost predicate Agreed()
      reads this`taken, this`delivered, this`out
    {
      delivered == taken && out.sent == |delivered|
    }

    /** At most one write is in flight, and its bytes are still where they were when it was submitted. */
    ghost predicate Flying()
      requires wb != null
      reads this`wb, this`flight, wb, Memory()
    {
      && (wb.pending <==> flight.Some?)
      && (flight.Some? ==>
            var f := flight.value;
            && f.bytes != [] && f.offset == wb.tail && f.offset + |f.bytes| <= wb.head <= wb.buffer.Length
            && wb.buffer[f.offset..f.offset + |f.bytes|] == f.bytes)
    }

    /** What does not change while a connection has a write buffer. */
    predicate Queues()
      reads this`state, this`out, this`pooled, this`flight
    {
      && (state == CurlPending || state == CurlActive || state == Closing) && !pooled
      && (state == CurlPending ==> flight == None) && out == NO_WRITE.(sent := out.sent)
    }

    /**
     * What was taken off the queue, followed by what is queued, is everything appended, and unless the
     * connection was misled the client has accepted exactly what was taken.
     */
    ghost predicate Conserves()
      reads this`state, this`wb, this`appended, this`taken, this`delivered, this`misled, this`flight, this`out
      reads this`pooled, wb, Memory()
    {
      if wb == null then Single()
      else
        wb.Valid() && Queues() && taken + wb.Contents() == appended && (misled || Agreed()) && Flying()
    }

    ghost function Now(): View
      reads this`state, this`wb, this`appended, this`taken, this`delivered, this`misled, this`flight, this`out
      reads this`ticket, this`pooled, this`relay, wb, Memory()
    {
      if wb == null then
        View(state, wb, appended, taken, delivered, misled, flight, null, 0, 0, 0, false, [], out, ticket, pooled,
          relay)
      else
        View(state, wb, appended, taken, delivered, misled, flight, wb.buffer, wb.capacity, wb.head, wb.tail,
          wb.pending, wb.buffer[..], out, ticket, pooled, relay)
    }

    ghost function Look(): Slot
      reads this`state, this`wb, this`appended, this`taken, this`delivered, this`misled, this`flight, this`out
      reads this`ticket, this`pooled, this`relay, wb, Memory()
    {
      Sketch(Now())
    }

    /** The slot as a connection leaves it. */
    ghost predicate Blank()
      reads this`state, this`wb, this`appended, this`taken, this`delivered, this`misled, this`flight, this`out
      reads this`ticket, this`pooled, this`relay
    {
      && state == Unused && wb == null && appended == taken == delivered == [] && !misled && flight == None
      && out == NO_WRITE && ticket == None && !pooled && relay == NO_RELAY
    }

    /** What a request may have relayed when its connection is in this state. */
    predicate Relaying(state: ConnState)
      reads this`relay
    {
      && (state == CurlActive ==> relay.headers && !relay.done) && (state == CurlPending ==> !relay.headers)
      && (relay.done ==> state == Closing)
      && (state == CurlPending || state == CurlActive || state == Closing || relay == NO_RELAY)
    }

    /** The bytes queued are what the request relays. */
    ghost predicate Relays()
      reads this`state, this`appended, this`relay
    {
      appended == relay.Wire() && relay.Faithful() && Relaying(state)
    }

    lemma BlankLook()
      requires Blank()
      ensures Look() == FREE_SLOT
    {
    }

    lemma IsBlank()
      requires Blank()
      ensures state == Unused && wb == null && !misled && ticket == None && !pooled && Conserves() && Relays()
    {
      NothingRelayed();
    }

    lemma IsRelay()
      requires appended == relay.Wire() && relay.Faithful() && Relaying(state)
      ensures Relays()
    {
    }

    /** The ring holds a write of the connection, as far as the daemon knows. */
    predicate Sending()
      reads this`flight, this`out
    {
      flight.Some? || out.submitted != []
    }

    /** How long that write is. */
    predicate InFlight(len: nat)
      reads this`flight, this`out
    {
      Sending() && len == if flight.Some? then |flight.value.bytes| else |out.submitted|
    }

    predicate HasUnsent()
      reads this`wb, wb
    {
      wb != null && wb.HasData()
    }

    predicate Busy()
      reads this`wb, wb
    {
      wb != null && wb.pending
    }

    /**
     * With `res` bytes more the client has accepted the whole of the stream so far: the headers, every frame
     * after them and, if the connection is closing, the end marker.
     */
    ghost predicate WholeStream(res: nat)
      requires res <= |out.submitted|
      reads this`state, this`out, this`delivered
    {
      var all := out.frames + [out.message];
      && delivered + out.submitted[..res] == Flatten(all) && out.sent + res == |Flatten(all)|
      && all[0] == SSE_HEADERS && (state == Closing ==> all[|all| - 1] == SSE_DONE)
    }

    /** It is the completion of what the ring holds. */
    predicate Writes(res: int)
      reads this`out
    {
      out.submitted != [] && res <= |out.submitted|
    }

    /** A change of state that the bytes allow. */
    predicate CanMove(to: ConnState)
      reads this`wb, this`state, this`out
    {
      if wb != null then to == CurlActive || to == Closing
      else
        (state != Streaming && state != Closing && state != Streamed)
        || (state == Streaming && to == Closing && out.message == [])
    }

    /** The connection can be given bytes to queue. */
    predicate Queueable()
      reads this`wb, this`state
    {
      wb != null || state == CurlPending || state == CurlActive
    }

    ghost function Buffer(): set<WriteBuffer>
      reads this`wb
    {
      if wb == null then {} else {wb}
    }

    /** Exactly the appends that succeed. */
    ghost predicate Accepts(len: nat, canCreate: bool, canGrow: bool)
      requires Conserves()
      reads this`state, this`wb, this`appended, this`taken, this`delivered, this`misled, this`flight, this`out
      reads this`pooled, wb, Memory()
    {
      var shape := if wb == null then EMPTY_SHAPE else wb.Shape();
      (wb != null || canCreate) && shape.Accepts(len, canGrow)
    }

    lemma Untaken()
      requires Conserves() && wb == null && Queueable()
      ensures appended == taken == delivered == [] && !misled && flight == None && Queues() && out.sent == 0
    {
    }

    method CreateBuffer()
      requires Conserves() && wb == null && Queueable()
      modifies this`wb
      ensures Conserves() && wb != null && fresh(wb) && fresh(wb.buffer)
              && wb.Shape() == EMPTY_SHAPE
    {
      Untaken();
      hide Single, InScript, Scripted;
      wb := new WriteBuffer(DEFAULT_SIZE);
      assert wb.Contents() == [];
    }

    /** What is in flight lies in the part of the buffer that is in use. */
    lemma FlightInFront(front: seq<byte>)
      requires Conserves() && wb != null && front == wb.buffer[..wb.head]
      ensures flight.Some? ==>
                var f := flight.value;
                f.offset + |f.bytes| <= |front| && front[f.offset..f.offset + |f.bytes|] == f.bytes
    {
      hide Single, Queues, Agreed;
      if flight.Some? {
        var f := flight.value;
        assert front[f.offset..f.offset + |f.bytes|] == wb.buffer[f.offset..f.offset + |f.bytes|];
      }
    }

    /** `write_buffer_append` on the existing buffer. */
    method AppendQueued(data: seq<byte>, canGrow: bool) returns (ok: bool)
      requires Conserves() && wb != null
      modifies this`appended, wb, wb.buffer
      ensures Conserves() && (wb.buffer == old(wb.buffer) || fresh(wb.buffer))
      ensures ok == old(Accepts(|data|, true, canGrow))
      ensures appended == old(appended) + (if ok then data else [])
      ensures wb.pending == old(wb.pending) && wb.Shape() == old(wb.Shape().Appended(|data|, canGrow))
      ensures !ok ==> wb.HasData() == old(wb.HasData())
    {
      hide Single, Queues, Agreed, InScript, Layout.Refuses, Layout.NeedsGrowth, Layout.Appended,
           Layout.Roomy;
      ghost var before, front := wb.Contents(), wb.buffer[..wb.head];
      ghost var most := |before|;
      FlightInFront(front);
      var status := wb.Append(data, canGrow);
      ok := status == Appended;
      Assoc(taken, before, if ok then data else []);
      appended := appended + (if ok then data else []);
      if flight.Some? {
        assert wb.buffer[..][..|front|] == wb.buffer[..|front|] == front;
        InFlightStays(wb.buffer[..], front, flight.value);
      }
      assert |wb.Contents()| == wb.head - wb.tail && most == old(wb.head - wb.tail);
    }

    method AppendTo(data: seq<byte>, canCreate: bool, canGrow: bool) returns (ok: bool)
      requires Conserves() && Queueable()
      modifies this`wb, this`appended, Memory()
      ensures Conserves() && fresh(Memory() - old(Memory()))
      ensures ok == old(Accepts(|data|, canCreate, canGrow))
      ensures appended == old(appended) + (if ok then data else [])
      ensures (old(wb) != null ==> wb == old(wb)) && (ok ==> wb != null)
      ensures !ok ==> HasUnsent() == old(HasUnsent())
      ensures Busy() == old(Busy())
      ensures wb == null <==> old(wb) == null && !canCreate
      ensures wb != null ==> wb.Shape() == old(if wb == null then EMPTY_SHAPE else wb.Shape()).Appended(|data|, canGrow)
    {
      if wb == null {
        if !canCreate {
          return false;
        }
        CreateBuffer();
      }
      ok := AppendQueued(data, canGrow);
    }

    /** Creates the buffer on first use, then appends. */
    method Queue(data: seq<byte>, canCreate: bool, canGrow: bool) returns (ok: bool)
      requires Conserves() && Queueable()
      modifies this`wb, this`appended, Memory()
      ensures Conserves() && fresh(Memory() - old(Memory()))
      ensures ok == old(Accepts(|data|, canCreate, canGrow))
      ensures appended == old(appended) + (if ok then data else [])
      ensures (old(wb) != null ==> wb == old(wb)) && (ok ==> wb != null)
      ensures !ok ==> HasUnsent() == old(HasUnsent())
      ensures Busy() == old(Busy())
      ensures wb == null <==> old(wb) == null && !canCreate
      ensures wb != null ==> wb.Shape() == old(if wb == null then EMPTY_SHAPE else wb.Shape()).Appended(|data|, canGrow)
      ensures Look() == old(Look()).Queued(data, canCreate, canGrow)
              && ok == old(Look()).Accepts(|data|, canCreate, canGrow)
    {
      hide Conserves, Accepts, Look, Layout.Appended;
      ok := AppendTo(data, canCreate, canGrow);
      LooksQueued(this, data, canCreate, canGrow, ok);
    }

    /** Hands everything queued to the ring; the ring has accepted the submission. */
    method Submit()
      requires Conserves() && HasUnsent() && !Busy() && state != CurlPending
      modifies wb`pending, this`flight
      ensures Conserves() && Busy() && HasUnsent() && flight == Some(Flight(wb.tail, wb.Contents()))
      ensures |flight.value.bytes| == wb.head - wb.tail
    {
      var offset, len := wb.GetNext();
      flight := Some(Flight(offset, wb.buffer[offset..offset + len]));
      wb.pending := true;
    }

    /** What a completion of `n` bytes takes off the queue. */
    ghost function Front(n: nat): seq<byte>
      requires wb != null && wb.Valid()
      reads this`wb, wb, Memory()
    {
      if n <= |wb.Contents()| then wb.Contents()[..n] else wb.Contents()
    }

    /** It is the completion of the write in flight. */
    predicate Completes(res: int)
      reads this`flight
    {
      flight.Some? && res <= |flight.value.bytes|
    }

    /** The first bytes leave the queue, and no write is pending. */
    method TakeOff(n: nat)
      requires wb != null && wb.Valid()
      modifies wb`head, wb`tail, wb`bytesWritten, wb`pending
      ensures wb.Valid() && !wb.pending && old(wb.Contents()) == old(Front(n)) + wb.Contents()
      ensures wb.head - wb.tail == if n < old(wb.head - wb.tail) then old(wb.head - wb.tail) - n else 0
      ensures wb.Shape() == old(wb.Shape().Consumed(n)).(busy := false)
    {
      var consumed := wb.Consume(n);
      wb.pending := false;
      assert |wb.Contents()| == wb.head - wb.tail && |old(wb.Contents())| == old(wb.head - wb.tail);
    }

    lemma FlightIsFront(n: nat)
      requires Conserves() && wb != null && Completes(n)
      ensures Front(n) == flight.value.bytes[..n]
    {
      var f := flight.value;
      assert wb.Contents()[..|f.bytes|] == wb.buffer[f.offset..f.offset + |f.bytes|];
      assert f.bytes[..n] == wb.Contents()[..n];
    }

    /** The same, told from what was appended. */
    lemma FrontSeen(n: nat)
      requires Conserves() && wb != null
      ensures wb.Valid() && Front(n) == Look().Front(n) && (flight.Some? <==> Look().Busy())
    {
      hide Single, Agreed;
      assert appended[|taken|..] == wb.Contents();
    }

    /** The connection's own account of a completion that took `front` off the queue. */
    method Record(n: nat, ghost front: seq<byte>, ghost own: bool)
      requires wb != null && wb.Valid() && !wb.pending && taken + (front + wb.Contents()) == appended
      requires (misled || Agreed()) && Queues()
      requires |front| <= n && (own ==> |front| == n)
      modifies this`flight, this`taken, this`delivered, this`misled, this`out
      ensures Conserves() && taken == old(taken) + front && out == old(out).(sent := old(out.sent) + n)
      ensures delivered == old(delivered) + (if own then front else [])
      ensures misled <==> old(misled) || (!own && (n > 0 || old(flight).Some?))
      ensures !own && old(Agreed()) ==> (delivered + wb.Contents() == appended <==> front == [])
    {
      hide Single;
      LostFront(taken, front, wb.Contents());
      Assoc(taken, front, wb.Contents());
      out := out.(sent := out.sent + n);
      taken := taken + front;
      delivered := delivered + (if own then front else []);
      misled := misled || (!own && (flight.Some? || n > 0));
      flight := None;
    }

    method CompleteBytes(n: nat, ghost own: bool)
      requires Conserves() && wb != null && (own ==> Completes(n))
      modifies wb`head, wb`tail, wb`bytesWritten, wb`pending
      modifies this`flight, this`taken, this`delivered, this`misled, this`out
      ensures Conserves() && !Busy() && appended == old(appended) && taken == old(taken + Front(n))
      ensures out == old(out).(sent := old(out.sent) + n)
      ensures wb.head - wb.tail == if n < old(wb.head - wb.tail) then old(wb.head - wb.tail) - n else 0
      ensures wb.Shape() == old(wb.Shape().Consumed(n)).(busy := false)
      ensures misled <==> old(misled) || (!own && (n > 0 || old(flight).Some?))
      ensures own ==> delivered == old(delivered + flight.value.bytes[..n]) && misled == old(misled)
      ensures !own ==> delivered == old(delivered)
      ensures !own && !old(misled) ==> (misled <==> n > 0 || old(flight).Some?)
      ensures !own && !old(misled) ==> (delivered + wb.Contents() == appended <==> old(Front(n)) == [])
    {
      hide Single;
      ghost var front := Front(n);
      if own {
        FlightIsFront(n);
      }
      TakeOff(n);
      Record(n, front, own);
    }

    /**
     * A completion of `n` bytes.  If it is the connection's own, the client has accepted the first `n` bytes of
     * the write in flight; otherwise the same bytes leave the queue although the client got nothing.
     */
    method Complete(n: nat, ghost own: bool)
      requires Conserves() && wb != null && (own ==> Completes(n))
      modifies wb`head, wb`tail, wb`bytesWritten, wb`pending
      modifies this`flight, this`taken, this`delivered, this`misled, this`out
      ensures Conserves() && !Busy() && appended == old(appended) && taken == old(taken + Front(n))
      ensures out == old(out).(sent := old(out.sent) + n)
      ensures wb.head - wb.tail == if n < old(wb.head - wb.tail) then old(wb.head - wb.tail) - n else 0
      ensures wb.Shape() == old(wb.Shape().Consumed(n)).(busy := false)
      ensures misled <==> old(misled) || (!own && (n > 0 || old(flight).Some?))
      ensures own ==> delivered == old(delivered + flight.value.bytes[..n]) && misled == old(misled)
      ensures !own ==> delivered == old(delivered)
      ensures !own && !old(misled) ==> (misled <==> n > 0 || old(flight).Some?)
      ensures !own && !old(misled) ==> (delivered + wb.Contents() == appended <==> old(Front(n)) == [])
      ensures Look() == old(Look()).Completed(n, own)
    {
      hide Conserves, Look, Front, Slot.Completed;
      if own {
        FlightIsFront(n);
      }
      FrontSeen(n);
      CompleteBytes(n, own);
      LooksCompleted(this, n, own);
    }

    /** The start of a write, from memory of its own if `buffered`: its bytes go to the ring unless that refuses. */
    method Begin(bytes: seq<byte>, buffered: bool, ok: bool)
      requires Conserves() && wb == null && out.message == out.submitted == [] && out.buf == None
               && (pooled ==> misled)
      requires if state == Streaming then out.frames == [] ==> bytes == SSE_HEADERS
               else state == Closing && out.frames != [] && bytes == SSE_DONE
      modifies this`out
      ensures Conserves()
      ensures out == Begun(bytes, buffered, old(out.frames), old(out.sent)).(submitted := if ok then bytes else [])
    {
      hide Flatten;
      var buf := if buffered then Some(bytes) else out.buf;
      out := Outgoing(buf, |bytes|, 0, if ok then bytes else [], bytes, out.frames, out.sent);
    }

    lemma FurtherInScript(res: nat)
      requires Single() && (state == Streaming || state == Closing) && !misled && Writes(res)
      ensures out.offset + res <= |out.message|
              && out.submitted[..res] == out.message[out.offset..out.offset + res]
              && delivered + out.submitted[..res] == Flatten(out.frames) + out.message[..out.offset + res]
    {
      hide Flatten;
      assert out.submitted[..res] == out.message[out.offset..out.offset + res];
      Assoc(Flatten(out.frames), out.message[..out.offset], out.submitted[..res]);
      assert out.message[..out.offset] + out.submitted[..res] == out.message[..out.offset + res];
    }

    /** What a completion says about the write under way. */
    lemma UnderWay(res: nat)
      requires Single() && (state == Streaming || state == Closing) && !misled && Writes(res)
      ensures out.message != [] && out.offset + res <= out.len
      ensures !out.IsShort(res) ==> WholeStream(res)
    {
      hide Flatten;
      FurtherInScript(res);
      if !out.IsShort(res) {
        assert out.message[..out.offset + res] == out.message;
        FlattenSnoc(out.frames, out.message);
        assert |delivered + out.submitted[..res]| == out.sent + res;
      }
    }

    /** A completion of `res` bytes, its own or not. */
    method Accept(res: nat, ghost own: bool)
      requires Conserves() && wb == null && (state == Streaming || state == Closing) && (own ==> Writes(res))
      modifies this`out, this`delivered, this`misled
      ensures Conserves()
      ensures out == old(out).(submitted := [], offset := old(out.offset) + res, sent := old(out.sent) + res)
      ensures delivered == old(delivered) + (if own then old(out.submitted)[..res] else [])
      ensures (misled <==> old(misled) || !own) && (pooled ==> misled)
    {
      hide Flatten;
      if own && !misled {
        FurtherInScript(res);
      }
      delivered := delivered + (if own then out.submitted[..res] else []);
      misled := misled || !own;
      out := out.(submitted := [], offset := out.offset + res, sent := out.sent + res);
    }

    /** The rest of a write is submitted again, out of its memory. */
    method Resubmit()
      requires Conserves() && wb == null && (state == Streaming || state == Closing)
      requires out.buf.Some? && out.offset < out.len
      modifies this`out
      ensures Conserves() && out == old(out).(submitted := old(out.message[out.offset..]))
    {
      hide Flatten;
      out := out.(submitted := out.buf.value[out.offset..out.len]);
    }

    /** The end of a write: its memory is freed. */
    method Finish()
      requires Conserves() && wb == null && (state == Streaming || state == Closing) && out.submitted == []
      requires misled || (out.message != [] && out.offset == out.len)
      modifies this`out
      ensures Conserves() && out == NO_WRITE.(frames := old(out.frames + [out.message]), sent := old(out.sent))
    {
      hide Flatten;
      FlattenSnoc(out.frames, out.message);
      assert misled || out.message[..out.offset] == out.message;
      out := out.(buf := None, len := 0, offset := 0, message := [], frames := out.frames + [out.message]);
      assert delivered + [] == delivered;
    }

    method ClearBytes()
      modifies this`out, this`appended, this`taken, this`delivered, this`misled, this`flight
      ensures appended == taken == delivered == [] && !misled && flight == None && out == NO_WRITE
    {
      appended, taken, delivered, misled, flight, out := [], [], [], false, None, NO_WRITE;
    }

    method Clear()
      modifies this`state, this`wb, this`out, this`appended, this`taken, this`delivered
      modifies this`misled, this`flight, this`ticket, this`pooled, this`relay
      ensures Blank()
    {
      ClearBytes();
      state, wb, ticket, pooled, relay := Unused, null, None, false, NO_RELAY;
    }

    /** `conn_reset`. */
    method Reset()
      modifies this
      ensures nextFree == old(nextFree) && dirtyNext == null && !onDirtyList && Blank()
    {
      dirtyNext, onDirtyList := null, false;
      Clear();
    }
  }

  /** Conservation is a matter of the connection's own fields and memory only. */
  twostate lemma StillConserves(c: Conn)
    requires old(c.Conserves()) && c.Now() == old(c.Now())
    ensures c.Conserves()
  {
    if c.wb != null {
      assert c.wb.Contents() == c.wb.buffer[..][c.wb.tail..c.wb.head];
      assert old(c.wb.Contents() == c.wb.buffer[..][c.wb.tail..c.wb.head]);
      if c.flight.Some? {
        var f := c.flight.value;
        assert c.wb.buffer[f.offset..f.offset + |f.bytes|] == c.wb.buffer[..][f.offset..f.offset + |f.bytes|];
        assert old(c.wb.buffer[f.offset..f.offset + |f.bytes|] == c.wb.buffer[..][f.offset..f.offset + |f.bytes|]);
      }
    }
  }

  /** The same when only who waits for what, and where the connection is listed, may have changed. */
  twostate lemma SameBytes(c: Conn)
    requires old(c.Conserves())
    requires unchanged(c`state, c`wb, c`appended, c`taken, c`delivered, c`misled, c`flight, c`out, c`pooled)
    requires old(c.wb) != null ==> unchanged(old(c.wb), old(c.wb.buffer))
    ensures c.Conserves()
  {
  }

  /** What a slot looks like when its memory is as it was. */
  twostate lemma LooksLike(c: Conn)
    requires c.wb == old(c.wb)
    requires c.wb != null ==> unchanged(c.wb`capacity, c.wb`head, c.wb`tail, c.wb`pending)
    ensures c.Look() == Slot(c.state, old(c.Look()).shape, c.appended, c.taken, c.delivered, c.misled, c.out, c.ticket,
                             c.pooled, c.relay)
    ensures old(c.Look()) == Slot(old(c.state), old(c.Look()).shape, old(c.appended), old(c.taken), old(c.delivered),
                                  old(c.misled), old(c.out), old(c.ticket), old(c.pooled), old(c.relay))
  {
  }

  /** The same after a completion. */
  twostate lemma LooksCompleted(c: Conn, new n: nat, new own: bool)
    requires c.wb == old(c.wb) && c.wb != null
    requires unchanged(c`state, c`appended, c`ticket, c`pooled, c`relay)
    requires c.wb.Shape() == old(c.wb.Shape().Consumed(n)).(busy := false)
    requires c.out == old(c.out).(sent := old(c.out.sent) + n)
    requires var front := old(c.Look()).Front(n);
             && c.taken == old(c.taken) + front && c.delivered == old(c.delivered) + (if own then front else [])
             && (c.misled <==> old(c.misled) || (!own && (n > 0 || old(c.Look()).Busy())))
    ensures c.Look() == old(c.Look()).Completed(n, own)
  {
    hide Layout.Consumed, Slot.Front;
  }

  /** The same once everything queued went to the ring. */
  twostate lemma LooksSubmitted(c: Conn)
    requires c.wb == old(c.wb) && c.wb != null && c.wb.pending && unchanged(c.wb`capacity, c.wb`head, c.wb`tail)
    requires unchanged(c`state, c`appended, c`taken, c`delivered, c`misled, c`out, c`pooled, c`relay)
    ensures c.Look() == old(c.Look()).Submitted().(ticket := c.ticket)
  {
  }

  lemma Looks(c: Conn)
    ensures var s := c.Look();
            && s.state == c.state && s.appended == c.appended && s.taken == c.taken && s.delivered == c.delivered
            && s.misled == c.misled && s.out == c.out && s.ticket == c.ticket && s.pooled == c.pooled
            && s.relay == c.relay && (s.shape == None <==> c.wb == null) && s.Unstarted() == c.Unstarted()
            && (s.Unsent() > 0 <==> c.HasUnsent()) && s.Busy() == c.Busy()
            && (c.wb != null ==> s.Unsent() == c.wb.head - c.wb.tail)
  {
  }

  twostate lemma LooksQueued(c: Conn, new data: seq<byte>, new canCreate: bool, new canGrow: bool, new ok: bool)
    requires unchanged(c`state, c`taken, c`delivered, c`misled, c`out, c`ticket, c`pooled, c`relay)
    requires old(c.Conserves()) && ok == old(c.Accepts(|data|, canCreate, canGrow))
    requires c.appended == old(c.appended) + (if ok then data else [])
    requires c.wb == null <==> old(c.wb) == null && !canCreate
    requires c.wb != null ==>
               && c.wb.Valid()
               && c.wb.Shape() == old(if c.wb == null then EMPTY_SHAPE else c.wb.Shape()).Appended(|data|, canGrow)
    ensures c.Look() == old(c.Look()).Queued(data, canCreate, canGrow)
    ensures ok == old(c.Look()).Accepts(|data|, canCreate, canGrow)
  {
  }

  twostate lemma SameRelay(c: Conn)
    requires old(c.Relays()) && unchanged(c`state, c`appended, c`relay)
    ensures c.Relays()
  {
  }

  twostate lemma StateMoved(c: Conn, new to: ConnState)
    requires old(c.Conserves() && c.CanMove(to)) && c.state == to
    requires c.pooled ==> c.state in {Streaming, Streamed, Closing}
    requires unchanged(c`wb, c`appended, c`taken, c`delivered, c`misled, c`flight, c`out, c`pooled)
    requires old(c.wb) != null ==> unchanged(old(c.wb), old(c.wb.buffer))
    ensures c.Conserves()
  {
  }

  // ----- every run of one connection

  /** What can happen to a connection: an append, a try at submitting, a completion, its own or another's. */
  datatype Event =
    | QueueBytes(data: seq<byte>, canCreate: bool, canGrow: bool)
    | TrySubmit(ringAccepts: bool)
    | Completion(n: nat, own: bool)

  /** The bytes of the appends that succeeded, in order. */
  function Accepted(events: seq<Event>, oks: seq<bool>): seq<byte>
    requires |events| == |oks|
  {
    if events == [] then []
    else
      var k := |events| - 1;
      Accepted(events[..k], oks[..k]) + (if events[k].QueueBytes? && oks[k] then events[k].data else [])
  }

  /**
   * `start_async_write` and `try_immediate_write`: submit when there is data and nothing in flight.  A
   * completion of its own comes only for a write in flight.
   */
  method HandleEvent(c: Conn, e: Event) returns (ok: bool)
    requires c.Conserves() && c.Queueable() && c.state != CurlPending
    modifies c, c.Memory()
    ensures c.Conserves() && c.Queueable() && c.state == old(c.state) && fresh(c.Memory() - old(c.Memory()))
    ensures c.appended == old(c.appended) + (if e.QueueBytes? && ok then e.data else [])
    ensures e.QueueBytes? ==> ok == old(c.Accepts(|e.data|, e.canCreate, e.canGrow)) && c.flight == old(c.flight)
    ensures e.TrySubmit? ==> (c.Busy() <==> old(c.Busy() || (c.HasUnsent() && e.ringAccepts)))
    ensures e.Completion? && e.own && old(c.Completes(e.n)) ==>
              c.delivered == old(c.delivered + c.flight.value.bytes[..e.n]) && c.flight == None
    ensures !e.Completion? ==> c.delivered == old(c.delivered) && (old(c.flight).Some? ==> c.flight == old(c.flight))
    ensures !e.Completion? || e.own ==> c.misled == old(c.misled)
  {
    hide Conn.InScript, Conn.Accepts, Conn.Front, Conn.Agreed, Conn.Look, WriteBuffer.Contents, WriteBuffer.Shape,
         Slot.Queued, Slot.Accepts, Slot.Completed;
    ok := true;
    match e {
      case QueueBytes(data, canCreate, canGrow) =>
        ok := c.Queue(data, canCreate, canGrow);
      case TrySubmit(ringAccepts) =>
        if c.wb != null && c.wb.HasData() && !c.wb.pending && ringAccepts {
          c.Submit();
        }
      case Completion(n, own) =>
        if c.wb != null && (own ==> c.Completes(n)) {
          c.Complete(n, own);
        }
    }
  }

  /** Every completion is that of the connection's own write. */
  predicate AllOwn(events: seq<Event>) {
    forall e | e in events :: e.Completion? ==> e.own
  }

  lemma OneMoreEvent(events: seq<Event>, e: Event)
    ensures AllOwn(events + [e]) <==> AllOwn(events) && (e.Completion? ==> e.own)
  {
    assert e in events + [e] && forall x | x in events :: x in events + [e];
  }

  lemma Conserved(c: Conn)
    requires c.Conserves()
    ensures if c.wb == null then c.appended == [] else c.taken + c.wb.Contents() == c.appended
    ensures c.Queueable() ==> c.misled || c.delivered == c.taken
  {
  }

  /**
   * For every interleaving of appends, submissions and short or full completions, what was taken off the
   * queue followed by what is still queued is the concatenation of the successful appends, and when all
   * completions are the connection's own, the client has accepted exactly what was taken.
   */
  method RunEvents(c: Conn, events: seq<Event>) returns (oks: seq<bool>)
    requires c.Conserves() && c.Queueable() && c.state != CurlPending && c.appended == [] && !c.misled
    modifies c, c.Memory()
    ensures |oks| == |events| && c.Conserves() && c.appended == Accepted(events, oks)
    ensures c.wb != null ==> c.taken + c.wb.Contents() == Accepted(events, oks)
    ensures c.wb == null ==> Accepted(events, oks) == []
    ensures AllOwn(events) ==> c.delivered == c.taken
  {
    hide Conn.Conserves, Conn.Accepts, AllOwn;
    oks := [];
    for i := 0 to |events|
      invariant |oks| == i && c.Conserves() && c.Queueable() && c.state != CurlPending
      invariant fresh(c.Memory() - old(c.Memory()))
      invariant c.appended == Accepted(events[..i], oks)
      invariant AllOwn(events[..i]) ==> !c.misled
    {
      var ok := HandleEvent(c, events[i]);
      assert events[..i + 1][..i] == events[..i] && (oks + [ok])[..i] == oks;
      assert events[..i + 1] == events[..i] + [events[i]];
      OneMoreEvent(events[..i], events[i]);
      oks := oks + [ok];
    }
    assert events[..|events|] == events;
    Conserved(c);
  }
}
