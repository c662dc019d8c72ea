/**
 * The io_uring event loop's bookkeeping (daemon.c, connection.c, ring.c): the free list of connection slots, the
 * intrusive dirty list of connections with data to flush, the writes the ring has accepted and not completed, and
 * the benchmark counters.
 */
module EventLoop {
  import opened Bytes
  import opened Connections
  import opened CurlRelay
  import opened LoopEvents
  import LoopMachine
  import LoopRuns
  import opened WriteBuffers
  import LineAssembly
  import SseFormat

  class Daemon {
    const conns: seq<Conn>
    var freeList: Conn?
    var active: int
    var peak: int
    var dirtyHead: Conn?
    var dirtyTail: Conn?
    var tally: Tally
    var ring: Ring
    ghost var free: seq<Conn>
    ghost var dirty: seq<Conn>
    ghost var owner: map<object, Conn>  // whose memory an object is

    ghost function Slots(): set<Conn> {
      set c | c in conns
    }

    /** `free` is the acyclic chain that starts at `freeList`. */
    ghost predicate FreeOk()
      reads this`free, this`freeList, Slots()`nextFree
    {
      && NoDup(free) && (forall c | c in free :: c in conns)
      && freeList == At(free, 0)
      && forall i {:trigger free[i].nextFree} | 0 <= i < |free| :: free[i].nextFree == At(free, i + 1)
    }

    /** `list` is the acyclic chain from `dirtyHead` to `dirtyTail`, and the flags say who is on it. */
    ghost predicate Chained(list: seq<Conn>)
      reads this`dirtyHead, this`dirtyTail, Slots()`dirtyNext, Slots()`onDirtyList
    {
      && NoDup(list) && (forall c | c in list :: c in conns)
      && dirtyHead == At(list, 0)
      && dirtyTail == Last(list)
      && (forall i {:trigger list[i].dirtyNext} | 0 <= i < |list| :: list[i].dirtyNext == At(list, i + 1))
      && (forall c | c in conns :: c.onDirtyList <==> c in list)
    }

    ghost predicate DirtyOk()
      reads this`dirty, this`dirtyHead, this`dirtyTail, Slots()`dirtyNext, Slots()`onDirtyList
    {
      Chained(dirty)
    }

    // ----- the dirty list

    /** `daemon_mark_connection_dirty`. */
    method MarkDirty(c: Conn)
      requires DirtyOk() && c in conns
      modifies this`dirty, this`dirtyHead, this`dirtyTail, Slots()`dirtyNext, Slots()`onDirtyList
      ensures DirtyOk() && dirty == if c in old(dirty) then old(dirty) else old(dirty) + [c]
    {
      if c.onDirtyList {
        return;
      }
      c.onDirtyList := true;
      c.dirtyNext := null;
      if dirtyTail != null {
        dirtyTail.dirtyNext := c;
        dirtyTail := c;
      } else {
        dirtyHead := c;
        dirtyTail := c;
      }
      dirty := dirty + [c];
    }

    /** The pointer surgery that takes `c` out from behind `prev`, in front of `next`. */
    method Unhook(prev: Conn?, c: Conn, next: Conn?)
      requires c in conns && (prev != null ==> prev in conns && prev != c)
      modifies this`dirtyHead, this`dirtyTail, Slots()`dirtyNext, c`onDirtyList
      ensures dirtyHead == if prev == null then next else old(dirtyHead)
      ensures dirtyTail == if c == old(dirtyTail) then prev else old(dirtyTail)
      ensures c.dirtyNext == null && !c.onDirtyList
      ensures prev != null ==> prev.dirtyNext == next
      ensures forall d | d in conns && d != c && d != prev :: d.dirtyNext == old(d.dirtyNext)
    {
      if prev != null {
        prev.dirtyNext := next;
      } else {
        dirtyHead := next;
      }
      if c == dirtyTail {
        dirtyTail := prev;
      }
      c.onDirtyList := false;
      c.dirtyNext := null;
    }

    /** The chain after the surgery on its element `i`. */
    twostate lemma ChainCut(i: nat)
      requires old(DirtyOk() && i < |dirty|) && dirty == old(dirty[..i] + dirty[i + 1..])
      requires var was := old(dirty);
               && !was[i].onDirtyList && dirtyHead == (if i == 0 then At(was, 1) else old(dirtyHead))
               && dirtyTail == (if was[i] != old(dirtyTail) then old(dirtyTail)
                                else if i == 0 then null else was[i - 1])
               && (i > 0 ==> was[i - 1].dirtyNext == At(was, i + 1))
               && (forall d | d in conns && d != was[i] :: d.onDirtyList == old(d.onDirtyList))
               && forall d | d in conns && d != was[i] && (i > 0 ==> d != was[i - 1]) :: d.dirtyNext == old(d.dirtyNext)
      ensures DirtyOk()
    {
      var was := old(dirty);
      Cut(was, i);
      forall k | 0 <= k < |dirty|
        ensures dirty[k].dirtyNext == At(dirty, k + 1)
      {
        var m := if k < i then k else k + 1;
        assert dirty[k] == was[m] != was[i];
        assert old(was[m].dirtyNext) == At(was, m + 1);
        assert At(dirty, k + 1) == At(was, if k + 1 < i then k + 1 else k + 2);
      }
    }

    /** Takes element `i` out of the dirty chain; `prev` is its predecessor. */
    method Unlink(prev: Conn?, c: Conn, ghost i: nat)
      requires DirtyOk() && i < |dirty| && dirty[i] == c
      requires prev == if i == 0 then null else dirty[i - 1]
      modifies this`dirty, this`dirtyHead, this`dirtyTail, Slots()`dirtyNext, c`onDirtyList
      ensures DirtyOk() && dirty == old(dirty[..i] + dirty[i + 1..])
    {
      assert c.dirtyNext == At(dirty, i + 1);
      Unhook(prev, c, c.dirtyNext);
      dirty := dirty[..i] + dirty[i + 1..];
      ChainCut(i);
    }

    /** `daemon_unmark_connection_dirty`. */
    method UnmarkDirty(c: Conn)
      requires DirtyOk() && c in conns
      modifies this`dirty, this`dirtyHead, this`dirtyTail, Slots()`dirtyNext, c`onDirtyList
      ensures DirtyOk() && dirty == Without(old(dirty), c) && !c.onDirtyList
    {
      hide Without;
      if !c.onDirtyList {
        WithoutAbsent(dirty, c);
        return;
      }
      var prev: Conn? := null;
      var curr := dirtyHead;
      ghost var i := 0;
      while curr != null && curr != c
        invariant 0 <= i <= |dirty| && c !in dirty[..i]
        invariant curr == At(dirty, i)
        invariant prev == if i == 0 then null else dirty[i - 1]
        decreases |dirty| - i
      {
        prev := curr;
        curr := curr.dirtyNext;
        i := i + 1;
      }
      assert dirty == dirty[..i] + dirty[i..];
      WithoutAt(dirty, i);
      Unlink(prev, c, i);
    }

    // ----- the free list

    /** `conn_alloc`: the first free slot, unless its handoff buffer cannot be allocated. */
    method ConnAlloc(mallocOk: bool) returns (c: Conn?)
      requires FreeOk()
      modifies this`free, this`freeList, this`active, this`peak, Slots()`nextFree
      ensures FreeOk()
      ensures c == null <==> old(free) == [] || !mallocOk
      ensures c == null ==> free == old(free) && active == old(active) && peak == old(peak)
      ensures c != null ==>
                && old(free) == [c] + free && active == old(active) + 1
                && peak == if active > old(peak) then active else old(peak)
    {
      if freeList == null {
        return null;
      }
      c := freeList;
      freeList := c.nextFree;
      c.nextFree := null;
      free := free[1..];
      if !mallocOk {
        c.nextFree := freeList;
        freeList := c;
        free := [c] + free;
        return null;
      }
      active := active + 1;
      if active > peak {
        peak := active;
      }
    }

    /** The end of `conn_free`. */
    method PushFree(c: Conn)
      requires FreeOk() && c in conns && c !in free
      modifies this`free, this`freeList, this`active, c`nextFree
      ensures FreeOk() && free == [c] + old(free) && active == old(active) - 1
      ensures c.Blank() == old(c.Blank())
    {
      c.nextFree := freeList;
      freeList := c;
      free := [c] + free;
      active := active - 1;
      assert forall i {:trigger free[i].nextFree} | 1 <= i < |free| :: free[i] == old(free)[i - 1];
    }

    /** `cleanup_connection`: off the dirty list, reset, and back on the free list. */
    method Cleanup(c: Conn)
      requires FreeOk() && DirtyOk() && c in conns && c !in free
      modifies this`free, this`freeList, this`active, this`dirty, this`dirtyHead, this`dirtyTail
      modifies Slots()`dirtyNext, c
      ensures FreeOk() && DirtyOk()
      ensures free == [c] + old(free) && dirty == Without(old(dirty), c) && active == old(active) - 1
      ensures c.Blank()
    {
      hide Conn.Blank, Without;
      UnmarkDirty(c);
      c.Reset();
      assert DirtyOk();
      PushFree(c);
    }

    /** The counter a handler bumps before it cleans up. */
    method CountAndClean(c: Conn, why: Outcome)
      requires FreeOk() && DirtyOk() && c in conns && c !in free
      modifies this`free, this`freeList, this`active, this`dirty, this`dirtyHead, this`dirtyTail
      modifies this`tally, Slots()`dirtyNext, c
      ensures FreeOk() && DirtyOk()
      ensures free == [c] + old(free) && dirty == Without(old(dirty), c) && active == old(active) - 1
      ensures c.Blank()
      ensures tally == old(tally.Ended(Some(why), c.out.sent))
    {
      hide Conn.Blank, Without;
      match why {
        case Completed => tally := tally.(completed := tally.completed + 1, bytes := tally.bytes + c.out.sent);
        case Failed => tally := tally.(failed := tally.failed + 1);
        case Dropped => tally := tally.(dropped := tally.dropped + 1);
      }
      Cleanup(c);
    }

    // ----- the invariant at every event boundary

    /** A slot is free exactly when its state says so, and dirty connections are in a state that is flushed. */
    ghost predicate StatesOk()
      reads this`free, this`dirty, Slots()`state, Slots()`wb
    {
      && (forall c | c in conns :: c in free <==> c.state == Unused)
      && (forall c | c in conns :: c.state == Unused ==> c.wb == null)
      && (forall c | c in conns && c in dirty :: c.state == CurlActive || c.state == Closing)
    }

    /** Every connection conserves its bytes. */
    ghost predicate AllConserve()
      reads *
    {
      forall c | c in conns :: c.Conserves()
    }

    /**
     * The ring's account: a connection that waits for a write has it in the ring, and as long as no write was
     * abandoned every write in the ring is waited for, and no connection was misled.
     */
    ghost predicate RingOk()
      reads this`ring, Slots()`ticket, Slots()`flight, Slots()`out, Slots()`misled
    {
      && (forall k | k in ring.writes :: k < ring.serial && ring.writes[k].slot in conns)
      && (forall c | c in conns && c.ticket.Some? ::
            var k := c.ticket.value; k in ring.writes && ring.writes[k].slot == c && c.InFlight(ring.writes[k].len))
      && (ring.abandoned == 0 ==> forall k | k in ring.writes :: ring.writes[k].slot.ticket == Some(k))
      && (ring.abandoned == 0 ==> forall c | c in conns :: !c.misled)
    }

    /** Every connection has queued what its request relays. */
    ghost predicate AllRelay()
      reads Slots()`state, Slots()`appended, Slots()`relay
    {
      forall c | c in conns :: c.Relays()
    }

    /** A connection with a write in flight waits for a write of the ring's, except perhaps `x`. */
    ghost predicate Ringing(x: Conn?)
      reads Slots()`ticket, Slots()`flight, Slots()`out
    {
      forall c | c in conns && c != x :: c.Sending() ==> c.ticket.Some?
    }

    ghost function Buffers(): set<WriteBuffer>
      reads Slots()`wb
    {
      set c | c in conns && c.wb != null :: c.wb
    }

    /** No two connections share memory. */
    ghost predicate Apart()
      reads this`owner, Slots()`wb, Buffers()`buffer
    {
      forall c | c in conns && c.wb != null ::
        c.wb in owner && owner[c.wb] == c && c.wb.buffer in owner && owner[c.wb.buffer] == c
    }

    /** Unsent data with no write in flight is never off the dirty list, except perhaps for `x`. */
    ghost predicate NoneStranded(x: Conn?)
      reads *
    {
      forall c | c in conns && c != x :: c.HasUnsent() && !c.Busy() ==> c in dirty
    }

    ghost predicate Core(x: Conn?)
      reads *
    {
      && FreeOk() && DirtyOk() && StatesOk() && AllConserve() && AllRelay() && Apart() && NoneStranded(x)
      && RingOk() && Ringing(x)
      && |conns| == |free| + active && active <= peak
    }

    /** Every connection started has completed, failed, is live, or was dropped by a failed submission. */
    ghost predicate Balanced()
      reads this`tally, this`active
    {
      tally.started == tally.completed + tally.failed + active + tally.dropped
    }

    ghost predicate Inv()
      reads *
    {
      Core(null) && Balanced()
    }

    lemma AtStart()
      requires FreeOk() && free == conns && dirtyHead == null && dirtyTail == null && dirty == []
      requires forall c | c in conns :: c.Blank() && !c.onDirtyList
      requires active == peak == 0 && tally == Tally(0, 0, 0, 0, 0) && ring == Ring(map[], 0, 0)
      ensures Inv()
    {
      hide Conn.Conserves, Conn.Relays;
      forall c | c in conns
        ensures c.Conserves() && c.Relays()
      {
        c.IsBlank();
      }
    }

    /** The loop of `conn_pool_init`. */
    method InitFree()
      requires free == [] && freeList == null && NoDup(conns)
      modifies this`free, this`freeList, Slots()`nextFree
      ensures free == conns && FreeOk()
    {
      var i := |conns|;
      while i > 0
        invariant 0 <= i <= |conns| && free == conns[i..] && FreeOk()
      {
        i := i - 1;
        var c := conns[i];
        c.nextFree := freeList;
        freeList := c;
        free := [c] + free;
      }
    }

    /** `conn_pool_init`: every slot on the free list, in order of id. */
    constructor (conns: seq<Conn>)
      requires NoDup(conns)
      requires forall c | c in conns :: c.Blank() && !c.onDirtyList
      modifies (set c | c in conns)`nextFree
      ensures this.conns == conns && free == conns && dirty == [] && owner == map[] && Inv()
      ensures active == peak == 0 && tally == Tally(0, 0, 0, 0, 0)
      ensures ring == Ring(map[], 0, 0)
    {
      hide DirtyOk, StatesOk, AllConserve, AllRelay, Apart, NoneStranded, RingOk, Ringing, Conn.Blank;
      owner := map[];
      ring, tally := Ring(map[], 0, 0), Tally(0, 0, 0, 0, 0);
      this.conns := conns;
      freeList := null;
      active, peak := 0, 0;
      dirtyHead, dirtyTail, dirty := null, null, [];
      free := [];
      new;
      InitFree();
      AtStart();
    }

    // ----- what the machine of `LoopMachine` sees

    ghost function Snap(): LoopMachine.Snapshot
      reads *
    {
      LoopMachine.Snapshot(map c | c in conns :: c.Look(), free, dirty, ring, tally)
    }

    lemma InSnap(c: Conn)
      requires c in conns
      ensures Snap().Of(c) == c.Look() && Snap().free == free && Snap().dirty == dirty && Snap().ring == ring
              && Snap().tally == tally
    {
    }

    lemma SnapParts()
      ensures Snap().free == free && Snap().dirty == dirty && Snap().ring == ring && Snap().tally == tally
    {
    }

    twostate lemma SlotsSame()
      requires forall d | d in conns :: d.Now() == old(d.Now())
      ensures Snap() == LoopMachine.Snapshot(old(Snap()).slots, free, dirty, ring, tally)
    {
      hide Conn.Now;
      assert forall d | d in conns :: d.Look() == old(d.Look());
    }

    /** Work on one slot, as the machine sees it. */
    twostate lemma SnapChanged(c: Conn)
      requires c in conns && forall d | d in conns && d != c :: d.Now() == old(d.Now())
      ensures Snap() == LoopMachine.Snapshot(old(Snap()).slots[c := c.Look()], free, dirty, ring, tally)
      ensures old(Snap()).Of(c) == old(c.Look())
    {
      hide Conn.Now;
      assert forall d | d in conns && d != c :: d.Look() == old(d.Look());
    }

    /** Work on its fields and on the ring. */
    twostate lemma SlotWorked(c: Conn)
      requires c in conns && forall d | d in conns && d != c :: d.Now() == old(d.Now())
      requires unchanged(this`free, this`dirty, this`tally)
      requires c.wb == old(c.wb)
      requires c.wb != null ==> unchanged(c.wb`capacity, c.wb`head, c.wb`tail, c.wb`pending)
      ensures Snap() == old(Snap()).(ring := ring).With(c, c.Look()) && old(Snap()).Of(c) == old(c.Look())
      ensures ring == old(ring) ==> Snap() == old(Snap()).With(c, c.Look())
      ensures c.Look() == Slot(c.state, old(c.Look()).shape, c.appended, c.taken, c.delivered, c.misled, c.out,
                               c.ticket, c.pooled, c.relay)
      ensures old(c.Look()) == Slot(old(c.state), old(c.Look()).shape, old(c.appended), old(c.taken), old(c.delivered),
                                    old(c.misled), old(c.out), old(c.ticket), old(c.pooled), old(c.relay))
    {
      hide Conn.Now, Conn.Look;
      LooksLike(c);
      SnapChanged(c);
    }

    /** The same, by the frame of a method that works on the fields of one connection. */
    twostate lemma FieldsWorked(c: Conn)
      requires c in conns && forall d | d in conns && d != c :: unchanged(d)
      requires forall d | d in conns && old(d.wb) != null :: unchanged(old(d.wb), old(d.wb.buffer))
      requires unchanged(this`free, this`dirty, this`tally, c`wb)
      ensures Snap() == old(Snap()).(ring := ring).With(c, c.Look()) && old(Snap()).Of(c) == old(c.Look())
      ensures ring == old(ring) ==> Snap() == old(Snap()).With(c, c.Look())
      ensures c.Look() == Slot(c.state, old(c.Look()).shape, c.appended, c.taken, c.delivered, c.misled, c.out,
                               c.ticket, c.pooled, c.relay)
      ensures old(c.Look()) == Slot(old(c.state), old(c.Look()).shape, old(c.appended), old(c.taken), old(c.delivered),
                                    old(c.misled), old(c.out), old(c.ticket), old(c.pooled), old(c.relay))
      ensures forall d | d in conns && d != c :: d.Now() == old(d.Now())
    {
      hide Conn.Look, Snap;
      SlotWorked(c);
    }

    /** Surgery on the links leaves what the invariants look at alone. */
    twostate lemma LinksOnly()
      requires forall d | d in conns ::
                 unchanged(d`state, d`wb, d`appended, d`taken, d`delivered, d`misled, d`flight, d`out, d`ticket,
                   d`pooled, d`relay)
      requires forall d | d in conns && old(d.wb) != null :: unchanged(old(d.wb), old(d.wb.buffer))
      ensures forall d | d in conns :: d.Now() == old(d.Now())
    {
    }

    twostate lemma OthersConserve(c: Conn)
      requires old(AllConserve()) && c.Conserves()
      requires forall d | d in conns && d != c :: d.Now() == old(d.Now())
      ensures AllConserve()
    {
      hide Conn.Conserves, Conn.Relays;
      forall d | d in conns
        ensures d.Conserves()
      {
        if d != c {
          StillConserves(d);
        }
      }
    }

    twostate lemma OthersRelay(c: Conn)
      requires old(AllRelay()) && c.Relays() && forall d | d in conns && d != c :: d.Now() == old(d.Now())
      ensures AllRelay()
    {
      hide Conn.Relays;
      forall d | d in conns && d != c
        ensures d.Relays()
      {
        assert d.Now() == old(d.Now());
        SameRelay(d);
      }
    }

    twostate lemma RelayWorked(c: Conn)
      requires old(AllRelay()) && c in conns && (unchanged(c`state, c`appended, c`relay) || c.Relays())
      requires forall d | d in conns && d != c :: d.Now() == old(d.Now())
      ensures AllRelay()
    {
      hide Conn.Relays;
      if !c.Relays() {
        SameRelay(c);
      }
      OthersRelay(c);
    }

    twostate lemma RelayKept()
      requires old(AllRelay()) && forall d | d in conns :: d.Now() == old(d.Now())
      ensures AllRelay()
    {
      hide Conn.Relays;
      forall d | d in conns
        ensures d.Relays()
      {
        assert d.Now() == old(d.Now());
        SameRelay(d);
      }
    }

    twostate lemma RelayStarts(c: Conn)
      requires old(c.Relays() && c.state == Unused) && c.Now() == old(c.Now()).(state := ReceivingFd)
      ensures c.Relays()
    {
    }

    /** The ring's account after a connection it has nothing for, or in which nothing is sure, is over. */
    twostate lemma RingAfterCleanup(c: Conn)
      requires old(RingOk() && Ringing(c)) && c in conns && c.Blank() && (old(c.ticket).Some? ==> ring.abandoned > 0)
      requires ring == old(ring)
      requires forall d | d in conns && d != c :: d.Now() == old(d.Now())
      ensures RingOk() && Ringing(null)
    {
      hide Conn.Conserves, Conn.Relays;
      assert ring.abandoned == 0 ==> forall k | k in ring.writes :: ring.writes[k].slot != c;
      forall d | d in conns && d != c
        ensures d.ticket == old(d.ticket) && d.flight == old(d.flight) && d.out == old(d.out)
        ensures d.misled == old(d.misled)
      {
        assert d.Now() == old(d.Now());
      }
    }

    twostate lemma AfterCleanup(c: Conn)
      requires old(Core(c)) && c in conns && c !in old(free) && FreeOk() && DirtyOk()
      requires free == [c] + old(free) && dirty == Without(old(dirty), c)
      requires active == old(active) - 1 && peak == old(peak) && owner == old(owner)
      requires c.Blank() && RingOk() && Ringing(null)
      requires forall d | d in conns && d != c :: d.Now() == old(d.Now())
      ensures Core(null)
    {
      hide FreeOk, DirtyOk, RingOk, Ringing, AllRelay, Conn.Conserves, Conn.Relays, Conn.Blank;
      c.IsBlank();
      OthersConserve(c);
      OthersRelay(c);
      assert Apart();
      assert StatesOk();
    }

    lemma InUse(c: Conn)
      requires Core(c) && c in conns && c.state != Unused
      ensures FreeOk() && DirtyOk() && c !in free && |conns| == |free| + active && RingOk() && Ringing(c)
    {
    }

    /** Nothing went to the ring or came from it. */
    twostate predicate RingSame()
      reads this`ring
    {
      ring == old(ring)
    }

    method RetireSlot(c: Conn, why: Outcome)
      requires Core(c) && Balanced() && c in conns && c.state != Unused && (c.ticket.Some? ==> ring.abandoned > 0)
      modifies this, Slots()`dirtyNext, c
      ensures Inv() && c.Blank() && c.state == Unused && c.wb == null && c.ticket == None && !c.pooled && RingSame()
      ensures owner == old(owner)
      ensures dirty == Without(old(dirty), c) && free == [c] + old(free)
      ensures tally == old(tally.Ended(Some(why), c.out.sent))
      ensures forall d | d in conns && d != c :: d.Now() == old(d.Now())
    {
      hide Core, FreeOk, DirtyOk, StatesOk, AllConserve, Apart, NoneStranded, RingOk, Ringing, Without, Conn.Blank;
      InUse(c);
      CountAndClean(c, why);
      RingAfterCleanup(c);
      AfterCleanup(c);
      c.IsBlank();
    }

    /** Counts the outcome of a connection once, and cleans it up. */
    method Retire(c: Conn, why: Outcome)
      requires Core(c) && Balanced() && c in conns && c.state != Unused && (c.ticket.Some? ==> ring.abandoned > 0)
      modifies this, Slots()`dirtyNext, c
      ensures Inv() && c.Blank() && c.state == Unused && c.wb == null && c.ticket == None && !c.pooled && RingSame()
      ensures owner == old(owner)
      ensures dirty == Without(old(dirty), c) && free == [c] + old(free)
      ensures tally == old(tally.Ended(Some(why), c.out.sent))
      ensures Snap() == old(Snap()).Ended(c, why, old(c.out.sent))
      ensures forall d | d in conns && d != c :: d.Now() == old(d.Now())
    {
      hide Inv, Core, Balanced, Snap, Conn.Look, Conn.Now, Conn.Blank, Without;
      SnapParts();
      RetireSlot(c, why);
      c.BlankLook();
      SnapChanged(c);
    }

    lemma Excepting(c: Conn)
      requires Inv()
      ensures Core(c) && Balanced()
      ensures c in conns ==> (c.HasUnsent() && !c.Busy() ==> c in dirty) && (c.Sending() ==> c.ticket.Some?)
    {
    }

    lemma RelayKnown(c: Conn)
      requires Core(c) && c in conns
      ensures c.Relays() && c.appended == c.relay.Wire() && c.relay.Faithful() && c.Relaying(c.state)
    {
    }

    /** What the invariant says of one connection and of the structures around it. */
    lemma Open(c: Conn)
      requires Core(c) && c in conns
      ensures FreeOk() && DirtyOk() && Apart() && RingOk()
      ensures c.Conserves() && (c.wb == null ==> c.Single()) && (!c.Sending() ==> c.ticket == None)
      ensures c in dirty ==> c.state == CurlActive || c.state == Closing
    {
    }

    // ----- events on one connection

    twostate lemma StatesAfterWork(c: Conn)
      requires old(StatesOk()) && c in conns
      requires free == old(free) && (dirty == old(dirty) || dirty == old(dirty) + [c])
      requires old(c.state) != Unused && c.state != Unused
      requires c in dirty ==> c.state == CurlActive || c.state == Closing
      requires forall d | d in conns && d != c :: d.Now() == old(d.Now())
      ensures StatesOk()
    {
    }

    twostate lemma OthersNotStranded(c: Conn)
      requires old(NoneStranded(c) && Ringing(c)) && (dirty == old(dirty) || dirty == old(dirty) + [c])
      requires forall d | d in conns && d != c :: d.Now() == old(d.Now())
      ensures NoneStranded(c) && Ringing(c)
    {
    }

    /**
     * One live connection was worked on and everything else left alone: the invariant holds again,
     * but for that connection being stranded.
     */
    twostate lemma AfterWork(c: Conn)
      requires old(Core(c)) && c in conns && FreeOk() && DirtyOk() && Apart() && RingOk()
      requires free == old(free) && (dirty == old(dirty) || dirty == old(dirty) + [c])
      requires active == old(active) && peak == old(peak)
      requires old(c.state) != Unused && c.state != Unused && c.Conserves()
      requires unchanged(c`state, c`appended, c`relay) || c.Relays()
      requires c in dirty ==> c.state == CurlActive || c.state == Closing
      requires forall d | d in conns && d != c :: d.Now() == old(d.Now())
      ensures Core(c)
    {
      hide StatesOk, NoneStranded, RingOk, Ringing, AllRelay;
      OthersConserve(c);
      RelayWorked(c);
      StatesAfterWork(c);
      OthersNotStranded(c);
    }

    /** The two lists are a matter of their own links and flags. */
    twostate lemma FreeKept()
      requires old(FreeOk()) && unchanged(this`free, this`freeList)
      requires forall d | d in conns :: unchanged(d`nextFree)
      ensures FreeOk()
    {
      assert forall i | 0 <= i < |free| :: free[i] in conns;
    }

    twostate lemma ListsKept()
      requires old(FreeOk() && DirtyOk())
      requires unchanged(this`free, this`freeList, this`dirty, this`dirtyHead, this`dirtyTail)
      requires forall d | d in conns :: unchanged(d`nextFree, d`dirtyNext, d`onDirtyList)
      ensures FreeOk() && DirtyOk()
    {
      FreeKept();
      assert forall i | 0 <= i < |dirty| :: dirty[i] in conns;
    }

    /** So is the ring's account of what connections wait for. */
    twostate lemma RingKept()
      requires old(RingOk()) && RingSame()
      requires forall d | d in conns :: unchanged(d`ticket, d`flight, d`out, d`misled)
      ensures RingOk()
    {
    }

    /** Only the ring's account changed. */
    twostate lemma RingOnly(x: Conn)
      requires old(Core(x)) && RingOk()
      requires unchanged(this`free, this`freeList, this`dirty, this`dirtyHead, this`dirtyTail, this`active, this`peak,
                 this`owner)
      requires forall d | d in conns :: unchanged(d)
      requires forall d | d in conns && old(d.wb) != null :: unchanged(old(d.wb), old(d.wb.buffer))
      ensures Core(x)
    {
      hide FreeOk, DirtyOk, RingOk, AllRelay, Conn.Conserves, Conn.Relays;
      ListsKept();
      RelayKept();
      forall d | d in conns
        ensures d.Conserves()
      {
        StillConserves(d);
      }
      assert Apart();
      assert StatesOk();
    }

    /** Only who waits for what changed, at `c`. */
    twostate lemma TicketOnly(c: Conn)
      requires old(FreeOk() && DirtyOk() && Apart() && c.Conserves()) && c in conns
      requires unchanged(this`free, this`freeList, this`dirty, this`dirtyHead, this`dirtyTail, this`owner)
      requires forall d | d in conns && d != c :: unchanged(d)
      requires unchanged(c`state, c`wb, c`appended, c`taken, c`delivered, c`misled, c`flight, c`out, c`pooled, c`relay)
      requires unchanged(c`nextFree, c`dirtyNext, c`onDirtyList)
      requires forall d | d in conns && old(d.wb) != null :: unchanged(old(d.wb), old(d.wb.buffer))
      ensures FreeOk() && DirtyOk() && Apart() && c.Conserves()
      ensures forall d | d in conns && d != c :: d.Now() == old(d.Now())
    {
      hide FreeOk, DirtyOk, Conn.Conserves, Conn.Relays;
      ListsKept();
      SameBytes(c);
    }

    /** The same for work on the connection's own fields alone. */
    twostate lemma LocalWork(c: Conn)
      requires old(Core(c)) && c in conns && RingOk()
      requires unchanged(this`free, this`freeList, this`dirty, this`dirtyHead, this`dirtyTail, this`active, this`peak,
                 this`owner)
      requires forall d | d in conns :: unchanged(d`nextFree, d`dirtyNext, d`onDirtyList, d`wb)
      requires forall d | d in conns && d != c ::
                 unchanged(d`state, d`appended, d`taken, d`delivered, d`misled, d`flight, d`out, d`ticket, d`pooled,
                   d`relay)
      requires forall d | d in conns && old(d.wb) != null :: unchanged(old(d.wb), old(d.wb.buffer))
      requires old(c.state) != Unused && c.state != Unused && c.Conserves()
      requires c in dirty ==> c.state == CurlActive || c.state == Closing
      requires (unchanged(c`state, c`appended, c`relay) || c.Relays())
      ensures Core(c) && forall d | d in conns && d != c :: d.Now() == old(d.Now())
    {
      hide FreeOk, DirtyOk, StatesOk, AllConserve, AllRelay, NoneStranded, RingOk, Ringing;
      ListsKept();
      AfterWork(c);
    }

    /** The ring's account while one connection without a ticket is worked on. */
    twostate lemma RingDuringWork(c: Conn)
      requires old(RingOk()) && c in conns && old(c.ticket) == None == c.ticket && RingSame()
      requires !c.misled || old(c.misled) || ring.abandoned > 0
      requires forall d | d in conns && d != c :: unchanged(d`ticket, d`flight, d`out, d`misled)
      ensures RingOk()
    {
    }

    lemma NotStranded(c: Conn)
      requires Core(c) && (c.HasUnsent() && !c.Busy() ==> c in dirty) && (c.Sending() ==> c.ticket.Some?)
      ensures Core(null)
    {
    }

    method MoveSlot(c: Conn, state: ConnState)
      requires Inv() && c in conns && c.state != Unused && state != Unused && c.CanMove(state)
               && (c.pooled ==> state in {Streaming, Streamed, Closing})
      requires state == Closing
               || (state != CurlActive && c.state != CurlPending && c.state != CurlActive && c.state != Closing)
      requires c in dirty ==> state == CurlActive || state == Closing
      modifies c`state
      ensures Inv() && c.state == state && forall d | d in conns && d != c :: d.Now() == old(d.Now())
    {
      hide Core, FreeOk, DirtyOk, Apart, RingOk, Ringing, Conn.Now, Conn.Conserves, Conn.Relays, Conn.Single;
      Excepting(c);
      Open(c);
      RelayKnown(c);
      c.state := state;
      c.IsRelay();
      StateMoved(c, state);
      LocalWork(c);
      NotStranded(c);
    }

    /** `conn_set_state` on a live connection. */
    method SetState(c: Conn, state: ConnState)
      requires Inv() && c in conns && c.state != Unused && state != Unused && c.CanMove(state)
               && (c.pooled ==> state in {Streaming, Streamed, Closing})
      requires state == Closing
               || (state != CurlActive && c.state != CurlPending && c.state != CurlActive && c.state != Closing)
      requires c in dirty ==> state == CurlActive || state == Closing
      modifies c`state
      ensures Inv() && c.state == state && forall d | d in conns && d != c :: d.Now() == old(d.Now())
      ensures Snap() == old(Snap()).With(c, old(c.Look()).(state := state)) && old(Snap().Of(c) == c.Look())
      ensures c.Look() == old(c.Look()).(state := state)
    {
      hide Inv, Snap, Conn.Look, Conn.Now;
      MoveSlot(c, state);
      SlotWorked(c);
    }

    lemma Conserving(c: Conn)
      requires Inv() && c in conns
      ensures c.Conserves() && (c.wb == null ==> c.Single())
    {
    }

    lemma Receiving(c: Conn)
      requires Inv() && c in conns && (c.state == ReceivingFd || c.state == LlmQueued)
      ensures c.Unstarted() && c.ticket == None && c !in dirty && (c.state == ReceivingFd ==> !c.pooled)
    {
      assert c.Conserves();
    }

    // ----- writes handed to the ring

    /** A submission of `len` bytes and its linked timeout; the connection waits for the write if both are accepted. */
    ghost predicate Handed(c: Conn, was: Ring, len: nat, writeOk: bool, linkOk: bool)
      reads this`ring, c`ticket
    {
      && ring == was.Offered(c, len, writeOk, linkOk)
      && c.ticket == if writeOk && linkOk then Some(was.serial) else None
    }

    /** That, for a write there is, or nothing. */
    ghost predicate Submits(c: Conn, was: Ring, len: Option<nat>, writeOk: bool, linkOk: bool)
      reads this`ring, c`ticket
    {
      match len
      case Some(n) => Handed(c, was, n, writeOk, linkOk)
      case None => ring == was
    }

    lemma SubmitsRing(c: Conn, was: LoopMachine.Snapshot, len: Option<nat>, writeOk: bool, linkOk: bool)
      requires Submits(c, was.ring, len, writeOk, linkOk)
      ensures LoopMachine.RingAfter(was, c, len, writeOk, linkOk, ring)
      ensures len.Some? && writeOk && linkOk ==> c.ticket == Some(was.ring.serial)
    {
    }

    method HandOver(c: Conn, len: nat, writeOk: bool, linkOk: bool)
      requires RingOk() && c in conns && c.ticket == None && (writeOk && linkOk ==> c.InFlight(len))
      modifies this`ring, c`ticket
      ensures RingOk() && Handed(c, old(ring), len, writeOk, linkOk)
    {
      if writeOk && linkOk {
        c.ticket := Some(ring.serial);
      }
      ring := ring.Offered(c, len, writeOk, linkOk);
    }

    lemma Idle(c: Conn)
      requires Inv() && c in conns && c.wb == null && c.out.submitted == []
      ensures !c.Sending() && c.ticket == None
    {
      assert c.Conserves();
    }

    /** A connection without a write buffer starts a write. */
    method BeginWrite(c: Conn, bytes: seq<byte>, buffered: bool, writeOk: bool, linkOk: bool)
      requires Inv() && c in conns && c.wb == null && c.out.message == c.out.submitted == [] && c.out.buf == None
      requires (c.pooled ==> c.misled) && bytes != []
      requires if c.state == Streaming then c.out.frames == [] ==> bytes == SSE_HEADERS
               else c.state == Closing && c.out.frames != [] && bytes == SSE_DONE
      modifies this`ring, c`out, c`ticket
      ensures Inv() && Handed(c, old(ring), |bytes|, writeOk, linkOk)
      ensures var begun := Begun(bytes, buffered, old(c.out.frames), old(c.out.sent));
              c.out == if writeOk && linkOk then begun else begun.(submitted := [])
    {
      hide Core, FreeOk, DirtyOk, Apart, RingOk, Ringing, Conn.Now, Conn.Conserves, Conn.Relays, Conn.Single;
      Excepting(c);
      Open(c);
      c.Begin(bytes, buffered, writeOk && linkOk);
      RingDuringWork(c);
      label Begun:
      HandOver(c, |bytes|, writeOk, linkOk);
      SameBytes@Begun(c);
      LocalWork(c);
      NotStranded(c);
    }

    // ----- accepting and the recvmsg, thread-pool and legacy write handlers

    twostate lemma AfterAdmit(c: Conn)
      requires old(Inv()) && c in conns && FreeOk() && DirtyOk()
      requires old(free) == [c] + free && dirty == old(dirty) && owner == old(owner)
      requires active == old(active) + 1 && peak == (if active > old(peak) then active else old(peak))
      requires c.Now() == old(c.Now()).(state := ReceivingFd) && RingOk() && Ringing(null)
      requires forall d | d in conns && d != c :: d.Now() == old(d.Now())
      ensures Core(null)
    {
      hide DirtyOk, RingOk, Ringing, Conn.Relays;
      Split(old(free), c, free);
      assert old(c.Conserves() && c.Relays());
      assert c.Conserves();
      RelayStarts(c);
      OthersConserve(c);
      OthersRelay(c);
      assert Apart();
      assert StatesOk();
    }

    twostate lemma StateOnly(c: Conn)
      requires c in conns
      requires forall d | d in conns ::
                 unchanged(d`wb, d`appended, d`taken, d`delivered, d`misled, d`flight, d`out, d`ticket, d`pooled,
                   d`relay)
      requires forall d | d in conns && d != c :: unchanged(d`state)
      requires forall d | d in conns && old(d.wb) != null :: unchanged(old(d.wb), old(d.wb.buffer))
      ensures c.Now() == old(c.Now()).(state := c.state) && forall d | d in conns && d != c :: d.Now() == old(d.Now())
    {
    }

    /** Takes a slot into the receiving state and counts the start. */
    method Take(mallocOk: bool) returns (c: Conn?)
      requires FreeOk()
      modifies this`free, this`freeList, this`active, this`peak, this`tally, Slots()`nextFree, Slots()`state
      ensures FreeOk()
      ensures c == null <==> old(free) == [] || !mallocOk
      ensures c == null ==> free == old(free) && active == old(active) && peak == old(peak) && tally == old(tally)
      ensures c != null ==>
                && c in conns && old(free) == [c] + free && tally == old(tally).(started := old(tally.started) + 1)
                && active == old(active) + 1 && peak == (if active > old(peak) then active else old(peak))
                && c.Now() == old(c.Now()).(state := ReceivingFd)
      ensures forall d | d in conns && d != c :: d.Now() == old(d.Now())
    {
      hide Conn.Now;
      c := ConnAlloc(mallocOk);
      LinksOnly();
      if c != null {
        assert c in old(free);
        c.state := ReceivingFd;
        tally := tally.(started := tally.started + 1);
        StateOnly(c);
      }
    }

    /** Only free-list links were rewritten. */
    twostate lemma NothingMoved()
      requires old(Inv()) && FreeOk() && DirtyOk() && free == old(free) && dirty == old(dirty) && owner == old(owner)
      requires active == old(active) && peak == old(peak)
      requires tally == old(tally)
      requires RingOk() && Ringing(null) && forall d | d in conns :: d.Now() == old(d.Now())
      ensures Inv()
    {
      hide FreeOk, DirtyOk, RingOk, Ringing, AllRelay, Conn.Conserves, Conn.Relays;
      RelayKept();
      forall d | d in conns
        ensures d.Conserves()
      {
        StillConserves(d);
      }
      assert Apart();
      assert StatesOk();
    }

    /** The successful part of `handle_accept`: a slot is taken and the start counted. */
    method Admit(mallocOk: bool) returns (c: Conn?)
      requires Inv()
      modifies this`free, this`freeList, this`active, this`peak, this`tally, Slots()`nextFree, Slots()`state
      ensures Inv()
      ensures c == null <==> old(free) == [] || !mallocOk
      ensures c == null ==> tally == old(tally) && active == old(active) && free == old(free)
      ensures c != null ==> c in conns && c.state == ReceivingFd
      ensures c != null ==> old(free) == [c] + free && c.Now() == old(c.Now()).(state := ReceivingFd)
      ensures c != null ==> tally == old(tally).(started := old(tally.started) + 1) && active == old(active) + 1
      ensures forall d | d in conns && d != c :: d.Now() == old(d.Now())
    {
      hide FreeOk, StatesOk, AllConserve, Apart, NoneStranded, Conn.Conserves, Conn.Relays;
      c := Take(mallocOk);
      if c != null {
        AfterAdmit(c);
      } else {
        NothingMoved();
      }
    }

    lemma FreeIsBlank(c: Conn)
      requires Inv() && c in free
      ensures c in conns && c.Look() == FREE_SLOT && c !in dirty && Without(dirty, c) == dirty
    {
      assert c.Conserves() && c.Relays();
      WithoutAbsent(dirty, c);
    }

    twostate lemma LookIsSketch(c: Conn, new state: ConnState)
      requires c.Now() == old(c.Now()).(state := state)
      ensures c.Look() == old(c.Look()).(state := state)
    {
    }

    twostate lemma OldFreeIsBlank(c: Conn)
      requires old(Inv() && c in free)
      ensures old(c in conns && c.Look() == FREE_SLOT && c !in dirty && Without(dirty, c) == dirty)
      ensures old(c in Snap().slots && Snap().slots[c] == FREE_SLOT)
    {
      assert old(c.Conserves() && c.Relays());
      WithoutAbsent(old(dirty), c);
    }

    twostate lemma OldSnapParts()
      ensures var s := old(Snap());
              s.free == old(free) && s.dirty == old(dirty) && s.ring == old(ring) && s.tally == old(tally)
    {
    }

    /** A slot is taken, as the machine sees it. */
    twostate lemma Admitted(c: Conn, new mallocOk: bool)
      requires old(Inv()) && c in old(free) && mallocOk && old(free) == [c] + free
      requires c.Now() == old(c.Now()).(state := ReceivingFd) && unchanged(this`dirty, this`ring)
      requires tally == old(tally).(started := old(tally.started) + 1)
      requires forall d | d in conns && d != c :: d.Now() == old(d.Now())
      ensures Snap() == LoopMachine.Accepted(old(Snap()), mallocOk, true)
      ensures Snap().Ended(c, Dropped, 0) == LoopMachine.Accepted(old(Snap()), mallocOk, false)
    {
      hide Inv, Conn.Now, Snap, Conn.Look;
      OldFreeIsBlank(c);
      SnapChanged(c);
      OldSnapParts();
      assert old(free)[0] == c && old(free)[1..] == free;
      assert c.Look() == old(c.Look()).(state := ReceivingFd) by {
        LookIsSketch(c, ReceivingFd);
      }
      LoopMachine.FreedAgain(old(Snap()), c, c.Look());
    }

    /** `handle_accept`. */
    method HandleAccept(mallocOk: bool, recvmsgOk: bool)
      requires Inv()
      modifies this, Slots()
      ensures Inv() && owner == old(owner) && RingSame()
      ensures old(free) != [] && mallocOk && recvmsgOk ==>
                var c := old(free[0]);
                && free == old(free[1..]) && c.Now() == old(free[0].Now()).(state := ReceivingFd) && dirty == old(dirty)
                && forall d | d in conns && d != c :: d.Now() == old(d.Now())
      ensures if old(free) == [] || !mallocOk then tally == old(tally)
              else var one := old(tally).(started := old(tally.started) + 1);
                   tally == if recvmsgOk then one else one.Ended(Some(Dropped), 0)
      ensures Snap() == LoopMachine.Accepted(old(Snap()), mallocOk, recvmsgOk)
    {
      hide Inv, Core, Snap, Conn.Look, Conn.Now, LoopMachine.Accepted, Without;
      SnapParts();
      var c := Admit(mallocOk);
      if c == null {
        SlotsSame();
        LoopMachine.NoneAccepted(Snap(), mallocOk, recvmsgOk);
        return;
      }
      assert old(free)[0] == c;
      Admitted(c, mallocOk);
      if !recvmsgOk {
        Receiving(c);
        Excepting(c);
        Retire(c, Dropped);
      }
    }

    /** Exactly the one counter of an ending is bumped; a connection that goes on changes none. */
    twostate predicate Counted(c: Conn, new end: Option<Outcome>, new sent: nat)
      reads this`tally, this`owner, c`state
    {
      tally == old(tally).Ended(end, sent) && owner == old(owner) && (c.state == Unused <==> end.Some?)
    }

    /** A connection that goes no further fails, and is counted. */
    method Fail(c: Conn)
      requires Inv() && c in conns && c.state != Unused && (c.ticket.Some? ==> ring.abandoned > 0)
      modifies this, Slots()`dirtyNext, c
      ensures Inv() && Counted(c, Some(Failed), 0) && RingSame() && free == [c] + old(free) && c.Blank()
      ensures Snap() == old(Snap()).Ended(c, Failed, 0)
      ensures c.ticket == None && !c.pooled
      ensures forall d | d in conns && d != c :: d.Now() == old(d.Now())
    {
      hide Inv, Core, Snap;
      Excepting(c);
      Retire(c, Failed);
    }

    /** `start_streaming`. */
    method StartStreaming(c: Conn, writeOk: bool, linkOk: bool)
      requires Inv() && c in conns && c.state == Streaming && c.Unstarted() && !c.pooled
      modifies this, Slots()`dirtyNext, c
      ensures Inv() && Counted(c, if writeOk && linkOk then None else Some(Failed), 0)
      ensures Handed(c, old(ring), |SSE_HEADERS|, writeOk, linkOk)
      ensures if writeOk && linkOk then c.state == Streaming && c.out == Begun(SSE_HEADERS, false, [], old(c.out.sent))
              else c.Blank() && free == [c] + old(free)
      ensures !c.pooled && (writeOk && linkOk ==> unchanged(c`delivered, c`misled, c`wb, c`relay, this`dirty))
      ensures Snap() == LoopMachine.Started(old(Snap()), c, writeOk, linkOk)
      ensures forall d | d in conns && d != c :: d.Now() == old(d.Now())
    {
      hide Inv, Conn.Blank, Snap, Conn.Look, Conn.Now;
      SnapParts();
      label Before:
      BeginWrite(c, SSE_HEADERS, false, writeOk, linkOk);
      FieldsWorked@Before(c);
      LoopMachine.Again(old(Snap()).(ring := ring), c, c.Look(), FREE_SLOT);
      if !writeOk {
        Fail(c);
      } else if !linkOk {
        Fail(c);
      }
    }

    lemma PooledState(c: Conn)
      requires Inv() && c in conns && c.pooled
      ensures c.state in {LlmQueued, Streaming, Streamed, Closing}
    {
      assert c.Conserves();
    }

    method MarkPooled(c: Conn, pooled: bool)
      requires Inv() && c in conns && c.state in {LlmQueued, Streaming, Streamed, Closing} && c.Unstarted()
      modifies c`pooled
      ensures Inv() && c.pooled == pooled && forall d | d in conns && d != c :: d.Now() == old(d.Now())
    {
      hide Core, FreeOk, DirtyOk, Apart, RingOk, Ringing, Conn.Now;
      Excepting(c);
      Open(c);
      c.pooled := pooled;
      LocalWork(c);
      NotStranded(c);
    }

    /** The thread pool takes the connection, or gives it back. */
    method SetPooled(c: Conn, pooled: bool)
      requires Inv() && c in conns && c.state in {LlmQueued, Streaming, Streamed, Closing} && c.Unstarted()
      modifies c`pooled
      ensures Inv() && c.pooled == pooled && forall d | d in conns && d != c :: d.Now() == old(d.Now())
      ensures Snap() == old(Snap()).With(c, old(c.Look()).(pooled := pooled))
              && c.Look() == old(c.Look()).(pooled := pooled)
    {
      hide Inv, Snap, Conn.Look, Conn.Now;
      MarkPooled(c, pooled);
      FieldsWorked(c);
    }

    /** The end of `handle_recv_fd`: where a parsed request goes. */
    method Serve(c: Conn, next: Handover)
      requires Inv() && c in conns && c.state == Parsing && c.Unstarted() && !c.pooled && c.ticket == None
      requires c !in dirty
      modifies this, Slots()`dirtyNext, c
      ensures Inv() && Counted(c, if Good(next).Served() then None else Some(Failed), 0)
      ensures Good(next).Served() ==> c.state == next.Next() && c.pooled == next.ToPool?
      ensures if next.Direct? then Handed(c, old(ring), |SSE_HEADERS|, next.writeOk, next.linkOk) else RingSame()
      ensures Good(next).Served() ==>
                && unchanged(c`delivered, c`misled, c`wb, c`relay, this`dirty)
                && c.out == if next.Direct? then Begun(SSE_HEADERS, false, [], old(c.out.sent)) else old(c.out)
      ensures Snap() == LoopMachine.Served(old(Snap()), c, next)
      ensures forall d | d in conns && d != c :: d.Now() == old(d.Now())
    {
      hide Inv, Conn.Blank, Snap, Conn.Look, Conn.Now, LoopMachine.Started;
      InSnap(c);
      Looks(c);
      ghost var was, look := Snap(), c.Look();
      match next {
        case ToCurl(startOk) =>
          SetState(c, CurlPending);
          LoopMachine.Again(was, c, look.(state := CurlPending), FREE_SLOT);
          if !startOk {
            Fail(c);
          }
        case ToPool(submitOk) =>
          SetState(c, LlmQueued);
          LoopMachine.Again(was, c, look.(state := LlmQueued), look.(state := LlmQueued, pooled := true));
          if submitOk {
            SetPooled(c, true);
          } else {
            Fail(c);
          }
        case Direct(writeOk, linkOk) =>
          SetState(c, Streaming);
          LoopMachine.StartedAgain(was, c, look.(state := Streaming), writeOk, linkOk);
          StartStreaming(c, writeOk, linkOk);
      }
    }

    /** `handle_recv_fd`. */
    method HandleRecvFd(c: Conn, got: Received)
      requires Inv() && c in conns && c.state == ReceivingFd
      modifies this, Slots()`dirtyNext, c
      ensures Inv() && Counted(c, if got.Served() then None else Some(Failed), 0)
      ensures got.Served() ==> c.state == got.next.Next() && c.pooled == got.next.ToPool?
      ensures if got.Good? && got.next.Direct?
              then Handed(c, old(ring), |SSE_HEADERS|, got.next.writeOk, got.next.linkOk) else RingSame()
      ensures got.Served() ==>
                && unchanged(c`delivered, c`misled, c`wb, c`relay, this`dirty)
                && c.out == if got.next.Direct? then Begun(SSE_HEADERS, false, [], old(c.out.sent)) else old(c.out)
      ensures Snap() == LoopMachine.FdTaken(old(Snap()), c, got)
      ensures forall d | d in conns && d != c :: d.Now() == old(d.Now())
    {
      hide Inv, Conn.Blank, Snap, Conn.Look, Conn.Now, LoopMachine.Served;
      Receiving(c);
      InSnap(c);
      Looks(c);
      if !got.Good? {
        Fail(c);
        return;
      }
      LoopMachine.ServedAgain(Snap(), c, Parsing, got.next);
      SetState(c, Parsing);
      Serve(c, got.next);
    }

    /** The bytes a worker says it has sent itself. */
    method Report(c: Conn, sent: nat)
      requires Inv() && c in conns && c.state == Streamed && c.wb == null
      modifies c`out
      ensures Inv() && c.out == old(c.out).(sent := sent)
    {
      hide Core, FreeOk, DirtyOk, Apart, RingOk, Ringing, Conn.Now;
      Excepting(c);
      Open(c);
      c.out := c.out.(sent := sent);
      RingDuringWork(c);
      LocalWork(c);
      NotStranded(c);
    }

    /** The end of a worker's turn in `worker_thread`, by the result of `backend_process`. */
    method WorkerDone(c: Conn, result: int, sent: nat)
      requires Inv() && c in conns && c.state == LlmQueued
      modifies c`state, c`out
      ensures Inv() && c.state == if result == 0 then Streaming else if result > 0 then Streamed else Closing
      ensures c.out == old(c.out).(sent := if result > 0 then sent else old(c.out.sent))
      ensures c.pooled ==> Snap() == LoopMachine.Worked(old(Snap()), c, result, sent)
    {
      hide Inv, Snap, Conn.Look, Conn.Now;
      Receiving(c);
      InSnap(c);
      Looks(c);
      if result == 0 {
        SetState(c, Streaming);
      } else if result > 0 {
        SetState(c, Streamed);
        Report(c, sent);
      } else {
        SetState(c, Closing);
      }
      FieldsWorked(c);
    }

    /** One turn of the loop in `handle_eventfd`: the pool gives back a connection it is done with. */
    method HandleCompletion(c: Conn, writeOk: bool, linkOk: bool)
      requires Inv() && c in conns && c.state in {Streaming, Streamed, Closing} && c.Unstarted()
      modifies this, Slots()`dirtyNext, c
      ensures Inv() && !c.pooled
      ensures old(c.state) == Streamed ==> Counted(c, Some(Completed), old(c.out.sent))
      ensures old(c.state) == Closing ==> Counted(c, Some(Failed), 0)
      ensures old(c.state) == Streaming ==> Counted(c, if writeOk && linkOk then None else Some(Failed), 0)
      ensures if old(c.state) == Streaming then Handed(c, old(ring), |SSE_HEADERS|, writeOk, linkOk) else RingSame()
      ensures old(c.pooled) ==> Snap() == LoopMachine.GivenBack(old(Snap()), c, writeOk, linkOk)
    {
      hide Inv, Core, Conn.Blank, Snap, Conn.Look, Conn.Now, LoopMachine.Started, Handed,
           Without, Begun, LoopMachine.Snapshot.Of, Balanced, Conn.Relays,
           Conn.Conserves, Conn.Single;
      InSnap(c);
      Looks(c);
      ghost var was, look := Snap(), c.Look();
      SetPooled(c, false);
      LoopMachine.Again(was, c, look.(pooled := false), FREE_SLOT);
      if c.state == Streaming {
        LoopMachine.StartedAgain(was, c, look.(pooled := false), writeOk, linkOk);
      }
      if c.state == Streaming {
        StartStreaming(c, writeOk, linkOk);
      } else {
        Idle(c);
        Excepting(c);
        if c.state == Streamed {
          Retire(c, Completed);
        } else {
          Retire(c, Failed);
        }
      }
    }

    lemma RingSlot(k: nat)
      requires Inv() && k in ring.writes
      ensures var c := ring.writes[k].slot;
              && c in conns && (c.ticket != Some(k) ==> ring.abandoned > 0)
              && (c.ticket == Some(k) ==> c.InFlight(ring.writes[k].len))
    {
    }

    twostate lemma RingAfterArrival(c: Conn, new k: nat)
      requires old(RingOk()) && c in conns && k in old(ring).writes && old(ring.writes[k].slot) == c
      requires ring == old(ring).Without(k) && c.ticket == None
      requires unchanged(c`flight, c`out, c`misled)
      requires forall d | d in conns && d != c :: unchanged(d`ticket, d`flight, d`out, d`misled)
      ensures RingOk()
    {
    }

    twostate lemma TicketTaken(c: Conn)
      requires c.ticket == None && c.wb == old(c.wb) && (c.wb != null ==> unchanged(c.wb, old(c.wb.buffer)))
      requires unchanged(c`state, c`appended, c`taken, c`delivered, c`misled, c`flight, c`out, c`pooled, c`relay)
      ensures c.Now() == old(c.Now()).(ticket := None)
    {
    }

        method ArriveSlot(c: Conn, k: nat)
      requires Inv() && k in ring.writes && ring.writes[k].slot == c && c.state != Unused
      modifies this`ring, c`ticket
      ensures Core(c) && Balanced() && c in conns && c.ticket == None && ring == old(ring).Without(k)
      ensures unchanged(c`state, c`wb, c`appended, c`taken, c`delivered, c`misled, c`flight, c`out, c`pooled)
      ensures c.Now() == old(c.Now()).(ticket := None)
      ensures forall d | d in conns && d != c :: d.Now() == old(d.Now())
    {
      hide Core, FreeOk, DirtyOk, Apart, RingOk, Ringing, Conn.Now, Conn.Conserves, Conn.Relays, Conn.Single;
      RingSlot(k);
      Excepting(c);
      Open(c);
      ring := ring.Without(k);
      c.ticket := None;
      TicketTaken(c);
      SameBytes(c);
      RingAfterArrival(c, k);
      LocalWork(c);
    }

    /** The completion of write `k` is taken off the ring; it is the slot's own if that is the write it waits for. */
    method Arrive(c: Conn, k: nat)
      requires Inv() && k in ring.writes && ring.writes[k].slot == c && c.state != Unused
      modifies this`ring, c`ticket
      ensures Core(c) && Balanced() && c in conns && c.ticket == None && ring == old(ring).Without(k)
      ensures unchanged(c`state, c`wb, c`appended, c`taken, c`delivered, c`misled, c`flight, c`out, c`pooled)
      ensures c.Now() == old(c.Now()).(ticket := None)
      ensures forall d | d in conns && d != c :: d.Now() == old(d.Now())
      ensures Snap() == LoopMachine.Arrived(old(Snap()), c, k) && old(Snap()).ring == old(ring)
    {
      hide Inv, Core, Balanced, Snap, Conn.Look, Conn.Now, Conn.Conserves;
      SnapParts();
      ArriveSlot(c, k);
      FieldsWorked(c);
    }

    /** A completion of `res` bytes is taken for the write under way. */
    method AcceptWrite(c: Conn, res: nat, ghost own: bool)
      requires Core(c) && Balanced() && c in conns && c.wb == null && (c.state == Streaming || c.state == Closing)
      requires c.ticket == None && if own then c.Writes(res) else ring.abandoned > 0
      modifies c`out, c`delivered, c`misled
      ensures Inv()
      ensures c.out == old(c.out.(submitted := [], offset := c.out.offset + res, sent := c.out.sent + res))
      ensures c.delivered == old(c.delivered) + (if own then old(c.out.submitted)[..res] else [])
      ensures (c.misled <==> old(c.misled) || !own) && (c.pooled ==> c.misled)
      ensures own && !c.misled ==> c.out.message != [] && c.out.offset <= c.out.len
      ensures own && !c.misled && !old(c.out.IsShort(res)) ==> old(c.WholeStream(res))
    {
      hide Core, FreeOk, DirtyOk, Apart, RingOk, Ringing, Conn.Now, Conn.Conserves, Conn.Relays, Conn.Single,
           Conn.WholeStream;
      Open(c);
      if own && !c.misled {
        c.UnderWay(res);
      }
      c.Accept(res, own);
      RingDuringWork(c);
      LocalWork(c);
      NotStranded(c);
    }

    /** The rest of it is submitted again. */
    method ResubmitWrite(c: Conn, writeOk: bool, linkOk: bool)
      requires Inv() && c in conns && c.wb == null && (c.state == Streaming || c.state == Closing)
      requires c.out.buf.Some? && c.out.offset < c.out.len && c.out.submitted == []
      modifies this`ring, c`out, c`ticket
      ensures Inv() && c.out.offset <= |c.out.message|
              && Handed(c, old(ring), |c.out.message| - c.out.offset, writeOk, linkOk)
              && c.out == old(c.out).(submitted := if writeOk && linkOk then c.out.message[c.out.offset..] else [])
    {
      hide Core, FreeOk, DirtyOk, Apart, RingOk, Ringing, Conn.Now, Conn.Conserves, Conn.Relays, Conn.Single,
           Handed;
      Excepting(c);
      Open(c);
      if writeOk && linkOk {
        c.Resubmit();
      }
      RingDuringWork(c);
      label Resubmitted:
      HandOver(c, |c.out.message| - c.out.offset, writeOk, linkOk);
      SameBytes@Resubmitted(c);
      LocalWork(c);
      NotStranded(c);
    }

    /** It is complete. */
    method FinishWrite(c: Conn)
      requires Inv() && c in conns && c.wb == null && (c.state == Streaming || c.state == Closing)
      requires c.out.submitted == [] && (c.misled || (c.out.message != [] && c.out.offset == c.out.len))
      modifies c`out
      ensures Inv() && c.out == NO_WRITE.(frames := old(c.out.frames + [c.out.message]), sent := old(c.out.sent))
    {
      hide Core, FreeOk, DirtyOk, Apart, RingOk, Ringing, Conn.Now, Conn.Conserves, Conn.Relays, Conn.Single;
      Excepting(c);
      Open(c);
      c.Finish();
      RingDuringWork(c);
      LocalWork(c);
      NotStranded(c);
    }

    /** The second half of `handle_write`: the last write is complete, what is sent next? */
    method SendNext(c: Conn, next: NextMessage, writeOk: bool, linkOk: bool) returns (end: Option<Outcome>)
      requires Inv() && c in conns && c.state == Streaming && c.wb == null
      requires c.out.message == c.out.submitted == [] && c.out.buf == None && c.out.frames != []
               && (c.pooled ==> c.misled)
      modifies this`ring, c`state, c`out, c`ticket
      ensures Inv() && end == next.End(writeOk, linkOk) && c.state == if next.EndOfStream? then Closing else Streaming
      ensures c.out.sent == old(c.out.sent) && (end.Some? ==> c.ticket == None)
      ensures if next.EndOfStream? || next.Fits() then Handed(c, old(ring), |next.Content()|, writeOk, linkOk)
              else RingSame()
      ensures end == None ==> !next.NoMemory? && c.out == next.Write(old(c.out.frames), old(c.out.sent))
    {
      hide Inv, Snap, Conn.Look, Conn.Now, Conn.Conserves, Conn.Single, Conn.Relays;
      if next.EndOfStream? {
        SetState(c, Closing);
        BeginWrite(c, SSE_DONE, false, writeOk, linkOk);
        end := if !writeOk then Some(Completed) else if !linkOk then Some(Failed) else None;
        return;
      }
      Conserving(c);
      Idle(c);
      if next.NoMemory? {
        end := Some(Failed);
      } else {
        var n, frame := SseFormat.FormatSse(next.text, FRAME_BUFFER);
        if n < 0 {
          return Some(Failed);
        }
        SseFormat.CutFits(next.text);
        BeginWrite(c, frame, true, writeOk, linkOk);
        end := if !writeOk then Some(Failed) else if !linkOk then Some(Failed) else None;
      }
    }

    /** A write is complete: the connection does too, or sends what is next. */
    method NextWrite(c: Conn, next: NextMessage, writeOk: bool, linkOk: bool) returns (end: Option<Outcome>)
      requires Inv() && c in conns && c.wb == null && (c.state == Streaming || c.state == Closing)
               && (c.pooled ==> c.misled)
      requires c.out.submitted == [] && (c.misled || (c.out.message != [] && c.out.offset == c.out.len))
      modifies this`ring, c`state, c`out, c`ticket
      ensures Inv() && c.state != Unused && c.out.sent == old(c.out.sent) && (end.Some? ==> c.ticket == None)
      ensures end == if old(c.state) == Closing then Some(Completed) else next.End(writeOk, linkOk)
      ensures if old(c.state) == Streaming && (next.EndOfStream? || next.Fits())
              then Handed(c, old(ring), |next.Content()|, writeOk, linkOk) else RingSame()
      ensures end == None ==>
                && !next.NoMemory? && c.out == next.Write(old(c.out.frames + [c.out.message]), old(c.out.sent))
                && c.state == if next.EndOfStream? then Closing else Streaming
    {
      hide Inv, FrameOf;
      FinishWrite(c);
      if c.state == Closing {
        Idle(c);
        end := Some(Completed);
      } else {
        end := SendNext(c, next, writeOk, linkOk);
      }
    }

    /** A write came back short: the rest of it goes out, if it is in memory. */
    method ShortWrite(c: Conn, writeOk: bool, linkOk: bool) returns (end: Option<Outcome>)
      requires Inv() && c in conns && c.wb == null && (c.state == Streaming || c.state == Closing)
      requires c.out.offset < c.out.len && c.out.submitted == []
      modifies this`ring, c`out, c`ticket
      ensures Inv() && c.out.offset <= |c.out.message| && (end.Some? ==> c.ticket == None)
      ensures end == if c.out.buf.Some? && writeOk && linkOk then None else Some(Failed)
      ensures if c.out.buf.Some? then Handed(c, old(ring), c.out.len - c.out.offset, writeOk, linkOk) else RingSame()
      ensures c.out == old(c.out).(submitted := if end == None then c.out.message[c.out.offset..] else [])
    {
      hide Inv, Conn.Conserves, Conn.Relays;
      Conserving(c);
      Idle(c);
      if c.out.buf == None {
        return Some(Failed);
      }
      ResubmitWrite(c, writeOk, linkOk);
      end := if !writeOk || !linkOk then Some(Failed) else None;
    }

    /** `handle_write` for a result that is not negative, up to the counting. */
    method AfterWrite(c: Conn, res: nat, ghost own: bool, next: NextMessage, writeOk: bool, linkOk: bool)
      returns (end: Option<Outcome>)
      requires Core(c) && Balanced() && c in conns && c.wb == null && (c.state == Streaming || c.state == Closing)
      requires c.ticket == None && if own then c.Writes(res) else ring.abandoned > 0
      modifies this`ring, c`state, c`out, c`delivered, c`misled, c`ticket
      ensures Inv() && c.state != Unused && end == WriteEnd(old(c.state), old(c.out), res, next, writeOk, linkOk)
      ensures c.delivered == old(c.delivered) + (if own then old(c.out.submitted)[..res] else [])
      ensures (c.misled <==> old(c.misled) || !own) && c.out.sent == old(c.out.sent) + res
      ensures end == Some(Completed) && own && !old(c.misled) ==> old(c.WholeStream(res))
      ensures end.Some? ==> c.ticket == None
      ensures Submits(c, old(ring), NextLen(old(c.state), old(c.out), res, next), writeOk, linkOk)
      ensures end == None ==> GoesOn(old((c.state, c.out)), res, next, c.state, c.out)
    {
      hide Inv, Core, Conn.Conserves, Conn.Relays, Conn.Single, Conn.WholeStream, FrameOf, Handed;
      AcceptWrite(c, res, own);
      if c.out.len > 0 && c.out.offset < c.out.len {
        end := ShortWrite(c, writeOk, linkOk);
      } else {
        end := NextWrite(c, next, writeOk, linkOk);
      }
    }

    /** `handle_write` once a completion that is no failure is taken off the ring. */
    method WriteArrived(c: Conn, res: nat, ghost own: bool, next: NextMessage, writeOk: bool, linkOk: bool)
      returns (end: Option<Outcome>)
      requires Core(c) && Balanced() && c in conns && c.wb == null && (c.state == Streaming || c.state == Closing)
      requires c.ticket == None && if own then c.Writes(res) else ring.abandoned > 0
      modifies this, Slots()`dirtyNext, c
      ensures Inv() && Counted(c, end, old(c.out.sent) + res)
      ensures end == WriteEnd(old(c.state), old(c.out), res, next, writeOk, linkOk)
      ensures end == None ==>
                && GoesOn(old((c.state, c.out)), res, next, c.state, c.out) && (c.misled <==> old(c.misled) || !own)
                && c.delivered == old(c.delivered) + (if own then old(c.out.submitted)[..res] else [])
      ensures end == Some(Completed) && own && !old(c.misled) ==> 0 <= res && old(c.WholeStream(res))
      ensures Submits(c, old(ring), NextLen(old(c.state), old(c.out), res, next), writeOk, linkOk)
      ensures Snap() == LoopMachine.Written(old(Snap()), c, own, res, next, writeOk, linkOk)
    {
      hide Inv, Core, Conn.WholeStream, Conn.Blank, FrameOf, WriteEnd, NextLen, GoesOn, Handed, Conn.Now, Snap,
           Conn.Look, LoopMachine.Written, LoopMachine.RingAfter, Submits, Conn.Single, Conn.Conserves,
           Conn.Relays;
      SnapParts();
      ghost var was, len := Snap(), NextLen(c.state, c.out, res, next);
      GoingOn(c.state, c.out, res, next, writeOk, linkOk);
      end := AfterWrite(c, res, own, next, writeOk, linkOk);
      FieldsWorked(c);
      SubmitsRing(c, was, len, writeOk, linkOk);
      if end.Some? {
        Excepting(c);
        LoopMachine.WrittenOff(was, c, own, res, next, writeOk, linkOk, c.Look(), ring, end.value);
        Retire(c, end.value);
      } else {
        LoopMachine.WrittenOn(was, c, own, res, next, writeOk, linkOk, c.Look(), ring);
      }
    }

    lemma OwnWrite(c: Conn, len: nat, res: int)
      requires c.wb == null && c.Single() && c.InFlight(len) && res <= len
      ensures c.Writes(res)
    {
    }

    /**
     * `handle_write`: a connection without a write buffer goes on, or ends and is counted once.  It completes
     * only when the client has accepted the headers, every frame and, unless its submission is refused, the end
     * marker, and all of that is added to the total: if the write that is complete is the one the connection waits
     * for, which it is unless a write was abandoned before.
     */
    method HandleWrite(c: Conn, k: nat, res: int, next: NextMessage, writeOk: bool, linkOk: bool)
      returns (end: Option<Outcome>)
      requires Inv() && k in ring.writes && ring.writes[k].slot == c && res <= ring.writes[k].len
      requires c.wb == null && (c.state == Streaming || c.state == Closing)
      modifies this, Slots()`dirtyNext, c
      ensures Inv() && Counted(c, end, if res < 0 then 0 else old(c.out.sent) + res)
      ensures end == WriteEnd(old(c.state), old(c.out), res, next, writeOk, linkOk)
      ensures var own := old(c.ticket == Some(k));
              && (if own then old(c.Writes(res)) else old(ring).abandoned > 0)
              && (end == None ==>
                    && 0 <= res && GoesOn(old((c.state, c.out)), res, next, c.state, c.out)
                    && (c.misled <==> old(c.misled) || !own)
                    && c.delivered == old(c.delivered) + (if own then old(c.out.submitted)[..res] else []))
              && (end == Some(Completed) && own && !old(c.misled) ==> 0 <= res && old(c.WholeStream(res)))
      ensures var len := NextLen(old(c.state), old(c.out), res, next);
              var rest := old(ring).Without(k);
              ring == if len.Some? then rest.Offered(c, len.value, writeOk, linkOk) else rest
      ensures Snap() == LoopMachine.Written(LoopMachine.Arrived(old(Snap()), c, k), c, old(c.ticket) == Some(k), res,
                                            next, writeOk, linkOk)
    {
      hide Inv, Core, Conn.WholeStream, Conn.Single, Conn.Conserves, Conn.Relays, FrameOf, NextMessage.Write,
           NextMessage.End, Snap, Conn.Look, LoopMachine.Written, LoopMachine.Arrived, Conn.Now, WriteEnd, GoesOn,
           NextLen, Handed, Submits;
      RingSlot(k);
      Conserving(c);
      ghost var own := c.ticket == Some(k);
      if own {
        OwnWrite(c, ring.writes[k].len, res);
      }
      Arrive(c, k);
      if res < 0 {
        Failing(c.state, c.out, res, next, writeOk, linkOk);
        LoopMachine.Refused(Snap(), c, own, res, next, writeOk, linkOk, c.out.sent);
        Retire(c, Failed);
        return Some(Failed);
      }
      SnapParts();
      ghost var rest, len := Snap(), NextLen(c.state, c.out, res, next);
      end := WriteArrived(c, res, own, next, writeOk, linkOk);
      SubmitsRing(c, rest, len, writeOk, linkOk);
    }

    // ----- the curl path: queued bytes, immediate writes, completions, flushing

    /** What an append does to its connection, and that it leaves every other one alone. */
    twostate predicate Queued(c: Conn, data: seq<byte>, new canCreate: bool, new canGrow: bool, new ok: bool)
      requires old(c.Conserves())
      reads *
    {
      && ok == old(c.Accepts(|data|, canCreate, canGrow))
      && c.appended == old(c.appended) + (if ok then data else [])
      && c.taken == old(c.taken) && c.delivered == old(c.delivered) && c.misled == old(c.misled)
      && c.state == old(c.state)
      && (!ok ==> c.HasUnsent() == old(c.HasUnsent())) && c.Busy() == old(c.Busy())
      && (old(c.wb) != null ==> c.wb == old(c.wb)) && (ok ==> c.wb != null)
      && forall d | d in conns && d != c :: d.Now() == old(d.Now())
    }

    /** The memory of a connection is its own, old or new. */
    twostate lemma ApartAfterQueue(c: Conn)
      requires old(Apart()) && c in conns && fresh(c.Memory() - old(c.Memory()))
      requires owner == if c.wb == null then old(owner) else old(owner)[c.wb := c][c.wb.buffer := c]
      requires old(c.wb) == null || old(c.wb) == c.wb
      requires forall d | d in conns && d != c :: d.Now() == old(d.Now())
      ensures Apart() && fresh(owner.Keys - old(owner.Keys))
    {
    }

    /** Appends to the connection's queue, creating the buffer on first use. */
    method QueueAlone(c: Conn, data: seq<byte>, canCreate: bool, canGrow: bool) returns (ok: bool)
      requires DirtyOk() && Apart() && c in conns && c.Conserves() && c.Queueable()
      modifies c`wb, c`appended, c.Memory()
      ensures DirtyOk() && c.Conserves() && fresh(c.Memory() - old(c.Memory()))
              && Queued(c, data, canCreate, canGrow, ok)
      ensures c.Look() == old(c.Look()).Queued(data, canCreate, canGrow)
              && ok == old(c.Look()).Accepts(|data|, canCreate, canGrow)
    {
      hide Conn.Conserves, Conn.Relays, Conn.Look, Conn.Accepts, Slot.Queued, Slot.Accepts;
      ok := c.Queue(data, canCreate, canGrow);
    }

    /** Accounts a connection's memory to it. */
    ghost method Own(c: Conn)
      requires DirtyOk() && c.Conserves()
      modifies this`owner
      ensures DirtyOk() && c.Conserves()
      ensures owner == if c.wb == null then old(owner) else old(owner)[c.wb := c][c.wb.buffer := c]
    {
      if c.wb != null {
        owner := owner[c.wb := c][c.wb.buffer := c];
      }
    }

    /** The same, with the memory accounted to the connection. */
    method QueueOwned(c: Conn, data: seq<byte>, canCreate: bool, canGrow: bool) returns (ok: bool)
      requires DirtyOk() && Apart() && c in conns && c.Conserves() && c.Queueable()
      modifies this`owner, c`wb, c`appended, c.Memory()
      ensures DirtyOk() && Apart() && c.Conserves() && Queued(c, data, canCreate, canGrow, ok)
      ensures fresh(owner.Keys - old(owner.Keys))
      ensures c.Look() == old(c.Look()).Queued(data, canCreate, canGrow)
              && ok == old(c.Look()).Accepts(|data|, canCreate, canGrow)
    {
      hide DirtyOk, Apart, Conn.Conserves, Conn.Relays, Conn.Look;
      ok := QueueAlone(c, data, canCreate, canGrow);
      label Queued:
      Own(c);
      LooksLike@Queued(c);
      ApartAfterQueue(c);
    }

    /** `daemon_mark_connection_dirty` changes nothing but the list. */
    method MarkQueued(c: Conn)
      requires DirtyOk() && Apart() && c in conns && c.Conserves()
      modifies this`dirty, this`dirtyHead, this`dirtyTail, Slots()`dirtyNext, Slots()`onDirtyList
      ensures DirtyOk() && dirty == if c in old(dirty) then old(dirty) else old(dirty) + [c]
      ensures Apart() && c.Conserves() && forall d | d in conns :: d.Now() == old(d.Now())
    {
      hide DirtyOk, Conn.Conserves, Conn.Relays, Conn.Now;
      MarkDirty(c);
      LinksOnly();
      StillConserves(c);
    }

    /** `conn_set_state` changes nothing but the state; what was relayed is noted. */
    method MoveTo(c: Conn, after: ConnState, next: Relay)
      requires DirtyOk() && Apart() && c in conns && c.Conserves() && c.CanMove(after) && c.wb != null
      modifies c`state, c`relay
      ensures DirtyOk() && Apart() && c.Conserves() && c.Now() == old(c.Now()).(state := after, relay := next)
      ensures forall d | d in conns && d != c :: d.Now() == old(d.Now())
    {
      c.state := after;
      c.relay := next;
    }

    /** Both, as after an append that succeeded. */
    method MarkAndMove(c: Conn, after: ConnState, next: Relay)
      requires DirtyOk() && Apart() && c in conns && c.Conserves() && c.wb != null
      requires after == CurlActive || after == Closing
      modifies this`dirty, this`dirtyHead, this`dirtyTail, Slots()`dirtyNext, Slots()`onDirtyList, c`state, c`relay
      ensures DirtyOk() && Apart() && c.Conserves() && c.Now() == old(c.Now()).(state := after, relay := next)
      ensures dirty == if c in old(dirty) then old(dirty) else old(dirty) + [c]
      ensures forall d | d in conns && d != c :: d.Now() == old(d.Now())
    {
      hide DirtyOk, Apart, Conn.Conserves, Conn.Relays;
      MarkQueued(c);
      MoveTo(c, after, next);
    }

    /** What append, mark and move do to their connection, and that they leave every other one alone. */
    twostate predicate Pushed(c: Conn, data: seq<byte>, new after: ConnState, new next: Relay, new ok: bool)
      reads *
    {
      && c.appended == old(c.appended) + (if ok then data else [])
      && c.taken == old(c.taken) && c.delivered == old(c.delivered) && c.misled == old(c.misled)
      && c.state == (if ok then after else old(c.state)) && c.relay == (if ok then next else old(c.relay))
      && dirty == (if ok && c !in old(dirty) then old(dirty) + [c] else old(dirty))
      && (!ok ==> c.HasUnsent() == old(c.HasUnsent())) && c.Busy() == old(c.Busy()) && (ok ==> c.wb != null)
      && forall d | d in conns && d != c :: d.Now() == old(d.Now())
    }

    twostate lemma LookMoved(c: Conn, new state: ConnState, new next: Relay)
      requires c.Now() == old(c.Now()).(state := state, relay := next)
      ensures c.Look() == old(c.Look()).(state := state, relay := next)
    {
    }

    /** Append, mark dirty and move to the next state, as one step. */
    method PushSteps(c: Conn, data: seq<byte>, after: ConnState, next: Relay, canCreate: bool, canGrow: bool)
      returns (ok: bool)
      requires DirtyOk() && Apart() && c in conns && c.Conserves() && c.Queueable()
      requires after == CurlActive || after == Closing
      modifies this`dirty, this`dirtyHead, this`dirtyTail, this`owner, Slots()`dirtyNext, Slots()`onDirtyList
      modifies c`wb, c`appended, c`state, c`relay, c.Memory()
      ensures DirtyOk() && Apart() && c.Conserves() && fresh(owner.Keys - old(owner.Keys))
      ensures ok == old(c.Accepts(|data|, canCreate, canGrow)) && Pushed(c, data, after, next, ok)
      ensures c.Look() == old(c.Look()).Pushed(data, after, next, canCreate, canGrow)
              && ok == old(c.Look()).Accepts(|data|, canCreate, canGrow)
    {
      hide FreeOk, DirtyOk, Apart, Conn.Conserves, Conn.Relays, Conn.Accepts, Conn.Look, Slot.Queued, Slot.Accepts;
      ok := QueueOwned(c, data, canCreate, canGrow);
      label Queued:
      if ok {
        MarkAndMove(c, after, next);
        LookMoved@Queued(c, after, next);
      }
    }

    twostate lemma RelayPushed(c: Conn, new data: seq<byte>, new after: ConnState, new next: Relay, new ok: bool)
      requires old(c.Relays()) && Pushed(c, data, after, next, ok) && next.Wire() == old(c.relay).Wire() + data
      requires next.Faithful() && (after == Closing || (after == CurlActive && next.headers && !next.done))
      ensures c.Relays()
    {
    }

    /** That leaves the free list and the ring alone. */
    method PushAlone(c: Conn, data: seq<byte>, after: ConnState, next: Relay, canCreate: bool, canGrow: bool)
      returns (ok: bool)
      requires FreeOk() && DirtyOk() && Apart() && RingOk() && c in conns && c.Conserves() && c.Queueable()
      requires after == CurlActive || after == Closing
      requires c.Relays() && next.Wire() == c.relay.Wire() + data && next.Faithful()
      requires after == CurlActive ==> next.headers && !next.done
      modifies this`dirty, this`dirtyHead, this`dirtyTail, this`owner, Slots()`dirtyNext, Slots()`onDirtyList
      modifies c`wb, c`appended, c`state, c`relay, c.Memory()
      ensures FreeOk() && DirtyOk() && Apart() && RingOk() && c.Conserves() && c.Relays()
      ensures fresh(owner.Keys - old(owner.Keys))
      ensures ok == old(c.Accepts(|data|, canCreate, canGrow)) && Pushed(c, data, after, next, ok)
      ensures c.Look() == old(c.Look()).Pushed(data, after, next, canCreate, canGrow)
              && ok == old(c.Look()).Accepts(|data|, canCreate, canGrow)
    {
      hide FreeOk, DirtyOk, Apart, RingOk, Pushed, Conn.Conserves, Conn.Relays, Conn.Accepts, Conn.Look, Slot.Pushed,
           Slot.Accepts;
      ok := PushSteps(c, data, after, next, canCreate, canGrow);
      FreeKept();
      RingKept();
      RelayPushed(c, data, after, next, ok);
    }

    /** What held of a connection before. */
    twostate lemma Before(c: Conn)
      requires old(Inv()) && c in conns
      ensures old(Core(c) && (c.HasUnsent() && !c.Busy() ==> c in dirty) && (c.Sending() ==> c.ticket.Some?))
      ensures old(c in dirty ==> c.state == CurlActive || c.state == Closing)
    {
    }

    twostate lemma AfterPush(c: Conn, new data: seq<byte>, new after: ConnState, new next: Relay, new ok: bool)
      requires old(Inv()) && c in conns && old(c.state) != Unused && (after == CurlActive || after == Closing)
      requires FreeOk() && DirtyOk() && Apart() && RingOk() && c.Conserves() && c.Relays()
      requires Pushed(c, data, after, next, ok)
      requires unchanged(this`free, this`active, this`peak, this`tally, c`flight, c`out, c`ticket)
      ensures Inv()
    {
      hide Core, FreeOk, DirtyOk, Apart, RingOk, Ringing, Conn.Conserves, Conn.Relays, Conn.Now, Conn.HasUnsent,
           Conn.Busy;
      Before(c);
      AfterWork(c);
      NotStranded(c);
    }

    method PushOn(c: Conn, data: seq<byte>, after: ConnState, next: Relay, canCreate: bool, canGrow: bool)
      returns (ok: bool)
      requires Inv() && c in conns && c.state != Unused && c.Queueable() && (after == CurlActive || after == Closing)
      requires next.Wire() == c.relay.Wire() + data && next.Faithful()
      requires after == CurlActive ==> next.headers && !next.done
      modifies this`dirty, this`dirtyHead, this`dirtyTail, this`owner, Slots()`dirtyNext, Slots()`onDirtyList
      modifies c`wb, c`appended, c`state, c`relay, c.Memory()
      ensures Inv() && fresh(owner.Keys - old(owner.Keys))
      ensures old(c.Conserves()) && ok == old(c.Accepts(|data|, canCreate, canGrow)) && Pushed(c, data, after, next, ok)
      ensures c.Look() == old(c.Look()).Pushed(data, after, next, canCreate, canGrow)
              && ok == old(c.Look()).Accepts(|data|, canCreate, canGrow)
    {
      hide Inv, Core, FreeOk, DirtyOk, Apart, RingOk, Ringing, Conn.Conserves, Conn.Relays, Conn.Now, Conn.Accepts,
           Pushed, Relay.Wire, Relay.Faithful, Conn.Look, Slot.Pushed, Slot.Accepts;
      Excepting(c);
      Open(c);
      RelayKnown(c);
      ok := PushAlone(c, data, after, next, canCreate, canGrow);
      AfterPush(c, data, after, next, ok);
    }

    /**
     * The append-then-mark sites of curl_manager.c: the header block (which makes the connection
     * active), every frame, and the end marker (which makes it closing).
     */
    method Push(c: Conn, data: seq<byte>, after: ConnState, next: Relay, canCreate: bool, canGrow: bool)
      returns (ok: bool)
      requires Inv() && c in conns && c.state != Unused && c.Queueable() && (after == CurlActive || after == Closing)
      requires next.Wire() == c.relay.Wire() + data && next.Faithful()
      requires after == CurlActive ==> next.headers && !next.done
      modifies this`dirty, this`dirtyHead, this`dirtyTail, this`owner, Slots()`dirtyNext, Slots()`onDirtyList
      modifies c`wb, c`appended, c`state, c`relay, c.Memory()
      ensures Inv() && fresh(owner.Keys - old(owner.Keys))
      ensures old(c.Conserves()) && ok == old(c.Accepts(|data|, canCreate, canGrow)) && Pushed(c, data, after, next, ok)
      ensures (Snap(), ok) == LoopMachine.Pushed(old(Snap()), c, data, after, next, canCreate, canGrow)
    {
      hide Inv, Conn.Conserves, Conn.Accepts, Conn.Now, Relay.Wire, Relay.Faithful, Snap, Conn.Look, Slot.Pushed,
           Slot.Accepts;
      SnapParts();
      ok := PushOn(c, data, after, next, canCreate, canGrow);
      SnapChanged(c);
    }

    /**
     * `curl_manager_check_completions` for one request: the end marker if it succeeded and any headers were sent,
     * then closing.
     */
    method RequestDone(c: Conn, success: bool, canGrow: bool)
      requires Inv() && c in conns && (c.state == CurlPending || c.state == CurlActive)
      modifies this`dirty, this`dirtyHead, this`dirtyTail, this`owner, Slots()`dirtyNext, Slots()`onDirtyList
      modifies c`wb, c`appended, c`state, c`relay, c.Memory()
      ensures Inv() && c.state == Closing && fresh(owner.Keys - old(owner.Keys))
      ensures old(c.Conserves())
      ensures var done := success && old(c.relay.headers && c.wb != null && c.Accepts(|SSE_DONE|, false, canGrow));
              c.relay == old(c.relay).(done := done) && (done ==> c in dirty)
      ensures Snap() == LoopMachine.RequestEnded(old(Snap()), c, success, canGrow)
    {
      hide Inv, Core, Conn.Conserves, Conn.Relays, Conn.Accepts, Relay.Wire, Relay.Faithful, Snap, Conn.Look,
           LoopMachine.Pushed;
      InSnap(c);
      Looks(c);
      Excepting(c);
      Open(c);
      RelayKnown(c);
      var ok := false;
      if success && c.relay.headers && c.wb != null {
        DoneNext(c.relay);
        ok := Push(c, SSE_DONE, Closing, c.relay.(done := true), false, canGrow);
      }
      if !ok {
        SetState(c, Closing);
      }
    }

    /** `Conn.Submit` touches one connection only. */
    method SubmitAlone(c: Conn)
      requires Core(c) && c in conns && c.HasUnsent() && !c.Busy() && c.state != CurlPending
      modifies c.wb`pending, c`flight
      ensures FreeOk() && DirtyOk() && Apart() && c.Conserves() && c.Busy() && c.HasUnsent()
      ensures c.flight.Some? && |c.flight.value.bytes| == old(c.wb.head - c.wb.tail)
      ensures forall d | d in conns && d != c :: d.Now() == old(d.Now())
    {
      hide StatesOk, NoneStranded, RingOk, Ringing, Conn.Conserves, Conn.Relays;
      c.Submit();
    }

    lemma NotWaiting(c: Conn)
      requires Core(c) && c in conns && c.wb != null && !c.Busy()
      ensures !c.Sending() && c.ticket == None && RingOk()
    {
      assert c.Conserves();
    }

    method SubmitSlot(c: Conn)
      requires Core(c) && c in conns && c.state != Unused && c.HasUnsent() && !c.Busy() && c.state != CurlPending
      modifies this`ring, c.wb`pending, c`flight, c`ticket
      ensures Core(null) && c.Busy() && c.HasUnsent() && Handed(c, old(ring), old(c.wb.head - c.wb.tail), true, true)
      ensures forall d | d in conns && d != c :: d.Now() == old(d.Now())
    {
      hide Core, FreeOk, DirtyOk, Apart, RingOk, Ringing, Conn.Now, Conn.Conserves, Conn.Relays;
      Open(c);
      NotWaiting(c);
      SubmitAlone(c);
      RingDuringWork(c);
      label Submitted:
      HandOver(c, |c.flight.value.bytes|, true, true);
      TicketOnly@Submitted(c);
      AfterWork(c);
      NotStranded(c);
    }

    /** Everything queued goes to the ring; nothing else changes. */
    method SubmitQueued(c: Conn)
      requires Core(c) && c in conns && c.state != Unused && c.HasUnsent() && !c.Busy() && c.state != CurlPending
      modifies this`ring, c.wb`pending, c`flight, c`ticket
      ensures Core(null) && c.Busy() && c.HasUnsent() && Handed(c, old(ring), old(c.wb.head - c.wb.tail), true, true)
      ensures forall d | d in conns && d != c :: d.Now() == old(d.Now())
      ensures c.Look() == old(c.Look()).Submitted().(ticket := c.ticket)
      ensures Snap() == old(Snap()).Waits(c, old(c.Look()).Submitted(), old(c.Look()).Unsent())
    {
      hide Core, Conn.Now, Conn.Conserves, Snap, Conn.Look, Slot.Unsent, Slot.Submitted;
      SnapParts();
      Looks(c);
      SubmitSlot(c);
      LooksSubmitted(c);
      SnapChanged(c);
    }

    /** Nothing a client could see of the connection changed. */
    twostate predicate Untouched(c: Conn)
      reads c, c.wb
    {
      && c.state == old(c.state) && c.wb == old(c.wb) && c.HasUnsent() == old(c.HasUnsent())
      && c.appended == old(c.appended) && c.taken == old(c.taken) && c.delivered == old(c.delivered)
      && c.misled == old(c.misled)
    }

    /** A submission of what is queued, where there is anything to submit. */
    twostate predicate Offered(c: Conn, new writeOk: bool, new linkOk: bool)
      reads this`ring, c`ticket
    {
      if old(c.HasUnsent() && !c.Busy()) then Handed(c, old(ring), old(c.wb.head - c.wb.tail), writeOk, linkOk)
      else RingSame() && c.ticket == old(c.ticket)
    }

    lemma PendingIsLater(c: Conn)
      requires Inv() && c in conns && c.HasUnsent() && !c.Busy()
      ensures c.state != CurlPending
    {
    }

    /**
     * `try_immediate_write`: a refused submission is left to the next flush, and a refused timeout is done without.
     */
    method TryImmediateWrite(c: Conn, writeOk: bool)
      requires Inv() && c in conns && c.state != Unused
      modifies this`ring, c`flight, c`ticket, c.Buffer()`pending
      ensures Inv() && dirty == old(dirty)
      ensures c.Busy() <==> old(c.Busy() || (c.HasUnsent() && writeOk))
      ensures if writeOk then Offered(c, true, true) else RingSame()
      ensures Untouched(c) && forall d | d in conns && d != c :: d.Now() == old(d.Now())
      ensures Snap() == LoopMachine.Tried(old(Snap()), c, writeOk)
    {
      hide Core, Conn.Now, Snap, Conn.Look, Slot.Unsent, Slot.Submitted, Slot.Busy;
      InSnap(c);
      Looks(c);
      if c.wb == null || !c.wb.HasData() || c.wb.pending || !writeOk {
        return;
      }
      Excepting(c);
      PendingIsLater(c);
      SubmitQueued(c);
    }

    method NoteSlot(c: Conn, next: Relay)
      requires Inv() && c in conns && (c.state == CurlPending || c.state == CurlActive)
      requires next.Wire() == c.relay.Wire() && next.Faithful() && next.headers == c.relay.headers && !next.done
      modifies c`relay
      ensures Inv() && c.relay == next
    {
      hide Core, FreeOk, DirtyOk, Apart, RingOk, Ringing, Conn.Now, Conn.Conserves, Conn.Relays, Conn.Single;
      Excepting(c);
      Open(c);
      RelayKnown(c);
      c.relay := next;
      c.IsRelay();
      SameBytes(c);
      LocalWork(c);
      NotStranded(c);
    }

    /** Bookkeeping of what is relayed, with nothing queued. */
    method Note(c: Conn, next: Relay)
      requires Inv() && c in conns && (c.state == CurlPending || c.state == CurlActive)
      requires next.Wire() == c.relay.Wire() && next.Faithful() && next.headers == c.relay.headers && !next.done
      modifies c`relay
      ensures Inv() && c.relay == next
      ensures c.Look() == old(c.Look()).(relay := next)
      ensures Snap() == old(Snap()).With(c, old(Snap()).Of(c).(relay := next))
    {
      hide Inv, Conn.Now, Snap, Conn.Look, Relay.Wire, Relay.Faithful;
      NoteSlot(c, next);
      FieldsWorked(c);
    }

    lemma BuffersOwned()
      requires Inv()
      ensures Buffers() <= owner.Keys
    {
    }

    lemma InOwner(c: Conn)
      requires Inv() && c in conns
      ensures c.Memory() <= owner.Keys && c.Buffer() <= owner.Keys && c.Conserves()
      ensures c.appended == c.relay.Wire() && c.relay.Faithful() && c.Relaying(c.state)
    {
    }

    /** `try_immediate_write`, as the callbacks of a request call it. */
    method TryNow(c: Conn, writeOk: bool)
      requires Inv() && c in conns && c.state != Unused
      modifies this`ring, c`flight, c`ticket, c.Buffer()`pending
      ensures Inv() && ring.abandoned == old(ring).abandoned
      ensures Snap() == LoopMachine.Tried(old(Snap()), c, writeOk)
    {
      hide Inv, Untouched, Snap, LoopMachine.Tried;
      TryImmediateWrite(c, writeOk);
    }

    /** Appends what is relayed next. */
    method PushNext(c: Conn, data: seq<byte>, next: Relay, call: AppendCall) returns (ok: bool)
      requires Inv() && c in conns && (c.state == CurlPending || c.state == CurlActive) && c.Conserves()
      requires next.Wire() == c.relay.Wire() + data && next.Faithful() && next.headers && !next.done
      modifies this`dirty, this`dirtyHead, this`dirtyTail, this`owner, Slots()`dirtyNext, Slots()`onDirtyList
      modifies c`wb, c`appended, c`state, c`relay, c.Memory()
      ensures Inv() && fresh(owner.Keys - old(owner.Keys))
      ensures ok == old(c.Accepts(|data|, call.canCreate, call.canGrow))
      ensures if ok then c.relay == next && c.state == CurlActive
              else c.relay == old(c.relay) && c.state == old(c.state)
      ensures (Snap(), ok) == LoopMachine.Pushed(old(Snap()), c, data, CurlActive, next, call.canCreate, call.canGrow)
    {
      hide Inv, Conn.Conserves, Conn.Relays, Conn.Accepts, Conn.Now, Relay.Wire, Relay.Faithful, Snap,
           LoopMachine.Pushed;
      ok := Push(c, data, CurlActive, next, call.canCreate, call.canGrow);
    }

    /** Queues what is relayed next, and submits at once what it can. */
    method RelayNext(c: Conn, data: seq<byte>, next: Relay, call: AppendCall) returns (ok: bool)
      requires Inv() && c in conns && (c.state == CurlPending || c.state == CurlActive) && c.Conserves()
      requires next.Wire() == c.relay.Wire() + data && next.Faithful() && next.headers && !next.done
      modifies this`dirty, this`dirtyHead, this`dirtyTail, this`owner, this`ring, Slots()`dirtyNext, Slots()`onDirtyList
      modifies c`wb, c`appended, c`state, c`relay, c`flight, c`ticket, owner.Keys
      ensures Inv() && fresh(owner.Keys - old(owner.Keys)) && ring.abandoned == old(ring).abandoned
      ensures ok == old(c.Accepts(|data|, call.canCreate, call.canGrow))
      ensures if ok then c.relay == next && c.state == CurlActive
              else c.relay == old(c.relay) && c.state == old(c.state)
      ensures (Snap(), ok) == LoopMachine.Relayed(old(Snap()), c, data, next, call)
    {
      hide Inv, Untouched, Conn.Conserves, Conn.Relays, Conn.Accepts, Relay.Wire, Relay.Faithful,
           LineAssembly.FoundLines, LineAssembly.Kept, Snap, LoopMachine.Pushed, LoopMachine.Tried;
      InOwner(c);
      ok := PushNext(c, data, next, call);
      if ok {
        InOwner(c);
        TryNow(c, call.writeOk);
      }
    }

    /** `process_sse_line`: the frame of a line is queued, or the line has none, or the transfer is given up. */
    method HandleLine(c: Conn, line: seq<byte>, call: AppendCall) returns (ok: bool)
      requires Inv() && c in conns && c.state == CurlActive && c.relay.behind && c.Conserves() && NUL !in line
      requires c.relay.lines + [line] <= LineAssembly.FoundLines(c.relay.upstream)
      modifies this`dirty, this`dirtyHead, this`dirtyTail, this`owner, this`ring, Slots()`dirtyNext, Slots()`onDirtyList
      modifies c`wb, c`appended, c`state, c`relay, c`flight, c`ticket, owner.Keys
      ensures Inv() && fresh(owner.Keys - old(owner.Keys)) && ring.abandoned == old(ring).abandoned
      ensures ok == old(FrameFor(line) == [] || c.Accepts(|FrameFor(line)|, call.canCreate, call.canGrow))
      ensures c.relay == (if ok then old(c.relay).(lines := old(c.relay.lines) + [line]) else old(c.relay))
              && c.state == CurlActive
      ensures (Snap(), ok) == LoopMachine.LineTaken(old(Snap()), c, line, call)
    {
      hide Inv, Pushed, Untouched, Conn.Conserves, Conn.Relays, Conn.Accepts, Relay.Wire, Relay.Faithful,
           LineAssembly.FoundLines, LineAssembly.Kept, Snap, Conn.Look, LoopMachine.Relayed, LoopMachine.Snapshot.Of,
           LoopMachine.Snapshot.With;
      InOwner(c);
      InSnap(c);
      Looks(c);
      LineNext(c.relay, line);
      var frame := SseFormat.ProcessSseLine(line);
      var later := c.relay.(lines := c.relay.lines + [line]);
      match frame {
        case None =>
          Note(c, later);
          ok := true;
        case Some(bytes) =>
          ok := RelayNext(c, bytes, later, call);
      }
    }

    /** The loop over the complete lines of a chunk: `n` of them are handled. */
    method HandleLines(c: Conn, lines: seq<seq<byte>>, calls: seq<AppendCall>, first: nat) returns (n: nat)
      requires Inv() && c in conns && c.state == CurlActive && c.relay.behind
      requires c.relay.lines + lines == LineAssembly.FoundLines(c.relay.upstream)
      modifies this`dirty, this`dirtyHead, this`dirtyTail, this`owner, this`ring, Slots()`dirtyNext, Slots()`onDirtyList
      modifies c`wb, c`appended, c`state, c`relay, c`flight, c`ticket, owner.Keys
      ensures Inv() && fresh(owner.Keys - old(owner.Keys)) && ring.abandoned == old(ring).abandoned
      ensures n <= |lines| && c.state == CurlActive
      ensures c.relay == old(c.relay).(lines := old(c.relay.lines) + lines[..n])
      ensures (Snap(), n) == LoopMachine.LinesTaken(old(Snap()), c, lines, calls, first)
    {
      hide Inv, Pushed, Untouched, Conn.Conserves, Conn.Relays, Conn.Accepts, Relay.Wire, Relay.Faithful,
           LineAssembly.FoundLines, LineAssembly.Kept, Snap, LoopMachine.LineTaken, LoopMachine.Onward, FrameFor;
      n := 0;
      LoopMachine.LinesBegin(Snap(), c, lines, calls, first);
      FoundLinesClean(c.relay.upstream);
      while n < |lines|
        invariant n <= |lines| && Inv() && fresh(owner.Keys - old(owner.Keys))
        invariant c.relay == old(c.relay).(lines := old(c.relay.lines) + lines[..n]) && c.state == CurlActive
        invariant ring.abandoned == old(ring).abandoned
        invariant LoopMachine.Onward(old(Snap()), c, lines, calls, first, n, Snap())
      {
        InOwner(c);
        NextLine(old(c.relay.lines), lines, n);
        ghost var now := Snap();
        var ok := HandleLine(c, lines[n], AppendFor(calls, first + n));
        LoopMachine.OneLineOn(old(Snap()), c, lines, calls, first, n, now, Snap(), ok);
        if !ok {
          return;
        }
        n := n + 1;
      }
      LoopMachine.LinesEnd(old(Snap()), c, lines, calls, first, Snap());
    }

    /** The end of a chunk: the unfinished line is held back, and what is queued is submitted. */
    method FinishChunk(c: Conn, held: seq<byte>, writeOk: bool)
      requires Inv() && c in conns && c.state == CurlActive
      requires c.relay.lines == LineAssembly.FoundLines(c.relay.upstream) && held == LineAssembly.Kept(c.relay.upstream)
      modifies this`ring, c`relay, c`flight, c`ticket, c.Buffer()`pending
      ensures Inv() && ring.abandoned == old(ring).abandoned
      ensures c.relay == old(c.relay).(held := held, behind := false)
      ensures var slot := old(Snap()).Of(c);
              var done := old(Snap()).With(c, slot.(relay := slot.relay.(held := held, behind := false)));
              Snap() == LoopMachine.Tried(done, c, writeOk)
    {
      hide Inv, Conn.Conserves, Conn.Relays, Relay.Wire, Relay.Faithful, LineAssembly.FoundLines, LineAssembly.Kept,
           Snap, Conn.Look, LoopMachine.Tried;
      InOwner(c);
      InSnap(c);
      Looks(c);
      ChunkDone(c.relay, held);
      Note(c, c.relay.(held := held, behind := false));
      TryNow(c, writeOk);
    }

    /** A chunk after the headers. */
    method TakeChunk(c: Conn, chunk: seq<byte>, calls: seq<AppendCall>) returns (ok: bool)
      requires Inv() && c in conns && c.state == CurlActive && !c.relay.behind
      modifies this`dirty, this`dirtyHead, this`dirtyTail, this`owner, this`ring, Slots()`dirtyNext, Slots()`onDirtyList
      modifies c`wb, c`appended, c`state, c`relay, c`flight, c`ticket, owner.Keys
      ensures Inv() && fresh(owner.Keys - old(owner.Keys)) && ring.abandoned == old(ring).abandoned
      ensures c.state == CurlActive && Taken(old(c.relay), chunk, c.relay, ok)
      ensures (Snap(), ok) == LoopMachine.ChunkTaken(old(Snap()), c, chunk, calls)
    {
      hide Inv, Untouched, Conn.Conserves, Conn.Relays, Conn.Accepts, Relay.Wire, Relay.Faithful,
           LineAssembly.FoundLines, LineAssembly.Kept, Snap, Conn.Look, LoopMachine.LinesTaken, LoopMachine.Tried,
           LoopMachine.Snapshot.Of, LoopMachine.Snapshot.With;
      InOwner(c);
      InSnap(c);
      Looks(c);
      ChunkNext(c.relay, chunk);
      var found, held := LineAssembly.FoundLines(c.relay.held + chunk), LineAssembly.Kept(c.relay.held + chunk);
      Note(c, c.relay.(upstream := c.relay.upstream + chunk, behind := true));
      var n := HandleLines(c, found, calls, 1);
      if n < |found| {
        return false;
      }
      assert found[..n] == found;
      InOwner(c);
      FinishChunk(c, held, AppendFor(calls, 1 + n).writeOk);
      ok := true;
    }

    /**
     * `write_callback`: the headers before the first chunk, then the frames of its complete lines; the unfinished one
     * is held back.  When an append is refused or memory runs out the transfer is given up.
     */
    method WriteCallback(c: Conn, chunk: seq<byte>, room: bool, calls: seq<AppendCall>) returns (ok: bool)
      requires Inv() && c in conns && (c.state == CurlPending || c.state == CurlActive) && !c.relay.behind
      modifies this`dirty, this`dirtyHead, this`dirtyTail, this`owner, this`ring, Slots()`dirtyNext, Slots()`onDirtyList
      modifies c`wb, c`appended, c`state, c`relay, c`flight, c`ticket, owner.Keys
      ensures Inv() && fresh(owner.Keys - old(owner.Keys)) && ring.abandoned == old(ring).abandoned
      ensures Taken(old(c.relay), chunk, c.relay, ok) && (ok ==> c.state == CurlActive)
      ensures (Snap(), ok) == LoopMachine.BytesTaken(old(Snap()), c, chunk, room, calls)
    {
      hide Inv, Untouched, Conn.Conserves, Conn.Relays, Conn.Accepts, Relay.Wire, Relay.Faithful,
           LineAssembly.FoundLines, LineAssembly.Kept, Snap, Conn.Look, LoopMachine.ChunkTaken, LoopMachine.Relayed;
      InOwner(c);
      InSnap(c);
      Looks(c);
      ok := true;
      if !c.relay.headers {
        HeadersNext(c.relay);
        ok := RelayNext(c, SSE_HEADERS, c.relay.(headers := true), AppendFor(calls, 0));
      }
      InOwner(c);
      InSnap(c);
      Looks(c);
      if ok && room {
        ok := TakeChunk(c, chunk, calls);
        return;
      }
      GivenUp(c.relay);
      Note(c, c.relay.(behind := true));
      ok := false;
    }

    /** The ring refuses a submission, or its timeout. */
    method Refuse(c: Conn, writeOk: bool)
      requires Core(c) && Balanced() && c in conns && c.state != Unused && c.HasUnsent() && !c.Busy()
      modifies this, Slots()`dirtyNext, c
      ensures Inv() && Counted(c, Some(Failed), 0) && Handed(c, old(ring), old(c.wb.head - c.wb.tail), writeOk, false)
      ensures c.Blank() && dirty == Without(old(dirty), c)
      ensures Snap() == old(Snap()).Offered(c, old(c.Look().Unsent()), writeOk, false).Ended(c, Failed, 0)
      ensures forall d | d in conns && d != c :: d.Now() == old(d.Now())
    {
      hide Core, RingOk, Conn.Blank, Without, Snap, Conn.Look, Conn.Now;
      SnapParts();
      Looks(c);
      NotWaiting(c);
      label Before:
      HandOver(c, c.wb.head - c.wb.tail, writeOk, false);
      RingOnly@Before(c);
      FieldsWorked@Before(c);
      LoopMachine.Again(old(Snap()).(ring := ring), c, c.Look(), FREE_SLOT);
      Retire(c, Failed);
    }

    /** `start_async_write`: a refused submission ends the connection. */
    method StartAsyncWrite(c: Conn, writeOk: bool, linkOk: bool)
      requires Core(c) && Balanced() && c in conns && c.state != Unused && c.state != CurlPending
      requires c.Sending() ==> c.ticket.Some?
      modifies this, Slots()`dirtyNext, c, c.Buffer()`pending
      ensures Inv() && Offered(c, writeOk, linkOk)
      ensures var ends := old(c.HasUnsent() && !c.Busy()) && !(writeOk && linkOk);
              && Counted(c, if ends then Some(Failed) else None, 0)
              && if ends then c.Blank() && dirty == Without(old(dirty), c)
                 else Untouched(c) && dirty == old(dirty) && (c.Busy() <==> old(c.HasUnsent() || c.Busy()))
      ensures Snap() == LoopMachine.Resent(old(Snap()), c, writeOk, linkOk)
      ensures forall d | d in conns && d != c :: d.Now() == old(d.Now())
    {
      hide Core, RingOk, Without, Conn.Conserves, Conn.Relays, Conn.Blank, Conn.Now, Snap, Conn.Look, Slot.Unsent,
           Slot.Submitted, Slot.Busy;
      InSnap(c);
      Looks(c);
      if c.wb == null || !c.wb.HasData() || c.wb.pending {
        NotStranded(c);
        return;
      }
      if !writeOk {
        Refuse(c, false);
        return;
      }
      if !linkOk {
        Refuse(c, true);
        return;
      }
      SubmitQueued(c);
    }

    /** `Conn.Complete` touches one connection only. */
    method DeliverAlone(c: Conn, n: nat, ghost own: bool)
      requires Core(c) && c in conns && c.wb != null && c.Conserves() && (own ==> c.Completes(n))
      modifies c`flight, c`taken, c`delivered, c`misled, c`out
      modifies c.wb`head, c.wb`tail, c.wb`bytesWritten, c.wb`pending
      ensures FreeOk() && DirtyOk() && Apart() && c.Conserves() && !c.Busy()
      ensures c.taken == old(c.taken + c.Front(n)) && c.appended == old(c.appended) && c.out.sent == old(c.out.sent) + n
      ensures c.wb.head - c.wb.tail == if n < old(c.wb.head - c.wb.tail) then old(c.wb.head - c.wb.tail) - n else 0
      ensures own ==> c.delivered == old(c.delivered + c.flight.value.bytes[..n]) && c.misled == old(c.misled)
      ensures !own ==> c.delivered == old(c.delivered)
      ensures c.Look() == old(c.Look()).Completed(n, own)
      ensures forall d | d in conns && d != c :: d.Now() == old(d.Now())
    {
      hide StatesOk, AllConserve, AllRelay, NoneStranded, RingOk, Ringing, Conn.Conserves, Conn.Relays, Conn.Look,
           Slot.Completed, Layout.Consumed, WriteBuffer.Shape;
      c.Complete(n, own);
    }

    /** A completion of `n` bytes takes as much off the connection's queue. */
    method Deliver(c: Conn, n: nat, ghost own: bool)
      requires Core(c) && Balanced() && c in conns && c.state != Unused && c.wb != null && c.Conserves()
      requires c.ticket == None && if own then c.Completes(n) else ring.abandoned > 0
      modifies c`flight, c`taken, c`delivered, c`misled, c`out
      modifies c.wb`head, c.wb`tail, c.wb`bytesWritten, c.wb`pending
      ensures Core(c) && Balanced() && !c.Busy() && c.wb == old(c.wb)
      ensures c.taken == old(c.taken + c.Front(n)) && c.appended == old(c.appended) && c.out.sent == old(c.out.sent) + n
      ensures c.wb.head - c.wb.tail == if n < old(c.wb.head - c.wb.tail) then old(c.wb.head - c.wb.tail) - n else 0
      ensures own ==> c.delivered == old(c.delivered + c.flight.value.bytes[..n]) && c.misled == old(c.misled)
      ensures !own ==> c.delivered == old(c.delivered)
      ensures !c.HasUnsent() <==> c.taken == c.appended
      ensures c.Look() == old(c.Look()).Completed(n, own)
      ensures forall d | d in conns && d != c :: d.Now() == old(d.Now())
    {
      hide Core, FreeOk, DirtyOk, Apart, RingOk, Ringing, Conn.Now, Conn.Conserves, Conn.Relays, Conn.Look,
           Slot.Completed;
      Open(c);
      DeliverAlone(c, n, own);
      RingDuringWork(c);
      AfterWork(c);
      Emptied(c);
    }

    lemma TrulySent(c: Conn)
      requires c.Conserves() && c.wb != null && !c.misled
      ensures c.taken == c.delivered && c.out.sent == |c.delivered|
    {
    }

    /** The second half of `handle_async_write`: more to send, the end, or nothing to do. */
    method GoOn(c: Conn, writeOk: bool, linkOk: bool) returns (end: Option<Outcome>)
      requires Core(c) && Balanced() && c in conns && (c.state == CurlActive || c.state == Closing)
      requires c.wb != null && !c.Busy()
      modifies this, Slots()`dirtyNext, c, c.wb`pending
      ensures Inv() && Counted(c, end, old(c.out.sent)) && Offered(c, writeOk, linkOk)
      ensures end == if old(c.HasUnsent()) then (if writeOk && linkOk then None else Some(Failed))
                     else if old(c.state) == Closing then Some(Completed) else None
      ensures end == None ==>
                && c.taken == old(c.taken) && c.appended == old(c.appended) && c.delivered == old(c.delivered)
                && c.misled == old(c.misled) && (c.Busy() <==> c.HasUnsent()) && (c.HasUnsent() || c.state != Closing)
                && dirty == old(dirty) && c.wb == old(c.wb)
      ensures Snap() == LoopMachine.GoneOn(old(Snap()), c, writeOk, linkOk)
      ensures forall d | d in conns && d != c :: d.Now() == old(d.Now())
    {
      hide Core, Conn.Conserves, Conn.Relays, Conn.Blank, Conn.Now, Snap, Conn.Look, Slot.Unsent, LoopMachine.Resent;
      end := None;
      InSnap(c);
      Looks(c);
      NotWaiting(c);
      if c.wb.HasData() {
        StartAsyncWrite(c, writeOk, linkOk);
        end := if writeOk && linkOk then None else Some(Failed);
        return;
      }
      NotStranded(c);
      if c.state == Closing {
        end := Some(Completed);
        Retire(c, Completed);
      }
    }

    /** `handle_async_write` once a completion that is no failure is taken off the ring. */
    method AsyncArrived(c: Conn, res: nat, ghost own: bool, writeOk: bool, linkOk: bool) returns (end: Option<Outcome>)
      requires Core(c) && Balanced() && c in conns && (c.state == CurlActive || c.state == Closing)
      requires c.wb != null && c.Conserves()
      requires c.ticket == None && if own then c.Completes(res) else ring.abandoned > 0
      modifies this, Slots()`dirtyNext, c, c.wb
      ensures Inv() && Counted(c, end, old(c.out.sent) + res)
      ensures end == AsyncEnd(old(c.state), old(c.wb.head - c.wb.tail), res, writeOk, linkOk)
      ensures end == None ==>
                && 0 <= res && c.taken == old(c.taken + c.Front(res)) && c.appended == old(c.appended)
                && (c.Busy() <==> c.HasUnsent()) && (c.HasUnsent() || c.state != Closing)
                && c.delivered == old(c.delivered) + (if own then old(c.flight.value.bytes)[..res] else [])
                && (own ==> c.misled == old(c.misled)) && dirty == old(dirty) && c.wb == old(c.wb)
      ensures end == Some(Completed) && own && !old(c.misled) ==>
                0 <= res && old(c.appended == c.delivered + c.flight.value.bytes[..res] && c.out.sent == |c.delivered|)
      ensures Submits(c, old(ring), Leftover(old(c.wb.head - c.wb.tail), res), writeOk, linkOk)
      ensures Snap() == LoopMachine.Drained(old(Snap()), c, own, res, writeOk, linkOk)
      ensures forall d | d in conns && d != c :: d.Now() == old(d.Now())
    {
      hide Inv, Core, Conn.Conserves, Conn.Relays, Conn.Blank, Handed, Conn.Now, Snap, Conn.Look, Slot.Completed,
           LoopMachine.GoneOn, Conn.Agreed, Conn.Queues;
      SnapParts();
      if own {
        c.FlightIsFront(res);
      }
      if !c.misled {
        TrulySent(c);
      }
      Deliver(c, res, own);
      SnapChanged(c);
      end := GoOn(c, writeOk, linkOk);
    }

    /** What a completion of `res` bytes does to a connection that was as `was` says and ends, or not, with `end`. */
    ghost predicate Took(c: Conn, was: View, res: int, own: bool, end: Option<Outcome>)
      requires own ==> was.flight.Some? && res <= |was.flight.value.bytes|
      reads c, c.wb
    {
      && (end == None ==>
            && 0 <= res && c.taken == was.taken + Sketch(was).Front(res) && c.appended == was.appended
            && (c.Busy() <==> c.HasUnsent()) && (c.HasUnsent() || c.state != Closing)
            && c.delivered == was.delivered + (if own then was.flight.value.bytes[..res] else [])
            && (own ==> c.misled == was.misled) && c.wb == was.wb)
      && (end == Some(Completed) && own && !was.misled ==>
            && 0 <= res && was.appended == was.delivered + was.flight.value.bytes[..res]
            && was.out.sent == |was.delivered|)
    }

    lemma WasSo(c: Conn, n: nat)
      requires c.Conserves() && c.wb != null
      ensures var was := c.Now();
              && was.taken == c.taken && was.appended == c.appended && was.delivered == c.delivered && was.wb == c.wb
              && was.misled == c.misled && was.flight == c.flight && was.out == c.out
              && c.wb.Valid() && Sketch(was).Front(n) == c.Front(n)
    {
      c.FrontSeen(n);
    }

    /** Whichever write it waited for. */
    lemma TookLater(c: Conn, was: View, ticket: Option<nat>, res: int, own: bool, end: Option<Outcome>)
      requires own ==> was.flight.Some? && res <= |was.flight.value.bytes|
      ensures Took(c, was.(ticket := ticket), res, own, end) == Took(c, was, res, own, end)
    {
    }

    lemma ConservesStill(c: Conn)
      requires Core(c) && c in conns
      ensures c.Conserves()
    {
    }

    /** The same for every completion. */
    method AsyncOutcome(c: Conn, res: int, ghost own: bool, writeOk: bool, linkOk: bool) returns (end: Option<Outcome>)
      requires Core(c) && Balanced() && c in conns && (c.state == CurlActive || c.state == Closing)
      requires c.wb != null && c.Conserves()
      requires c.ticket == None && if own then c.Completes(res) else ring.abandoned > 0
      modifies this, Slots()`dirtyNext, c, c.wb
      ensures Inv() && Counted(c, end, if res < 0 then 0 else old(c.out.sent) + res)
      ensures end == AsyncEnd(old(c.state), old(c.wb.head - c.wb.tail), res, writeOk, linkOk)
      ensures own ==> old(c.flight).Some? && res <= |old(c.flight).value.bytes|
      ensures old(c.Now()).flight == old(c.flight) && Took(c, old(c.Now()), res, own, end)
      ensures end == None ==> dirty == old(dirty)
      ensures Submits(c, old(ring), Leftover(old(c.wb.head - c.wb.tail), res), writeOk, linkOk)
      ensures Snap() == LoopMachine.Drained(old(Snap()), c, own, res, writeOk, linkOk)
      ensures forall d | d in conns && d != c :: d.Now() == old(d.Now())
    {
      hide Inv, Core, Balanced, Conn.Conserves, Conn.Relays, Conn.Blank, Handed, Conn.Now, Snap, Conn.Look,
           LoopMachine.Drained;
      WasSo(c, if res < 0 then 0 else res);
      if res < 0 {
        LoopMachine.Refused(Snap(), c, own, res, EndOfStream, writeOk, linkOk, c.out.sent);
        Retire(c, Failed);
        return Some(Failed);
      }
      end := AsyncArrived(c, res, own, writeOk, linkOk);
    }

    lemma OwnFlight(c: Conn, len: nat, res: int)
      requires c.wb != null && c.Conserves() && c.InFlight(len) && res <= len
      ensures c.Completes(res)
    {
    }

    /**
     * `handle_async_write`: what the completion takes leaves the queue, and the connection goes on, is
     * finished once it is closing and drained, or fails.  The client has accepted as much if the write that is
     * complete is the one the connection waits for, which it is unless a write was abandoned before.
     */
    method HandleAsyncWrite(c: Conn, k: nat, res: int, writeOk: bool, linkOk: bool) returns (end: Option<Outcome>)
      requires Inv() && k in ring.writes && ring.writes[k].slot == c && res <= ring.writes[k].len
      requires (c.state == CurlActive || c.state == Closing) && c.wb != null && c.Conserves()
      modifies this, Slots()`dirtyNext, c, c.wb
      ensures Inv() && Counted(c, end, if res < 0 then 0 else old(c.out.sent) + res)
      ensures end == AsyncEnd(old(c.state), old(c.wb.head - c.wb.tail), res, writeOk, linkOk)
      ensures var own := old(c.ticket == Some(k));
              && (if own then old(c.Completes(res)) else old(ring).abandoned > 0)
              && Took(c, old(c.Now()), res, own, end)
      ensures end == None ==> dirty == old(dirty)
      ensures var len := Leftover(old(c.wb.head - c.wb.tail), res);
              var rest := old(ring).Without(k);
              ring == if len.Some? then rest.Offered(c, len.value, writeOk, linkOk) else rest
      ensures Snap() == LoopMachine.Drained(LoopMachine.Arrived(old(Snap()), c, k), c, old(c.ticket) == Some(k), res,
                                            writeOk, linkOk)
      ensures forall d | d in conns && d != c :: d.Now() == old(d.Now())
    {
      hide Inv, Core, Conn.Conserves, Conn.Relays, Conn.Now, Snap, Conn.Look, LoopMachine.Drained, LoopMachine.Arrived,
           Took, AsyncEnd, Conn.Single, Handed, Submits, Balanced, Slot.Front, Sketch, Conn.Front;
      RingSlot(k);
      WasSo(c, 0);
      ghost var own, was := c.ticket == Some(k), c.Now();
      if own {
        OwnFlight(c, ring.writes[k].len, res);
      }
      Arrive(c, k);
      ConservesStill(c);
      SnapParts();
      ghost var rest, len := Snap(), Leftover(c.wb.head - c.wb.tail, res);
      end := AsyncOutcome(c, res, own, writeOk, linkOk);
      SubmitsRing(c, rest, len, writeOk, linkOk);
      TookLater(c, was, None, res, own, end);
    }

    // ----- flushing

    twostate lemma AfterUnlink(c: Conn, new was: seq<Conn>, new i: nat)
      requires old(Inv()) && FreeOk() && DirtyOk() && was == old(dirty) && i < |was| && was[i] == c
      requires free == old(free) && dirty == was[..i] + was[i + 1..] && owner == old(owner)
      requires active == old(active) && peak == old(peak)
      requires tally == old(tally)
      requires RingOk() && Ringing(null) && !c.HasUnsent() && forall d | d in conns :: d.Now() == old(d.Now())
      ensures Inv()
    {
      hide Conn.Conserves, Conn.Relays, RingOk, Ringing, AllRelay;
      Cut(was, i);
      StillConserves(c);
      OthersConserve(c);
      RelayKept();
      assert Apart();
      assert StatesOk();
    }

    /** Takes a drained connection off the list in the middle of a walk. */
    method DropDrained(prev: Conn?, c: Conn, ghost i: nat)
      requires Inv() && i < |dirty| && dirty[i] == c && !c.HasUnsent()
      requires prev == if i == 0 then null else dirty[i - 1]
      modifies this`dirty, this`dirtyHead, this`dirtyTail, Slots()`dirtyNext, c`onDirtyList
      ensures Inv() && dirty == old(dirty[..i] + dirty[i + 1..])
      ensures Snap() == old(Snap()).(dirty := dirty)
      ensures forall d | d in conns :: d.Now() == old(d.Now())
    {
      hide DirtyOk, StatesOk, AllConserve, Apart, NoneStranded, Conn.Conserves, Conn.Relays, Conn.Now, Snap;
      SnapParts();
      ghost var was := dirty;
      Unlink(prev, c, i);
      LinksOnly();
      SlotsSame();
      AfterUnlink(c, was, i);
    }

    lemma Listed(c: Conn)
      requires Core(null) && c in dirty
      ensures c in conns && (c.state == CurlActive || c.state == Closing)
    {
    }

    lemma OffList(c: Conn)
      requires Inv() && c in conns && c.state == Unused
      ensures FreeOk() && DirtyOk() && RingOk() && Ringing(null) && c !in dirty && !c.onDirtyList
    {
    }

    /** A freed slot, which the walk may have kept as its previous connection. */
    ghost predicate Freed(prev: Conn?)
      reads prev
    {
      prev != null && prev in conns && prev.state == Unused
    }

    /** Unhooking what is off the list, in front of what follows it, leaves the list as it is. */
    method UnhookUnlisted(prev: Conn?, c: Conn, next: Conn?, ghost i: nat)
      requires DirtyOk() && c in conns && c !in dirty && i <= |dirty| && next == At(dirty, i) && prev != c
      requires prev == (if i == 0 then null else dirty[i - 1]) || (prev != null && prev in conns && prev !in dirty)
      modifies this`dirtyHead, this`dirtyTail, Slots()`dirtyNext, c`onDirtyList
      ensures DirtyOk()
    {
      Unhook(prev, c, next);
      forall k | 0 <= k < |dirty|
        ensures dirty[k].dirtyNext == At(dirty, k + 1)
      {
        assert dirty[k] in conns && dirty[k] != c;
      }
    }

    /** Unhooking a slot that is off the list already, in front of what follows it, changes nothing. */
    method UnhookEnded(prev: Conn?, c: Conn, next: Conn?, ghost i: nat)
      requires Inv() && c in conns && c.state == Unused && i <= |dirty| && next == At(dirty, i) && prev != c
      requires prev == (if i == 0 then null else dirty[i - 1]) || Freed(prev)
      modifies this`dirtyHead, this`dirtyTail, Slots()`dirtyNext, c`onDirtyList
      ensures Inv() && Snap() == old(Snap()) && forall d | d in conns :: d.Now() == old(d.Now())
    {
      hide Inv, FreeOk, DirtyOk, RingOk, Ringing, Conn.Conserves, Conn.Relays, Conn.Now, Snap;
      SnapParts();
      OffList(c);
      if Freed(prev) {
        OffList(prev);
      }
      UnhookUnlisted(prev, c, next, i);
      LinksOnly();
      SlotsSame();
      NothingMoved();
    }

    lemma Successor(list: seq<Conn>, last: Conn)
      requires Chained(list) && last in conns && last.onDirtyList && last.dirtyNext != null
      ensures last.dirtyNext in conns && last.dirtyNext.onDirtyList
    {
      var k :| 0 <= k < |list| && list[k] == last;
      assert At(list, k + 1) == list[k].dirtyNext;
    }

    lemma FirstOnList(list: seq<Conn>)
      requires Chained(list) && dirtyHead != null
      ensures dirtyHead in conns && dirtyHead.onDirtyList
    {
    }

    /** Unhooking a drained connection from a freed slot: no list fits the links and flags any more. */
    method UnhookAstray(prev: Conn, c: Conn, next: Conn?, ghost i: nat)
      requires Inv() && i < |dirty| && dirty[i] == c && Freed(prev)
      modifies this`dirtyHead, this`dirtyTail, Slots()`dirtyNext, c`onDirtyList
      ensures forall list :: !Chained(list)
    {
      hide AllConserve, Apart, NoneStranded;
      OffList(prev);
      Unhook(prev, c, next);
      hide Chained;
      forall list
        ensures !Chained(list)
      {
        if Chained(list) {
          if i == 0 {
            FirstOnList(list);
          } else {
            Successor(list, dirty[i - 1]);
          }
          assert false;
        }
      }
    }

    /** What a flush does with a listed connection. */
    ghost function FateOf(c: Conn, calls: seq<Submission>): Fate
      reads c`wb, c.wb
    {
      var call := CallFor(calls, c.id);
      if c.HasUnsent() && !c.Busy() && !call.Accepted() then Ends(call.stale)
      else if c.wb != null && !c.HasUnsent() && !c.Busy() then Leaves
      else Stays
    }

    /** Nothing is left of the connection. */
    ghost predicate Over(c: Conn)
      reads c
    {
      c.state == Unused && c.wb == null && c.appended == c.taken == c.delivered == [] && !c.misled
    }

    lemma NothingLeft(c: Conn)
      requires Inv() && c in conns && c.state == Unused
      ensures Over(c)
    {
      assert c.Conserves();
    }

    /** What one turn does to its connection. */
    twostate predicate Met(c: Conn, new fate: Fate)
      reads this, c, c.wb
    {
      && Counted(c, if fate.Ends? then Some(Failed) else None, 0)
      && (if fate.Ends? then Over(c) else Untouched(c))
      && (fate.Stays? && c.wb != null ==> c.Busy())
    }

    lemma Waits(c: Conn)
      requires Inv() && c in conns
      ensures c.Sending() ==> c.ticket.Some?
    {
    }

    /** One turn, up to the unhooking: the submission, and whether the buffer, perhaps a freed one, reads as in use. */
    method FlushCall(c: Conn, calls: seq<Submission>, ghost i: nat) returns (keep: bool)
      requires Inv() && i < |dirty| && dirty[i] == c
      modifies this, Slots()`dirtyNext, c, c.Buffer()`pending
      ensures Inv()
      ensures var fate := old(FateOf(c, calls));
              && (keep <==> fate == Stays || fate == Ends(true)) && Met(c, fate)
              && dirty == (if fate.Ends? then old(dirty[..i] + dirty[i + 1..]) else old(dirty))
              && (fate.Leaves? ==> !c.HasUnsent())
      ensures AllLinked(calls) ==> ring.abandoned == old(ring).abandoned
      ensures var call := CallFor(calls, c.id);
              Snap() == LoopMachine.Resent(old(Snap()), c, call.writeOk, call.linkOk)
      ensures forall d | d in conns && d != c :: d.Now() == old(d.Now())
    {
      hide FreeOk, StatesOk, AllConserve, Apart, NoneStranded, RingOk, Ringing, Without, Conn.Conserves, Conn.Relays,
           Conn.Blank, Conn.Now, Snap, LoopMachine.Resent;
      assert c in conns && (c.state == CurlActive || c.state == Closing) by { Listed(c); }
      var call := CallFor(calls, c.id);
      Excepting(c);
      Waits(c);
      WithoutAt(dirty, i);
      StartAsyncWrite(c, call.writeOk, call.linkOk);
      if c.state == Unused {
        NothingLeft(c);
      }
      keep := if c.state == Unused then call.stale else c.wb == null || c.wb.HasData() || c.wb.pending;
    }

    /** The machine foresees the same. */
    lemma FateSeen(c: Conn, calls: seq<Submission>)
      requires c in conns
      ensures LoopMachine.Fated(Snap().Of(c), CallFor(calls, c.id)) == FateOf(c, calls)
    {
      hide Snap, Conn.Look;
      InSnap(c);
      Looks(c);
    }

    lemma TurnStart(prev: Conn?, c: Conn, i: nat)
      requires Inv() && i < |dirty| && dirty[i] == c
      requires prev == (if i == 0 then null else dirty[i - 1]) || Freed(prev)
      ensures c in conns && c.dirtyNext == At(dirty, i + 1) && prev != c && c.state != Unused
      ensures var cut := dirty[..i] + dirty[i + 1..];
              i <= |cut| && At(cut, i) == At(dirty, i + 1) && (i > 0 ==> cut[i - 1] == dirty[i - 1])
              && Without(dirty, c) == cut
      ensures (Freed(prev) <==> prev != if i == 0 then null else dirty[i - 1]) && (prev != null ==> prev in conns)
    {
      hide FreeOk, AllConserve, Apart, NoneStranded;
      WithoutAt(dirty, i);
      Listed(c);
      if i > 0 {
        Listed(dirty[i - 1]);
      }
    }

    /**
     * The unhooking of a turn, the same surgery whatever `c` is; `damaged` is whether it broke the list.  Slot `i`
     * of the list is `c` unless it is over.
     */
    method FlushUnhook(prev: Conn?, c: Conn, next: Conn?, ghost i: nat) returns (damaged: bool)
      requires Inv() && c in conns && prev != c && i <= |dirty| && !c.HasUnsent()
      requires next == if c.state == Unused then At(dirty, i) else At(dirty, i + 1)
      requires c.state != Unused ==> i < |dirty| && dirty[i] == c
      requires (prev == if i == 0 then null else dirty[i - 1]) <==> !Freed(prev)
      requires prev != null ==> prev in conns
      modifies this`dirty, this`dirtyHead, this`dirtyTail, Slots()`dirtyNext, c`onDirtyList
      ensures damaged <==> c.state != Unused && Freed(prev)
      ensures if damaged then forall list :: !Chained(list)
              else Inv() && dirty == if c.state == Unused then old(dirty) else old(dirty[..i] + dirty[i + 1..])
      ensures forall d | d in conns :: d.Now() == old(d.Now())
      ensures !damaged ==> Snap() == old(Snap()).(dirty := dirty)
    {
      hide Inv, Conn.Conserves, Conn.Relays, Conn.Now, Chained, Snap;
      SnapParts();
      damaged := false;
      if c.state == Unused {
        UnhookEnded(prev, c, next, i);
      } else if prev != null && prev.state == Unused {
        UnhookAstray(prev, c, next, i);
        LinksOnly();
        damaged := true;
      } else {
        DropDrained(prev, c, i);
      }
    }

    /** Nothing shows of work on the links. */
    twostate lemma Unseen(new c: Conn)
      requires c in conns && forall d | d in conns && d != c :: d.Now() == old(d.Now())
      ensures c.Now() == old(c.Now()) ==> Untouched(c) && c.Busy() == old(c.Busy())
      ensures forall d | d in conns && d != c :: Untouched(d) && d.Busy() == old(d.Busy())
    {
      assert forall d | d in conns :: d.Now() == old(d.Now()) ==> Untouched(d) && d.Busy() == old(d.Busy());
    }

    /**
     * One turn of the flush loop; `keep` says whether the walk takes this connection as its previous one.  The
     * loop's branch for a listed connection in any other state cannot be taken.
     */
    method FlushOne(prev: Conn?, c: Conn, calls: seq<Submission>, ghost i: nat) returns (keep: bool, damaged: bool)
      requires Inv() && i < |dirty| && dirty[i] == c
      requires prev == (if i == 0 then null else dirty[i - 1]) || Freed(prev)
      modifies this, Slots()`dirtyNext, c, c.Buffer()`pending
      ensures var fate := old(FateOf(c, calls));
              && (damaged <==> fate.Leaves? && old(Freed(prev))) && (keep <==> fate == Stays || fate == Ends(true))
              && Met(c, fate)
              && if damaged then forall list :: !Chained(list)
                 else Inv() && dirty == if fate.Stays? then old(dirty) else old(dirty[..i] + dirty[i + 1..])
      ensures (old(Freed(prev)) ==> Freed(prev)) && (AllLinked(calls) ==> ring.abandoned == old(ring).abandoned)
      ensures forall d | d in conns && d != c :: Untouched(d) && d.Busy() == old(d.Busy())
      ensures !damaged ==> Snap() == LoopMachine.Flushed(old(Snap()), c, CallFor(calls, c.id))
    {
      hide Inv, Conn.Conserves, Conn.Relays, Chained, Counted, AllLinked, Snap, LoopMachine.Resent, LoopMachine.Flushed,
           LoopMachine.Fated, Without, FateOf, At, CallFor, LoopMachine.Snapshot.Of, Ring.Offered, Conn.Now;
      SnapParts();
      TurnStart(prev, c, i);
      FateSeen(c, calls);
      LoopMachine.FlushedAs(Snap(), c, CallFor(calls, c.id));
      var next := c.dirtyNext;
      keep := FlushCall(c, calls, i);
      SnapParts();
      damaged := false;
      label Called:
      if !keep {
        damaged := FlushUnhook(prev, c, next, i);
        Unseen@Called(c);
      }
      Unseen(c);
    }

    /** Not yet visited: what the flush will do with each is still as foreseen. */
    ghost predicate Waiting(rest: seq<Conn>, fates: seq<Fate>, calls: seq<Submission>)
      reads *
    {
      |rest| == |fates| && forall k | 0 <= k < |rest| :: FateOf(rest[k], calls) == fates[k]
    }

    /** Visited and still listed: a write is in flight wherever there is a buffer. */
    ghost predicate Flushed(kept: seq<Conn>)
      reads *
    {
      forall c | c in kept && c.wb != null :: c.Busy()
    }

    twostate lemma OthersWait(w: (seq<Conn>, seq<Fate>, seq<Submission>), new c: Conn)
      requires old(Waiting(w.0, w.1, w.2)) && c !in w.0 && forall d | d in w.0 :: d in conns
      requires forall d | d in conns && d != c :: Untouched(d) && d.Busy() == old(d.Busy())
      ensures Waiting(w.0, w.1, w.2)
    {
    }

    twostate lemma OthersFlushed(kept: seq<Conn>, new c: Conn)
      requires old(Flushed(kept)) && c !in kept && forall d | d in kept :: d in conns
      requires forall d | d in conns && d != c :: Untouched(d) && d.Busy() == old(d.Busy())
      ensures Flushed(kept)
    {
    }

    lemma Head(c: Conn, rest: seq<Conn>, fate: Fate, fates: seq<Fate>, calls: seq<Submission>)
      requires Waiting([c] + rest, [fate] + fates, calls)
      ensures FateOf(c, calls) == fate && Waiting(rest, fates, calls)
    {
      hide FateOf;
      assert ([c] + rest)[0] == c && ([fate] + fates)[0] == fate;
      forall k | 0 <= k < |rest|
        ensures FateOf(rest[k], calls) == fates[k]
      {
        assert ([c] + rest)[k + 1] == rest[k] && ([fate] + fates)[k + 1] == fates[k];
      }
    }

    lemma OneMore(kept: seq<Conn>, c: Conn)
      requires Flushed(kept) && (c.wb != null ==> c.Busy())
      ensures Flushed(kept + [c])
    {
    }

    lemma Links(i: nat)
      requires Inv()
      ensures NoDup(dirty) && dirtyHead == At(dirty, 0) && forall c | c in dirty :: c in conns
      ensures i < |dirty| ==> dirty[i].dirtyNext == At(dirty, i + 1)
    {
    }

    /** One turn of the flush loop, in the middle of the list. */
    method FlushMiddle(prev: Conn?, c: Conn, calls: seq<Submission>, ghost kept: seq<Conn>, ghost rest: seq<Conn>,
        ghost fate: Fate, ghost fates: seq<Fate>)
      returns (keep: bool, damaged: bool)
      requires Inv() && dirty == kept + ([c] + rest) && Waiting([c] + rest, [fate] + fates, calls) && Flushed(kept)
      requires prev == Last(kept) || Freed(prev)
      modifies this, Slots()`dirtyNext, c, c.Buffer()`pending
      ensures (damaged <==> fate.Leaves? && old(Freed(prev))) && (keep <==> fate == Stays || fate == Ends(true))
              && c in conns && Met(c, fate) && (old(Freed(prev)) ==> Freed(prev))
              && (AllLinked(calls) ==> ring.abandoned == old(ring).abandoned)
      ensures forall d | d in conns && d != c :: Untouched(d)
      ensures var now := if fate.Stays? then kept + [c] else kept;
              if damaged then forall list :: !Chained(list)
              else Inv() && dirty == now + rest && Waiting(rest, fates, calls) && Flushed(now)
      ensures !damaged ==> Snap() == LoopMachine.Flushed(old(Snap()), c, CallFor(calls, c.id))
    {
      hide Inv, NoDup, Conn.Conserves, Conn.Relays, Conn.Busy, Conn.HasUnsent, Untouched, Counted, Waiting, Flushed,
           AllLinked, Snap, LoopMachine.Flushed;
      Links(|kept|);
      Middle(dirty, kept, c, rest);
      Head(c, rest, fate, fates, calls);
      keep, damaged := FlushOne(prev, c, calls, |kept|);
      OthersWait((rest, fates, calls), c);
      OthersFlushed(kept, c);
      if fate.Stays? {
        OneMore(kept, c);
      }
    }

    /** What clients could see of all connections. */
    ghost function Seens(): map<Conn, Seen>
      reads *
    {
      map c | c in conns :: Seen(c.state, c.wb, c.HasUnsent(), c.appended, c.taken, c.delivered, c.misled)
    }

    twostate lemma SeenAfter(c: Conn, new fate: Fate)
      requires c in conns && Met(c, fate) && forall d | d in conns && d != c :: Untouched(d)
      ensures Seens() == if fate.Ends? then old(Seens())[c := NOTHING] else old(Seens())
    {
    }

    /** Part way through a flush of `was`: `j` of its connections have met their fates. */
    ghost predicate Walking(prev: Conn?, was: seq<Conn>, fates: seq<Fate>, calls: seq<Submission>, j: nat)
      reads *
    {
      && Inv() && j <= |was| == |fates| && dirty == Staying(was, fates, j) + was[j..]
      && Waiting(was[j..], fates[j..], calls) && Flushed(Staying(was, fates, j))
      && (if Astray(fates, j) then Freed(prev) else prev == Last(Staying(was, fates, j)))
      && forall k | 0 <= k < j :: !(fates[k].Leaves? && Astray(fates, k))
    }

    lemma NotFreed(kept: seq<Conn>)
      requires Inv() && forall c | c in kept :: c in dirty
      ensures !Freed(Last(kept))
    {
      if kept != [] {
        Listed(Last(kept));
      }
    }

    /** One turn of the flush loop. */
    method FlushTurn(prev: Conn?, c: Conn, calls: seq<Submission>, ghost was: seq<Conn>, ghost fates: seq<Fate>,
        ghost j: nat)
      returns (keep: bool, damaged: bool)
      requires Walking(prev, was, fates, calls, j) && j < |was| && c == was[j]
      modifies this, Slots()`dirtyNext, c, c.Buffer()`pending
      ensures damaged <==> fates[j].Leaves? && Astray(fates, j)
      ensures if damaged then forall list :: !Chained(list)
              else Walking(if keep then c else prev, was, fates, calls, j + 1)
      ensures Met(c, fates[j]) && (AllLinked(calls) ==> ring.abandoned == old(ring).abandoned)
      ensures Seens() == if fates[j].Ends? then old(Seens())[c := NOTHING] else old(Seens())
      ensures !damaged ==> Snap() == LoopMachine.Flushed(old(Snap()), c, CallFor(calls, c.id))
    {
      hide Inv, Untouched, Waiting, Flushed, Seens, Astray, Staying, AllLinked, Snap, LoopMachine.Flushed;
      ghost var rest, later := was[j + 1..], fates[j + 1..];
      assert was[j..] == [c] + rest && fates[j..] == [fates[j]] + later;
      AstrayStep(fates, j);
      StayingStep(was, fates, j);
      NotFreed(Staying(was, fates, j));
      keep, damaged := FlushMiddle(prev, c, calls, Staying(was, fates, j), rest, fates[j], later);
      SeenAfter(c, fates[j]);
    }

    ghost function Fates(list: seq<Conn>, calls: seq<Submission>): (r: seq<Fate>)
      reads *
      ensures |r| == |list| && forall k | 0 <= k < |list| :: r[k] == FateOf(list[k], calls)
    {
      if list == [] then [] else [FateOf(list[0], calls)] + Fates(list[1..], calls)
    }

    lemma FlushStart(calls: seq<Submission>)
      requires Inv()
      ensures Walking(null, dirty, Fates(dirty, calls), calls, 0) && dirtyHead == At(dirty, 0)
      ensures Seens() == After(Seens(), [])
    {
      hide Inv, FateOf;
      Links(0);
      assert dirty[0..] == dirty && Fates(dirty, calls)[0..] == Fates(dirty, calls);
    }

    lemma FlushEnd(prev: Conn?, was: seq<Conn>, fates: seq<Fate>, calls: seq<Submission>, j: nat)
      requires Walking(prev, was, fates, calls, j) && At(was, j) == null
      ensures j == |was| && !Damages(fates) && Inv() && dirty == Staying(was, fates, |was|) && Flushed(dirty)
    {
      hide Inv, Waiting, Flushed, Astray;
      assert Staying(was, fates, j) + was[j..] == Staying(was, fates, j);
    }

    lemma NextWaiting(prev: Conn?, was: seq<Conn>, fates: seq<Fate>, calls: seq<Submission>, j: nat)
      requires Walking(prev, was, fates, calls, j) && j < |was|
      ensures was[j].dirtyNext == At(was, j + 1) && was[j] in conns && was[j] in Slots()
    {
      hide Staying, Waiting, Flushed, Astray;
      var i := |Staying(was, fates, j)|;
      Links(i);
      assert dirty[i] == was[j];
      assert At(dirty, i + 1) == At(was, j + 1);
      assert was[j] in dirty;
    }

    twostate lemma SeenBuffer(c: Conn, new lost: seq<Conn>)
      requires Seens() == After(old(Seens()), lost) && c in conns
      ensures c.Buffer() <= old(Buffers()) && c in old(Seens())
    {
      assert Seens()[c] == if c in lost then NOTHING else old(Seens()[c]);
    }

    /**
     * `flush_streaming_connections`, for every outcome of its submissions and of its reads of freed memory.
     * Unless the walk damages the list, which is decided by what it meets, the list keeps its order and
     * loses exactly the drained and the refused connections, every connection kept that has a buffer has a
     * write in flight, and those refused are over and counted as failed.  Where it damages the list, no list
     * fits the links and flags any more, and nothing is claimed of the rest of that walk.
     */
    method FlushStreaming(calls: seq<Submission>) returns (damaged: bool)
      requires Inv()
      modifies this, Slots(), Buffers()`pending
      ensures owner == old(owner) && (AllLinked(calls) ==> ring.abandoned == old(ring).abandoned)
      ensures var was, fates := old(dirty), old(Fates(dirty, calls));
              && (damaged <==> Damages(fates))
              && if damaged then forall list :: !Chained(list)
                 else
                   && Inv() && dirty == Staying(was, fates, |was|) && Flushed(dirty)
                   && Seens() == After(old(Seens()), Ending(was, fates, |was|))
                   && tally == old(tally).(failed := old(tally.failed) + |Ending(was, fates, |was|)|)
                   && Snap() == LoopMachine.FlushedTo(old(Snap()), was, calls, |was|)
    {
      hide Inv, Walking, Flushed, Seens, Buffers, Chained, Staying, After, Fates, Astray, AllLinked, Snap,
           LoopMachine.Flushed;
      var conn := dirtyHead;
      var prev: Conn? := null;
      ghost var was, fates, j := dirty, Fates(dirty, calls), 0;
      FlushStart(calls);
      while conn != null
        invariant j <= |was| && Walking(prev, was, fates, calls, j) && conn == At(was, j)
        invariant owner == old(owner) && Seens() == After(old(Seens()), Ending(was, fates, j))
        invariant AllLinked(calls) ==> ring.abandoned == old(ring).abandoned
        invariant Snap() == LoopMachine.FlushedTo(old(Snap()), was, calls, j)
        invariant tally == old(tally).(failed := old(tally.failed) + |Ending(was, fates, j)|)
        decreases |was| - j
      {
        NextWaiting(prev, was, fates, calls, j);
        var next := conn.dirtyNext;
        SeenBuffer(conn, Ending(was, fates, j));
        var keep;
        keep, damaged := FlushTurn(prev, conn, calls, was, fates, j);
        if damaged {
          return true;
        }
        AfterOneMore(old(Seens()), was, fates, j);
        if keep {
          prev := conn;
        }
        j := j + 1;
        conn := next;
      }
      FlushEnd(prev, was, fates, calls, j);
      damaged := false;
    }

    // ----- whole runs

    lemma Unwritten(c: Conn)
      requires Inv() && c in conns
      requires if c.wb != null then c.state != CurlActive && c.state != Closing
               else c.state != Streaming && c.state != Closing
      ensures FreeOk() && DirtyOk() && RingOk() && Ringing(null) && c.ticket == None
    {
      assert c.Conserves();
    }

    /** A completion that `process_cqe` does not look at: the slot is not in a state that writes. */
    method Ignore(c: Conn, k: nat)
      requires Inv() && k in ring.writes && ring.writes[k].slot == c
      requires if c.wb != null then c.state != CurlActive && c.state != Closing
               else c.state != Streaming && c.state != Closing
      modifies this`ring
      ensures Inv() && ring == old(ring).Without(k)
      ensures Snap() == old(Snap()).(ring := old(ring).Without(k))
    {
      hide Inv, FreeOk, DirtyOk, RingOk, Ringing, Conn.Now, Snap;
      SnapParts();
      RingSlot(k);
      Unwritten(c);
      ring := ring.Without(k);
      RingAfterArrival(c, k);
      LinksOnly();
      SlotsSame();
      NothingMoved();
    }

    lemma WithBuffer(c: Conn)
      requires Inv() && c in conns && c.wb != null
      ensures c.Conserves() && c.state != Streaming
    {
      assert c.Conserves();
    }

    /** The completion of write `k`, dispatched as `process_cqe` does. */
    method ProcessWrite(k: nat, res: int, next: NextMessage, writeOk: bool, linkOk: bool)
      requires Inv()
      modifies this, Slots(), owner.Keys
      ensures Inv() && owner == old(owner)
      ensures (writeOk ==> linkOk) ==> ring.abandoned == old(ring).abandoned
      ensures Snap() == LoopMachine.CqeTaken(old(Snap()), k, res, next, writeOk, linkOk)
    {
      hide FreeOk, DirtyOk, StatesOk, AllConserve, NoneStranded, Conn.Conserves, Conn.Relays, Snap, Conn.Look, Conn.Now,
           LoopMachine.Arrived, LoopMachine.Drained, LoopMachine.Written, WriteEnd, AsyncEnd, Took, GoesOn;
      SnapParts();
      if k in ring.writes && res <= ring.writes[k].len {
        var c := ring.writes[k].slot;
        RingSlot(k);
        InSnap(c);
        Looks(c);
        if c.wb != null {
          if c.state == Streaming || c.state == CurlActive || c.state == Closing {
            WithBuffer(c);
            var end := HandleAsyncWrite(c, k, res, writeOk, linkOk);
          } else {
            Ignore(c, k);
          }
        } else if c.state == Streaming || c.state == Closing {
          var end := HandleWrite(c, k, res, next, writeOk, linkOk);
        } else {
          Ignore(c, k);
        }
      }
    }

    /** What is not for a request in progress is ignored. */
    lemma Unconcerned(c: Conn, e: LoopEvent)
      requires Inv() && c in conns
      requires match e
               case CurlBytes(_, _, _, _) => (c.state != CurlPending && c.state != CurlActive) || c.relay.behind
               case CurlDone(_, _, _) => c.state != CurlPending && c.state != CurlActive
               case Immediate(_, _) => c.state == Unused
               case _ => false
      ensures LoopMachine.NextOn(Snap(), c, e) == Snap()
    {
      hide Snap, Conn.Look, Conn.Conserves, Conn.Relays;
      InSnap(c);
      Looks(c);
    }

    /** What the curl callbacks report of connection `c`. */
    method ProcessCurl(c: Conn, e: LoopEvent)
      requires Inv() && c in conns && (e.CurlBytes? || e.CurlDone? || e.Immediate?)
      modifies this, Slots(), owner.Keys
      ensures Inv() && fresh(owner.Keys - old(owner.Keys)) && ring.abandoned == old(ring).abandoned
      ensures Snap() == LoopMachine.NextOn(old(Snap()), c, e)
    {
      hide Inv, Conn.Conserves, Conn.Relays, Conn.Now, Untouched, Taken, Conn.Accepts, Relay.Wire,
           Relay.Faithful, Snap, LoopMachine.BytesTaken, LoopMachine.RequestEnded, LoopMachine.Tried;
      match e {
        case CurlBytes(_, chunk, room, appends) =>
          if (c.state == CurlPending || c.state == CurlActive) && !c.relay.behind {
            var ok := WriteCallback(c, chunk, room, appends);
          } else {
            Unconcerned(c, e);
          }
        case CurlDone(_, success, canGrow) =>
          if c.state == CurlPending || c.state == CurlActive {
            InOwner(c);
            RequestDone(c, success, canGrow);
          } else {
            Unconcerned(c, e);
          }
        case Immediate(_, writeOk) =>
          if c.state != Unused {
            InOwner(c);
            TryImmediateWrite(c, writeOk);
          } else {
            Unconcerned(c, e);
          }
      }
    }

    /** An event about connection `c`, dispatched as `process_cqe` and the curl callbacks do. */
    method ProcessOn(c: Conn, e: LoopEvent)
      requires Inv() && c in conns
      modifies this, Slots(), owner.Keys
      ensures Inv() && fresh(owner.Keys - old(owner.Keys))
      ensures e.Linked() ==> ring.abandoned == old(ring).abandoned
      ensures Snap() == LoopMachine.NextOn(old(Snap()), c, e)
    {
      hide Inv, Conn.Conserves, Conn.Relays, Conn.Now, Snap, Conn.Look, LoopMachine.Served, LoopMachine.Started,
           LoopMachine.BytesTaken, LoopMachine.RequestEnded, LoopMachine.Tried;
      InSnap(c);
      Looks(c);
      match e {
        case FdReceived(_, got) =>
          if c.state == ReceivingFd {
            HandleRecvFd(c, got);
          }
        case WorkerFinished(_, result, sent) =>
          if c.state == LlmQueued && c.pooled {
            WorkerDone(c, result, sent);
          }
        case Collected(_, writeOk, linkOk) =>
          if c.pooled && c.state != LlmQueued && c.Unstarted() {
            PooledState(c);
            HandleCompletion(c, writeOk, linkOk);
          }
        case CurlBytes(_, _, _, _) =>
          ProcessCurl(c, e);
        case CurlDone(_, _, _) =>
          ProcessCurl(c, e);
        case Immediate(_, _) =>
          ProcessCurl(c, e);
        case _ =>
      }
    }

    /** The fates of a flush can be told from the snapshot. */
    lemma FatesSeen(list: seq<Conn>, calls: seq<Submission>)
      requires forall c | c in list :: c in conns
      ensures Fates(list, calls) == LoopMachine.FatesIn(Snap(), list, calls)
    {
      hide Snap, LoopMachine.Fated, FateOf;
      forall k | 0 <= k < |list|
        ensures Fates(list, calls)[k] == LoopMachine.FatesIn(Snap(), list, calls)[k]
      {
        FateSeen(list[k], calls);
      }
    }

    lemma BreaksSeen(calls: seq<Submission>)
      requires Inv()
      ensures LoopMachine.Breaks(Snap(), Flush(calls)) <==> Damages(Fates(dirty, calls))
    {
      hide Snap, Fates, Damages, FreeOk, StatesOk, AllConserve, AllRelay, Apart, NoneStranded, RingOk, Ringing;
      SnapParts();
      FatesSeen(dirty, calls);
    }

    /**
     * Every event: what it does to slots, lists, ring and counters is what `LoopMachine` says; only a flush can
     * damage anything.
     */
    method Process(e: LoopEvent) returns (damaged: bool)
      requires Inv()
      modifies this, Slots(), owner.Keys
      ensures fresh(owner.Keys - old(owner.Keys))
      ensures damaged <==> LoopMachine.Breaks(old(Snap()), e)
      ensures damaged <==> e.Flush? && old(Damages(Fates(dirty, e.calls)))
      ensures if damaged then forall list :: !Chained(list)
              else Inv() && Snap() == LoopMachine.Next(conns, old(Snap()), e)
      ensures e.Linked() ==> ring.abandoned == old(ring).abandoned
    {
      hide FreeOk, DirtyOk, StatesOk, AllConserve, NoneStranded, RingOk, Ringing, Conn.Conserves, Conn.Relays, Damages,
           Fates, Snap, LoopMachine.Accepted, LoopMachine.CqeTaken, LoopMachine.NextOn, LoopMachine.FlushedTo;
      SnapParts();
      damaged := false;
      if e.AcceptOne? {
        HandleAccept(e.mallocOk, e.recvmsgOk);
      } else if e.Flush? {
        BreaksSeen(e.calls);
        damaged := FlushStreaming(e.calls);
      } else if e.WriteDone? {
        ProcessWrite(e.serial, e.res, e.next, e.writeOk, e.linkOk);
      } else if e.id < |conns| {
        ProcessOn(conns[e.id], e);
      }
    }

    /** What the invariant promises at an event boundary, written out. */
    lemma AtBoundary()
      requires Inv()
      ensures tally.started == tally.completed + tally.failed + active + tally.dropped
      ensures |conns| == |free| + active && active <= peak
      ensures NoDup(free) && (forall c | c in conns :: c in free <==> c.state == Unused)
      ensures forall i | 0 <= i < |free| :: At(free, i).nextFree == At(free, i + 1)
      ensures NoDup(dirty) && (forall c | c in conns :: c in dirty <==> c.onDirtyList)
      ensures dirtyHead == At(dirty, 0) && forall i | 0 <= i < |dirty| :: At(dirty, i).dirtyNext == At(dirty, i + 1)
      ensures forall c | c in conns :: c.HasUnsent() && !c.Busy() ==> c in dirty
      ensures forall c | c in conns && c.wb != null :: c.wb.Valid() && c.taken + c.wb.Contents() == c.appended
      ensures forall c | c in conns && c.wb != null && !c.misled :: c.delivered == c.taken
      ensures forall c | c in conns :: c.appended == c.relay.Wire() && c.relay.Faithful()
      ensures forall c | c in conns && c.wb == null && !c.misled && (c.state == Streaming || c.state == Closing) ::
                c.InScript()
      ensures forall c | c in conns && c.Sending() :: c.ticket.Some? && c.ticket.value in ring.writes
                                                      && ring.writes[c.ticket.value].slot == c
      ensures ring.abandoned == 0 ==> forall k | k in ring.writes :: ring.writes[k].slot.ticket == Some(k)
      ensures ring.abandoned == 0 ==> forall c | c in conns :: !c.misled
    {
      forall c | c in conns
        ensures c.wb != null ==> c.wb.Valid() && c.taken + c.wb.Contents() == c.appended
        ensures c.wb != null && !c.misled ==> c.delivered == c.taken
        ensures c.appended == c.relay.Wire() && c.relay.Faithful()
        ensures c.wb == null && !c.misled && (c.state == Streaming || c.state == Closing) ==> c.InScript()
      {
        assert c.Conserves() && c.Relays();
      }
    }

    /** A flush none of whose refused connections leaves memory behind that still reads as in use is harmless. */
    lemma Harmless(calls: seq<Submission>)
      requires forall call | call in calls :: call.Accepted() || !call.stale
      ensures !Damages(Fates(dirty, calls))
    {
      var fates := Fates(dirty, calls);
      forall k | 0 <= k < |fates|
        ensures fates[k] != Ends(true)
      {
        assert fates[k] == FateOf(dirty[k], calls);
      }
    }

    /** The events one after another. */
    method RunEvents(events: seq<LoopEvent>) returns (done: nat)
      requires Inv()
      modifies this, Slots(), owner.Keys
      ensures fresh(owner.Keys - old(owner.Keys)) && done <= |events|
      ensures if done == |events| then Inv() && Snap() == LoopMachine.AfterAll(conns, old(Snap()), events)
              else events[done].Flush? && forall list :: !Chained(list)
      ensures forall i | 0 <= i < done :: LoopMachine.Unbroken(conns, old(Snap()), events, i)
      ensures done < |events| ==> !LoopMachine.Unbroken(conns, old(Snap()), events, done)
      ensures (forall e, call | e in events && e.Flush? && call in e.calls :: call.Accepted() || !call.stale)
              ==> done == |events|
      ensures (forall e | e in events :: e.Linked()) ==> ring.abandoned == old(ring).abandoned
      ensures (forall e | e in events :: e.Linked()) && old(ring).abandoned == 0 && done == |events| ==>
                forall c | c in conns :: !c.misled
    {
      hide Inv, Chained, Damages, LoopEvent.Linked, Snap, LoopMachine.Next, LoopMachine.Breaks;
      done := 0;
      while done < |events|
        invariant done <= |events| && Inv() && fresh(owner.Keys - old(owner.Keys))
        invariant (forall e | e in events :: e.Linked()) ==> ring.abandoned == old(ring).abandoned
        invariant Snap() == LoopMachine.AfterAll(conns, old(Snap()), events[..done])
        invariant forall i | 0 <= i < done :: LoopMachine.Unbroken(conns, old(Snap()), events, i)
      {
        if events[done].Flush? && forall call | call in events[done].calls :: call.Accepted() || !call.stale {
          Harmless(events[done].calls);
        }
        LoopMachine.OneMore(conns, old(Snap()), events, done);
        var damaged := Process(events[done]);
        if damaged {
          return;
        }
        done := done + 1;
      }
      assert events[..done] == events;
      AtBoundary();
    }

    lemma RequestsAt()
      ensures forall c | c in conns :: Snap().Of(c).relay == c.relay
    {
      hide Snap, Conn.Look;
      forall c | c in conns
        ensures Snap().Of(c).relay == c.relay
      {
        InSnap(c);
        Looks(c);
      }
    }

    /**
     * A run, event by event: up to the first flush that damages the list, the invariant holds at every event
     * boundary and the daemon is where `LoopMachine` arrives with the same events; the clients admitted are counted,
     * and a request has received the chunks that came for it.  There is no such flush where no refused connection
     * leaves memory behind that still reads as in use; and in a run in which no accepted write has its timeout
     * refused none is abandoned, so that every completion is that of the write its connection waits for and no
     * connection is misled.
     */
    method Run(events: seq<LoopEvent>) returns (done: nat)
      requires Inv()
      modifies this, Slots(), owner.Keys
      ensures fresh(owner.Keys - old(owner.Keys)) && done <= |events|
      ensures if done == |events| then Inv() && Snap() == LoopMachine.AfterAll(conns, old(Snap()), events)
              else events[done].Flush? && forall list :: !Chained(list)
      ensures forall i | 0 <= i < done :: LoopMachine.Unbroken(conns, old(Snap()), events, i)
      ensures done < |events| ==> !LoopMachine.Unbroken(conns, old(Snap()), events, done)
      ensures (forall e, call | e in events && e.Flush? && call in e.calls :: call.Accepted() || !call.stale)
              ==> done == |events|
      ensures (forall e | e in events :: e.Linked()) ==> ring.abandoned == old(ring).abandoned
      ensures (forall e | e in events :: e.Linked()) && old(ring).abandoned == 0 && done == |events| ==>
                forall c | c in conns :: !c.misled
      ensures done == |events| ==>
                tally.started == old(tally.started) + LoopRuns.Admitted(conns, old(Snap()), events)
      ensures done == |events| ==>
                forall c | c in conns && LoopRuns.InUse(conns, old(Snap()), events, c) && !c.relay.behind ::
                  c.relay.upstream == old(c.relay.upstream) + LoopRuns.Chunks(conns, old(Snap()), events, c)
    {
      hide Inv, Chained, LoopEvent.Linked, Snap, LoopMachine.AfterAll, LoopMachine.Unbroken, LoopRuns.Admitted,
           LoopRuns.InUse, LoopRuns.Chunks, Conn.Look;
      ghost var was := Snap();
      SnapParts();
      RequestsAt();
      done := RunEvents(events);
      if done == |events| {
        SnapParts();
        LoopRuns.StartedIsAdmitted(conns, was, events);
        RequestsAt();
        forall c | c in conns && LoopRuns.InUse(conns, was, events, c) && !c.relay.behind
          ensures c.relay.upstream == old(c.relay.upstream) + LoopRuns.Chunks(conns, was, events, c)
        {
          LoopRuns.UpstreamIsChunks(conns, was, events, c);
        }
      }
    }
  }
}
