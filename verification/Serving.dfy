/**
 * The daemon serves a client: from any state with a free slot, the events of one stream leave it as it was but for
 * the counters.
 */
module Serving {
  import opened Bytes
  import opened Connections
  import opened EventLoop
  import opened LoopEvents
  import opened LoopMachine
  import opened LoopStreams

  lemma {:induction false} NoFlushTo(serial: nat, texts: seq<CString>, j: nat)
    requires j <= |texts| + 2
    ensures forall e | e in WholeTo(serial, texts, j) :: !e.Flush? && e.Linked()
  {
    hide Script;
    if j > 0 {
      NoFlushTo(serial, texts, j - 1);
    }
  }

  lemma {:induction false} NoFlush(id: nat, serial: nat, texts: seq<CString>)
    ensures forall e | e in Whole(id, serial, texts) :: !e.Flush? && e.Linked()
  {
    NoFlushTo(serial, texts, |texts| + 2);
  }

  /** The first free slot waits for its next client. */
  lemma FirstIsVacant(d: Daemon)
    requires d.Inv() && d.free != []
    ensures d.free[0] in d.conns && Vacant(d.Snap(), d.free[0])
  {
    hide Daemon.DirtyOk, Daemon.StatesOk, Daemon.AllConserve, Daemon.AllRelay, Daemon.Apart, Daemon.NoneStranded,
         Daemon.Ringing, Conn.Look;
    d.FreeIsBlank(d.free[0]);
  }

  /**
   * `id` is the number of the first free slot, and the ring takes and completes every write whole.  One completion is
   * counted, with the bytes of the headers, the frame of every text and the end marker.
   */
  method ServeClient(d: Daemon, id: nat, texts: seq<CString>)
    requires d.Inv() && d.free != [] && id < |d.conns| && d.conns[id] == d.free[0]
    requires forall text | text in texts :: Message(text).Fits()
    modifies d, d.Slots(), d.owner.Keys
    ensures d.Inv() && d.free == old(d.free) && d.dirty == old(d.dirty) && d.ring.writes == old(d.ring.writes)
    ensures var bytes := |Flatten(Script(texts, true))|;
            var was := old(d.tally);
            d.tally == was.(started := was.started + 1, completed := was.completed + 1, bytes := was.bytes + bytes)
  {
    hide Daemon.Inv, Daemon.Chained, Daemon.Snap, Vacant, NextMessage.Fits, Script, LoopEvent.Linked, AfterAll, Whole,
         Flatten;
    FirstIsVacant(d);
    d.SnapParts();
    NoFlush(id, d.ring.serial, texts);
    WholeStream(d.conns, d.Snap(), d.free[0], id, texts);
    var done := d.Run(Whole(id, d.ring.serial, texts));
    d.SnapParts();
  }
}
