/**
 * The per-connection write buffer (write_buffer.c): a compacting, growing byte array that behaves
 * as a FIFO queue even while a write out of it is in flight.
 */
module WriteBuffers {
  import opened Bytes

  const DEFAULT_SIZE: nat := 8 * 1024
  const MAX_SIZE: nat := 1024 * 1024

  /** The results 0, -1 and -2 of `write_buffer_append`. */
  datatype Status = Appended | NoAllocation | Full

  /** The fields that decide whether an append of `len` bytes is accepted. */
  datatype Layout = Layout(capacity: nat, head: nat, tail: nat, busy: bool) {
    predicate Ok() {
      tail <= head <= capacity
    }

    /** Capacity asked for when a write in flight forbids compacting. */
    function BusyTarget(len: nat): nat {
      var doubled := if capacity * 2 > MAX_SIZE then MAX_SIZE else capacity * 2;
      if doubled < head + len then head + len + DEFAULT_SIZE else doubled
    }

    /** Capacity asked for when compacting did not make enough room. */
    function IdleTarget(len: nat): int {
      if capacity * 2 < head - tail + len then head - tail + len else capacity * 2
    }

    predicate NeedsGrowth(len: nat) {
      len > capacity - head && (busy || head - tail + len > capacity)
    }

    predicate OverLimit(len: nat) {
      head - tail + len > MAX_SIZE
    }

    /** Exactly the appends answered with -2. */
    predicate Refuses(len: nat) {
      OverLimit(len) || (NeedsGrowth(len) && (if busy then BusyTarget(len) else IdleTarget(len)) > MAX_SIZE)
    }

    /** The guard under which an append within the limit is refused all the same. */
    predicate GrowsPastLimit(len: nat) {
      if busy then head + len > capacity && head + len + DEFAULT_SIZE > MAX_SIZE
          && (head + len > capacity * 2 || head + len > MAX_SIZE)
      else head - tail + len > capacity && capacity * 2 > MAX_SIZE
    }

    /** Exactly the appends that succeed. */
    predicate Accepts(len: nat, canGrow: bool) {
      !Refuses(len) && (canGrow || !NeedsGrowth(len))
    }

    /** With room made for `len` bytes, or as much of it as was done before that failed. */
    function Roomy(len: nat, canGrow: bool): Layout {
      var queued := if tail <= head then head - tail else 0;
      if OverLimit(len) || len <= capacity - head then this
      else if busy then (if Accepts(len, canGrow) then this.(capacity := BusyTarget(len)) else this)
      else
        var size :=
          if NeedsGrowth(len) && Accepts(len, canGrow) && IdleTarget(len) >= 0 then IdleTarget(len) else capacity;
        Layout(size, queued, 0, busy)
    }

    /** After an append of `len` bytes, accepted or not. */
    function Appended(len: nat, canGrow: bool): Layout {
      var room := Roomy(len, canGrow);
      if Accepts(len, canGrow) then room.(head := room.head + len) else room
    }

    /** After `n` bytes were taken off, or all. */
    function Consumed(n: nat): Layout {
      if n < head - tail then this.(tail := tail + n) else this.(head := 0, tail := 0)
    }
  }

  /** "Full" means the limit is really exceeded exactly when growth would not overshoot it. */
  lemma FullMeansFullIff(s: Layout, len: nat)
    requires s.Ok()
    ensures (s.Refuses(len) <==> s.OverLimit(len)) <==> (s.OverLimit(len) || !s.GrowsPastLimit(len))
  {
  }

  /**
   * The documented meaning fails. An idle 600 KB buffer refuses 700 KB although the limit is 1 MB; a full
   * 1 MB buffer with half of it in flight refuses 200 bytes.
   */
  lemma RefusedEarly()
    ensures var s := Layout(600 * 1024, 0, 0, false); s.Ok() && s.Refuses(700 * 1024) && !s.OverLimit(700 * 1024)
    ensures var s := Layout(MAX_SIZE, MAX_SIZE - 100, MAX_SIZE / 2, true); s.Ok() && s.Refuses(200) && !s.OverLimit(200)
  {
  }

  class WriteBuffer {
    var buffer: array<byte>
    var capacity: nat
    var head: nat
    var tail: nat
    var bytesWritten: nat
    var pending: bool

    ghost predicate Valid()
      reads this
    {
      capacity == buffer.Length && tail <= head <= capacity
    }

    /** The queue: bytes appended and not yet consumed. */
    ghost function Contents(): seq<byte>
      reads this, buffer
      requires Valid()
    {
      buffer[tail..head]
    }

    function Shape(): Layout
      reads this
    {
      Layout(capacity, head, tail, pending)
    }

    /** `write_buffer_init_sized`, its allocation having succeeded. */
    constructor (capacity: nat)
      ensures Valid() && fresh(buffer) && Contents() == [] && !pending && bytesWritten == 0
      ensures this.capacity == capacity && head == 0
    {
      buffer := new byte[capacity](_ => 0);
      this.capacity := capacity;
      head := 0;
      tail := 0;
      bytesWritten := 0;
      pending := false;
    }

    predicate HasData()
      reads this
    {
      head > tail
    }

    /** `memmove` of the pending bytes to the start. */
    method Compact()
      requires Valid() && !pending
      modifies this`head, this`tail, buffer
      ensures Valid() && tail == 0 && head == old(head - tail)
      ensures Contents() == old(Contents())
    {
      ghost var queue := buffer[tail..head];
      var n := head - tail;
      forall i | 0 <= i < n {
        buffer[i] := buffer[tail + i];
      }
      head := n;
      tail := 0;
      assert buffer[..n] == queue;
    }

    /** `realloc`: a larger array with the old bytes at the same offsets. */
    method Grow(newCapacity: nat)
      requires Valid() && capacity <= newCapacity
      modifies this`buffer, this`capacity
      ensures Valid() && capacity == newCapacity && fresh(buffer)
      ensures buffer[..old(capacity)] == old(buffer[..])
      ensures Contents() == old(Contents())
    {
      var bigger := new byte[newCapacity](_ => 0);
      forall i | 0 <= i < capacity {
        bigger[i] := buffer[i];
      }
      assert bigger[..capacity] == buffer[..];
      assert bigger[tail..head] == bigger[..capacity][tail..head] == buffer[tail..head];
      buffer := bigger;
      capacity := newCapacity;
    }

    /** Room for `len` more bytes after `head`, or the reason why not. */
    method MakeRoom(len: nat, canAllocate: bool) returns (status: Status)
      requires Valid()
      modifies this`buffer, this`capacity, this`head, this`tail, buffer
      ensures Valid() && (buffer == old(buffer) || fresh(buffer))
      ensures status == Full <==> old(Shape().Refuses(len))
      ensures status == NoAllocation <==> old(!Shape().Refuses(len) && Shape().NeedsGrowth(len)) && !canAllocate
      ensures status == Appended ==> head + len <= capacity
      ensures Contents() == old(Contents()) && Shape() == old(Shape().Roomy(len, canAllocate))
      ensures pending ==> tail == old(tail) && head == old(head) && buffer[..head] == old(buffer[..head])
    {
      var queued := head - tail;
      if queued + len > MAX_SIZE {
        return Full;
      }
      var spaceAtEnd := capacity - head;
      if len > spaceAtEnd {
        if pending {
          var newCap := capacity * 2;
          if newCap > MAX_SIZE {
            newCap := MAX_SIZE;
          }
          if newCap < head + len {
            newCap := head + len + DEFAULT_SIZE;
          }
          if newCap > MAX_SIZE {
            return Full;
          }
          if !canAllocate {
            return NoAllocation;
          }
          ghost var was, size := buffer[..], capacity;
          Grow(newCap);
          assert buffer[..head] == buffer[..size][..head] == was[..head];
        } else {
          Compact();
          if queued + len > capacity {
            var newCap := capacity * 2;
            if newCap < queued + len {
              newCap := queued + len;
            }
            if newCap > MAX_SIZE {
              return Full;
            }
            if !canAllocate {
              return NoAllocation;
            }
            Grow(newCap);
          }
        }
      }
      return Appended;
    }

    /** `memcpy` to the end of the queue. */
    method CopyIn(data: seq<byte>)
      requires Valid() && head + |data| <= capacity
      modifies this`head, buffer
      ensures Valid() && head == old(head) + |data|
      ensures Contents() == old(Contents()) + data
      ensures buffer[..old(head)] == old(buffer[..head])
    {
      ghost var front := buffer[..head];
      forall i | 0 <= i < |data| {
        buffer[head + i] := data[i];
      }
      assert buffer[..head] == front;
      assert buffer[tail..head] == front[tail..];
      assert buffer[head..head + |data|] == data;
      head := head + |data|;
    }

    /**
     * `write_buffer_append`: a success appends exactly `data` to the queue, a failure leaves the
     * queue alone, and while a write is in flight every queued byte keeps its offset.
     */
    method Append(data: seq<byte>, canAllocate: bool) returns (status: Status)
      requires Valid()
      modifies this`buffer, this`capacity, this`head, this`tail, buffer
      ensures Valid() && (buffer == old(buffer) || fresh(buffer))
      ensures status == Full <==> old(Shape().Refuses(|data|))
      ensures status == NoAllocation <==> old(!Shape().Refuses(|data|) && Shape().NeedsGrowth(|data|)) && !canAllocate
      ensures Contents() == old(Contents()) + (if status == Appended then data else [])
      ensures Shape() == old(Shape().Appended(|data|, canAllocate))
      ensures pending ==> tail == old(tail) && old(head) <= head && buffer[..old(head)] == old(buffer[..head])
    {
      status := MakeRoom(|data|, canAllocate);
      if status == Appended {
        CopyIn(data);
      }
    }

    /** `write_buffer_consume`: the first `bytes` bytes leave the queue. */
    method Consume(bytes: nat) returns (n: nat)
      requires Valid()
      modifies this`head, this`tail, this`bytesWritten
      ensures Valid()
      ensures n == if bytes > |old(Contents())| then |old(Contents())| else bytes
      ensures Contents() == old(Contents())[n..]
      ensures bytesWritten == old(bytesWritten) + n && Shape() == old(Shape().Consumed(bytes))
    {
      var queued := head - tail;
      n := bytes;
      if n > queued {
        n := queued;
      }
      tail := tail + n;
      bytesWritten := bytesWritten + n;
      if tail == head {
        head := 0;
        tail := 0;
      }
    }

    /** `write_buffer_get_next`: the offset and length of everything queued. */
    method GetNext() returns (offset: nat, len: nat)
      requires Valid()
      ensures len == head - tail && (len > 0 ==> offset == tail)
    {
      len := head - tail;
      offset := if len == 0 then 0 else tail;
    }
  }
}
