/**
 * The two queues of the thread pool (pool.c): a fixed ring of completed connections and a linked
 * list of waiting work.
 */
module PoolQueues {
  import opened Bytes

  // ----- the completion ring as a value

  /** The index after `i`, around the ring. */
  function Next(i: nat, size: nat): (j: nat)
    requires i < size
    ensures j == if i + 1 == size then 0 else i + 1
  {
    (i + 1) % size
  }

  datatype Ring = Ring(slots: seq<nat>, head: nat, tail: nat) {
    predicate Valid() {
      |slots| >= 2 && head < |slots| && tail < |slots|
    }

    function Count(): (n: nat)
      requires Valid()
      ensures n < |slots|
    {
      if head <= tail then tail - head else tail + |slots| - head
    }

    /** The undelivered entries, oldest first. */
    function Contents(): (r: seq<nat>)
      requires Valid()
      ensures |r| == Count()
    {
      if head <= tail then slots[head..tail] else slots[head..] + slots[..tail]
    }

    predicate Full()
      requires Valid()
    {
      Next(tail, |slots|) == head
    }

    predicate Empty() {
      head == tail
    }

    function Put(c: nat): Ring
      requires Valid()
    {
      Ring(slots[tail := c], head, Next(tail, |slots|))
    }

    function Drop(): Ring
      requires Valid()
    {
      Ring(slots, Next(head, |slots|), tail)
    }

    /** Adding to a ring that is not full keeps every undelivered entry and appends the new one. */
    lemma PutAppends(c: nat)
      requires Valid() && !Full()
      ensures Put(c).Valid() && Put(c).Contents() == Contents() + [c]
    {
      var r := Put(c);
      hide Next;
      if tail + 1 == |slots| {
        assert r.slots[head..] == slots[head..tail] + [c];
        assert r.slots[..0] == [];
      } else if head <= tail {
        assert r.slots[head..tail + 1] == slots[head..tail] + [c];
      } else {
        assert r.slots[head..] == slots[head..];
        assert r.slots[..tail + 1] == slots[..tail] + [c];
        Assoc(slots[head..], slots[..tail], [c]);
      }
    }

    /** Taking from a ring that is not empty removes its oldest entry only. */
    lemma DropTakes()
      requires Valid() && !Empty()
      ensures Drop().Valid() && Contents() == [slots[head]] + Drop().Contents()
    {
      hide Next;
      assert slots[head..] == [slots[head]] + slots[head + 1..];
      if head + 1 == |slots| {
        assert slots[0..tail] == slots[..tail];
      } else if head <= tail {
        assert slots[head..tail] == [slots[head]] + slots[head + 1..tail];
      } else {
        Assoc([slots[head]], slots[head + 1..], slots[..tail]);
      }
    }

    /** "Full" leaves exactly one slot unused; "empty" means no entries. */
    lemma FullIff()
      requires Valid()
      ensures Full() <==> |Contents()| == |slots| - 1
      ensures Empty() <==> |Contents()| == 0
    {
      hide Next;
    }
  }

  // ----- the completion ring in memory

  class CompletionRing {
    const completions: array<nat>
    var head: nat
    var tail: nat

    /** The ring as a value. */
    ghost function Model(): Ring
      reads this, completions
    {
      Ring(completions[..], head, tail)
    }

    ghost predicate Valid()
      reads this, completions
    {
      Model().Valid()
    }

    constructor (size: nat)
      requires size >= 2
      ensures Valid() && Model().Contents() == [] && completions.Length == size
    {
      completions := new nat[size](_ => 0);
      head := 0;
      tail := 0;
    }

    /** One try of `pool_add_completion`: false when there is no room yet. */
    method TryAdd(c: nat) returns (ok: bool)
      requires Valid()
      modifies this`tail, completions
      ensures Valid() && ok == !old(Model().Full())
      ensures Model() == if ok then old(Model()).Put(c) else old(Model())
      ensures Model().Contents() == old(Model().Contents()) + (if ok then [c] else [])
    {
      var nextTail := Next(tail, completions.Length);
      if nextTail == head {
        return false;
      }
      ghost var before := Model();
      before.PutAppends(c);
      completions[tail] := c;
      tail := nextTail;
      assert Model() == before.Put(c);
      return true;
    }

    /** `pool_get_completion`. */
    method GetCompletion() returns (c: Option<nat>)
      requires Valid()
      modifies this`head
      ensures Valid() && (c == None <==> old(Model().Contents()) == [])
      ensures Model() == if c == None then old(Model()) else old(Model()).Drop()
      ensures old(Model().Contents()) == (if c == None then [] else [c.value]) + Model().Contents()
    {
      Model().FullIff();
      assert Model().Empty() <==> Model().Contents() == [];
      if head == tail {
        return None;
      }
      Model().DropTakes();
      c := Some(completions[head]);
      head := Next(head, completions.Length);
    }
  }

  // ----- the work queue

  class Work {
    const conn: nat
    var next: Work?

    constructor (conn: nat)
      ensures this.conn == conn && next == null
    {
      this.conn := conn;
      next := null;
    }
  }

  class WorkQueue {
    var head: Work?
    var tail: Work?
    ghost var nodes: seq<Work>

    /** `nodes` is the chain from `head` to `tail`, without a repetition. */
    ghost predicate Valid()
      reads this, nodes
    {
      && (forall i, j | 0 <= i < j < |nodes| :: nodes[i] != nodes[j])
      && head == (if nodes == [] then null else nodes[0]) && tail == (if nodes == [] then null else nodes[|nodes| - 1])
      && forall i {:trigger nodes[i].next} | 0 <= i < |nodes| ::
         nodes[i].next == if i + 1 < |nodes| then nodes[i + 1] else null
    }

    /** The connections waiting, in order of submission. */
    ghost function Contents(): (r: seq<nat>)
      reads this, nodes
    {
      seq(|nodes|, i requires 0 <= i < |nodes| reads this, nodes => nodes[i].conn)
    }

    constructor ()
      ensures Valid() && Contents() == [] && nodes == []
    {
      head := null;
      tail := null;
      nodes := [];
    }

    /** The queue part of `pool_submit`. */
    method Enqueue(conn: nat, mallocOk: bool) returns (ok: bool)
      requires Valid()
      modifies this, nodes
      ensures Valid() && ok == mallocOk
      ensures Contents() == old(Contents()) + (if ok then [conn] else [])
      ensures fresh(set n | n in nodes && n !in old(nodes))
    {
      if !mallocOk {
        return false;
      }
      var work := new Work(conn);
      if tail != null {
        tail.next := work;
      } else {
        head := work;
      }
      tail := work;
      nodes := nodes + [work];
      return true;
    }

    /** `pool_dequeue`. */
    method Dequeue() returns (conn: Option<nat>)
      requires Valid()
      modifies this
      ensures Valid() && nodes == if old(nodes) == [] then [] else old(nodes)[1..]
      ensures old(Contents()) == (if conn == None then [] else [conn.value]) + Contents()
      ensures conn == None <==> old(Contents()) == []
    {
      if head == null {
        return None;
      }
      conn := Some(head.conn);
      head := head.next;
      if head == null {
        tail := null;
      }
      nodes := nodes[1..];
    }
  }
}
