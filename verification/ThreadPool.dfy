/**
 * The thread pool as interleaved steps (pool.c, and the eventfd handler in daemon.c): workers, the
 * event loop and the kernel's eventfd. Each step is what one thread does while it holds a mutex, or
 * one access to the eventfd.
 */
module ThreadPool {
  import opened Bytes
  import opened PoolQueues

  datatype Worker =
    | Checking             // about to take the queue mutex and look
    | Waiting              // in pthread_cond_wait
    | Processing(c: nat)   // in the backend
    | Inserting(c: nat)    // trying, or sleeping before trying again, to enter the ring
    | Signalling           // in the ring, eventfd not yet written
    | Exited

  /** The event loop's read of the eventfd. */
  datatype ReadOp =
    | Unarmed
    | Armed       // with the kernel
    | Queued      // its completion waits in the completion queue
    | Draining    // handle_eventfd is collecting
    | Rearming    // the ring was found empty, the next read is not yet submitted

  datatype State = State(
    queue: seq<nat>, workers: seq<Worker>, ring: Ring, eventfd: nat, op: ReadOp,
    shutdown: bool, stopRequested: bool, rearmFailed: bool,
    submitted: seq<nat>, dequeued: seq<nat>, inserted: seq<nat>, delivered: seq<nat>)

  datatype Step =
    | Submit(c: nat, woken: Option<nat>)
    | Check(w: nat)
    | Spurious(w: nat)
    | Finish(w: nat)
    | TryInsert(w: nat)
    | Signal(w: nat)
    | PoolShutdown
    | StopRequest
    | KernelRead
    | KernelAgain   // a non-blocking read may complete with EAGAIN; the handler does not look
    | StartDrain
    | Collect
    | Rearm(ok: bool)

  const EVENTFD_MAX: nat := 0xFFFF_FFFF_FFFF_FFFE

  // ----- where connections are

  function HeldBy(w: Worker): multiset<nat> {
    match w
    case Processing(c) => multiset{c}
    case Inserting(c) => multiset{c}
    case _ => multiset{}
  }

  function Held(ws: seq<Worker>): multiset<nat> {
    if ws == [] then multiset{} else HeldBy(ws[0]) + Held(ws[1..])
  }

  function Pool(s: State): multiset<nat>
    requires s.ring.Valid()
  {
    multiset(s.queue) + Held(s.workers) + multiset(s.ring.Contents())
  }

  function One(w: Worker): nat {
    if w.Checking? then 1 else 0
  }

  /** How many workers are about to look at the queue. */
  function Checkers(ws: seq<Worker>): nat {
    if ws == [] then 0 else One(ws[0]) + Checkers(ws[1..])
  }

  function WakeAll(ws: seq<Worker>): (r: seq<Worker>)
    ensures |r| == |ws| && forall i | 0 <= i < |ws| :: r[i] == if ws[i].Waiting? then Checking else ws[i]
  {
    seq(|ws|, i requires 0 <= i < |ws| => if ws[i].Waiting? then Checking else ws[i])
  }

  // ----- the steps

  predicate Is(s: State, w: nat, p: Worker) {
    w < |s.workers| && s.workers[w] == p
  }

  predicate Enabled(s: State, step: Step)
    requires s.ring.Valid()
  {
    match step
    case Submit(c, woken) =>
      // only live connections that are not in the pool are submitted, and none once the loop is over
      && !s.shutdown && c < |s.ring.slots| && Pool(s)[c] == 0
      && if woken.Some? then Is(s, woken.value, Waiting) else Waiting !in s.workers
    case Check(w) => Is(s, w, Checking)
    case Spurious(w) => Is(s, w, Waiting)
    case Finish(w) => w < |s.workers| && s.workers[w].Processing?
    case TryInsert(w) => w < |s.workers| && s.workers[w].Inserting?
    case Signal(w) => Is(s, w, Signalling)
    case PoolShutdown => !s.shutdown
    case StopRequest => true
    case KernelRead => s.op == Armed && s.eventfd > 0
    case KernelAgain => s.op == Armed
    case StartDrain => s.op == Queued
    case Collect => s.op == Draining
    case Rearm(_) => s.op == Rearming
  }

  function With(s: State, w: nat, p: Worker): State
    requires w < |s.workers|
  {
    s.(workers := s.workers[w := p])
  }

  function Apply(s: State, step: Step): State
    requires s.ring.Valid() && Enabled(s, step)
  {
    match step
    case Submit(c, woken) =>
      var t := s.(queue := s.queue + [c], submitted := s.submitted + [c]);
      if woken.Some? then With(t, woken.value, Checking) else t
    case Check(w) =>
      if s.queue == [] then With(s, w, if s.shutdown then Exited else Waiting)
      else With(s, w, Processing(s.queue[0])).(queue := s.queue[1..], dequeued := s.dequeued + [s.queue[0]])
    case Spurious(w) => With(s, w, Checking)
    case Finish(w) => With(s, w, Inserting(s.workers[w].c))
    case TryInsert(w) =>
      if s.ring.Full() then s
      else With(s, w, Signalling).(ring := s.ring.Put(s.workers[w].c), inserted := s.inserted + [s.workers[w].c])
    case Signal(w) => With(s, w, Checking).(eventfd := if s.eventfd < EVENTFD_MAX then s.eventfd + 1 else s.eventfd)
    case PoolShutdown => s.(shutdown := true, workers := WakeAll(s.workers))
    case StopRequest => s.(stopRequested := true)
    case KernelRead => s.(op := Queued, eventfd := 0)
    case KernelAgain => s.(op := Queued)
    case StartDrain => s.(op := Draining, eventfd := 0)
    case Collect =>
      if s.ring.Empty() then s.(op := Rearming)
      else s.(ring := s.ring.Drop(), delivered := s.delivered + [s.ring.slots[s.ring.head]])
    case Rearm(ok) =>
      if s.stopRequested then s.(op := Unarmed)
      else if ok then s.(op := Armed)
      else s.(op := Unarmed, rearmFailed := true)
  }

  predicate Init(s: State) {
    && s.ring.Valid() && s.ring.Empty() && s.queue == [] && s.eventfd == 0 && s.op == Armed
    && (forall w | w in s.workers :: w == Checking)
    && !s.shutdown && !s.stopRequested && !s.rearmFailed
    && s.submitted == s.dequeued == s.inserted == s.delivered == []
  }

  /** Every connection submitted and not yet delivered is in the pool, once; all others are not. */
  predicate PoolOk(s: State) {
    && s.ring.Valid() && multiset(s.submitted) == multiset(s.delivered) + Pool(s)
    && forall c | c in Pool(s) :: Pool(s)[c] == 1 && c < |s.ring.slots|
  }

  /** Work leaves the queue in submission order, and the ring in insertion order. */
  predicate OrderOk(s: State) {
    s.ring.Valid() && s.submitted == s.dequeued + s.queue && s.inserted == s.delivered + s.ring.Contents()
  }

  /** A non-empty ring is never forgotten, and unless asked to stop the loop keeps reading. */
  predicate WakeupOk(s: State) {
    && (s.ring.Empty() || s.eventfd > 0 || s.op == Queued || s.op == Draining || Signalling in s.workers)
    && (s.stopRequested || s.rearmFailed || s.op != Unarmed)
  }

  /** If a worker sleeps, every queued item has another worker about to look for it. */
  predicate CondOk(s: State) {
    && (Waiting in s.workers ==> |s.queue| <= Checkers(s.workers) && !s.shutdown)
    && (Exited in s.workers ==> s.shutdown && s.queue == [])
  }

  predicate Inv(s: State) {
    PoolOk(s) && OrderOk(s) && WakeupOk(s) && CondOk(s)
  }

  // ----- one worker changes

  lemma Around<T>(a: multiset<T>, after: multiset<T>, before: multiset<T>, gone: multiset<T>, come: multiset<T>)
    requires after + gone == before + come
    ensures (a + after) + gone == (a + before) + come
    ensures (after + a) + gone == (before + a) + come
  {
    assert (a + after) + gone == a + (after + gone);
    assert (a + before) + come == a + (before + come);
    assert (after + a) + gone == (after + gone) + a;
    assert (before + a) + come == (before + come) + a;
  }

  lemma Cancel<T>(a: multiset<T>, b: multiset<T>, x: multiset<T>)
    requires a + x == b + x
    ensures a == b
  {
    assert a == (a + x) - x && b == (b + x) - x;
  }

  lemma {:induction false} HeldUpdate(ws: seq<Worker>, i: nat, x: Worker)
    requires i < |ws|
    ensures Held(ws[i := x]) + HeldBy(ws[i]) == Held(ws) + HeldBy(x)
  {
    hide HeldBy;
    var us := ws[i := x];
    if i == 0 {
      assert us[1..] == ws[1..];
    } else {
      HeldUpdate(ws[1..], i - 1, x);
      assert us[1..] == ws[1..][i - 1 := x] && us[0] == ws[0];
      assert ws[1..][i - 1] == ws[i];
      Around(HeldBy(ws[0]), Held(us[1..]), Held(ws[1..]), HeldBy(ws[i]), HeldBy(x));
    }
  }

  lemma {:induction false} CheckersUpdate(ws: seq<Worker>, i: nat, x: Worker)
    requires i < |ws|
    ensures Checkers(ws[i := x]) + One(ws[i]) == Checkers(ws) + One(x)
  {
    var us := ws[i := x];
    if i == 0 {
      assert us[1..] == ws[1..];
    } else {
      CheckersUpdate(ws[1..], i - 1, x);
      assert us[1..] == ws[1..][i - 1 := x];
    }
  }

  lemma SleepersHoldNothing()
    ensures HeldBy(Waiting) == HeldBy(Checking) == multiset{}
  {
  }

  lemma {:induction false} HeldWakeAll(ws: seq<Worker>)
    ensures Held(WakeAll(ws)) == Held(ws)
  {
    hide HeldBy;
    if ws != [] {
      HeldWakeAll(ws[1..]);
      assert WakeAll(ws)[1..] == WakeAll(ws[1..]);
      SleepersHoldNothing();
      assert HeldBy(WakeAll(ws)[0]) == HeldBy(ws[0]);
    }
  }

  lemma UpdateIn(ws: seq<Worker>, i: nat, x: Worker, p: Worker)
    requires i < |ws|
    ensures p in ws[i := x] ==> p in ws || p == x
    ensures p in ws && p != ws[i] ==> p in ws[i := x]
    ensures x in ws[i := x]
  {
    var us := ws[i := x];
    assert us[i] == x;
    if p in ws && p != ws[i] {
      var k :| 0 <= k < |ws| && ws[k] == p;
      assert us[k] == p;
    }
  }

  // ----- every step keeps every part of the invariant

  /** A connection moved within the pool, or nothing moved. */
  lemma PoolMoved(s: State, t: State)
    requires PoolOk(s) && t.ring.Valid() && |t.ring.slots| == |s.ring.slots|
    requires t.submitted == s.submitted && t.delivered == s.delivered && Pool(t) == Pool(s)
    ensures PoolOk(t)
  {
  }

  /** Worker `w` gives up what it held and takes what its new state holds. */
  lemma WorkerMoves(s: State, w: nat, x: Worker)
    requires s.ring.Valid() && w < |s.workers|
    ensures Pool(With(s, w, x)) + HeldBy(s.workers[w]) == Pool(s) + HeldBy(x)
    ensures HeldBy(s.workers[w]) == HeldBy(x) ==> Pool(With(s, w, x)) == Pool(s)
  {
    hide HeldBy, Ring.Contents;
    HeldUpdate(s.workers, w, x);
    var after, before, gone, come := Held(s.workers[w := x]), Held(s.workers), HeldBy(s.workers[w]), HeldBy(x);
    Around(multiset(s.queue), after, before, gone, come);
    Around(multiset(s.ring.Contents()), multiset(s.queue) + after, multiset(s.queue) + before, gone, come);
    if gone == come {
      Cancel(Pool(With(s, w, x)), Pool(s), gone);
    }
  }

  lemma PoolSubmit(s: State, c: nat, woken: Option<nat>)
    requires PoolOk(s) && Enabled(s, Submit(c, woken))
    ensures PoolOk(Apply(s, Submit(c, woken)))
  {
    hide Ring.Contents, Next;
    var t := s.(queue := s.queue + [c], submitted := s.submitted + [c]);
    assert Pool(t) == Pool(s) + multiset{c};
    assert PoolOk(t);
    if woken.Some? {
      hide Pool, PoolOk;
      assert HeldBy(Waiting) == HeldBy(Checking);
      WorkerMoves(t, woken.value, Checking);
      PoolMoved(t, With(t, woken.value, Checking));
    }
  }

  lemma FrontOut<T>(q: seq<T>, a: multiset<T>, b: multiset<T>)
    requires q != []
    ensures multiset(q) + a + b == (multiset(q[1..]) + a + b) + multiset{q[0]}
  {
    assert q == [q[0]] + q[1..];
    assert multiset(q) == multiset{q[0]} + multiset(q[1..]);
  }

  lemma QueueShorter(u: State, t: State)
    requires u.ring.Valid() && u.queue != [] && t.ring == u.ring && t.workers == u.workers && t.queue == u.queue[1..]
    ensures Pool(u) == Pool(t) + multiset{u.queue[0]}
  {
    hide Ring.Contents, Held;
    FrontOut(u.queue, Held(u.workers), multiset(u.ring.Contents()));
  }

  lemma PoolOkValid(s: State)
    requires PoolOk(s)
    ensures s.ring.Valid()
  {
  }

  lemma PoolDequeue(s: State, w: nat)
    requires PoolOk(s) && Enabled(s, Check(w)) && s.queue != []
    ensures PoolOk(Apply(s, Check(w)))
  {
    hide Ring.Contents, Next, PoolOk, Held, Pool;
    PoolOkValid(s);
    var c := s.queue[0];
    var t, u := Apply(s, Check(w)), With(s, w, Processing(c));
    WorkerMoves(s, w, Processing(c));
    QueueShorter(u, t);
    assert Pool(u) + multiset{} == Pool(u);
    Cancel(Pool(t), Pool(s), multiset{c});
    PoolMoved(s, t);
  }

  lemma PoolInsert(s: State, w: nat)
    requires PoolOk(s) && Enabled(s, TryInsert(w)) && !s.ring.Full()
    ensures PoolOk(Apply(s, TryInsert(w)))
  {
    hide Ring.Contents, Next, PoolOk, Held;
    PoolOkValid(s);
    var t, c := Apply(s, TryInsert(w)), s.workers[w].c;
    var u := With(s, w, Signalling);
    s.ring.PutAppends(c);
    WorkerMoves(s, w, Signalling);
    assert Pool(t) == Pool(u) + multiset{c};
    assert Pool(s) + multiset{} == Pool(s);
    PoolMoved(s, t);
  }

  lemma PoolCollect(s: State)
    requires PoolOk(s) && Enabled(s, Collect) && !s.ring.Empty()
    ensures PoolOk(Apply(s, Collect))
  {
    hide Ring.Contents, Next, Held;
    var t, c := Apply(s, Collect), s.ring.slots[s.ring.head];
    s.ring.DropTakes();
    assert multiset(s.ring.Contents()) == multiset{c} + multiset(t.ring.Contents());
    assert Pool(s) == Pool(t) + multiset{c};
    assert multiset(t.delivered) == multiset(s.delivered) + multiset{c};
    assert (multiset(s.delivered) + multiset{c}) + Pool(t) == multiset(s.delivered) + Pool(s);
    assert forall d | d in Pool(t) :: d in Pool(s) && Pool(t)[d] <= Pool(s)[d];
  }

  /** Nothing in the pool moved. */
  lemma PoolSame(s: State, t: State)
    requires PoolOk(s) && t.ring == s.ring && t.queue == s.queue && t.workers == s.workers
    requires t.submitted == s.submitted && t.delivered == s.delivered
    ensures PoolOk(t)
  {
    assert Pool(t) == Pool(s);
  }

  /** A worker changed state and kept what it held. */
  lemma PoolWorker(s: State, t: State, w: nat, x: Worker)
    requires PoolOk(s) && w < |s.workers| && HeldBy(s.workers[w]) == HeldBy(x)
    requires t.ring == s.ring && t.queue == s.queue && t.workers == s.workers[w := x]
    requires t.submitted == s.submitted && t.delivered == s.delivered
    ensures PoolOk(t)
  {
    hide Ring.Contents, Held, HeldBy;
    WorkerMoves(s, w, x);
    assert Pool(t) == Pool(With(s, w, x));
    PoolMoved(s, t);
  }

  lemma PoolShut(s: State)
    requires PoolOk(s) && Enabled(s, PoolShutdown)
    ensures PoolOk(Apply(s, PoolShutdown))
  {
    hide Ring.Contents, Held;
    HeldWakeAll(s.workers);
    PoolMoved(s, Apply(s, PoolShutdown));
  }

  lemma PoolFoundNothing(s: State, w: nat)
    requires PoolOk(s) && Enabled(s, Check(w)) && s.queue == []
    ensures PoolOk(Apply(s, Check(w)))
  {
    hide PoolOk, Pool, Held, Ring.Contents;
    PoolOkValid(s);
    PoolWorker(s, Apply(s, Check(w)), w, if s.shutdown then Exited else Waiting);
  }

  lemma PoolSpurious(s: State, w: nat)
    requires PoolOk(s) && Enabled(s, Spurious(w))
    ensures PoolOk(Apply(s, Spurious(w)))
  {
    hide PoolOk, Pool, Held, Ring.Contents;
    PoolOkValid(s);
    PoolWorker(s, Apply(s, Spurious(w)), w, Checking);
  }

  lemma PoolFinish(s: State, w: nat)
    requires PoolOk(s) && Enabled(s, Finish(w))
    ensures PoolOk(Apply(s, Finish(w)))
  {
    hide PoolOk, Pool, Held, Ring.Contents;
    PoolOkValid(s);
    PoolWorker(s, Apply(s, Finish(w)), w, Inserting(s.workers[w].c));
  }

  lemma PoolSignal(s: State, w: nat)
    requires PoolOk(s) && Enabled(s, Signal(w))
    ensures PoolOk(Apply(s, Signal(w)))
  {
    hide PoolOk, Pool, Held, Ring.Contents;
    PoolOkValid(s);
    PoolWorker(s, Apply(s, Signal(w)), w, Checking);
  }

  lemma PoolKept(s: State, step: Step)
    requires PoolOk(s) && Enabled(s, step)
    ensures PoolOk(Apply(s, step))
  {
    hide Ring.Contents, Ring.Full, Ring.Empty, Next, PoolOk, Pool, Held, HeldBy;
    PoolOkValid(s);
    match step
    case Submit(c, woken) => PoolSubmit(s, c, woken);
    case PoolShutdown => PoolShut(s);
    case Collect => if !s.ring.Empty() { PoolCollect(s); } else { PoolSame(s, Apply(s, step)); }
    case StopRequest => PoolSame(s, Apply(s, step));
    case KernelRead => PoolSame(s, Apply(s, step));
    case KernelAgain => PoolSame(s, Apply(s, step));
    case StartDrain => PoolSame(s, Apply(s, step));
    case Rearm(_) => PoolSame(s, Apply(s, step));
    case Check(w) => if s.queue != [] { PoolDequeue(s, w); } else { PoolFoundNothing(s, w); }
    case Spurious(w) => PoolSpurious(s, w);
    case Finish(w) => PoolFinish(s, w);
    case TryInsert(w) => if !s.ring.Full() { PoolInsert(s, w); }
    case Signal(w) => PoolSignal(s, w);
  }

  lemma OrderKept(s: State, step: Step)
    requires OrderOk(s) && Enabled(s, step)
    ensures OrderOk(Apply(s, step))
  {
    hide Ring.Contents, Ring.Full, Ring.Empty, Next, Pool;
    match step
    case Submit(c, _) => Assoc(s.dequeued, s.queue, [c]);
    case Check(w) =>
      if s.queue != [] {
        assert s.queue == [s.queue[0]] + s.queue[1..];
        Assoc(s.dequeued, [s.queue[0]], s.queue[1..]);
      }
    case TryInsert(w) =>
      if !s.ring.Full() {
        s.ring.PutAppends(s.workers[w].c);
        Assoc(s.delivered, s.ring.Contents(), [s.workers[w].c]);
      }
    case Collect =>
      if !s.ring.Empty() {
        s.ring.DropTakes();
        Assoc(s.delivered, [s.ring.slots[s.ring.head]], s.ring.Drop().Contents());
      }
    case _ =>
  }

  lemma WakeupKept(s: State, step: Step)
    requires s.ring.Valid() && WakeupOk(s) && Enabled(s, step)
    ensures WakeupOk(Apply(s, step))
  {
    hide Pool, Next;
    match step
    case Submit(_, woken) => if woken.Some? { UpdateIn(s.workers, woken.value, Checking, Signalling); }
    case Check(w) => UpdateIn(s.workers, w, Apply(s, step).workers[w], Signalling);
    case Spurious(w) => UpdateIn(s.workers, w, Checking, Signalling);
    case Finish(w) => UpdateIn(s.workers, w, Inserting(s.workers[w].c), Signalling);
    case TryInsert(w) => UpdateIn(s.workers, w, Signalling, Signalling);
    case PoolShutdown =>
      if Signalling in s.workers {
        var k :| 0 <= k < |s.workers| && s.workers[k] == Signalling;
        assert WakeAll(s.workers)[k] == Signalling;
      }
    case _ =>
  }

  lemma CondUpdate(ws: seq<Worker>, w: nat, x: Worker)
    requires w < |ws|
    ensures Checkers(ws[w := x]) + One(ws[w]) == Checkers(ws) + One(x)
    ensures Waiting in ws[w := x] ==> Waiting in ws || x == Waiting
    ensures Exited in ws[w := x] ==> Exited in ws || x == Exited
    ensures Waiting in ws && ws[w] != Waiting ==> Waiting in ws[w := x]
  {
    CheckersUpdate(ws, w, x);
    UpdateIn(ws, w, x, Waiting);
    UpdateIn(ws, w, x, Exited);
  }

  lemma CondKept(s: State, step: Step)
    requires s.ring.Valid() && CondOk(s) && Enabled(s, step)
    ensures CondOk(Apply(s, step))
  {
    hide Pool, Next, Ring.Full, Ring.Empty;
    match step
    case Submit(_, woken) => if woken.Some? { CondUpdate(s.workers, woken.value, Checking); }
    case Check(w) => CondUpdate(s.workers, w, Apply(s, step).workers[w]);
    case Spurious(w) => CondUpdate(s.workers, w, Checking);
    case Finish(w) => CondUpdate(s.workers, w, Inserting(s.workers[w].c));
    case TryInsert(w) => CondUpdate(s.workers, w, Signalling);
    case Signal(w) => CondUpdate(s.workers, w, Checking);
    case PoolShutdown =>
      assert Waiting !in WakeAll(s.workers);
      assert Exited in WakeAll(s.workers) ==> Exited in s.workers;
    case _ =>
  }

  // ----- every reachable state

  ghost predicate IsRun(trace: seq<State>, steps: seq<Step>) {
    && |trace| == |steps| + 1 && Init(trace[0])
    && forall i | 0 <= i < |steps| ::
         trace[i].ring.Valid() && Enabled(trace[i], steps[i]) && trace[i + 1] == Apply(trace[i], steps[i])
  }

  lemma {:induction false} NoneHeld(ws: seq<Worker>)
    requires forall w | w in ws :: HeldBy(w) == multiset{}
    ensures Held(ws) == multiset{}
  {
    if ws != [] {
      NoneHeld(ws[1..]);
    }
  }

  lemma InitInv(s: State)
    requires Init(s)
    ensures Inv(s)
  {
    NoneHeld(s.workers);
    s.ring.FullIff();
    assert s.ring.Contents() == [];
  }

  /** The invariant holds in every state of every run. */
  lemma {:induction false} AlwaysInv(trace: seq<State>, steps: seq<Step>, i: nat)
    requires IsRun(trace, steps) && i < |trace|
    ensures Inv(trace[i])
  {
    hide Init, Enabled, Apply, PoolOk, OrderOk, WakeupOk, CondOk;
    if i == 0 {
      InitInv(trace[0]);
    } else {
      AlwaysInv(trace, steps, i - 1);
      var s, step := trace[i - 1], steps[i - 1];
      assert trace[i - 1 + 1] == Apply(s, step);
      PoolKept(s, step);
      OrderKept(s, step);
      WakeupKept(s, step);
      CondKept(s, step);
    }
  }

  // ----- what the invariant says

  /** A connection submitted once more often than delivered is in exactly one place; all others are in none. */
  lemma ExactlyOnce(s: State, c: nat)
    requires Inv(s)
    ensures var n := multiset(s.queue)[c] + Held(s.workers)[c] + multiset(s.ring.Contents())[c];
            n <= 1 && multiset(s.submitted)[c] == multiset(s.delivered)[c] + n
    ensures s.delivered <= s.inserted && s.dequeued <= s.submitted
  {
    if c in Pool(s) {
      assert Pool(s)[c] == 1;
    }
    assert multiset(s.submitted)[c] == multiset(s.delivered)[c] + Pool(s)[c];
  }

  lemma {:induction false} Pigeonhole(m: multiset<nat>, n: nat)
    requires forall c | c in m :: m[c] == 1 && c < n
    ensures |m| <= n
  {
    if n == 0 {
      assert m == multiset{};
    } else {
      var rest := m[n - 1 := 0];
      assert forall c | c in rest :: c in m && rest[c] == m[c] && c != n - 1;
      Pigeonhole(rest, n - 1);
      assert m == rest + (if n - 1 in m then multiset{n - 1} else multiset{});
    }
  }

  /** How many workers want to enter the ring. */
  function Inserters(ws: seq<Worker>): nat {
    if ws == [] then 0 else (if ws[0].Inserting? then 1 else 0) + Inserters(ws[1..])
  }

  lemma {:induction false} InsertersHold(ws: seq<Worker>)
    ensures Inserters(ws) <= |Held(ws)|
  {
    if ws != [] {
      InsertersHold(ws[1..]);
    }
  }

  /** While the ring is full at most one worker can be waiting for room. */
  lemma OneWaitsForRoom(s: State)
    requires Inv(s) && s.ring.Full()
    ensures Inserters(s.workers) <= 1
  {
    s.ring.FullIff();
    Pigeonhole(Pool(s), |s.ring.slots|);
    InsertersHold(s.workers);
    assert |Pool(s)| == |s.queue| + |Held(s.workers)| + |s.ring.Contents()|;
  }

  /**
   * No lost wake-up: before a stop is requested, and unless a read could not be submitted, an
   * undelivered completion always has someone who will cause it to be collected.
   */
  lemma NoLostWakeup(s: State)
    requires Inv(s) && s.ring.Contents() != []
    ensures s.eventfd > 0 || s.op == Queued || s.op == Draining || Signalling in s.workers
    ensures !s.stopRequested && !s.rearmFailed ==>
              || Signalling in s.workers
              || Enabled(s, KernelRead) || Enabled(s, StartDrain) || Enabled(s, Collect)
              || exists ok :: Enabled(s, Rearm(ok))
  {
    s.ring.FullIff();
    if s.op == Rearming {
      assert Enabled(s, Rearm(true));
    }
  }

  lemma {:induction false} CheckerExists(ws: seq<Worker>)
    requires Checkers(ws) > 0
    ensures Checking in ws
  {
    if ws[0] != Checking {
      CheckerExists(ws[1..]);
    }
  }

  /** Queued work is never forgotten: some worker is awake, unless none is left to be woken. */
  lemma QueuedWorkIsNoticed(s: State)
    requires Inv(s) && s.queue != [] && s.workers != []
    ensures exists w :: w in s.workers && w != Waiting && w != Exited
  {
    if Waiting in s.workers {
      CheckerExists(s.workers);
    } else {
      assert s.workers[0] in s.workers;
    }
  }

  /** Once every worker has exited, all that was submitted is delivered or waits in the ring, in order. */
  lemma NothingLostAtExit(s: State)
    requires Inv(s) && s.workers != [] && forall w | w in s.workers :: w == Exited
    ensures s.shutdown && s.queue == [] && s.dequeued == s.submitted
    ensures multiset(s.submitted) == multiset(s.inserted) && s.inserted == s.delivered + s.ring.Contents()
  {
    assert s.workers[0] in s.workers;
    NoneHeld(s.workers);
    assert multiset(s.queue) == multiset{};
    assert s.dequeued + [] == s.dequeued;
  }

  // ----- progress

  /** Steps that can be taken one after the other from `s`. */
  predicate CanTake(s: State, steps: seq<Step>)
    decreases |steps|
  {
    steps == [] || (s.ring.Valid() && Enabled(s, steps[0]) && CanTake(Apply(s, steps[0]), steps[1..]))
  }

  function Take(s: State, steps: seq<Step>): State
    requires CanTake(s, steps)
    decreases |steps|
  {
    if steps == [] then s else Take(Apply(s, steps[0]), steps[1..])
  }

  /** What leads to a delivery: a worker's signal, the kernel's completion, and the loop's own steps. */
  predicate Helps(step: Step) {
    step.Signal? || step == KernelRead || step == StartDrain || step == Collect || step == Rearm(true)
  }

  /** A way for the oldest completion in the ring to be delivered. */
  predicate Delivers(s: State, steps: seq<Step>)
    requires s.ring.Valid() && !s.ring.Empty()
  {
    && (forall step | step in steps :: Helps(step)) && CanTake(s, steps)
    && Take(s, steps).delivered == s.delivered + [s.ring.slots[s.ring.head]]
  }

  lemma OneStepMore(s: State, step: Step, more: seq<Step>)
    requires s.ring.Valid() && !s.ring.Empty() && Helps(step) && Enabled(s, step)
    requires Apply(s, step).ring == s.ring && Apply(s, step).delivered == s.delivered && Delivers(Apply(s, step), more)
    ensures Delivers(s, [step] + more)
  {
    var steps := [step] + more;
    assert steps[0] == step && steps[1..] == more;
  }

  lemma FromDraining(s: State) returns (steps: seq<Step>)
    requires s.ring.Valid() && !s.ring.Empty() && s.op == Draining
    ensures Delivers(s, steps) && |steps| == 1
  {
    steps := [Collect];
    s.ring.DropTakes();
    assert CanTake(Apply(s, Collect), steps[1..]);
    assert Take(s, steps) == Take(Apply(s, Collect), steps[1..]);
  }

  lemma FromQueued(s: State) returns (steps: seq<Step>)
    requires s.ring.Valid() && !s.ring.Empty() && s.op == Queued
    ensures Delivers(s, steps) && |steps| == 2
  {
    steps := FromDraining(Apply(s, StartDrain));
    OneStepMore(s, StartDrain, steps);
    steps := [StartDrain] + steps;
  }

  lemma FromPositive(s: State) returns (steps: seq<Step>)
    requires s.ring.Valid() && !s.ring.Empty() && s.op == Armed && s.eventfd > 0
    ensures Delivers(s, steps) && |steps| == 3
  {
    steps := FromQueued(Apply(s, KernelRead));
    OneStepMore(s, KernelRead, steps);
    steps := [KernelRead] + steps;
  }

  lemma FromArmed(s: State) returns (steps: seq<Step>)
    requires s.ring.Valid() && !s.ring.Empty() && s.op == Armed && (s.eventfd > 0 || Signalling in s.workers)
    ensures Delivers(s, steps) && 1 <= |steps| <= 4
  {
    if s.eventfd > 0 {
      steps := FromPositive(s);
    } else {
      var w: nat :| w < |s.workers| && s.workers[w] == Signalling;
      steps := FromPositive(Apply(s, Signal(w)));
      OneStepMore(s, Signal(w), steps);
      steps := [Signal(w)] + steps;
    }
  }

  lemma FromRearming(s: State) returns (steps: seq<Step>)
    requires s.ring.Valid() && !s.ring.Empty() && s.op == Rearming && !s.stopRequested
    requires s.eventfd > 0 || Signalling in s.workers
    ensures Delivers(s, steps) && 1 <= |steps| <= 5
  {
    steps := FromArmed(Apply(s, Rearm(true)));
    OneStepMore(s, Rearm(true), steps);
    steps := [Rearm(true)] + steps;
  }

  /**
   * Progress: from every state in which the ring is not empty, before a stop is requested and unless a read
   * could not be submitted, at most five steps of workers, kernel and loop deliver the oldest completion.
   */
  lemma DeliveryIsNear(s: State) returns (steps: seq<Step>)
    requires Inv(s) && !s.ring.Empty() && !s.stopRequested && !s.rearmFailed
    ensures Delivers(s, steps) && 1 <= |steps| <= 5
  {
    hide PoolOk, CondOk, Delivers, Apply;
    match s.op
    case Draining => steps := FromDraining(s);
    case Queued => steps := FromQueued(s);
    case Armed => steps := FromArmed(s);
    case Rearming => steps := FromRearming(s);
  }

  lemma {:induction false} TakeBoth(s: State, a: seq<Step>, b: seq<Step>)
    requires CanTake(s, a) && CanTake(Take(s, a), b)
    ensures CanTake(s, a + b) && Take(s, a + b) == Take(Take(s, a), b)
    decreases |a|
  {
    hide Apply, Enabled;
    if a == [] {
      assert a + b == b;
    } else {
      TakeBoth(Apply(s, a[0]), a[1..], b);
      assert (a + b)[0] == a[0] && (a + b)[1..] == a[1..] + b;
    }
  }

  lemma HelperKeeps(s: State, step: Step)
    requires Inv(s) && !s.stopRequested && !s.rearmFailed && Enabled(s, step) && Helps(step)
    ensures var t := Apply(s, step); Inv(t) && !t.stopRequested && !t.rearmFailed && t.inserted == s.inserted
  {
    PoolKept(s, step);
    OrderKept(s, step);
    WakeupKept(s, step);
    CondKept(s, step);
    hide PoolOk, OrderOk, WakeupOk, CondOk, Pool, Ring.Full, Ring.Empty;
  }

  /** Such steps insert nothing, ask for no stop, and keep the invariant. */
  lemma {:induction false} HelpersKeep(s: State, steps: seq<Step>)
    requires Inv(s) && !s.stopRequested && !s.rearmFailed && CanTake(s, steps)
    requires forall step | step in steps :: Helps(step)
    ensures var t := Take(s, steps); Inv(t) && !t.stopRequested && !t.rearmFailed && t.inserted == s.inserted
    decreases |steps|
  {
    hide Inv, Apply, Enabled, Helps;
    if steps != [] {
      var step := steps[0];
      assert step in steps && forall x | x in steps[1..] :: x in steps;
      HelperKeeps(s, step);
      HelpersKeep(Apply(s, step), steps[1..]);
    }
  }

  /** And so everything inserted is delivered, five steps at most for each entry of the ring. */
  lemma {:induction false} EverythingDelivered(s: State) returns (steps: seq<Step>)
    requires Inv(s) && !s.stopRequested && !s.rearmFailed
    ensures (forall step | step in steps :: Helps(step)) && CanTake(s, steps)
    ensures Take(s, steps).delivered == s.inserted && |steps| <= 5 * |s.ring.Contents()|
    decreases |s.ring.Contents()|
  {
    s.ring.FullIff();
    if s.ring.Empty() {
      steps := [];
      assert s.delivered + [] == s.delivered;
    } else {
      hide PoolOk, CondOk, WakeupOk, CanTake, Take, Helps;
      var first := DeliveryIsNear(s);
      var t := Take(s, first);
      HelpersKeep(s, first);
      assert |s.inserted| == |s.delivered| + |s.ring.Contents()| == |t.delivered| + |t.ring.Contents()|;
      var rest := EverythingDelivered(t);
      TakeBoth(s, first, rest);
      steps := first + rest;
    }
  }
}
