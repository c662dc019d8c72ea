/**
 * Handing the client socket over (mod_socket_handoff.c): connecting with retries under one
 * deadline, passing the descriptor, and who owns which socket on every way out of the filter.
 */
module SocketHandoff {
  import opened Bytes
  import opened HandoffDeadline

  // errno values the code distinguishes
  const ENOENT: int := 2
  const EINVAL: int := 22
  const ENAMETOOLONG: int := 36
  const EINPROGRESS: int := 115
  const ETIMEDOUT: int := 110
  const ECONNREFUSED: int := 111

  /** `is_transient_error`. */
  predicate Transient(err: int) {
    err == ENOENT || err == ECONNREFUSED
  }

  /** The outcome of a call that succeeds or sets errno. */
  datatype Call = Done | Errno(e: int)

  datatype Poll = TimedOut | PollFailed(e: int) | Writable | Hangup

  /** What `getsockopt(SO_ERROR)` reports. */
  datatype Pending = NoAnswer(e: int) | Reported(e: int)

  /** How the system answers one attempt, and how long the attempt and the sleep after it take. */
  datatype Attempt = Attempt(
    socket: Call, plainSocket: Call, getFlags: Call, setFlags: Call, connect: Call, poll: Poll, pending: Pending,
    elapsed: nat, slept: nat)

  /** The system: a clock in microseconds, the open descriptors, and what was passed to the daemon. */
  class Kernel {
    var now: int
    var open: set<nat>
    var next: nat
    var openCount: nat  // sockets this code opened
    var closeCount: nat  // sockets this code closed
    var transferred: bool

    ghost predicate Valid()
      reads this
    {
      forall fd | fd in open :: fd < next
    }

    constructor (now: int, open: set<nat>, next: nat)
      requires forall fd | fd in open :: fd < next
      ensures Valid() && this.now == now && this.open == open && openCount == closeCount == 0 && !transferred
    {
      this.now := now;
      this.open := open;
      this.next := next;
      openCount := 0;
      closeCount := 0;
      transferred := false;
    }

    method Socket() returns (fd: nat)
      requires Valid()
      modifies this`open, this`next, this`openCount
      ensures Valid() && fd !in old(open) && open == old(open) + {fd} && openCount == old(openCount) + 1
    {
      fd := next;
      next := next + 1;
      open := open + {fd};
      openCount := openCount + 1;
    }

    /** A descriptor can be closed only while it is open, so never twice. */
    method Close(fd: nat)
      requires Valid() && fd in open
      modifies this`open, this`closeCount
      ensures Valid() && open == old(open) - {fd} && closeCount == old(closeCount) + 1
    {
      open := open - {fd};
      closeCount := closeCount + 1;
    }

    method Pass(elapsed: nat)
      modifies this`now
      ensures now == old(now) + elapsed
    {
      now := now + elapsed;
    }
  }

  /** The socket part of `connect_to_socket`: with flags, or plain when the flags are not known. */
  method OpenSocket(k: Kernel, a: Attempt) returns (sock: Option<nat>, nonblock: bool, err: int)
    requires k.Valid()
    modifies k`open, k`next, k`openCount
    ensures k.Valid()
    ensures sock == None ==> k.open == old(k.open) && k.openCount == old(k.openCount)
    ensures sock.Some? ==> sock.value !in old(k.open) && k.open == old(k.open) + {sock.value}
    ensures sock.Some? ==> k.openCount == old(k.openCount) + 1
    ensures sock == None <==> a.socket != Done && !(a.socket == Errno(EINVAL) && a.plainSocket == Done)
    ensures nonblock <==> a.socket == Done
    ensures sock == None ==> err == if a.socket.e == EINVAL then a.plainSocket.e else a.socket.e
  {
    err := 0;
    nonblock := false;
    match a.socket {
      case Done =>
        var fd := k.Socket();
        sock, nonblock := Some(fd), true;
      case Errno(e) =>
        sock, err := None, e;
        if e == EINVAL {
          match a.plainSocket {
            case Done =>
              var fd := k.Socket();
              sock := Some(fd);
            case Errno(e2) =>
              err := e2;
          }
        }
    }
  }

  /** Whether a connect that is under way succeeds, and otherwise with which error. */
  method AwaitConnect(a: Attempt) returns (ok: bool, err: int)
    ensures ok <==> a.poll == Writable && a.pending == Reported(0)
    ensures a.poll == TimedOut ==> err == ETIMEDOUT
    ensures a.poll.PollFailed? ==> err == a.poll.e
    ensures a.poll == Writable ==> err == a.pending.e
    ensures a.poll == Hangup ==> err == if a.pending.Reported? && a.pending.e != 0 then a.pending.e else ECONNREFUSED
  {
    ok, err := false, 0;
    match a.poll {
      case TimedOut =>
        err := ETIMEDOUT;
      case PollFailed(e) =>
        err := e;
      case Hangup =>
        err := if a.pending.Reported? && a.pending.e != 0 then a.pending.e else ECONNREFUSED;
      case Writable =>
        match a.pending {
          case NoAnswer(e) =>
            err := e;
          case Reported(e) =>
            err := e;
            ok := e == 0;
        }
    }
  }

  /** The attempt ends with a usable connection. */
  predicate Connects(a: Attempt, tooLong: bool) {
    && (a.socket == Done
        || (a.socket == Errno(EINVAL) && a.plainSocket == Done && a.getFlags == Done && a.setFlags == Done))
    && !tooLong
    && (a.connect == Done || (a.connect == Errno(EINPROGRESS) && a.poll == Writable && a.pending == Reported(0)))
  }

  /** The errno an attempt that does not connect is judged by: that of the first call that went wrong. */
  function FailureOf(a: Attempt, tooLong: bool): int {
    if a.socket.Errno? && a.socket.e != EINVAL then a.socket.e
    else if a.socket.Errno? && a.plainSocket.Errno? then a.plainSocket.e
    else if tooLong then ENAMETOOLONG
    else if a.socket.Errno? && a.getFlags.Errno? then a.getFlags.e
    else if a.socket.Errno? && a.setFlags.Errno? then a.setFlags.e
    else if a.connect.Errno? && a.connect.e != EINPROGRESS then a.connect.e
    else match a.poll
         case TimedOut => ETIMEDOUT
         case PollFailed(e) => e
         case Hangup => if a.pending.Reported? && a.pending.e != 0 then a.pending.e else ECONNREFUSED
         case Writable => a.pending.e
  }

  predicate Retried(a: Attempt, tooLong: bool) {
    !Connects(a, tooLong) && Transient(FailureOf(a, tooLong))
  }

  /** Some attempt connects, and every one before it fails with an error worth another try. */
  ghost predicate Reaches(script: seq<Attempt>, tooLong: bool) {
    exists n: nat :: n < |script| && Connects(script[n], tooLong)
                     && forall i | 0 <= i < n :: Retried(script[i], tooLong)
  }

  /** `connect_to_socket`: one new open socket, or none left open. */
  method ConnectToSocket(k: Kernel, a: Attempt, tooLong: bool) returns (sock: Option<nat>, err: int)
    requires k.Valid()
    modifies k
    ensures k.Valid() && k.now == old(k.now) + a.elapsed && k.transferred == old(k.transferred)
    ensures sock.Some? <==> Connects(a, tooLong)
    ensures sock == None ==> k.open == old(k.open) && err == FailureOf(a, tooLong)
    ensures sock.Some? ==> sock.value !in old(k.open) && k.open == old(k.open) + {sock.value}
    ensures k.openCount - k.closeCount == old(k.openCount - k.closeCount) + (if sock.Some? then 1 else 0)
  {
    k.Pass(a.elapsed);
    var fd, nonblock, e := OpenSocket(k, a);
    if fd == None {
      return None, e;
    }
    if tooLong {
      k.Close(fd.value);
      return None, ENAMETOOLONG;
    }
    if !nonblock {
      if a.getFlags.Errno? {
        k.Close(fd.value);
        return None, a.getFlags.e;
      }
      if a.setFlags.Errno? {
        k.Close(fd.value);
        return None, a.setFlags.e;
      }
    }
    if a.connect.Errno? {
      if a.connect.e != EINPROGRESS {
        k.Close(fd.value);
        return None, a.connect.e;
      }
      var ok, why := AwaitConnect(a);
      if !ok {
        k.Close(fd.value);
        return None, why;
      }
    }
    return fd, 0;
  }

  // ----- one run of the retry loop, and its clock

  /**
   * What a run of the loop gave: the timeout of each attempt, the length of each sleep, the error of each
   * failure, and whether it ended because the deadline had passed.
   */
  datatype Given = Given(timeouts: seq<nat>, delays: seq<nat>, errors: seq<int>, expired: bool)

  /** The time the first `n` attempts and the sleeps after them take. */
  function Spent(script: seq<Attempt>, n: nat): nat
    requires n <= |script|
  {
    if n == 0 then 0 else Spent(script, n - 1) + script[n - 1].elapsed + script[n - 1].slept
  }

  /** The time when a run that began at `start` is over: after an attempt, or after the sleep that followed it. */
  function EndOf(g: Given, script: seq<Attempt>, start: int): int
    requires |g.delays| <= |g.timeouts| <= |script|
  {
    start + Spent(script, |g.delays|) + (if |g.timeouts| > |g.delays| then script[|g.delays|].elapsed else 0)
  }

  function Least(a: nat, b: nat): nat {
    if b < a then b else a
  }

  /** Each attempt and sleep gets what it asks for or what is left of the deadline when it begins. */
  predicate Clocked(g: Given, conf: Config, script: seq<Attempt>, deadline: int, start: int)
    requires conf.Accepted()
  {
    && |g.delays| <= |g.timeouts| <= |g.delays| + 1 && |g.timeouts| <= |script|
    && (forall i | 0 <= i < |g.timeouts| ::
       g.timeouts[i] == Least(conf.connectMs, Remaining(deadline, start + Spent(script, i))))
    && (forall i | 0 <= i < |g.delays| ::
          g.delays[i] == Least(BASE_DELAY_MS * Pow2(i),
              Remaining(deadline, start + Spent(script, i) + script[i].elapsed)))
    && (g.expired ==> Remaining(deadline, EndOf(g, script, start)) == 0)
  }

  /**
   * Every attempt was made in order, and failed with the error of its first call that went wrong, but for the last
   * one if it connected.
   */
  predicate Follows(g: Given, script: seq<Attempt>, tooLong: bool, connected: bool) {
    && |g.timeouts| == |g.errors| + (if connected then 1 else 0) && |g.timeouts| <= |script|
    && (forall i | 0 <= i < |g.errors| ::
          !Connects(script[i], tooLong) && g.errors[i] == FailureOf(script[i], tooLong))
    && (connected ==> Connects(script[|g.errors|], tooLong))
  }

  /** No attempt and no backoff was cut short, and the loop did not run into the deadline. */
  predicate Unshortened(g: Given, conf: Config) {
    && !g.expired
    && (forall i | 0 <= i < |g.timeouts| :: g.timeouts[i] == conf.connectMs)
    && (forall i | 0 <= i < |g.delays| :: g.delays[i] == BASE_DELAY_MS * Pow2(i))
  }

  /** The limits that hold however long the calls take; only transient errors are followed by another try. */
  predicate Bounded(g: Given, conf: Config) {
    && |g.delays| <= |g.errors| <= |g.timeouts| <= conf.retries + 1 && |g.delays| <= conf.retries
    && (forall i | 0 <= i < |g.timeouts| - 1 :: i < |g.errors| && Transient(g.errors[i]))
    && (forall i | 0 <= i < |g.timeouts| :: 0 < g.timeouts[i] <= conf.connectMs)
    && (forall i | 0 <= i < |g.delays| :: 0 < g.delays[i] <= BASE_DELAY_MS * Pow2(i))
  }

  /** The part of the budget meant for the first `n` attempts and backoffs, in milliseconds. */
  function Planned(conf: Config, n: nat): int
    requires conf.Accepted()
  {
    Budget(conf) - Needed(conf, n)
  }

  /**
   * The run keeps to its plan as a whole: no attempt and no sleep ends later than planned. A quick refusal
   * pays for a sleep that overruns.
   */
  predicate OnTime(g: Given, conf: Config, script: seq<Attempt>)
    requires conf.Accepted()
  {
    && |g.timeouts| <= |script| && |g.delays| <= |script|
    && (forall i | 0 <= i < |g.timeouts| ::
       Spent(script, i) + script[i].elapsed <= 1000 * (Planned(conf, i) + conf.connectMs))
    && (forall i | 1 <= i <= |g.delays| :: Spent(script, i) <= 1000 * Planned(conf, i))
  }

  /** Every single attempt and sleep took no longer than it was given. */
  predicate Timely(g: Given, script: seq<Attempt>) {
    && |g.timeouts| <= |script| && |g.delays| <= |script|
    && (forall i | 0 <= i < |g.timeouts| :: script[i].elapsed <= 1000 * g.timeouts[i])
    && (forall i | 0 <= i < |g.delays| :: script[i].slept <= 1000 * g.delays[i])
  }

  lemma PlannedStep(conf: Config, i: nat)
    requires conf.Accepted() && i <= conf.retries
    ensures Planned(conf, 0) == 0 && Planned(conf, i) + conf.connectMs + conf.sendMs <= Budget(conf)
    ensures i < conf.retries ==>
              && Planned(conf, i + 1) == Planned(conf, i) + conf.connectMs + BASE_DELAY_MS * Pow2(i)
              && Planned(conf, i + 1) + conf.sendMs <= Budget(conf)
  {
    hide Needed, Budget, Pow2;
    NeededAtStart(conf);
    NeededStep(conf, i);
    if i < conf.retries {
      NeededStep(conf, i + 1);
    }
  }

  /** Calls that each keep to their time keep to the plan. */
  lemma {:induction false} TimelyStart(g: Given, conf: Config, script: seq<Attempt>, n: nat)
    requires conf.Accepted() && Bounded(g, conf) && Timely(g, script) && n <= |g.delays| && |g.delays| <= |g.timeouts|
    ensures Spent(script, n) <= 1000 * Planned(conf, n)
  {
    hide Planned, Pow2;
    PlannedStep(conf, 0);
    if n > 0 {
      TimelyStart(g, conf, script, n - 1);
      PlannedStep(conf, n - 1);
    }
  }

  lemma TimelyIsOnTime(g: Given, conf: Config, script: seq<Attempt>)
    requires conf.Accepted() && Bounded(g, conf) && Timely(g, script) && |g.timeouts| <= |g.delays| + 1
    ensures OnTime(g, conf, script)
  {
    hide Planned, Spent, Pow2;
    forall i | 0 <= i <= |g.delays|
      ensures Spent(script, i) <= 1000 * Planned(conf, i)
    {
      TimelyStart(g, conf, script, i);
    }
  }

  /** No attempt takes longer than the connect timeout, and no sleep than the backoff before it. */
  predicate Prompt(conf: Config, script: seq<Attempt>) {
    forall i | 0 <= i < |script| ::
      script[i].elapsed <= 1000 * conf.connectMs && script[i].slept <= 1000 * (BASE_DELAY_MS * Pow2(i))
  }

  lemma {:induction false} PromptStart(conf: Config, script: seq<Attempt>, n: nat)
    requires conf.Accepted() && Prompt(conf, script) && n <= |script| && n <= conf.retries
    ensures Spent(script, n) <= 1000 * Planned(conf, n)
  {
    hide Planned, Pow2;
    PlannedStep(conf, 0);
    if n > 0 {
      PromptStart(conf, script, n - 1);
      PlannedStep(conf, n - 1);
    }
  }

  /** Whatever a run of prompt calls is given, it keeps to the plan. */
  lemma PromptIsOnTime(g: Given, conf: Config, script: seq<Attempt>)
    requires conf.Accepted() && Bounded(g, conf) && Prompt(conf, script) && |script| == conf.retries + 1
    ensures OnTime(g, conf, script)
  {
    hide Planned, Spent, Pow2;
    forall i | 0 <= i <= conf.retries
      ensures Spent(script, i) <= 1000 * Planned(conf, i)
    {
      PromptStart(conf, script, i);
    }
  }

  /** With the whole budget ahead, a run that keeps to its plan has at attempt `i` all it needs. */
  lemma PlanHolds(g: Given, conf: Config, script: seq<Attempt>, deadline: int, start: int, i: nat)
    requires conf.Accepted() && Bounded(g, conf) && Clocked(g, conf, script, deadline, start) && OnTime(g, conf, script)
    requires deadline - start >= 1000 * Budget(conf) && i <= |g.delays|
    ensures i <= conf.retries ==> deadline - (start + Spent(script, i)) >= 1000 * (conf.connectMs + conf.sendMs)
    ensures i < |g.timeouts| ==>
              && deadline - (start + Spent(script, i) + script[i].elapsed) >= 1000 * conf.sendMs
              && (i < conf.retries ==>
                    deadline - (start + Spent(script, i) + script[i].elapsed)
                    >= 1000 * (conf.sendMs + BASE_DELAY_MS * Pow2(i)))
  {
    hide Planned, Budget, Pow2, Remaining, Clocked;
    PlannedStep(conf, 0);
    if i <= conf.retries {
      PlannedStep(conf, i);
    }
    assert Spent(script, i) <= 1000 * Planned(conf, i);
  }

  lemma BackoffFits(conf: Config, attempt: nat)
    requires conf.Accepted() && attempt < conf.retries
    ensures BASE_DELAY_MS * Pow2(attempt) <= INT32_MAX
  {
    Pow2Grows(attempt, 10);
    Pow2Ten();
  }

  /**
   * The promise of the deadline: with the whole budget ahead, a run that keeps to its plan is given every
   * timeout and every backoff in full, does not expire, and leaves the send its timeout.
   */
  lemma OnTimeKeepsAll(g: Given, conf: Config, script: seq<Attempt>, deadline: int, start: int)
    requires conf.Accepted() && Bounded(g, conf) && Clocked(g, conf, script, deadline, start) && OnTime(g, conf, script)
    requires deadline - start >= 1000 * Budget(conf)
    ensures Unshortened(g, conf) && deadline - EndOf(g, script, start) >= 1000 * conf.sendMs
  {
    hide Planned, Budget, Pow2, Remaining, OnTime, Spent;
    forall i | 0 <= i < |g.timeouts|
      ensures g.timeouts[i] == conf.connectMs
    {
      PlanHolds(g, conf, script, deadline, start, i);
      RemainingAtLeast(deadline, start + Spent(script, i), conf.connectMs);
    }
    forall i | 0 <= i < |g.delays|
      ensures g.delays[i] == BASE_DELAY_MS * Pow2(i)
    {
      PlanHolds(g, conf, script, deadline, start, i);
      BackoffFits(conf, i);
      RemainingAtLeast(deadline, start + Spent(script, i) + script[i].elapsed, BASE_DELAY_MS * Pow2(i));
    }
    PlanHolds(g, conf, script, deadline, start, |g.delays|);
    RemainingAtLeast(deadline, EndOf(g, script, start), 1);
  }

  // ----- connect_with_retry

  /** The first half of a turn: one attempt, unless the deadline has passed. */
  method TryOnce(k: Kernel, conf: Config, deadline: int, a: Attempt, tooLong: bool)
    returns (sock: Option<nat>, timeout: nat, err: int)
    requires k.Valid() && conf.Accepted()
    modifies k
    ensures k.Valid() && k.transferred == old(k.transferred)
    ensures timeout == Least(conf.connectMs, Remaining(deadline, old(k.now)))
    ensures k.now == old(k.now) + (if timeout > 0 then a.elapsed else 0)
    ensures sock.Some? <==> timeout > 0 && Connects(a, tooLong)
    ensures sock == None && timeout > 0 ==> err == FailureOf(a, tooLong)
    ensures k.open == old(k.open) + (if sock.Some? then {sock.value} else {})
    ensures sock.Some? ==> sock.value !in old(k.open)
    ensures k.openCount - k.closeCount == old(k.openCount - k.closeCount) + (if sock.Some? then 1 else 0)
  {
    hide Connects, FailureOf, Remaining;
    var remaining := Remaining(deadline, k.now);
    if remaining <= 0 {
      return None, 0, ETIMEDOUT;
    }
    timeout := if remaining < conf.connectMs then remaining else conf.connectMs;
    sock, err := ConnectToSocket(k, a, tooLong);
  }

  /** The second half: the sleep before another attempt, unless the deadline has passed. */
  method BackOff(k: Kernel, attempt: nat, deadline: int, a: Attempt) returns (delay: nat)
    requires attempt <= MAX_RETRIES
    modifies k`now
    ensures delay == Least(BASE_DELAY_MS * Pow2(attempt), Remaining(deadline, old(k.now)))
    ensures k.now == old(k.now) + (if delay > 0 then a.slept else 0)
  {
    hide Remaining, Pow2;
    var safe := if attempt > 20 then 20 else attempt;
    delay := BASE_DELAY_MS * Pow2(safe);
    var left := Remaining(deadline, k.now);
    if left <= 0 {
      return 0;
    }
    if delay > left {
      delay := left;
    }
    k.Pass(a.slept);
  }

  lemma Reached(script: seq<Attempt>, tooLong: bool, n: nat)
    requires n < |script| && Connects(script[n], tooLong) && forall i | 0 <= i < n :: Retried(script[i], tooLong)
    ensures Reaches(script, tooLong)
  {
  }

  /** The attempt that ended the loop without a connection could not be followed by one that connects. */
  lemma NotReached(script: seq<Attempt>, tooLong: bool, n: nat)
    requires n < |script| && forall i | 0 <= i < n :: Retried(script[i], tooLong)
    requires !Connects(script[n], tooLong) && (n == |script| - 1 || !Transient(FailureOf(script[n], tooLong)))
    ensures !Reaches(script, tooLong)
  {
    hide Connects, FailureOf;
    if m: nat :| m < |script| && Connects(script[m], tooLong) && forall i | 0 <= i < m :: Retried(script[i], tooLong) {
      assert m > n ==> Retried(script[n], tooLong);
      assert m < n ==> Retried(script[m], tooLong);
    }
  }

  /** Where the loop stands before attempt `|g.timeouts|`. */
  predicate Underway(g: Given, conf: Config, script: seq<Attempt>, deadline: int, start: int)
    requires conf.Accepted()
  {
    && Bounded(g, conf) && Clocked(g, conf, script, deadline, start) && !g.expired
    && |g.timeouts| == |g.delays| == |g.errors| <= conf.retries
       && (forall i | 0 <= i < |g.errors| :: Transient(g.errors[i]))
  }

  /** The deadline has passed before an attempt. */
  lemma ExpiresEarly(g: Given, conf: Config, script: seq<Attempt>, deadline: int, start: int)
    requires conf.Accepted() && Underway(g, conf, script, deadline, start)
    requires Remaining(deadline, start + Spent(script, |g.timeouts|)) == 0
    ensures var h := g.(expired := true); Bounded(h, conf) && Clocked(h, conf, script, deadline, start)
  {
    hide Pow2, Remaining, Spent;
  }

  /** `g` after one more attempt. */
  lemma OneAttempt(g: Given, conf: Config, script: seq<Attempt>, deadline: int, start: int, timeout: nat)
    requires conf.Accepted() && Underway(g, conf, script, deadline, start) && |script| == conf.retries + 1
             && timeout > 0
    requires timeout == Least(conf.connectMs, Remaining(deadline, start + Spent(script, |g.timeouts|)))
    ensures var h := g.(timeouts := g.timeouts + [timeout]);
            && Bounded(h, conf) && Clocked(h, conf, script, deadline, start)
            && EndOf(h, script, start) == start + Spent(script, |g.timeouts|) + script[|g.timeouts|].elapsed
  {
    hide Pow2, Remaining, Spent;
    var h := g.(timeouts := g.timeouts + [timeout]);
    assert forall i | 0 <= i < |g.timeouts| :: h.timeouts[i] == g.timeouts[i];
  }

  /** `g` after a failed attempt, with the error and perhaps the deadline noted. */
  lemma OneFailure(g: Given, conf: Config, script: seq<Attempt>, deadline: int, start: int, timeout: nat, err: int)
    requires conf.Accepted() && Underway(g, conf, script, deadline, start) && |script| == conf.retries + 1
             && timeout > 0
    requires timeout == Least(conf.connectMs, Remaining(deadline, start + Spent(script, |g.timeouts|)))
    ensures var h := g.(timeouts := g.timeouts + [timeout], errors := g.errors + [err]);
            && Bounded(h, conf) && Clocked(h, conf, script, deadline, start)
            && (Remaining(deadline, EndOf(h, script, start)) == 0 ==>
                  Bounded(h.(expired := true), conf) && Clocked(h.(expired := true), conf, script, deadline, start))
  {
    hide Pow2, Remaining, Spent;
    OneAttempt(g, conf, script, deadline, start, timeout);
    var h := g.(timeouts := g.timeouts + [timeout], errors := g.errors + [err]);
    assert forall i | 0 <= i < |g.errors| :: h.errors[i] == g.errors[i];
  }

  /** `g` after a failed attempt and the sleep that follows it. */
  lemma OneTurn(g: Given, conf: Config, script: seq<Attempt>, deadline: int, start: int, timeout: nat, err: int,
      delay: nat)
    requires conf.Accepted() && Underway(g, conf, script, deadline, start) && |script| == conf.retries + 1
    requires timeout > 0 && delay > 0 && Transient(err) && |g.delays| < conf.retries
    requires timeout == Least(conf.connectMs, Remaining(deadline, start + Spent(script, |g.timeouts|)))
    requires var i := |g.timeouts|;
             delay == Least(BASE_DELAY_MS * Pow2(i), Remaining(deadline, start + Spent(script, i) + script[i].elapsed))
    ensures Underway(Given(g.timeouts + [timeout], g.delays + [delay], g.errors + [err], false), conf, script,
            deadline, start)
  {
    hide Pow2, Remaining, Spent;
    OneFailure(g, conf, script, deadline, start, timeout, err);
    var h := Given(g.timeouts + [timeout], g.delays + [delay], g.errors + [err], false);
    assert forall i | 0 <= i < |g.delays| :: h.delays[i] == g.delays[i] && h.errors[i] == g.errors[i];
  }

  lemma NothingYet(conf: Config, script: seq<Attempt>, deadline: int, start: int)
    requires conf.Accepted()
    ensures Underway(Given([], [], [], false), conf, script, deadline, start)
  {
  }

  lemma NothingFollows(script: seq<Attempt>, tooLong: bool)
    ensures Follows(Given([], [], [], false), script, tooLong, false)
  {
  }

  lemma SameAttempts(g: Given, h: Given, script: seq<Attempt>, tooLong: bool, connected: bool)
    requires Follows(g, script, tooLong, connected) && h.timeouts == g.timeouts && h.errors == g.errors
    ensures Follows(h, script, tooLong, connected)
  {
  }

  lemma LastConnects(g: Given, script: seq<Attempt>, tooLong: bool, timeout: nat)
    requires Follows(g, script, tooLong, false) && |g.timeouts| < |script| && Connects(script[|g.timeouts|], tooLong)
    ensures Follows(g.(timeouts := g.timeouts + [timeout]), script, tooLong, true)
  {
    hide Connects, FailureOf;
  }

  lemma OneFails(g: Given, script: seq<Attempt>, tooLong: bool, timeout: nat, err: int)
    requires Follows(g, script, tooLong, false) && |g.timeouts| < |script|
    requires !Connects(script[|g.timeouts|], tooLong) && err == FailureOf(script[|g.timeouts|], tooLong)
    ensures Follows(g.(timeouts := g.timeouts + [timeout], errors := g.errors + [err]), script, tooLong, false)
  {
    hide Connects, FailureOf;
    var h := g.(errors := g.errors + [err]);
    assert forall i | 0 <= i < |g.errors| :: h.errors[i] == g.errors[i];
  }

  /** The loop itself. */
  method RetryLoop(k: Kernel, conf: Config, tooLong: bool, script: seq<Attempt>, deadline: int)
    returns (sock: Option<nat>, given: Given)
    requires k.Valid() && conf.Accepted() && |script| == conf.retries + 1
    modifies k
    ensures k.Valid() && k.transferred == old(k.transferred)
    ensures Bounded(given, conf) && Clocked(given, conf, script, deadline, old(k.now))
            && k.now == EndOf(given, script, old(k.now))
    ensures k.open == old(k.open) + (if sock.Some? then {sock.value} else {})
    ensures sock.Some? ==> sock.value !in old(k.open)
    ensures k.openCount - k.closeCount == old(k.openCount - k.closeCount) + (if sock.Some? then 1 else 0)
    ensures sock.Some? ==> Reaches(script, tooLong)
    ensures sock == None && !given.expired ==> !Reaches(script, tooLong)
    ensures Follows(given, script, tooLong, sock.Some?)
  {
    hide Connects, FailureOf, Reaches, Transient, Pow2, Bounded, Clocked, Remaining, Follows;
    sock := None;
    given := Given([], [], [], false);
    var attempt := 0;
    ghost var start := k.now;
    NothingYet(conf, script, deadline, start);
    NothingFollows(script, tooLong);
    while attempt <= conf.retries
      invariant 0 <= attempt <= conf.retries && sock == None
      invariant k.Valid() && k.transferred == old(k.transferred) && k.open == old(k.open)
      invariant k.openCount - k.closeCount == old(k.openCount - k.closeCount)
      invariant Underway(given, conf, script, deadline, start) && |given.timeouts| == attempt
      invariant k.now == start + Spent(script, attempt) && Follows(given, script, tooLong, false)
      invariant forall i | 0 <= i < attempt :: Retried(script[i], tooLong)
      decreases conf.retries - attempt
    {
      var timeout, err;
      sock, timeout, err := TryOnce(k, conf, deadline, script[attempt], tooLong);
      if timeout == 0 {
        ExpiresEarly(given, conf, script, deadline, start);
        SameAttempts(given, given.(expired := true), script, tooLong, false);
        given := given.(expired := true);
        break;
      }
      if sock.Some? {
        OneAttempt(given, conf, script, deadline, start, timeout);
        Reached(script, tooLong, attempt);
        LastConnects(given, script, tooLong, timeout);
        given := given.(timeouts := given.timeouts + [timeout]);
        break;
      }
      OneFailure(given, conf, script, deadline, start, timeout, err);
      OneFails(given, script, tooLong, timeout, err);
      ghost var tried := given.(timeouts := given.timeouts + [timeout], errors := given.errors + [err]);
      if attempt >= conf.retries || !Transient(err) {
        NotReached(script, tooLong, attempt);
        given := given.(timeouts := given.timeouts + [timeout], errors := given.errors + [err]);
        break;
      }
      var delay := BackOff(k, attempt, deadline, script[attempt]);
      if delay == 0 {
        given := Given(given.timeouts + [timeout], given.delays, given.errors + [err], true);
        SameAttempts(tried, given, script, tooLong, false);
        break;
      }
      OneTurn(given, conf, script, deadline, start, timeout, err, delay);
      given := Given(given.timeouts + [timeout], given.delays + [delay], given.errors + [err], false);
      SameAttempts(tried, given, script, tooLong, false);
      attempt := attempt + 1;
    }
  }

  lemma NotExpired(g: Given, conf: Config)
    requires Unshortened(g, conf)
    ensures !g.expired
  {
  }

  /**
   * `connect_with_retry`: at most one socket stays open; only transient errors are retried; each attempt
   * and sleep gets what it asks for or what is left; and with the whole budget ahead, a run that keeps to
   * its plan is given everything in full, connects if any attempt it is meant to make does, and leaves the
   * send its timeout.
   */
  method ConnectWithRetry(k: Kernel, conf: Config, tooLong: bool, script: seq<Attempt>, deadline: int)
    returns (sock: Option<nat>, given: Given)
    requires k.Valid() && conf.Accepted() && |script| == conf.retries + 1
    modifies k
    ensures k.Valid() && k.transferred == old(k.transferred)
    ensures Bounded(given, conf) && Clocked(given, conf, script, deadline, old(k.now))
            && k.now == EndOf(given, script, old(k.now))
    ensures k.open == old(k.open) + (if sock.Some? then {sock.value} else {})
    ensures sock.Some? ==> sock.value !in old(k.open)
    ensures k.openCount - k.closeCount == old(k.openCount - k.closeCount) + (if sock.Some? then 1 else 0)
    ensures sock.Some? ==> Reaches(script, tooLong)
    ensures sock == None && !given.expired ==> !Reaches(script, tooLong)
    ensures Follows(given, script, tooLong, sock.Some?)
    ensures old(deadline - k.now >= 1000 * Budget(conf)) && OnTime(given, conf, script) ==>
              && Unshortened(given, conf) && deadline - k.now >= 1000 * conf.sendMs
              && (sock.Some? <==> Reaches(script, tooLong))
  {
    hide Connects, FailureOf, Reaches, Transient, Budget, Bounded, Clocked, OnTime, Unshortened, Follows;
    ghost var start := k.now;
    sock, given := RetryLoop(k, conf, tooLong, script, deadline);
    if deadline - start >= 1000 * Budget(conf) && OnTime(given, conf, script) {
      OnTimeKeepsAll(given, conf, script, deadline, start);
      assert !given.expired by { NotExpired(given, conf); }
    }
  }

  // ----- passing the descriptor

  /** What `sendmsg` does: an error, or a number of bytes sent together with the descriptor. */
  datatype Send = SendFailed(e: int) | Sent(n: nat)

  /** `SOCK_SEQPACKET`: a message goes as a whole or not at all. */
  predicate Atomic(send: Send, dataLen: nat) {
    send.Sent? ==> send.n >= dataLen
  }

  /** `send_fd_with_data`; `given` is how long it may wait for the socket. */
  method SendFdWithData(k: Kernel, dataLen: nat, timeoutMs: nat, deadline: int, ready: Poll, send: Send)
    returns (ok: bool, fdWasSent: bool, given: nat)
    requires 0 < timeoutMs <= INT32_MAX
    modifies k`transferred
    ensures ok == fdWasSent
    ensures k.transferred <==> old(k.transferred) || (given > 0 && ready == Writable && send.Sent?)
    ensures ok <==> given > 0 && ready == Writable && send.Sent? && send.n >= dataLen
    ensures given == Least(timeoutMs, Remaining(deadline, k.now))
  {
    ok, fdWasSent, given := false, false, 0;
    var remaining := Remaining(deadline, k.now);
    if remaining <= 0 {
      return;
    }
    given := if remaining < timeoutMs then remaining else timeoutMs;
    if ready != Writable {
      return;
    }
    if send.SendFailed? {
      return;
    }
    k.transferred := true;
    if dataLen > 0 && send.n < dataLen {
      return;
    }
    ok, fdWasSent := true, true;
  }

  // ----- the output filter

  const HTTP_FORBIDDEN: nat := 403
  const HTTP_INTERNAL_SERVER_ERROR: nat := 500
  const HTTP_SERVICE_UNAVAILABLE: nat := 503

  /** What goes down the filter chain: the original response, an error page, or nothing. */
  datatype Passed = Original | ErrorPage(status: nat) | Nothing

  /** The connection record: which socket Apache will close, and whether it is done with it. */
  class Connection {
    var dummy: bool
    var aborted: bool

    constructor ()
      ensures !dummy && !aborted
    {
      dummy := false;
      aborted := false;
    }
  }

  /** A request, and how the calls the filter makes on its behalf turn out. */
  datatype Request = Request(
    path: bool, protocol: nat, pathAllowed: bool, dummyCreated: bool, hasSocket: bool, hasFd: bool,
    pathTooLong: bool, attempts: seq<Attempt>, dataLen: nat, ready: Poll, send: Send)
  {
    /** The whole message goes. */
    predicate Sends() {
      ready == Writable && send.Sent? && send.n >= dataLen
    }

    /** Some attempt connects, and the whole message goes. */
    ghost predicate Succeeds() {
      Reaches(attempts, pathTooLong) && Sends()
    }
  }

  /** Nothing stops the filter before it starts connecting. */
  predicate Connectable(r: Request) {
    r.path && r.protocol < 2000 && r.pathAllowed && r.dummyCreated && r.hasSocket && r.hasFd
  }

  /** A run of the loop from `start` to `end`, under the deadline the filter computes. */
  predicate Ran(g: Given, conf: Config, script: seq<Attempt>, start: int, end: int)
    requires conf.Accepted()
  {
    && Bounded(g, conf) && Clocked(g, conf, script, start + 1000 * Budget(conf), start)
    && end == EndOf(g, script, start)
  }

  lemma SendFits(conf: Config, deadline: int, now: int)
    requires conf.Accepted() && deadline - now >= 1000 * conf.sendMs
    ensures Least(conf.sendMs, Remaining(deadline, now)) == conf.sendMs
  {
    RemainingAtLeast(deadline, now, conf.sendMs);
  }

  /**
   * The filter from the deadline on: connect, pass the descriptor, close the daemon socket. The branch
   * that commits a send that failed after the descriptor had gone is never taken.
   */
  method HandOver(k: Kernel, c: Connection, conf: Config, r: Request)
      returns (status: nat, given: Given, sendGiven: nat)
    requires k.Valid() && conf.Accepted() && |r.attempts| == conf.retries + 1 && !k.transferred && !c.dummy
             && !c.aborted
    modifies k, c
    ensures k.Valid() && k.open == old(k.open) && k.openCount - k.closeCount == old(k.openCount - k.closeCount)
    ensures status == 0 || status == HTTP_INTERNAL_SERVER_ERROR || status == HTTP_SERVICE_UNAVAILABLE
    ensures (status == 0) == c.dummy == c.aborted
    ensures status == 0 ==> k.transferred
    ensures k.transferred ==> (status == 0 <==> Atomic(r.send, r.dataLen))
    ensures Ran(given, conf, r.attempts, old(k.now), k.now)
    ensures Follows(given, r.attempts, r.pathTooLong, status != HTTP_SERVICE_UNAVAILABLE)
    ensures status == HTTP_SERVICE_UNAVAILABLE ==> given.expired || !Reaches(r.attempts, r.pathTooLong)
    ensures status != HTTP_SERVICE_UNAVAILABLE ==>
              && Reaches(r.attempts, r.pathTooLong)
              && sendGiven == Least(conf.sendMs, Remaining(old(k.now) + 1000 * Budget(conf), k.now))
              && (status == 0 <==> sendGiven > 0 && r.Sends())
    ensures OnTime(given, conf, r.attempts) ==>
              && Unshortened(given, conf)
              && (status == HTTP_SERVICE_UNAVAILABLE <==> !Reaches(r.attempts, r.pathTooLong))
              && (status != HTTP_SERVICE_UNAVAILABLE ==> sendGiven == conf.sendMs)
              && (status == 0 <==> r.Succeeds())
  {
    hide Bounded, Clocked, OnTime, Unshortened, Connects, Reaches, Pow2, EndOf, Follows, Budget, Remaining;
    sendGiven := 0;
    var deadline := ComputeHandoffDeadline(conf, k.now);
    var sock;
    sock, given := ConnectWithRetry(k, conf, r.pathTooLong, r.attempts, deadline);
    if sock == None {
      return HTTP_SERVICE_UNAVAILABLE, given, 0;
    }
    if deadline - k.now >= 1000 * conf.sendMs {
      SendFits(conf, deadline, k.now);
    }
    var ok, fdWasSent;
    ok, fdWasSent, sendGiven := SendFdWithData(k, r.dataLen, conf.sendMs, deadline, r.ready, r.send);
    if !ok {
      assert !fdWasSent;
      k.Close(sock.value);
      return HTTP_INTERNAL_SERVER_ERROR, given, sendGiven;
    }
    k.Close(sock.value);
    c.dummy := true;
    c.aborted := true;
    status := 0;
  }

  /** The daemon refuses the first `n` connections and accepts the next one at once. */
  predicate AcceptsAfter(script: seq<Attempt>, n: nat) {
    && n < |script| && script[n].socket == Done && script[n].connect == Done
    && forall i | 0 <= i < n :: script[i].socket == Done && script[i].connect == Errno(ECONNREFUSED)
  }

  lemma AcceptedIsReached(script: seq<Attempt>, n: nat)
    requires AcceptsAfter(script, n)
    ensures Reaches(script, false)
  {
    Reached(script, false, n);
  }

  /** It fails every connection with this error. */
  predicate AlwaysFails(script: seq<Attempt>, e: int) {
    e != EINPROGRESS && forall a | a in script :: a.socket == Done && a.connect == Errno(e)
  }

  lemma FailuresReachNothing(script: seq<Attempt>, tooLong: bool, e: int)
    requires AlwaysFails(script, e)
    ensures !Reaches(script, tooLong)
  {
    forall n: nat | n < |script|
      ensures !Connects(script[n], tooLong)
    {
      assert script[n] in script;
    }
  }

  /**
   * `socket_handoff_output_filter`: on every way out each socket it opened is closed and no other is,
   * and either the client belongs to the daemon and Apache is left with the dummy, or Apache keeps the
   * client and answers it.
   */
  method OutputFilter(k: Kernel, c: Connection, conf: Config, r: Request) returns (passed: Passed, ghost given: Given)
    requires k.Valid() && conf.Accepted() && |r.attempts| == conf.retries + 1 && !k.transferred && !c.dummy
             && !c.aborted
    modifies k, c
    ensures k.open == old(k.open) && k.openCount - k.closeCount == old(k.openCount - k.closeCount)
    ensures c.dummy == c.aborted == (passed == Nothing)
    ensures c.dummy ==> k.transferred
    ensures (c.dummy <==> k.transferred) <==> Atomic(r.send, r.dataLen) || !k.transferred
    ensures passed == Original <==> !r.path
    ensures r.path && !Connectable(r) ==> passed.ErrorPage? && k.openCount == old(k.openCount)
    ensures !Connectable(r) ==> k.now == old(k.now)
    ensures Connectable(r) ==>
              && Ran(given, conf, r.attempts, old(k.now), k.now)
              && var refused := passed == ErrorPage(HTTP_SERVICE_UNAVAILABLE);
                 && Follows(given, r.attempts, r.pathTooLong, !refused)
                 && (refused ==> given.expired || !Reaches(r.attempts, r.pathTooLong))
                 && (!refused ==>
                       && Reaches(r.attempts, r.pathTooLong)
                       && var left := Remaining(old(k.now) + 1000 * Budget(conf), k.now);
                          passed == if left > 0 && r.Sends() then Nothing
                                    else ErrorPage(HTTP_INTERNAL_SERVER_ERROR))
    ensures Connectable(r) && (OnTime(given, conf, r.attempts) || Prompt(conf, r.attempts)) ==>
              && (passed == Nothing <==> r.Succeeds())
              && (passed == ErrorPage(HTTP_SERVICE_UNAVAILABLE) <==> !Reaches(r.attempts, r.pathTooLong))
    ensures Connectable(r) && Prompt(conf, r.attempts) && !r.pathTooLong && r.Sends() ==>
              forall n | AcceptsAfter(r.attempts, n) :: passed == Nothing
    ensures Connectable(r) ==> forall e | AlwaysFails(r.attempts, e) :: passed == ErrorPage(HTTP_SERVICE_UNAVAILABLE)
    ensures r.path && !Connectable(r) ==>
              var forbidden := r.protocol < 2000 && !r.pathAllowed;
              passed == ErrorPage(if forbidden then HTTP_FORBIDDEN else HTTP_INTERNAL_SERVER_ERROR)
  {
    hide OnTime, Reaches, Prompt, Bounded, Clocked, Follows, EndOf, Unshortened, Budget, Remaining, AcceptsAfter,
         AlwaysFails;
    given := Given([], [], [], false);
    if !r.path {
      return Original, given;
    }
    var status;
    if r.protocol >= 2000 {
      status := HTTP_INTERNAL_SERVER_ERROR;
    } else if !r.pathAllowed {
      status := HTTP_FORBIDDEN;
    } else if !r.dummyCreated {
      status := HTTP_INTERNAL_SERVER_ERROR;
    } else if !r.hasSocket {
      status := HTTP_INTERNAL_SERVER_ERROR;
    } else if !r.hasFd {
      status := HTTP_INTERNAL_SERVER_ERROR;
    } else {
      var told, sendGiven;
      status, told, sendGiven := HandOver(k, c, conf, r);
      given := told;
      if Prompt(conf, r.attempts) {
        PromptIsOnTime(given, conf, r.attempts);
      }
      forall n | AcceptsAfter(r.attempts, n)
        ensures Reaches(r.attempts, false)
      {
        AcceptedIsReached(r.attempts, n);
      }
      forall e | AlwaysFails(r.attempts, e)
        ensures !Reaches(r.attempts, r.pathTooLong)
      {
        FailuresReachNothing(r.attempts, r.pathTooLong, e);
      }
    }
    passed := if status != 0 then ErrorPage(status) else Nothing;
  }
}
