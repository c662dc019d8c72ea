/**
 * The lock-free peak counter (streaming_daemon.go, connection.c): streams start and end
 * concurrently, and each start raises the peak in a compare-and-swap loop.
 */
module PeakCounter {

  /** Where a thread is. */
  datatype Pc =
    | Idle
    | Adding(current: int)               // active was raised to `current`; about to load the peak
    | Loaded(current: int, peak: int)    // loaded a smaller peak; about to compare and swap
    | Running                            // past the loop, its stream still counted

  datatype State = State(active: int, peak: int, threads: seq<Pc>)

  /**
   * `weak` is the C loop: a compare-and-swap that may fail for no reason, and that loads the peak
   * anew when it fails; otherwise the loop goes round to its own load.
   */
  datatype Step = Start(t: nat) | Load(t: nat) | Swap(t: nat, fails: bool, weak: bool) | End(t: nat)

  predicate Enabled(s: State, step: Step) {
    && step.t < |s.threads|
    && match step
       case Start(t) => s.threads[t] == Idle
       case Load(t) => s.threads[t].Adding?
       case Swap(t, fails, weak) => s.threads[t].Loaded? && (fails ==> weak)
       case End(t) => s.threads[t] == Running
  }

  function Goes(s: State, t: nat, pc: Pc): State
    requires t < |s.threads|
  {
    s.(threads := s.threads[t := pc])
  }

  /** The test at the top of the loop. */
  function Test(current: int, peak: int): Pc {
    if current <= peak then Running else Loaded(current, peak)
  }

  function Apply(s: State, step: Step): State
    requires Enabled(s, step)
  {
    match step
    case Start(t) => Goes(s, t, Adding(s.active + 1)).(active := s.active + 1)
    case Load(t) => Goes(s, t, Test(s.threads[t].current, s.peak))
    case Swap(t, fails, weak) =>
      var pc := s.threads[t];
      if s.peak == pc.peak && !fails then Goes(s, t, Running).(peak := pc.current)
      else if weak then Goes(s, t, Test(pc.current, s.peak))
      else Goes(s, t, Adding(pc.current))
    case End(t) => Goes(s, t, Idle).(active := s.active - 1)
  }

  predicate InLoop(pc: Pc) {
    pc.Adding? || pc.Loaded?
  }

  predicate IsRun(trace: seq<State>, steps: seq<Step>) {
    && |trace| == |steps| + 1
    && trace[0].active == trace[0].peak == 0 && (forall pc | pc in trace[0].threads :: pc == Idle)
    && forall i | 0 <= i < |steps| :: Enabled(trace[i], steps[i]) && trace[i + 1] == Apply(trace[i], steps[i])
  }

  /** The largest number of streams active at once in the first `i + 1` states. */
  function MaxActive(trace: seq<State>, i: nat): int
    requires i < |trace|
  {
    if i == 0 then trace[0].active
    else
      var m := MaxActive(trace, i - 1);
      if trace[i].active > m then trace[i].active else m
  }

  lemma {:induction false} MaxActiveIsMax(trace: seq<State>, i: nat)
    requires i < |trace|
    ensures forall j | 0 <= j <= i :: trace[j].active <= MaxActive(trace, i)
    ensures exists j :: 0 <= j <= i && trace[j].active == MaxActive(trace, i)
  {
    if i == 0 {
      assert trace[0].active == MaxActive(trace, 0);
    } else {
      MaxActiveIsMax(trace, i - 1);
      assert trace[i].active == MaxActive(trace, i) || MaxActive(trace, i) == MaxActive(trace, i - 1);
    }
  }

  /** `t` is still in its loop, on its way to raising the peak to `m`. */
  predicate OnItsWay(s: State, t: nat, m: int) {
    t < |s.threads| && InLoop(s.threads[t]) && s.threads[t].current == m
  }

  /** Relative to the largest count `m` so far. */
  ghost predicate Inv(s: State, m: int) {
    && s.peak <= m && s.active <= m
    && (forall t | 0 <= t < |s.threads| && InLoop(s.threads[t]) :: s.threads[t].current <= m)
    && (forall t | 0 <= t < |s.threads| && s.threads[t].Loaded? :: s.threads[t].peak < s.threads[t].current)
    && (s.peak == m || exists t: nat :: OnItsWay(s, t, m))
  }

  lemma StepKeepsInv(s: State, step: Step, m: int)
    requires Inv(s, m) && Enabled(s, step)
    ensures var next := Apply(s, step);
            s.peak <= next.peak && Inv(next, if next.active > m then next.active else m)
  {
    var next := Apply(s, step);
    var n := if next.active > m then next.active else m;
    if n > m {
      assert OnItsWay(next, step.t, n);
    } else if next.peak != m {
      var t: nat :| OnItsWay(s, t, m);
      assert OnItsWay(next, t, m);
    }
  }

  lemma AllIdle(threads: seq<Pc>)
    requires forall pc | pc in threads :: pc == Idle
    ensures forall t | 0 <= t < |threads| :: threads[t] == Idle
  {
    assert forall t | 0 <= t < |threads| :: threads[t] in threads;
  }

  lemma {:induction false} AlwaysInv(trace: seq<State>, steps: seq<Step>, i: nat)
    requires IsRun(trace, steps) && i < |trace|
    ensures Inv(trace[i], MaxActive(trace, i))
  {
    if i == 0 {
      AllIdle(trace[0].threads);
    } else {
      AlwaysInv(trace, steps, i - 1);
      assert trace[i - 1 + 1] == Apply(trace[i - 1], steps[i - 1]);
      StepKeepsInv(trace[i - 1], steps[i - 1], MaxActive(trace, i - 1));
    }
  }

  /** The peak never decreases. */
  lemma {:induction false} PeakNeverFalls(trace: seq<State>, steps: seq<Step>, i: nat, j: nat)
    requires IsRun(trace, steps) && i <= j < |trace|
    ensures trace[i].peak <= trace[j].peak
  {
    if i < j {
      PeakNeverFalls(trace, steps, i, j - 1);
      AlwaysInv(trace, steps, j - 1);
      assert trace[j - 1 + 1] == Apply(trace[j - 1], steps[j - 1]);
      StepKeepsInv(trace[j - 1], steps[j - 1], MaxActive(trace, j - 1));
    }
  }

  /** The peak never exceeds the largest count reached, and equals it whenever nobody is in the loop. */
  lemma PeakIsTheMaximum(trace: seq<State>, steps: seq<Step>, i: nat)
    requires IsRun(trace, steps) && i < |trace|
    ensures trace[i].peak <= MaxActive(trace, i)
    ensures (forall pc | pc in trace[i].threads :: !InLoop(pc)) ==> trace[i].peak == MaxActive(trace, i)
  {
    AlwaysInv(trace, steps, i);
    if trace[i].peak != MaxActive(trace, i) {
      var t: nat :| OnItsWay(trace[i], t, MaxActive(trace, i));
      assert trace[i].threads[t] in trace[i].threads;
    }
  }

  // ----- the count itself

  function Busy(threads: seq<Pc>): nat {
    if threads == [] then 0 else (if threads[0] == Idle then 0 else 1) + Busy(threads[1..])
  }

  lemma {:induction false} BusyUpdate(threads: seq<Pc>, t: nat, pc: Pc)
    requires t < |threads|
    ensures Busy(threads[t := pc]) ==
            Busy(threads) - (if threads[t] == Idle then 0 else 1) + (if pc == Idle then 0 else 1)
  {
    var us := threads[t := pc];
    if t == 0 {
      assert us[1..] == threads[1..];
    } else {
      BusyUpdate(threads[1..], t - 1, pc);
      assert us[1..] == threads[1..][t - 1 := pc];
    }
  }

  lemma {:induction false} NobodyBusy(threads: seq<Pc>)
    requires forall pc | pc in threads :: pc == Idle
    ensures Busy(threads) == 0
  {
    if threads != [] {
      assert threads[0] in threads && forall pc | pc in threads[1..] :: pc in threads;
      NobodyBusy(threads[1..]);
    }
  }

  /** The active count is the number of threads between start and end. */
  lemma {:induction false} ActiveCounts(trace: seq<State>, steps: seq<Step>, i: nat)
    requires IsRun(trace, steps) && i < |trace|
    ensures trace[i].active == Busy(trace[i].threads)
  {
    if i == 0 {
      NobodyBusy(trace[0].threads);
    } else {
      ActiveCounts(trace, steps, i - 1);
      var s, step := trace[i - 1], steps[i - 1];
      assert trace[i - 1 + 1] == Apply(s, step);
      BusyUpdate(s.threads, step.t, Apply(s, step).threads[step.t]);
      assert Apply(s, step).threads == s.threads[step.t := Apply(s, step).threads[step.t]];
    }
  }
}
