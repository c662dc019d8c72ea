/**
 * The Apache module's time budget (mod_socket_handoff.c): which configurations the directives
 * accept, and the one deadline computed for all connect attempts, backoffs and the send.
 */
module HandoffDeadline {
  import opened Bytes

  const MAX_TIMEOUT_MS: nat := 60000
  const MAX_RETRIES: nat := 10
  const BASE_DELAY_MS: nat := 10
  const INT32_MAX: nat := 0x7FFF_FFFF

  datatype Config = Config(connectMs: int, connectSet: bool, sendMs: int, sendSet: bool, retries: int,
      retriesSet: bool) {
    /** What every chain of directives and merges produces. */
    predicate Accepted() {
      1 <= connectMs <= MAX_TIMEOUT_MS && 1 <= sendMs <= MAX_TIMEOUT_MS && 0 <= retries <= MAX_RETRIES
    }
  }

  const DEFAULTS: Config := Config(100, false, 200, false, 2, false)

  /** A parsed directive argument: None when `strtol` rejects it or overflows. */
  method SetConnectTimeout(conf: Config, arg: Option<int>) returns (ok: bool, r: Config)
    ensures ok <==> arg.Some? && 1 <= arg.value <= MAX_TIMEOUT_MS
    ensures r == if ok then conf.(connectMs := arg.value, connectSet := true) else conf
  {
    if arg.None? || arg.value < 1 || arg.value > MAX_TIMEOUT_MS {
      return false, conf;
    }
    return true, conf.(connectMs := arg.value, connectSet := true);
  }

  method SetSendTimeout(conf: Config, arg: Option<int>) returns (ok: bool, r: Config)
    ensures ok <==> arg.Some? && 1 <= arg.value <= MAX_TIMEOUT_MS
    ensures r == if ok then conf.(sendMs := arg.value, sendSet := true) else conf
  {
    if arg.None? || arg.value < 1 || arg.value > MAX_TIMEOUT_MS {
      return false, conf;
    }
    return true, conf.(sendMs := arg.value, sendSet := true);
  }

  method SetMaxRetries(conf: Config, arg: Option<int>) returns (ok: bool, r: Config)
    ensures ok <==> arg.Some? && 0 <= arg.value <= MAX_RETRIES
    ensures r == if ok then conf.(retries := arg.value, retriesSet := true) else conf
  {
    if arg.None? || arg.value < 0 || arg.value > MAX_RETRIES {
      return false, conf;
    }
    return true, conf.(retries := arg.value, retriesSet := true);
  }

  function Merge(base: Config, add: Config): Config {
    Config(if add.connectSet then add.connectMs else base.connectMs, add.connectSet || base.connectSet,
           if add.sendSet then add.sendMs else base.sendMs, add.sendSet || base.sendSet,
           if add.retriesSet then add.retries else base.retries, add.retriesSet || base.retriesSet)
  }

  datatype Setting = ConnectMs | SendMs | RetryCount {
    function In(conf: Config): int {
      match this
      case ConnectMs => conf.connectMs
      case SendMs => conf.sendMs
      case RetryCount => conf.retries
    }

    predicate IsSet(conf: Config) {
      match this
      case ConnectMs => conf.connectSet
      case SendMs => conf.sendSet
      case RetryCount => conf.retriesSet
    }
  }

  datatype Directive = ConnectTimeout(arg: Option<int>) | SendTimeout(arg: Option<int>) | Retries(arg: Option<int>) {
    /** What the directive sets this setting to, if it is accepted and about it. */
    function Value(setting: Setting): Option<int> {
      if arg == None then None
      else
        match setting
        case ConnectMs => if ConnectTimeout? && 1 <= arg.value <= 60000 then arg else None
        case SendMs => if SendTimeout? && 1 <= arg.value <= 60000 then arg else None
        case RetryCount => if Retries? && 0 <= arg.value <= 10 then arg else None
    }

    predicate Accepted() {
      Value(ConnectMs).Some? || Value(SendMs).Some? || Value(RetryCount).Some?
    }
  }

  /** Directive `i` is the last accepted one for this setting. */
  predicate LastSets(directives: seq<Directive>, i: nat, setting: Setting) {
    && i < |directives| && directives[i].Value(setting).Some?
    && forall j | i < j < |directives| :: directives[j].Value(setting) == None
  }

  predicate NeverSets(directives: seq<Directive>, setting: Setting) {
    forall j | 0 <= j < |directives| :: directives[j].Value(setting) == None
  }

  /** One setting after the directives, over the defaults. */
  ghost predicate SetBy(conf: Config, directives: seq<Directive>, setting: Setting) {
    && (setting.IsSet(conf) <==> !NeverSets(directives, setting))
    && forall i: nat | LastSets(directives, i, setting) :: directives[i].Value(setting) == Some(setting.In(conf))
  }

  lemma OneMoreDirective(before: Config, after: Config, directives: seq<Directive>, d: Directive, setting: Setting)
    requires SetBy(before, directives, setting)
    requires match d.Value(setting)
             case None => setting.In(after) == setting.In(before) && setting.IsSet(after) == setting.IsSet(before)
             case Some(n) => setting.In(after) == n && setting.IsSet(after)
    ensures SetBy(after, directives + [d], setting)
  {
    var all := directives + [d];
    assert all[|directives|] == d && forall j | 0 <= j < |directives| :: all[j] == directives[j];
    forall i: nat | LastSets(all, i, setting)
      ensures all[i].Value(setting) == Some(setting.In(after))
    {
      if i < |directives| {
        assert LastSets(directives, i, setting);
      }
    }
  }

  lemma LastIsSet(directives: seq<Directive>, i: nat, setting: Setting)
    requires LastSets(directives, i, setting)
    ensures !NeverSets(directives, setting)
  {
  }

  lemma NothingSet(setting: Setting)
    ensures SetBy(DEFAULTS, [], setting)
  {
  }

  /**
   * However servers are configured and merged, each setting is what the last accepted directive for it says, or else
   * that of the base; so only accepted configurations arise.
   */
  method Configure(base: Config, directives: seq<Directive>) returns (conf: Config, allOk: bool)
    requires base.Accepted()
    ensures conf.Accepted() && (allOk <==> forall d | d in directives :: d.Accepted())
    ensures forall setting: Setting, i: nat | i < |directives| && LastSets(directives, i, setting) ::
              directives[i].Value(setting) == Some(setting.In(conf))
    ensures forall setting: Setting | NeverSets(directives, setting) :: setting.In(conf) == setting.In(base)
  {
    hide LastSets, NeverSets;
    var own := DEFAULTS;
    allOk := true;
    NothingSet(ConnectMs);
    NothingSet(SendMs);
    NothingSet(RetryCount);
    for i := 0 to |directives|
      invariant own.Accepted() && forall setting: Setting :: SetBy(own, directives[..i], setting)
      invariant allOk <==> forall d | d in directives[..i] :: d.Accepted()
    {
      var ok: bool;
      ghost var was, d := own, directives[i];
      match directives[i] {
        case ConnectTimeout(arg) => ok, own := SetConnectTimeout(own, arg);
        case SendTimeout(arg) => ok, own := SetSendTimeout(own, arg);
        case Retries(arg) => ok, own := SetMaxRetries(own, arg);
      }
      forall setting: Setting
        ensures SetBy(own, directives[..i] + [d], setting)
      {
        OneMoreDirective(was, own, directives[..i], d, setting);
      }
      assert directives[..i + 1] == directives[..i] + [d];
      assert ok == d.Accepted() && d in directives[..i + 1];
      assert forall x | x in directives[..i + 1] :: x == d || x in directives[..i];
      allOk := allOk && ok;
    }
    assert directives[..|directives|] == directives;
    conf := Merge(base, own);
    forall setting: Setting, i: nat | i < |directives| && LastSets(directives, i, setting)
      ensures directives[i].Value(setting) == Some(setting.In(conf))
    {
      LastIsSet(directives, i, setting);
      assert SetBy(own, directives, setting);
    }
    forall setting: Setting | NeverSets(directives, setting)
      ensures setting.In(conf) == setting.In(base)
    {
      assert SetBy(own, directives, setting);
    }
  }

  // ----- powers of two and the total

  function Pow2(n: nat): (p: nat)
    ensures p >= 1
  {
    if n == 0 then 1 else 2 * Pow2(n - 1)
  }

  lemma {:induction false} Pow2Grows(k: nat, n: nat)
    requires k <= n
    ensures Pow2(k) <= Pow2(n) && (k < n ==> 2 * Pow2(k) <= Pow2(n))
  {
    if k < n {
      Pow2Grows(k, n - 1);
    }
  }

  /** Sum of the first `n` backoff delays. */
  function Backoffs(n: nat): nat {
    if n == 0 then 0 else Backoffs(n - 1) + BASE_DELAY_MS * Pow2(n - 1)
  }

  lemma {:induction false} BackoffsSum(n: nat)
    ensures Backoffs(n) == BASE_DELAY_MS * (Pow2(n) - 1)
  {
    if n > 0 {
      BackoffsSum(n - 1);
    }
  }

  /** Milliseconds for `attempts` connects, the backoffs from number `first` on, and the send. */
  function Budget(conf: Config): int {
    (conf.retries + 1) * conf.connectMs + conf.sendMs
        + BASE_DELAY_MS * (if conf.retries > 0 then Pow2(conf.retries) - 1 else 0)
  }

  lemma Pow2Ten()
    ensures Pow2(10) == 1024
  {
    assert Pow2(5) == 32;
  }

  lemma BudgetFits(conf: Config)
    requires conf.Accepted()
    ensures 1 <= Budget(conf) <= 730230 <= INT32_MAX
  {
    Pow2Grows(conf.retries, 10);
    Pow2Ten();
    assert (conf.retries + 1) * conf.connectMs <= 11 * MAX_TIMEOUT_MS;
  }

  /** `compute_handoff_deadline`, in microseconds: on an accepted configuration no clamp is active. */
  method ComputeHandoffDeadline(conf: Config, now: int) returns (deadline: int)
    ensures conf.Accepted() ==> deadline == now + 1000 * Budget(conf)
    ensures now + 1000 <= deadline <= now + 1000 * INT32_MAX
  {
    var backoff := 0;
    if conf.retries > 0 {
      var safe := if conf.retries > 30 then 30 else conf.retries;
      backoff := BASE_DELAY_MS * (Pow2(safe) - 1);
    }
    var total := (conf.retries + 1) * conf.connectMs + conf.sendMs + backoff;
    if conf.Accepted() {
      BudgetFits(conf);
    }
    if total < 1 {
      total := 1;
    }
    if total > INT32_MAX {
      total := INT32_MAX;
    }
    deadline := now + total * 1000;
  }

  /** `remaining_timeout_ms`. */
  function Remaining(deadline: int, now: int): (ms: nat)
    ensures ms > 0 <==> deadline - now >= 1000
    ensures ms * 1000 <= if deadline > now then deadline - now else 0
  {
    if now >= deadline then 0
    else
      var diff := deadline - now;
      if diff / 1000 > INT32_MAX then INT32_MAX else diff / 1000
  }

  lemma RemainingAtLeast(deadline: int, now: int, need: nat)
    requires need <= INT32_MAX && deadline - now >= 1000 * need
    ensures Remaining(deadline, now) >= need
  {
  }

  // ----- what is left of the budget

  /** What must still be left when attempt `k` starts, in milliseconds. */
  function Needed(conf: Config, k: nat): int
    requires conf.Accepted()
  {
    (conf.retries + 1 - k) * conf.connectMs + conf.sendMs + BASE_DELAY_MS * (Pow2(conf.retries) - Pow2(k))
  }

  lemma NeededAtStart(conf: Config)
    requires conf.Accepted()
    ensures Needed(conf, 0) == Budget(conf)
  {
  }

  lemma Pow2Twice(k: nat)
    ensures Pow2(k + 1) == 2 * Pow2(k)
  {
  }

  lemma OneMore(n: nat, c: nat)
    ensures (n + 1) * c == c + n * c && n * c >= 0
  {
  }

  /** Attempt `k` and its backoff take what they are given; the rest is still there for what follows. */
  lemma NeededStep(conf: Config, k: nat)
    requires conf.Accepted() && k <= conf.retries
    ensures Needed(conf, k) >= conf.connectMs + conf.sendMs
    ensures k < conf.retries ==>
              && Needed(conf, k) - conf.connectMs >= BASE_DELAY_MS * Pow2(k) + conf.sendMs
              && Needed(conf, k + 1) == Needed(conf, k) - conf.connectMs - BASE_DELAY_MS * Pow2(k)
  {
    hide Pow2;
    Pow2Grows(k, conf.retries);
    OneMore(conf.retries - k, conf.connectMs);
    if k < conf.retries {
      Pow2Twice(k);
    }
  }
}
