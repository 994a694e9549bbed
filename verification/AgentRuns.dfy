/** How an interval or a cron schedule of the Agent behaves over time. */
module AgentRuns {
  import opened Models
  import opened Timing
  import opened AgentScheduler

  function Period(sch: Sched): int
    requires sch.timing.Interval?
  {
    sch.timing.seconds * SECOND
  }

  /** An interval schedule that the Agent runs. */
  predicate Runs(sch: Sched) {
    sch.agentOwned && sch.timing.Interval? && Period(sch) > 0
  }

  predicate RunsCron(sch: Sched) {
    sch.agentOwned && sch.timing.Cron?
  }

  /** The schedule has an anchor, and all slots it has run lie before that. */
  ghost predicate Settled(s: State, sch: Sched) {
    && (Lookup(s.lastFire, sch.id).Some? || sch.createdAt.Some?)
    && forall at: int | (sch.id, at) in s.lastRun :: at <= Anchor(s, sch)
  }

  function Anchor(s: State, sch: Sched): int {
    Or(Lookup(s.lastFire, sch.id), Or(sch.createdAt, 0))
  }

  function After(s: State, sch: Sched, parse: Parser, ticks: seq<int>, n: nat): State
    requires n <= |ticks|
  {
    if n == 0 then s else Check(After(s, sch, parse, ticks, n - 1), sch, parse, ticks[n - 1]).0
  }

  /** What tick `k` triggers. */
  function Run(s: State, sch: Sched, parse: Parser, ticks: seq<int>, k: nat): Due
    requires k < |ticks|
  {
    Check(After(s, sch, parse, ticks, k), sch, parse, ticks[k]).1
  }

  /** The times of the triggers among the first `n` ticks. */
  function Triggers(s: State, sch: Sched, parse: Parser, ticks: seq<int>, n: nat): seq<int>
    requires n <= |ticks|
  {
    if n == 0 then []
    else Triggers(s, sch, parse, ticks, n - 1) + if Run(s, sch, parse, ticks, n - 1).DueAt? then [ticks[n - 1]] else []
  }

  ghost predicate Steady(ticks: seq<int>, gap: int) {
    forall i | 0 < i < |ticks| :: ticks[i - 1] < ticks[i] <= ticks[i - 1] + gap
  }

  ghost predicate Spaced(times: seq<int>, low: int, high: int) {
    forall k | 0 < k < |times| :: times[k - 1] + low <= times[k] < times[k - 1] + high
  }

  // ---------- one evaluation ----------

  lemma DivBounds(a: int, b: int)
    requires a >= 0 && b > 0
    ensures a / b * b <= a < a / b * b + b && a / b * b == a - a % b
    ensures b <= a < 2 * b ==> a / b * b == b
    ensures b <= a ==> b <= a / b * b
  {
  }

  /** The scheduled instant is the latest period boundary, and newer than every slot run before. */
  lemma StepFacts(s: State, sch: Sched, parse: Parser, now: int)
    requires Runs(sch) && Settled(s, sch)
    ensures var p, elapsed := Period(sch), now - Anchor(s, sch);
            var t, due := Check(s, sch, parse, now).0, Check(s, sch, parse, now).1;
            && Settled(t, sch)
            && (due.DueAt? <==> p <= elapsed && (elapsed < 2 * p || sch.policy.RunOnce?))
            && (due.DueAt? ==> Lookup(t.lastFire, sch.id) == Some(now) && due.at <= now < due.at + p && Anchor(s, sch) + p <= due.at)
            && (due.NotDue? && elapsed < 2 * p ==> t == s)
  {
    var elapsed := now - Anchor(s, sch);
    if elapsed >= 0 { DivBounds(elapsed, Period(sch)); }
    var a := IntervalRun(sch.timing.seconds, sch.policy, Lookup(s.lastFire, sch.id), sch.createdAt, now);
    if a.due.DueAt? {
      assert (sch.id, a.due.at) !in s.lastRun;
    }
  }

  // ---------- over ticks ----------

  lemma {:induction false} SettledAfter(s: State, sch: Sched, parse: Parser, ticks: seq<int>, n: nat)
    requires Runs(sch) && Settled(s, sch) && n <= |ticks|
    ensures Settled(After(s, sch, parse, ticks, n), sch)
  {
    if n > 0 {
      SettledAfter(s, sch, parse, ticks, n - 1);
      StepFacts(After(s, sch, parse, ticks, n - 1), sch, parse, ticks[n - 1]);
    }
  }

  /** Every run carries the latest period boundary: it is never in the future, and less than one
      period old. */
  lemma {:induction false} ScheduledAtIsLatest(s: State, sch: Sched, parse: Parser, ticks: seq<int>, k: nat)
    requires Runs(sch) && Settled(s, sch) && k < |ticks| && Run(s, sch, parse, ticks, k).DueAt?
    ensures Run(s, sch, parse, ticks, k).at <= ticks[k] < Run(s, sch, parse, ticks, k).at + Period(sch)
  {
    SettledAfter(s, sch, parse, ticks, k);
    StepFacts(After(s, sch, parse, ticks, k), sch, parse, ticks[k]);
  }

  /** While the scheduler ticks at least once a period, triggers are at least a period and less than a
      period and a gap apart, under either policy, and after the first one there is always one less
      than a period ago. */
  lemma {:induction false} TriggersSpaced(s: State, sch: Sched, parse: Parser, ticks: seq<int>, gap: int, n: nat)
    requires Runs(sch) && Settled(s, sch) && n <= |ticks| && Steady(ticks, gap) && 0 <= gap <= Period(sch)
    ensures var times := Triggers(s, sch, parse, ticks, n);
            && Spaced(times, Period(sch), Period(sch) + gap)
            && (times != [] ==> n > 0 && Lookup(After(s, sch, parse, ticks, n).lastFire, sch.id) == Some(times[|times| - 1])
                                && times[|times| - 1] <= ticks[n - 1] < times[|times| - 1] + Period(sch))
  {
    hide Check;
    if n > 0 {
      TriggersSpaced(s, sch, parse, ticks, gap, n - 1);
      SettledAfter(s, sch, parse, ticks, n - 1);
      StepFacts(After(s, sch, parse, ticks, n - 1), sch, parse, ticks[n - 1]);
    }
  }

  /** So the j-th trigger lies j periods, and less than j periods and gaps, after the first. */
  lemma {:induction false} TriggerTimes(s: State, sch: Sched, parse: Parser, ticks: seq<int>, gap: int, n: nat, j: nat)
    requires Runs(sch) && Settled(s, sch) && n <= |ticks| && Steady(ticks, gap) && 0 <= gap <= Period(sch)
    ensures var times := Triggers(s, sch, parse, ticks, n);
            0 < j < |times| ==> times[0] + j * Period(sch) <= times[j] < times[0] + j * (Period(sch) + gap)
  {
    TriggersSpaced(s, sch, parse, ticks, gap, n);
    if j < |Triggers(s, sch, parse, ticks, n)| {
      SpacedSum(Triggers(s, sch, parse, ticks, n), Period(sch), Period(sch) + gap, j);
    }
  }

  lemma {:induction false} SpacedSum(times: seq<int>, low: int, high: int, j: nat)
    requires Spaced(times, low, high) && j < |times|
    ensures times[0] + j * low <= times[j] <= times[0] + j * high && (j > 0 ==> times[j] < times[0] + j * high)
  {
    if j > 0 {
      SpacedSum(times, low, high, j - 1);
      assert j * low == (j - 1) * low + low && j * high == (j - 1) * high + high;
    }
  }

  // ---------- after an outage ----------

  lemma SkipArithmetic(seconds: int, fire: Option<int>, createdAt: Option<int>, now: int, later: int)
    requires var p, anchor := seconds * SECOND, IntervalAnchor(fire, createdAt, now);
             p > 0 && now - anchor >= 2 * p && now < later <= now + p
    ensures var p, anchor := seconds * SECOND, IntervalAnchor(fire, createdAt, now);
            var boundary := anchor + ((now - anchor) / p + 1) * p;
            var a := IntervalRun(seconds, Skip, fire, createdAt, now);
            && a == Answer(NotDue, Some(boundary - p)) && now < boundary <= now + p
            && IntervalRun(seconds, Skip, a.fire, createdAt, later) ==
               Answer(if later < boundary then NotDue else DueAt(boundary), a.fire)
  {
    var p, anchor := seconds * SECOND, IntervalAnchor(fire, createdAt, now);
    var elapsed := now - anchor;
    DivBounds(elapsed, p);
    assert (elapsed / p + 1) * p == elapsed / p * p + p;
    var restart := now - elapsed % p;
    if later - restart >= 0 { DivBounds(later - restart, p); }
  }

  /** SKIP gives up the one evaluation that finds more than one period missed, whatever the length of
      the outage, and then fires at the next boundary of the old grid, in a slot that was never run. */
  lemma {:induction false} SkipResumesOnGrid(s: State, sch: Sched, parse: Parser, now: int, later: int)
    requires Runs(sch) && Settled(s, sch) && sch.policy.Skip?
    requires now - Anchor(s, sch) >= 2 * Period(sch) && now < later <= now + Period(sch)
    ensures var boundary := Anchor(s, sch) + ((now - Anchor(s, sch)) / Period(sch) + 1) * Period(sch);
            var t := Check(s, sch, parse, now).0;
            && now < boundary <= now + Period(sch)
            && Check(s, sch, parse, now).1 == NotDue && Lookup(t.lastFire, sch.id) == Some(boundary - Period(sch))
            && Check(t, sch, parse, later).1 == if later < boundary then NotDue else DueAt(boundary)
  {
    SkipArithmetic(sch.timing.seconds, Lookup(s.lastFire, sch.id), sch.createdAt, now, later);
    StepFacts(s, sch, parse, now);
    StepFacts(Check(s, sch, parse, now).0, sch, parse, later);
  }

  /** RUN_ONCE makes up for the whole outage with one run at the latest boundary, and starts a new
      grid there and then: the next run is not due for a full period. */
  lemma {:induction false} RunOnceStartsNewGrid(s: State, sch: Sched, parse: Parser, now: int, later: int)
    requires Runs(sch) && Settled(s, sch) && sch.policy.RunOnce?
    requires now - Anchor(s, sch) >= 2 * Period(sch) && now < later
    ensures var due := Check(s, sch, parse, now).1;
            && due.DueAt? && due.at <= now < due.at + Period(sch)
            && (Check(Check(s, sch, parse, now).0, sch, parse, later).1.DueAt? <==> later >= now + Period(sch))
  {
    StepFacts(s, sch, parse, now);
    StepFacts(Check(s, sch, parse, now).0, sch, parse, later);
  }

  /** Without a last fire and without a creation time the anchor is always now: such a schedule never
      runs. */
  lemma {:induction false} NoAnchorNeverRuns(s: State, sch: Sched, parse: Parser, ticks: seq<int>, n: nat)
    requires Runs(sch) && n <= |ticks| && sch.createdAt.None? && sch.id !in s.lastFire
    ensures Triggers(s, sch, parse, ticks, n) == [] && After(s, sch, parse, ticks, n) == s
  {
    if n > 0 {
      NoAnchorNeverRuns(s, sch, parse, ticks, n - 1);
    }
  }

  // ---------- cron ----------

  function AllAble(ticks: seq<int>): (r: seq<Tick>)
    ensures |r| == |ticks| && forall k | 0 <= k < |r| :: r[k] == Tick(ticks[k], true)
  {
    seq(|ticks|, k requires 0 <= k < |ticks| => Tick(ticks[k], true))
  }

  /** The table of slots never suppresses a cron run, so the Agent follows the common cron rule: what
      holds of that rule over all ticks holds of the Agent between two restarts. */
  lemma {:induction false} CronFollowsRule(s: State, sch: Sched, parse: Parser, matches: int -> bool, next: int -> int, ticks: seq<int>, n: nat)
    requires RunsCron(sch) && Settled(s, sch) && parse(sch.timing.expression) == Some(next) && IsNext(matches, next)
    requires n <= |ticks| && Increasing(AllAble(ticks), Anchor(s, sch))
    ensures Settled(After(s, sch, parse, ticks, n), sch)
    ensures Anchor(After(s, sch, parse, ticks, n), sch) == RefAt(next, Anchor(s, sch), AllAble(ticks), n)
    ensures forall k | 0 <= k < n :: Run(s, sch, parse, ticks, k) == FiredAt(next, Anchor(s, sch), AllAble(ticks), k)
  {
    hide Check, DueFrom, Settled;
    if n > 0 {
      CronFollowsRule(s, sch, parse, matches, next, ticks, n - 1);
      CronStep(After(s, sch, parse, ticks, n - 1), sch, parse, matches, next, ticks[n - 1]);
      RefGrows(next, Anchor(s, sch), AllAble(ticks), 0, n - 1);
      assert AllAble(ticks)[n - 1] == Tick(ticks[n - 1], true);
    }
  }

  lemma CronStep(s: State, sch: Sched, parse: Parser, matches: int -> bool, next: int -> int, now: int)
    requires RunsCron(sch) && Settled(s, sch) && parse(sch.timing.expression) == Some(next) && IsNext(matches, next)
    ensures var t, due := Check(s, sch, parse, now).0, Check(s, sch, parse, now).1;
            && due == DueFrom(next, Anchor(s, sch), now)
            && Settled(t, sch) && Anchor(t, sch) == if due.DueAt? then now else Anchor(s, sch)
  {
  }

  // ---------- one-time schedules ----------

  /** A one-time schedule with RUN_ONCE triggers exactly once, at the first tick after its instant; with
      SKIP, or without an instant, it never does. */
  lemma {:induction false} OneTimeTriggersOnce(s: State, sch: Sched, parse: Parser, ticks: seq<int>, k: nat)
    requires sch.agentOwned && sch.timing.OneTime? && k < |ticks| && forall at: int :: (sch.id, at) !in s.lastRun
    ensures Run(s, sch, parse, ticks, k) ==
            if sch.policy == RunOnce && sch.timing.runAt.Some? && ticks[k] > sch.timing.runAt.value
               && forall j | 0 <= j < k :: ticks[j] <= sch.timing.runAt.value
            then DueAt(sch.timing.runAt.value) else NotDue
  {
    if sch.timing.runAt.Some? && sch.policy == RunOnce {
      OneTimeSlots(s, sch, parse, ticks, k, sch.timing.runAt.value);
    }
  }

  /** One of the first `k` ticks lies after the instant. */
  predicate Passed(ticks: seq<int>, k: nat, at: int)
    requires k <= |ticks|
  {
    exists j | 0 <= j < k :: ticks[j] > at
  }

  lemma PassedStep(ticks: seq<int>, k: nat, at: int)
    requires 0 < k <= |ticks|
    ensures Passed(ticks, k, at) <==> Passed(ticks, k - 1, at) || ticks[k - 1] > at
  {
  }

  lemma {:induction false} OneTimeSlots(s: State, sch: Sched, parse: Parser, ticks: seq<int>, k: nat, at: int)
    requires sch.agentOwned && sch.timing == OneTime(Some(at)) && sch.policy == RunOnce && k <= |ticks|
    requires (sch.id, at) !in s.lastRun
    ensures (sch.id, at) in After(s, sch, parse, ticks, k).lastRun <==> Passed(ticks, k, at)
  {
    if k > 0 {
      OneTimeSlots(s, sch, parse, ticks, k - 1, at);
      PassedStep(ticks, k, at);
      hide Passed;
    }
  }

  /** A cron schedule that never fired and has no creation time looks back one second: it is due exactly
      for an instant within that second. */
  lemma {:induction false} CronLooksBackOneSecond(s: State, sch: Sched, parse: Parser, next: int -> int, matches: int -> bool, now: int)
    requires RunsCron(sch) && parse(sch.timing.expression) == Some(next) && IsNext(matches, next)
    requires sch.id !in s.lastFire && sch.createdAt.None? && forall at: int :: (sch.id, at) !in s.lastRun
    ensures Check(s, sch, parse, now).1.DueAt? <==> exists at :: now - 1_000_000_000 < at <= now && matches(at)
  {
    if exists at :: now - 1_000_000_000 < at <= now && matches(at) {
      var at :| now - 1_000_000_000 < at <= now && matches(at);
      assert next(now - SECOND) <= at;
    }
  }
}
