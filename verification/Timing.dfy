/** When a schedule is due: what the two schedulers share. Instants are integers (nanoseconds). */
module Timing {
  import opened Models

  const SECOND := 1_000_000_000

  datatype Policy = RunOnce | Skip

  datatype Timing = Interval(seconds: int) | Cron(expression: string) | OneTime(runAt: Option<int>) | OtherTiming

  datatype Sched = Sched(id: Id, enabled: bool, agentOwned: bool, taskId: Id, timing: Timing, policy: Policy, createdAt: Option<int>)

  /** A cron parser: no value for a malformed expression, otherwise the next instant. */
  type Parser = string -> Option<int -> int>

  /** The answer of nextRun and computeNextRun. */
  datatype Due = NotDue | DueAt(at: int)

  function Lookup(m: map<Id, int>, id: Id): Option<int> {
    if id in m then Some(m[id]) else None
  }

  lemma MulMono(x: int, y: int, b: int)
    requires x <= y && b >= 0
    ensures x * b <= y * b
  {
  }

  function Or(a: Option<int>, b: int): int {
    if a.Some? then a.value else b
  }

  /** The instant from which cron looks ahead: the last fire, else the creation, else a second ago. */
  function CronRef(lastFire: Option<int>, createdAt: Option<int>, now: int): int {
    Or(lastFire, Or(createdAt, now - SECOND))
  }

  function DueFrom(next: int -> int, ref: int, now: int): Due {
    if next(ref) <= now then DueAt(next(ref)) else NotDue
  }

  /** nextCronRun on the Hub and the cron case of nextRun on the Agent. */
  function CronDue(next: int -> int, lastFire: Option<int>, createdAt: Option<int>, now: int): Due {
    DueFrom(next, CronRef(lastFire, createdAt, now), now)
  }

  /** The one-time case, the same on both sides. */
  function OneTimeDue(runAt: Option<int>, policy: Policy, now: int): Due {
    if runAt.Some? && now > runAt.value && policy.RunOnce? then DueAt(runAt.value) else NotDue
  }

  /** `next` gives the least matching instant strictly after its argument. */
  ghost predicate IsNext(matches: int -> bool, next: int -> int) {
    forall t :: t < next(t) && matches(next(t)) && forall u | t < u < next(t) :: !matches(u)
  }

  // ---------- a cron schedule over ticks ----------

  /** One evaluation. The Hub evaluates `able == false` when the task is missing, disabled or has no
      resolvable target: then nothing fires and nothing is remembered. */
  datatype Tick = Tick(now: int, able: bool)

  /** The reference after `n` ticks: the last fire, or where the schedule began. */
  function RefAt(next: int -> int, start: int, ticks: seq<Tick>, n: nat): int
    requires n <= |ticks|
    decreases n, 0
  {
    if n == 0 then start
    else if FiredAt(next, start, ticks, n - 1).DueAt? then ticks[n - 1].now
    else RefAt(next, start, ticks, n - 1)
  }

  /** The run that tick `k` starts, if any. */
  function FiredAt(next: int -> int, start: int, ticks: seq<Tick>, k: nat): Due
    requires k < |ticks|
    decreases k, 1
  {
    if ticks[k].able then DueFrom(next, RefAt(next, start, ticks, k), ticks[k].now) else NotDue
  }

  ghost predicate Increasing(ticks: seq<Tick>, from: int) {
    (forall k | 0 <= k < |ticks| :: from <= ticks[k].now) && forall i, j | 0 <= i < j < |ticks| :: ticks[i].now < ticks[j].now
  }

  /** Tick `k` stands for the missed instants (RefAt(k), now]. */
  ghost predicate Covers(next: int -> int, start: int, ticks: seq<Tick>, k: nat, m: int)
    requires k < |ticks|
  {
    FiredAt(next, start, ticks, k).DueAt? && RefAt(next, start, ticks, k) < m <= ticks[k].now
  }

  /** It fires at the earliest of them. */
  ghost predicate Earliest(matches: int -> bool, next: int -> int, start: int, ticks: seq<Tick>, k: nat)
    requires k < |ticks|
  {
    var run := FiredAt(next, start, ticks, k);
    run.DueAt? && matches(run.at) && RefAt(next, start, ticks, k) < run.at <= ticks[k].now &&
    forall u | RefAt(next, start, ticks, k) < u < run.at :: !matches(u)
  }

  lemma {:induction false} RefGrows(next: int -> int, start: int, ticks: seq<Tick>, i: nat, j: nat)
    requires i <= j <= |ticks| && Increasing(ticks, start)
    ensures RefAt(next, start, ticks, i) <= RefAt(next, start, ticks, j)
    ensures j > 0 ==> RefAt(next, start, ticks, j) <= ticks[j - 1].now
    decreases j
  {
    if i < j {
      RefGrows(next, start, ticks, i, j - 1);
    } else if j > 0 {
      RefGrows(next, start, ticks, j - 1, j - 1);
    }
  }

  /** The instants of successive runs strictly increase, so none is run twice. */
  lemma {:induction false} CronIncreases(matches: int -> bool, next: int -> int, start: int, ticks: seq<Tick>, i: nat, j: nat)
    requires IsNext(matches, next) && i < j < |ticks| && Increasing(ticks, start)
    requires FiredAt(next, start, ticks, i).DueAt? && FiredAt(next, start, ticks, j).DueAt?
    ensures FiredAt(next, start, ticks, i).at <= ticks[i].now < FiredAt(next, start, ticks, j).at
  {
    RefGrows(next, start, ticks, i + 1, j);
  }

  /** Every matching instant up to an evaluation that could fire is stood for by exactly one run, and
      that run carries the earliest instant of its batch. */
  lemma {:induction false} CronCoversOnce(matches: int -> bool, next: int -> int, start: int, ticks: seq<Tick>, i: nat, m: int)
    requires IsNext(matches, next) && i < |ticks| && ticks[i].able && Increasing(ticks, start)
    requires matches(m) && start < m <= ticks[i].now
    ensures exists k | 0 <= k <= i ::
              && Covers(next, start, ticks, k, m)
              && Earliest(matches, next, start, ticks, k)
              && forall j | 0 <= j < |ticks| && Covers(next, start, ticks, j, m) :: j == k
  {
    var k := Coverer(matches, next, start, ticks, i, m);
    forall j | 0 <= j < |ticks| && Covers(next, start, ticks, j, m) ensures j == k {
      if j < k {
        RefGrows(next, start, ticks, j + 1, k);
      } else if k < j {
        RefGrows(next, start, ticks, k + 1, j);
      }
    }
  }

  lemma {:induction false} Coverer(matches: int -> bool, next: int -> int, start: int, ticks: seq<Tick>, i: nat, m: int)
    returns (k: nat)
    requires IsNext(matches, next) && i < |ticks| && ticks[i].able && Increasing(ticks, start)
    requires matches(m) && start < m <= ticks[i].now
    ensures k <= i && Covers(next, start, ticks, k, m) && Earliest(matches, next, start, ticks, k)
  {
    var ref := RefAt(next, start, ticks, i);
    if ref < m {
      assert next(ref) <= m;
      k := i;
    } else {
      k := LastFire(next, start, ticks, i);
      if RefAt(next, start, ticks, k) >= m {
        k := Coverer(matches, next, start, ticks, k, m);
      }
    }
  }

  /** The tick that set the reference of tick `i`. */
  lemma {:induction false} LastFire(next: int -> int, start: int, ticks: seq<Tick>, i: nat) returns (k: nat)
    requires i < |ticks| && RefAt(next, start, ticks, i) != start
    ensures k < i && ticks[k].able && FiredAt(next, start, ticks, k).DueAt?
    ensures RefAt(next, start, ticks, i) == ticks[k].now
  {
    if FiredAt(next, start, ticks, i - 1).DueAt? {
      return i - 1;
    }
    k := LastFire(next, start, ticks, i - 1);
  }
}
