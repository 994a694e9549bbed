/** The Hub's scheduler, on top of the slots of the executions table. */
module HubScheduler {
  import opened Models
  import opened Timing
  import H = HubExecutions
  import A = AgentScheduler

  function HubIntervalDue(seconds: int, policy: Policy, createdAt: Option<int>, now: int): Due {
    var anchor, period := Or(createdAt, now), seconds * SECOND;
    var elapsed := now - anchor;
    if period <= 0 || elapsed < 0 then NotDue
    else if elapsed / period >= 1 && policy.RunOnce? then DueAt(anchor + elapsed / period * period)
    else NotDue
  }

  function ComputeNextRun(sch: Sched, fire: Option<int>, parse: Parser, now: int): Due {
    match sch.timing
    case Interval(seconds) => HubIntervalDue(seconds, sch.policy, sch.createdAt, now)
    case Cron(expression) => if parse(expression).Some? then CronDue(parse(expression).value, fire, sch.createdAt, now) else NotDue
    case OneTime(runAt) => OneTimeDue(runAt, sch.policy, now)
    case OtherTiming => NotDue
  }

  /** `rows` is the executions table, `lastFire` is lost in a restart. */
  datatype State = State(rows: map<Id, H.Row>, lastFire: map<Id, int>)

  /** The nodes that a schedule's task resolves to at this tick; none if the task is missing or
      disabled or its target cannot be resolved. */
  type Plan = Option<seq<H.Try>>

  /** How an instant, in whole seconds, is written in the slot column. */
  type Format = int -> string

  ghost predicate Faithful(fmt: Format) {
    (forall a :: fmt(a) != "") && forall a, b | a != b :: fmt(a) != fmt(b)
  }

  function Slot(fmt: Format, at: int): string {
    fmt(at / SECOND)
  }

  function RunOne(s: State, sch: Sched, plan: Plan, parse: Parser, fmt: Format, now: int): State {
    var due := ComputeNextRun(sch, Lookup(s.lastFire, sch.id), parse, now);
    if !sch.enabled || sch.agentOwned || due.NotDue? || plan.None? then s
    else State(H.Serve(s.rows, sch.taskId, Slot(fmt, due.at), plan.value, |plan.value|).0, s.lastFire[sch.id := now])
  }

  /** RunDueHUB after the first `n` schedules. */
  function RunDue(s: State, schs: seq<Sched>, plans: seq<Plan>, parse: Parser, fmt: Format, now: int, n: nat): State
    requires n <= |schs| == |plans|
  {
    if n == 0 then s
    else RunOne(RunDue(s, schs, plans, parse, fmt, now, n - 1), schs[n - 1], plans[n - 1], parse, fmt, now)
  }

  class ScheduleManager {
    const exec: H.ExecutionManager
    var lastFire: map<Id, int>

    constructor (exec: H.ExecutionManager)
      ensures this.exec == exec && lastFire == map[]
    {
      this.exec := exec;
      lastFire := map[];
    }

    method RunDueHub(schs: seq<Sched>, plans: seq<Plan>, parse: Parser, fmt: Format, now: int)
      requires |schs| == |plans|
      modifies this, exec
      ensures State(exec.rows, lastFire) == RunDue(State(old(exec.rows), old(lastFire)), schs, plans, parse, fmt, now, |schs|)
    {
      for n := 0 to |schs|
        invariant State(exec.rows, lastFire) == RunDue(State(old(exec.rows), old(lastFire)), schs, plans, parse, fmt, now, n)
      {
        var sch := schs[n];
        if !sch.enabled || sch.agentOwned { continue; }
        var due := ComputeNextRun(sch, Lookup(lastFire, sch.id), parse, now);
        if due.NotDue? { continue; }
        if plans[n].None? { continue; }
        var _ := exec.RunScheduledHub(sch.taskId, Slot(fmt, due.at), plans[n].value);
        lastFire := lastFire[sch.id := now];
      }
    }
  }

  // ---------- interval schedules ----------

  lemma DivExact(a: int, b: int, k: int)
    requires b > 0 && k * b <= a < (k + 1) * b
    ensures a / b == k
  {
    var q := a / b;
    assert a == q * b + a % b && (q + 1) * b == q * b + b;
    if q < k {
      MulMono(q + 1, k, b);
    } else if q > k {
      MulMono(k + 1, q, b);
    }
  }

  /** In the k-th period the schedule is due at the k-th boundary, on every tick of that period; it is
      never due otherwise, and never at all when it skips misfires. */
  lemma {:induction false} DueInPeriod(seconds: int, policy: Policy, createdAt: Option<int>, now: int, k: int)
    requires seconds > 0 && createdAt.Some? && createdAt.value + k * (seconds * SECOND) <= now < createdAt.value + (k + 1) * (seconds * SECOND)
    ensures HubIntervalDue(seconds, policy, createdAt, now)
            == if k >= 1 && policy == RunOnce then DueAt(createdAt.value + k * (seconds * SECOND)) else NotDue
  {
    var period, elapsed := seconds * SECOND, now - createdAt.value;
    DivExact(elapsed, period, k);
    if elapsed >= 0 && k < 0 {
      MulMono(k + 1, 0, period);
    }
    if elapsed < 0 && k >= 0 {
      MulMono(0, k, period);
    }
  }

  /** Truncation to seconds keeps different boundaries of one schedule apart. */
  lemma {:induction false} BoundariesHaveOwnSlots(fmt: Format, anchor: int, seconds: int, j: int, k: int)
    requires Faithful(fmt) && seconds > 0 && j != k
    ensures Slot(fmt, anchor + j * (seconds * SECOND)) != Slot(fmt, anchor + k * (seconds * SECOND))
  {
    TruncateShift(anchor, j * seconds);
    TruncateShift(anchor, k * seconds);
    assert j * (seconds * SECOND) == j * seconds * SECOND && k * (seconds * SECOND) == k * seconds * SECOND;
    assert (j + 1) * seconds == j * seconds + seconds && (k + 1) * seconds == k * seconds + seconds;
    if j < k {
      MulMono(j + 1, k, seconds);
    } else {
      MulMono(k + 1, j, seconds);
    }
  }

  /** Two instants share a slot exactly when they lie in the same second. */
  lemma {:induction false} SlotIsSecond(fmt: Format, a: int, b: int)
    requires Faithful(fmt)
    ensures Slot(fmt, a) == Slot(fmt, b) <==> a / 1_000_000_000 == b / 1_000_000_000
  {
  }

  lemma TruncateShift(a: int, q: int)
    ensures (a + q * SECOND) / SECOND == a / SECOND + q
  {
  }

  // ---------- over ticks and restarts ----------

  datatype Event = HubTick(schs: seq<Sched>, plans: seq<Plan>, now: int) | HubRestart

  function Step(s: State, e: Event, parse: Parser, fmt: Format): State {
    match e
    case HubTick(schs, plans, now) => if |schs| == |plans| then RunDue(s, schs, plans, parse, fmt, now, |schs|) else s
    case HubRestart => s.(lastFire := map[])
  }

  function After(s: State, events: seq<Event>, parse: Parser, fmt: Format, n: nat): State
    requires n <= |events|
  {
    if n == 0 then s else Step(After(s, events, parse, fmt, n - 1), events[n - 1], parse, fmt)
  }

  ghost predicate Keeps(a: map<Id, H.Row>, b: map<Id, H.Row>) {
    H.UniqueSlots(b) && H.Extends(a, b)
  }

  lemma {:induction false} ServeKeeps(rows: map<Id, H.Row>, task: Id, slot: string, tries: seq<H.Try>, n: nat)
    requires H.UniqueSlots(rows) && n <= |tries|
    ensures Keeps(rows, H.Serve(rows, task, slot, tries, n).0)
  {
    if n > 0 {
      ServeKeeps(rows, task, slot, tries, n - 1);
      H.DispatchKeeps(H.Serve(rows, task, slot, tries, n - 1).0, task, slot, tries[n - 1]);
    }
  }

  lemma {:induction false} RunDueKeeps(s: State, schs: seq<Sched>, plans: seq<Plan>, parse: Parser, fmt: Format, now: int, n: nat)
    requires H.UniqueSlots(s.rows) && n <= |schs| == |plans|
    ensures Keeps(s.rows, RunDue(s, schs, plans, parse, fmt, now, n).rows)
  {
    if n > 0 {
      RunDueKeeps(s, schs, plans, parse, fmt, now, n - 1);
      var t := RunDue(s, schs, plans, parse, fmt, now, n - 1);
      var due := ComputeNextRun(schs[n - 1], Lookup(t.lastFire, schs[n - 1].id), parse, now);
      if plans[n - 1].Some? && due.DueAt? {
        ServeKeeps(t.rows, schs[n - 1].taskId, Slot(fmt, due.at), plans[n - 1].value, |plans[n - 1].value|);
      }
    }
  }

  lemma {:induction false} RunKeeps(s: State, events: seq<Event>, parse: Parser, fmt: Format, n: nat)
    requires H.UniqueSlots(s.rows) && n <= |events|
    ensures Keeps(s.rows, After(s, events, parse, fmt, n).rows)
  {
    if n > 0 {
      RunKeeps(s, events, parse, fmt, n - 1);
      var t := After(s, events, parse, fmt, n - 1);
      match events[n - 1] {
        case HubTick(schs, plans, now) =>
          if |schs| == |plans| {
            RunDueKeeps(t, schs, plans, parse, fmt, now, |schs|);
          }
        case HubRestart =>
      }
    }
  }

  /** Over any ticks of any schedules, and any restarts of the Hub, a boundary has at most one
      execution for each task and node, and an execution once there stays as it is. */
  lemma {:induction false} OneExecutionPerBoundary(s: State, events: seq<Event>, parse: Parser, fmt: Format, m: nat, n: nat, task: Id, node: Id, at: int,
                                d: Id, e: Id)
    requires H.UniqueSlots(s.rows) && Faithful(fmt) && m <= n <= |events|
    requires var a, b := After(s, events, parse, fmt, m).rows, After(s, events, parse, fmt, n).rows;
             && d in a && H.At(a[d], task, node, Slot(fmt, at))
             && e in b && H.At(b[e], task, node, Slot(fmt, at))
    ensures d == e && After(s, events, parse, fmt, n).rows[e] == After(s, events, parse, fmt, m).rows[d]
  {
    RunsCompose(s, events, parse, fmt, m, n);
    var b := After(s, events, parse, fmt, n).rows;
    assert d in b;
    if d != e {
      assert H.SameSlot(b[d], b[e]);
    }
  }

  lemma {:induction false} RunsCompose(s: State, events: seq<Event>, parse: Parser, fmt: Format, m: nat, n: nat)
    requires H.UniqueSlots(s.rows) && m <= n <= |events|
    ensures Keeps(After(s, events, parse, fmt, m).rows, After(s, events, parse, fmt, n).rows)
    decreases n
  {
    RunKeeps(s, events, parse, fmt, m);
    if m < n {
      RunsCompose(s, events, parse, fmt, m, n - 1);
      RunKeeps(s, events, parse, fmt, n);
      StepKeeps(After(s, events, parse, fmt, n - 1), events[n - 1], parse, fmt);
    }
  }

  lemma StepKeeps(s: State, e: Event, parse: Parser, fmt: Format)
    requires H.UniqueSlots(s.rows)
    ensures Keeps(s.rows, Step(s, e, parse, fmt).rows)
  {
    assert After(s, [e], parse, fmt, 0) == s;
    assert After(s, [e], parse, fmt, 1) == Step(s, e, parse, fmt);
    RunKeeps(s, [e], parse, fmt, 1);
  }

  // ---------- schedules that never run ----------

  /** The schedules of a list that are not dropped, and their plans. */
  function Rest(schs: seq<Sched>, drop: Sched -> bool, n: nat): seq<Sched>
    requires n <= |schs|
  {
    if n == 0 then [] else Rest(schs, drop, n - 1) + if drop(schs[n - 1]) then [] else [schs[n - 1]]
  }

  function RestPlans(schs: seq<Sched>, plans: seq<Plan>, drop: Sched -> bool, n: nat): (r: seq<Plan>)
    requires n <= |schs| == |plans|
    ensures |r| == |Rest(schs, drop, n)|
  {
    if n == 0 then [] else RestPlans(schs, plans, drop, n - 1) + if drop(schs[n - 1]) then [] else [plans[n - 1]]
  }

  /** The event with the dropped schedules and their plans taken out. */
  function Without(e: Event, drop: Sched -> bool): Event {
    if e.HubTick? && |e.schs| == |e.plans|
    then HubTick(Rest(e.schs, drop, |e.schs|), RestPlans(e.schs, e.plans, drop, |e.schs|), e.now) else e
  }

  /** No dropped schedule changes anything in its turn. */
  ghost predicate Idle(drop: Sched -> bool, parse: Parser, fmt: Format) {
    forall s: State, sch: Sched, plan: Plan, now: int | drop(sch) :: RunOne(s, sch, plan, parse, fmt, now) == s
  }

  lemma {:induction false} RunDuePrefix(s: State, schs: seq<Sched>, plans: seq<Plan>, sch: Sched, plan: Plan, parse: Parser, fmt: Format,
                                        now: int, n: nat)
    requires n <= |schs| == |plans|
    ensures RunDue(s, schs + [sch], plans + [plan], parse, fmt, now, n) == RunDue(s, schs, plans, parse, fmt, now, n)
  {
    if n > 0 {
      RunDuePrefix(s, schs, plans, sch, plan, parse, fmt, now, n - 1);
    }
  }

  lemma {:induction false} TickWithout(s: State, schs: seq<Sched>, plans: seq<Plan>, drop: Sched -> bool, parse: Parser, fmt: Format,
                                       now: int, n: nat)
    requires n <= |schs| == |plans| && Idle(drop, parse, fmt)
    ensures RunDue(s, schs, plans, parse, fmt, now, n)
            == RunDue(s, Rest(schs, drop, n), RestPlans(schs, plans, drop, n), parse, fmt, now, |Rest(schs, drop, n)|)
  {
    if n > 0 {
      hide RunOne;
      TickWithout(s, schs, plans, drop, parse, fmt, now, n - 1);
      var a, b := Rest(schs, drop, n - 1), RestPlans(schs, plans, drop, n - 1);
      if drop(schs[n - 1]) {
        assert Rest(schs, drop, n) == a && RestPlans(schs, plans, drop, n) == b;
      } else {
        RunDuePrefix(s, a, b, schs[n - 1], plans[n - 1], parse, fmt, now, |a|);
        assert Rest(schs, drop, n) == a + [schs[n - 1]] && RestPlans(schs, plans, drop, n) == b + [plans[n - 1]];
      }
    }
  }

  lemma {:induction false} RunWithout(s: State, events: seq<Event>, rest: seq<Event>, drop: Sched -> bool, parse: Parser, fmt: Format, n: nat)
    requires n <= |events| == |rest| && forall i | 0 <= i < |events| :: rest[i] == Without(events[i], drop)
    requires Idle(drop, parse, fmt)
    ensures After(s, events, parse, fmt, n) == After(s, rest, parse, fmt, n)
  {
    if n > 0 {
      hide RunDue, Idle;
      RunWithout(s, events, rest, drop, parse, fmt, n - 1);
      var e := events[n - 1];
      if e.HubTick? && |e.schs| == |e.plans| {
        TickWithout(After(s, events, parse, fmt, n - 1), e.schs, e.plans, drop, parse, fmt, e.now, |e.schs|);
      }
    }
  }

  function Skipper(): Sched -> bool {
    (sch: Sched) => sch.policy.Skip? && (sch.timing.Interval? || sch.timing.OneTime?)
  }

  /** Interval and one-time schedules that skip misfires never run on the Hub: any run over any lists
      of schedules, restarts included, is the run with those schedules taken out. */
  lemma {:induction false} SkippersNeverRun(s: State, events: seq<Event>, others: seq<Event>, parse: Parser, fmt: Format, n: nat)
    requires n <= |events| == |others| && forall i | 0 <= i < |events| :: others[i] == Without(events[i], Skipper())
    ensures After(s, events, parse, fmt, n) == After(s, others, parse, fmt, n)
  {
    RunWithout(s, events, others, Skipper(), parse, fmt, n);
  }

  /** What the Hub leaves alone: disabled schedules, and those that the Agents run. */
  function NotOurs(): Sched -> bool {
    (sch: Sched) => !sch.enabled || sch.agentOwned
  }

  /** Over any ticks, restarts and mixed lists, the run is the one with all those schedules and their
      plans taken out. */
  lemma {:induction false} NotOursNeverRun(s: State, events: seq<Event>, ours: seq<Event>, parse: Parser, fmt: Format, n: nat)
    requires n <= |events| == |ours| && forall i | 0 <= i < |events| :: ours[i] == Without(events[i], NotOurs())
    ensures After(s, events, parse, fmt, n) == After(s, ours, parse, fmt, n)
  {
    RunWithout(s, events, ours, NotOurs(), parse, fmt, n);
  }

  /** Each schedule runs on one side only: what the Hub serves, no Agent triggers. */
  lemma {:induction false} OneSideOnly(s: State, a: A.State, sch: Sched, plan: Plan, parse: Parser, fmt: Format, now: int, later: int)
    requires RunOne(s, sch, plan, parse, fmt, now) != s
    ensures sch.enabled && A.Check(a, sch, parse, later) == (a, NotDue)
  {
  }

  /** What neither side can time never runs on either: an unknown kind of schedule, a cron expression that
      does not parse, an interval without a positive length or without any anchor. */
  lemma {:induction false} UntimedNeverRun(s: State, a: A.State, sch: Sched, plan: Plan, parse: Parser, fmt: Format, now: int)
    requires match sch.timing
             case Interval(seconds) => seconds <= 0 || (sch.createdAt.None? && sch.id !in a.lastFire)
             case Cron(expression) => parse(expression).None?
             case OneTime(runAt) => runAt.None?
             case OtherTiming => true
    ensures RunOne(s, sch, plan, parse, fmt, now) == s && A.Check(a, sch, parse, now) == (a, NotDue)
  {
    assert A.Stored(a.lastFire, sch.id, Lookup(a.lastFire, sch.id)) == a.lastFire;
  }

  // ---------- which nodes are served ----------

  ghost predicate SameNodes(a: seq<H.Try>, b: seq<H.Try>) {
    |a| == |b| && forall i | 0 <= i < |a| :: a[i].node == b[i].node && a[i].able == b[i].able
  }

  lemma SamePrefix(a: seq<H.Try>, b: seq<H.Try>, node: Id)
    requires SameNodes(a, b)
    ensures H.AblePrefix(a) == H.AblePrefix(b)
    ensures H.Among(a, H.AblePrefix(a), node) <==> H.Among(b, H.AblePrefix(b), node)
  {
  }

  /** An interval schedule that the Hub runs, with its anchor. */
  predicate HubInterval(sch: Sched) {
    sch.enabled && !sch.agentOwned && sch.timing.Interval? && sch.timing.seconds > 0 && sch.policy.RunOnce? && sch.createdAt.Some?
  }

  function Boundary(sch: Sched, k: int): int
    requires HubInterval(sch)
  {
    sch.createdAt.value + k * (sch.timing.seconds * SECOND)
  }

  /** A tick in the k-th period of `sch`, which is the `i`-th of its list: its plan tries the nodes of
      `nodes` under fresh ids and no message is refused. The other schedules have other tasks. */
  ghost predicate TickIn(s: State, e: Event, i: nat, sch: Sched, k: int, nodes: seq<H.Try>, parse: Parser, fmt: Format)
    requires HubInterval(sch)
  {
    && e.HubTick? && i < |e.schs| == |e.plans| && e.schs[i] == sch
    && Boundary(sch, k) <= e.now < Boundary(sch, k + 1)
    && (forall j | 0 <= j < |e.schs| && j != i :: e.schs[j].taskId != sch.taskId)
    && e.plans[i].Some? && SameNodes(e.plans[i].value, nodes) && (forall t <- e.plans[i].value :: t.sends)
    && H.FreshIds(RunDue(s, e.schs, e.plans, parse, fmt, e.now, i).rows, e.plans[i].value)
  }

  /** A run within one period: ticks, and restarts in between. */
  ghost predicate WithinPeriod(s: State, events: seq<Event>, at: seq<nat>, sch: Sched, k: int, nodes: seq<H.Try>, parse: Parser, fmt: Format)
    requires HubInterval(sch)
  {
    |at| == |events| &&
    forall n | 0 <= n < |events| ::
      events[n].HubRestart? || TickIn(After(s, events, parse, fmt, n), events[n], at[n], sch, k, nodes, parse, fmt)
  }

  lemma {:induction false} ServeOtherTask(rows: map<Id, H.Row>, task: Id, slot: string, tries: seq<H.Try>, n: nat, other: Id, node: Id, s: string)
    requires n <= |tries| && other != task
    ensures H.HasSlot(H.Serve(rows, task, slot, tries, n).0, other, node, s) <==> H.HasSlot(rows, other, node, s)
  {
    if n > 0 {
      ServeOtherTask(rows, task, slot, tries, n - 1, other, node, s);
      DispatchOtherTask(H.Serve(rows, task, slot, tries, n - 1).0, task, slot, tries[n - 1], other, node, s);
    }
  }

  lemma DispatchOtherTask(rows: map<Id, H.Row>, task: Id, slot: string, t: H.Try, other: Id, node: Id, s: string)
    requires other != task
    ensures H.HasSlot(H.Dispatch(rows, task, slot, t).0, other, node, s) <==> H.HasSlot(rows, other, node, s)
  {
    var r := H.Dispatch(rows, task, slot, t).0;
    if r != rows {
      assert r == rows[t.id := r[t.id]] && t.id !in rows && r[t.id].task == task;
      if H.HasSlot(rows, other, node, s) {
        var d :| d in rows && H.At(rows[d], other, node, s);
        assert d in r && H.At(r[d], other, node, s);
      }
    }
  }

  lemma RunOneOtherTask(s: State, sch: Sched, plan: Plan, parse: Parser, fmt: Format, now: int, other: Id, node: Id, slot: string)
    requires sch.taskId != other
    ensures H.HasSlot(RunOne(s, sch, plan, parse, fmt, now).rows, other, node, slot) <==> H.HasSlot(s.rows, other, node, slot)
  {
    hide H.Serve, H.HasSlot;
    var due := ComputeNextRun(sch, Lookup(s.lastFire, sch.id), parse, now);
    if plan.Some? && due.DueAt? {
      ServeOtherTask(s.rows, sch.taskId, Slot(fmt, due.at), plan.value, |plan.value|, other, node, slot);
    }
  }

  /** The schedule's own turn serves exactly the able part of its target list, under the boundary. */
  lemma OwnTurn(s: State, sch: Sched, tries: seq<H.Try>, k: int, parse: Parser, fmt: Format, now: int, node: Id)
    requires HubInterval(sch) && k >= 1 && Boundary(sch, k) <= now < Boundary(sch, k + 1)
    requires H.FreshIds(s.rows, tries) && forall t <- tries :: t.sends
    ensures var slot := Slot(fmt, Boundary(sch, k));
            H.HasSlot(RunOne(s, sch, Some(tries), parse, fmt, now).rows, sch.taskId, node, slot) <==>
            H.HasSlot(s.rows, sch.taskId, node, slot) || H.Among(tries, H.AblePrefix(tries), node)
  {
    hide H.Serve, H.HasSlot, H.Among, HubIntervalDue;
    DueInPeriod(sch.timing.seconds, sch.policy, sch.createdAt, now, k);
    H.ServesThePrefix(s.rows, sch.taskId, Slot(fmt, Boundary(sch, k)), tries, |tries|, node);
  }

  lemma {:induction false} OneTick(s: State, e: Event, i: nat, sch: Sched, k: int, nodes: seq<H.Try>, parse: Parser, fmt: Format,
                                   m: nat, node: Id)
    requires HubInterval(sch) && k >= 1 && TickIn(s, e, i, sch, k, nodes, parse, fmt) && m <= |e.schs|
    ensures var slot := Slot(fmt, Boundary(sch, k));
            H.HasSlot(RunDue(s, e.schs, e.plans, parse, fmt, e.now, m).rows, sch.taskId, node, slot) <==>
            H.HasSlot(s.rows, sch.taskId, node, slot) || (i < m && H.Among(nodes, H.AblePrefix(nodes), node))
  {
    if m > 0 {
      hide RunOne, H.HasSlot, H.Among, SameNodes, H.FreshIds, Boundary;
      OneTick(s, e, i, sch, k, nodes, parse, fmt, m - 1, node);
      var t := RunDue(s, e.schs, e.plans, parse, fmt, e.now, m - 1);
      if m - 1 == i {
        OwnTurn(t, sch, e.plans[i].value, k, parse, fmt, e.now, node);
        SamePrefix(e.plans[i].value, nodes, node);
      } else {
        RunOneOtherTask(t, e.schs[m - 1], e.plans[m - 1], parse, fmt, e.now, sch.taskId, node, Slot(fmt, Boundary(sch, k)));
      }
    }
  }

  predicate Ticked(events: seq<Event>, n: nat)
    requires n <= |events|
  {
    exists i | 0 <= i < n :: events[i].HubTick?
  }

  lemma OneEvent(s: State, e: Event, i: nat, sch: Sched, k: int, nodes: seq<H.Try>, parse: Parser, fmt: Format, node: Id)
    requires HubInterval(sch) && k >= 1 && (e.HubRestart? || TickIn(s, e, i, sch, k, nodes, parse, fmt))
    ensures var slot := Slot(fmt, Boundary(sch, k));
            H.HasSlot(Step(s, e, parse, fmt).rows, sch.taskId, node, slot) <==>
            H.HasSlot(s.rows, sch.taskId, node, slot) || (e.HubTick? && H.Among(nodes, H.AblePrefix(nodes), node))
  {
    if e.HubTick? {
      hide RunDue, H.HasSlot, H.Among, Boundary;
      OneTick(s, e, i, sch, k, nodes, parse, fmt, |e.schs|, node);
    }
  }

  /** However often the Hub ticks within a period, and restarts in between, with fixed node states and
      no refused message the nodes that have the boundary's slot are those that had it, and, from the
      first tick on, those of the target list before the first that cannot run. */
  lemma {:induction false} PeriodServesPrefix(s: State, events: seq<Event>, at: seq<nat>, sch: Sched, k: int, nodes: seq<H.Try>,
                                              parse: Parser, fmt: Format, n: nat, node: Id)
    requires HubInterval(sch) && k >= 1 && WithinPeriod(s, events, at, sch, k, nodes, parse, fmt) && n <= |events|
    ensures var slot := Slot(fmt, Boundary(sch, k));
            H.HasSlot(After(s, events, parse, fmt, n).rows, sch.taskId, node, slot) <==>
            H.HasSlot(s.rows, sch.taskId, node, slot) || (Ticked(events, n) && H.Among(nodes, H.AblePrefix(nodes), node))
  {
    if n > 0 {
      hide Step, H.HasSlot, H.Among, Boundary, TickIn;
      PeriodServesPrefix(s, events, at, sch, k, nodes, parse, fmt, n - 1, node);
      OneEvent(After(s, events, parse, fmt, n - 1), events[n - 1], at[n - 1], sch, k, nodes, parse, fmt, node);
    }
  }

  // ---------- one-time schedules ----------

  /** A one-time schedule that the Hub runs is served under its own instant on every tick after that
      instant, and on no other: with no refused message the able part of its target list gets the slot. */
  lemma {:induction false} OneTimeServed(s: State, sch: Sched, plan: Plan, at: int, parse: Parser, fmt: Format, now: int, node: Id)
    requires sch.enabled && !sch.agentOwned && sch.timing == OneTime(Some(at)) && sch.policy == RunOnce
    requires plan.Some? ==> H.FreshIds(s.rows, plan.value) && forall t <- plan.value :: t.sends
    ensures now <= at || plan.None? ==> RunOne(s, sch, plan, parse, fmt, now) == s
    ensures now > at && plan.Some? ==>
              (H.HasSlot(RunOne(s, sch, plan, parse, fmt, now).rows, sch.taskId, node, Slot(fmt, at)) <==>
               H.HasSlot(s.rows, sch.taskId, node, Slot(fmt, at)) || H.Among(plan.value, H.AblePrefix(plan.value), node))
  {
    hide H.Serve, H.HasSlot, H.Among;
    if plan.Some? {
      H.ServesThePrefix(s.rows, sch.taskId, Slot(fmt, at), plan.value, |plan.value|, node);
    }
  }

  // ---------- cron ----------

  function AsTicks(ticks: seq<(int, Plan)>): (r: seq<Tick>)
    ensures |r| == |ticks| && forall k | 0 <= k < |r| :: r[k] == Tick(ticks[k].0, ticks[k].1.Some?)
  {
    seq(|ticks|, k requires 0 <= k < |ticks| => Tick(ticks[k].0, ticks[k].1.Some?))
  }

  function RunTicks(s: State, sch: Sched, parse: Parser, fmt: Format, ticks: seq<(int, Plan)>, n: nat): State
    requires n <= |ticks|
  {
    if n == 0 then s else RunOne(RunTicks(s, sch, parse, fmt, ticks, n - 1), sch, ticks[n - 1].1, parse, fmt, ticks[n - 1].0)
  }

  function Reference(s: State, sch: Sched): int {
    Or(Lookup(s.lastFire, sch.id), Or(sch.createdAt, 0))
  }

  /** Between two restarts a cron schedule on the Hub follows the common cron rule, where a tick
      without a plan is one that cannot fire; each run it starts is served under the rule's instant. */
  lemma {:induction false} HubCronFollowsRule(s: State, sch: Sched, parse: Parser, fmt: Format, next: int -> int,
                                              ticks: seq<(int, Plan)>, n: nat)
    requires sch.enabled && !sch.agentOwned && sch.timing.Cron? && parse(sch.timing.expression) == Some(next)
    requires (sch.id in s.lastFire || sch.createdAt.Some?) && n <= |ticks|
    ensures var t := RunTicks(s, sch, parse, fmt, ticks, n);
            (sch.id in t.lastFire || sch.createdAt.Some?) && Reference(t, sch) == RefAt(next, Reference(s, sch), AsTicks(ticks), n)
    ensures n > 0 ==>
              RunTicks(s, sch, parse, fmt, ticks, n).rows
              == Served(RunTicks(s, sch, parse, fmt, ticks, n - 1).rows, sch, fmt,
                        FiredAt(next, Reference(s, sch), AsTicks(ticks), n - 1), ticks[n - 1].1)
  {
    if n > 0 {
      HubCronFollowsRule(s, sch, parse, fmt, next, ticks, n - 1);
      HubCronStep(RunTicks(s, sch, parse, fmt, ticks, n - 1), sch, ticks[n - 1].1, parse, fmt, next, ticks[n - 1].0);
      assert AsTicks(ticks)[n - 1] == Tick(ticks[n - 1].0, ticks[n - 1].1.Some?);
    }
  }

  lemma HubCronStep(s: State, sch: Sched, plan: Plan, parse: Parser, fmt: Format, next: int -> int, now: int)
    requires sch.enabled && !sch.agentOwned && sch.timing.Cron? && parse(sch.timing.expression) == Some(next)
    requires sch.id in s.lastFire || sch.createdAt.Some?
    ensures var t := RunOne(s, sch, plan, parse, fmt, now);
            var due := if plan.Some? then DueFrom(next, Reference(s, sch), now) else NotDue;
            && (sch.id in t.lastFire || sch.createdAt.Some?)
            && Reference(t, sch) == (if due.DueAt? then now else Reference(s, sch))
            && t.rows == Served(s.rows, sch, fmt, due, plan)
  {
  }

  function Served(rows: map<Id, H.Row>, sch: Sched, fmt: Format, due: Due, plan: Plan): map<Id, H.Row> {
    if plan.Some? && due.DueAt? then H.Serve(rows, sch.taskId, Slot(fmt, due.at), plan.value, |plan.value|).0 else rows
  }
}
