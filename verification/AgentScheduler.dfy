/** The Agent's scheduler: one loop over all schedules, and what it does to one of them over time. */
module AgentScheduler {
  import opened Models
  import opened Timing

  /** What the scheduler remembers: the last fire of each schedule, and every slot it has run. */
  datatype State = State(lastFire: map<Id, int>, lastRun: map<(Id, int), int>)

  /** nextRun: whether the schedule is due, and the last fire it leaves behind. */
  datatype Answer = Answer(due: Due, fire: Option<int>)

  function IntervalAnchor(fire: Option<int>, createdAt: Option<int>, now: int): int {
    Or(fire, Or(createdAt, now))
  }

  /** After more than one missed period SKIP moves the anchor to the last period boundary. */
  function IntervalRun(seconds: int, policy: Policy, fire: Option<int>, createdAt: Option<int>, now: int): Answer {
    var anchor, period := IntervalAnchor(fire, createdAt, now), seconds * SECOND;
    var elapsed := now - anchor;
    if period <= 0 || elapsed < period then Answer(NotDue, fire)
    else if elapsed < period * 2 then Answer(DueAt(anchor + elapsed / period * period), fire)
    else if policy.Skip? then Answer(NotDue, Some(now - elapsed % period))
    else Answer(DueAt(anchor + elapsed / period * period), fire)
  }

  function NextRun(sch: Sched, fire: Option<int>, parse: Parser, now: int): Answer {
    match sch.timing
    case Cron(expression) =>
      Answer(if parse(expression).Some? then CronDue(parse(expression).value, fire, sch.createdAt, now) else NotDue, fire)
    case Interval(seconds) => IntervalRun(seconds, sch.policy, fire, sch.createdAt, now)
    case OneTime(runAt) => Answer(OneTimeDue(runAt, sch.policy, now), fire)
    case OtherTiming => Answer(NotDue, fire)
  }

  function Stored(m: map<Id, int>, id: Id, fire: Option<int>): map<Id, int> {
    if fire.Some? then m[id := fire.value] else m
  }

  /** checkDue for one schedule: the new memory, and the instant triggered. */
  function Check(s: State, sch: Sched, parse: Parser, now: int): (State, Due) {
    if !sch.agentOwned then (s, NotDue)
    else
      var a := NextRun(sch, Lookup(s.lastFire, sch.id), parse, now);
      var t := s.(lastFire := Stored(s.lastFire, sch.id, a.fire));
      if a.due.NotDue? || (sch.id, a.due.at) in s.lastRun then (t, NotDue)
      else (State(t.lastFire[sch.id := now], s.lastRun[(sch.id, a.due.at) := now]), a.due)
  }

  /** checkDue after the first `n` schedules. */
  function CheckAll(s: State, schs: seq<Sched>, parse: Parser, now: int, n: nat): State
    requires n <= |schs|
  {
    if n == 0 then s else Check(CheckAll(s, schs, parse, now, n - 1), schs[n - 1], parse, now).0
  }

  ghost predicate DistinctIds(schs: seq<Sched>) {
    forall i, j | 0 <= i < j < |schs| :: schs[i].id != schs[j].id
  }

  /** One schedule's part of the memory. */
  ghost predicate SameFor(s: State, t: State, id: Id) {
    Lookup(s.lastFire, id) == Lookup(t.lastFire, id) && forall at: int :: (id, at) in s.lastRun <==> (id, at) in t.lastRun
  }

  /** Schedules do not interfere: a pass over all of them treats each as if it were alone, and leaves
      the memory of the absent ones as it was. */
  lemma {:induction false} SchedulesIndependent(s: State, schs: seq<Sched>, parse: Parser, now: int, n: nat, id: Id)
    requires n <= |schs| && DistinctIds(schs)
    ensures (forall k | 0 <= k < n :: schs[k].id != id) ==> SameFor(CheckAll(s, schs, parse, now, n), s, id)
    ensures forall k | 0 <= k < n && schs[k].id == id ::
              && Check(CheckAll(s, schs, parse, now, k), schs[k], parse, now).1 == Check(s, schs[k], parse, now).1
              && SameFor(CheckAll(s, schs, parse, now, n), Check(s, schs[k], parse, now).0, id)
  {
    hide Check;
    if n > 0 {
      SchedulesIndependent(s, schs, parse, now, n - 1, id);
      if schs[n - 1].id == id {
        CheckIsLocal(CheckAll(s, schs, parse, now, n - 1), s, schs[n - 1], parse, now);
      } else {
        CheckElsewhere(CheckAll(s, schs, parse, now, n - 1), schs[n - 1], parse, now, id);
      }
    }
  }

  lemma CheckIsLocal(s: State, t: State, sch: Sched, parse: Parser, now: int)
    requires SameFor(s, t, sch.id)
    ensures Check(s, sch, parse, now).1 == Check(t, sch, parse, now).1
    ensures SameFor(Check(s, sch, parse, now).0, Check(t, sch, parse, now).0, sch.id)
  {
  }

  lemma CheckElsewhere(s: State, sch: Sched, parse: Parser, now: int, id: Id)
    requires sch.id != id
    ensures SameFor(Check(s, sch, parse, now).0, s, id)
  {
  }

  /** The schedules of a list that the Agent owns. */
  function Owned(schs: seq<Sched>, n: nat): seq<Sched>
    requires n <= |schs|
  {
    if n == 0 then [] else Owned(schs, n - 1) + if schs[n - 1].agentOwned then [schs[n - 1]] else []
  }

  lemma {:induction false} CheckAllPrefix(s: State, schs: seq<Sched>, sch: Sched, parse: Parser, now: int, n: nat)
    requires n <= |schs|
    ensures CheckAll(s, schs + [sch], parse, now, n) == CheckAll(s, schs, parse, now, n)
  {
    if n > 0 { CheckAllPrefix(s, schs, sch, parse, now, n - 1); }
  }

  /** The Agent leaves the Hub's schedules alone: a pass over any list is the pass over the schedules it
      owns, and another one triggers nothing. */
  lemma {:induction false} OnlyOwnedRun(s: State, schs: seq<Sched>, parse: Parser, now: int, n: nat)
    requires n <= |schs|
    ensures CheckAll(s, schs, parse, now, n) == CheckAll(s, Owned(schs, n), parse, now, |Owned(schs, n)|)
    ensures forall k | 0 <= k < n && !schs[k].agentOwned :: Check(CheckAll(s, schs, parse, now, k), schs[k], parse, now).1 == NotDue
  {
    if n > 0 {
      OnlyOwnedRun(s, schs, parse, now, n - 1);
      var own := Owned(schs, n - 1);
      if schs[n - 1].agentOwned {
        CheckAllPrefix(s, own, schs[n - 1], parse, now, |own|);
        assert Owned(schs, n) == own + [schs[n - 1]];
      } else {
        assert Owned(schs, n) == own;
      }
    }
  }

  class Scheduler {
    var schedules: map<Id, Sched>
    var lastFire: map<Id, int>
    var lastRun: map<(Id, int), int>

    ghost function Memory(): State
      reads this
    {
      State(lastFire, lastRun)
    }

    /** The enabled schedules replace the table; what was fired is remembered. */
    method UpdateSchedules(list: seq<Sched>)
      requires DistinctIds(list)
      modifies this
      ensures Memory() == old(Memory())
      ensures forall id :: id in schedules <==> exists k | 0 <= k < |list| :: list[k].id == id && list[k].enabled
      ensures forall k | 0 <= k < |list| && list[k].enabled :: list[k].id in schedules && schedules[list[k].id] == list[k]
    {
      schedules := map[];
      for n := 0 to |list|
        invariant Memory() == old(Memory())
        invariant forall id :: id in schedules <==> exists k | 0 <= k < n :: list[k].id == id && list[k].enabled
        invariant forall k | 0 <= k < n && list[k].enabled :: list[k].id in schedules && schedules[list[k].id] == list[k]
      {
        if list[n].enabled {
          schedules := schedules[list[n].id := list[n]];
        }
      }
    }

    /** A tombstone removes the schedule and its last fire. Its slots are filed under (id, instant),
        so none of them is forgotten. */
    method RemoveSchedule(id: Id)
      modifies this
      ensures schedules == old(schedules) - {id} && lastFire == old(lastFire) - {id} && lastRun == old(lastRun)
    {
      schedules := schedules - {id};
      lastFire := lastFire - {id};
    }

    /** `schs` is the snapshot that GetSchedules returns; `triggered` lists the calls of TriggerSchedule. */
    method CheckDue(schs: seq<Sched>, parse: Parser, now: int) returns (triggered: seq<(Sched, int)>)
      requires DistinctIds(schs)
      modifies this
      ensures schedules == old(schedules) && Memory() == CheckAll(old(Memory()), schs, parse, now, |schs|)
      ensures forall k, at | 0 <= k < |schs| :: (schs[k], at) in triggered <==> Check(old(Memory()), schs[k], parse, now).1 == DueAt(at)
    {
      triggered := [];
      for n := 0 to |schs|
        invariant schedules == old(schedules) && Memory() == CheckAll(old(Memory()), schs, parse, now, n)
        invariant forall k, at | 0 <= k < n ::
                    (schs[k], at) in triggered <==> Check(CheckAll(old(Memory()), schs, parse, now, k), schs[k], parse, now).1 == DueAt(at)
        invariant forall x <- triggered :: exists k | 0 <= k < n :: schs[k] == x.0
      {
        var sch := schs[n];
        if !sch.agentOwned { continue; }
        var a := NextRun(sch, Lookup(lastFire, sch.id), parse, now);
        lastFire := Stored(lastFire, sch.id, a.fire);
        if a.due.NotDue? || (sch.id, a.due.at) in lastRun { continue; }
        lastRun := lastRun[(sch.id, a.due.at) := now];
        lastFire := lastFire[sch.id := now];
        triggered := triggered + [(sch, a.due.at)];
      }
      forall k, at | 0 <= k < |schs|
        ensures (schs[k], at) in triggered <==> Check(old(Memory()), schs[k], parse, now).1 == DueAt(at)
      {
        SchedulesIndependent(old(Memory()), schs, parse, now, |schs|, schs[k].id);
      }
    }
  }
}
