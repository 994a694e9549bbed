/** The Agent's execution journal: a row before every run, at most one run per id and per slot. */
module AgentJournal {
  import opened Models

  /** The columns of the slot index, which no UPDATE touches. The slot is empty for a manual run. */
  datatype Key = Key(task: Id, node: Id, slot: string)

  datatype Row = Row(key: Key, status: Status, exitCode: int, stdout: string, stderr: string,
                     reason: string, synced: bool)

  /** Which handler is about to start the execution. */
  datatype Source = Dispatched | Deployment | Scheduled

  /** `rows` is on disk. The rest dies with the process: handlers between the insert and the start,
      running goroutines, and acknowledgements whose handler has read the row and not yet written it
      back. `started` is the history of all starts of executeTask. */
  datatype State = State(rows: map<Id, Row>, launching: map<Id, Source>, active: set<Id>, acks: set<(Id, Row)>, ready: bool,
                         started: seq<Id>)

  datatype Event =
    | Arrive(id: Id, key: Key, source: Source)
    | Launch(id: Id, complete: bool)
    | Finish(id: Id, status: Status, exitCode: int, stdout: string, stderr: string, reason: string)
    | AckRead(id: Id)
    | AckWrite(id: Id, row: Row)
    | SetReady(ready: bool)
    | Restart

  predicate SameSlot(a: Row, b: Row) {
    a.key == b.key && a.key.slot != ""
  }

  /** The primary key and the partial unique index on task, node and scheduled time. */
  predicate Insertable(rows: map<Id, Row>, id: Id, row: Row) {
    id !in rows && forall d <- rows :: !SameSlot(rows[d], row)
  }

  function NewRow(key: Key): Row {
    Row(key, Running, 0, "", "", "", false)
  }

  function Arrived(s: State, id: Id, row: Row, source: Source): State {
    if Insertable(s.rows, id, row) then s.(rows := s.rows[id := row], launching := s.launching[id := source]) else s
  }

  const NOT_READY := "agent not ready (reconciling)"

  /** The READY gate refuses what the Hub sent; a scheduled run may lack a required parameter, and
      then its row stays RUNNING. */
  function Launched(s: State, id: Id, complete: bool): State
    requires id in s.launching && id in s.rows
  {
    var left := s.(launching := s.launching - {id});
    if s.launching[id].Dispatched? && !s.ready then
      left.(rows := s.rows[id := s.rows[id].(status := Blocked, exitCode := -1, reason := NOT_READY, synced := false)])
    else if s.launching[id].Deployment? && !s.ready then
      left.(rows := s.rows[id := s.rows[id].(status := Failed, reason := NOT_READY, synced := false)])
    else if s.launching[id].Scheduled? && !complete then left
    else left.(active := s.active + {id}, started := s.started + [id])
  }

  function Interrupt(r: Row): Row {
    if r.status == Running then r.(status := Failed, reason := "agent_restarted", synced := false) else r
  }

  /** The row an acknowledgement writes back; an UPDATE leaves the key alone. */
  function Acked(now: Row, read: Row): Row {
    read.(key := now.key, synced := true)
  }

  /** One step; an event that is not enabled changes nothing. */
  function Step(s: State, e: Event): State {
    match e
    case Arrive(id, key, source) => Arrived(s, id, NewRow(key), source)
    case Launch(id, complete) => if id in s.launching && id in s.rows then Launched(s, id, complete) else s
    case Finish(id, status, exitCode, stdout, stderr, reason) =>
      if id in s.active && id in s.rows && Terminal(status)
      then s.(active := s.active - {id},
              rows := s.rows[id := s.rows[id].(status := status, exitCode := exitCode, stdout := stdout, stderr := stderr,
                                               reason := reason, synced := false)])
      else s
    case AckRead(id) => if id in s.rows then s.(acks := s.acks + {(id, s.rows[id])}) else s
    case AckWrite(id, row) =>
      if (id, row) in s.acks && id in s.rows
      then s.(acks := s.acks - {(id, row)}, rows := s.rows[id := Acked(s.rows[id], row)]) else s
    case SetReady(ready) => s.(ready := ready)
    case Restart => State(map id <- s.rows :: Interrupt(s.rows[id]), map[], {}, {}, false, s.started)
  }

  function After(s: State, events: seq<Event>, n: nat): State
    requires n <= |events|
  {
    if n == 0 then s else Step(After(s, events, n - 1), events[n - 1])
  }

  // ---------- at most once ----------

  ghost predicate UniqueSlots(rows: map<Id, Row>) {
    forall d <- rows, e <- rows | d != e :: !SameSlot(rows[d], rows[e])
  }

  ghost predicate Inv(s: State) {
    && UniqueSlots(s.rows)
    && (forall id <- s.launching :: id in s.rows && id !in s.started)
    && (forall id <- s.started :: id in s.rows)
    && (forall i, j | 0 <= i < j < |s.started| :: s.started[i] != s.started[j])
  }

  /** `b` still has the rows of `a`, under the same keys. */
  ghost predicate Keeps(a: map<Id, Row>, b: map<Id, Row>) {
    forall d <- a :: d in b && b[d].key == a[d].key
  }

  lemma StepKeepsRows(s: State, e: Event)
    ensures Keeps(s.rows, Step(s, e).rows)
    ensures (e.Arrive? && Insertable(s.rows, e.id, NewRow(e.key))) || Step(s, e).rows.Keys == s.rows.Keys
  {
  }

  lemma StepKeepsSlots(s: State, e: Event)
    requires UniqueSlots(s.rows)
    ensures UniqueSlots(Step(s, e).rows) && Keeps(s.rows, Step(s, e).rows)
  {
    StepKeepsRows(s, e);
    var t := Step(s, e);
    if e.Arrive? && Insertable(s.rows, e.id, NewRow(e.key)) {
      assert t.rows == s.rows[e.id := NewRow(e.key)];
    }
  }

  lemma StepKeepsInv(s: State, e: Event)
    requires Inv(s)
    ensures Inv(Step(s, e))
  {
    StepKeepsSlots(s, e);
    StartedGrows(s, e);
    LaunchingKnown(s, e);
  }

  lemma LaunchingKnown(s: State, e: Event)
    requires forall id <- s.launching :: id in s.rows && id !in s.started
    requires forall id <- s.started :: id in s.rows
    ensures forall id <- Step(s, e).launching :: id in Step(s, e).rows && id !in Step(s, e).started
  {
  }

  /** Rows are only ever added, and keep their slot. */
  lemma {:induction false} RunKeepsInv(s: State, events: seq<Event>, n: nat)
    requires Inv(s) && n <= |events|
    ensures Inv(After(s, events, n)) && Keeps(s.rows, After(s, events, n).rows) && s.started <= After(s, events, n).started
  {
    if n > 0 {
      RunKeepsInv(s, events, n - 1);
      StepKeepsInv(After(s, events, n - 1), events[n - 1]);
      StepKeepsSlots(After(s, events, n - 1), events[n - 1]);
      StartedGrows(After(s, events, n - 1), events[n - 1]);
    }
  }

  lemma StartedGrows(s: State, e: Event)
    ensures s.started <= Step(s, e).started
    ensures s.started == Step(s, e).started || (e.Launch? && e.id in s.launching && e.id in s.rows && Step(s, e).started == s.started + [e.id])
  {
  }

  /** Whatever is redelivered, raced or restarted, every execution id starts at most once, and so
      does every non-empty slot of a task on a node, whichever side triggered it. */
  lemma {:induction false} AtMostOnce(s: State, events: seq<Event>, n: nat, i: nat, j: nat)
    requires Inv(s) && n <= |events| && i < j < |After(s, events, n).started|
    ensures var t := After(s, events, n);
            && t.started[i] != t.started[j] && t.started[i] in t.rows && t.started[j] in t.rows
            && (t.rows[t.started[i]].key.slot != "" ==> t.rows[t.started[i]].key != t.rows[t.started[j]].key)
  {
    RunKeepsInv(s, events, n);
    var t := After(s, events, n);
    assert !SameSlot(t.rows[t.started[i]], t.rows[t.started[j]]);
  }

  /** No start without its journal row: the row is already there in the state the start happens in. */
  lemma {:induction false} RowBeforeStart(s: State, events: seq<Event>, n: nat)
    requires Inv(s) && n < |events| && After(s, events, n + 1).started != After(s, events, n).started
    ensures events[n].Launch? && events[n].id in After(s, events, n).rows && events[n].id !in After(s, events, n).started
    ensures After(s, events, n + 1).started == After(s, events, n).started + [events[n].id]
  {
    RunKeepsInv(s, events, n);
    StartedGrows(After(s, events, n), events[n]);
  }

  /** Ids started after `from` starts. */
  predicate Later(t: State, from: nat, id: Id) {
    from <= |t.started| && id in t.started[from..]
  }

  lemma {:induction false} KnownNeverStarts(s: State, events: seq<Event>, n: nat)
    requires Inv(s) && n <= |events| && s.launching == map[]
    ensures var t := After(s, events, n);
            (forall d <- s.rows :: d in t.rows && d !in t.launching && !Later(t, |s.started|, d)) && |t.started| >= |s.started|
  {
    if n > 0 {
      KnownNeverStarts(s, events, n - 1);
      var t := After(s, events, n - 1);
      KnownStep(s.rows, |s.started|, t, events[n - 1]);
    }
  }

  lemma KnownStep(known: map<Id, Row>, from: nat, t: State, e: Event)
    requires from <= |t.started| && forall d <- known :: d in t.rows && d !in t.launching && !Later(t, from, d)
    ensures var u := Step(t, e);
            from <= |u.started| && forall d <- known :: d in u.rows && d !in u.launching && !Later(u, from, d)
  {
    StartedGrows(t, e);
    StepKeepsRows(t, e);
  }

  /** After a restart nothing the journal knows is ever started, neither its id nor its slot: what was
      interrupted is FAILED, unsynced, and is not run again. */
  lemma {:induction false} InterruptedNeverReruns(s: State, events: seq<Event>, n: nat, i: nat, d: Id)
    requires Inv(s) && n <= |events|
    requires var t := After(Step(s, Restart), events, n); |s.started| <= i < |t.started| && d in s.rows
    ensures var t := After(Step(s, Restart), events, n);
            t.started[i] in t.rows && t.started[i] != d && (s.rows[d].key.slot != "" ==> s.rows[d].key != t.rows[t.started[i]].key)
    ensures s.rows[d].status == Running ==> var r := Step(s, Restart).rows[d]; r.status == Failed && !r.synced && r.key == s.rows[d].key
  {
    var r := Step(s, Restart);
    StepKeepsInv(s, Restart);
    KnownNeverStarts(r, events, n);
    RunKeepsInv(r, events, n);
    var t := After(r, events, n);
    assert t.started[i] == t.started[|s.started|..][i - |s.started|];
    assert d in t.rows && t.rows[d].key == r.rows[d].key == s.rows[d].key;
    assert !SameSlot(t.rows[d], t.rows[t.started[i]]);
  }

  // ---------- the handlers ----------

  /** `order` lists the rows of the journal as a query returns them. */
  ghost predicate Lists(order: seq<Id>, rows: map<Id, Row>) {
    (forall d :: d in order <==> d in rows) && forall i, j | 0 <= i < j < |order| :: order[i] != order[j]
  }

  class Agent {
    var rows: map<Id, Row>
    var launching: map<Id, Source>
    var active: set<Id>
    var acks: set<(Id, Row)>
    var ready: bool
    ghost var started: seq<Id>

    ghost function Now(): State
      reads this
    {
      State(rows, launching, active, acks, ready, started)
    }

    /** CreateExecution: the insert fails on the primary key and on the slot index. */
    method CreateExecution(id: Id, key: Key, source: Source) returns (ok: bool)
      modifies this
      ensures ok == Insertable(old(rows), id, NewRow(key))
      ensures Now() == Step(old(Now()), Arrive(id, key, source))
    {
      var row := NewRow(key);
      ok := Insertable(rows, id, row);
      if ok {
        rows := rows[id := row];
        launching := launching[id := source];
      }
    }

    /** A redelivered or racing request finds its row and does nothing. */
    method OnRunExecution(id: Id, key: Key)
      modifies this
      ensures Now() == if Insertable(old(rows), id, NewRow(key))
                       then Step(Step(old(Now()), Arrive(id, key, Dispatched)), Launch(id, true)) else old(Now())
    {
      var ok := CreateExecution(id, key, Dispatched);
      if !ok { return; }
      launching := launching - {id};
      if !ready {
        rows := rows[id := rows[id].(status := Blocked, exitCode := -1, reason := NOT_READY, synced := false)];
      } else {
        active, started := active + {id}, started + [id];
      }
    }

    method OnDeployRequest(id: Id, app: Id, node: Id)
      modifies this
      ensures Now() == if Insertable(old(rows), id, NewRow(Key(app, node, "")))
                       then Step(Step(old(Now()), Arrive(id, Key(app, node, ""), Deployment)), Launch(id, true)) else old(Now())
    {
      var ok := CreateExecution(id, Key(app, node, ""), Deployment);
      if !ok { return; }
      launching := launching - {id};
      if !ready {
        rows := rows[id := rows[id].(status := Failed, reason := NOT_READY, synced := false)];
      } else {
        active, started := active + {id}, started + [id];
      }
    }

    /** `seen` is the answer of the lookup by slot, which another trigger may have overtaken;
        `complete` says that no required parameter is missing. */
    method TriggerSchedule(id: Id, key: Key, seen: bool, complete: bool)
      requires seen ==> !Insertable(rows, id, NewRow(key))
      modifies this
      ensures Now() == if Insertable(old(rows), id, NewRow(key))
                       then Step(Step(old(Now()), Arrive(id, key, Scheduled)), Launch(id, complete)) else old(Now())
    {
      if seen { return; }
      var ok := CreateExecution(id, key, Scheduled);
      if !ok { return; }
      launching := launching - {id};
      if complete {
        active, started := active + {id}, started + [id];
      }
    }

    method FinishExecution(id: Id, status: Status, exitCode: int, stdout: string, stderr: string, reason: string)
      requires id in active && Terminal(status)
      modifies this
      ensures Now() == Step(old(Now()), Finish(id, status, exitCode, stdout, stderr, reason))
    {
      if id in rows {
        active := active - {id};
        rows := rows[id := rows[id].(status := status, exitCode := exitCode, stdout := stdout, stderr := stderr, reason := reason,
                                     synced := false)];
      }
    }

    /** The first half of OnExecutionAck. */
    method ReadForAck(id: Id, ok: bool)
      modifies this
      ensures Now() == if ok then Step(old(Now()), AckRead(id)) else old(Now())
    {
      if ok && id in rows {
        acks := acks + {(id, rows[id])};
      }
    }

    /** The second half: the whole row is written back. */
    method WriteForAck(id: Id, row: Row)
      requires (id, row) in acks
      modifies this
      ensures Now() == Step(old(Now()), AckWrite(id, row))
    {
      if id in rows {
        acks := acks - {(id, row)};
        rows := rows[id := Acked(rows[id], row)];
      }
    }

    method RecoverInterruptedExecutions(order: seq<Id>)
      requires Lists(order, rows)
      modifies this
      ensures Now() == Step(old(Now()), Restart)
    {
      launching, active, acks, ready := map[], {}, {}, false;
      for n := 0 to |order|
        invariant rows.Keys == old(rows).Keys
        invariant launching == map[] && active == {} && acks == {} && !ready && started == old(started)
        invariant forall i | 0 <= i < n :: rows[order[i]] == Interrupt(old(rows)[order[i]])
        invariant forall i | n <= i < |order| :: rows[order[i]] == old(rows)[order[i]]
      {
        if rows[order[n]].status == Running {
          rows := rows[order[n] := rows[order[n]].(status := Failed, reason := "agent_restarted", synced := false)];
        }
      }
      forall d <- old(rows) ensures rows[d] == Interrupt(old(rows)[d]) {
        assert d in order;
      }
      assert rows == map id <- old(rows) :: Interrupt(old(rows)[id]);
    }

    /** At every reconnect each unsynced row is sent again, once, and no other. */
    method ReconcileExecutions(order: seq<Id>) returns (sent: seq<(Id, Row)>)
      requires Lists(order, rows)
      ensures forall d <- rows :: !rows[d].synced <==> (d, rows[d]) in sent
      ensures forall k <- sent :: k.0 in rows && k.1 == rows[k.0] && !k.1.synced
      ensures forall i, j | 0 <= i < j < |sent| :: sent[i].0 != sent[j].0
    {
      sent := [];
      for n := 0 to |order|
        invariant forall i | 0 <= i < n :: !rows[order[i]].synced ==> (order[i], rows[order[i]]) in sent
        invariant forall k <- sent :: k.0 in rows && k.1 == rows[k.0] && !k.1.synced && k.0 in order[..n]
        invariant forall i, j | 0 <= i < j < |sent| :: sent[i].0 != sent[j].0
      {
        if !rows[order[n]].synced {
          sent := sent + [(order[n], rows[order[n]])];
        }
      }
      forall d <- rows ensures !rows[d].synced ==> (d, rows[d]) in sent {
        assert d in order;
      }
    }
  }
}
