/** Results on their way from the Agent's journal to the Hub's table, over a network that loses,
    repeats and reorders, with reconnects and restarts. */
module ExecutionProtocol {
  import opened Models
  import J = AgentJournal
  import H = HubExecutions

  /** Messages stay in their sets: one that is never handled was lost, one that is handled again was
      repeated. `acks` are the positive acknowledgements, `runs` the execution requests. */
  datatype Sys = Sys(agent: J.State, hub: map<Id, H.Row>, up: set<H.Message>, acks: set<Id>, runs: set<(Id, J.Key)>)

  datatype Event =
    | HubDispatch(id: Id, key: J.Key, sends: bool)
    | AgentStep(e: J.Event)
    | Upload(id: Id)
    | UploadDeploy(id: Id)
    | AnnounceStart(id: Id, start: string)
    | Deliver(m: H.Message)

  /** uploadExecution and the report of finishExecution. */
  function FinishedOf(id: Id, r: J.Row): H.Message {
    H.Finished(id, r.key.task, r.key.node, r.key.slot, r.status, r.exitCode, r.stdout, r.stderr, "", "", r.reason)
  }

  /** The report of a finished deployment. */
  function DeployResultOf(id: Id, r: J.Row): H.Message {
    H.DeployResult(id, r.key.task, r.key.node, r.status == Success, "", "", r.reason)
  }

  /** No row, request or running handler anywhere uses this id. */
  ghost predicate Fresh(s: Sys, id: Id) {
    id !in s.agent.rows && id !in s.hub && forall k <- s.runs :: k.0 != id
  }

  /** What the code lets happen. A request reaches the Agent only if the Hub sent it; an
      acknowledgement is handled only if the Hub sent it. */
  ghost predicate Enabled(s: Sys, e: Event) {
    match e
    case HubDispatch(id, key, _) => Fresh(s, id) && H.Insertable(s.hub, id, H.PendingRow(key.task, key.node, key.slot))
    case AgentStep(Arrive(id, key, source)) => if source.Scheduled? then Fresh(s, id) else (id, key) in s.runs
    case AgentStep(AckRead(id)) => id in s.acks
    case AgentStep(_) => true
    case Upload(id) => id in s.agent.rows
    case UploadDeploy(id) => id in s.agent.rows && s.agent.rows[id].status in {Success, Failed}
    case AnnounceStart(id, _) => id in s.agent.rows
    case Deliver(m) => m in s.up
  }

  /** The two conditions of the theorem: only finished rows are uploaded, and no start arrives after
      the result of its execution. */
  ghost predicate Orderly(s: Sys, e: Event) {
    match e
    case Upload(id) => id in s.agent.rows && Terminal(s.agent.rows[id].status)
    case Deliver(m) => m.Started? && m.id in s.hub ==> !Terminal(s.hub[m.id].status)
    case _ => true
  }

  function Step(s: Sys, e: Event): Sys {
    match e
    case HubDispatch(id, key, sends) =>
      if sends then s.(hub := s.hub[id := H.PendingRow(key.task, key.node, key.slot)], runs := s.runs + {(id, key)})
      else s.(hub := s.hub[id := H.FailedRow(key.task, key.node, key.slot, "now", "dispatch failed")])
    case AgentStep(a) => s.(agent := J.Step(s.agent, a))
    case Upload(id) => if id in s.agent.rows then s.(up := s.up + {FinishedOf(id, s.agent.rows[id])}) else s
    case UploadDeploy(id) => if id in s.agent.rows then s.(up := s.up + {DeployResultOf(id, s.agent.rows[id])}) else s
    case AnnounceStart(id, start) => s.(up := s.up + {H.Started(id, start)})
    case Deliver(m) =>
      var (hub, ok) := H.Handle(s.hub, m);
      s.(hub := hub, acks := if ok then s.acks + {m.id} else s.acks)
  }

  // ---------- the invariant ----------

  /** Both sides have the same final status. */
  predicate Agreed(s: Sys, id: Id) {
    && id in s.agent.rows && Terminal(s.agent.rows[id].status)
    && id in s.hub && s.hub[id].status == s.agent.rows[id].status
  }

  /** A result in the network is the one the journal holds for good. */
  predicate Truthful(s: Sys, m: H.Message) {
    m.Started? ||
    (m.id in s.agent.rows && Terminal(s.agent.rows[m.id].status) &&
     s.agent.rows[m.id].status == if m.Finished? then m.status else H.Result(m.success))
  }

  ghost predicate AgentInv(s: Sys) {
    && (forall id <- s.agent.launching :: id in s.agent.rows && s.agent.rows[id].status == Running && id !in s.agent.active)
    && (forall id <- s.agent.active :: id in s.agent.rows && s.agent.rows[id].status == Running)
    && (forall k <- s.agent.acks :: Agreed(s, k.0) && k.1.status == s.agent.rows[k.0].status)
    && (forall id <- s.agent.rows :: Terminal(s.agent.rows[id].status) && s.agent.rows[id].synced ==> Agreed(s, id))
    && (forall id <- s.agent.rows :: id in s.hub && Terminal(s.hub[id].status) ==> Agreed(s, id))
    && (forall id <- s.agent.rows :: !s.agent.rows[id].status.Pending?)
  }

  ghost predicate NetInv(s: Sys) {
    && (forall m <- s.up :: Truthful(s, m))
    && (forall id <- s.acks :: Agreed(s, id))
    && (forall k <- s.runs :: k.0 in s.hub && (Terminal(s.hub[k.0].status) ==> k.0 in s.agent.rows))
  }

  ghost predicate Inv(s: Sys) {
    AgentInv(s) && NetInv(s)
  }

  lemma ArriveKeepsInv(s: Sys, a: J.Event)
    requires Inv(s) && a.Arrive? && Enabled(s, AgentStep(a))
    ensures Inv(Step(s, AgentStep(a)))
  {
    var row := J.NewRow(a.key);
    if J.Insertable(s.agent.rows, a.id, row) {
      assert a.source.Scheduled? || (a.id, a.key) in s.runs;
      assert J.Step(s.agent, a).rows == s.agent.rows[a.id := row];
    }
  }

  /** A running row gets its result. */
  lemma ResultKeepsInv(s: Sys, t: Sys, id: Id, row: J.Row)
    requires Inv(s) && id in s.agent.rows && s.agent.rows[id].status == Running
    requires Terminal(row.status) && !row.synced && t == s.(agent := t.agent)
    requires t.agent.rows == s.agent.rows[id := row] && t.agent.acks == s.agent.acks
    requires t.agent.launching == s.agent.launching - {id} && t.agent.active == s.agent.active - {id}
    ensures Inv(t)
  {
  }

  lemma LaunchKeepsInv(s: Sys, a: J.Event)
    requires Inv(s) && a.Launch?
    ensures Inv(Step(s, AgentStep(a)))
  {
    var t := Step(s, AgentStep(a));
    if a.id in s.agent.launching {
      if t.agent.rows != s.agent.rows {
        assert t.agent.active == s.agent.active - {a.id};
        ResultKeepsInv(s, t, a.id, t.agent.rows[a.id]);
      } else {
        RowsSameKeepsInv(s, t, a.id);
      }
    }
  }

  /** A handler ends, and its execution may have started. */
  lemma RowsSameKeepsInv(s: Sys, t: Sys, id: Id)
    requires Inv(s) && id in s.agent.launching
    requires t == s.(agent := t.agent) && t.agent.rows == s.agent.rows && t.agent.acks == s.agent.acks
    requires t.agent.launching == s.agent.launching - {id} && t.agent.active <= s.agent.active + {id}
    ensures Inv(t)
  {
  }

  lemma FinishKeepsInv(s: Sys, a: J.Event)
    requires Inv(s) && a.Finish?
    ensures Inv(Step(s, AgentStep(a)))
  {
    var t := Step(s, AgentStep(a));
    if a.id in s.agent.active && Terminal(a.status) {
      assert t.agent.launching == s.agent.launching - {a.id};
      ResultKeepsInv(s, t, a.id, t.agent.rows[a.id]);
    }
  }

  lemma AckReadKeepsInv(s: Sys, a: J.Event)
    requires Inv(s) && a.AckRead? && Enabled(s, AgentStep(a))
    ensures Inv(Step(s, AgentStep(a)))
  {
  }

  lemma AckWriteKeepsInv(s: Sys, a: J.Event)
    requires Inv(s) && a.AckWrite?
    ensures Inv(Step(s, AgentStep(a)))
  {
    OnlyRunningChanges(s, a);
  }

  lemma RestartKeepsInv(s: Sys, a: J.Event)
    requires Inv(s) && (a.Restart? || a.SetReady?)
    ensures Inv(Step(s, AgentStep(a)))
  {
    OnlyRunningChanges(s, a);
  }

  lemma AgentKeepsInv(s: Sys, a: J.Event)
    requires Inv(s) && Enabled(s, AgentStep(a))
    ensures Inv(Step(s, AgentStep(a)))
  {
    match a {
      case Arrive(_, _, _) => ArriveKeepsInv(s, a);
      case Launch(_, _) => LaunchKeepsInv(s, a);
      case Finish(_, _, _, _, _, _) => FinishKeepsInv(s, a);
      case AckRead(_) => AckReadKeepsInv(s, a);
      case AckWrite(_, _) => AckWriteKeepsInv(s, a);
      case _ => RestartKeepsInv(s, a);
    }
  }

  /** The Agent's steps never change a status that is final, except through the row an
      acknowledgement wrote back, and that has the same status. */
  lemma OnlyRunningChanges(s: Sys, a: J.Event)
    requires Inv(s)
    ensures var t := J.Step(s.agent, a);
            forall id <- s.agent.rows | Terminal(s.agent.rows[id].status) :: id in t.rows && t.rows[id].status == s.agent.rows[id].status
  {
  }

  lemma DeliverKeepsAgent(s: Sys, m: H.Message)
    requires Inv(s) && Truthful(s, m) && Orderly(s, Deliver(m))
    ensures AgentInv(Step(s, Deliver(m)))
  {
  }

  lemma DeliverKeepsNet(s: Sys, m: H.Message)
    requires Inv(s) && Truthful(s, m) && Orderly(s, Deliver(m))
    ensures NetInv(Step(s, Deliver(m)))
  {
  }

  lemma DeliverKeepsInv(s: Sys, m: H.Message)
    requires Inv(s) && Enabled(s, Deliver(m)) && Orderly(s, Deliver(m))
    ensures Inv(Step(s, Deliver(m)))
  {
    hide AgentInv, Truthful;
    DeliverKeepsAgent(s, m);
    DeliverKeepsNet(s, m);
  }

  lemma DispatchKeepsAgent(s: Sys, e: Event)
    requires Inv(s) && Enabled(s, e) && e.HubDispatch?
    ensures AgentInv(Step(s, e))
  {
  }

  lemma DispatchKeepsInv(s: Sys, e: Event)
    requires Inv(s) && Enabled(s, e) && e.HubDispatch?
    ensures Inv(Step(s, e))
  {
    hide AgentInv;
    DispatchKeepsAgent(s, e);
    assert forall id | id != e.id :: (id in Step(s, e).hub <==> id in s.hub) && (id in s.hub ==> Step(s, e).hub[id] == s.hub[id]);
  }

  lemma SendKeepsInv(s: Sys, e: Event)
    requires Inv(s) && Enabled(s, e) && Orderly(s, e) && (e.Upload? || e.UploadDeploy? || e.AnnounceStart?)
    ensures Inv(Step(s, e))
  {
  }

  // ---------- runs ----------

  function After(s: Sys, events: seq<Event>, n: nat): Sys
    requires n <= |events|
  {
    if n == 0 then s else Step(After(s, events, n - 1), events[n - 1])
  }

  ghost predicate OrderlyRun(s: Sys, events: seq<Event>) {
    forall n | 0 <= n < |events| :: Enabled(After(s, events, n), events[n]) && Orderly(After(s, events, n), events[n])
  }

  const Start := Sys(J.State(map[], map[], {}, {}, false, []), map[], {}, {}, {})

  lemma StepKeepsInv(s: Sys, e: Event)
    requires Inv(s) && Enabled(s, e) && Orderly(s, e)
    ensures Inv(Step(s, e))
  {
    match e {
      case AgentStep(a) => AgentKeepsInv(s, a);
      case Deliver(m) => DeliverKeepsInv(s, m);
      case HubDispatch(_, _, _) => DispatchKeepsInv(s, e);
      case _ => SendKeepsInv(s, e);
    }
  }

  lemma {:induction false} RunKeepsInv(events: seq<Event>, n: nat)
    requires OrderlyRun(Start, events) && n <= |events|
    ensures Inv(After(Start, events, n))
  {
    if n > 0 {
      RunKeepsInv(events, n - 1);
      StepKeepsInv(After(Start, events, n - 1), events[n - 1]);
    }
  }

  /** In every reachable state a finished row that the Agent believes delivered is in the Hub's table
      with the same final status, so nothing is lost; and every other finished row is among those
      that the next reconnect sends. */
  lemma {:induction false} SyncedMeansStored(events: seq<Event>, n: nat, id: Id)
    requires OrderlyRun(Start, events) && n <= |events|
    requires id in After(Start, events, n).agent.rows && After(Start, events, n).agent.rows[id].status !in {Pending, Running}
    ensures var s := After(Start, events, n);
            s.agent.rows[id].synced ==> id in s.hub && s.hub[id].status == s.agent.rows[id].status
  {
    RunKeepsInv(events, n);
  }

  /** One reconnect is enough: from any reachable state the result of a finished row, sent again and
      accepted, ends up stored on the Hub and marked synced in the journal. */
  lemma {:induction false} ReconnectDelivers(s: Sys, id: Id)
    requires Inv(s) && id in s.agent.rows && Terminal(s.agent.rows[id].status)
    requires H.Handle(s.hub, FinishedOf(id, s.agent.rows[id])).1
    ensures var row := s.agent.rows[id];
            var events := [Upload(id), Deliver(FinishedOf(id, row)), AgentStep(J.AckRead(id)), AgentStep(J.AckWrite(id, row))];
            && OrderlyRun(s, events)
            && var t := After(s, events, 4); id in t.agent.rows && t.agent.rows[id] == row.(synced := true) && Agreed(t, id)
  {
    var row := s.agent.rows[id];
    var m := FinishedOf(id, row);
    var events := [Upload(id), Deliver(m), AgentStep(J.AckRead(id)), AgentStep(J.AckWrite(id, row))];
    UploadAndDeliver(s, id);
    var s1 := Step(s, events[0]);
    var s2 := Step(s1, events[1]);
    var s3 := Step(s2, events[2]);
    AckTwice(s2, id, row);
    assert After(s, events, 0) == s;
    assert After(s, events, 1) == s1;
    assert After(s, events, 2) == s2;
    assert After(s, events, 3) == s3;
    assert After(s, events, 4) == Step(s3, events[3]);
    forall n | 0 <= n < 4 ensures Enabled(After(s, events, n), events[n]) && Orderly(After(s, events, n), events[n]) {
    }
  }

  lemma UploadAndDeliver(s: Sys, id: Id)
    requires Inv(s) && id in s.agent.rows && Terminal(s.agent.rows[id].status)
    requires H.Handle(s.hub, FinishedOf(id, s.agent.rows[id])).1
    ensures var m := FinishedOf(id, s.agent.rows[id]);
            var t := Step(Step(s, Upload(id)), Deliver(m));
            t.agent == s.agent && Agreed(t, id) && id in t.acks && m in Step(s, Upload(id)).up
  {
    SendKeepsInv(s, Upload(id));
    DeliverKeepsInv(Step(s, Upload(id)), FinishedOf(id, s.agent.rows[id]));
  }

  lemma AckTwice(s: Sys, id: Id, row: J.Row)
    requires id in s.agent.rows && s.agent.rows[id] == row && Agreed(s, id)
    ensures var t := Step(Step(s, AgentStep(J.AckRead(id))), AgentStep(J.AckWrite(id, row)));
            id in t.agent.rows && t.agent.rows[id] == row.(synced := true) && Agreed(t, id)
  {
  }

  // ---------- exactly when a result is lost ----------

  ghost predicate PossibleRun(s: Sys, events: seq<Event>) {
    forall n | 0 <= n < |events| :: Enabled(After(s, events, n), events[n])
  }

  /** Nobody is running the execution any more. */
  predicate Over(s: Sys, id: Id)
    requires id in s.agent.rows
  {
    Terminal(s.agent.rows[id].status) || (id !in s.agent.active && id !in s.agent.launching)
  }

  /** What will not be sent again has arrived: every synced row whose run is over is on the Hub, with
      the same final status. */
  ghost predicate NothingLost(s: Sys) {
    forall id <- s.agent.rows | s.agent.rows[id].synced && Over(s, id) :: Agreed(s, id)
  }

  /** The three events that lose a result: an acknowledgement marks a row that the Hub does not hold, a
      start reopens a delivered row, and a scheduled run is given up whose RUNNING row counts as
      delivered already. */
  predicate Loses(s: Sys, e: Event) {
    match e
    case AgentStep(AckWrite(id, row)) =>
      && (id, row) in s.agent.acks && id in s.agent.rows
      && (Terminal(row.status) || (id !in s.agent.active && id !in s.agent.launching))
      && !(Terminal(row.status) && id in s.hub && s.hub[id].status == row.status)
    case AgentStep(Launch(id, complete)) =>
      && id in s.agent.launching && id in s.agent.rows && s.agent.launching[id].Scheduled? && !complete
      && id !in s.agent.active && s.agent.rows[id].synced && !Agreed(s, id)
    case Deliver(m) => m.Started? && m.id in s.hub && m.id in s.agent.rows && s.agent.rows[m.id].synced && Over(s, m.id)
    case _ => false
  }

  /** The Agent's journal never holds a PENDING row. */
  ghost predicate NoPending(s: Sys) {
    (forall id <- s.agent.rows :: !s.agent.rows[id].status.Pending?) && forall k <- s.agent.acks :: !k.1.status.Pending?
  }

  lemma AgentLoses(s: Sys, a: J.Event)
    requires Enabled(s, AgentStep(a)) && NothingLost(s) && NoPending(s)
    ensures NothingLost(Step(s, AgentStep(a))) <==> !Loses(s, AgentStep(a))
  {
    var t := Step(s, AgentStep(a));
    assert t.hub == s.hub;
    if a.AckWrite? && (a.id, a.row) in s.agent.acks && a.id in s.agent.rows {
      AckLoses(s, a.id, a.row);
    } else if a.Launch? && a.id in s.agent.launching && a.id in s.agent.rows {
      LaunchLoses(s, a.id, a.complete);
    } else {
      OtherLosesNothing(s, a);
    }
  }

  lemma AckLoses(s: Sys, id: Id, row: J.Row)
    requires NothingLost(s) && (id, row) in s.agent.acks && id in s.agent.rows
    ensures NothingLost(Step(s, AgentStep(J.AckWrite(id, row)))) <==> !Loses(s, AgentStep(J.AckWrite(id, row)))
  {
    var t := Step(s, AgentStep(J.AckWrite(id, row)));
    assert t.agent.rows == s.agent.rows[id := J.Acked(s.agent.rows[id], row)];
    assert Over(t, id) <==> Terminal(row.status) || (id !in s.agent.active && id !in s.agent.launching);
    assert Agreed(t, id) <==> Terminal(row.status) && id in s.hub && s.hub[id].status == row.status;
    forall d <- s.agent.rows | d != id && t.agent.rows[d].synced && Over(t, d) ensures Agreed(t, d) {
      assert Agreed(s, d);
    }
  }

  lemma LaunchLoses(s: Sys, id: Id, complete: bool)
    requires NothingLost(s) && id in s.agent.launching && id in s.agent.rows
    ensures NothingLost(Step(s, AgentStep(J.Launch(id, complete)))) <==> !Loses(s, AgentStep(J.Launch(id, complete)))
  {
    var t := Step(s, AgentStep(J.Launch(id, complete)));
    forall d <- s.agent.rows | d != id && t.agent.rows[d].synced && Over(t, d) ensures Agreed(t, d) {
      assert Agreed(s, d);
    }
    if Loses(s, AgentStep(J.Launch(id, complete))) {
      assert t.agent.rows == s.agent.rows && Over(t, id) && !Agreed(t, id);
    }
  }

  lemma OtherLosesNothing(s: Sys, a: J.Event)
    requires Enabled(s, AgentStep(a)) && NothingLost(s) && NoPending(s)
    requires !(a.AckWrite? && (a.id, a.row) in s.agent.acks && a.id in s.agent.rows)
    requires !(a.Launch? && a.id in s.agent.launching && a.id in s.agent.rows)
    ensures NothingLost(Step(s, AgentStep(a)))
  {
    var t := Step(s, AgentStep(a));
    forall d <- t.agent.rows | t.agent.rows[d].synced && Over(t, d) ensures Agreed(t, d) {
      assert d in s.agent.rows && s.agent.rows[d].synced && Over(s, d);
      assert Agreed(s, d);
    }
  }

  lemma DeliverLoses(s: Sys, m: H.Message)
    requires NothingLost(s)
    ensures NothingLost(Step(s, Deliver(m))) <==> !Loses(s, Deliver(m))
  {
    var t := Step(s, Deliver(m));
    assert t.agent == s.agent;
    forall d <- s.agent.rows | d != m.id && s.agent.rows[d].synced && Over(s, d) ensures Agreed(t, d) {
      assert Agreed(s, d);
    }
    if Loses(s, Deliver(m)) {
      assert Agreed(s, m.id) && Over(t, m.id) && !Agreed(t, m.id);
    }
  }

  /** A step keeps everything that counts as delivered exactly when it is none of the three. */
  lemma {:induction false} StepLoses(s: Sys, e: Event)
    requires Enabled(s, e) && NothingLost(s) && NoPending(s)
    ensures NothingLost(Step(s, e)) <==> !Loses(s, e)
  {
    match e {
      case AgentStep(a) => AgentLoses(s, a);
      case Deliver(m) => DeliverLoses(s, m);
      case HubDispatch(id, key, sends) =>
        var t := Step(s, e);
        assert forall d <- s.agent.rows :: d != id;
      case _ =>
    }
  }

  lemma StepNoPending(s: Sys, e: Event)
    requires NoPending(s)
    ensures NoPending(Step(s, e))
  {
  }

  lemma {:induction false} RunNoPending(events: seq<Event>, n: nat)
    requires n <= |events|
    ensures NoPending(After(Start, events, n))
  {
    if n > 0 {
      RunNoPending(events, n - 1);
      StepNoPending(After(Start, events, n - 1), events[n - 1]);
    }
  }

  ghost predicate KeepsAt(events: seq<Event>, n: nat)
    requires n <= |events|
  {
    NothingLost(After(Start, events, n))
  }

  predicate LosesAt(events: seq<Event>, n: nat)
    requires n < |events|
  {
    Loses(After(Start, events, n), events[n])
  }

  lemma StepInRun(events: seq<Event>, n: nat)
    requires PossibleRun(Start, events) && n < |events|
    ensures KeepsAt(events, 0) && (KeepsAt(events, n) ==> (KeepsAt(events, n + 1) <==> !LosesAt(events, n)))
  {
    RunNoPending(events, n);
    var s := After(Start, events, n);
    assert Enabled(s, events[n]);
    hide Loses, NoPending, Enabled, Step;
    if NothingLost(s) { StepLoses(s, events[n]); }
  }

  /** A run of the system, orderly or not, keeps every result that counts as delivered exactly when
      none of its events is one of the three. */
  lemma {:induction false} RunLosesNothingExactly(events: seq<Event>)
    requires PossibleRun(Start, events)
    ensures (forall n | 0 <= n <= |events| :: KeepsAt(events, n)) <==> forall n | 0 <= n < |events| :: !LosesAt(events, n)
  {
    hide KeepsAt, LosesAt, PossibleRun;
    if forall n | 0 <= n < |events| :: !LosesAt(events, n) {
      forall n | 0 <= n <= |events| ensures KeepsAt(events, n) {
        NoneLost(events, n);
      }
    } else {
      var n :| 0 <= n < |events| && LosesAt(events, n);
      StepInRun(events, n);
      assert !KeepsAt(events, n) || !KeepsAt(events, n + 1);
    }
  }

  lemma {:induction false} NoneLost(events: seq<Event>, n: nat)
    requires PossibleRun(Start, events) && n <= |events|
    requires forall k | 0 <= k < |events| :: !LosesAt(events, k)
    ensures KeepsAt(events, n)
  {
    hide LosesAt, PossibleRun;
    if n > 0 {
      NoneLost(events, n - 1);
      StepInRun(events, n - 1);
    }
  }

  // ---------- the runs that lose one ----------

  /** The Agent's result will never be sent again, and the Hub does not have it. */
  predicate Lost(s: Sys, id: Id) {
    && id in s.agent.rows && s.agent.rows[id].synced && id !in s.agent.active
    && id in s.hub && !Terminal(s.hub[id].status)
  }

  function RunningState(id: Id, key: J.Key): Sys {
    Sys(J.State(map[id := J.NewRow(key)], map[], {id}, {}, true, [id]),
        map[id := H.PendingRow(key.task, key.node, key.slot)], {}, {}, {(id, key)})
  }

  function Prelude(id: Id, key: J.Key): seq<Event> {
    [HubDispatch(id, key, true), AgentStep(J.SetReady(true)), AgentStep(J.Arrive(id, key, J.Dispatched)), AgentStep(J.Launch(id, true))]
  }

  /** An execution that the Hub dispatched and the Agent is running. */
  lemma RunningReachable(id: Id, key: J.Key)
    ensures OrderlyRun(Start, Prelude(id, key)) && After(Start, Prelude(id, key), 4) == RunningState(id, key)
  {
    var events := Prelude(id, key);
    var s1 := Step(Start, events[0]);
    var s2 := Step(s1, events[1]);
    var s3 := Step(s2, events[2]);
    assert s3.agent == J.State(map[id := J.NewRow(key)], map[id := J.Dispatched], {}, {}, true, []);
    var s4 := Step(s3, events[3]);
    assert s4.agent == RunningState(id, key).agent;
    assert After(Start, events, 0) == Start;
    assert After(Start, events, 1) == s1;
    assert After(Start, events, 2) == s2;
    assert After(Start, events, 3) == s3;
    assert After(Start, events, 4) == s4;
    forall n | 0 <= n < 4 ensures Enabled(After(Start, events, n), events[n]) && Orderly(After(Start, events, n), events[n]) {
    }
  }

  lemma {:induction false} AfterJoins(s: Sys, a: seq<Event>, b: seq<Event>, n: nat)
    requires n <= |b|
    ensures After(s, a + b, |a| + n) == After(After(s, a, |a|), b, n)
  {
    if n == 0 {
      AfterPrefix(s, a, b, |a|);
    } else {
      AfterJoins(s, a, b, n - 1);
    }
  }

  lemma {:induction false} AfterPrefix(s: Sys, a: seq<Event>, b: seq<Event>, n: nat)
    requires n <= |a|
    ensures After(s, a + b, n) == After(s, a, n)
  {
    if n > 0 {
      AfterPrefix(s, a, b, n - 1);
    }
  }

  lemma Lengths(id: Id, key: J.Key)
    ensures |Prelude(id, key)| == 4 && |LateAck(id, key)| == 5 && |StaleAck(id, key)| == 5
  {
  }

  /** What can happen to a running execution can happen from the start. */
  lemma FromStart(id: Id, key: J.Key, tail: seq<Event>)
    requires PossibleRun(RunningState(id, key), tail)
    ensures PossibleRun(Start, Prelude(id, key) + tail)
    ensures After(Start, Prelude(id, key) + tail, 4 + |tail|) == After(RunningState(id, key), tail, |tail|)
  {
    hide Enabled, Step, RunningState;
    var a := Prelude(id, key);
    RunningReachable(id, key);
    forall n | 0 <= n < |a + tail| ensures Enabled(After(Start, a + tail, n), (a + tail)[n]) {
      if n < 4 {
        AfterPrefix(Start, a, tail, n);
        assert Enabled(After(Start, a, n), a[n]);
      } else {
        AfterJoins(Start, a, tail, n - 4);
        assert Enabled(After(RunningState(id, key), tail, n - 4), tail[n - 4]);
      }
    }
    AfterJoins(Start, a, tail, |tail|);
  }

  function RunningUploaded(id: Id, key: J.Key): Sys {
    RunningState(id, key).(up := {FinishedOf(id, J.NewRow(key))}, acks := {id},
                           hub := map[id := H.Updated(H.PendingRow(key.task, key.node, key.slot), FinishedOf(id, J.NewRow(key)))])
  }

  /** A reconnect sends RUNNING rows as well, and the Hub acknowledges them. */
  lemma RunningIsAcknowledged(id: Id, key: J.Key)
    ensures Step(Step(RunningState(id, key), Upload(id)), Deliver(FinishedOf(id, J.NewRow(key)))) == RunningUploaded(id, key)
  {
  }

  function Done(row: J.Row): J.Row {
    row.(status := Success, exitCode := 0, stdout := "out", stderr := "", reason := "", synced := false)
  }

  /** The acknowledgement of the RUNNING upload arrives after the run has finished and its report was
      lost: the result counts as delivered, and the Hub shows RUNNING for ever. */
  lemma {:induction false} LateAckLosesResult(id: Id, key: J.Key)
    ensures var events := Prelude(id, key) + LateAck(id, key);
            PossibleRun(Start, events) && Lost(After(Start, events, 9), id) && Terminal(After(Start, events, 9).agent.rows[id].status)
  {
    hide RunningState, Prelude, LateAck, PossibleRun, Lost;
    assert |LateAck(id, key)| == 5 && |Prelude(id, key)| == 4 by { Lengths(id, key); }
    LateAckRun(id, key);
    FromStart(id, key, LateAck(id, key));
  }

  lemma LateAckRun(id: Id, key: J.Key)
    ensures var s, events := RunningState(id, key), LateAck(id, key);
            PossibleRun(s, events) && Lost(After(s, events, 5), id) && Terminal(After(s, events, 5).agent.rows[id].status)
  {
    var s, done, events := RunningState(id, key), Done(J.NewRow(key)), LateAck(id, key);
    RunningIsAcknowledged(id, key);
    var s2 := RunningUploaded(id, key);
    var s3 := Step(s2, events[2]);
    assert s3.agent.rows[id] == done;
    var s4 := Step(s3, events[3]);
    assert After(s, events, 0) == s;
    assert After(s, events, 1) == Step(s, events[0]);
    assert After(s, events, 2) == s2;
    assert After(s, events, 3) == s3;
    assert After(s, events, 4) == s4;
    assert After(s, events, 5) == Step(s4, events[4]);
    forall n | 0 <= n < 5 ensures Enabled(After(s, events, n), events[n]) {
    }
  }

  function LateAck(id: Id, key: J.Key): seq<Event> {
    [Upload(id), Deliver(FinishedOf(id, J.NewRow(key))), AgentStep(J.Finish(id, Success, 0, "out", "", "")),
     AgentStep(J.AckRead(id)), AgentStep(J.AckWrite(id, Done(J.NewRow(key))))]
  }

  /** If the handler of that acknowledgement had read the row before the run finished, it even writes
      the RUNNING row back over the result. */
  lemma {:induction false} StaleAckErasesResult(id: Id, key: J.Key)
    ensures var events := Prelude(id, key) + StaleAck(id, key);
            PossibleRun(Start, events) && Lost(After(Start, events, 9), id) && After(Start, events, 9).agent.rows[id].status == Running
  {
    hide RunningState, Prelude, StaleAck, PossibleRun, Lost;
    assert |StaleAck(id, key)| == 5 && |Prelude(id, key)| == 4 by { Lengths(id, key); }
    StaleAckRun(id, key);
    FromStart(id, key, StaleAck(id, key));
  }

  lemma StaleAckRun(id: Id, key: J.Key)
    ensures var s, events := RunningState(id, key), StaleAck(id, key);
            PossibleRun(s, events) && Lost(After(s, events, 5), id) && After(s, events, 5).agent.rows[id].status == Running
  {
    var s, events := RunningState(id, key), StaleAck(id, key);
    RunningIsAcknowledged(id, key);
    var s2 := RunningUploaded(id, key);
    var s3 := Step(s2, events[2]);
    assert (id, J.NewRow(key)) in s3.agent.acks;
    var s4 := Step(s3, events[3]);
    assert After(s, events, 0) == s;
    assert After(s, events, 1) == Step(s, events[0]);
    assert After(s, events, 2) == s2;
    assert After(s, events, 3) == s3;
    assert After(s, events, 4) == s4;
    assert After(s, events, 5) == Step(s4, events[4]);
    forall n | 0 <= n < 5 ensures Enabled(After(s, events, n), events[n]) {
    }
  }

  function StaleAck(id: Id, key: J.Key): seq<Event> {
    [Upload(id), Deliver(FinishedOf(id, J.NewRow(key))), AgentStep(J.AckRead(id)),
     AgentStep(J.Finish(id, Success, 0, "out", "", "")), AgentStep(J.AckWrite(id, J.NewRow(key)))]
  }

  /** A start that the Hub handles after the result reopens the row, whatever the journal says. */
  lemma {:induction false} LateStartReopens(s: Sys, id: Id, start: string)
    requires Inv(s) && Agreed(s, id) && s.agent.rows[id].synced
    ensures PossibleRun(s, [AnnounceStart(id, start), Deliver(H.Started(id, start))])
    ensures Lost(After(s, [AnnounceStart(id, start), Deliver(H.Started(id, start))], 2), id)
  {
    var events := [AnnounceStart(id, start), Deliver(H.Started(id, start))];
    assert After(s, events, 0) == s;
    assert After(s, events, 1) == Step(s, events[0]);
    assert After(s, events, 2) == Step(Step(s, events[0]), events[1]);
    forall n | 0 <= n < 2 ensures Enabled(After(s, events, n), events[n]) {
    }
  }
}
