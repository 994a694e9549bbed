/** What the Hub's rows say about an execution, compared with what its Agent's journal says. */
module ExecutionResults {
  import opened Models
  import opened ExecutionProtocol
  import J = AgentJournal
  import H = HubExecutions

  // ---------- one message ----------

  /** All of the text, or its first MiB. */
  predicate Kept(stored: string, sent: string) {
    if |sent| <= 1048576 then stored == sent else |stored| == 1048576 && stored <= sent
  }

  /** An accepted result that finds no final row is stored, field by field; what the message leaves empty
      stays, and so do node, slot and every other row. */
  lemma {:induction false} ResultStored(rows: map<Id, H.Row>, m: H.Message)
    requires !m.Started? && H.Handle(rows, m).1 && (m.id in rows ==> !Terminal(rows[m.id].status))
    ensures var t := H.Handle(rows, m).0;
            && t == rows[m.id := t[m.id]]
            && var r := t[m.id];
               && r.end == m.end
               && (m.Finished? ==> r.status == m.status && r.exitCode == m.exitCode && Kept(r.stdout, m.stdout) && Kept(r.stderr, m.stderr))
               && (m.DeployResult? ==> r.status == if m.success then Success else Failed)
               && (m.id !in rows ==>
                     && r.start == m.start && r.reason == m.reason && r.node == m.node
                     && (m.Finished? ==> r.task == m.task && r.slot == m.slot)
                     && (m.DeployResult? ==> r.task == m.app && r.slot == "" && r.exitCode == 0 && r.stdout == r.stderr == ""))
               && (m.id in rows ==>
                     && var was := rows[m.id];
                        && r.start == (if m.start == "" then was.start else m.start) && r.node == was.node && r.slot == was.slot
                        && (m.Finished? ==> r.task == (if m.task == "" then was.task else m.task) && r.reason == was.reason)
                        && (m.DeployResult? ==>
                              && r.task == was.task && r.exitCode == was.exitCode && r.stdout == was.stdout && r.stderr == was.stderr
                              && r.reason == if m.success then was.reason else m.reason))
  {
  }

  /** A start makes a known row RUNNING and says nothing else; a result is refused exactly when it finds no
      final row and its row would take the task, node and slot of another one. */
  lemma {:induction false} StartsAndRefusals(rows: map<Id, H.Row>, m: H.Message)
    ensures m.Started? ==> !H.Handle(rows, m).1 && H.Handle(rows, m).0 ==
                           if m.id in rows then rows[m.id := rows[m.id].(status := Running, start := m.start)] else rows
    ensures !H.Handle(rows, m).1 && !m.Started? ==> H.Handle(rows, m).0 == rows
    ensures !m.Started? && m.id in rows && Terminal(rows[m.id].status) ==> H.Handle(rows, m) == (rows, true)
    ensures m.Finished? && m.id !in rows ==>
              (H.Handle(rows, m).1 <==> m.slot == "" || forall d <- rows :: !H.At(rows[d], m.task, m.node, m.slot))
    ensures m.Finished? && m.id in rows && !Terminal(rows[m.id].status) && m.task in {"", rows[m.id].task} && H.UniqueSlots(rows) ==>
              H.Handle(rows, m).1
  {
    if m.Finished? && m.id !in rows {
      assert forall d <- rows :: H.SameSlot(rows[d], H.Created(m)) <==> m.slot != "" && H.At(rows[d], m.task, m.node, m.slot);
    }
    if m.Finished? && m.id in rows && H.UniqueSlots(rows) {
      assert forall d <- rows | d != m.id :: !H.SameSlot(rows[d], rows[m.id]);
    }
  }

  /** A row that serving a slot adds belongs to one of the tried nodes and carries the slot; it waits for
      its Agent if the message was sent, and is FAILED, the last one, if it was refused. */
  lemma {:induction false} ServedRowsAre(rows: map<Id, H.Row>, task: Id, slot: string, tries: seq<H.Try>, n: nat, d: Id)
    requires n <= |tries| && d !in rows && d in H.Serve(rows, task, slot, tries, n).0
    ensures exists i | 0 <= i < n ::
              && tries[i].id == d && tries[i].able
              && H.Serve(rows, task, slot, tries, n).0[d] ==
                 H.Row(task, tries[i].node, slot, if tries[i].sends then Pending else Failed, 0, "", "", "",
                       if tries[i].sends then "" else "now", if tries[i].sends then "" else "dispatch failed")
              && (!tries[i].sends ==> H.Serve(rows, task, slot, tries, n) == (H.Serve(rows, task, slot, tries, i + 1).0, true))
  {
    var (r, stopped) := H.Serve(rows, task, slot, tries, n - 1);
    if d in r {
      ServedRowsAre(rows, task, slot, tries, n - 1, d);
      if !stopped { DispatchAdds(r, task, slot, tries[n - 1]); }
    } else {
      DispatchAdds(r, task, slot, tries[n - 1]);
      assert tries[n - 1].id == d;
    }
  }

  lemma DispatchAdds(rows: map<Id, H.Row>, task: Id, slot: string, t: H.Try)
    ensures var (r, stop) := H.Dispatch(rows, task, slot, t);
            && (forall d <- rows :: d in r && r[d] == rows[d])
            && (t.id !in rows && t.id in r ==>
                  t.able && stop == !t.sends &&
                  r == rows[t.id := H.Row(task, t.node, slot, if t.sends then Pending else Failed, 0, "", "", "",
                                          if t.sends then "" else "now", if t.sends then "" else "dispatch failed")])
            && (t.id !in r || t.id in rows ==> r == rows)
  {
  }

  // ---------- the whole way ----------

  function KeyOf(r: H.Row): J.Key {
    J.Key(r.task, r.node, r.slot)
  }

  /** The Hub's final row tells what the journal tells. */
  predicate SameOutcome(h: H.Row, r: J.Row) {
    && KeyOf(h) == r.key && h.status == r.status && h.exitCode == r.exitCode
    && Kept(h.stdout, r.stdout) && Kept(h.stderr, r.stderr)
  }

  /** An upload puts one message on its way, with everything the row says; the report of a deployment says
      whether it succeeded, and why not. */
  lemma {:induction false} ReportsCarry(s: Sys, id: Id)
    requires id in s.agent.rows
    ensures var r := s.agent.rows[id];
            && Step(s, Upload(id)) == s.(up := s.up + {H.Finished(id, r.key.task, r.key.node, r.key.slot, r.status, r.exitCode,
                                                                 r.stdout, r.stderr, "", "", r.reason)})
            && Step(s, UploadDeploy(id)) == s.(up := s.up + {H.DeployResult(id, r.key.task, r.key.node, r.status == Success, "", "", r.reason)})
  {
  }

  /** What is on its way about this execution, and what is stored of it, is what its row says. */
  ghost predicate Faithful(s: Sys, id: Id) {
    && (forall m <- s.up | m.id == id :: m.Started? || (id in s.agent.rows && m == FinishedOf(id, s.agent.rows[id])))
    && (forall k <- s.agent.acks | k.0 == id :: id in s.agent.rows && k.1.(synced := true) == s.agent.rows[id].(synced := true))
    && (forall k <- s.runs | k.0 == id :: id in s.hub && KeyOf(s.hub[id]) == k.1)
    && (id in s.hub && id in s.agent.rows ==> KeyOf(s.hub[id]) == s.agent.rows[id].key)
    && (id in s.hub && id in s.agent.rows && Terminal(s.hub[id].status) ==> SameOutcome(s.hub[id], s.agent.rows[id]))
  }

  lemma AgentKeepsFaithful(s: Sys, a: J.Event, id: Id)
    requires Inv(s) && Enabled(s, AgentStep(a)) && Faithful(s, id)
    ensures Faithful(Step(s, AgentStep(a)), id)
  {
    hide Kept;
    var t := Step(s, AgentStep(a));
    assert id in s.agent.rows && Terminal(s.agent.rows[id].status) ==> t.agent.rows[id].(synced := true) == s.agent.rows[id].(synced := true);
  }

  lemma DeliverKeepsFaithful(s: Sys, m: H.Message, id: Id)
    requires Inv(s) && Enabled(s, Deliver(m)) && Orderly(s, Deliver(m)) && Faithful(s, id)
    ensures Faithful(Step(s, Deliver(m)), id)
  {
    if m.id == id {
      if !m.Started? && H.Handle(s.hub, m).1 && (id in s.hub ==> !Terminal(s.hub[id].status)) { ResultStored(s.hub, m); }
    } else {
      assert forall d | d != m.id :: (d in Step(s, Deliver(m)).hub <==> d in s.hub) && (d in s.hub ==> Step(s, Deliver(m)).hub[d] == s.hub[d]);
    }
  }

  lemma SendKeepsFaithful(s: Sys, e: Event, id: Id)
    requires Inv(s) && Enabled(s, e) && Orderly(s, e) && Faithful(s, id) && e != UploadDeploy(id)
    requires e.Upload? || e.UploadDeploy? || e.AnnounceStart? || e.HubDispatch?
    ensures Faithful(Step(s, e), id)
  {
  }

  lemma StepKeepsFaithful(s: Sys, e: Event, id: Id)
    requires Inv(s) && Enabled(s, e) && Orderly(s, e) && Faithful(s, id) && e != UploadDeploy(id)
    ensures Faithful(Step(s, e), id)
  {
    hide *;
    match e {
      case AgentStep(a) => AgentKeepsFaithful(s, a, id);
      case Deliver(m) => DeliverKeepsFaithful(s, m, id);
      case _ => SendKeepsFaithful(s, e, id);
    }
  }

  lemma StartFaithful(id: Id)
    ensures Faithful(Start, id)
  {
  }

  lemma {:induction false} RunKeepsFaithful(events: seq<Event>, n: nat, id: Id)
    requires OrderlyRun(Start, events) && n <= |events| && forall i | 0 <= i < n :: events[i] != UploadDeploy(id)
    ensures Faithful(After(Start, events, n), id)
  {
    hide Faithful, Inv, Enabled, Orderly, Step;
    StartFaithful(id);
    if n > 0 {
      RunKeepsFaithful(events, n - 1, id);
      RunKeepsInv(events, n - 1);
      var s, e := After(Start, events, n - 1), events[n - 1];
      assert Enabled(s, e) && Orderly(s, e) by { assert 0 <= n - 1 < |events|; }
      assert events[n - 1] != UploadDeploy(id);
      StepKeepsFaithful(s, e, id);
    }
  }

  /** In every reachable state of the orderly protocol, a finished run that the Agent believes delivered is
      on the Hub with the same task, node, slot, status and exit code, and with its output, cut off at
      one MiB. */
  lemma {:induction false} OutputsArrive(events: seq<Event>, n: nat, id: Id)
    requires OrderlyRun(Start, events) && n <= |events| && forall i | 0 <= i < n :: events[i] != UploadDeploy(id)
    requires var s := After(Start, events, n); id in s.agent.rows && Terminal(s.agent.rows[id].status) && s.agent.rows[id].synced
    ensures var s := After(Start, events, n); id in s.hub && SameOutcome(s.hub[id], s.agent.rows[id])
  {
    RunKeepsFaithful(events, n, id);
    SyncedMeansStored(events, n, id);
  }
}
