/** What the rows of the journal say, and whether it is true: who was started, who was refused and why. */
module AgentOutcomes {
  import opened Models
  import opened AgentJournal

  /** A journal without rows. */
  function Empty(ready: bool): State {
    State(map[], map[], {}, {}, ready, [])
  }

  /** What a row may say about an execution that was never started. */
  predicate Unstarted(r: Row) {
    || r.status == Running
    || (r.status == Blocked && r.exitCode == -1 && r.reason == "agent not ready (reconciling)")
    || (r.status == Failed && r.reason in {"agent not ready (reconciling)", "agent_restarted"})
  }

  ghost predicate Honest(s: State) {
    && (forall id <- s.active :: id in s.started)
    && (forall id <- s.rows :: id in s.started || Unstarted(s.rows[id]))
    && (forall k <- s.acks :: k.0 in s.started || Unstarted(k.1))
  }

  lemma StepKeepsHonest(s: State, e: Event)
    requires Honest(s)
    ensures Honest(Step(s, e))
  {
    StartedGrows(s, e);
  }

  lemma {:induction false} RunKeepsHonest(ready: bool, events: seq<Event>, n: nat)
    requires n <= |events|
    ensures Honest(After(Empty(ready), events, n))
  {
    if n > 0 {
      RunKeepsHonest(ready, events, n - 1);
      StepKeepsHonest(After(Empty(ready), events, n - 1), events[n - 1]);
    }
  }

  /** Over every run of an Agent: a row that says SUCCESS belongs to an execution that was started. One
      that was never started and is over says BLOCKED with exit code -1, or FAILED, and why: the gate
      refused it, or the Agent restarted. */
  lemma {:induction false} SuccessWasStarted(ready: bool, events: seq<Event>, n: nat, id: Id)
    requires n <= |events| && id in After(Empty(ready), events, n).rows
    ensures var t := After(Empty(ready), events, n);
            && (t.rows[id].status == Success ==> id in t.started)
            && (Terminal(t.rows[id].status) && id !in t.started ==>
                  || (t.rows[id].status == Blocked && t.rows[id].exitCode == -1 && t.rows[id].reason == "agent not ready (reconciling)")
                  || (t.rows[id].status == Failed && t.rows[id].reason in {"agent not ready (reconciling)", "agent_restarted"}))
  {
    RunKeepsHonest(ready, events, n);
  }

  /** The gate: what the Hub sent starts exactly when the Agent is ready, what the Agent scheduled exactly
      when no parameter is missing. A refused request ends BLOCKED with exit code -1, a refused
      deployment FAILED, both to be reported; an incomplete scheduled run keeps its row. */
  lemma {:induction false} GateExactly(s: State, id: Id, complete: bool)
    requires id in s.launching && id in s.rows
    ensures var t, source, row := Step(s, Launch(id, complete)), s.launching[id], s.rows[id];
            var starts := (source == Scheduled && complete) || (source != Scheduled && s.ready);
            && t.started == (if starts then s.started + [id] else s.started)
            && t.active == (if starts then s.active + {id} else s.active)
            && id !in t.launching && id in t.rows
            && (starts || source == Scheduled ==> t.rows[id] == row)
            && (!starts && source == Dispatched ==> t.rows[id].status == Blocked && t.rows[id].exitCode == -1 && !t.rows[id].synced)
            && (!starts && source == Deployment ==> t.rows[id].status == Failed && !t.rows[id].synced)
            && t.rows[id].key == row.key && forall d <- s.rows | d != id :: d in t.rows && t.rows[d] == s.rows[d]
  {
  }

  /** After a restart, until reconciliation is over, nothing starts but the Agent's own schedules. */
  lemma {:induction false} NothingSentStartsUntilReady(s: State, events: seq<Event>, n: nat)
    requires n <= |events| && forall i | 0 <= i < n :: events[i] != SetReady(true)
    ensures var t := After(Step(s, Restart), events, n);
            && !t.ready
            && (n < |events| && Step(t, events[n]).started != t.started ==>
                  events[n].Launch? && events[n].id in t.launching && t.launching[events[n].id] == Scheduled)
  {
    if n > 0 {
      NothingSentStartsUntilReady(s, events, n - 1);
    }
    if n < |events| {
      StartedGrows(After(Step(s, Restart), events, n), events[n]);
    }
  }

  /** A finished run leaves exactly what it ended with, to be reported; nothing else changes its row
      while it runs but a restart or an acknowledgement. */
  lemma {:induction false} FinishRecords(s: State, id: Id, status: Status, exitCode: int, stdout: string, stderr: string, reason: string)
    requires id in s.active && id in s.rows && Terminal(status)
    ensures var t := Step(s, Finish(id, status, exitCode, stdout, stderr, reason));
            && t.rows == s.rows[id := Row(s.rows[id].key, status, exitCode, stdout, stderr, reason, false)]
            && t.active == s.active - {id} && t.started == s.started
    ensures forall e | id in Step(s, e).rows && Step(s, e).rows[id] != s.rows[id] && id !in s.launching ::
              e == Restart || (e.Finish? && e.id == id) || (e.AckWrite? && e.id == id)
  {
  }

  /** A request gets a row exactly when its id is new and, unless it is a manual run, no row has its task,
      node and slot; the row then reads RUNNING and its handler goes on. */
  lemma {:induction false} ArriveExactly(s: State, id: Id, key: Key, source: Source)
    ensures var t := Step(s, Arrive(id, key, source));
            var isNew := id !in s.rows && (key.slot == "" || forall d <- s.rows :: s.rows[d].key != key);
            t == if isNew then s.(rows := s.rows[id := Row(key, Running, 0, "", "", "", false)], launching := s.launching[id := source]) else s
  {
    assert forall d <- s.rows :: SameSlot(s.rows[d], NewRow(key)) <==> s.rows[d].key == key && key.slot != "";
  }
}
