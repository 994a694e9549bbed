/** Execution rows on the Hub: scheduled dispatch, and the results that Agents send, in any order
    and any number of times. */
module HubExecutions {
  import opened Models

  /** A row of the executions table. The times of start and end are `start` and `end`. */
  datatype Row = Row(task: Id, node: Id, slot: string, status: Status, exitCode: int, stdout: string, stderr: string,
                     start: string, end: string, reason: string)

  /** EXECUTION_FINISHED carries the status the Agent's journal has, whatever it is. */
  datatype Message =
    | Finished(id: Id, task: Id, node: Id, slot: string, status: Status, exitCode: int, stdout: string, stderr: string,
               start: string, end: string, reason: string)
    | DeployResult(id: Id, app: Id, node: Id, success: bool, start: string, end: string, reason: string)
    | Started(id: Id, start: string)

  const MAX_LOG := 1048576

  function TruncateLog(s: string): (r: string)
    ensures r <= s && if |s| <= 1048576 then r == s else |r| == 1048576
  {
    if |s| > MAX_LOG then s[..MAX_LOG] else s
  }

  predicate SameSlot(a: Row, b: Row) {
    a.slot != "" && a.slot == b.slot && a.task == b.task && a.node == b.node
  }

  predicate Insertable(rows: map<Id, Row>, id: Id, row: Row) {
    id !in rows && forall d <- rows :: !SameSlot(rows[d], row)
  }

  /** An update must keep the slot index as well. */
  predicate Updatable(rows: map<Id, Row>, id: Id, row: Row) {
    forall d <- rows | d != id :: !SameSlot(rows[d], row)
  }

  ghost predicate UniqueSlots(rows: map<Id, Row>) {
    forall d <- rows, e <- rows | d != e :: !SameSlot(rows[d], rows[e])
  }

  function Result(ok: bool): Status {
    if ok then Success else Failed
  }

  function OrElse(a: string, b: string): string {
    if a != "" then a else b
  }

  /** The row an unknown execution gets, when its first news is a result. */
  function Created(m: Message): Row
    requires !m.Started?
  {
    match m
    case Finished(_, task, node, slot, status, exitCode, stdout, stderr, start, end, reason) =>
      Row(task, node, slot, status, exitCode, TruncateLog(stdout), TruncateLog(stderr), start, end, reason)
    case DeployResult(_, app, node, success, start, end, reason) =>
      Row(app, node, "", Result(success), 0, "", "", start, end, reason)
  }

  /** What a result does to a row that is not terminal. The block reason of a finished run is not
      copied to an existing row. */
  function Updated(row: Row, m: Message): Row
    requires !m.Started?
  {
    match m
    case Finished(_, task, _, _, status, exitCode, stdout, stderr, start, end, _) =>
      row.(status := status, exitCode := exitCode, task := OrElse(task, row.task), stdout := TruncateLog(stdout),
           stderr := TruncateLog(stderr), start := OrElse(start, row.start), end := end)
    case DeployResult(_, _, _, success, start, end, reason) =>
      row.(status := Result(success), start := OrElse(start, row.start), end := end, reason := if success then row.reason else reason)
  }

  /** One handled message: the rows, and whether the Agent gets a positive acknowledgement. */
  function Handle(rows: map<Id, Row>, m: Message): (map<Id, Row>, bool) {
    if m.Started? then
      (if m.id in rows then rows[m.id := rows[m.id].(status := Running, start := m.start)] else rows, false)
    else if m.id !in rows then
      if Insertable(rows, m.id, Created(m)) then (rows[m.id := Created(m)], true) else (rows, false)
    else if Terminal(rows[m.id].status) then (rows, true)
    else if Updatable(rows, m.id, Updated(rows[m.id], m)) then (rows[m.id := Updated(rows[m.id], m)], true)
    else (rows, false)
  }

  function HandleAll(rows: map<Id, Row>, messages: seq<Message>, n: nat): map<Id, Row>
    requires n <= |messages|
  {
    if n == 0 then rows else Handle(HandleAll(rows, messages, n - 1), messages[n - 1]).0
  }

  /** A result is acknowledged only when the Hub has a row for it, and a terminal result only when
      that row is terminal. */
  lemma {:induction false} AckMeansStored(rows: map<Id, Row>, m: Message)
    requires !m.Started? && Handle(rows, m).1
    ensures m.id in Handle(rows, m).0
    ensures m.DeployResult? || Terminal(m.status) ==> Terminal(Handle(rows, m).0[m.id].status)
  {
  }

  /** Once a row is terminal, redelivered and reordered results leave all of it alone, and each is
      acknowledged. A message that the execution started is the only one that can change it. */
  lemma {:induction false} TerminalAbsorbs(rows: map<Id, Row>, messages: seq<Message>, id: Id)
    requires id in rows && rows[id].status != Pending && rows[id].status != Running
    ensures (forall n | 0 <= n <= |messages| :: Unchanged(rows, messages, id, n)) <==> forall m <- messages :: !(m.Started? && m.id == id)
  {
    if forall m <- messages :: !(m.Started? && m.id == id) {
      forall n | 0 <= n <= |messages| ensures Unchanged(rows, messages, id, n) {
        StaysTerminal(rows, messages, id, n);
      }
    } else {
      var k :| 0 <= k < |messages| && messages[k].Started? && messages[k].id == id;
      assert Unchanged(rows, messages, id, k) ==> !Unchanged(rows, messages, id, k + 1);
    }
  }

  ghost predicate Unchanged(rows: map<Id, Row>, messages: seq<Message>, id: Id, n: nat)
    requires id in rows && n <= |messages|
  {
    id in HandleAll(rows, messages, n) && HandleAll(rows, messages, n)[id] == rows[id]
  }

  lemma {:induction false} HandleKeepsSlots(rows: map<Id, Row>, m: Message)
    requires UniqueSlots(rows)
    ensures UniqueSlots(Handle(rows, m).0) && rows.Keys <= Handle(rows, m).0.Keys
  {
    var after := Handle(rows, m).0;
    forall d <- after, e <- after | d != e ensures !SameSlot(after[d], after[e]) {
      assert d in rows && e in rows ==> !SameSlot(rows[d], rows[e]);
    }
  }

  lemma {:induction false} StaysTerminal(rows: map<Id, Row>, messages: seq<Message>, id: Id, n: nat)
    requires id in rows && Terminal(rows[id].status) && n <= |messages|
    requires forall m <- messages :: !(m.Started? && m.id == id)
    ensures id in HandleAll(rows, messages, n) && HandleAll(rows, messages, n)[id] == rows[id]
  {
    if n > 0 {
      StaysTerminal(rows, messages, id, n - 1);
      TerminalStep(HandleAll(rows, messages, n - 1), messages[n - 1], id);
    }
  }

  lemma TerminalStep(rows: map<Id, Row>, m: Message, id: Id)
    requires id in rows && Terminal(rows[id].status) && !(m.Started? && m.id == id)
    ensures id in Handle(rows, m).0 && Handle(rows, m).0[id] == rows[id]
  {
  }

  /** From any rows: the first terminal result decides, whatever results come before and after it. */
  lemma {:induction false} FirstTerminalDecides(rows: map<Id, Row>, messages: seq<Message>, k: nat, n: nat)
    requires k < n <= |messages| && !messages[k].Started? && (messages[k].DeployResult? || Terminal(messages[k].status))
    requires Handle(HandleAll(rows, messages, k), messages[k]).1
    requires forall i | k < i < n :: !(messages[i].Started? && messages[i].id == messages[k].id)
    ensures var id := messages[k].id;
            && id in HandleAll(rows, messages, k + 1) && Terminal(HandleAll(rows, messages, k + 1)[id].status)
            && id in HandleAll(rows, messages, n) && HandleAll(rows, messages, n)[id] == HandleAll(rows, messages, k + 1)[id]
    decreases n
  {
    if n > k + 1 {
      FirstTerminalDecides(rows, messages, k, n - 1);
      TerminalStep(HandleAll(rows, messages, n - 1), messages[n - 1], messages[k].id);
    } else {
      AckMeansStored(HandleAll(rows, messages, k), messages[k]);
    }
  }

  // ---------- scheduled dispatch ----------

  predicate At(row: Row, task: Id, node: Id, slot: string) {
    row.task == task && row.node == node && row.slot == slot
  }

  predicate HasSlot(rows: map<Id, Row>, task: Id, node: Id, slot: string) {
    exists d <- rows :: At(rows[d], task, node, slot)
  }

  function PendingRow(task: Id, node: Id, slot: string): Row {
    Row(task, node, slot, Pending, 0, "", "", "", "", "")
  }

  /** A dispatch that failed is recorded, so its slot is spent. */
  function FailedRow(task: Id, node: Id, slot: string, end: string, reason: string): Row {
    PendingRow(task, node, slot).(status := Failed, end := end, reason := reason)
  }

  /** What happens at one node: it may be unable to run the task (not online, or without the
      capability), and the session may refuse the message. */
  datatype Try = Try(id: Id, node: Id, able: bool, sends: bool)

  /** createAndDispatch for a scheduled run; the flag says that the caller must stop. */
  function Dispatch(rows: map<Id, Row>, task: Id, slot: string, t: Try): (map<Id, Row>, bool) {
    if !t.able then (rows, true)
    else if HasSlot(rows, task, t.node, slot) then (rows, false)
    else if !Insertable(rows, t.id, PendingRow(task, t.node, slot)) then (rows, true)
    else if t.sends then (rows[t.id := PendingRow(task, t.node, slot)], false)
    else (rows[t.id := FailedRow(task, t.node, slot, "now", "dispatch failed")], true)
  }

  /** RunScheduledHub after `n` nodes of the target list. */
  function Serve(rows: map<Id, Row>, task: Id, slot: string, tries: seq<Try>, n: nat): (map<Id, Row>, bool)
    requires n <= |tries|
  {
    if n == 0 then (rows, false)
    else
      var (r, stopped) := Serve(rows, task, slot, tries, n - 1);
      if stopped then (r, true) else Dispatch(r, task, slot, tries[n - 1])
  }

  /** How many nodes come before the first that cannot run the task. */
  function AblePrefix(tries: seq<Try>): (k: nat)
    ensures k <= |tries| && (forall i | 0 <= i < k :: tries[i].able) && (k < |tries| ==> !tries[k].able)
  {
    if |tries| == 0 || !tries[0].able then 0 else 1 + AblePrefix(tries[1..])
  }

  /** Execution ids are fresh UUIDs. */
  ghost predicate FreshIds(rows: map<Id, Row>, tries: seq<Try>) {
    (forall i | 0 <= i < |tries| :: tries[i].id !in rows) && forall i, j | 0 <= i < j < |tries| :: tries[i].id != tries[j].id
  }

  ghost predicate Extends(a: map<Id, Row>, b: map<Id, Row>) {
    forall d <- a :: d in b && b[d] == a[d]
  }

  /** The node is among the first `n` of the target list. */
  ghost predicate Among(tries: seq<Try>, n: int, node: Id)
    requires n <= |tries|
  {
    exists i | 0 <= i < n :: tries[i].node == node
  }

  function Min(a: int, b: int): int {
    if a < b then a else b
  }

  /** With no refused message, the nodes served for a slot are exactly the part of the target list
      before the first node that cannot run the task; the rest must wait for another slot. */
  lemma {:induction false} ServesThePrefix(rows: map<Id, Row>, task: Id, slot: string, tries: seq<Try>, n: nat, node: Id)
    requires n <= |tries| && FreshIds(rows, tries) && forall t <- tries :: t.sends
    ensures var r := Serve(rows, task, slot, tries, n);
            && r.1 == (AblePrefix(tries) < n)
            && (HasSlot(r.0, task, node, slot) <==> HasSlot(rows, task, node, slot) || Among(tries, Min(n, AblePrefix(tries)), node))
            && Extends(rows, r.0) && (forall i | n <= i < |tries| :: tries[i].id !in r.0)
  {
    if n > 0 {
      ServesThePrefix(rows, task, slot, tries, n - 1, node);
      var r, k := Serve(rows, task, slot, tries, n - 1), AblePrefix(tries);
      if k >= n {
        assert tries[n - 1] in tries && tries[n - 1].able;
        DispatchGives(r.0, task, slot, tries[n - 1], node);
        AmongGrows(tries, n, node);
      }
    }
  }

  lemma AmongGrows(tries: seq<Try>, n: nat, node: Id)
    requires 0 < n <= |tries|
    ensures Among(tries, n, node) <==> Among(tries, n - 1, node) || tries[n - 1].node == node
  {
  }

  lemma DispatchGives(rows: map<Id, Row>, task: Id, slot: string, t: Try, node: Id)
    requires t.able && t.sends && t.id !in rows
    ensures var r := Dispatch(rows, task, slot, t);
            && !r.1 && Extends(rows, r.0) && r.0.Keys <= rows.Keys + {t.id}
            && (HasSlot(r.0, task, node, slot) <==> HasSlot(rows, task, node, slot) || t.node == node)
  {
    var r := Dispatch(rows, task, slot, t).0;
    if HasSlot(rows, task, node, slot) {
      var d :| d in rows && At(rows[d], task, node, slot);
      assert d in r && At(r[d], task, node, slot);
    }
    if !HasSlot(rows, task, t.node, slot) {
      SlotFree(rows, t.id, PendingRow(task, t.node, slot));
      assert At(r[t.id], task, t.node, slot);
    }
  }

  lemma SlotFree(rows: map<Id, Row>, id: Id, row: Row)
    requires id !in rows && !HasSlot(rows, row.task, row.node, row.slot)
    ensures Insertable(rows, id, row)
  {
  }

  /** Whatever the nodes do, a slot that has an execution never gets another, and the one it has is
      not touched: a second pass over the same slot, or a failed dispatch, creates nothing. */
  lemma {:induction false} SlotServedOnce(rows: map<Id, Row>, task: Id, slot: string, tries: seq<Try>, n: nat, d: Id)
    requires n <= |tries| && UniqueSlots(rows) && d in rows && rows[d].slot != ""
    ensures var r := Serve(rows, task, slot, tries, n).0;
            UniqueSlots(r) && d in r && r[d] == rows[d] && forall e <- r | At(r[e], rows[d].task, rows[d].node, rows[d].slot) :: e == d
  {
    if n > 0 {
      SlotServedOnce(rows, task, slot, tries, n - 1, d);
      DispatchKeeps(Serve(rows, task, slot, tries, n - 1).0, task, slot, tries[n - 1]);
    }
    var r := Serve(rows, task, slot, tries, n).0;
    forall e <- r | At(r[e], rows[d].task, rows[d].node, rows[d].slot) ensures e == d {
      assert e != d ==> !SameSlot(r[d], r[e]);
    }
  }

  lemma DispatchKeeps(rows: map<Id, Row>, task: Id, slot: string, t: Try)
    requires UniqueSlots(rows)
    ensures UniqueSlots(Dispatch(rows, task, slot, t).0) && Extends(rows, Dispatch(rows, task, slot, t).0)
  {
    var r := Dispatch(rows, task, slot, t).0;
    forall d <- r, e <- r | d != e ensures !SameSlot(r[d], r[e]) {
      assert d in rows && e in rows ==> !SameSlot(rows[d], rows[e]);
      assert d in rows && e !in rows ==> !SameSlot(rows[d], PendingRow(task, t.node, slot));
      assert e in rows && d !in rows ==> !SameSlot(rows[e], PendingRow(task, t.node, slot));
    }
  }

  class ExecutionManager {
    var rows: map<Id, Row>

    method MarkStarted(m: Message)
      requires m.Started?
      modifies this
      ensures rows == Handle(old(rows), m).0
    {
      if m.id !in rows { return; }
      rows := rows[m.id := rows[m.id].(status := Running, start := m.start)];
    }

    method MarkFinished(m: Message) returns (ok: bool)
      requires m.Finished?
      modifies this
      ensures (rows, ok) == Handle(old(rows), m)
    {
      if m.id !in rows {
        var row := Row(m.task, m.node, m.slot, m.status, m.exitCode, TruncateLog(m.stdout), TruncateLog(m.stderr), m.start, m.end, m.reason);
        if !Insertable(rows, m.id, row) { return false; }
        rows := rows[m.id := row];
        return true;
      }
      if Terminal(rows[m.id].status) { return true; }
      var row := rows[m.id];
      row := row.(status := m.status, exitCode := m.exitCode);
      if m.task != "" { row := row.(task := m.task); }
      if m.start != "" { row := row.(start := m.start); }
      row := row.(stdout := TruncateLog(m.stdout), stderr := TruncateLog(m.stderr), end := m.end);
      ok := Updatable(rows, m.id, row);
      if ok { rows := rows[m.id := row]; }
    }

    method HandleDeployResult(m: Message) returns (ok: bool)
      requires m.DeployResult?
      modifies this
      ensures (rows, ok) == Handle(old(rows), m)
    {
      if m.id !in rows {
        var row := Row(m.app, m.node, "", Result(m.success), 0, "", "", m.start, m.end, m.reason);
        if !Insertable(rows, m.id, row) { return false; }
        rows := rows[m.id := row];
        return true;
      }
      if Terminal(rows[m.id].status) { return true; }
      var row := rows[m.id].(end := m.end);
      if m.start != "" { row := row.(start := m.start); }
      if m.success {
        row := row.(status := Success);
      } else {
        row := row.(status := Failed, reason := m.reason);
      }
      ok := Updatable(rows, m.id, row);
      if ok { rows := rows[m.id := row]; }
    }

    /** One scheduled execution; `stop` reports every error but an occupied slot. */
    method CreateAndDispatch(task: Id, slot: string, t: Try) returns (stop: bool)
      modifies this
      ensures (rows, stop) == Dispatch(old(rows), task, slot, t)
    {
      if !t.able { return true; }
      if HasSlot(rows, task, t.node, slot) { return false; }
      var row := PendingRow(task, t.node, slot);
      if !Insertable(rows, t.id, row) { return true; }
      rows := rows[t.id := row];
      if !t.sends {
        rows := rows[t.id := row.(status := Failed, end := "now", reason := "dispatch failed")];
        assert rows == old(rows)[t.id := FailedRow(task, t.node, slot, "now", "dispatch failed")];
        return true;
      }
      return false;
    }

    method RunScheduledHub(task: Id, slot: string, tries: seq<Try>) returns (failed: bool)
      modifies this
      ensures (rows, failed) == Serve(old(rows), task, slot, tries, |tries|)
    {
      failed := false;
      for n := 0 to |tries|
        invariant !failed && (rows, false) == Serve(old(rows), task, slot, tries, n)
      {
        var stop := CreateAndDispatch(task, slot, tries[n]);
        if stop {
          StoppedStays(old(rows), task, slot, tries, n + 1, |tries|);
          return true;
        }
      }
    }
  }

  lemma {:induction false} StoppedStays(rows: map<Id, Row>, task: Id, slot: string, tries: seq<Try>, n: nat, m: nat)
    requires n <= m <= |tries| && Serve(rows, task, slot, tries, n).1
    ensures Serve(rows, task, slot, tries, m) == Serve(rows, task, slot, tries, n)
    decreases m
  {
    if m > n {
      StoppedStays(rows, task, slot, tries, n, m - 1);
    }
  }
}
