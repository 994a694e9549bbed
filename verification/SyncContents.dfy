/** What a sync response carries and what it does to the Agent's tables, told from the run of the Hub and
    from the entries of the response. */
module SyncContents {
  import opened Models
  import opened HubStore
  import opened HubRuns
  import opened HubContents
  import opened DesiredState
  import opened SyncResponse
  import opened AgentSync
  import opened SyncProtocol

  // ---------- what a response carries ----------

  /** Object `ref` is deleted by one of the transactions from `i` to `n`. */
  predicate DeletedSince(run: seq<Mutation>, i: nat, n: nat, ref: Ref)
    requires i <= n <= |run|
  {
    exists j | i <= j < n :: run[j] == Delete(ref)
  }

  /** For an Agent that was in sync after `i` of `n` transactions: the answer is a full resync exactly when
      more than `window` of those in between committed; otherwise its tombstones are exactly the objects
      that were deleted in between. */
  lemma {:induction false} AnswerSince(labels: map<Id, Labels>, run: seq<Mutation>, i: nat, n: nat, node: Id, window: int, r: Response, ref: Ref)
    requires i <= n <= |run| && Replay(Fresh(labels), run, i).revision > 0
    requires Answers(r, Replay(Fresh(labels), run, n), node, Replay(Fresh(labels), run, i).revision, window)
    ensures r.fullResync <==> CommitCount(Fresh(labels), run, i, n) > window
    ensures !r.fullResync ==> (ref in r.tombstones <==> DeletedSince(run, i, n, ref))
  {
    RevisionCounts(Fresh(labels), run, i, n);
    BuriedSince(labels, run, i, n, ref);
  }

  /** The tombstones younger than an earlier revision. */
  lemma {:induction false} BuriedSince(labels: map<Id, Labels>, run: seq<Mutation>, i: nat, n: nat, ref: Ref)
    requires i <= n <= |run|
    ensures var db := Replay(Fresh(labels), run, n);
            (ref in db.tombstones && db.tombstones[ref] > Replay(Fresh(labels), run, i).revision) <==> DeletedSince(run, i, n, ref)
    decreases n
  {
    var start := Fresh(labels);
    hide Transact, DeletedSince;
    DeletedStep(run, i, n, ref);
    if i < n {
      BuriedSince(labels, run, i, n - 1, ref);
      TombstoneStep(Replay(start, run, n - 1), run[n - 1], ref);
      LaterRevision(start, run, i, n - 1);
    } else {
      TombstonesPast(labels, run, n, ref);
    }
  }

  lemma DeletedStep(run: seq<Mutation>, i: nat, n: nat, ref: Ref)
    requires i <= n <= |run|
    ensures i == n ==> !DeletedSince(run, i, n, ref)
    ensures i < n ==> (DeletedSince(run, i, n, ref) <==> DeletedSince(run, i, n - 1, ref) || run[n - 1] == Delete(ref))
  {
  }

  lemma {:induction false} TombstonesPast(labels: map<Id, Labels>, run: seq<Mutation>, n: nat, ref: Ref)
    requires n <= |run|
    ensures var db := Replay(Fresh(labels), run, n); ref in db.tombstones ==> db.tombstones[ref] <= db.revision
  {
    if n > 0 {
      hide Transact;
      TombstonesPast(labels, run, n - 1, ref);
      TombstoneStep(Replay(Fresh(labels), run, n - 1), run[n - 1], ref);
      LaterRevision(Fresh(labels), run, n - 1, n);
    }
  }

  // ---------- what it does to the tables ----------

  /** The entries are well formed: an object travels under its own id. */
  ghost predicate WellFormed(es: seq<Entry>) {
    forall e <- es :: !e.deleted && e.data.Encoded? ==> e.data.obj.id == e.id
  }

  /** Entry `i` is the last of the first `n` about the id. */
  ghost predicate LastMention(es: seq<Entry>, i: nat, n: nat, id: Id)
    requires n <= |es|
  {
    i < n && es[i].id == id && forall j | i < j < n :: es[j].id != id
  }

  ghost predicate Unmentioned(es: seq<Entry>, n: nat, id: Id)
    requires n <= |es|
  {
    forall j | 0 <= j < n :: es[j].id != id
  }

  /** After a list of entries the last one about an object decides, and what no entry mentions stays. */
  lemma {:induction false} LastEntryDecides(kind: Kind, rows: map<Ref, Json>, es: seq<Entry>, n: nat, ref: Ref, i: nat)
    requires n <= |es| && WellFormed(es) && ApplyEntries(kind, rows, es, n).Some?
    ensures var t := ApplyEntries(kind, rows, es, n).value;
            && (ref.kind != kind || Unmentioned(es, n, ref.id) ==> (ref in t <==> ref in rows) && (ref in t ==> t[ref] == rows[ref]))
            && (ref.kind == kind && LastMention(es, i, n, ref.id) ==>
                  if es[i].deleted then ref !in t else ref in t && t[ref] == es[i].data)
  {
    if n > 0 {
      LastEntryDecides(kind, rows, es, n - 1, ref, i);
      assert es[n - 1] in es;
    }
  }

  /** Which response is refused as a whole: one with an unreadable script, task or schedule. */
  lemma {:induction false} RefusedExactly(db: LocalDb, p: Response)
    ensures Plan(db, p).None? <==> exists e <- p.scripts + p.tasks + p.schedules :: !e.deleted && e.data.Malformed?
  {
    var a := ApplyEntries(Script, db.rows, p.scripts, |p.scripts|);
    FailsAt(Script, db.rows, p.scripts, |p.scripts|);
    if a.Some? {
      var b := ApplyEntries(Task, a.value, p.tasks, |p.tasks|);
      FailsAt(Task, a.value, p.tasks, |p.tasks|);
      if b.Some? {
        FailsAt(Schedule, b.value, p.schedules, |p.schedules|);
        var c := ApplyEntries(Schedule, b.value, p.schedules, |p.schedules|);
        if c.Some? { AppsNeverFail(c.value, p.apps, |p.apps|); }
        else { SomeMalformed(p.schedules, p); }
      } else {
        SomeMalformed(p.tasks, p);
      }
    } else {
      SomeMalformed(p.scripts, p);
    }
  }

  lemma SomeMalformed(es: seq<Entry>, p: Response)
    requires es in {p.scripts, p.tasks, p.schedules} && !forall i | 0 <= i < |es| :: es[i].deleted || es[i].data.Encoded?
    ensures exists e <- p.scripts + p.tasks + p.schedules :: !e.deleted && e.data.Malformed?
  {
    var i :| 0 <= i < |es| && !(es[i].deleted || es[i].data.Encoded?);
    assert es[i] in p.scripts + p.tasks + p.schedules;
  }

  /** What an applied response leaves of one object: nothing if it travels as a tombstone; else what the
      last entry about it says; and if there is none, nothing after a snapshot or a full resync, and what
      there was after anything else. The revision is the response's. */
  lemma {:induction false} PlanExactly(db: LocalDb, p: Response, ref: Ref, i: nat)
    requires Plan(db, p).Some? && forall k: Kind :: WellFormed(EntriesOf(p, k))
    ensures var t, es := Plan(db, p).value, EntriesOf(p, ref.kind);
            && t.revision == p.globalRev
            && (ref in p.tombstones ==> ref !in t.rows)
            && (ref !in p.tombstones && LastMention(es, i, |es|, ref.id) ==>
                  if es[i].deleted then ref !in t.rows else ref in t.rows && t.rows[ref] == es[i].data)
            && (ref !in p.tombstones && Unmentioned(es, |es|, ref.id) ==>
                  if p.snapshot || p.fullResync then ref !in t.rows
                  else (ref in t.rows <==> ref in db.rows) && (ref in t.rows ==> t.rows[ref] == db.rows[ref]))
  {
    hide ApplyEntries, LastMention, Unmentioned, WellFormed;
    var a := ApplyEntries(Script, db.rows, p.scripts, |p.scripts|).value;
    var b := ApplyEntries(Task, a, p.tasks, |p.tasks|).value;
    var c := ApplyEntries(Schedule, b, p.schedules, |p.schedules|).value;
    assert WellFormed(EntriesOf(p, Script)) && WellFormed(EntriesOf(p, Task));
    assert WellFormed(EntriesOf(p, Schedule)) && WellFormed(EntriesOf(p, Application));
    LastEntryDecides(Script, db.rows, p.scripts, |p.scripts|, ref, i);
    LastEntryDecides(Task, a, p.tasks, |p.tasks|, ref, i);
    LastEntryDecides(Schedule, b, p.schedules, |p.schedules|, ref, i);
    LastEntryDecides(Application, c, p.apps, |p.apps|, ref, i);
    Mentions(EntriesOf(p, ref.kind), ref.id, i);
  }

  lemma Mentions(es: seq<Entry>, id: Id, i: nat)
    ensures Unmentioned(es, |es|, id) ==> forall e <- es :: e.id != id
    ensures LastMention(es, i, |es|, id) && !es[i].deleted ==> exists e <- es :: !e.deleted && e.id == id
  {
  }

  // ---------- what the Agent then runs ----------

  /** After an exact answer that was applied, the scheduler runs exactly the enabled ones of the node's
      desired schedules, as the Hub stores them, except for those that travel with their own tombstone. */
  lemma {:induction false} SchedulerRunsDesired(a: LocalDb, db: Db, node: Id, since: int, window: int, r: Response, id: Id)
    requires Keyed(db) && Answers(r, db, node, since, window)
    ensures Plan(a, r).Some?
    ensures var running := Scheduled(Plan(a, r).value.rows);
            && (id in running <==>
                  && Ref(Schedule, id) in Desired(db, node) && db.objects[Ref(Schedule, id)].def.scheduleEnabled
                  && Ref(Schedule, id) !in r.tombstones)
            && (id in running ==> running[id] == db.objects[Ref(Schedule, id)])
  {
    AnswerApplied(a, db, node, since, window, r);
    hide Wanted, Answers, Plan;
    var rows := Bury(Stored(Desired(db, node)), r.tombstones);
    var ref := Ref(Schedule, id);
    assert ref in Desired(db, node) ==> KindOf(db.objects[ref].def) == Schedule;
    assert id in Scheduled(rows) <==> ref in rows && Runs(rows[ref]);
  }

  /** What a sync that fails has taken out of the scheduler by then. On an unreadable entry: the deleted
      schedules before the first unreadable one, if scripts and tasks were readable. At the commit: all
      deleted and all tombstoned schedules. */
  lemma {:induction false} FailedSyncRemoves(rows: map<Ref, Json>, p: Response, id: Id)
    ensures Upserts(rows, p).Some? ==>
              (id in RemovedInTx(rows, p) <==> Ref(Schedule, id) in p.tombstones || exists e <- p.schedules :: e.deleted && e.id == id)
    ensures Upserts(rows, p).None? ==> (id in RemovedInTx(rows, p) <==>
            && (forall e <- p.scripts + p.tasks :: e.deleted || e.data.Encoded?)
            && exists i | 0 <= i < |p.schedules| :: p.schedules[i].deleted && p.schedules[i].id == id && ReadableUpTo(p.schedules, i))
  {
    var a := ApplyEntries(Script, rows, p.scripts, |p.scripts|);
    FailsAt(Script, rows, p.scripts, |p.scripts|);
    Split(p.scripts, p.tasks);
    if a.Some? {
      var b := ApplyEntries(Task, a.value, p.tasks, |p.tasks|);
      FailsAt(Task, a.value, p.tasks, |p.tasks|);
      if b.Some? {
        RemovedUpTo(p.schedules, id);
        if Upserts(rows, p).Some? {
          WellFormedRemoves(rows, p);
          assert id in DeletedIds(p.schedules, |p.schedules|) <==> exists e <- p.schedules :: e.deleted && e.id == id;
          assert id in BuriedSchedules(p.tombstones) <==> Ref(Schedule, id) in p.tombstones;
        }
      }
    }
  }

  lemma RemovedUpTo(es: seq<Entry>, id: Id)
    ensures id in DeletedIds(es, ParsedPrefix(es)) <==>
            exists i | 0 <= i < |es| :: es[i].deleted && es[i].id == id && ReadableUpTo(es, i)
  {
    PrefixReadable(es);
    forall i | 0 <= i < |es| && es[i].deleted && ReadableUpTo(es, i) ensures i < ParsedPrefix(es) {
      assert ReadableUpTo(es, i + 1);
    }
  }

  ghost predicate ReadableUpTo(es: seq<Entry>, n: nat)
    requires n <= |es|
  {
    forall i | 0 <= i < n :: es[i].deleted || es[i].data.Encoded?
  }

  lemma Split(a: seq<Entry>, b: seq<Entry>)
    ensures (forall e <- a + b :: e.deleted || e.data.Encoded?) <==> ReadableUpTo(a, |a|) && ReadableUpTo(b, |b|)
  {
    if forall e <- a + b :: e.deleted || e.data.Encoded? {
      assert forall i | 0 <= i < |a| :: a[i] in a + b;
      assert forall i | 0 <= i < |b| :: b[i] in a + b;
    }
  }

  lemma {:induction false} PrefixReadable(es: seq<Entry>)
    ensures ReadableUpTo(es, ParsedPrefix(es))
    ensures forall n: nat | n <= |es| && ReadableUpTo(es, n) :: n <= ParsedPrefix(es)
  {
    if es != [] && (es[0].deleted || es[0].data.Encoded?) {
      PrefixReadable(es[1..]);
      forall i | 0 <= i < ParsedPrefix(es) ensures es[i].deleted || es[i].data.Encoded? {
        if i > 0 { assert es[i] == es[1..][i - 1]; }
      }
      forall n: nat | n <= |es| && ReadableUpTo(es, n) ensures n <= ParsedPrefix(es) {
        if n > 0 {
          assert forall i | 0 <= i < n - 1 :: es[1..][i] == es[i + 1];
          assert ReadableUpTo(es[1..], n - 1);
        }
      }
    } else if es != [] {
      assert forall n: nat | n <= |es| && ReadableUpTo(es, n) :: n == 0;
    }
  }
}
