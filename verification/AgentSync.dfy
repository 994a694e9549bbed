/** The Agent's local store and applySync: one transaction from BEGIN to COMMIT. */
module AgentSync {
  import opened Models
  import opened HubStore
  import opened DesiredState
  import opened SyncResponse

  /** The four object tables under their keys, and sync_state. */
  datatype LocalDb = LocalDb(rows: map<Ref, Json>, revision: nat)

  // ---------- what a response does to the tables ----------

  /** One entry. Scripts, tasks and schedules are parsed first and stored under the parsed id;
      applications are stored as they come. */
  function ApplyEntry(kind: Kind, rows: map<Ref, Json>, e: Entry): Option<map<Ref, Json>> {
    if e.deleted then Some(rows - {Ref(kind, e.id)})
    else if kind == Application then Some(rows[Ref(kind, e.id) := e.data])
    else if e.data.Malformed? then None
    else Some(rows[Ref(kind, e.data.obj.id) := e.data])
  }

  /** The first `n` entries of a list, in order; None at the first one that does not parse. */
  function ApplyEntries(kind: Kind, rows: map<Ref, Json>, es: seq<Entry>, n: nat): Option<map<Ref, Json>>
    requires n <= |es|
  {
    if n == 0 then Some(rows)
    else
      var before := ApplyEntries(kind, rows, es, n - 1);
      if before.None? then None else ApplyEntry(kind, before.value, es[n - 1])
  }

  function Upserts(rows: map<Ref, Json>, p: Response): Option<map<Ref, Json>> {
    var a := ApplyEntries(Script, rows, p.scripts, |p.scripts|);
    if a.None? then None else
    var b := ApplyEntries(Task, a.value, p.tasks, |p.tasks|);
    if b.None? then None else
    var c := ApplyEntries(Schedule, b.value, p.schedules, |p.schedules|);
    if c.None? then None else ApplyEntries(Application, c.value, p.apps, |p.apps|)
  }

  function EntriesOf(p: Response, kind: Kind): seq<Entry> {
    match kind case Script => p.scripts case Task => p.tasks case Schedule => p.schedules case Application => p.apps
  }

  /** PruneObjects keeps the ids that the response lists as not deleted. */
  predicate KeptBy(p: Response, ref: Ref) {
    exists e <- EntriesOf(p, ref.kind) :: !e.deleted && e.id == ref.id
  }

  function Prune(rows: map<Ref, Json>, p: Response): map<Ref, Json> {
    if p.snapshot || p.fullResync then map ref <- rows | KeptBy(p, ref) :: rows[ref] else rows
  }

  function Bury(rows: map<Ref, Json>, tombstones: seq<Ref>): map<Ref, Json> {
    map ref <- rows | ref !in tombstones :: rows[ref]
  }

  /** The tables a response leads to, or None when an entry does not parse. */
  function Plan(db: LocalDb, p: Response): Option<LocalDb> {
    var rows := Upserts(db.rows, p);
    if rows.None? then None else Some(LocalDb(Bury(Prune(rows.value, p), p.tombstones), p.globalRev))
  }

  /** What the local scheduler should run: the stored schedules that parse and are enabled. */
  function Scheduled(rows: map<Ref, Json>): map<Id, Object> {
    map ref <- rows | ref.kind == Schedule && Runs(rows[ref]) :: ref.id := rows[ref].obj
  }

  predicate Runs(j: Json) {
    j.Encoded? && j.obj.def.ScheduleDef? && j.obj.def.scheduleEnabled
  }

  /** Schedule ids that the first `n` schedule entries mark as deleted. */
  function DeletedIds(es: seq<Entry>, n: nat): set<Id>
    requires n <= |es|
  {
    set i | 0 <= i < n && es[i].deleted :: es[i].id
  }

  function BuriedSchedules(tombstones: seq<Ref>): set<Id> {
    set ref <- tombstones | ref.kind == Schedule :: ref.id
  }

  /** How many schedule entries are applied before one fails to parse. */
  function ParsedPrefix(es: seq<Entry>): nat
    ensures ParsedPrefix(es) <= |es|
  {
    if es == [] then 0 else if !es[0].deleted && es[0].data.Malformed? then 0 else 1 + ParsedPrefix(es[1..])
  }

  /** The scheduler entries that applySync removes while its transaction is still open. */
  function RemovedInTx(rows: map<Ref, Json>, p: Response): set<Id> {
    if ApplyEntries(Script, rows, p.scripts, |p.scripts|).None? then {}
    else if ApplyEntries(Task, ApplyEntries(Script, rows, p.scripts, |p.scripts|).value, p.tasks, |p.tasks|).None? then {}
    else if Upserts(rows, p).None? then DeletedIds(p.schedules, ParsedPrefix(p.schedules))
    else DeletedIds(p.schedules, |p.schedules|) + BuriedSchedules(p.tombstones)
  }

  lemma WellFormedRemoves(rows: map<Ref, Json>, p: Response)
    requires Upserts(rows, p).Some?
    ensures RemovedInTx(rows, p) == DeletedIds(p.schedules, |p.schedules|) + BuriedSchedules(p.tombstones)
  {
  }

  lemma {:induction false} FailsAt(kind: Kind, rows: map<Ref, Json>, es: seq<Entry>, n: nat)
    requires n <= |es| && kind != Application
    ensures ApplyEntries(kind, rows, es, n).Some? <==> forall i | 0 <= i < n :: es[i].deleted || es[i].data.Encoded?
  {
    if n > 0 {
      FailsAt(kind, rows, es, n - 1);
    }
  }

  lemma {:induction false} AppsNeverFail(rows: map<Ref, Json>, es: seq<Entry>, n: nat)
    requires n <= |es|
    ensures ApplyEntries(Application, rows, es, n).Some?
  {
    if n > 0 {
      AppsNeverFail(rows, es, n - 1);
    }
  }

  lemma {:induction false} PrefixEnds(es: seq<Entry>, n: nat)
    requires n <= |es|
    requires forall i | 0 <= i < n :: es[i].deleted || es[i].data.Encoded?
    requires n < |es| ==> !es[n].deleted && es[n].data.Malformed?
    ensures ParsedPrefix(es) == n
  {
    if n > 0 {
      assert forall i | 0 <= i < n - 1 :: es[1..][i] == es[i + 1];
      PrefixEnds(es[1..], n - 1);
    }
  }

  // ---------- the imperative store ----------

  /** LocalStore and the sync half of Agent. `mu` counts holders of the store mutex: Unlock of a
      free mutex takes it to -1, which stops the Go program. */
  class Agent {
    var db: LocalDb
    var tx: Option<LocalDb>
    var mu: int
    var scheduler: map<Id, Object>

    constructor ()
      ensures db == LocalDb(map[], 0) && tx == None && mu == 0 && scheduler == map[]
    {
      db, tx, mu, scheduler := LocalDb(map[], 0), None, 0, map[];
    }

    method BeginSync(beginOk: bool) returns (ok: bool)
      requires mu == 0 && tx == None
      modifies this`mu, this`tx
      ensures ok == beginOk
      ensures if ok then mu == 1 && tx == Some(db) else mu == 0 && tx == None
    {
      mu := mu + 1;
      if !beginOk {
        mu := mu - 1;
        return false;
      }
      tx := Some(db);
      return true;
    }

    method CommitSync(commitOk: bool) returns (ok: bool)
      modifies this`mu, this`tx, this`db
      ensures mu == old(mu) - 1 && tx == None
      ensures ok == (old(tx).None? || commitOk)
      ensures db == if old(tx).Some? && commitOk then old(tx).value else old(db)
    {
      if tx == None {
        mu := mu - 1;
        return true;
      }
      if commitOk { db := tx.value; }
      tx := None;
      mu := mu - 1;
      return commitOk;
    }

    method RollbackSync()
      modifies this`mu, this`tx
      ensures mu == old(mu) - 1 && tx == None
    {
      if tx == None {
        mu := mu - 1;
        return;
      }
      tx := None;
      mu := mu - 1;
    }

    /** One list of entries inside the transaction; a deleted schedule also leaves the scheduler. */
    method ApplyList(kind: Kind, es: seq<Entry>) returns (ok: bool)
      requires tx.Some?
      modifies this`tx, this`scheduler
      ensures tx.Some?
      ensures ok <==> ApplyEntries(kind, old(tx).value.rows, es, |es|).Some?
      ensures ok ==> tx.value == old(tx).value.(rows := ApplyEntries(kind, old(tx).value.rows, es, |es|).value)
      ensures kind != Schedule ==> scheduler == old(scheduler)
      ensures kind == Schedule ==> scheduler == old(scheduler) - DeletedIds(es, if ok then |es| else ParsedPrefix(es))
    {
      ghost var rows := tx.value.rows;
      var i := 0;
      while i < |es|
        invariant 0 <= i <= |es| && tx.Some?
        invariant ApplyEntries(kind, rows, es, i) == Some(tx.value.rows) && tx.value.revision == old(tx).value.revision
        invariant scheduler == if kind == Schedule then old(scheduler) - DeletedIds(es, i) else old(scheduler)
      {
        var e := es[i];
        if e.deleted {
          tx := Some(tx.value.(rows := tx.value.rows - {Ref(kind, e.id)}));
          if kind == Schedule {
            scheduler := scheduler - {e.id};
          }
        } else if kind == Application {
          tx := Some(tx.value.(rows := tx.value.rows[Ref(kind, e.id) := e.data]));
        } else {
          if e.data.Malformed? {
            FailsAt(kind, rows, es, i);
            FailsAt(kind, rows, es, |es|);
            PrefixEnds(es, i);
            return false;
          }
          tx := Some(tx.value.(rows := tx.value.rows[Ref(kind, e.data.obj.id) := e.data]));
        }
        assert DeletedIds(es, i + 1) == DeletedIds(es, i) + if e.deleted then {e.id} else {};
        i := i + 1;
      }
      return true;
    }

    method BuryAll(tombstones: seq<Ref>)
      requires tx.Some?
      modifies this`tx, this`scheduler
      ensures tx == Some(old(tx).value.(rows := Bury(old(tx).value.rows, tombstones)))
      ensures scheduler == old(scheduler) - BuriedSchedules(tombstones)
    {
      assert Bury(tx.value.rows, []) == tx.value.rows;
      for i := 0 to |tombstones|
        invariant tx == Some(old(tx).value.(rows := Bury(old(tx).value.rows, tombstones[..i])))
        invariant scheduler == old(scheduler) - BuriedSchedules(tombstones[..i])
      {
        var ref := tombstones[i];
        assert tombstones[..i + 1] == tombstones[..i] + [ref];
        tx := Some(tx.value.(rows := tx.value.rows - {ref}));
        if ref.kind == Schedule {
          scheduler := scheduler - {ref.id};
        }
        assert tx.value.rows == Bury(old(tx).value.rows, tombstones[..i + 1]);
        assert BuriedSchedules(tombstones[..i + 1]) == BuriedSchedules(tombstones[..i]) + if ref.kind == Schedule then {ref.id} else {};
      }
      assert tombstones[..|tombstones|] == tombstones;
    }

    method PruneObjects(p: Response)
      requires tx.Some?
      modifies this`tx
      ensures tx == Some(old(tx).value.(rows := map ref <- old(tx).value.rows | KeptBy(p, ref) :: old(tx).value.rows[ref]))
    {
      ghost var all := tx.value.rows;
      var kinds := [Script, Task, Schedule, Application];
      for i := 0 to |kinds|
        invariant tx.Some? && tx.value.revision == old(tx).value.revision
        invariant tx.value.rows == map ref <- all | ref.kind !in kinds[..i] || KeptBy(p, ref) :: all[ref]
      {
        var es := EntriesOf(p, kinds[i]);
        var ids := set e <- es | !e.deleted :: e.id;
        assert forall ref: Ref | ref.kind == kinds[i] :: ref.id in ids <==> KeptBy(p, ref);
        assert kinds[..i + 1] == kinds[..i] + [kinds[i]];
        tx := Some(tx.value.(rows := map ref <- tx.value.rows | ref.kind != kinds[i] || ref.id in ids :: tx.value.rows[ref]));
      }
      assert kinds[..|kinds|] == kinds;
      forall k: Kind ensures k in kinds {
        match k
        case Script => assert k == kinds[0];
        case Task => assert k == kinds[1];
        case Schedule => assert k == kinds[2];
        case Application => assert k == kinds[3];
      }
      assert tx.value.rows == map ref <- all | KeptBy(p, ref) :: all[ref];
    }

    /** reloadSchedulerSchedules and UpdateSchedules. */
    method ReloadScheduler()
      modifies this`scheduler
      ensures scheduler == Scheduled(db.rows)
    {
      scheduler := map[];
      var todo := set ref <- db.rows | ref.kind == Schedule;
      while todo != {}
        invariant todo <= db.rows.Keys && forall ref <- todo :: ref.kind == Schedule
        invariant forall id :: id in scheduler <==>
                    Ref(Schedule, id) in db.rows && Ref(Schedule, id) !in todo && Runs(db.rows[Ref(Schedule, id)])
        invariant forall id <- scheduler :: scheduler[id] == db.rows[Ref(Schedule, id)].obj
        decreases todo
      {
        var ref :| ref in todo;
        todo := todo - {ref};
        if Runs(db.rows[ref]) {
          scheduler := scheduler[ref.id := db.rows[ref].obj];
        }
      }
      assert forall id :: Ref(Schedule, id).kind == Schedule;
      assert forall id :: id in Scheduled(db.rows) <==> id in scheduler by {
        forall id ensures id in Scheduled(db.rows) <==> id in scheduler {
          assert id in scheduler ==> Ref(Schedule, id) in db.rows && Runs(db.rows[Ref(Schedule, id)]);
        }
      }
    }

    /** The four lists of a response, up to the first entry that does not parse. */
    method ApplyUpserts(p: Response) returns (ok: bool)
      requires tx.Some?
      modifies this`tx, this`scheduler
      ensures tx.Some? && (ok <==> Upserts(old(tx).value.rows, p).Some?)
      ensures ok ==> tx.value == old(tx).value.(rows := Upserts(old(tx).value.rows, p).value)
      ensures scheduler == old(scheduler) -
                           if ok then DeletedIds(p.schedules, |p.schedules|) else RemovedInTx(old(tx).value.rows, p)
    {
      hide ApplyEntry, ApplyEntries, DeletedIds, ParsedPrefix;
      ok := ApplyList(Script, p.scripts);
      if !ok { return; }
      ok := ApplyList(Task, p.tasks);
      if !ok { return; }
      ok := ApplyList(Schedule, p.schedules);
      if !ok { return; }
      AppsNeverFail(tx.value.rows, p.apps, |p.apps|);
      ok := ApplyList(Application, p.apps);
    }

    /** applySync with its deferred rollback. Tables and revision change together or not at all,
        and the mutex is released once on every path except a failed commit, which releases it
        twice; scheduler entries removed before a failure stay removed. */
    method ApplySync(p: Response, beginOk: bool, commitOk: bool) returns (ok: bool)
      requires mu == 0 && tx == None
      modifies this
      ensures ok <==> beginOk && Plan(old(db), p).Some? && commitOk
      ensures tx == None
      ensures db == if ok then Plan(old(db), p).value else old(db)
      ensures mu == if beginOk && Plan(old(db), p).Some? && !commitOk then -1 else 0
      ensures ok ==> scheduler == Scheduled(db.rows)
      ensures !ok ==> scheduler == old(scheduler) - if beginOk then RemovedInTx(old(db).rows, p) else {}
    {
      hide KeptBy, Bury, Scheduled, DeletedIds, BuriedSchedules, Upserts;
      ok := BeginSync(beginOk);
      if !ok { return; }
      ok := ApplyUpserts(p);
      if !ok { RollbackSync(); return; }
      ghost var rows := old(db).rows;
      assert RemovedInTx(rows, p) == DeletedIds(p.schedules, |p.schedules|) + BuriedSchedules(p.tombstones) by {
        WellFormedRemoves(rows, p);
      }
      if p.snapshot || p.fullResync {
        PruneObjects(p);
      }
      BuryAll(p.tombstones);
      tx := Some(tx.value.(revision := p.globalRev));
      ok := CommitSync(commitOk);
      if !ok { RollbackSync(); return; }
      ReloadScheduler();
    }
  }

  // ---------- what applying a Hub response means ----------

  /** The rows after a list of well-formed entries: the objects of `xs`, and nothing else touched. */
  ghost predicate Upserted(before: map<Ref, Json>, after: map<Ref, Json>, xs: seq<Object>) {
    && (forall o <- xs :: RefOf(o) in after && after[RefOf(o)] == Encoded(o))
    && (forall ref | ref !in Refs(xs) :: (ref in after <==> ref in before) && (ref in before ==> after[ref] == before[ref]))
  }

  lemma {:induction false} UpsertList(kind: Kind, rows: map<Ref, Json>, xs: seq<Object>, n: nat)
    requires n <= |xs| && DistinctRefs(xs) && forall o <- xs :: KindOf(o.def) == kind
    ensures ApplyEntries(kind, rows, Entries(xs), n).Some?
    ensures Upserted(rows, ApplyEntries(kind, rows, Entries(xs), n).value, xs[..n])
  {
    hide ApplyEntry;
    if n > 0 {
      UpsertList(kind, rows, xs, n - 1);
      var before := ApplyEntries(kind, rows, Entries(xs), n - 1).value;
      assert xs[..n] == xs[..n - 1] + [xs[n - 1]] && Entries(xs)[n - 1] == EntryOf(xs[n - 1]);
      EntryStored(kind, before, xs[n - 1]);
      UpsertOne(rows, before, xs[..n - 1], xs[n - 1]);
    }
  }

  lemma EntryStored(kind: Kind, rows: map<Ref, Json>, o: Object)
    requires KindOf(o.def) == kind
    ensures ApplyEntry(kind, rows, EntryOf(o)) == Some(rows[RefOf(o) := Encoded(o)])
  {
  }

  lemma UpsertOne(rows: map<Ref, Json>, before: map<Ref, Json>, xs: seq<Object>, o: Object)
    requires Upserted(rows, before, xs) && forall p <- xs :: RefOf(p) != RefOf(o)
    ensures Upserted(rows, before[RefOf(o) := Encoded(o)], xs + [o])
  {
  }

  lemma UpsertAll(kind: Kind, rows: map<Ref, Json>, xs: seq<Object>)
    requires DistinctRefs(xs) && forall o <- xs :: KindOf(o.def) == kind
    ensures ApplyEntries(kind, rows, Entries(xs), |xs|).Some?
    ensures Upserted(rows, ApplyEntries(kind, rows, Entries(xs), |xs|).value, xs)
  {
    UpsertList(kind, rows, xs, |xs|);
    assert xs[..|xs|] == xs;
  }

  /** The rows that hold exactly the objects of `m`. */
  function Stored(m: map<Ref, Object>): map<Ref, Json> {
    map ref <- m :: Encoded(m[ref])
  }

  ghost predicate KeyedRows(m: map<Ref, Object>) {
    forall ref <- m :: RefOf(m[ref]) == ref
  }

  function ObjectsOf(s: Snapshot, kind: Kind): seq<Object> {
    match kind case Script => s.scripts case Task => s.tasks case Schedule => s.schedules case Application => s.apps
  }

  lemma KeptIsListed(r: Response, s: Snapshot, m: map<Ref, Object>, ref: Ref)
    requires Carries(r, s) && Holds(s, m) && KeyedRows(m)
    ensures KeptBy(r, ref) <==> ref in m
  {
    var xs := ObjectsOf(s, ref.kind);
    assert Lists(xs, m, ref.kind) && EntriesOf(r, ref.kind) == Entries(xs);
    if KeptBy(r, ref) {
      var e :| e in Entries(xs) && !e.deleted && e.id == ref.id;
      var i :| 0 <= i < |xs| && Entries(xs)[i] == e;
      assert xs[i] in xs && RefOf(xs[i]) == ref;
    }
    if ref in m {
      var i :| 0 <= i < |xs| && xs[i] == m[ref];
      assert Entries(xs)[i] in Entries(xs);
    }
  }

  lemma UpsertsHold(rows: map<Ref, Json>, r: Response, s: Snapshot, m: map<Ref, Object>)
    requires Carries(r, s) && Holds(s, m) && KeyedRows(m)
    ensures Upserts(rows, r).Some?
    ensures forall ref <- m :: ref in Upserts(rows, r).value && Upserts(rows, r).value[ref] == Encoded(m[ref])
  {
    UpsertAll(Script, rows, s.scripts);
    var r1 := ApplyEntries(Script, rows, r.scripts, |r.scripts|).value;
    UpsertAll(Task, r1, s.tasks);
    var r2 := ApplyEntries(Task, r1, r.tasks, |r.tasks|).value;
    UpsertAll(Schedule, r2, s.schedules);
    var r3 := ApplyEntries(Schedule, r2, r.schedules, |r.schedules|).value;
    UpsertAll(Application, r3, s.apps);
    var r4 := ApplyEntries(Application, r3, r.apps, |r.apps|).value;
    forall ref <- m ensures ref in r4 && r4[ref] == Encoded(m[ref]) {
      SurvivesUpserts(rows, r1, r2, r3, r4, s, m, ref);
    }
  }

  /** A snapshot replaces whatever the Agent stored, minus the tombstones that travel with it. */
  lemma {:induction false} SnapshotReplaces(a: LocalDb, r: Response, s: Snapshot, m: map<Ref, Object>)
    requires Carries(r, s) && Holds(s, m) && KeyedRows(m)
    ensures Plan(a, r) == Some(LocalDb(Bury(Stored(m), r.tombstones), r.globalRev))
  {
    UpsertsHold(a.rows, r, s, m);
    forall ref ensures KeptBy(r, ref) <==> ref in m {
      KeptIsListed(r, s, m, ref);
    }
    assert Prune(Upserts(a.rows, r).value, r) == Stored(m);
  }

  lemma SurvivesUpserts(r0: map<Ref, Json>, r1: map<Ref, Json>, r2: map<Ref, Json>, r3: map<Ref, Json>, r4: map<Ref, Json>,
                        s: Snapshot, m: map<Ref, Object>, ref: Ref)
    requires Holds(s, m) && ref in m && RefOf(m[ref]) == ref
    requires Upserted(r0, r1, s.scripts) && Upserted(r1, r2, s.tasks) && Upserted(r2, r3, s.schedules) && Upserted(r3, r4, s.apps)
    ensures ref in r4 && r4[ref] == Encoded(m[ref])
  {
  }
}
