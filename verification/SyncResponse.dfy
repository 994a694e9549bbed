/** ComputeDesiredState and BuildSyncResponse over torn reads. */
module SyncResponse {
  import opened Models
  import opened HubStore
  import opened DesiredState

  /** A definition as it travels: JSON that parses to an object, or JSON that does not. */
  datatype Json = Malformed | Encoded(obj: Object)

  datatype Entry = Entry(id: Id, deleted: bool, data: Json)

  datatype Response = Response(
    fullResync: bool,
    snapshot: bool,
    globalRev: nat,
    scripts: seq<Entry>,
    tasks: seq<Entry>,
    schedules: seq<Entry>,
    apps: seq<Entry>,
    tombstones: seq<Ref>)

  function EntryOf(o: Object): Entry {
    Entry(o.id, false, Encoded(o))
  }

  function Entries(xs: seq<Object>): seq<Entry> {
    seq(|xs|, i requires 0 <= i < |xs| => EntryOf(xs[i]))
  }

  /** `r` carries exactly the snapshot `s`. */
  ghost predicate Carries(r: Response, s: Snapshot) {
    && r.snapshot
    && r.scripts == Entries(s.scripts) && r.tasks == Entries(s.tasks)
    && r.schedules == Entries(s.schedules) && r.apps == Entries(s.apps)
  }

  /** The tombstones recorded after `since`; a first sync asks for none. */
  function TombstonesSince(db: Db, since: int): set<Ref> {
    if since <= 0 then {} else set ref <- db.tombstones | db.tombstones[ref] > since
  }

  method ComputeDesiredState(at: nat -> Db, t0: nat, node: Id) returns (r: Option<Snapshot>, t: nat)
    requires forall k :: Keyed(at(k))
    ensures t0 < t
    ensures r.Some? <==> node in at(t0).labels
    ensures r.Some? ==> Closed(r.value) && forall o <- AllOf(r.value) :: Sampled(at, t0, t, o)
    ensures r.Some? && Still(at, t0, t) ==> Holds(r.value, Desired(at(t0), node))
  {
    if node !in at(t0).labels {
      return None, t0 + 1;
    }
    var labels := at(t0).labels[node];
    var mine, t1 := MyGroupIds(at, t0 + 1, node, labels);
    var tasks, needed, t2 := MatchingTasks(at, t1, node, labels, mine);
    var schedules := SchedulesOf(at(t2), tasks);
    var apps, t3 := AssignedApps(at, t2 + 1, node);
    var scripts := ListNeeded(needed);
    var s := Snapshot(scripts, tasks, schedules, apps);
    r, t := Some(s), t3;
    PiecesClosed(at(t2), s, needed);
    AllSampled(at, t0, t1, t2, t3, s);
    if Still(at, t0, t) {
      StillAssembles(at, t0, t1, t2, t3, node, mine, s, needed);
    }
  }

  /** The pieces of ComputeDesiredState, when nothing changed while they were read. */
  lemma StillAssembles(at: nat -> Db, t0: nat, t1: nat, t2: nat, t3: nat, node: Id, mine: set<Id>, s: Snapshot, needed: map<Id, Object>)
    requires t0 + 1 < t1 < t2 && t2 + 1 < t3 && Still(at, t0, t3)
    requires Keyed(at(t0)) && node in at(t0).labels
    requires Still(at, t0 + 1, t1) && at(t0 + 1) == at(t0) ==> mine == MyGroups(at(t0), node)
    requires Lists(s.tasks, Selected(at(t1).objects, at(t0).labels[node], mine, node), Task)
    requires Still(at, t1, t2) ==> ScriptsFor(at(t1), s.tasks, needed)
    requires forall o <- s.scripts :: o.id in needed && needed[o.id] == o
    requires forall id <- needed :: needed[id] in s.scripts
    requires DistinctRefs(s.scripts)
    requires Lists(s.schedules, SchedulesFor(at(t2), Refs(s.tasks)), Schedule)
    requires Still(at, t2 + 1, t3) ==> Lists(s.apps, AppsFor(at(t2 + 1), node), Application)
    ensures Holds(s, Desired(at(t0), node))
  {
    StillInner(at, t0, t3, t0 + 1, t1);
    StillInner(at, t0, t3, t1, t2);
    StillInner(at, t0, t3, t2, t2 + 1);
    StillInner(at, t0, t3, t2 + 1, t3);
    AssembleDesired(at(t0), node, s, needed);
  }

  /** The script map, as the list it is sent as. */
  method ListNeeded(needed: map<Id, Object>) returns (out: seq<Object>)
    requires forall id <- needed :: NeededScript(needed[id], id)
    ensures forall o <- out :: o.id in needed && needed[o.id] == o
    ensures forall id <- needed :: needed[id] in out
    ensures DistinctRefs(out)
  {
    out := [];
    var todo := needed.Keys;
    while todo != {}
      invariant todo <= needed.Keys
      invariant forall o <- out :: o.id in needed && needed[o.id] == o && o.id !in todo
      invariant forall id <- needed :: id in todo || needed[id] in out
      invariant DistinctRefs(out)
      decreases todo
    {
      var id :| id in todo;
      todo := todo - {id};
      assert forall o <- out :: o.id != id;
      out := out + [needed[id]];
    }
  }

  lemma StillInner(at: nat -> Db, t0: nat, t: nat, a: nat, b: nat)
    requires Still(at, t0, t) && t0 <= a < b <= t
    ensures Still(at, a, b) && at(a) == at(t0)
  {
  }

  lemma PiecesClosed(db: Db, s: Snapshot, needed: map<Id, Object>)
    requires forall o <- s.tasks :: o.def.TaskDef? && o.def.taskEnabled
    requires forall o <- s.scripts :: o.id in needed && needed[o.id] == o
    requires forall id <- needed :: NeededScript(needed[id], id) && NeededBy(s.tasks, id)
    requires Lists(s.schedules, SchedulesFor(db, Refs(s.tasks)), Schedule)
    requires forall o <- s.apps :: o.def.ApplicationDef?
    requires DistinctRefs(s.scripts) && DistinctRefs(s.tasks) && DistinctRefs(s.apps)
    ensures Closed(s)
  {
  }

  lemma AllSampled(at: nat -> Db, t0: nat, t1: nat, t2: nat, t3: nat, s: Snapshot)
    requires t0 <= t1 <= t2 && t2 + 1 < t3
    requires forall o <- s.scripts :: Sampled(at, t1, t2, o)
    requires forall o <- s.tasks :: Sampled(at, t1, t2, o)
    requires forall o <- s.schedules :: RefOf(o) in at(t2).objects && at(t2).objects[RefOf(o)] == o
    requires forall o <- s.apps :: RefOf(o) in at(t2 + 1).objects && at(t2 + 1).objects[RefOf(o)] == o
    ensures forall o <- AllOf(s) :: Sampled(at, t0, t3, o)
  {
  }

  lemma DesiredTasks(db: Db, node: Id, tasks: seq<Object>)
    requires Keyed(db) && node in db.labels
    requires Lists(tasks, Selected(db.objects, db.labels[node], MyGroups(db, node), node), Task)
    ensures Lists(tasks, Desired(db, node), Task)
    ensures forall ref :: ref in Refs(tasks) <==> ref in db.objects && WantsTask(db, node, db.objects[ref])
  {
    var m := Selected(db.objects, db.labels[node], MyGroups(db, node), node);
    forall ref ensures ref in Refs(tasks) <==> ref in m {
      if ref in m { assert m[ref] in tasks; }
    }
    forall ref <- db.objects | ref.kind == Task ensures ref in m <==> Wanted(db, node, ref) {
      assert KindOf(db.objects[ref].def) == Task;
    }
  }

  lemma DesiredScripts(db: Db, node: Id, tasks: seq<Object>, needed: map<Id, Object>, scripts: seq<Object>)
    requires Keyed(db) && node in db.labels
    requires forall o <- tasks :: RefOf(o) in db.objects && db.objects[RefOf(o)] == o
    requires forall ref :: ref in Refs(tasks) <==> ref in db.objects && WantsTask(db, node, db.objects[ref])
    requires ScriptsFor(db, tasks, needed)
    requires forall o <- scripts :: o.id in needed && needed[o.id] == o
    requires forall id <- needed :: needed[id] in scripts
    requires DistinctRefs(scripts)
    ensures Lists(scripts, Desired(db, node), Script)
  {
    forall ref <- db.objects | ref.kind == Script
      ensures Wanted(db, node, ref) <==> ref.id in needed
    {
      assert ref == Ref(Script, ref.id) && KindOf(db.objects[ref].def) == Script;
      if NeededBy(tasks, ref.id) {
        var t :| t in tasks && t.def.TaskDef? && t.def.scriptId == ref.id;
        assert RefOf(t) in Refs(tasks);
      }
      if Wanted(db, node, ref) {
        var t :| t in db.objects && WantsTask(db, node, db.objects[t]) && db.objects[t].def.scriptId == ref.id;
        assert t in Refs(tasks);
        assert db.objects[t] in tasks;
      }
    }
    forall o <- scripts ensures KindOf(o.def) == Script && RefOf(o) in Desired(db, node) && Desired(db, node)[RefOf(o)] == o {
      assert NeededScript(o, o.id);
    }
  }

  lemma DesiredOthers(db: Db, node: Id, tasks: set<Ref>)
    requires Keyed(db) && node in db.labels
    requires forall ref :: ref in tasks <==> ref in db.objects && WantsTask(db, node, db.objects[ref])
    ensures forall ref :: ref in SchedulesFor(db, tasks) <==> ref.kind == Schedule && ref in Desired(db, node)
    ensures forall ref :: ref in AppsFor(db, node) <==> ref.kind == Application && ref in Desired(db, node)
  {
  }

  /** Pieces read from one database are its desired state. */
  lemma {:induction false} AssembleDesired(db: Db, node: Id, s: Snapshot, needed: map<Id, Object>)
    requires Keyed(db) && node in db.labels
    requires Lists(s.tasks, Selected(db.objects, db.labels[node], MyGroups(db, node), node), Task)
    requires ScriptsFor(db, s.tasks, needed)
    requires forall o <- s.scripts :: o.id in needed && needed[o.id] == o
    requires forall id <- needed :: needed[id] in s.scripts
    requires DistinctRefs(s.scripts)
    requires Lists(s.schedules, SchedulesFor(db, Refs(s.tasks)), Schedule)
    requires Lists(s.apps, AppsFor(db, node), Application)
    ensures Holds(s, Desired(db, node))
  {
    DesiredTasks(db, node, s.tasks);
    DesiredScripts(db, node, s.tasks, needed, s.scripts);
    DesiredOthers(db, node, Refs(s.tasks));
    Relist(s.schedules, SchedulesFor(db, Refs(s.tasks)), Desired(db, node), Schedule);
    Relist(s.apps, AppsFor(db, node), Desired(db, node), Application);
  }

  lemma Relist(xs: seq<Object>, m: map<Ref, Object>, n: map<Ref, Object>, kind: Kind)
    requires Lists(xs, m, kind)
    requires forall ref :: ref in m <==> ref.kind == kind && ref in n
    requires forall ref <- m :: m[ref] == n[ref]
    ensures Lists(xs, n, kind)
  {
  }

  /** The loop of marshalScripts, marshalTasks, marshalSchedules and marshalApps. */
  method Marshal(xs: seq<Object>) returns (out: seq<Entry>)
    ensures out == Entries(xs)
  {
    out := [];
    for i := 0 to |xs|
      invariant out == Entries(xs[..i])
    {
      out := out + [EntryOf(xs[i])];
    }
    assert xs[..|xs|] == xs;
  }

  method CollectTombstones(db: Db, since: int) returns (out: seq<Ref>)
    ensures forall ref :: ref in out <==> ref in TombstonesSince(db, since)
  {
    out := [];
    if since <= 0 { return; }
    var todo := db.tombstones.Keys;
    while todo != {}
      invariant todo <= db.tombstones.Keys
      invariant forall ref :: ref in out <==> ref in db.tombstones && ref !in todo && db.tombstones[ref] > since
      decreases todo
    {
      var ref :| ref in todo;
      todo := todo - {ref};
      if db.tombstones[ref] > since {
        out := out + [ref];
      }
    }
  }

  /** The change-log window is exceeded, so the response is a full resync without tombstones. */
  predicate Expired(current: nat, since: int, window: int) {
    since > 0 && current - since > window
  }

  /** `r` is the answer for `node` computed from the single database `db`. */
  ghost predicate Answers(r: Response, db: Db, node: Id, since: int, window: int) {
    && node in db.labels
    && r.globalRev == db.revision
    && r.fullResync == Expired(db.revision, since, window)
    && (exists s :: Carries(r, s) && Holds(s, Desired(db, node)))
    && (forall ref :: ref in r.tombstones <==> !r.fullResync && ref in TombstonesSince(db, since))
  }

  /** What every response satisfies, however the reads were interleaved with transactions: its
      revision was read before anything else, its snapshot is closed and made of rows that were
      read, and if nothing changed between the first read and the last it is the exact answer. */
  ghost predicate Produced(r: Response, at: nat -> Db, last: nat, node: Id, since: int, window: int) {
    && r.globalRev == at(0).revision
    && (exists s :: Carries(r, s) && Closed(s) && forall o <- AllOf(s) :: Sampled(at, 1, last, o))
    && (forall ref <- r.tombstones :: exists k | 0 <= k < last :: ref in at(k).tombstones)
    && (Still(at, 0, last) ==> Answers(r, at(0), node, since, window))
  }

  method BuildSyncResponse(at: nat -> Db, node: Id, since: int, window: int) returns (r: Option<Response>, t: nat)
    requires forall k :: Keyed(at(k))
    requires window > 0
    ensures t > 0
    ensures r.Some? <==> node in at(1).labels
    ensures r.Some? ==> Produced(r.value, at, t, node, since, window)
  {
    var current := at(0).revision;
    var s, t1 := ComputeDesiredState(at, 1, node);
    if s.None? {
      return None, t1;
    }
    var scripts := Marshal(s.value.scripts);
    var tasks := Marshal(s.value.tasks);
    var schedules := Marshal(s.value.schedules);
    var apps := Marshal(s.value.apps);
    assert Still(at, 0, t1) ==> at(1) == at(0) && Still(at, 1, t1);
    if since > 0 && current - since > window {
      var resp := Response(true, true, current, scripts, tasks, schedules, apps, []);
      assert Carries(resp, s.value);
      return Some(resp), t1;
    }
    var tombstones := CollectTombstones(at(t1), since);
    var resp := Response(false, true, current, scripts, tasks, schedules, apps, tombstones);
    assert Carries(resp, s.value);
    assert Still(at, 0, t1 + 1) ==> at(t1) == at(0) && Still(at, 0, t1);
    forall o <- AllOf(s.value) ensures Sampled(at, 1, t1 + 1, o) {
      assert Sampled(at, 1, t1, o);
    }
    return Some(resp), t1 + 1;
  }
}
