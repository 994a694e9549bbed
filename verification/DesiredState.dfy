/** Which objects a node should hold, and the sync response that carries them.
    The Hub reads its tables one query at a time, so other transactions may commit between any
    two reads: `at(k)` is the database the k-th read sees. */
module DesiredState {
  import opened Models
  import opened HubStore

  // ---------- the desired state of a node, on one database ----------

  /** The typed tables: every row sits under its own key. */
  ghost predicate Keyed(db: Db) {
    forall ref <- db.objects :: RefOf(db.objects[ref]) == ref
  }

  predicate InGroup(labels: Labels, g: Group, isMember: bool) {
    (g.isLabel && LabelHit(labels, g.labelKey, g.labelValue)) || isMember
  }

  function MyGroups(db: Db, node: Id): set<Id>
    requires node in db.labels
  {
    set g <- db.groups | InGroup(db.labels[node], db.groups[g], (g, node) in db.members)
  }

  predicate TargetHits(labels: Labels, mine: set<Id>, node: Id, t: Target) {
    match t.kind
    case NodeTarget => node in t.nodeIds
    case GroupTarget => exists g <- t.groupIds :: g in mine
    case LabelTarget => LabelHit(labels, t.labelKey, t.labelValue)
    case OtherTarget => false
  }

  predicate Matches(db: Db, node: Id, t: Target)
    requires node in db.labels
  {
    TargetHits(db.labels[node], MyGroups(db, node), node, t)
  }

  predicate WantsTask(db: Db, node: Id, o: Object)
    requires node in db.labels
  {
    o.def.TaskDef? && o.def.taskEnabled && Matches(db, node, o.def.target)
  }

  /** The node should hold the object stored under `ref`. */
  predicate Wanted(db: Db, node: Id, ref: Ref)
    requires node in db.labels && ref in db.objects
  {
    var o := db.objects[ref];
    match o.def
    case TaskDef(_, _, _, _) => WantsTask(db, node, o)
    case ScriptDef(enabled, _) =>
      enabled && ref.id != "" && exists t <- db.objects :: WantsTask(db, node, db.objects[t]) && db.objects[t].def.scriptId == ref.id
    case ScheduleDef(_, task, _) => Ref(Task, task) in db.objects && WantsTask(db, node, db.objects[Ref(Task, task)])
    case ApplicationDef(_) => (ref.id, node) in db.assignments
  }

  function Desired(db: Db, node: Id): map<Ref, Object>
    requires node in db.labels
  {
    map ref <- db.objects | Wanted(db, node, ref) :: db.objects[ref]
  }

  /** `xs` lists the rows of `m` that have the given kind, each once. */
  ghost predicate Lists(xs: seq<Object>, m: map<Ref, Object>, kind: Kind) {
    && (forall o <- xs :: KindOf(o.def) == kind && RefOf(o) in m && m[RefOf(o)] == o)
    && (forall ref <- m | ref.kind == kind :: m[ref] in xs)
    && DistinctRefs(xs)
  }

  ghost predicate DistinctRefs(xs: seq<Object>) {
    forall i, j | 0 <= i < j < |xs| :: RefOf(xs[i]) != RefOf(xs[j])
  }

  // ---------- reading it, torn ----------

  /** The reads t0..t1 all saw the same database. */
  ghost predicate Still(at: nat -> Db, t0: nat, t1: nat) {
    forall k | t0 <= k < t1 :: at(k) == at(t0)
  }

  /** The object was stored in the database of one of the reads t0..t1. */
  ghost predicate Sampled(at: nat -> Db, t0: nat, t1: nat, o: Object) {
    exists k | t0 <= k < t1 :: RefOf(o) in at(k).objects && at(k).objects[RefOf(o)] == o
  }

  datatype Snapshot = Snapshot(scripts: seq<Object>, tasks: seq<Object>, schedules: seq<Object>, apps: seq<Object>)

  function AllOf(s: Snapshot): seq<Object> {
    s.scripts + s.tasks + s.schedules + s.apps
  }

  ghost predicate Holds(s: Snapshot, m: map<Ref, Object>) {
    Lists(s.scripts, m, Script) && Lists(s.tasks, m, Task) && Lists(s.schedules, m, Schedule) && Lists(s.apps, m, Application)
  }

  /** A snapshot carries every reference it makes: a schedule's task is in it, a script is enabled
      and needed by a task in it, and no object occurs twice. */
  ghost predicate Closed(s: Snapshot) {
    && (forall o <- s.tasks :: o.def.TaskDef? && o.def.taskEnabled)
    && (forall o <- s.schedules :: o.def.ScheduleDef? && Ref(Task, o.def.taskId) in Refs(s.tasks))
    && (forall o <- s.scripts :: o.def.ScriptDef? && o.def.scriptEnabled && NeededBy(s.tasks, o.id))
    && (forall o <- s.apps :: o.def.ApplicationDef?)
    && DistinctRefs(s.scripts) && DistinctRefs(s.tasks) && DistinctRefs(s.schedules) && DistinctRefs(s.apps)
  }

  function Refs(xs: seq<Object>): set<Ref> {
    set o <- xs :: RefOf(o)
  }

  predicate NeededBy(tasks: seq<Object>, script: Id) {
    script != "" && exists t <- tasks :: t.def.TaskDef? && t.def.scriptId == script
  }

  /** One query over a table: the rows of a kind, in some order. */
  method ListKind(db: Db, kind: Kind) returns (out: seq<Object>)
    requires Keyed(db)
    ensures Lists(out, db.objects, kind)
  {
    out := [];
    var todo := set ref <- db.objects | ref.kind == kind;
    while todo != {}
      invariant todo <= db.objects.Keys && forall ref <- todo :: ref.kind == kind
      invariant forall o <- out :: KindOf(o.def) == kind && RefOf(o) in db.objects && db.objects[RefOf(o)] == o
      invariant forall ref <- db.objects | ref.kind == kind :: ref in todo || db.objects[ref] in out
      invariant DistinctRefs(out) && forall o <- out :: RefOf(o) !in todo
      decreases todo
    {
      var ref :| ref in todo;
      todo := todo - {ref};
      out := out + [db.objects[ref]];
    }
  }

  /** The group loop: label groups from the group rows, members with one query per group. */
  method MyGroupIds(at: nat -> Db, t0: nat, node: Id, labels: Labels) returns (mine: set<Id>, t: nat)
    ensures t0 < t
    ensures Still(at, t0, t) && node in at(t0).labels && labels == at(t0).labels[node] ==> mine == MyGroups(at(t0), node)
  {
    var groups := at(t0).groups;
    t := t0 + 1;
    mine := set g <- groups | groups[g].isLabel && LabelHit(labels, groups[g].labelKey, groups[g].labelValue);
    var todo := groups.Keys;
    ghost var hits := mine;
    while todo != {}
      invariant t0 < t && todo <= groups.Keys
      invariant Still(at, t0, t) ==> mine == hits + set g <- groups | g !in todo && (g, node) in at(t0).members
      decreases todo
    {
      var g :| g in todo;
      todo := todo - {g};
      if (g, node) in at(t).members {
        mine := mine + {g};
      }
      assert Still(at, t0, t + 1) ==> at(t) == at(t0) && Still(at, t0, t);
      t := t + 1;
    }
  }

  predicate Hit(o: Object, labels: Labels, mine: set<Id>, node: Id) {
    o.def.TaskDef? && o.def.taskEnabled && TargetHits(labels, mine, node, o.def.target)
  }

  /** `tasks` are the rows of `all`, up to the i-th, that hit the node. */
  ghost predicate Gathered(all: seq<Object>, i: nat, tasks: seq<Object>, labels: Labels, mine: set<Id>, node: Id)
    requires i <= |all|
  {
    DistinctRefs(tasks) && forall o :: o in tasks <==> o in all[..i] && Hit(o, labels, mine, node)
  }

  lemma GatherStep(all: seq<Object>, i: nat, tasks: seq<Object>, labels: Labels, mine: set<Id>, node: Id)
    requires i < |all| && DistinctRefs(all) && Gathered(all, i, tasks, labels, mine, node)
    ensures Gathered(all, i + 1, if Hit(all[i], labels, mine, node) then tasks + [all[i]] else tasks, labels, mine, node)
  {
    hide Hit;
    assert all[..i + 1] == all[..i] + [all[i]];
    assert forall p <- tasks :: RefOf(p) != RefOf(all[i]);
  }

  lemma GatherAll(m: map<Ref, Object>, all: seq<Object>, tasks: seq<Object>, labels: Labels, mine: set<Id>, node: Id)
    requires Lists(all, m, Task) && Gathered(all, |all|, tasks, labels, mine, node) && forall ref <- m :: RefOf(m[ref]) == ref
    ensures Lists(tasks, Selected(m, labels, mine, node), Task)
  {
  }

  /** What a torn read of the scripts may have collected for the tasks so far. */
  ghost predicate Collected(at: nat -> Db, t0: nat, t: nat, tasks: seq<Object>, needed: map<Id, Object>) {
    && (forall id <- needed :: NeededScript(needed[id], id) && NeededBy(tasks, id) && Sampled(at, t0, t, needed[id]))
    && (Still(at, t0, t) ==> ScriptsFor(at(t0), tasks, needed))
  }

  /** The script query for one more task, if it names a script. */
  method QueryScript(at: nat -> Db, ghost t0: nat, t: nat, ghost tasks: seq<Object>, o: Object, needed: map<Id, Object>)
      returns (out: map<Id, Object>, next: nat)
    requires t0 < t && Keyed(at(t0)) && Keyed(at(t)) && o.def.TaskDef? && Collected(at, t0, t, tasks, needed)
    ensures t <= next && Collected(at, t0, next, tasks + [o], out)
  {
    out, next := needed, t;
    if o.def.scriptId != "" {
      var ref := Ref(Script, o.def.scriptId);
      if ref in at(t).objects && at(t).objects[ref].def.ScriptDef? && at(t).objects[ref].def.scriptEnabled {
        out := out[ref.id := at(t).objects[ref]];
      }
      assert Still(at, t0, t + 1) ==> at(t) == at(t0) && Still(at, t0, t);
      SampledLater(at, t0, t, out);
      next := t + 1;
    }
    NeededGrows(tasks, o);
    if Still(at, t0, next) {
      ScriptsGrow(at(t0), tasks, o, needed, out);
    }
  }

  /** The task loop, with one script query per task that names a script. */
  method MatchingTasks(at: nat -> Db, t0: nat, node: Id, labels: Labels, mine: set<Id>)
      returns (tasks: seq<Object>, needed: map<Id, Object>, t: nat)
    requires forall k :: Keyed(at(k))
    ensures t0 < t
    ensures forall o <- tasks :: o.def.TaskDef? && o.def.taskEnabled && Sampled(at, t0, t, o)
    ensures DistinctRefs(tasks)
    ensures forall id <- needed :: NeededScript(needed[id], id) && NeededBy(tasks, id) && Sampled(at, t0, t, needed[id])
    ensures Lists(tasks, Selected(at(t0).objects, labels, mine, node), Task)
    ensures Still(at, t0, t) ==> ScriptsFor(at(t0), tasks, needed)
  {
    var all := ListKind(at(t0), Task);
    t := t0 + 1;
    tasks, needed := [], map[];
    for i := 0 to |all|
      invariant t0 < t && Gathered(all, i, tasks, labels, mine, node) && Collected(at, t0, t, tasks, needed)
    {
      var o := all[i];
      assert KindOf(o.def) == Task;
      GatherStep(all, i, tasks, labels, mine, node);
      if o.def.taskEnabled && TargetHits(labels, mine, node, o.def.target) {
        needed, t := QueryScript(at, t0, t, tasks, o, needed);
        tasks := tasks + [o];
      }
    }
    GatherAll(at(t0).objects, all, tasks, labels, mine, node);
    forall o <- tasks ensures Sampled(at, t0, t, o) {
      assert RefOf(o) in at(t0).objects && at(t0).objects[RefOf(o)] == o;
    }
  }

  predicate NeededScript(o: Object, id: Id) {
    o.id == id && o.def.ScriptDef? && o.def.scriptEnabled
  }

  /** The task rows that are enabled and hit the node. */
  function Selected(m: map<Ref, Object>, labels: Labels, mine: set<Id>, node: Id): map<Ref, Object> {
    map ref <- m | m[ref].def.TaskDef? && m[ref].def.taskEnabled && TargetHits(labels, mine, node, m[ref].def.target) :: m[ref]
  }

  /** `needed` holds exactly the enabled scripts that the tasks name. */
  ghost predicate ScriptsFor(db: Db, tasks: seq<Object>, needed: map<Id, Object>) {
    forall id :: (id in needed <==> NeededBy(tasks, id) && Ref(Script, id) in db.objects && NeededScript(db.objects[Ref(Script, id)], id))
                 && (id in needed ==> needed[id] == db.objects[Ref(Script, id)])
  }

  lemma NeededGrows(tasks: seq<Object>, o: Object)
    requires o.def.TaskDef?
    ensures forall id :: NeededBy(tasks + [o], id) <==> NeededBy(tasks, id) || (id != "" && o.def.scriptId == id)
  {
  }

  /** The script query of one more task. */
  lemma ScriptsGrow(db: Db, tasks: seq<Object>, o: Object, known: map<Id, Object>, needed: map<Id, Object>)
    requires Keyed(db) && ScriptsFor(db, tasks, known) && o.def.TaskDef?
    requires var ref := Ref(Script, o.def.scriptId);
             needed == if o.def.scriptId != "" && ref in db.objects && db.objects[ref].def.ScriptDef? && db.objects[ref].def.scriptEnabled
                       then known[ref.id := db.objects[ref]] else known
    ensures ScriptsFor(db, tasks + [o], needed)
  {
  }

  lemma SampledLater(at: nat -> Db, t0: nat, t: nat, needed: map<Id, Object>)
    requires t0 <= t
    requires forall id <- needed :: Sampled(at, t0, t, needed[id]) ||
                                    (RefOf(needed[id]) in at(t).objects && at(t).objects[RefOf(needed[id])] == needed[id])
    ensures forall id <- needed :: Sampled(at, t0, t + 1, needed[id])
  {
  }

  function SchedulesFor(db: Db, tasks: set<Ref>): map<Ref, Object> {
    map ref <- db.objects | db.objects[ref].def.ScheduleDef? && Ref(Task, db.objects[ref].def.taskId) in tasks :: db.objects[ref]
  }

  function AppsFor(db: Db, node: Id): map<Ref, Object> {
    map ref <- db.objects | db.objects[ref].def.ApplicationDef? && (ref.id, node) in db.assignments :: db.objects[ref]
  }

  /** The schedule query, kept for the tasks of the snapshot. */
  method SchedulesOf(db: Db, tasks: seq<Object>) returns (out: seq<Object>)
    requires Keyed(db) && forall o <- tasks :: o.def.TaskDef?
    ensures Lists(out, SchedulesFor(db, Refs(tasks)), Schedule)
  {
    var all := ListKind(db, Schedule);
    var allowed := Refs(tasks);
    out := [];
    for i := 0 to |all|
      invariant forall o <- out :: o in all[..i] && Ref(Task, o.def.taskId) in allowed
      invariant forall o <- all[..i] :: Ref(Task, o.def.taskId) in allowed ==> o in out
      invariant DistinctRefs(out)
    {
      var o := all[i];
      assert KindOf(o.def) == Schedule;
      assert all[..i + 1] == all[..i] + [o];
      if Ref(Task, o.def.taskId) in allowed {
        assert forall p <- out :: RefOf(p) != RefOf(o);
        out := out + [o];
      }
    }
    assert all[..|all|] == all;
  }

  /** The application loop: one assignment query per application. */
  method AssignedApps(at: nat -> Db, t0: nat, node: Id) returns (out: seq<Object>, t: nat)
    requires forall k :: Keyed(at(k))
    ensures t0 < t
    ensures forall o <- out :: o.def.ApplicationDef? && RefOf(o) in at(t0).objects && at(t0).objects[RefOf(o)] == o
    ensures DistinctRefs(out)
    ensures Still(at, t0, t) ==> Lists(out, AppsFor(at(t0), node), Application)
  {
    var all := ListKind(at(t0), Application);
    t := t0 + 1;
    out := [];
    for i := 0 to |all|
      invariant t == t0 + 1 + i
      invariant forall o <- out :: o in all[..i]
      invariant DistinctRefs(out)
      invariant Still(at, t0, t) ==> forall o <- all[..i] :: o in out <==> (o.id, node) in at(t0).assignments
    {
      var o := all[i];
      assert KindOf(o.def) == Application;
      assert all[..i + 1] == all[..i] + [o];
      assert Still(at, t0, t + 1) ==> at(t) == at(t0) && Still(at, t0, t);
      assert forall p <- out :: RefOf(p) != RefOf(o);
      if (o.id, node) in at(t).assignments {
        out := out + [o];
      }
      t := t + 1;
    }
    assert all[..|all|] == all;
  }
}
