/** The Hub database and the transactions that change desired state. */
module HubStore {
  import opened Models

  datatype Operation = CreateOp | UpdateOp | DeleteOp | AssignOp | LabelsOp
  datatype Subject = OfObject(ref: Ref) | OfGroup(group: Id) | OfNode(node: Id)
  datatype Change = Change(subject: Subject, objectRevision: nat, op: Operation)

  /** The tables, under their primary keys. `history` is the key set of script_revisions,
      task_revisions and application_revisions; `changes` is revision_changes. */
  datatype Db = Db(
    revision: nat,
    objects: map<Ref, Object>,
    history: set<(Ref, nat)>,
    assignments: set<(Id, Id)>,
    groups: map<Id, Group>,
    members: set<(Id, Id)>,
    labels: map<Id, Labels>,
    tombstones: map<Ref, nat>,
    changes: map<nat, Change>)

  /** A fresh Hub that knows a set of nodes and their labels. */
  function Fresh(labels: map<Id, Labels>): Db {
    Db(0, map[], {}, {}, map[], {}, labels, map[], map[])
  }

  /** Schedules are the one kind without a history table. */
  predicate Versioned(kind: Kind) {
    kind != Schedule
  }

  /** The desired-state mutations. `read` is the row a manager fetched before it opened its transaction. */
  datatype Mutation =
    | Create(obj: Object)
    | Update(obj: Object, read: nat)
    | Delete(ref: Ref)
    | Assign(app: Id, nodes: seq<Id>, adding: bool, read: nat)
    | SetLabels(node: Id, labels: Labels)
    | CreateGroup(gid: Id, group: Group, groupMembers: seq<Id>)
    | UpdateGroup(gid: Id, group: Group, groupMembers: seq<Id>)
    | DeleteGroup(gid: Id)

  predicate Distinct(xs: seq<Id>) {
    forall i, j | 0 <= i < j < |xs| :: xs[i] != xs[j]
  }

  /** No key constraint of the schema stops the transaction. */
  predicate Admissible(db: Db, m: Mutation) {
    match m
    case Create(o) =>
      && RefOf(o) !in db.objects
      && (Versioned(KindOf(o.def)) ==> (RefOf(o), 1) !in db.history)
    case Update(o, read) => Versioned(KindOf(o.def)) ==> (RefOf(o), read + 1) !in db.history
    case CreateGroup(g, group, ms) =>
      && g !in db.groups
      && (forall h <- db.groups :: db.groups[h].name != group.name)
      && Distinct(ms)
      && (forall n <- ms :: (g, n) !in db.members)
    case UpdateGroup(g, group, ms) =>
      && (g in db.groups ==> forall h <- db.groups :: h != g ==> db.groups[h].name != group.name)
      && Distinct(ms)
    case _ => true
  }

  function SubjectOf(m: Mutation): Subject {
    match m
    case Create(o) => OfObject(RefOf(o))
    case Update(o, _) => OfObject(RefOf(o))
    case Delete(r) => OfObject(r)
    case Assign(a, _, _, _) => OfObject(Ref(Application, a))
    case SetLabels(n, _) => OfNode(n)
    case CreateGroup(g, _, _) => OfGroup(g)
    case UpdateGroup(g, _, _) => OfGroup(g)
    case DeleteGroup(g) => OfGroup(g)
  }

  function ChangeOf(m: Mutation): Change {
    match m
    case Create(o) => Change(SubjectOf(m), 1, CreateOp)
    case Update(o, read) => Change(SubjectOf(m), read + 1, UpdateOp)
    case Delete(_) => Change(SubjectOf(m), 0, DeleteOp)
    case Assign(_, _, _, read) => Change(SubjectOf(m), read, AssignOp)
    case SetLabels(_, _) => Change(SubjectOf(m), 0, LabelsOp)
    case CreateGroup(_, _, _) => Change(SubjectOf(m), 0, CreateOp)
    case UpdateGroup(_, _, _) => Change(SubjectOf(m), 0, UpdateOp)
    case DeleteGroup(_) => Change(SubjectOf(m), 0, DeleteOp)
  }

  /** The effect on the rows, before the revision is taken. */
  function Write(db: Db, m: Mutation): Db {
    match m
    case Create(o) =>
      var ref := RefOf(o);
      db.(objects := db.objects[ref := o.(revision := 1)],
          history := db.history + if Versioned(ref.kind) then {(ref, 1)} else {})
    case Update(o, read) =>
      var ref := RefOf(o);
      db.(objects := if ref in db.objects then db.objects[ref := o.(revision := read + 1)] else db.objects,
          history := db.history + if Versioned(ref.kind) then {(ref, read + 1)} else {})
    case Delete(ref) =>
      db.(objects := db.objects - {ref},
          assignments := if ref.kind == Application then set p <- db.assignments | p.0 != ref.id else db.assignments)
    case Assign(a, ns, adding, _) =>
      var pairs := set n <- ns :: (a, n);
      db.(assignments := if adding then db.assignments + pairs else db.assignments - pairs)
    case SetLabels(n, ls) =>
      db.(labels := if n in db.labels then db.labels[n := ls] else db.labels)
    case CreateGroup(g, group, ms) =>
      db.(groups := db.groups[g := group], members := db.members + set n <- ms :: (g, n))
    case UpdateGroup(g, group, ms) =>
      db.(groups := if g in db.groups then db.groups[g := group] else db.groups,
          members := (set p <- db.members | p.0 != g) + set n <- ms :: (g, n))
    case DeleteGroup(g) =>
      db.(groups := db.groups - {g}, members := set p <- db.members | p.0 != g)
  }

  /** NextGlobalRevision, AppendChangeLog and, for a delete, RecordTombstone. */
  function Record(db: Db, m: Mutation): Db {
    var rev := db.revision + 1;
    db.(revision := rev,
        changes := db.changes[rev := ChangeOf(m)],
        tombstones := if m.Delete? then db.tombstones[m.ref := rev] else db.tombstones)
  }

  /** One WithTx: everything is committed, or nothing is. */
  function Transact(db: Db, m: Mutation): Db {
    if Admissible(db, m) then Record(Write(db, m), m) else db
  }

  /** The Hub database after the first `n` transactions of a run. */
  function Replay(start: Db, run: seq<Mutation>, n: nat): Db
    requires n <= |run|
  {
    if n == 0 then start else Transact(Replay(start, run, n - 1), run[n - 1])
  }

  // ---------- the managers ----------

  datatype Outcome = Committed(rev: nat) | RolledBack

  /** The managers of definitions.go, schedule.go, application.go and node.go over one database.
      Each method stages its writes in `tx`; the field changes only at the commit. */
  class Hub {
    var db: Db

    constructor (labels: map<Id, Labels>)
      ensures db == Fresh(labels)
    {
      db := Fresh(labels);
    }

    method CreateObject(o: Object) returns (r: Outcome)
      modifies this
      ensures db == Transact(old(db), Create(o))
      ensures r == if Admissible(old(db), Create(o)) then Committed(db.revision) else RolledBack
    {
      var ref := RefOf(o);
      var tx := db;
      if ref in tx.objects { return RolledBack; }
      tx := tx.(objects := tx.objects[ref := o.(revision := 1)]);
      if Versioned(ref.kind) {
        if (ref, 1) in tx.history { return RolledBack; }
        tx := tx.(history := tx.history + {(ref, 1)});
      }
      tx := tx.(revision := tx.revision + 1);
      tx := tx.(changes := tx.changes[tx.revision := Change(OfObject(ref), 1, CreateOp)]);
      db := tx;
      return Committed(tx.revision);
    }

    /** `read` is the revision of the row fetched before the transaction began. */
    method UpdateObject(o: Object, read: nat) returns (r: Outcome)
      modifies this
      ensures db == Transact(old(db), Update(o, read))
      ensures r == if Admissible(old(db), Update(o, read)) then Committed(db.revision) else RolledBack
    {
      var ref := RefOf(o);
      var tx := db;
      if ref in tx.objects {
        tx := tx.(objects := tx.objects[ref := o.(revision := read + 1)]);
      }
      if Versioned(ref.kind) {
        if (ref, read + 1) in tx.history { return RolledBack; }
        tx := tx.(history := tx.history + {(ref, read + 1)});
      }
      tx := tx.(revision := tx.revision + 1);
      tx := tx.(changes := tx.changes[tx.revision := Change(OfObject(ref), read + 1, UpdateOp)]);
      db := tx;
      return Committed(tx.revision);
    }

    method DeleteObject(ref: Ref) returns (r: Outcome)
      modifies this
      ensures db == Transact(old(db), Delete(ref)) && r == Committed(db.revision)
    {
      var tx := db;
      if ref.kind == Application {
        tx := tx.(assignments := set p <- tx.assignments | p.0 != ref.id);
      }
      tx := tx.(objects := tx.objects - {ref});
      tx := tx.(revision := tx.revision + 1);
      tx := tx.(changes := tx.changes[tx.revision := Change(OfObject(ref), 0, DeleteOp)]);
      tx := tx.(tombstones := tx.tombstones[ref := tx.revision]);
      db := tx;
      return Committed(tx.revision);
    }

    method AssignNodes(app: Id, nodes: seq<Id>, adding: bool, read: nat) returns (r: Outcome)
      modifies this
      ensures db == Transact(old(db), Assign(app, nodes, adding, read)) && r == Committed(db.revision)
    {
      var tx := db;
      ghost var before := tx;
      for i := 0 to |nodes|
        invariant tx == before.(assignments := tx.assignments)
        invariant tx.assignments ==
                  if adding then before.assignments + set n <- nodes[..i] :: (app, n)
                  else before.assignments - set n <- nodes[..i] :: (app, n)
      {
        assert nodes[..i + 1] == nodes[..i] + [nodes[i]];
        tx := tx.(assignments := if adding then tx.assignments + {(app, nodes[i])} else tx.assignments - {(app, nodes[i])});
      }
      assert nodes[..|nodes|] == nodes;
      tx := tx.(revision := tx.revision + 1);
      tx := tx.(changes := tx.changes[tx.revision := Change(OfObject(Ref(Application, app)), read, AssignOp)]);
      db := tx;
      return Committed(tx.revision);
    }

    method SetNodeLabels(node: Id, labels: Labels) returns (r: Outcome)
      modifies this
      ensures db == Transact(old(db), SetLabels(node, labels)) && r == Committed(db.revision)
    {
      var tx := db;
      if node in tx.labels {
        tx := tx.(labels := tx.labels[node := labels]);
      }
      tx := tx.(revision := tx.revision + 1);
      tx := tx.(changes := tx.changes[tx.revision := Change(OfNode(node), 0, LabelsOp)]);
      db := tx;
      return Committed(tx.revision);
    }

    /** The member inserts of CreateGroup and UpdateGroup: a duplicate key stops the transaction. */
    static method InsertMembers(members: set<(Id, Id)>, gid: Id, ms: seq<Id>) returns (ok: bool, out: set<(Id, Id)>)
      ensures ok <==> Distinct(ms) && forall n <- ms :: (gid, n) !in members
      ensures ok ==> out == members + set n <- ms :: (gid, n)
    {
      out := members;
      for i := 0 to |ms|
        invariant out == members + set n <- ms[..i] :: (gid, n)
        invariant Distinct(ms[..i]) && forall n <- ms[..i] :: (gid, n) !in members
      {
        if (gid, ms[i]) in out {
          if (gid, ms[i]) !in members {
            assert ms[i] in ms[..i];
          }
          return false, members;
        }
        assert ms[..i + 1] == ms[..i] + [ms[i]];
        assert forall n <- ms[..i] :: (gid, n) in out;
        out := out + {(gid, ms[i])};
      }
      assert ms[..|ms|] == ms;
      return true, out;
    }

    method AddGroup(gid: Id, group: Group, ms: seq<Id>) returns (r: Outcome)
      modifies this
      ensures db == Transact(old(db), CreateGroup(gid, group, ms))
      ensures r == if Admissible(old(db), CreateGroup(gid, group, ms)) then Committed(db.revision) else RolledBack
    {
      var tx := db;
      if gid in tx.groups || exists h <- tx.groups :: tx.groups[h].name == group.name { return RolledBack; }
      tx := tx.(groups := tx.groups[gid := group]);
      var ok, members := InsertMembers(tx.members, gid, ms);
      if !ok { return RolledBack; }
      tx := tx.(members := members);
      tx := tx.(revision := tx.revision + 1);
      tx := tx.(changes := tx.changes[tx.revision := Change(OfGroup(gid), 0, CreateOp)]);
      db := tx;
      return Committed(tx.revision);
    }

    method ReplaceGroup(gid: Id, group: Group, ms: seq<Id>) returns (r: Outcome)
      modifies this
      ensures db == Transact(old(db), UpdateGroup(gid, group, ms))
      ensures r == if Admissible(old(db), UpdateGroup(gid, group, ms)) then Committed(db.revision) else RolledBack
    {
      var tx := db;
      if gid in tx.groups {
        if exists h <- tx.groups :: h != gid && tx.groups[h].name == group.name { return RolledBack; }
        tx := tx.(groups := tx.groups[gid := group]);
      }
      tx := tx.(members := set p <- tx.members | p.0 != gid);
      var ok, members := InsertMembers(tx.members, gid, ms);
      if !ok { return RolledBack; }
      tx := tx.(members := members);
      tx := tx.(revision := tx.revision + 1);
      tx := tx.(changes := tx.changes[tx.revision := Change(OfGroup(gid), 0, UpdateOp)]);
      db := tx;
      return Committed(tx.revision);
    }

    method RemoveGroup(gid: Id) returns (r: Outcome)
      modifies this
      ensures db == Transact(old(db), DeleteGroup(gid)) && r == Committed(db.revision)
    {
      var tx := db;
      tx := tx.(members := set p <- tx.members | p.0 != gid);
      tx := tx.(groups := tx.groups - {gid});
      tx := tx.(revision := tx.revision + 1);
      tx := tx.(changes := tx.changes[tx.revision := Change(OfGroup(gid), 0, DeleteOp)]);
      db := tx;
      return Committed(tx.revision);
    }
  }
}
