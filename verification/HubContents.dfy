/** What the tables hold after a run, told from the run alone: each row, link and label is what the
    last committed transaction about it said. */
module HubContents {
  import opened Models
  import opened HubStore

  /** Transaction `i` of the run commits. */
  ghost predicate Commits(start: Db, run: seq<Mutation>, i: nat)
    requires i < |run|
  {
    Admissible(Replay(start, run, i), run[i])
  }

  /** The transactions that are refused, and leave everything as it was: a create whose row or first history
      row exists, an update whose history row exists, and a group with a taken id, a taken name or a member
      listed twice. Everything else commits and takes a revision. */
  lemma {:induction false} RefusedTransactions(db: Db, m: Mutation)
    ensures Transact(db, m) == db <==> Transact(db, m).revision == db.revision
    ensures Transact(db, m) == db <==>
            match m
            case Create(o) => RefOf(o) in db.objects || (!o.def.ScheduleDef? && (RefOf(o), 1) in db.history)
            case Update(o, read) => !o.def.ScheduleDef? && (RefOf(o), read + 1) in db.history
            case CreateGroup(g, group, ms) =>
              || g in db.groups || (exists h <- db.groups :: db.groups[h].name == group.name)
              || (exists i, j :: 0 <= i < j < |ms| && ms[i] == ms[j]) || exists n <- ms :: (g, n) in db.members
            case UpdateGroup(g, group, ms) =>
              || (g in db.groups && exists h <- db.groups :: h != g && db.groups[h].name == group.name)
              || exists i, j :: 0 <= i < j < |ms| && ms[i] == ms[j]
            case _ => false
  {
  }

  // ---------- objects ----------

  /** The transaction is about the object. */
  predicate AboutObject(m: Mutation, ref: Ref) {
    ((m.Create? || m.Update?) && RefOf(m.obj) == ref) || (m.Delete? && m.ref == ref)
  }

  /** No transaction after `i` and before `n` that commits is about the object. */
  ghost predicate ObjectQuiet(start: Db, run: seq<Mutation>, i: nat, n: nat, ref: Ref)
    requires n <= |run|
  {
    forall j | i < j < n :: AboutObject(run[j], ref) ==> !Commits(start, run, j)
  }

  /** Transaction `i` stores `def` under `ref`: it creates the object, or updates it while it is live. */
  ghost predicate Stores(start: Db, run: seq<Mutation>, i: nat, ref: Ref, def: Definition)
    requires i < |run|
  {
    && Commits(start, run, i)
    && (run[i].Create? || (run[i].Update? && ref in Replay(start, run, i).objects))
    && RefOf(run[i].obj) == ref && run[i].obj.def == def
  }

  lemma ObjectStep(db: Db, m: Mutation, ref: Ref)
    ensures var after := Transact(db, m);
            if Admissible(db, m) && AboutObject(m, ref) then
              if m.Create? || (m.Update? && ref in db.objects) then
                ref in after.objects && after.objects[ref].def == m.obj.def && after.objects[ref].id == ref.id
              else ref !in after.objects
            else (ref in after.objects <==> ref in db.objects) && (ref in db.objects ==> after.objects[ref] == db.objects[ref])
  {
  }

  /** Last writer wins, and only a writer wins: the object is stored with a definition exactly when some
      transaction stored that definition and no later one was about the object. */
  lemma {:induction false} LastWriterWins(labels: map<Id, Labels>, run: seq<Mutation>, n: nat, ref: Ref, def: Definition)
    requires n <= |run|
    ensures ref in Replay(Fresh(labels), run, n).objects && Replay(Fresh(labels), run, n).objects[ref].def == def <==>
            exists i | 0 <= i < n :: Stores(Fresh(labels), run, i, ref, def) && ObjectQuiet(Fresh(labels), run, i, n, ref)
  {
    hide Transact, Admissible;
    var start := Fresh(labels);
    if n > 0 {
      LastWriterWins(labels, run, n - 1, ref, def);
      var db := Replay(start, run, n - 1);
      ObjectStep(db, run[n - 1], ref);
      if Commits(start, run, n - 1) && AboutObject(run[n - 1], ref) {
        assert forall i | 0 <= i < n - 1 :: !ObjectQuiet(start, run, i, n, ref);
        if Stores(start, run, n - 1, ref, def) { assert ObjectQuiet(start, run, n - 1, n, ref); }
      } else {
        assert forall i | 0 <= i < n - 1 :: ObjectQuiet(start, run, i, n, ref) <==> ObjectQuiet(start, run, i, n - 1, ref);
        assert !Stores(start, run, n - 1, ref, def);
      }
    }
  }

  /** A deleted object is gone until it is created again. */
  lemma {:induction false} DeletedIsGone(start: Db, run: seq<Mutation>, i: nat, n: nat, ref: Ref)
    requires i < n <= |run| && run[i] == Delete(ref)
    requires forall j | i < j < n :: run[j].Create? && RefOf(run[j].obj) == ref ==> !Commits(start, run, j)
    ensures ref !in Replay(start, run, n).objects
    decreases n
  {
    ObjectStep(Replay(start, run, n - 1), run[n - 1], ref);
    if n > i + 1 { DeletedIsGone(start, run, i, n - 1, ref); }
  }

  // ---------- assignments ----------

  /** The transaction assigns the application to the node, or takes it away. */
  predicate Assigns(m: Mutation, app: Id, node: Id) {
    m.Assign? && m.app == app && node in m.nodes && m.adding
  }

  predicate Unassigns(m: Mutation, app: Id, node: Id) {
    (m.Assign? && m.app == app && node in m.nodes && !m.adding) || m == Delete(Ref(Application, app))
  }

  lemma AssignmentStep(db: Db, m: Mutation, app: Id, node: Id)
    ensures (app, node) in Transact(db, m).assignments <==>
            Assigns(m, app, node) || ((app, node) in db.assignments && !Unassigns(m, app, node))
  {
  }

  /** An application is assigned to a node exactly when it was assigned once and not taken away since. */
  lemma {:induction false} AssignedExactly(labels: map<Id, Labels>, run: seq<Mutation>, n: nat, app: Id, node: Id)
    requires n <= |run|
    ensures (app, node) in Replay(Fresh(labels), run, n).assignments <==>
            exists i | 0 <= i < n :: Assigns(run[i], app, node) && forall j | i < j < n :: !Unassigns(run[j], app, node)
  {
    hide Transact;
    if n > 0 {
      AssignedExactly(labels, run, n - 1, app, node);
      AssignmentStep(Replay(Fresh(labels), run, n - 1), run[n - 1], app, node);
    }
  }

  // ---------- labels ----------

  /** No transaction after `i` and before `n` sets the labels of the node. */
  ghost predicate LabelsQuiet(run: seq<Mutation>, i: int, n: nat, node: Id)
    requires -1 <= i && n <= |run|
  {
    forall j | i < j < n :: !(run[j].SetLabels? && run[j].node == node)
  }

  /** A known node carries the labels that were set last, and those of its registration before. */
  lemma {:induction false} LabelsSetLast(labels: map<Id, Labels>, run: seq<Mutation>, n: nat, node: Id)
    requires n <= |run|
    ensures var now := Replay(Fresh(labels), run, n).labels;
            && (node in now <==> node in labels)
            && (node in labels && LabelsQuiet(run, -1, n, node) ==> now[node] == labels[node])
            && forall i | 0 <= i < n && run[i].SetLabels? && run[i].node == node && node in labels && LabelsQuiet(run, i, n, node) ::
                 now[node] == run[i].labels
  {
    if n > 0 {
      LabelsSetLast(labels, run, n - 1, node);
      LabelStep(Replay(Fresh(labels), run, n - 1), run[n - 1], node);
    }
  }

  lemma LabelStep(db: Db, m: Mutation, node: Id)
    ensures var now := Transact(db, m).labels;
            && (node in now <==> node in db.labels)
            && (node in now ==> now[node] == if m.SetLabels? && m.node == node then m.labels else db.labels[node])
  {
  }

  // ---------- groups ----------

  predicate AboutGroup(m: Mutation, gid: Id) {
    (m.CreateGroup? || m.UpdateGroup? || m.DeleteGroup?) && m.gid == gid
  }

  ghost predicate GroupQuiet(start: Db, run: seq<Mutation>, i: nat, n: nat, gid: Id)
    requires n <= |run|
  {
    forall j | i < j < n :: AboutGroup(run[j], gid) ==> !Commits(start, run, j)
  }

  /** Transaction `i` stores the group: it creates it, or updates it while it exists. */
  ghost predicate StoresGroup(start: Db, run: seq<Mutation>, i: nat, gid: Id, group: Group)
    requires i < |run|
  {
    && Commits(start, run, i)
    && (run[i].CreateGroup? || (run[i].UpdateGroup? && gid in Replay(start, run, i).groups))
    && run[i].gid == gid && run[i].group == group
  }

  lemma GroupStep(db: Db, m: Mutation, gid: Id)
    ensures var after := Transact(db, m);
            if Admissible(db, m) && AboutGroup(m, gid) then
              if m.CreateGroup? || (m.UpdateGroup? && gid in db.groups) then gid in after.groups && after.groups[gid] == m.group
              else gid !in after.groups
            else (gid in after.groups <==> gid in db.groups) && (gid in db.groups ==> after.groups[gid] == db.groups[gid])
  {
  }

  /** The last writer wins for groups too. */
  lemma {:induction false} LastGroupWins(labels: map<Id, Labels>, run: seq<Mutation>, n: nat, gid: Id, group: Group)
    requires n <= |run|
    ensures gid in Replay(Fresh(labels), run, n).groups && Replay(Fresh(labels), run, n).groups[gid] == group <==>
            exists i | 0 <= i < n :: StoresGroup(Fresh(labels), run, i, gid, group) && GroupQuiet(Fresh(labels), run, i, n, gid)
  {
    hide Transact, Admissible;
    var start := Fresh(labels);
    if n > 0 {
      LastGroupWins(labels, run, n - 1, gid, group);
      GroupStep(Replay(start, run, n - 1), run[n - 1], gid);
      if Commits(start, run, n - 1) && AboutGroup(run[n - 1], gid) {
        assert forall i | 0 <= i < n - 1 :: !GroupQuiet(start, run, i, n, gid);
        if StoresGroup(start, run, n - 1, gid, group) { assert GroupQuiet(start, run, n - 1, n, gid); }
      } else {
        assert forall i | 0 <= i < n - 1 :: GroupQuiet(start, run, i, n, gid) <==> GroupQuiet(start, run, i, n - 1, gid);
        assert !StoresGroup(start, run, n - 1, gid, group);
      }
    }
  }

  /** Transaction `i` names the node as a member of the group, or replaces the members by others. */
  ghost predicate Enrols(start: Db, run: seq<Mutation>, i: nat, gid: Id, node: Id)
    requires i < |run|
  {
    Commits(start, run, i) && (run[i].CreateGroup? || run[i].UpdateGroup?) && run[i].gid == gid && node in run[i].groupMembers
  }

  ghost predicate Expels(start: Db, run: seq<Mutation>, i: nat, gid: Id, node: Id)
    requires i < |run|
  {
    Commits(start, run, i) && ((run[i].UpdateGroup? && run[i].gid == gid && node !in run[i].groupMembers) || run[i] == DeleteGroup(gid))
  }

  lemma MemberStep(db: Db, m: Mutation, gid: Id, node: Id)
    ensures (gid, node) in Transact(db, m).members <==>
            if Admissible(db, m) && (m.CreateGroup? || m.UpdateGroup?) && m.gid == gid && node in m.groupMembers then true
            else (gid, node) in db.members && !(Admissible(db, m) && (m == DeleteGroup(gid) || (m.UpdateGroup? && m.gid == gid)))
  {
  }

  /** A node is a member of a group exactly when it was named once and not dropped since. */
  lemma {:induction false} MembersExactly(labels: map<Id, Labels>, run: seq<Mutation>, n: nat, gid: Id, node: Id)
    requires n <= |run|
    ensures (gid, node) in Replay(Fresh(labels), run, n).members <==>
            exists i | 0 <= i < n :: Enrols(Fresh(labels), run, i, gid, node) &&
                                     forall j | i < j < n :: !Expels(Fresh(labels), run, j, gid, node)
  {
    hide Transact, Admissible;
    if n > 0 {
      var start := Fresh(labels);
      MembersExactly(labels, run, n - 1, gid, node);
      MemberStep(Replay(start, run, n - 1), run[n - 1], gid, node);
      assert (gid, node) in Replay(start, run, n).members <==>
             Enrols(start, run, n - 1, gid, node) || ((gid, node) in Replay(start, run, n - 1).members && !Expels(start, run, n - 1, gid, node));
      hide Enrols, Expels;
    }
  }

  /** Two groups never share a name. */
  ghost predicate NamesUnique(db: Db) {
    forall g <- db.groups, h <- db.groups | g != h :: db.groups[g].name != db.groups[h].name
  }

  lemma {:induction false} GroupNamesUnique(labels: map<Id, Labels>, run: seq<Mutation>, n: nat)
    requires n <= |run|
    ensures NamesUnique(Replay(Fresh(labels), run, n))
  {
    if n > 0 {
      hide NamesUnique, Transact;
      GroupNamesUnique(labels, run, n - 1);
      NamesStep(Replay(Fresh(labels), run, n - 1), run[n - 1]);
    }
  }

  lemma NamesStep(db: Db, m: Mutation)
    requires NamesUnique(db)
    ensures NamesUnique(Transact(db, m))
  {
  }

  // ---------- tombstones and the change log ----------

  ghost predicate LastDelete(run: seq<Mutation>, i: nat, n: nat, ref: Ref)
    requires i < n <= |run|
  {
    run[i] == Delete(ref) && forall j | i < j < n :: run[j] != Delete(ref)
  }

  /** An object has a tombstone exactly when it was deleted, and the tombstone carries the revision that
      its last deletion took. */
  lemma {:induction false} TombstoneOfLastDelete(labels: map<Id, Labels>, run: seq<Mutation>, n: nat, ref: Ref)
    requires n <= |run|
    ensures var now := Replay(Fresh(labels), run, n).tombstones;
            && (ref in now <==> exists i | 0 <= i < n :: run[i] == Delete(ref))
            && forall i | 0 <= i < n && LastDelete(run, i, n, ref) ::
                 ref in now && now[ref] == Replay(Fresh(labels), run, i + 1).revision == Replay(Fresh(labels), run, i).revision + 1
  {
    if n > 0 {
      hide Transact;
      TombstoneOfLastDelete(labels, run, n - 1, ref);
      TombstoneStep(Replay(Fresh(labels), run, n - 1), run[n - 1], ref);
      assert forall i | 0 <= i < n - 1 && LastDelete(run, i, n, ref) :: LastDelete(run, i, n - 1, ref);
    }
  }

  lemma TombstoneStep(db: Db, m: Mutation, ref: Ref)
    ensures var after := Transact(db, m);
            if m == Delete(ref) then ref in after.tombstones && after.tombstones[ref] == after.revision == db.revision + 1
            else (ref in after.tombstones <==> ref in db.tombstones) &&
                 (ref in db.tombstones ==> after.tombstones[ref] == db.tombstones[ref])
  {
  }

  /** What the change log must say about a committed transaction that led to `after`. */
  ghost predicate Tells(c: Change, m: Mutation, after: Db) {
    && (m.Create? ==> c.subject == OfObject(RefOf(m.obj)) && c.op == CreateOp)
    && (m.Update? ==> c.subject == OfObject(RefOf(m.obj)) && c.op == UpdateOp)
    && (m.Create? || m.Update? ==> RefOf(m.obj) in after.objects ==> c.objectRevision == after.objects[RefOf(m.obj)].revision)
    && (m.Delete? ==> c.subject == OfObject(m.ref) && c.op == DeleteOp)
    && (m.Assign? ==> c.subject == OfObject(Ref(Application, m.app)) && c.op == AssignOp && c.objectRevision == m.read)
    && (m.SetLabels? ==> c.subject == OfNode(m.node) && c.op == LabelsOp)
    && (m.CreateGroup? ==> c.subject == OfGroup(m.gid) && c.op == CreateOp)
    && (m.UpdateGroup? ==> c.subject == OfGroup(m.gid) && c.op == UpdateOp)
    && (m.DeleteGroup? ==> c.subject == OfGroup(m.gid) && c.op == DeleteOp)
    && (!m.Create? && !m.Update? && !m.Assign? ==> c.objectRevision == 0)
  }

  /** The entry under the revision that a transaction took tells what it changed, for good. */
  lemma {:induction false} LogTells(labels: map<Id, Labels>, run: seq<Mutation>, i: nat, n: nat)
    requires i < n <= |run| && Commits(Fresh(labels), run, i)
    ensures var after := Replay(Fresh(labels), run, i + 1);
            && after.revision == Replay(Fresh(labels), run, i).revision + 1
            && after.revision in Replay(Fresh(labels), run, n).changes
            && Tells(Replay(Fresh(labels), run, n).changes[after.revision], run[i], after)
    decreases n
  {
    var start := Fresh(labels);
    hide Tells;
    if n > i + 1 {
      LogTells(labels, run, i, n - 1);
      LaterRevision(start, run, i + 1, n - 1);
      EntryStays(Replay(start, run, n - 1), run[n - 1], Replay(start, run, i + 1).revision);
    } else {
      NewEntry(Replay(start, run, i), run[i]);
    }
  }

  lemma NewEntry(db: Db, m: Mutation)
    requires Admissible(db, m)
    ensures var after := Transact(db, m);
            after.revision == db.revision + 1 && after.revision in after.changes && Tells(after.changes[after.revision], m, after)
  {
  }

  lemma EntryStays(db: Db, m: Mutation, rev: nat)
    requires rev in db.changes && rev <= db.revision
    ensures rev in Transact(db, m).changes && Transact(db, m).changes[rev] == db.changes[rev]
  {
  }

  lemma RevisionStep(db: Db, m: Mutation)
    ensures Transact(db, m).revision == db.revision + if Admissible(db, m) then 1 else 0
  {
  }

  lemma {:induction false} LaterRevision(start: Db, run: seq<Mutation>, i: nat, n: nat)
    requires i <= n <= |run|
    ensures Replay(start, run, i).revision <= Replay(start, run, n).revision
    decreases n
  {
    if i < n {
      hide Transact, Admissible;
      LaterRevision(start, run, i, n - 1);
      RevisionStep(Replay(start, run, n - 1), run[n - 1]);
    }
  }

  /** How many of the transactions from `i` to `n` commit. */
  ghost function CommitCount(start: Db, run: seq<Mutation>, i: nat, n: nat): nat
    requires i <= n <= |run|
    decreases n
  {
    if n == i then 0 else CommitCount(start, run, i, n - 1) + if Commits(start, run, n - 1) then 1 else 0
  }

  /** The revision counts the commits. */
  lemma {:induction false} RevisionCounts(start: Db, run: seq<Mutation>, i: nat, n: nat)
    requires i <= n <= |run|
    ensures Replay(start, run, n).revision == Replay(start, run, i).revision + CommitCount(start, run, i, n)
    decreases n
  {
    if i < n {
      hide Transact, Admissible;
      RevisionCounts(start, run, i, n - 1);
      RevisionStep(Replay(start, run, n - 1), run[n - 1]);
    }
  }
}
