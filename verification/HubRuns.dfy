/** What every run of desired-state transactions keeps: one revision per change, optimistic
    locking through the history keys, and tombstones that stay dead. */
module HubRuns {
  import opened Models
  import opened HubStore

  // ---------- one revision per committed change ----------

  lemma TransactRevision(db: Db, m: Mutation)
    ensures db.revision <= Transact(db, m).revision <= db.revision + 1
    ensures Transact(db, m).revision == db.revision ==> Transact(db, m) == db
  {
  }

  /** The revision orders the database states of a run, and names each of them. */
  lemma {:induction false} RevisionNamesState(start: Db, run: seq<Mutation>, i: nat, j: nat)
    requires i <= j <= |run|
    ensures Replay(start, run, i).revision <= Replay(start, run, j).revision
    ensures Replay(start, run, i).revision == Replay(start, run, j).revision
            ==> Replay(start, run, i) == Replay(start, run, j)
    decreases j - i
  {
    if i < j {
      RevisionNamesState(start, run, i, j - 1);
      TransactRevision(Replay(start, run, j - 1), run[j - 1]);
    }
  }

  /** The change log holds exactly one entry for each revision taken so far. */
  ghost predicate LogComplete(db: Db) {
    forall k :: k in db.changes <==> 1 <= k <= db.revision
  }

  lemma {:induction false} LogAlwaysComplete(labels: map<Id, Labels>, run: seq<Mutation>, n: nat)
    requires n <= |run|
    ensures LogComplete(Replay(Fresh(labels), run, n))
  {
    hide Transact, LogComplete;
    if n > 0 {
      LogAlwaysComplete(labels, run, n - 1);
      TransactLogs(Replay(Fresh(labels), run, n - 1), run[n - 1]);
    } else {
      EmptyLog(labels);
    }
  }

  lemma EmptyLog(labels: map<Id, Labels>)
    ensures LogComplete(Fresh(labels))
  {
  }

  lemma TransactLogs(db: Db, m: Mutation)
    requires LogComplete(db)
    ensures LogComplete(Transact(db, m))
  {
  }

  // ---------- the history key is an optimistic lock ----------

  function Revisions(h: set<(Ref, nat)>, ref: Ref): set<nat> {
    set p <- h | p.0 == ref :: p.1
  }

  /** How many revisions of an object were ever recorded. */
  function Latest(h: set<(Ref, nat)>, ref: Ref): nat {
    |Revisions(h, ref)|
  }

  /** The recorded revisions of every object are exactly 1..k: no gap, no repeat. */
  ghost predicate Gapless(h: set<(Ref, nat)>) {
    forall ref, k: nat :: (ref, k) in h <==> 1 <= k <= Latest(h, ref)
  }

  ghost predicate Consistent(db: Db) {
    && Gapless(db.history)
    && (forall ref <- db.objects :: RefOf(db.objects[ref]) == ref)
    && (forall ref <- db.objects | Versioned(ref.kind) :: 1 <= db.objects[ref].revision == Latest(db.history, ref))
  }

  lemma RecordRevision(h: set<(Ref, nat)>, ref: Ref)
    requires Gapless(h)
    ensures var grown := h + {(ref, Latest(h, ref) + 1)};
            && Gapless(grown)
            && Latest(grown, ref) == Latest(h, ref) + 1
            && forall other | other != ref :: Latest(grown, other) == Latest(h, other)
  {
    var k := Latest(h, ref) + 1;
    assert Revisions(h + {(ref, k)}, ref) == Revisions(h, ref) + {k};
    forall other | other != ref ensures Latest(h + {(ref, k)}, other) == Latest(h, other) {
      assert Revisions(h + {(ref, k)}, other) == Revisions(h, other);
    }
  }

  /** An update carries a revision that was recorded. */
  ghost predicate ReadsPast(db: Db, m: Mutation) {
    m.Update? && Versioned(KindOf(m.obj.def)) ==> (RefOf(m.obj), m.read) in db.history
  }

  lemma TransactConsistent(db: Db, m: Mutation)
    requires Consistent(db) && ReadsPast(db, m)
    ensures Consistent(Transact(db, m))
  {
    var after := Transact(db, m);
    if Admissible(db, m) {
      if (m.Create? || m.Update?) && Versioned(KindOf(m.obj.def)) {
        var ref := RefOf(m.obj);
        var next := Latest(db.history, ref) + 1;
        if m.Create? { NoHistory(db.history, ref); } else { UpdateLocks(db, m.obj, m.read); }
        assert after.history == db.history + {(ref, next)};
        RecordRevision(db.history, ref);
      } else {
        assert after.history == db.history;
      }
    }
  }

  lemma NoHistory(h: set<(Ref, nat)>, ref: Ref)
    requires Gapless(h)
    ensures (ref, 1) !in h <==> Latest(h, ref) == 0
  {
  }

  /** The key constraint admits an update exactly when it read the last recorded revision. */
  lemma UpdateLocks(db: Db, o: Object, read: nat)
    requires Consistent(db) && ReadsPast(db, Update(o, read)) && Versioned(KindOf(o.def))
    ensures Admissible(db, Update(o, read)) <==> read == Latest(db.history, RefOf(o))
    ensures RefOf(o) in db.objects ==> (Admissible(db, Update(o, read)) <==> read == db.objects[RefOf(o)].revision)
  {
  }

  /** Every update of the run carries a revision that its row really had at some earlier moment. */
  ghost predicate HonestReads(start: Db, run: seq<Mutation>) {
    forall i | 0 <= i < |run| && run[i].Update? :: WasRead(start, run, i)
  }

  ghost predicate WasRead(start: Db, run: seq<Mutation>, i: nat)
    requires i < |run| && run[i].Update?
  {
    exists j | 0 <= j <= i :: SawRevision(Replay(start, run, j), RefOf(run[i].obj), run[i].read)
  }

  predicate SawRevision(db: Db, ref: Ref, rev: nat) {
    ref in db.objects && db.objects[ref].revision == rev
  }

  lemma {:induction false} HistoryKept(start: Db, run: seq<Mutation>, j: nat, n: nat)
    requires j <= n <= |run|
    ensures Replay(start, run, j).history <= Replay(start, run, n).history
    decreases n - j
  {
    if j < n {
      HistoryKept(start, run, j, n - 1);
      TransactKeepsHistory(Replay(start, run, n - 1), run[n - 1]);
    }
  }

  lemma TransactKeepsHistory(db: Db, m: Mutation)
    ensures db.history <= Transact(db, m).history
  {
  }

  lemma {:induction false} RunConsistent(labels: map<Id, Labels>, run: seq<Mutation>, n: nat)
    requires n <= |run| && HonestReads(Fresh(labels), run)
    ensures Consistent(Replay(Fresh(labels), run, n))
    decreases n, 1
  {
    var start := Fresh(labels);
    if n == 0 {
      forall ref ensures Latest(start.history, ref) == 0 {
        assert Revisions(start.history, ref) == {};
      }
    } else {
      RunConsistent(labels, run, n - 1);
      RunReadsPast(labels, run, n - 1);
      TransactConsistent(Replay(start, run, n - 1), run[n - 1]);
    }
  }

  lemma {:induction false} RunReadsPast(labels: map<Id, Labels>, run: seq<Mutation>, n: nat)
    requires n < |run| && HonestReads(Fresh(labels), run)
    ensures ReadsPast(Replay(Fresh(labels), run, n), run[n])
    decreases n, 2
  {
    var start := Fresh(labels);
    if run[n].Update? && Versioned(KindOf(run[n].obj.def)) {
      assert WasRead(start, run, n);
      var j :| 0 <= j <= n && SawRevision(Replay(start, run, j), RefOf(run[n].obj), run[n].read);
      RunConsistent(labels, run, j);
      HistoryKept(start, run, j, n);
    }
  }

  /** Over every interleaving of transactions whose reads happened outside them: the recorded
      revisions of an object are exactly 1..k, and an update commits exactly when the revision
      it read is still the last one. */
  lemma {:induction false} OptimisticLocking(labels: map<Id, Labels>, run: seq<Mutation>, n: nat)
    requires n <= |run| && HonestReads(Fresh(labels), run)
    ensures var db := Replay(Fresh(labels), run, n);
            && (forall ref, k: nat :: (ref, k) in db.history <==> 1 <= k <= Latest(db.history, ref))
            && (forall ref <- db.objects | ref.kind != Schedule :: db.objects[ref].revision == Latest(db.history, ref))
    ensures n < |run| && run[n].Update? && !run[n].obj.def.ScheduleDef? ==>
              var db := Replay(Fresh(labels), run, n);
              && (Admissible(db, run[n]) <==> run[n].read == Latest(db.history, RefOf(run[n].obj)))
              && (RefOf(run[n].obj) in db.objects ==>
                    (Admissible(db, run[n]) <==> run[n].read == db.objects[RefOf(run[n].obj)].revision))
  {
    RunConsistent(labels, run, n);
    if n < |run| { RunReadsPast(labels, run, n); }
    if n < |run| && run[n].Update? && Versioned(KindOf(run[n].obj.def)) {
      UpdateLocks(Replay(Fresh(labels), run, n), run[n].obj, run[n].read);
    }
  }

  /** The lock does not notice a concurrent delete: the update still commits and still takes a
      revision, but it changes no row. */
  lemma {:induction false} UpdateAfterDeleteCommits(db: Db, o: Object)
    requires Consistent(db) && Versioned(KindOf(o.def)) && RefOf(o) !in db.objects
    requires Latest(db.history, RefOf(o)) >= 1
    ensures var after := Transact(db, Update(o, Latest(db.history, RefOf(o))));
            && after.revision == db.revision + 1
            && after.objects == db.objects
            && Latest(after.history, RefOf(o)) == Latest(db.history, RefOf(o)) + 1
  {
    UpdateLocks(db, o, Latest(db.history, RefOf(o)));
    RecordRevision(db.history, RefOf(o));
  }

  /** Schedules have no history key: of two updates that read the same row both commit, and the
      first one is lost. */
  lemma {:induction false} ScheduleUpdateLost(db: Db, first: Object, second: Object)
    requires RefOf(first) == RefOf(second) && KindOf(first.def) == Schedule
    requires RefOf(first) in db.objects
    ensures var read := db.objects[RefOf(first)].revision;
            var after := Transact(Transact(db, Update(first, read)), Update(second, read));
            && after.revision == db.revision + 2
            && after.objects[RefOf(first)] == second.(revision := read + 1)
  {
  }

  // ---------- tombstones ----------

  /** No live object carries a tombstone. */
  ghost predicate Buried(db: Db) {
    forall ref <- db.objects :: ref !in db.tombstones
  }

  /** The guard a caller can check: the id of a create carries no tombstone. */
  ghost predicate FreshId(db: Db, m: Mutation) {
    m.Create? ==> RefOf(m.obj) !in db.tombstones
  }

  /** One transaction makes a tombstoned object live exactly when it commits a create of a
      tombstoned id; for a kind with history that takes an id deleted before it ever existed. */
  lemma {:induction false} ResurrectionStep(db: Db, m: Mutation)
    requires Consistent(db) && Buried(db)
    ensures !Buried(Transact(db, m)) <==> Admissible(db, m) && !FreshId(db, m)
    ensures m.Create? && !m.obj.def.ScheduleDef? ==>
              (Admissible(db, m) <==> RefOf(m.obj) !in db.objects && Latest(db.history, RefOf(m.obj)) == 0)
  {
    if Admissible(db, m) && m.Create? && RefOf(m.obj) in db.tombstones {
      assert RefOf(m.obj) in Transact(db, m).objects;
    }
    if m.Create? && Versioned(KindOf(m.obj.def)) {
      NoHistory(db.history, RefOf(m.obj));
    }
  }

  /** The guards of a careful caller: delete only what was created once, and give every new
      schedule an id that was never deleted. */
  ghost predicate Careful(db: Db, m: Mutation) {
    && (m.Delete? && m.ref.kind != Schedule ==> (m.ref, 1) in db.history)
    && (m.Create? && m.obj.def.ScheduleDef? ==> RefOf(m.obj) !in db.tombstones)
  }

  /** Every tombstone of a versioned kind has history behind it. */
  ghost predicate GravesKnown(db: Db) {
    forall ref <- db.tombstones | Versioned(ref.kind) :: (ref, 1) in db.history
  }

  lemma CarefulStep(db: Db, m: Mutation)
    requires Buried(db) && GravesKnown(db) && Careful(db, m)
    ensures Buried(Transact(db, m)) && GravesKnown(Transact(db, m))
  {
  }

  ghost predicate CarefulRun(start: Db, run: seq<Mutation>) {
    forall i | 0 <= i < |run| :: Careful(Replay(start, run, i), run[i])
  }

  /** Over every run of such callers the history rows alone keep deleted ids dead. */
  lemma {:induction false} DeletedStaysDeleted(labels: map<Id, Labels>, run: seq<Mutation>, n: nat)
    requires n <= |run| && CarefulRun(Fresh(labels), run)
    ensures Buried(Replay(Fresh(labels), run, n)) && GravesKnown(Replay(Fresh(labels), run, n))
  {
    hide Transact, Careful;
    if n > 0 {
      DeletedStaysDeleted(labels, run, n - 1);
      assert Careful(Replay(Fresh(labels), run, n - 1), run[n - 1]);
      CarefulStep(Replay(Fresh(labels), run, n - 1), run[n - 1]);
    }
  }

  /** Without those guards a script id can be tombstoned first and created afterwards. */
  lemma {:induction false} UnknownDeleteResurrects(labels: map<Id, Labels>, o: Object)
    requires o.def.ScriptDef?
    ensures var run := [Delete(RefOf(o)), Create(o)];
            !Buried(Replay(Fresh(labels), run, 2)) && HonestReads(Fresh(labels), run)
  {
    var run := [Delete(RefOf(o)), Create(o)];
    var one := Transact(Fresh(labels), run[0]);
    assert Replay(Fresh(labels), run, 1) == one;
    assert RefOf(o) in Transact(one, run[1]).objects;
  }
}
