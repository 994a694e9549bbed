/** Whole runs of the sync protocol: transactions, responses built from torn reads, and
    deliveries that are lost, repeated, reordered or rolled back. */
module SyncProtocol {
  import opened Models
  import opened HubStore
  import opened HubRuns
  import opened DesiredState
  import opened SyncResponse
  import opened AgentSync

  // ---------- one exchange ----------

  lemma DesiredKeyed(db: Db, node: Id)
    requires Keyed(db) && node in db.labels
    ensures KeyedRows(Desired(db, node))
  {
  }

  /** Applying the exact answer brings any Agent to the desired state, unless a desired object
      travels with its own tombstone. */
  lemma {:induction false} AnswerApplied(a: LocalDb, db: Db, node: Id, since: int, window: int, r: Response)
    requires Keyed(db) && Answers(r, db, node, since, window)
    ensures Plan(a, r) == Some(LocalDb(Bury(Stored(Desired(db, node)), r.tombstones), db.revision))
    ensures Plan(a, r).value.rows == Stored(Desired(db, node)) <==> forall ref <- Desired(db, node) :: ref !in r.tombstones
    ensures Buried(db) ==> Plan(a, r) == Some(LocalDb(Stored(Desired(db, node)), db.revision))
  {
    var s :| Carries(r, s) && Holds(s, Desired(db, node));
    DesiredKeyed(db, node);
    SnapshotReplaces(a, r, s, Desired(db, node));
    BuryNone(Stored(Desired(db, node)), r.tombstones);
  }

  lemma BuryNone(rows: map<Ref, Json>, tombstones: seq<Ref>)
    ensures Bury(rows, tombstones) == rows <==> forall ref <- rows :: ref !in tombstones
  {
  }

  /** A full resync and an incremental answer from the same database leave two Agents in the same
      state, whatever they stored before and whatever revision they asked from. */
  lemma {:induction false} FullEqualsIncremental(a: LocalDb, b: LocalDb, db: Db, node: Id, since: int, since': int, window: int, window': int,
                              full: Response, incremental: Response)
    requires Keyed(db) && Buried(db)
    requires Answers(full, db, node, since, window) && full.fullResync
    requires Answers(incremental, db, node, since', window') && !incremental.fullResync
    ensures Plan(a, full) == Plan(b, incremental)
  {
    AnswerApplied(a, db, node, since, window, full);
    AnswerApplied(b, db, node, since', window', incremental);
  }

  /** Without buried tombstones they differ exactly when a desired object was tombstoned after `since`. */
  lemma {:induction false} FullDiffersFromIncremental(a: LocalDb, b: LocalDb, db: Db, node: Id, since: int, since': int, window: int, window': int,
                                   full: Response, incremental: Response)
    requires Keyed(db)
    requires Answers(full, db, node, since, window) && full.fullResync
    requires Answers(incremental, db, node, since', window') && !incremental.fullResync
    ensures Plan(a, full) != Plan(b, incremental) <==>
            since' > 0 && exists ref <- Desired(db, node) :: ref in db.tombstones && db.tombstones[ref] > since'
  {
    AnswerApplied(a, db, node, since, window, full);
    AnswerApplied(b, db, node, since', window', incremental);
    assert forall ref :: ref !in full.tombstones;
    assert Bury(Stored(Desired(db, node)), full.tombstones) == Stored(Desired(db, node));
    assert forall ref :: ref in incremental.tombstones <==> ref in TombstonesSince(db, since');
  }

  // ---------- runs ----------

  /** `run` is every Hub transaction so far, `sent` every response ever put on a channel, and
      `agent` the local database of the node under study. */
  datatype Sys = Sys(run: seq<Mutation>, sent: set<Response>, agent: LocalDb)

  function HubAt(labels: map<Id, Labels>, s: Sys): Db {
    Replay(Fresh(labels), s.run, |s.run|)
  }

  ghost predicate Init(s: Sys) {
    s == Sys([], {}, LocalDb(map[], 0))
  }

  /** The transaction does not make a tombstoned object live again. */
  ghost predicate KeepsGraves(db: Db, m: Mutation) {
    Admissible(db, m) ==> FreshId(db, m)
  }

  ghost predicate MutateStep(labels: map<Id, Labels>, s: Sys, s': Sys) {
    exists m :: KeepsGraves(HubAt(labels, s), m) && s' == s.(run := s.run + [m])
  }

  /** The k-th read of the response saw the database after `times(k)` transactions. */
  function ReadsAt(labels: map<Id, Labels>, run: seq<Mutation>, times: nat -> nat): nat -> Db {
    (k: nat) => Replay(Fresh(labels), run, Clamp(times(k), run))
  }

  ghost predicate Ordered(times: nat -> nat) {
    forall i: nat, j: nat | i <= j :: times(i) <= times(j)
  }

  /** A response that ends now; its reads may reach back over any number of transactions. */
  ghost predicate CanSend(labels: map<Id, Labels>, node: Id, run: seq<Mutation>, r: Response) {
    exists times: nat -> nat, last: nat, since, window ::
      Ordered(times) && last > 0 && Produced(r, ReadsAt(labels, run, times), last, node, since, window)
  }

  ghost predicate RespondStep(labels: map<Id, Labels>, node: Id, s: Sys, s': Sys) {
    exists r :: CanSend(labels, node, s.run, r) && s' == s.(sent := s.sent + {r})
  }

  /** The Agent's database after a delivery whose transaction commits, if it can. */
  function Applied(a: LocalDb, r: Response): LocalDb {
    if Plan(a, r).Some? then Plan(a, r).value else a
  }

  /** Any response sent before may arrive, now or again; its transaction may fail. */
  ghost predicate DeliverStep(s: Sys, s': Sys) {
    s' == s || exists r <- s.sent :: s' == s.(agent := Applied(s.agent, r))
  }

  ghost predicate Next(labels: map<Id, Labels>, node: Id, s: Sys, s': Sys) {
    MutateStep(labels, s, s') || RespondStep(labels, node, s, s') || DeliverStep(s, s')
  }

  ghost predicate Behavior(labels: map<Id, Labels>, node: Id, b: seq<Sys>) {
    |b| > 0 && Init(b[0]) && forall i | 0 <= i < |b| - 1 :: Next(labels, node, b[i], b[i + 1])
  }

  // ---------- the invariant ----------

  ghost predicate HubSound(labels: map<Id, Labels>, run: seq<Mutation>) {
    forall n: nat | n <= |run| :: DbSound(labels, Replay(Fresh(labels), run, n))
  }

  ghost predicate DbSound(labels: map<Id, Labels>, db: Db) {
    Keyed(db) && Buried(db) && labels.Keys == db.labels.Keys
  }

  /** A response never runs ahead of the Hub, and one with the Hub's revision is its exact answer. */
  ghost predicate ResponseSound(r: Response, hub: Db, node: Id) {
    && r.globalRev <= hub.revision
    && (r.globalRev == hub.revision ==> exists since, window :: Answers(r, hub, node, since, window))
  }

  ghost predicate AgentSound(a: LocalDb, hub: Db, node: Id)
    requires node in hub.labels
  {
    a.revision <= hub.revision && (a.revision == hub.revision ==> a.rows == Stored(Desired(hub, node)))
  }

  ghost predicate Inv(labels: map<Id, Labels>, node: Id, s: Sys) {
    && node in labels
    && HubSound(labels, s.run)
    && DbSound(labels, HubAt(labels, s))
    && (forall r <- s.sent :: ResponseSound(r, HubAt(labels, s), node))
    && AgentSound(s.agent, HubAt(labels, s), node)
  }

  lemma TransactSound(labels: map<Id, Labels>, db: Db, m: Mutation)
    requires DbSound(labels, db) && KeepsGraves(db, m)
    ensures DbSound(labels, Transact(db, m))
  {
  }

  lemma {:induction false} ReplayPrefix(start: Db, run: seq<Mutation>, m: Mutation, n: nat)
    requires n <= |run|
    ensures Replay(start, run + [m], n) == Replay(start, run, n)
  {
    if n > 0 {
      ReplayPrefix(start, run, m, n - 1);
    }
  }

  lemma MutateInv(labels: map<Id, Labels>, node: Id, s: Sys, s': Sys)
    requires Inv(labels, node, s) && MutateStep(labels, s, s')
    ensures Inv(labels, node, s')
  {
    var m :| KeepsGraves(HubAt(labels, s), m) && s' == s.(run := s.run + [m]);
    ExtendedRun(labels, s.run, m);
    TransactRevision(HubAt(labels, s), m);
    MovedHub(HubAt(labels, s), HubAt(labels, s'), node, s);
  }

  lemma ExtendedRun(labels: map<Id, Labels>, run: seq<Mutation>, m: Mutation)
    requires HubSound(labels, run) && KeepsGraves(Replay(Fresh(labels), run, |run|), m)
    ensures HubSound(labels, run + [m])
    ensures Replay(Fresh(labels), run + [m], |run| + 1) == Transact(Replay(Fresh(labels), run, |run|), m)
    ensures DbSound(labels, Replay(Fresh(labels), run + [m], |run| + 1))
  {
    hide DbSound, KeepsGraves, Transact;
    forall n: nat | n <= |run| ensures DbSound(labels, Replay(Fresh(labels), run + [m], n)) {
      ReplayPrefix(Fresh(labels), run, m, n);
    }
    ReplayPrefix(Fresh(labels), run, m, |run|);
    TransactSound(labels, Replay(Fresh(labels), run, |run|), m);
  }

  /** What holds against a Hub holds against its successor: same state, or a larger revision. */
  lemma MovedHub(hub: Db, hub': Db, node: Id, s: Sys)
    requires node in hub.labels && node in hub'.labels
    requires hub.revision <= hub'.revision && (hub'.revision == hub.revision ==> hub' == hub)
    requires forall r <- s.sent :: ResponseSound(r, hub, node)
    requires AgentSound(s.agent, hub, node)
    ensures forall r <- s.sent :: ResponseSound(r, hub', node)
    ensures AgentSound(s.agent, hub', node)
  {
  }

  lemma ReadBetween(start: Db, run: seq<Mutation>, first: nat, later: nat)
    requires first <= later <= |run|
    ensures Replay(start, run, first).revision <= Replay(start, run, |run|).revision
    ensures Replay(start, run, first).revision == Replay(start, run, |run|).revision
            ==> Replay(start, run, later) == Replay(start, run, first) == Replay(start, run, |run|)
  {
    RevisionNamesState(start, run, first, |run|);
    RevisionNamesState(start, run, first, later);
    RevisionNamesState(start, run, later, |run|);
  }

  function Clamp(t: nat, run: seq<Mutation>): (r: nat)
    ensures r <= |run|
  {
    if t <= |run| then t else |run|
  }

  /** If the revision read first is still the Hub's, no read was torn. */
  lemma UntornReads(labels: map<Id, Labels>, run: seq<Mutation>, times: nat -> nat, last: nat)
    requires Ordered(times) && last > 0
    ensures ReadsAt(labels, run, times)(0).revision <= Replay(Fresh(labels), run, |run|).revision
    ensures ReadsAt(labels, run, times)(0).revision == Replay(Fresh(labels), run, |run|).revision ==>
              && Still(ReadsAt(labels, run, times), 0, last)
              && ReadsAt(labels, run, times)(0) == Replay(Fresh(labels), run, |run|)
  {
    hide Transact;
    var at := ReadsAt(labels, run, times);
    ReadBetween(Fresh(labels), run, Clamp(times(0), run), Clamp(times(0), run));
    forall k: nat | k < last && at(0).revision == Replay(Fresh(labels), run, |run|).revision
      ensures at(k) == at(0)
    {
      assert times(0) <= times(k);
      ReadBetween(Fresh(labels), run, Clamp(times(0), run), Clamp(times(k), run));
    }
  }

  lemma ProducedSound(labels: map<Id, Labels>, node: Id, run: seq<Mutation>, times: nat -> nat, last: nat, since: int, window: int,
                      r: Response)
    requires Ordered(times) && last > 0 && Produced(r, ReadsAt(labels, run, times), last, node, since, window)
    ensures ResponseSound(r, Replay(Fresh(labels), run, |run|), node)
  {
    UntornReads(labels, run, times, last);
  }

  lemma SentSound(labels: map<Id, Labels>, node: Id, run: seq<Mutation>, r: Response)
    requires CanSend(labels, node, run, r)
    ensures ResponseSound(r, Replay(Fresh(labels), run, |run|), node)
  {
    hide Produced, Ordered, ResponseSound;
    var times: nat -> nat, last: nat, since, window :|
      Ordered(times) && last > 0 && Produced(r, ReadsAt(labels, run, times), last, node, since, window);
    ProducedSound(labels, node, run, times, last, since, window, r);
  }

  lemma RespondInv(labels: map<Id, Labels>, node: Id, s: Sys, s': Sys)
    requires Inv(labels, node, s) && RespondStep(labels, node, s, s')
    ensures Inv(labels, node, s')
  {
    var r :| CanSend(labels, node, s.run, r) && s' == s.(sent := s.sent + {r});
    SentSound(labels, node, s.run, r);
    AddSound(s.sent, r, HubAt(labels, s), node);
  }

  lemma AddSound(sent: set<Response>, r: Response, hub: Db, node: Id)
    requires ResponseSound(r, hub, node) && forall q <- sent :: ResponseSound(q, hub, node)
    ensures forall q <- sent + {r} :: ResponseSound(q, hub, node)
  {
  }

  lemma DeliverySound(a: LocalDb, r: Response, labels: map<Id, Labels>, hub: Db, node: Id)
    requires DbSound(labels, hub) && node in labels && ResponseSound(r, hub, node)
    requires Plan(a, r).Some?
    ensures AgentSound(Plan(a, r).value, hub, node)
  {
    assert Plan(a, r).value.revision == r.globalRev;
    if r.globalRev == hub.revision {
      var since, window :| Answers(r, hub, node, since, window);
      AnswerApplied(a, hub, node, since, window, r);
    }
  }

  lemma DeliverInv(labels: map<Id, Labels>, node: Id, s: Sys, s': Sys)
    requires Inv(labels, node, s) && DeliverStep(s, s')
    ensures Inv(labels, node, s')
  {
    if s' != s {
      var r :| r in s.sent && s' == s.(agent := Applied(s.agent, r));
      if Plan(s.agent, r).Some? {
        DeliverySound(s.agent, r, labels, HubAt(labels, s), node);
      }
    }
  }

  lemma {:induction false} BehaviorInv(labels: map<Id, Labels>, node: Id, b: seq<Sys>, n: nat)
    requires node in labels && Behavior(labels, node, b) && n < |b|
    ensures Inv(labels, node, b[n])
  {
    if n == 0 {
      assert Desired(Fresh(labels), node) == map[];
    } else {
      BehaviorInv(labels, node, b, n - 1);
      assert Next(labels, node, b[n - 1], b[n]);
      if MutateStep(labels, b[n - 1], b[n]) {
        MutateInv(labels, node, b[n - 1], b[n]);
      } else if RespondStep(labels, node, b[n - 1], b[n]) {
        RespondInv(labels, node, b[n - 1], b[n]);
      } else {
        DeliverInv(labels, node, b[n - 1], b[n]);
      }
    }
  }

  /** The point of the protocol. In every reachable state, an Agent that stores the Hub's current
      revision stores exactly the node's current desired state, although each response was read
      table by table with transactions in between and may arrive late, twice or never. */
  lemma {:induction false} RevisionMeansInSync(labels: map<Id, Labels>, node: Id, b: seq<Sys>, n: nat)
    requires node in labels && Behavior(labels, node, b) && n < |b|
    ensures node in HubAt(labels, b[n]).labels
    ensures b[n].agent.revision <= HubAt(labels, b[n]).revision
    ensures b[n].agent.revision == HubAt(labels, b[n]).revision ==> b[n].agent.rows == Stored(Desired(HubAt(labels, b[n]), node))
  {
    BehaviorInv(labels, node, b, n);
  }

  /** One exchange with no transaction in between suffices, from any state of the Agent. */
  lemma {:induction false} QuietExchangeSyncs(labels: map<Id, Labels>, node: Id, b: seq<Sys>, n: nat, since: int, window: int, r: Response)
    requires node in labels && Behavior(labels, node, b) && n < |b|
    requires Answers(r, HubAt(labels, b[n]), node, since, window)
    ensures Plan(b[n].agent, r) == Some(LocalDb(Stored(Desired(HubAt(labels, b[n]), node)), HubAt(labels, b[n]).revision))
  {
    BehaviorInv(labels, node, b, n);
    AnswerApplied(b[n].agent, HubAt(labels, b[n]), node, since, window, r);
  }

  /** The callers of HubRuns.Careful satisfy the side condition of these runs. */
  lemma {:induction false} CarefulKeepsGraves(labels: map<Id, Labels>, run: seq<Mutation>, n: nat)
    requires n < |run| && HonestReads(Fresh(labels), run)
    requires CarefulRun(Fresh(labels), run)
    ensures KeepsGraves(Replay(Fresh(labels), run, n), run[n])
  {
    DeletedStaysDeleted(labels, run, n);
    RunConsistent(labels, run, n);
  }

  /** The run of ResurrectedObjectIsLost. */
  function Resurrection(node: Id, o: Object): seq<Mutation> {
    [SetLabels(node, map[]), Delete(RefOf(o)), Create(o), Assign(o.id, [node], true, 1)]
  }

  lemma ResurrectionRuns(node: Id, o: Object)
    requires o.def.ApplicationDef?
    ensures var hub := Replay(Fresh(map[node := map[]]), Resurrection(node, o), 4);
            && Keyed(hub) && node in hub.labels && hub.revision == 4
            && RefOf(o) in hub.tombstones && hub.tombstones[RefOf(o)] == 2
            && RefOf(o) in Desired(hub, node)
  {
    var run := Resurrection(node, o);
    var start := Fresh(map[node := map[]]);
    var one := Transact(start, run[0]);
    var two := Transact(one, run[1]);
    assert two.tombstones == map[RefOf(o) := 2] && two.objects == map[] && two.history == {} && two.revision == 2;
    var three := Transact(two, run[2]);
    assert three.objects == map[RefOf(o) := o.(revision := 1)] && three.tombstones == two.tombstones && three.revision == 3;
    var hub := Transact(three, run[3]);
    assert Replay(start, run, 1) == one;
    assert Replay(start, run, 2) == two;
    assert Replay(start, run, 3) == three;
    assert Replay(start, run, 4) == hub;
    assert node in [node];
    assert (o.id, node) in hub.assignments;
  }

  /** The side condition is needed: an application deleted before it was ever created, then created
      and assigned, is removed again by an Agent that asks from before the delete, and that Agent
      still stores the Hub's revision. */
  lemma {:induction false} ResurrectedObjectIsLost(node: Id, o: Object, r: Response, a: LocalDb)
    requires o.def.ApplicationDef?
    requires Answers(r, Replay(Fresh(map[node := map[]]), Resurrection(node, o), 4), node, 1, 5000)
    ensures var hub := Replay(Fresh(map[node := map[]]), Resurrection(node, o), 4);
            && Plan(a, r).Some?
            && Plan(a, r).value.revision == hub.revision
            && RefOf(o) in Desired(hub, node)
            && RefOf(o) !in Plan(a, r).value.rows
  {
    ResurrectionRuns(node, o);
    var hub := Replay(Fresh(map[node := map[]]), Resurrection(node, o), 4);
    AnswerApplied(a, hub, node, 1, 5000, r);
    assert RefOf(o) in r.tombstones;
  }
}
