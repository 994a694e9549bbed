/** deploy, rollback and crash recovery on one machine. Every effect is one step of a trace, and a
    crash may leave the machine in any world of the trace. */
module Deployment {
  import opened Models
  import opened DeploymentPaths

  datatype Phase = Preparing | Stopped | Replaced | Started | Verifying | Done | RollingBack

  /** A row of the deployments table; an empty path means that no backup was recorded. */
  datatype Row = Row(appId: Id, phase: Phase, backup: Path, backupConfig: Path, backupUnit: Path)

  /** Everything that survives a crash, and the service flag. `files` is the host, `store` the
      Agent's backup directory. */
  datatype World = World(files: map<Path, Content>, store: map<Path, Content>, journal: map<Id, Row>, running: bool)

  /** The world now, and every world there has been since the trace began, this one included. */
  datatype Trace = Trace(w: World, past: seq<World>)

  function Begin(w: World): Trace {
    Trace(w, [w])
  }

  function Go(t: Trace, next: World): (r: Trace)
    ensures t.past <= r.past
  {
    Trace(next, t.past + [next])
  }

  function Journal(t: Trace, id: Id, row: Row): Trace {
    Go(t, t.w.(journal := t.w.journal[id := row]))
  }

  /** The row `id` in a new phase. */
  function Mark(t: Trace, id: Id, phase: Phase): Trace
    requires id in t.w.journal
  {
    Journal(t, id, t.w.journal[id].(phase := phase))
  }

  function Keep(t: Trace, name: Path, data: Content): Trace {
    Go(t, t.w.(store := t.w.store[name := data]))
  }

  function Write(t: Trace, path: Path, data: Content): Trace {
    Go(t, t.w.(files := t.w.files[path := data]))
  }

  function Service(t: Trace, running: bool): Trace {
    Go(t, t.w.(running := running))
  }

  // ---------- rollback ----------

  function Targets(p: Paths): seq<Path> {
    [p.binary, p.config, p.unit]
  }

  /** Which of the three restoring writes the host accepts. */
  datatype Writes = Writes(binary: bool, config: bool, unit: bool)

  const ALL := Writes(true, true, true)

  /** A file is written back if its backup is recorded and exists. */
  predicate Readable(store: map<Path, Content>, path: Path, backup: Path) {
    path != "" && backup != "" && backup in store
  }

  function Copy(files: map<Path, Content>, store: map<Path, Content>, path: Path, backup: Path): map<Path, Content> {
    if Readable(store, path, backup) then files[path := store[backup]] else files
  }

  function WriteBack(t: Trace, path: Path, backup: Path, accepted: bool): (r: Trace)
    ensures t.past <= r.past
    ensures r.w == t.w.(files := if accepted then Copy(t.w.files, t.w.store, path, backup) else t.w.files)
  {
    if accepted && Readable(t.w.store, path, backup) then Write(t, path, t.w.store[backup]) else t
  }

  /** A unit file is not written atomically: it may hold `part` for a moment. */
  function WriteBackUnit(t: Trace, path: Path, backup: Path, accepted: bool, part: Content): (r: Trace)
    ensures t.past <= r.past
    ensures r.w == t.w.(files := if accepted then Copy(t.w.files, t.w.store, path, backup) else t.w.files)
  {
    if accepted && Readable(t.w.store, path, backup) then Write(Write(t, path, part), path, t.w.store[backup]) else t
  }

  function Undo(t: Trace, j: Row, p: Paths, undo: Writes, part: Content): (r: Trace)
    ensures t.past <= r.past && r.w.store == t.w.store && r.w.journal == t.w.journal
    ensures r.w.files == Undone(t.w, j, p, undo)
  {
    var t0 := Service(t, false);
    if j.backup == "" then t0
    else
      var t1 := WriteBack(t0, p.binary, j.backup, undo.binary);
      var t2 := WriteBack(t1, p.config, j.backupConfig, undo.config);
      var t3 := WriteBackUnit(t2, p.unit, j.backupUnit, undo.unit, part);
      Service(t3, undo.binary && Readable(t3.w.store, p.binary, j.backup))
  }

  /** The files of a rollback after its binary, after its config and after its unit. */
  function UndoneBinary(w: World, j: Row, p: Paths, undo: Writes): map<Path, Content> {
    if undo.binary then Copy(w.files, w.store, p.binary, j.backup) else w.files
  }

  function UndoneConfig(w: World, j: Row, p: Paths, undo: Writes): map<Path, Content> {
    var files := UndoneBinary(w, j, p, undo);
    if undo.config then Copy(files, w.store, p.config, j.backupConfig) else files
  }

  function UndoneUnit(w: World, j: Row, p: Paths, undo: Writes): map<Path, Content> {
    var files := UndoneConfig(w, j, p, undo);
    if undo.unit then Copy(files, w.store, p.unit, j.backupUnit) else files
  }

  /** The files after a rollback. */
  function Undone(w: World, j: Row, p: Paths, undo: Writes): map<Path, Content> {
    if j.backup == "" then w.files else UndoneUnit(w, j, p, undo)
  }

  // ---------- recovery ----------

  /** Recovery skips a row whose phase is DONE or ROLLING_BACK. */
  predicate LeftAlone(j: Row) {
    j.phase == Done || j.phase == RollingBack
  }

  /** A row of the recovery query, with the files its stored definition names, the restoring writes the
      host accepts, and what the unit file holds for a moment. */
  datatype Item = Item(id: Id, p: Paths, undo: Writes, part: Content)

  /** One row of RecoverDeployments. The row is marked even if a restoring write was refused. */
  function RecoverRow(t: Trace, item: Item): (r: Trace)
    requires item.id in t.w.journal
    ensures t.past <= r.past && r.w.store == t.w.store
    ensures LeftAlone(t.w.journal[item.id]) ==> r == t
    ensures !LeftAlone(t.w.journal[item.id]) ==>
              && r.w.files == Undone(t.w, t.w.journal[item.id], item.p, item.undo)
              && r.w.journal == t.w.journal[item.id := t.w.journal[item.id].(phase := RollingBack)]
  {
    if LeftAlone(t.w.journal[item.id]) then t
    else Mark(Undo(t, t.w.journal[item.id], item.p, item.undo, item.part), item.id, RollingBack)
  }

  ghost predicate Known(items: seq<Item>, w: World) {
    forall i | 0 <= i < |items| :: items[i].id in w.journal
  }

  /** The loop of RecoverDeployments over its first `n` rows. */
  function Recover(t: Trace, items: seq<Item>, n: nat): (r: Trace)
    requires n <= |items| && Known(items, t.w)
    ensures t.past <= r.past && r.w.journal.Keys == t.w.journal.Keys && r.w.store == t.w.store
  {
    if n == 0 then t
    else
      var before := Recover(t, items, n - 1);
      RecoverRow(before, items[n - 1])
  }

  // ---------- deploy ----------

  /** How far InstallUnit got: the file is not written atomically, so it may hold `part`; afterwards
      the daemon is reloaded. */
  datatype UnitWrite = NotWritten | Torn(part: Content) | NotReloaded(part: Content) | Installed(part: Content)

  /** What each backup holds for a moment: backups are not written atomically either. */
  datatype Halves = Halves(binary: Content, config: Content, unit: Content)

  /** Which of the host's answers a run of deploy gets. Reading the files to back up and writing the
      backups and the journal succeed. */
  datatype Luck = Luck(journal: bool, cacheReady: bool, prefetch: bool, unitNameOk: bool, halves: Halves, readArtifact: bool,
                       install: bool, config: bool, unit: UnitWrite, reload: bool, enable: bool, start: bool, healthy: bool,
                       undo: Writes, undoPart: Content)

  /** What is to be deployed: the request, its files, the artifact and the text of the unit. */
  datatype Plan = Plan(req: Request, p: Paths, artifact: Content, unitText: Content)

  /** The checks deploy makes before it touches the host. */
  predicate Accepted(plan: Plan, luck: Luck) {
    && (plan.req.artifactUrl != "" ==> plan.req.artifactSha != "" && luck.cacheReady && luck.prefetch)
    && luck.unitNameOk && plan.p.binary != ""
  }

  /** The run comes as far as the first write to the host. */
  predicate Ready(plan: Plan, luck: Luck) {
    luck.journal && Accepted(plan, luck) && (plan.req.artifactUrl != "" ==> luck.readArtifact)
  }

  predicate BinaryPassed(plan: Plan, luck: Luck) {
    plan.req.artifactUrl == "" || luck.install
  }

  predicate ConfigPassed(plan: Plan, luck: Luck) {
    BinaryPassed(plan, luck) && (plan.req.config == "" || luck.config)
  }

  predicate Written(plan: Plan, luck: Luck) {
    ConfigPassed(plan, luck) && luck.unit.Installed?
  }

  predicate CameUp(luck: Luck) {
    luck.reload && luck.enable && luck.start && luck.healthy
  }

  predicate Succeeds(plan: Plan, luck: Luck) {
    Ready(plan, luck) && Written(plan, luck) && CameUp(luck)
  }

  function FirstRow(plan: Plan): Row {
    Row(plan.req.appId, Preparing, "", "", "")
  }

  /** What a deployment over `files` records before it writes anything. */
  function BackupRow(plan: Plan, files: map<Path, Content>, names: Paths): Row {
    if plan.p.binary !in files then FirstRow(plan)
    else Row(plan.req.appId, Stopped, names.binary, if plan.p.config in files then names.config else "",
             if plan.p.unit in files then names.unit else "")
  }

  function KeepFile(t: Trace, path: Path, name: Path, half: Content): (r: Trace)
    ensures t.past <= r.past && r.w == t.w.(store := Kept(t.w.store, t.w.files, path, name))
  {
    if path in t.w.files then
      assert t.w.store[name := half][name := t.w.files[path]] == t.w.store[name := t.w.files[path]];
      Keep(Keep(t, name, half), name, t.w.files[path])
    else t
  }

  function Kept(store: map<Path, Content>, files: map<Path, Content>, path: Path, name: Path): map<Path, Content> {
    if path in files then store[name := files[path]] else store
  }

  function BackupStore(w: World, p: Paths, names: Paths): map<Path, Content> {
    if p.binary !in w.files then w.store
    else Kept(Kept(Kept(w.store, w.files, p.binary, names.binary), w.files, p.config, names.config), w.files, p.unit, names.unit)
  }

  /** Stops the old service and keeps what is about to be overwritten. */
  function BackUp(t: Trace, id: Id, plan: Plan, names: Paths, halves: Halves): (r: Trace)
    requires id in t.w.journal && t.w.journal[id] == FirstRow(plan)
    ensures t.past <= r.past && r.w.files == t.w.files && r.w.store == BackupStore(t.w, plan.p, names)
    ensures r.w.journal == t.w.journal[id := BackupRow(plan, t.w.files, names)]
  {
    if plan.p.binary !in t.w.files then t
    else
      var t1 := Journal(t, id, FirstRow(plan).(phase := Stopped, backup := names.binary));
      var t2 := KeepFile(t1, plan.p.binary, names.binary, halves.binary);
      var t3 := KeepFile(t2, plan.p.config, names.config, halves.config);
      var t4 := KeepFile(t3, plan.p.unit, names.unit, halves.unit);
      var t5 := Service(t4, false);
      if plan.p.config in t.w.files || plan.p.unit in t.w.files then Journal(t5, id, BackupRow(plan, t.w.files, names)) else t5
  }

  function Put<K, V>(m: map<K, V>, present: bool, key: K, value: V): map<K, V> {
    if present then m[key := value] else m
  }

  predicate WritesBinary(plan: Plan, luck: Luck) {
    plan.req.artifactUrl != "" && luck.install
  }

  predicate WritesConfig(plan: Plan, luck: Luck) {
    BinaryPassed(plan, luck) && plan.req.config != "" && luck.config
  }

  /** The files when deploy stops writing them. */
  function FilesReached(files: map<Path, Content>, plan: Plan, luck: Luck): map<Path, Content> {
    var a := Put(files, WritesBinary(plan, luck), plan.p.binary, plan.artifact);
    var b := Put(a, WritesConfig(plan, luck), plan.p.config, plan.req.config);
    Put(b, ConfigPassed(plan, luck) && !luck.unit.NotWritten?, plan.p.unit, if luck.unit.Torn? then luck.unit.part else plan.unitText)
  }

  /** The files as a successful deployment leaves them. */
  function Deployed(files: map<Path, Content>, plan: Plan): map<Path, Content> {
    var a := Put(files, plan.req.artifactUrl != "", plan.p.binary, plan.artifact);
    Put(Put(a, plan.req.config != "", plan.p.config, plan.req.config), true, plan.p.unit, plan.unitText)
  }

  function InstallUnit(t: Trace, path: Path, text: Content, unit: UnitWrite): (r: Trace)
    ensures t.past <= r.past
    ensures r.w == t.w.(files := Put(t.w.files, !unit.NotWritten?, path, if unit.Torn? then unit.part else text))
  {
    match unit
    case NotWritten => t
    case Torn(part) => Write(t, path, part)
    case _ => Write(Write(t, path, unit.part), path, text)
  }

  function InstallBinary(t: Trace, id: Id, plan: Plan, luck: Luck): (r: Trace)
    requires id in t.w.journal
    ensures t.past <= r.past && id in r.w.journal
  {
    if WritesBinary(plan, luck) then Mark(Write(t, plan.p.binary, plan.artifact), id, Replaced) else t
  }

  /** The new binary, config and unit, up to the first refusal. */
  function WriteFiles(t: Trace, id: Id, plan: Plan, luck: Luck): (r: Trace)
    requires id in t.w.journal
    ensures t.past <= r.past && r.w.store == t.w.store && r.w.files == FilesReached(t.w.files, plan, luck) && id in r.w.journal
    ensures r.w.journal == t.w.journal[id := t.w.journal[id].(phase := r.w.journal[id].phase)]
    ensures r.w.journal[id].phase in {t.w.journal[id].phase, Replaced}
  {
    var t1 := InstallBinary(t, id, plan, luck);
    var t2 := if WritesConfig(plan, luck) then Write(t1, plan.p.config, plan.req.config) else t1;
    if ConfigPassed(plan, luck) then InstallUnit(t2, plan.p.unit, plan.unitText, luck.unit) else t2
  }

  /** Reload, enable, start and health check, up to the first refusal. */
  function BringUp(t: Trace, id: Id, luck: Luck): (r: Trace)
    requires id in t.w.journal
    ensures t.past <= r.past && r.w.store == t.w.store && r.w.files == t.w.files && id in r.w.journal
    ensures r.w.journal == t.w.journal[id := t.w.journal[id].(phase := r.w.journal[id].phase)]
    ensures r.w.journal[id].phase in {t.w.journal[id].phase, Started, Verifying}
  {
    if !luck.reload || !luck.enable then t
    else
      var t1 := Mark(t, id, Started);
      if !luck.start then t1 else Mark(Service(t1, true), id, Verifying)
  }

  /** Every failure after the backup: the row is marked before anything is undone. */
  function Abort(t: Trace, id: Id, p: Paths, luck: Luck): (r: Trace)
    requires id in t.w.journal
    ensures t.past <= r.past
  {
    Undo(Mark(t, id, RollingBack), t.w.journal[id], p, luck.undo, luck.undoPart)
  }

  /** The part of deploy before its first write to the host. */
  function Open(t: Trace, id: Id, plan: Plan, names: Paths, luck: Luck): (r: Trace)
    ensures t.past <= r.past && r.w.files == t.w.files
    ensures luck.journal ==> id in r.w.journal
    ensures Ready(plan, luck) ==> r.w.store == BackupStore(t.w, plan.p, names) &&
                                  r.w.journal == t.w.journal[id := BackupRow(plan, t.w.files, names)]
  {
    if !luck.journal then t
    else
      var t1 := Journal(t, id, FirstRow(plan));
      if !Accepted(plan, luck) then Mark(t1, id, RollingBack)
      else
        var t2 := BackUp(t1, id, plan, names, luck.halves);
        if Ready(plan, luck) then t2 else Mark(t2, id, RollingBack)
  }

  /** The part of deploy that changes the host. */
  function Replace(t: Trace, id: Id, plan: Plan, luck: Luck): (r: Trace)
    requires id in t.w.journal
    ensures t.past <= r.past
  {
    var t1 := WriteFiles(t, id, plan, luck);
    var t2 := if Written(plan, luck) then BringUp(t1, id, luck) else t1;
    if Written(plan, luck) && CameUp(luck) then Mark(t2, id, Done) else Abort(t2, id, plan.p, luck)
  }

  /** One deployment, from the journal row to DONE or ROLLING_BACK. */
  function Deploy(t: Trace, id: Id, plan: Plan, names: Paths, luck: Luck): (r: Trace)
    ensures t.past <= r.past
  {
    var t1 := Open(t, id, plan, names, luck);
    if Ready(plan, luck) then Replace(t1, id, plan, luck) else t1
  }
}
