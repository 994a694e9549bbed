/** Crashes during deploy: in which worlds of a deployment recovery can still help, and exactly when
    it cannot. */
module DeploymentRuns {
  import opened Models
  import opened DeploymentPaths
  import opened Deployment
  import opened DeploymentRecovery

  /** Names made from a fresh UUID: no backup has them, and no journal row. */
  ghost predicate FreshBackup(w: World, names: Paths) {
    && Named(names)
    && names.binary !in w.store && names.config !in w.store && names.unit !in w.store
    && forall d <- w.journal :: !Touches(names, w.journal[d].backup) && !Touches(names, w.journal[d].backupConfig) &&
                                !Touches(names, w.journal[d].backupUnit)
  }

  /** The setting of every theorem here: a new deployment of three different files. */
  ghost predicate Fresh(w: World, id: Id, plan: Plan, names: Paths) {
    id !in w.journal && Named(plan.p) && FreshBackup(w, names)
  }

  /** deploy takes no backup at all when the binary did not exist. It then overwrites nothing that
      existed, except a config by an equal one. */
  predicate Covered(plan: Plan, files: map<Path, Content>) {
    plan.p.binary in files ||
    ((plan.req.config == "" || plan.p.config !in files || files[plan.p.config] == plan.req.config) && plan.p.unit !in files)
  }

  // ---------- the write-ahead invariant ----------

  /** A world in which recovery can restore the deployment. */
  predicate Safe(x: World, id: Id, orig: map<Path, Content>, p: Paths) {
    id in x.journal ==> WriteAhead(x, x.journal[id], orig, p) && Intact(x, x.journal[id], orig, p)
  }

  predicate SameBackups(j: Row, k: Row) {
    j.backup == k.backup && j.backupConfig == k.backupConfig && j.backupUnit == k.backupUnit
  }

  /** While files are replaced: the backups are recorded and kept, and what has none is untouched. */
  predicate Replacing(x: World, w: World, id: Id, plan: Plan, names: Paths) {
    && id in x.journal && SameBackups(x.journal[id], BackupRow(plan, w.files, names))
    && x.store == BackupStore(w, plan.p, names)
    && if plan.p.binary in w.files then
         plan.p.binary in x.files && (plan.p.config in w.files ==> plan.p.config in x.files) && (plan.p.unit in w.files ==> plan.p.unit in x.files)
       else Restored(x, w.files, plan.p)
  }

  function ReplacingFrom(w: World, id: Id, plan: Plan, names: Paths): World -> bool {
    x => Replacing(x, w, id, plan, names)
  }

  lemma ReplacingIsSafe(x: World, w: World, id: Id, plan: Plan, names: Paths)
    requires Replacing(x, w, id, plan, names) && Fresh(w, id, plan, names)
    ensures Safe(x, id, w.files, plan.p)
  {
  }

  /** Taking the backups passes through a half-written one of the binary. */
  predicate TearsBackup(plan: Plan, files: map<Path, Content>, luck: Luck) {
    plan.p.binary in files && luck.halves.binary != files[plan.p.binary]
  }

  /** The recorded backup of the binary is not the original, and recovery would write it back. */
  predicate Spoiled(x: World, id: Id, orig: map<Path, Content>, p: Paths) {
    && id in x.journal && x.journal[id].phase != Done && x.journal[id].phase != RollingBack && p.binary in orig
    && x.journal[id].backup != "" && x.journal[id].backup in x.store && x.store[x.journal[id].backup] != orig[p.binary]
  }

  /** While the backups are taken: the files are the original ones. */
  predicate Opening(x: World, w: World, id: Id, plan: Plan, luck: Luck) {
    && id in x.journal && x.files == w.files
    && (Intact(x, x.journal[id], w.files, plan.p) || (TearsBackup(plan, w.files, luck) && Spoiled(x, id, w.files, plan.p)))
  }

  function OpeningFrom(w: World, id: Id, plan: Plan, luck: Luck): World -> bool {
    x => Opening(x, w, id, plan, luck)
  }

  /** What all worlds of a run are, if the plan is covered. */
  predicate SafeOrSpoiled(x: World, id: Id, orig: map<Path, Content>, plan: Plan, luck: Luck) {
    Safe(x, id, orig, plan.p) || (TearsBackup(plan, orig, luck) && Spoiled(x, id, orig, plan.p))
  }

  function SafeOrSpoiledFor(id: Id, orig: map<Path, Content>, plan: Plan, luck: Luck): World -> bool {
    x => SafeOrSpoiled(x, id, orig, plan, luck)
  }

  lemma OpeningIsSafe(x: World, w: World, id: Id, plan: Plan, luck: Luck)
    requires Opening(x, w, id, plan, luck)
    ensures SafeOrSpoiled(x, id, w.files, plan, luck)
  {
  }

  /** The backup of the binary is recorded and complete; no other is recorded yet. */
  predicate Held(x: World, w: World, id: Id, plan: Plan, names: Paths) {
    && x.files == w.files && id in x.journal && plan.p.binary in w.files
    && x.journal[id] == FirstRow(plan).(phase := Stopped, backup := names.binary)
    && names.binary in x.store && x.store[names.binary] == w.files[plan.p.binary]
  }

  lemma KeepBinary(t: Trace, w: World, id: Id, plan: Plan, names: Paths, luck: Luck)
    requires Named(names) && t.w.files == w.files && id in t.w.journal && plan.p.binary in w.files
    requires t.w.journal[id] == FirstRow(plan).(phase := Stopped, backup := names.binary)
    ensures var r := KeepFile(t, plan.p.binary, names.binary, luck.halves.binary);
            Along(t, r, OpeningFrom(w, id, plan, luck)) && Held(r.w, w, id, plan, names)
  {
    var inv := OpeningFrom(w, id, plan, luck);
    var half := Keep(t, names.binary, luck.halves.binary);
    var r := KeepFile(t, plan.p.binary, names.binary, luck.halves.binary);
    GoAlong(t, t, half.w, inv);
    assert r == Keep(half, names.binary, w.files[plan.p.binary]);
    GoAlong(t, half, r.w, inv);
  }

  lemma KeepHeld(t: Trace, w: World, id: Id, plan: Plan, names: Paths, luck: Luck, path: Path, name: Path, half: Content)
    requires Held(t.w, w, id, plan, names) && name != names.binary
    ensures var r := KeepFile(t, path, name, half);
            Along(t, r, OpeningFrom(w, id, plan, luck)) && Held(r.w, w, id, plan, names)
  {
    var inv := OpeningFrom(w, id, plan, luck);
    if path in t.w.files {
      var torn := Keep(t, name, half);
      GoAlong(t, t, torn.w, inv);
      GoAlong(t, torn, KeepFile(t, path, name, half).w, inv);
    }
  }

  /** Complete backups are intact. */
  lemma BackedUpOpening(x: World, w: World, id: Id, plan: Plan, names: Paths, luck: Luck)
    requires Named(names) && id in x.journal && SameBackups(x.journal[id], BackupRow(plan, w.files, names))
    requires x.files == w.files && x.store == BackupStore(w, plan.p, names)
    ensures Opening(x, w, id, plan, luck)
  {
  }

  lemma FirstOpening(x: World, w: World, id: Id, plan: Plan, luck: Luck)
    requires id in x.journal && SameBackups(x.journal[id], FirstRow(plan)) && x.files == w.files
    ensures Opening(x, w, id, plan, luck)
  {
  }

  lemma BackUpOpening(t: Trace, w: World, id: Id, plan: Plan, names: Paths, luck: Luck)
    requires Named(names) && names.binary !in w.store && t.w == w.(journal := w.journal[id := FirstRow(plan)])
    ensures Along(t, BackUp(t, id, plan, names, luck.halves), OpeningFrom(w, id, plan, luck))
  {
    var inv := OpeningFrom(w, id, plan, luck);
    if plan.p.binary in t.w.files {
      var t1 := Journal(t, id, FirstRow(plan).(phase := Stopped, backup := names.binary));
      GoAlong(t, t, t1.w, inv);
      var t2 := KeepFile(t1, plan.p.binary, names.binary, luck.halves.binary);
      KeepBinary(t1, w, id, plan, names, luck);
      AlongJoins(t, t1, t2, inv);
      hide KeepFile, Opening, Held;
      var t3 := KeepFile(t2, plan.p.config, names.config, luck.halves.config);
      KeepHeld(t2, w, id, plan, names, luck, plan.p.config, names.config, luck.halves.config);
      AlongJoins(t, t2, t3, inv);
      var t4 := KeepFile(t3, plan.p.unit, names.unit, luck.halves.unit);
      KeepHeld(t3, w, id, plan, names, luck, plan.p.unit, names.unit, luck.halves.unit);
      AlongJoins(t, t3, t4, inv);
      var t5 := Service(t4, false);
      HeldOpening(t5.w, t4.w, w, id, plan, names, luck);
      GoAlong(t, t4, t5.w, inv);
      if plan.p.config in t.w.files || plan.p.unit in t.w.files {
        var t6 := Journal(t5, id, BackupRow(plan, t.w.files, names));
        BackedUpOpening(t6.w, w, id, plan, names, luck);
        GoAlong(t, t5, t6.w, inv);
      }
    }
  }

  lemma HeldOpening(x: World, y: World, w: World, id: Id, plan: Plan, names: Paths, luck: Luck)
    requires Held(y, w, id, plan, names) && x == y.(running := x.running)
    ensures Opening(x, w, id, plan, luck)
  {
  }

  lemma OpenOpening(w: World, id: Id, plan: Plan, names: Paths, luck: Luck)
    requires Fresh(w, id, plan, names)
    ensures Along(Begin(w), Open(Begin(w), id, plan, names, luck), OpeningFrom(w, id, plan, luck))
  {
    hide BackUp, Opening;
    var t, inv := Begin(w), OpeningFrom(w, id, plan, luck);
    if luck.journal {
      var t1 := Journal(t, id, FirstRow(plan));
      FirstOpening(t1.w, w, id, plan, luck);
      GoAlong(t, t, t1.w, inv);
      if Accepted(plan, luck) {
        var t2 := BackUp(t1, id, plan, names, luck.halves);
        BackUpOpening(t1, w, id, plan, names, luck);
        AlongJoins(t, t1, t2, inv);
        if !Ready(plan, luck) {
          BackedUpOpening(Mark(t2, id, RollingBack).w, w, id, plan, names, luck);
          GoAlong(t, t2, Mark(t2, id, RollingBack).w, inv);
        }
      } else {
        FirstOpening(Mark(t1, id, RollingBack).w, w, id, plan, luck);
        GoAlong(t, t1, Mark(t1, id, RollingBack).w, inv);
      }
    }
  }

  /** A file may be written: it has a backup, it is new, or its content stays. */
  lemma WriteReplacing(x: World, w: World, id: Id, plan: Plan, names: Paths, path: Path, data: Content)
    requires Replacing(x, w, id, plan, names) && Touches(plan.p, path)
    requires plan.p.binary in w.files || path !in w.files || w.files[path] == data
    ensures Replacing(x.(files := x.files[path := data]), w, id, plan, names)
  {
  }

  lemma PhaseReplacing(x: World, w: World, id: Id, plan: Plan, names: Paths, phase: Phase, running: bool)
    requires Replacing(x, w, id, plan, names)
    ensures Replacing(x.(journal := x.journal[id := x.journal[id].(phase := phase)]), w, id, plan, names)
    ensures Replacing(x.(running := running), w, id, plan, names)
  {
  }

  /** The worlds that writing the files passes through, one after the other. */
  function AfterBinary(w: World, plan: Plan, luck: Luck): World {
    w.(files := Put(w.files, WritesBinary(plan, luck), plan.p.binary, plan.artifact))
  }

  function AfterMark(w: World, id: Id, plan: Plan, luck: Luck): World
    requires id in w.journal
  {
    AfterBinary(w, plan, luck).(journal := Put(w.journal, WritesBinary(plan, luck), id, w.journal[id].(phase := Replaced)))
  }

  function AfterConfig(w: World, id: Id, plan: Plan, luck: Luck): World
    requires id in w.journal
  {
    var x := AfterMark(w, id, plan, luck);
    x.(files := Put(x.files, WritesConfig(plan, luck), plan.p.config, plan.req.config))
  }

  function AfterUnit(w: World, id: Id, plan: Plan, luck: Luck, text: Content): World
    requires id in w.journal
  {
    var x := AfterConfig(w, id, plan, luck);
    x.(files := x.files[plan.p.unit := text])
  }

  lemma InstallUnitAlong(t: Trace, path: Path, text: Content, unit: UnitWrite, inv: World -> bool)
    requires !unit.NotWritten? ==> inv(t.w.(files := t.w.files[path := unit.part]))
    requires !unit.NotWritten? && !unit.Torn? ==> inv(t.w.(files := t.w.files[path := text]))
    ensures Along(t, InstallUnit(t, path, text, unit), inv)
  {
    if !unit.NotWritten? {
      var half := Write(t, path, unit.part);
      GoAlong(t, t, half.w, inv);
      if !unit.Torn? {
        assert half.w.files[path := text] == t.w.files[path := text];
        GoAlong(t, half, Write(half, path, text).w, inv);
      }
    }
  }

  lemma InstallBinaryAlong(t: Trace, id: Id, plan: Plan, luck: Luck, inv: World -> bool)
    requires id in t.w.journal && inv(AfterBinary(t.w, plan, luck)) && inv(AfterMark(t.w, id, plan, luck))
    ensures Along(t, InstallBinary(t, id, plan, luck), inv) && InstallBinary(t, id, plan, luck).w == AfterMark(t.w, id, plan, luck)
  {
    if WritesBinary(plan, luck) {
      var half := Write(t, plan.p.binary, plan.artifact);
      GoAlong(t, t, half.w, inv);
      GoAlong(t, half, InstallBinary(t, id, plan, luck).w, inv);
    }
  }

  /** What holds in each of them holds along the way. */
  lemma WriteFilesAlong(t: Trace, id: Id, plan: Plan, luck: Luck, inv: World -> bool)
    requires id in t.w.journal && inv(t.w) && inv(AfterBinary(t.w, plan, luck)) && inv(AfterMark(t.w, id, plan, luck))
    requires inv(AfterConfig(t.w, id, plan, luck))
    requires ConfigPassed(plan, luck) && !luck.unit.NotWritten? ==> inv(AfterUnit(t.w, id, plan, luck, luck.unit.part))
    requires ConfigPassed(plan, luck) && !luck.unit.NotWritten? && !luck.unit.Torn? ==> inv(AfterUnit(t.w, id, plan, luck, plan.unitText))
    ensures var r := WriteFiles(t, id, plan, luck); Along(t, r, inv) && inv(r.w)
  {
    var t1 := InstallBinary(t, id, plan, luck);
    InstallBinaryAlong(t, id, plan, luck, inv);
    hide InstallBinary, AfterMark, InstallUnit, FilesReached;
    var t2 := if WritesConfig(plan, luck) then Write(t1, plan.p.config, plan.req.config) else t1;
    if t2 != t1 { GoAlong(t, t1, t2.w, inv); }
    assert t2.w == AfterConfig(t.w, id, plan, luck);
    if ConfigPassed(plan, luck) {
      InstallUnitAlong(t2, plan.p.unit, plan.unitText, luck.unit, inv);
      AlongJoins(t, t2, InstallUnit(t2, plan.p.unit, plan.unitText, luck.unit), inv);
    }
  }

  lemma AfterFacts(w: World, id: Id, plan: Plan, luck: Luck, text: Content)
    requires id in w.journal
    ensures var b, m := AfterBinary(w, plan, luck), AfterMark(w, id, plan, luck);
            var c, u := AfterConfig(w, id, plan, luck), AfterUnit(w, id, plan, luck, text);
            && b == (if WritesBinary(plan, luck) then w.(files := w.files[plan.p.binary := plan.artifact]) else w)
            && m == (if WritesBinary(plan, luck) then b.(journal := b.journal[id := w.journal[id].(phase := Replaced)]) else b)
            && c == (if WritesConfig(plan, luck) then m.(files := m.files[plan.p.config := plan.req.config]) else m)
            && u == c.(files := c.files[plan.p.unit := text]) && b.journal == w.journal
  {
  }

  lemma AfterReplacing(x: World, w: World, id: Id, plan: Plan, names: Paths, luck: Luck, text: Content)
    requires Replacing(x, w, id, plan, names) && id in x.journal && Covered(plan, w.files)
    ensures Replacing(AfterBinary(x, plan, luck), w, id, plan, names) && Replacing(AfterMark(x, id, plan, luck), w, id, plan, names)
    ensures Replacing(AfterConfig(x, id, plan, luck), w, id, plan, names)
    ensures Replacing(AfterUnit(x, id, plan, luck, text), w, id, plan, names)
  {
    hide Replacing, AfterBinary, AfterMark, AfterConfig, AfterUnit, Covered;
    AfterFacts(x, id, plan, luck, text);
    CoveredWrites(plan, w.files);
    WriteReplacing(x, w, id, plan, names, plan.p.binary, plan.artifact);
    PhaseReplacing(AfterBinary(x, plan, luck), w, id, plan, names, Replaced, true);
    if WritesConfig(plan, luck) {
      WriteReplacing(AfterMark(x, id, plan, luck), w, id, plan, names, plan.p.config, plan.req.config);
    }
    WriteReplacing(AfterConfig(x, id, plan, luck), w, id, plan, names, plan.p.unit, text);
  }

  lemma WriteFilesReplacing(t: Trace, w: World, id: Id, plan: Plan, names: Paths, luck: Luck)
    requires Replacing(t.w, w, id, plan, names) && Covered(plan, w.files)
    ensures var r := WriteFiles(t, id, plan, luck);
            Along(t, r, ReplacingFrom(w, id, plan, names)) && Replacing(r.w, w, id, plan, names)
  {
    hide Replacing, AfterBinary, AfterMark, AfterConfig, AfterUnit, WriteFiles, Covered;
    ReplacingKnown(t.w, w, id, plan, names);
    AfterReplacing(t.w, w, id, plan, names, luck, plan.unitText);
    if !luck.unit.NotWritten? { AfterReplacing(t.w, w, id, plan, names, luck, luck.unit.part); }
    WriteFilesAlong(t, id, plan, luck, ReplacingFrom(w, id, plan, names));
  }

  /** What Covered says about the three writes. */
  lemma CoveredWrites(plan: Plan, files: map<Path, Content>)
    requires Covered(plan, files)
    ensures plan.p.binary in files ||
            (plan.p.unit !in files && (plan.req.config != "" && plan.p.config in files ==> files[plan.p.config] == plan.req.config))
  {
  }

  lemma ReplacingKnown(x: World, w: World, id: Id, plan: Plan, names: Paths)
    requires Replacing(x, w, id, plan, names)
    ensures id in x.journal
  {
  }

  lemma BringUpReplacing(t: Trace, w: World, id: Id, plan: Plan, names: Paths, luck: Luck)
    requires Replacing(t.w, w, id, plan, names)
    ensures var r := BringUp(t, id, luck);
            Along(t, r, ReplacingFrom(w, id, plan, names)) && Replacing(r.w, w, id, plan, names)
  {
    var inv := ReplacingFrom(w, id, plan, names);
    if luck.reload && luck.enable {
      var t1 := Mark(t, id, Started);
      GoAlong(t, t, t1.w, inv);
      if luck.start {
        var t2 := Service(t1, true);
        GoAlong(t, t1, t2.w, inv);
        GoAlong(t, t2, Mark(t2, id, Verifying).w, inv);
      }
    }
  }

  /** Whatever a rollback writes, the files do not disappear, and without a backup it writes nothing. */
  lemma FilesReplacing(x: World, w: World, id: Id, plan: Plan, names: Paths, files: map<Path, Content>, running: bool)
    requires Replacing(x, w, id, plan, names) && (plan.p.binary in w.files || files == x.files)
    requires x.files.Keys <= files.Keys
    ensures Replacing(x.(files := files, running := running), w, id, plan, names)
  {
  }

  lemma AbortReplacing(t: Trace, w: World, id: Id, plan: Plan, names: Paths, luck: Luck)
    requires Replacing(t.w, w, id, plan, names)
    ensures Along(t, Abort(t, id, plan.p, luck), ReplacingFrom(w, id, plan, names))
  {
    var inv := ReplacingFrom(w, id, plan, names);
    var t1, j := Mark(t, id, RollingBack), t.w.journal[id];
    var x := t1.w;
    GoAlong(t, t, x, inv);
    var a, b, c := UndoneBinary(x, j, plan.p, luck.undo), UndoneConfig(x, j, plan.p, luck.undo), UndoneUnit(x, j, plan.p, luck.undo);
    forall running: bool, files | files in {x.files, a, b, c, b[plan.p.unit := luck.undoPart]} && (plan.p.binary in w.files || files == x.files)
      ensures inv(x.(files := files, running := running))
    {
      FilesReplacing(x, w, id, plan, names, files, running);
    }
    hide Replacing, UndoneBinary, UndoneConfig, UndoneUnit;
    assert j.backup != "" ==> plan.p.binary in w.files by { BackedUp(t.w, w, id, plan, names); }
    UndoAlong(t1, j, plan.p, luck.undo, luck.undoPart, inv);
    AlongJoins(t, t1, Abort(t, id, plan.p, luck), inv);
  }

  lemma BackedUp(x: World, w: World, id: Id, plan: Plan, names: Paths)
    requires Replacing(x, w, id, plan, names)
    ensures x.journal[id].backup != "" ==> plan.p.binary in w.files
  {
  }

  /** With Covered, the journal is ahead of the files in every world of every run, except while the
      recorded backup of the binary is half written. */
  lemma {:induction false} DeployIsSafe(w: World, id: Id, plan: Plan, names: Paths, luck: Luck)
    requires Fresh(w, id, plan, names) && Covered(plan, w.files)
    ensures forall x <- Deploy(Begin(w), id, plan, names, luck).past :: SafeOrSpoiled(x, id, w.files, plan, luck)
  {
    var t0 := Begin(w);
    var t1 := Open(t0, id, plan, names, luck);
    var r := Deploy(t0, id, plan, names, luck);
    var inv := SafeOrSpoiledFor(id, w.files, plan, luck);
    OpenOpening(w, id, plan, names, luck);
    OpeningAreSafe(t0, t1, w, id, plan, luck);
    if Ready(plan, luck) {
      StartsReplacing(w, id, plan, names, luck);
      ReplaceIsReplacing(t1, w, id, plan, names, luck);
      ReplacingAreSafe(t1, r, w, id, plan, names, luck);
      AlongJoins(t0, t1, r, inv);
    }
    forall x <- r.past ensures SafeOrSpoiled(x, id, w.files, plan, luck) {
      var i :| 0 <= i < |r.past| && r.past[i] == x;
      assert i == 0 ==> x == t0.past[0];
      assert i > 0 ==> inv(r.past[i]);
    }
  }

  lemma StartsReplacing(w: World, id: Id, plan: Plan, names: Paths, luck: Luck)
    requires Ready(plan, luck)
    ensures Replacing(Open(Begin(w), id, plan, names, luck).w, w, id, plan, names)
  {
  }

  lemma ReplaceIsReplacing(t: Trace, w: World, id: Id, plan: Plan, names: Paths, luck: Luck)
    requires Replacing(t.w, w, id, plan, names) && Covered(plan, w.files)
    ensures Along(t, Replace(t, id, plan, luck), ReplacingFrom(w, id, plan, names))
  {
    var inv := ReplacingFrom(w, id, plan, names);
    var t1 := WriteFiles(t, id, plan, luck);
    var t2 := if Written(plan, luck) then BringUp(t1, id, luck) else t1;
    WriteFilesReplacing(t, w, id, plan, names, luck);
    BringUpReplacing(t1, w, id, plan, names, luck);
    if t2 != t1 { AlongJoins(t, t1, t2, inv); }
    if Written(plan, luck) && CameUp(luck) {
      PhaseReplacing(t2.w, w, id, plan, names, Done, true);
      GoAlong(t, t2, Mark(t2, id, Done).w, inv);
    } else {
      AbortReplacing(t2, w, id, plan, names, luck);
      AlongJoins(t, t2, Abort(t2, id, plan.p, luck), inv);
    }
  }

  lemma OpeningAreSafe(t: Trace, r: Trace, w: World, id: Id, plan: Plan, luck: Luck)
    requires Along(t, r, OpeningFrom(w, id, plan, luck))
    ensures Along(t, r, SafeOrSpoiledFor(id, w.files, plan, luck))
  {
    forall i | |t.past| <= i < |r.past| ensures SafeOrSpoiledFor(id, w.files, plan, luck)(r.past[i]) {
      assert OpeningFrom(w, id, plan, luck)(r.past[i]);
      OpeningIsSafe(r.past[i], w, id, plan, luck);
    }
  }

  lemma ReplacingAreSafe(t: Trace, r: Trace, w: World, id: Id, plan: Plan, names: Paths, luck: Luck)
    requires Along(t, r, ReplacingFrom(w, id, plan, names)) && Fresh(w, id, plan, names)
    ensures Along(t, r, SafeOrSpoiledFor(id, w.files, plan, luck))
  {
    forall i | |t.past| <= i < |r.past| ensures SafeOrSpoiledFor(id, w.files, plan, luck)(r.past[i]) {
      assert ReplacingFrom(w, id, plan, names)(r.past[i]);
      ReplacingIsSafe(r.past[i], w, id, plan, names);
    }
  }

  // ---------- crash, then recovery ----------

  /** A crash in any world of a deployment whose row is still unfinished and whose recorded backup is
      not half written, then any number of recovery passes that crash themselves, then one that
      completes: all is as before the deployment. */
  lemma {:induction false} DeployCrashRecovers(w: World, id: Id, plan: Plan, names: Paths, luck: Luck, worlds: seq<World>, passes: seq<seq<Item>>,
                            last: seq<Item>)
    requires Fresh(w, id, plan, names) && Covered(plan, w.files)
    requires Crashes(worlds, passes, id, plan.p) && worlds[0] in Deploy(Begin(w), id, plan, names, luck).past
    requires id in worlds[0].journal && worlds[0].journal[id].phase != Done && worlds[0].journal[id].phase != RollingBack
    requires !Spoiled(worlds[0], id, w.files, plan.p)
    requires Fits(last, worlds[|passes|], id, plan.p) && Among(last, |last|, id)
    requires forall items <- passes + [last] :: Accepting(items, id)
    ensures Restored(Recover(Begin(worlds[|passes|]), last, |last|).w, w.files, plan.p)
  {
    DeployIsSafe(w, id, plan, names, luck);
    assert SafeOrSpoiled(worlds[0], id, w.files, plan, luck);
    RecoveryConverges(worlds, passes, last, id, w.files, plan.p);
  }

  /** Every crash of this run that leaves the row unfinished is repaired by recovery. */
  ghost predicate CrashesRepaired(w: World, id: Id, plan: Plan, names: Paths, luck: Luck) {
    forall x <- Deploy(Begin(w), id, plan, names, luck).past :: Repaired(x, id, w.files, plan.p)
  }

  ghost predicate Repaired(x: World, id: Id, orig: map<Path, Content>, p: Paths) {
    id in x.journal && x.journal[id].phase != Done && x.journal[id].phase != RollingBack ==>
      Restored(RecoverRow(Begin(x), Item(id, p, ALL, "")).w, orig, p)
  }

  /** A request that no run can accept: it names an artifact without a digest. */
  predicate NeverAccepted(req: Request) {
    req.artifactUrl != "" && req.artifactSha == ""
  }

  /** All goes well until the unit file, of which half is written. */
  function TornUnit(part: Content): Luck {
    Luck(true, true, true, true, Halves("", "", ""), true, true, true, Torn(part), true, true, true, true, ALL, "")
  }

  /** Covered is exactly what recovery needs: with it every crash of every run that writes the backup of
      the binary whole is repaired, and without it some run overwrites a file that existed and of which
      there is no backup. */
  lemma {:induction false} RepairedExactlyWhenCovered(w: World, id: Id, plan: Plan, names: Paths)
    requires Fresh(w, id, plan, names)
    ensures (forall luck | !TearsBackup(plan, w.files, luck) :: CrashesRepaired(w, id, plan, names, luck)) <==>
            Covered(plan, w.files) || NeverAccepted(plan.req)
  {
    if Covered(plan, w.files) {
      forall luck | !TearsBackup(plan, w.files, luck) ensures CrashesRepaired(w, id, plan, names, luck) {
        RepairedExactlyUnlessTorn(w, id, plan, names, luck);
      }
    } else if NeverAccepted(plan.req) {
      forall luck | !TearsBackup(plan, w.files, luck) ensures CrashesRepaired(w, id, plan, names, luck) {
        RefusedRepairs(w, id, plan, names, luck);
      }
    } else {
      var part := if plan.p.unit in w.files then w.files[plan.p.unit] + "x" else "x";
      UncoveredLoses(w, id, plan, names, part);
      assert !TearsBackup(plan, w.files, TornUnit(part));
      assert !CrashesRepaired(w, id, plan, names, TornUnit(part));
    }
  }

  /** The backup of the binary is recorded before it is written. A covered run contains a crash that
      recovery does not repair, but makes worse, exactly when it comes as far as writing that backup and
      the write can be seen half done. */
  lemma {:induction false} RepairedExactlyUnlessTorn(w: World, id: Id, plan: Plan, names: Paths, luck: Luck)
    requires Fresh(w, id, plan, names) && Covered(plan, w.files)
    ensures CrashesRepaired(w, id, plan, names, luck) <==>
            !(luck.journal && Accepted(plan, luck) && TearsBackup(plan, w.files, luck))
  {
    if luck.journal && Accepted(plan, luck) && TearsBackup(plan, w.files, luck) {
      var x := TornWorld(w, id, plan, names, luck);
      SpoiledLoses(x, id, w.files, plan.p);
    } else {
      forall x <- Deploy(Begin(w), id, plan, names, luck).past ensures Repaired(x, id, w.files, plan.p) {
        NotTornIsSafe(w, id, plan, names, luck, x);
        SafeIsRepaired(x, id, w.files, plan.p);
      }
    }
  }

  /** World by world: recovery repairs a crash of a covered run exactly when the recorded backup is not
      half written. */
  lemma {:induction false} CrashRepairedExactly(w: World, id: Id, plan: Plan, names: Paths, luck: Luck, x: World)
    requires Fresh(w, id, plan, names) && Covered(plan, w.files) && x in Deploy(Begin(w), id, plan, names, luck).past
    ensures Repaired(x, id, w.files, plan.p) <==> !Spoiled(x, id, w.files, plan.p)
  {
    DeployIsSafe(w, id, plan, names, luck);
    assert SafeOrSpoiled(x, id, w.files, plan, luck);
    if Spoiled(x, id, w.files, plan.p) {
      SpoiledLoses(x, id, w.files, plan.p);
    } else {
      SafeIsRepaired(x, id, w.files, plan.p);
    }
  }

  /** Recovery writes the half backup over the binary, which was never touched. */
  lemma SpoiledLoses(x: World, id: Id, orig: map<Path, Content>, p: Paths)
    requires Spoiled(x, id, orig, p) && Named(p)
    ensures !Repaired(x, id, orig, p)
  {
    RecoveryRestoresOwn(x, Item(id, p, ALL, ""), orig, p);
  }

  lemma TornWorld(w: World, id: Id, plan: Plan, names: Paths, luck: Luck) returns (x: World)
    requires Fresh(w, id, plan, names) && luck.journal && Accepted(plan, luck) && TearsBackup(plan, w.files, luck)
    ensures x in Deploy(Begin(w), id, plan, names, luck).past && Spoiled(x, id, w.files, plan.p)
  {
    hide WriteFiles, BringUp, Abort, Replace;
    var t1 := Journal(Begin(w), id, FirstRow(plan));
    var t2 := Keep(Journal(t1, id, FirstRow(plan).(phase := Stopped, backup := names.binary)), names.binary, luck.halves.binary);
    x := t2.w;
    assert x == t2.past[|t2.past| - 1] && t2.past <= BackUp(t1, id, plan, names, luck.halves).past;
    PastGrows(t2.past, BackUp(t1, id, plan, names, luck.halves).past, x);
    PastGrows(BackUp(t1, id, plan, names, luck.halves).past, Open(Begin(w), id, plan, names, luck).past, x);
    PastGrows(Open(Begin(w), id, plan, names, luck).past, Deploy(Begin(w), id, plan, names, luck).past, x);
  }

  lemma NotTornIsSafe(w: World, id: Id, plan: Plan, names: Paths, luck: Luck, x: World)
    requires Fresh(w, id, plan, names) && Covered(plan, w.files) && x in Deploy(Begin(w), id, plan, names, luck).past
    requires !(luck.journal && Accepted(plan, luck) && TearsBackup(plan, w.files, luck))
    ensures Safe(x, id, w.files, plan.p)
  {
    if TearsBackup(plan, w.files, luck) {
      hide Safe;
      RefusedIsSafe(w, id, plan, names, luck, x);
    } else {
      DeployIsSafe(w, id, plan, names, luck);
      assert SafeOrSpoiled(x, id, w.files, plan, luck);
    }
  }

  /** A run that is refused before it takes backups has at most three worlds. */
  lemma RefusedIsSafe(w: World, id: Id, plan: Plan, names: Paths, luck: Luck, x: World)
    requires Fresh(w, id, plan, names) && x in Deploy(Begin(w), id, plan, names, luck).past
    requires !luck.journal || !Accepted(plan, luck)
    ensures Safe(x, id, w.files, plan.p)
  {
  }

  lemma SafeIsRepaired(x: World, id: Id, orig: map<Path, Content>, p: Paths)
    requires Safe(x, id, orig, p) && Named(p)
    ensures Repaired(x, id, orig, p)
  {
    if id in x.journal && !LeftAlone(x.journal[id]) {
      RecoveryRestoresOwn(x, Item(id, p, ALL, ""), orig, p);
    }
  }

  lemma RefusedRepairs(w: World, id: Id, plan: Plan, names: Paths, luck: Luck)
    requires Fresh(w, id, plan, names) && !Accepted(plan, luck)
    ensures CrashesRepaired(w, id, plan, names, luck)
  {
    forall x <- Deploy(Begin(w), id, plan, names, luck).past ensures Repaired(x, id, w.files, plan.p) {
      RefusedIsSafe(w, id, plan, names, luck, x);
      SafeIsRepaired(x, id, w.files, plan.p);
    }
  }

  /** The world after the files were written is one of the run. */
  lemma StageReached(w: World, id: Id, plan: Plan, names: Paths, luck: Luck)
    requires Ready(plan, luck)
    ensures var x := WriteFiles(Open(Begin(w), id, plan, names, luck), id, plan, luck).w;
            && x in Deploy(Begin(w), id, plan, names, luck).past
            && id in x.journal && SameBackups(x.journal[id], BackupRow(plan, w.files, names)) && !LeftAlone(x.journal[id])
            && x.store == BackupStore(w, plan.p, names) && x.files == FilesReached(w.files, plan, luck)
  {
    hide Open, WriteFiles, BringUp, Abort, FilesReached, BackupStore;
    var t1 := Open(Begin(w), id, plan, names, luck);
    var t2 := WriteFiles(t1, id, plan, luck);
    OpenLive(w, id, plan, names, luck);
    WriteFilesLive(t1, id, plan, luck);
    PastGrows(t2.past, Replace(t1, id, plan, luck).past, t2.w);
  }

  lemma PastGrows(a: seq<World>, b: seq<World>, x: World)
    requires a <= b && x in a
    ensures x in b
  {
  }

  /** The last world of a trace is the world now. */
  predicate Live(t: Trace) {
    |t.past| > 0 && t.past[|t.past| - 1] == t.w
  }

  lemma OpenLive(w: World, id: Id, plan: Plan, names: Paths, luck: Luck)
    ensures Live(Open(Begin(w), id, plan, names, luck))
  {
  }

  lemma WriteFilesLive(t: Trace, id: Id, plan: Plan, luck: Luck)
    requires Live(t) && id in t.w.journal
    ensures Live(WriteFiles(t, id, plan, luck))
  {
  }

  lemma UncoveredLoses(w: World, id: Id, plan: Plan, names: Paths, part: Content)
    requires Fresh(w, id, plan, names) && !Covered(plan, w.files) && !NeverAccepted(plan.req)
    requires plan.p.unit in w.files ==> part != w.files[plan.p.unit]
    ensures exists x <- Deploy(Begin(w), id, plan, names, TornUnit(part)).past :: !Repaired(x, id, w.files, plan.p)
  {
    var luck := TornUnit(part);
    StageReached(w, id, plan, names, luck);
    var x := WriteFiles(Open(Begin(w), id, plan, names, luck), id, plan, luck).w;
    StageLost(x, w, id, plan, names, luck);
  }

  lemma StageLost(x: World, w: World, id: Id, plan: Plan, names: Paths, luck: Luck)
    requires id in x.journal && !LeftAlone(x.journal[id]) && SameBackups(x.journal[id], BackupRow(plan, w.files, names))
    requires plan.p.binary !in w.files && !Restored(x, w.files, plan.p)
    ensures !Repaired(x, id, w.files, plan.p)
  {
  }

  // ---------- the gap ----------

  /** The run is refused something after the files were first written. */
  predicate Aborts(plan: Plan, luck: Luck) {
    Ready(plan, luck) && !Succeeds(plan, luck)
  }

  /** Undoing a run passes through a half-written unit file. */
  predicate TearsUnit(plan: Plan, files: map<Path, Content>, luck: Luck) {
    plan.p.binary in files && plan.p.unit in files && luck.undo.unit && luck.undoPart != files[plan.p.unit]
  }

  /** Recovery will skip the row, although the files are not the original ones. */
  predicate Abandoned(x: World, id: Id, orig: map<Path, Content>, p: Paths) {
    id in x.journal && x.journal[id].phase == RollingBack && !Restored(x, orig, p)
  }

  function NotAbandoned(id: Id, orig: map<Path, Content>, p: Paths): World -> bool {
    x => !Abandoned(x, id, orig, p)
  }

  /** An abandoned world is beyond repair: no recovery pass, complete or cut short, and no number of
      them, changes the files of the deployment. */
  lemma {:induction false} AbandonedForGood(x: World, worlds: seq<World>, passes: seq<seq<Item>>, n: nat, id: Id, orig: map<Path, Content>, p: Paths)
    requires Abandoned(x, id, orig, p) && Crashes(worlds, passes, id, p) && worlds[0] == x && n < |worlds|
    ensures Abandoned(worlds[n], id, orig, p)
  {
    SkippedIsFinal(worlds, passes, n, id, p);
  }

  /** The files of `p` that were in `orig` are in `files`, unchanged. */
  predicate Same(files: map<Path, Content>, orig: map<Path, Content>, p: Paths) {
    Back(files, orig, p.binary) && Back(files, orig, p.config) && Back(files, orig, p.unit)
  }

  /** Nothing is abandoned before the files are replaced, whatever the host answers. */
  lemma OpenNotAbandoned(w: World, id: Id, plan: Plan, names: Paths, luck: Luck)
    requires Fresh(w, id, plan, names)
    ensures forall x <- Open(Begin(w), id, plan, names, luck).past :: !Abandoned(x, id, w.files, plan.p)
  {
    OpenOpening(w, id, plan, names, luck);
    var r := Open(Begin(w), id, plan, names, luck);
    forall x <- r.past ensures !Abandoned(x, id, w.files, plan.p) {
      var i :| 0 <= i < |r.past| && r.past[i] == x;
      assert i == 0 ==> x == Begin(w).past[0];
      assert i > 0 ==> OpeningFrom(w, id, plan, luck)(r.past[i]);
    }
  }

  /** Nor while the row reads another phase. */
  predicate Phased(x: World, id: Id) {
    id in x.journal && x.journal[id].phase != RollingBack
  }

  function PhasedFor(id: Id): World -> bool {
    x => Phased(x, id)
  }

  lemma ReplaceUpTo(t: Trace, id: Id, plan: Plan, luck: Luck)
    requires Phased(t.w, id)
    ensures var t1 := WriteFiles(t, id, plan, luck);
            var t2 := if Written(plan, luck) then BringUp(t1, id, luck) else t1;
            Along(t, t2, PhasedFor(id)) && Phased(t2.w, id)
  {
    WriteFilesPhased(t, id, plan, luck);
    var t1 := WriteFiles(t, id, plan, luck);
    if Written(plan, luck) {
      BringUpPhased(t1, id, luck);
      AlongJoins(t, t1, BringUp(t1, id, luck), PhasedFor(id));
    }
  }

  lemma WriteFilesPhased(t: Trace, id: Id, plan: Plan, luck: Luck)
    requires Phased(t.w, id)
    ensures Along(t, WriteFiles(t, id, plan, luck), PhasedFor(id)) && Phased(WriteFiles(t, id, plan, luck).w, id)
  {
    WriteFilesAlong(t, id, plan, luck, PhasedFor(id));
  }

  lemma BringUpPhased(t: Trace, id: Id, luck: Luck)
    requires Phased(t.w, id)
    ensures Along(t, BringUp(t, id, luck), PhasedFor(id)) && Phased(BringUp(t, id, luck).w, id)
  {
  }

  /** The part of a run up to the abort, or up to its success. */
  function Reached(w: World, id: Id, plan: Plan, names: Paths, luck: Luck): Trace
    requires Ready(plan, luck)
  {
    var t := WriteFiles(Open(Begin(w), id, plan, names, luck), id, plan, luck);
    if Written(plan, luck) then BringUp(t, id, luck) else t
  }

  lemma ReachedNotAbandoned(w: World, id: Id, plan: Plan, names: Paths, luck: Luck)
    requires Fresh(w, id, plan, names) && Ready(plan, luck)
    ensures var t := Reached(w, id, plan, names, luck);
            && (forall x <- t.past :: !Abandoned(x, id, w.files, plan.p)) && Live(t)
            && id in t.w.journal && t.w.journal[id].phase != RollingBack && SameBackups(t.w.journal[id], BackupRow(plan, w.files, names))
            && t.w.store == BackupStore(w, plan.p, names) && t.w.files == FilesReached(w.files, plan, luck)
            && t.past <= Deploy(Begin(w), id, plan, names, luck).past
  {
    hide Open, WriteFiles, BringUp, Abort, FilesReached, BackupStore, Restored;
    var t0 := Open(Begin(w), id, plan, names, luck);
    var t := Reached(w, id, plan, names, luck);
    OpenNotAbandoned(w, id, plan, names, luck);
    OpenLive(w, id, plan, names, luck);
    WriteFilesLive(t0, id, plan, luck);
    if Written(plan, luck) { BringUpLive(WriteFiles(t0, id, plan, luck), id, luck); }
    ReplaceUpTo(t0, id, plan, luck);
    forall x <- t.past ensures !Abandoned(x, id, w.files, plan.p) {
      var i :| 0 <= i < |t.past| && t.past[i] == x;
      if i < |t0.past| {
        assert t0.past[i] == x;
      } else {
        assert PhasedFor(id)(t.past[i]);
      }
    }
  }

  lemma BringUpLive(t: Trace, id: Id, luck: Luck)
    requires Live(t) && id in t.w.journal
    ensures Live(BringUp(t, id, luck))
  {
  }

  lemma NoGap(w: World, id: Id, plan: Plan, names: Paths, luck: Luck)
    requires Fresh(w, id, plan, names) && !Aborts(plan, luck)
    ensures forall x <- Deploy(Begin(w), id, plan, names, luck).past :: !Abandoned(x, id, w.files, plan.p)
  {
    if Ready(plan, luck) {
      ReachedNotAbandoned(w, id, plan, names, luck);
      var t := Reached(w, id, plan, names, luck);
      assert Deploy(Begin(w), id, plan, names, luck) == Mark(t, id, Done);
    } else {
      OpenNotAbandoned(w, id, plan, names, luck);
    }
  }

  lemma AbortGap(w: World, id: Id, plan: Plan, names: Paths, luck: Luck)
    requires Fresh(w, id, plan, names) && Aborts(plan, luck)
    ensures (exists x <- Deploy(Begin(w), id, plan, names, luck).past :: Abandoned(x, id, w.files, plan.p)) <==>
            !Same(FilesReached(w.files, plan, luck), w.files, plan.p) || TearsUnit(plan, w.files, luck)
  {
    hide Abandoned, Same, FilesReached, TearsUnit, Reached, Undo;
    ReachedNotAbandoned(w, id, plan, names, luck);
    var t := Reached(w, id, plan, names, luck);
    var j, marked, r := t.w.journal[id], Mark(t, id, RollingBack), Deploy(Begin(w), id, plan, names, luck);
    DeployAborts(w, id, plan, names, luck);
    if !Same(FilesReached(w.files, plan, luck), w.files, plan.p) {
      MarkedAbandoned(t, w, id, plan);
      PastGrows(marked.past, r.past, marked.w);
    } else if TearsUnit(plan, w.files, luck) {
      TornAbandoned(marked, w, id, j, plan, names, luck);
    } else {
      UndoNotAbandoned(marked, w, id, j, plan, names, luck);
      forall x <- r.past ensures !Abandoned(x, id, w.files, plan.p) {
        var i :| 0 <= i < |r.past| && r.past[i] == x;
        if i < |t.past| {
          assert t.past[i] == x;
        } else if i == |t.past| {
          assert marked.past[i] == marked.w;
        } else {
          assert NotAbandoned(id, w.files, plan.p)(r.past[i]);
        }
      }
    }
  }

  lemma DeployAborts(w: World, id: Id, plan: Plan, names: Paths, luck: Luck)
    requires Aborts(plan, luck)
    ensures var t := Reached(w, id, plan, names, luck);
            id in t.w.journal &&
            Deploy(Begin(w), id, plan, names, luck) == Undo(Mark(t, id, RollingBack), t.w.journal[id], plan.p, luck.undo, luck.undoPart)
  {
  }

  lemma MarkedAbandoned(t: Trace, w: World, id: Id, plan: Plan)
    requires id in t.w.journal && !Same(t.w.files, w.files, plan.p)
    ensures Abandoned(Mark(t, id, RollingBack).w, id, w.files, plan.p)
    ensures Mark(t, id, RollingBack).w in Mark(t, id, RollingBack).past
  {
    var r := Mark(t, id, RollingBack);
    assert r.past[|t.past|] == r.w;
  }

  /** The world of an abort when its row has just been marked. */
  predicate Marked(t: Trace, w: World, id: Id, j: Row, plan: Plan, names: Paths) {
    && id in t.w.journal && t.w.journal[id].phase == RollingBack && SameBackups(j, BackupRow(plan, w.files, names))
    && t.w.store == BackupStore(w, plan.p, names)
  }

  lemma TornAbandoned(t: Trace, w: World, id: Id, j: Row, plan: Plan, names: Paths, luck: Luck)
    requires Marked(t, w, id, j, plan, names) && Named(names) && Named(plan.p) && TearsUnit(plan, w.files, luck)
    ensures exists x <- Undo(t, j, plan.p, luck.undo, luck.undoPart).past :: Abandoned(x, id, w.files, plan.p)
  {
    var t0 := Service(t, false);
    var t1 := WriteBack(t0, plan.p.binary, j.backup, luck.undo.binary);
    var t2 := WriteBack(t1, plan.p.config, j.backupConfig, luck.undo.config);
    var half := Write(t2, plan.p.unit, luck.undoPart);
    assert half.past[|t2.past|] == half.w;
    var t3 := WriteBackUnit(t2, plan.p.unit, j.backupUnit, luck.undo.unit, luck.undoPart);
    assert half.past <= t3.past;
    PastGrows(half.past, Undo(t, j, plan.p, luck.undo, luck.undoPart).past, half.w);
  }

  lemma UndoNotAbandoned(t: Trace, w: World, id: Id, j: Row, plan: Plan, names: Paths, luck: Luck)
    requires Marked(t, w, id, j, plan, names) && Named(names) && Named(plan.p)
    requires Same(t.w.files, w.files, plan.p) && !TearsUnit(plan, w.files, luck)
    ensures Along(t, Undo(t, j, plan.p, luck.undo, luck.undoPart), NotAbandoned(id, w.files, plan.p))
    ensures !Abandoned(t.w, id, w.files, plan.p)
  {
    var x, inv := t.w, NotAbandoned(id, w.files, plan.p);
    var a, b, c := UndoneBinary(x, j, plan.p, luck.undo), UndoneConfig(x, j, plan.p, luck.undo), UndoneUnit(x, j, plan.p, luck.undo);
    UndoneSame(x, w, j, plan, names, luck);
    forall running: bool, files | Same(files, w.files, plan.p) ensures inv(x.(files := files, running := running)) {
    }
    hide Same, UndoneBinary, UndoneConfig, UndoneUnit;
    UndoAlong(t, j, plan.p, luck.undo, luck.undoPart, inv);
  }

  /** Over original files a rollback writes original files, unless it tears the unit file. */
  lemma UndoneSame(x: World, w: World, j: Row, plan: Plan, names: Paths, luck: Luck)
    requires SameBackups(j, BackupRow(plan, w.files, names)) && x.store == BackupStore(w, plan.p, names)
    requires Named(names) && Named(plan.p) && Same(x.files, w.files, plan.p)
    ensures j.backup != "" ==>
              && Same(UndoneBinary(x, j, plan.p, luck.undo), w.files, plan.p)
              && Same(UndoneConfig(x, j, plan.p, luck.undo), w.files, plan.p)
              && Same(UndoneUnit(x, j, plan.p, luck.undo), w.files, plan.p)
              && (luck.undo.unit && Readable(x.store, plan.p.unit, j.backupUnit) && !TearsUnit(plan, w.files, luck)
                  ==> Same(UndoneConfig(x, j, plan.p, luck.undo)[plan.p.unit := luck.undoPart], w.files, plan.p))
  {
    if plan.p.binary in w.files { BackupsHold(w, plan, names); }
    hide BackupStore;
  }

  lemma BackupsHold(w: World, plan: Plan, names: Paths)
    requires Named(names) && Named(plan.p) && plan.p.binary in w.files
    ensures var store := BackupStore(w, plan.p, names);
            && names.binary in store && store[names.binary] == w.files[plan.p.binary]
            && (plan.p.config in w.files ==> names.config in store && store[names.config] == w.files[plan.p.config])
            && (plan.p.unit in w.files ==> names.unit in store && store[names.unit] == w.files[plan.p.unit])
  {
  }

  /** A run of deploy contains such a world exactly when it is refused something after it has changed a
      file that existed, or when undoing it tears a unit file: the row reads ROLLING_BACK before
      anything is undone. */
  lemma {:induction false} GapExactly(w: World, id: Id, plan: Plan, names: Paths, luck: Luck)
    requires Fresh(w, id, plan, names)
    ensures (exists x <- Deploy(Begin(w), id, plan, names, luck).past :: Abandoned(x, id, w.files, plan.p)) <==>
            Aborts(plan, luck) && (!Same(FilesReached(w.files, plan, luck), w.files, plan.p) || TearsUnit(plan, w.files, luck))
  {
    if Aborts(plan, luck) {
      AbortGap(w, id, plan, names, luck);
    } else {
      NoGap(w, id, plan, names, luck);
    }
  }

  // ---------- where a run ends ----------

  /** A success leaves the new files and DONE. A refusal leaves ROLLING_BACK, and the old files if
      nothing was written yet, or if there was a binary to back up and all undoing writes succeed. */
  lemma {:induction false} DeployEnds(w: World, id: Id, plan: Plan, names: Paths, luck: Luck)
    requires Fresh(w, id, plan, names)
    ensures var x := Deploy(Begin(w), id, plan, names, luck).w;
            && (!luck.journal ==> x == w)
            && (luck.journal ==> id in x.journal && x.journal[id].phase == if Succeeds(plan, luck) then Done else RollingBack)
            && (Succeeds(plan, luck) ==> x.files == Deployed(w.files, plan))
            && (!Ready(plan, luck) ==> x.files == w.files)
            && (Aborts(plan, luck) && plan.p.binary in w.files && luck.undo == ALL ==> Restored(x, w.files, plan.p))
  {
    if Ready(plan, luck) {
      hide Open, WriteFiles, BringUp, Reached, Undo;
      ReachedNotAbandoned(w, id, plan, names, luck);
      var t := Reached(w, id, plan, names, luck);
      if Succeeds(plan, luck) {
        SuccessMarks(w, id, plan, names, luck);
        SuccessDeploys(w.files, plan, luck);
      } else {
        DeployAborts(w, id, plan, names, luck);
        UndoneRestores(Mark(t, id, RollingBack).w, w, t.w.journal[id], plan, names, luck);
      }
    }
  }

  lemma SuccessMarks(w: World, id: Id, plan: Plan, names: Paths, luck: Luck)
    requires Succeeds(plan, luck)
    ensures var t := Reached(w, id, plan, names, luck);
            id in t.w.journal && Deploy(Begin(w), id, plan, names, luck) == Mark(t, id, Done)
  {
  }

  /** With nothing refused, the files that are reached are the deployed ones. */
  lemma SuccessDeploys(files: map<Path, Content>, plan: Plan, luck: Luck)
    requires Succeeds(plan, luck)
    ensures FilesReached(files, plan, luck) == Deployed(files, plan)
  {
  }

  lemma UndoneRestores(x: World, w: World, j: Row, plan: Plan, names: Paths, luck: Luck)
    requires Named(names) && Named(plan.p) && SameBackups(j, BackupRow(plan, w.files, names))
    requires x.store == BackupStore(w, plan.p, names) && x.files == FilesReached(w.files, plan, luck)
    ensures plan.p.binary in w.files ==> Same(Undone(x, j, plan.p, ALL), w.files, plan.p)
  {
  }

  // ---------- other deployments ----------

  /** The backups grow, under names that the row of the other deployment does not mention, and nothing
      else about it changes. */
  predicate Untouched(x: World, w: World, names: Paths, d: Id, p: Paths) {
    && d in w.journal && d in x.journal && x.journal[d] == w.journal[d] && SameOn(w.files, x.files, p)
    && (forall n <- w.store :: n in x.store && (!Touches(names, n) ==> x.store[n] == w.store[n]))
    && (forall n <- x.store :: n in w.store || Touches(names, n))
  }

  function UntouchedFrom(w: World, names: Paths, d: Id, p: Paths): World -> bool {
    x => Untouched(x, w, names, d, p)
  }

  lemma UntouchedIsSound(x: World, w: World, names: Paths, d: Id, orig: map<Path, Content>, p: Paths)
    requires Untouched(x, w, names, d, p) && Sound(w, d, orig, p) && FreshBackup(w, names)
    ensures Sound(x, d, orig, p)
  {
  }

  lemma RowUntouched(t: Trace, w: World, names: Paths, d: Id, p: Paths, id: Id, row: Row)
    requires Untouched(t.w, w, names, d, p) && id != d
    ensures Along(t, Journal(t, id, row), UntouchedFrom(w, names, d, p)) && Untouched(Journal(t, id, row).w, w, names, d, p)
  {
  }

  lemma FlagUntouched(t: Trace, w: World, names: Paths, d: Id, p: Paths, running: bool)
    requires Untouched(t.w, w, names, d, p)
    ensures Along(t, Service(t, running), UntouchedFrom(w, names, d, p)) && Untouched(Service(t, running).w, w, names, d, p)
  {
  }

  lemma KeepUntouched(t: Trace, w: World, names: Paths, d: Id, p: Paths, path: Path, name: Path, half: Content)
    requires Untouched(t.w, w, names, d, p) && Touches(names, name)
    ensures Along(t, KeepFile(t, path, name, half), UntouchedFrom(w, names, d, p)) && Untouched(KeepFile(t, path, name, half).w, w, names, d, p)
  {
  }

  lemma OpenUntouched(t: Trace, w: World, names: Paths, d: Id, p: Paths, id: Id, plan: Plan, luck: Luck)
    requires Untouched(t.w, w, names, d, p) && id != d
    ensures var r := Open(t, id, plan, names, luck);
            Along(t, r, UntouchedFrom(w, names, d, p)) && Untouched(r.w, w, names, d, p)
  {
    hide Untouched;
    var inv := UntouchedFrom(w, names, d, p);
    if luck.journal {
      var t1 := Journal(t, id, FirstRow(plan));
      RowUntouched(t, w, names, d, p, id, FirstRow(plan));
      if !Accepted(plan, luck) {
        RowUntouched(t1, w, names, d, p, id, FirstRow(plan).(phase := RollingBack));
        AlongJoins(t, t1, Mark(t1, id, RollingBack), inv);
      } else {
        var t2 := BackUp(t1, id, plan, names, luck.halves);
        BackUpUntouched(t1, w, names, d, p, id, plan, luck.halves);
        AlongJoins(t, t1, t2, inv);
        if !Ready(plan, luck) {
          RowUntouched(t2, w, names, d, p, id, t2.w.journal[id].(phase := RollingBack));
          AlongJoins(t, t2, Mark(t2, id, RollingBack), inv);
        }
      }
    }
  }

  lemma BackUpUntouched(t: Trace, w: World, names: Paths, d: Id, p: Paths, id: Id, plan: Plan, halves: Halves)
    requires Untouched(t.w, w, names, d, p) && id != d && id in t.w.journal && t.w.journal[id] == FirstRow(plan)
    ensures var r := BackUp(t, id, plan, names, halves);
            Along(t, r, UntouchedFrom(w, names, d, p)) && Untouched(r.w, w, names, d, p)
  {
    hide Untouched;
    var inv := UntouchedFrom(w, names, d, p);
    if plan.p.binary in t.w.files {
      var row := FirstRow(plan).(phase := Stopped, backup := names.binary);
      var t1 := Journal(t, id, row);
      RowUntouched(t, w, names, d, p, id, row);
      var t2 := KeepFile(t1, plan.p.binary, names.binary, halves.binary);
      KeepUntouched(t1, w, names, d, p, plan.p.binary, names.binary, halves.binary);
      AlongJoins(t, t1, t2, inv);
      var t3 := KeepFile(t2, plan.p.config, names.config, halves.config);
      KeepUntouched(t2, w, names, d, p, plan.p.config, names.config, halves.config);
      AlongJoins(t, t2, t3, inv);
      var t4 := KeepFile(t3, plan.p.unit, names.unit, halves.unit);
      KeepUntouched(t3, w, names, d, p, plan.p.unit, names.unit, halves.unit);
      AlongJoins(t, t3, t4, inv);
      var t5 := Service(t4, false);
      FlagUntouched(t4, w, names, d, p, false);
      AlongJoins(t, t4, t5, inv);
      if plan.p.config in t.w.files || plan.p.unit in t.w.files {
        RowUntouched(t5, w, names, d, p, id, BackupRow(plan, t.w.files, names));
        AlongJoins(t, t5, Journal(t5, id, BackupRow(plan, t.w.files, names)), inv);
      }
    }
  }

  lemma WriteUntouched(x: World, w: World, names: Paths, d: Id, p: Paths, plan: Plan, path: Path, data: Content)
    requires Untouched(x, w, names, d, p) && Disjoint(p, plan.p) && Touches(plan.p, path)
    ensures Untouched(x.(files := x.files[path := data]), w, names, d, p)
  {
  }

  lemma AfterUntouched(x: World, w: World, names: Paths, d: Id, p: Paths, id: Id, plan: Plan, luck: Luck, text: Content)
    requires Untouched(x, w, names, d, p) && id != d && id in x.journal && Disjoint(p, plan.p)
    ensures Untouched(AfterBinary(x, plan, luck), w, names, d, p) && Untouched(AfterMark(x, id, plan, luck), w, names, d, p)
    ensures Untouched(AfterConfig(x, id, plan, luck), w, names, d, p) && Untouched(AfterUnit(x, id, plan, luck, text), w, names, d, p)
  {
    hide Untouched, AfterBinary, AfterMark, AfterConfig, AfterUnit, Disjoint;
    AfterFacts(x, id, plan, luck, text);
    WriteUntouched(x, w, names, d, p, plan, plan.p.binary, plan.artifact);
    OnlyRowUntouched(AfterBinary(x, plan, luck), w, names, d, p, id, x.journal[id].(phase := Replaced));
    WriteUntouched(AfterMark(x, id, plan, luck), w, names, d, p, plan, plan.p.config, plan.req.config);
    WriteUntouched(AfterConfig(x, id, plan, luck), w, names, d, p, plan, plan.p.unit, text);
  }

  lemma ReachedUntouched(t: Trace, w: World, names: Paths, d: Id, p: Paths, id: Id, plan: Plan, luck: Luck)
    requires Untouched(t.w, w, names, d, p) && id != d && id in t.w.journal && Disjoint(p, plan.p)
    ensures var r := WriteFiles(t, id, plan, luck);
            Along(t, r, UntouchedFrom(w, names, d, p)) && Untouched(r.w, w, names, d, p)
  {
    hide Untouched, AfterBinary, AfterMark, AfterConfig, AfterUnit, WriteFiles;
    AfterUntouched(t.w, w, names, d, p, id, plan, luck, plan.unitText);
    if !luck.unit.NotWritten? { AfterUntouched(t.w, w, names, d, p, id, plan, luck, luck.unit.part); }
    WriteFilesAlong(t, id, plan, luck, UntouchedFrom(w, names, d, p));
  }

  lemma OnlyRowUntouched(x: World, w: World, names: Paths, d: Id, p: Paths, id: Id, row: Row)
    requires Untouched(x, w, names, d, p) && id != d
    ensures Untouched(x.(journal := x.journal[id := row]), w, names, d, p)
  {
  }

  lemma BringUpUntouched(t: Trace, w: World, names: Paths, d: Id, p: Paths, id: Id, luck: Luck)
    requires Untouched(t.w, w, names, d, p) && id != d && id in t.w.journal
    ensures var r := BringUp(t, id, luck);
            Along(t, r, UntouchedFrom(w, names, d, p)) && Untouched(r.w, w, names, d, p)
  {
    hide Untouched;
    var inv := UntouchedFrom(w, names, d, p);
    if luck.reload && luck.enable {
      var t1 := Mark(t, id, Started);
      RowUntouched(t, w, names, d, p, id, t.w.journal[id].(phase := Started));
      if luck.start {
        var t2 := Service(t1, true);
        FlagUntouched(t1, w, names, d, p, true);
        AlongJoins(t, t1, t2, inv);
        RowUntouched(t2, w, names, d, p, id, t2.w.journal[id].(phase := Verifying));
        AlongJoins(t, t2, Mark(t2, id, Verifying), inv);
      }
    }
  }

  lemma OnlyFilesUntouched(x: World, w: World, names: Paths, d: Id, p: Paths, files: map<Path, Content>, running: bool)
    requires Untouched(x, w, names, d, p) && SameOn(x.files, files, p)
    ensures Untouched(x.(files := files, running := running), w, names, d, p)
  {
  }

  lemma AbortUntouched(t: Trace, w: World, names: Paths, d: Id, p: Paths, id: Id, plan: Plan, luck: Luck)
    requires Untouched(t.w, w, names, d, p) && id != d && id in t.w.journal && Disjoint(p, plan.p)
    ensures Along(t, Abort(t, id, plan.p, luck), UntouchedFrom(w, names, d, p))
  {
    var inv, marked := UntouchedFrom(w, names, d, p), Mark(t, id, RollingBack);
    RowUntouched(t, w, names, d, p, id, t.w.journal[id].(phase := RollingBack));
    var x, j := marked.w, t.w.journal[id];
    UndoneElsewhere(x, j, plan.p, luck.undo, luck.undoPart, p);
    var a, b, c := UndoneBinary(x, j, plan.p, luck.undo), UndoneConfig(x, j, plan.p, luck.undo), UndoneUnit(x, j, plan.p, luck.undo);
    forall running: bool, files | files in {x.files, a, b, c, b[plan.p.unit := luck.undoPart]}
      ensures inv(x.(files := files, running := running))
    {
      OnlyFilesUntouched(x, w, names, d, p, files, running);
    }
    UndoAlong(marked, t.w.journal[id], plan.p, luck.undo, luck.undoPart, inv);
    AlongJoins(t, marked, Abort(t, id, plan.p, luck), inv);
  }

  /** A deployment leaves every other one as recoverable, or as restored, as it was. */
  lemma {:induction false} DeployKeepsOthers(w: World, id: Id, plan: Plan, names: Paths, luck: Luck, d: Id, orig: map<Path, Content>, p: Paths)
    requires FreshBackup(w, names) && id != d && Disjoint(p, plan.p) && Sound(w, d, orig, p)
    ensures forall x <- Deploy(Begin(w), id, plan, names, luck).past :: Sound(x, d, orig, p)
  {
    var inv, t0 := UntouchedFrom(w, names, d, p), Begin(w);
    var t1, r := Open(t0, id, plan, names, luck), Deploy(t0, id, plan, names, luck);
    OpenUntouched(t0, w, names, d, p, id, plan, luck);
    if Ready(plan, luck) {
      ReplaceUntouched(t1, w, names, d, p, id, plan, luck);
      AlongJoins(t0, t1, r, inv);
    }
    forall x <- r.past ensures Sound(x, d, orig, p) {
      var i :| 0 <= i < |r.past| && r.past[i] == x;
      assert i == 0 ==> x == t0.past[0];
      assert i > 0 ==> inv(r.past[i]);
      UntouchedIsSound(x, w, names, d, orig, p);
    }
  }

  lemma ReplaceUntouched(t: Trace, w: World, names: Paths, d: Id, p: Paths, id: Id, plan: Plan, luck: Luck)
    requires Untouched(t.w, w, names, d, p) && id != d && id in t.w.journal && Disjoint(p, plan.p)
    ensures Along(t, Replace(t, id, plan, luck), UntouchedFrom(w, names, d, p))
  {
    hide Untouched, WriteFiles, BringUp, Abort;
    var inv := UntouchedFrom(w, names, d, p);
    var t1 := WriteFiles(t, id, plan, luck);
    var t2 := if Written(plan, luck) then BringUp(t1, id, luck) else t1;
    ReachedUntouched(t, w, names, d, p, id, plan, luck);
    if Written(plan, luck) {
      BringUpUntouched(t1, w, names, d, p, id, luck);
      AlongJoins(t, t1, t2, inv);
    }
    if Written(plan, luck) && CameUp(luck) {
      RowUntouched(t2, w, names, d, p, id, t2.w.journal[id].(phase := Done));
      AlongJoins(t, t2, Mark(t2, id, Done), inv);
    } else {
      AbortUntouched(t2, w, names, d, p, id, plan, luck);
      AlongJoins(t, t2, Abort(t2, id, plan.p, luck), inv);
    }
  }

  // ---------- recovery of other files ----------

  /** A definition that is missing by the time of the recovery, or names another binary because a sync
      arrived in between: the deployed binary stays, and the other file, which nobody deployed, is
      overwritten by the old binary. */
  lemma {:induction false} OtherBinaryOverwritten(w: World, id: Id, plan: Plan, names: Paths, luck: Luck, stored: Option<AppDef>, now: Option<AppDef>)
    requires Fresh(w, id, plan, names) && Ready(plan, luck) && WritesBinary(plan, luck) && plan.p.binary in w.files
    requires plan.p == DeployPaths(plan.req, stored)
    requires var d := if now.Some? then now.value else AppDef("", "", "");
             && !Touches(plan.p, d.binaryPath)
             && ServiceOf(plan.req.appId, d.unitName) == ServiceOf(plan.req.appId, plan.req.unitName)
             && SameConfig(d.configPath, plan.req.configPath, ServiceOf(plan.req.appId, plan.req.unitName))
    ensures exists x <- Deploy(Begin(w), id, plan, names, luck).past ::
              id in x.journal && x.journal[id].phase != Done && x.journal[id].phase != RollingBack && Misplaced(x, id, w.files, plan, RecoverPaths(plan.req.appId, now))
  {
    hide DeployPaths, RecoverPaths, ServiceOf, SameConfig, Misplaced, BackupRow, BackupStore, FilesReached;
    DiffersInBinary(plan.req, stored, now);
    StageReached(w, id, plan, names, luck);
    var x := WriteFiles(Open(Begin(w), id, plan, names, luck), id, plan, luck).w;
    StageMisplaced(x, w, id, plan, names, luck, RecoverPaths(plan.req.appId, now).binary);
  }

  /** Recovery that aims at `r` leaves the new binary where it is, and spoils the one that `r` names. */
  ghost predicate Misplaced(x: World, id: Id, orig: map<Path, Content>, plan: Plan, r: Paths)
    requires id in x.journal && plan.p.binary in orig
  {
    var files := RecoverRow(Begin(x), Item(id, r, ALL, "")).w.files;
    && plan.p.binary in files && files[plan.p.binary] == plan.artifact
    && (r.binary != "" ==> r.binary in files && files[r.binary] == orig[plan.p.binary])
  }

  lemma StageMisplaced(x: World, w: World, id: Id, plan: Plan, names: Paths, luck: Luck, other: Path)
    requires Fresh(w, id, plan, names) && WritesBinary(plan, luck) && plan.p.binary in w.files && !Touches(plan.p, other)
    requires id in x.journal && !LeftAlone(x.journal[id]) && SameBackups(x.journal[id], BackupRow(plan, w.files, names))
    requires x.store == BackupStore(w, plan.p, names) && x.files == FilesReached(w.files, plan, luck)
    ensures Misplaced(x, id, w.files, plan, plan.p.(binary := other))
  {
    var j, r := x.journal[id], plan.p.(binary := other);
    UndoneAt(x, j, Item(id, r, ALL, ""), plan.p.binary);
    UndoneAt(x, j, Item(id, r, ALL, ""), other);
    assert RecoverRow(Begin(x), Item(id, r, ALL, "")).w.files == Undone(x, j, r, ALL);
    hide Undone, Undo;
  }
}
