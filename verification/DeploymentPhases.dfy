/** What the phase of a journal row says about the machine, how a run ends, and whether the service runs. */
module DeploymentPhases {
  import opened Models
  import opened DeploymentPaths
  import opened Deployment
  import opened DeploymentRecovery
  import opened DeploymentRuns

  // ---------- the phase tells how far the run came ----------

  /** In the world `x` of a deployment that began in `w`: until REPLACED nothing but the binary is new, or
      the binary is not to be replaced; REPLACED means that the new binary is in place; from STARTED on
      all new files are; VERIFYING and DONE mean that the service was started with them. While files are
      replaced the old service is stopped. */
  predicate PhaseHolds(x: World, w: World, id: Id, plan: Plan) {
    id in x.journal ==>
      var j := x.journal[id];
      && j.appId == plan.req.appId
      && (match j.phase
          case Preparing => Early(x, w, plan)
          case Stopped => Early(x, w, plan) && plan.p.binary in w.files
          case Replaced => plan.p.binary in x.files && x.files[plan.p.binary] == plan.artifact && plan.req.artifactUrl != ""
          case Started => x.files == Deployed(w.files, plan)
          case Verifying => x.files == Deployed(w.files, plan) && x.running
          case Done => x.files == Deployed(w.files, plan) && x.running
          case RollingBack => true)
      && (j.phase in {Preparing, Stopped, Replaced} && plan.p.binary in w.files && x.files != w.files ==> !x.running)
  }

  predicate Early(x: World, w: World, plan: Plan) {
    if plan.req.artifactUrl == "" then SameAt(x.files, w.files, plan.p.binary)
    else SameAt(x.files, w.files, plan.p.config) && SameAt(x.files, w.files, plan.p.unit)
  }

  function HoldsFor(w: World, id: Id, plan: Plan): World -> bool {
    x => PhaseHolds(x, w, id, plan)
  }

  lemma OpenHolds(w: World, id: Id, plan: Plan, names: Paths, luck: Luck)
    requires id !in w.journal
    ensures var r := Open(Begin(w), id, plan, names, luck);
            && Along(Begin(w), r, HoldsFor(w, id, plan))
            && (Ready(plan, luck) && plan.p.binary in w.files ==> !r.w.running)
  {
    var t, inv := Begin(w), HoldsFor(w, id, plan);
    if luck.journal {
      var t1 := Journal(t, id, FirstRow(plan));
      GoAlong(t, t, t1.w, inv);
      if Accepted(plan, luck) {
        var t2 := BackUp(t1, id, plan, names, luck.halves);
        BackUpHolds(t1, w, id, plan, names, luck.halves);
        AlongJoins(t, t1, t2, inv);
        if !Ready(plan, luck) { GoAlong(t, t2, Mark(t2, id, RollingBack).w, inv); }
      } else {
        GoAlong(t, t1, Mark(t1, id, RollingBack).w, inv);
      }
    }
  }

  /** The files are untouched, and the row reads PREPARING or STOPPED. */
  predicate Untouched(x: World, w: World, id: Id, plan: Plan) {
    x.files == w.files && id in x.journal && x.journal[id].appId == plan.req.appId &&
    (x.journal[id].phase == Preparing || (x.journal[id].phase == Stopped && plan.p.binary in w.files))
  }

  lemma UntouchedHolds(x: World, w: World, id: Id, plan: Plan)
    requires Untouched(x, w, id, plan)
    ensures PhaseHolds(x, w, id, plan)
  {
  }

  lemma KeepHolds(t: Trace, w: World, id: Id, plan: Plan, path: Path, name: Path, half: Content)
    requires Untouched(t.w, w, id, plan)
    ensures var r := KeepFile(t, path, name, half); Along(t, r, HoldsFor(w, id, plan)) && Untouched(r.w, w, id, plan)
  {
    var inv := HoldsFor(w, id, plan);
    if path in t.w.files {
      var torn := Keep(t, name, half);
      GoAlong(t, t, torn.w, inv);
      GoAlong(t, torn, KeepFile(t, path, name, half).w, inv);
    }
  }

  lemma BackUpHolds(t: Trace, w: World, id: Id, plan: Plan, names: Paths, halves: Halves)
    requires t.w == w.(journal := w.journal[id := FirstRow(plan)])
    ensures var r := BackUp(t, id, plan, names, halves);
            Along(t, r, HoldsFor(w, id, plan)) && (plan.p.binary in w.files ==> !r.w.running)
  {
    if plan.p.binary in w.files {
      var inv := HoldsFor(w, id, plan);
      var t1 := Journal(t, id, FirstRow(plan).(phase := Stopped, backup := names.binary));
      GoAlong(t, t, t1.w, inv);
      hide KeepFile, PhaseHolds;
      var t2 := KeepFile(t1, plan.p.binary, names.binary, halves.binary);
      KeepHolds(t1, w, id, plan, plan.p.binary, names.binary, halves.binary);
      AlongJoins(t, t1, t2, inv);
      var t3 := KeepFile(t2, plan.p.config, names.config, halves.config);
      KeepHolds(t2, w, id, plan, plan.p.config, names.config, halves.config);
      AlongJoins(t, t2, t3, inv);
      var t4 := KeepFile(t3, plan.p.unit, names.unit, halves.unit);
      KeepHolds(t3, w, id, plan, plan.p.unit, names.unit, halves.unit);
      AlongJoins(t, t3, t4, inv);
      var t5 := Service(t4, false);
      UntouchedHolds(t5.w, w, id, plan);
      GoAlong(t, t4, t5.w, inv);
      if plan.p.config in t.w.files || plan.p.unit in t.w.files {
        var t6 := Journal(t5, id, BackupRow(plan, t.w.files, names));
        UntouchedHolds(t6.w, w, id, plan);
        GoAlong(t, t5, t6.w, inv);
      }
    }
  }

  /** Where the replacing begins. */
  predicate Begins(x: World, w: World, id: Id, plan: Plan) {
    Untouched(x, w, id, plan) && (plan.p.binary in w.files ==> !x.running)
  }

  lemma WritesHold(x: World, w: World, id: Id, plan: Plan, luck: Luck, text: Content)
    requires Begins(x, w, id, plan) && Named(plan.p) && BinaryPassed(plan, luck)
    ensures PhaseHolds(AfterBinary(x, plan, luck), w, id, plan) && PhaseHolds(AfterMark(x, id, plan, luck), w, id, plan)
    ensures PhaseHolds(AfterConfig(x, id, plan, luck), w, id, plan) && PhaseHolds(AfterUnit(x, id, plan, luck, text), w, id, plan)
  {
  }

  lemma WriteFilesHold(t: Trace, w: World, id: Id, plan: Plan, luck: Luck)
    requires Begins(t.w, w, id, plan) && Named(plan.p)
    ensures var r := WriteFiles(t, id, plan, luck);
            && Along(t, r, HoldsFor(w, id, plan)) && r.w.journal[id].appId == plan.req.appId
            && (Written(plan, luck) ==> r.w.files == Deployed(w.files, plan))
  {
    var inv := HoldsFor(w, id, plan);
    UntouchedHolds(t.w, w, id, plan);
    if BinaryPassed(plan, luck) {
      WritesHold(t.w, w, id, plan, luck, plan.unitText);
      if !luck.unit.NotWritten? { WritesHold(t.w, w, id, plan, luck, luck.unit.part); }
    } else {
      assert AfterBinary(t.w, plan, luck) == AfterMark(t.w, id, plan, luck) == AfterConfig(t.w, id, plan, luck) == t.w;
    }
    hide PhaseHolds;
    WriteFilesAlong(t, id, plan, luck, inv);
  }

  lemma BringUpHolds(t: Trace, w: World, id: Id, plan: Plan, luck: Luck)
    requires id in t.w.journal && t.w.journal[id].appId == plan.req.appId && t.w.files == Deployed(w.files, plan)
    ensures var r := BringUp(t, id, luck);
            Along(t, r, HoldsFor(w, id, plan)) && (CameUp(luck) ==> r.w.running) && r.w.journal[id].appId == plan.req.appId
  {
    var inv := HoldsFor(w, id, plan);
    if luck.reload && luck.enable {
      var t1 := Mark(t, id, Started);
      GoAlong(t, t, t1.w, inv);
      if luck.start {
        var t2 := Service(t1, true);
        GoAlong(t, t1, t2.w, inv);
        GoAlong(t, t2, Mark(t2, id, Verifying).w, inv);
      }
    }
  }

  lemma AbortHolds(t: Trace, w: World, id: Id, plan: Plan, luck: Luck)
    requires id in t.w.journal && t.w.journal[id].appId == plan.req.appId
    ensures Along(t, Abort(t, id, plan.p, luck), HoldsFor(w, id, plan))
  {
    var inv := HoldsFor(w, id, plan);
    var t1, j := Mark(t, id, RollingBack), t.w.journal[id];
    GoAlong(t, t, t1.w, inv);
    var a, b, c := UndoneBinary(t1.w, j, plan.p, luck.undo), UndoneConfig(t1.w, j, plan.p, luck.undo), UndoneUnit(t1.w, j, plan.p, luck.undo);
    forall running: bool, files | files in {t1.w.files, a, b, c, b[plan.p.unit := luck.undoPart]}
      ensures inv(t1.w.(files := files, running := running))
    {
    }
    hide UndoneBinary, UndoneConfig, UndoneUnit, PhaseHolds;
    UndoAlong(t1, j, plan.p, luck.undo, luck.undoPart, inv);
    AlongJoins(t, t1, Abort(t, id, plan.p, luck), inv);
  }

  /** In every world of every run the phase of the row holds. */
  lemma {:induction false} PhaseTells(w: World, id: Id, plan: Plan, names: Paths, luck: Luck)
    requires id !in w.journal && Named(plan.p)
    ensures forall x <- Deploy(Begin(w), id, plan, names, luck).past :: PhaseHolds(x, w, id, plan)
  {
    hide Open, WriteFiles, BringUp, Abort, PhaseHolds;
    var inv, t0 := HoldsFor(w, id, plan), Begin(w);
    var t1, r := Open(t0, id, plan, names, luck), Deploy(t0, id, plan, names, luck);
    OpenHolds(w, id, plan, names, luck);
    if Ready(plan, luck) {
      ReadyBegins(w, id, plan, names, luck);
      ReplaceHolds(t1, w, id, plan, luck);
      AlongJoins(t0, t1, r, inv);
    }
    forall x <- r.past ensures PhaseHolds(x, w, id, plan) {
      var i :| 0 <= i < |r.past| && r.past[i] == x;
      if i == 0 {
        assert x == t0.past[0];
        NoRowHolds(x, w, id, plan);
      } else {
        assert inv(r.past[i]);
      }
    }
  }

  lemma NoRowHolds(x: World, w: World, id: Id, plan: Plan)
    requires id !in x.journal
    ensures PhaseHolds(x, w, id, plan)
  {
  }

  lemma ReadyBegins(w: World, id: Id, plan: Plan, names: Paths, luck: Luck)
    requires id !in w.journal && Ready(plan, luck)
    ensures Begins(Open(Begin(w), id, plan, names, luck).w, w, id, plan)
  {
    OpenHolds(w, id, plan, names, luck);
  }

  lemma ReplaceHolds(t: Trace, w: World, id: Id, plan: Plan, luck: Luck)
    requires Begins(t.w, w, id, plan) && Named(plan.p)
    ensures Along(t, Replace(t, id, plan, luck), HoldsFor(w, id, plan))
  {
    hide WriteFiles, BringUp, Abort;
    var inv, t1 := HoldsFor(w, id, plan), WriteFiles(t, id, plan, luck);
    var t2 := if Written(plan, luck) then BringUp(t1, id, luck) else t1;
    WriteFilesHold(t, w, id, plan, luck);
    if Written(plan, luck) {
      BringUpHolds(t1, w, id, plan, luck);
      AlongJoins(t, t1, t2, inv);
    }
    if Written(plan, luck) && CameUp(luck) {
      GoAlong(t, t2, Mark(t2, id, Done).w, inv);
    } else {
      AbortHolds(t2, w, id, plan, luck);
      AlongJoins(t, t2, Abort(t2, id, plan.p, luck), inv);
    }
  }

  /** What a successful run leaves: the artifact and the config if they are asked for, the new unit, and
      every other file as it was. */
  lemma {:induction false} NewFilesInPlace(files: map<Path, Content>, plan: Plan, q: Path)
    requires Named(plan.p)
    ensures var now, p := Deployed(files, plan), plan.p;
            && p.unit in now && now[p.unit] == plan.unitText
            && (plan.req.artifactUrl != "" ==> p.binary in now && now[p.binary] == plan.artifact)
            && (plan.req.config != "" ==> p.config in now && now[p.config] == plan.req.config)
            && (q != p.unit && (plan.req.artifactUrl == "" || q != p.binary) && (plan.req.config == "" || q != p.config) ==>
                  SameAt(now, files, q))
  {
  }

  // ---------- where a crash may hit ----------

  /** A crash may find the new binary in place while the row still reads PREPARING or STOPPED. */
  lemma {:induction false} BinaryBeforePhase(w: World, id: Id, plan: Plan, names: Paths, luck: Luck)
    requires Ready(plan, luck) && WritesBinary(plan, luck)
    ensures exists y <- Deploy(Begin(w), id, plan, names, luck).past ::
              id in y.journal && y.journal[id].phase in {Preparing, Stopped} && plan.p.binary in y.files && y.files[plan.p.binary] == plan.artifact
  {
    hide Open, BringUp, Abort;
    var t := Open(Begin(w), id, plan, names, luck);
    ReadyPhase(w, id, plan, names, luck);
    SeenLater(Write(t, plan.p.binary, plan.artifact), WriteFiles(t, id, plan, luck), Deploy(Begin(w), id, plan, names, luck));
  }

  /** It may find the unit file half written by deploy. */
  lemma {:induction false} UnitHalfWritten(w: World, id: Id, plan: Plan, names: Paths, luck: Luck)
    requires Ready(plan, luck) && ConfigPassed(plan, luck) && !luck.unit.NotWritten?
    ensures exists y <- Deploy(Begin(w), id, plan, names, luck).past :: plan.p.unit in y.files && y.files[plan.p.unit] == luck.unit.part
  {
    hide Open, BringUp, Abort, InstallBinary, FilesReached;
    var t := Open(Begin(w), id, plan, names, luck);
    var t1 := InstallBinary(t, id, plan, luck);
    var t2 := if WritesConfig(plan, luck) then Write(t1, plan.p.config, plan.req.config) else t1;
    SeenLater(Write(t2, plan.p.unit, luck.unit.part), WriteFiles(t, id, plan, luck), Deploy(Begin(w), id, plan, names, luck));
  }

  /** And half written by recovery. */
  lemma {:induction false} RecoveryHalfWritten(x: World, item: Item)
    requires item.id in x.journal && x.journal[item.id].phase != Done && x.journal[item.id].phase != RollingBack
    requires x.journal[item.id].backup != "" && item.undo.unit && Readable(x.store, item.p.unit, x.journal[item.id].backupUnit)
    ensures exists y <- RecoverRow(Begin(x), item).past :: item.p.unit in y.files && y.files[item.p.unit] == item.part
  {
    hide Undo;
    UndoTearsUnit(Begin(x), x.journal[item.id], item);
    var u := Undo(Begin(x), x.journal[item.id], item.p, item.undo, item.part);
    var y :| y in u.past && item.p.unit in y.files && y.files[item.p.unit] == item.part;
    PastGrows(u.past, RecoverRow(Begin(x), item).past, y);
  }

  lemma ReadyPhase(w: World, id: Id, plan: Plan, names: Paths, luck: Luck)
    requires Ready(plan, luck)
    ensures var x := Open(Begin(w), id, plan, names, luck).w; id in x.journal && x.journal[id].phase in {Preparing, Stopped}
  {
  }

  /** The last world of a trace is among those of any longer one. */
  lemma SeenLater(y: Trace, mid: Trace, r: Trace)
    requires |y.past| > 0 && y.past[|y.past| - 1] == y.w && y.past <= mid.past <= r.past
    ensures y.w in r.past
  {
    assert r.past[|y.past| - 1] == y.w;
  }

  lemma UndoTearsUnit(t: Trace, j: Row, item: Item)
    requires j.backup != "" && item.undo.unit && Readable(t.w.store, item.p.unit, j.backupUnit)
    ensures exists y <- Undo(t, j, item.p, item.undo, item.part).past :: item.p.unit in y.files && y.files[item.p.unit] == item.part
  {
    var t0 := Service(t, false);
    var t1 := WriteBack(t0, item.p.binary, j.backup, item.undo.binary);
    var t2 := WriteBack(t1, item.p.config, j.backupConfig, item.undo.config);
    var y := Write(t2, item.p.unit, item.part);
    var t3 := WriteBackUnit(t2, item.p.unit, j.backupUnit, item.undo.unit, item.part);
    SeenLater(y, t3, Undo(t, j, item.p, item.undo, item.part));
  }

  // ---------- how it ends ----------

  /** A run ends DONE exactly when everything it needs is granted: the journal row; the artifact, if one is
      asked for, with a digest, fetched, read and installed; a unit name and a binary path; the config, if
      one is asked for; the unit written and reloaded; and the service reloaded, enabled, started and
      healthy. */
  lemma {:induction false} DoneExactly(w: World, id: Id, plan: Plan, names: Paths, luck: Luck)
    requires Fresh(w, id, plan, names)
    ensures var x := Deploy(Begin(w), id, plan, names, luck).w;
            (id in x.journal && x.journal[id].phase == Done) <==>
            && luck.journal && luck.unitNameOk && plan.p.binary != ""
            && (plan.req.artifactUrl != "" ==>
                  plan.req.artifactSha != "" && luck.cacheReady && luck.prefetch && luck.readArtifact && luck.install)
            && (plan.req.config != "" ==> luck.config)
            && luck.unit.Installed? && luck.reload && luck.enable && luck.start && luck.healthy
  {
    DeployEnds(w, id, plan, names, luck);
    hide Deploy;
  }

  /** After recovery of an unfinished row, and after the undo of a failed run, the service runs exactly if
      the old binary was written back. */
  lemma {:induction false} RunsIfRestored(w: World, item: Item)
    requires item.id in w.journal && w.journal[item.id].phase != Done && w.journal[item.id].phase != RollingBack
    ensures var b := w.journal[item.id].backup;
            RecoverRow(Begin(w), item).w.running <==> b != "" && b in w.store && item.p.binary != "" && item.undo.binary
    ensures forall t: Trace, luck: Luck | t.w == w ::
              Abort(t, item.id, item.p, luck).w.running <==>
              w.journal[item.id].backup != "" && w.journal[item.id].backup in w.store && item.p.binary != "" && luck.undo.binary
  {
  }

  // ---------- which files ----------

  /** Without a name of its own an application gets files named after its id, so that two applications
      never share them. */
  lemma {:induction false} DefaultsAreOwn(appId: Id, other: Id)
    ensures RecoverPaths(appId, None) == Paths("", "/etc/cadentra-" + appId + ".conf", "/etc/systemd/system/cadentra-" + appId + ".service")
    ensures appId != other ==> RecoverPaths(appId, None).config != RecoverPaths(other, None).config &&
                               RecoverPaths(appId, None).unit != RecoverPaths(other, None).unit
  {
    DefaultPaths(appId);
    DefaultPaths(other);
    if appId != other {
      Middle("/etc/cadentra-", appId, other, ".conf");
      Middle("/etc/systemd/system/cadentra-", appId, other, ".service");
    }
  }

  lemma DefaultPaths(appId: Id)
    ensures RecoverPaths(appId, None) == Paths("", "/etc/cadentra-" + appId + ".conf", "/etc/systemd/system/cadentra-" + appId + ".service")
  {
    var u := DefaultUnit(appId);
    assert u == "cadentra-" + appId + ".service";
    assert HasSuffix(u) && TrimSuffix(u) == "cadentra-" + appId;
    assert "/etc/" + ("cadentra-" + appId) == "/etc/cadentra-" + appId;
    assert "/etc/systemd/system/" + ("cadentra-" + appId + ".service") == "/etc/systemd/system/cadentra-" + appId + ".service";
  }

  lemma Middle(a: string, x: string, y: string, b: string)
    requires x != y
    ensures a + x + b != a + y + b
  {
    assert (a + x + b)[|a|..|a| + |x|] == x;
    assert (a + y + b)[|a|..|a| + |y|] == y;
  }

  /** A request's own fields win: its binary over the stored one, its config path over the default, and
      its unit name, with or without the suffix. */
  lemma {:induction false} RequestNamesFiles(req: Request, stored: Option<AppDef>, name: string)
    requires name != "" && !HasSuffix(name) && req.unitName in {name, name + ".service"}
    ensures var p := DeployPaths(req, stored);
            && p.binary == (if req.binaryPath != "" then req.binaryPath else if stored.Some? then stored.value.binaryPath else "")
            && p.config == (if req.configPath != "" then req.configPath else "/etc/" + name + ".conf")
            && p.unit == "/etc/systemd/system/" + (name + ".service")
  {
    assert HasSuffix(name + ".service") && TrimSuffix(name + ".service") == name;
  }
}
