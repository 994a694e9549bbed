/** The Agent's deployment code, method by method, over the traces of Deployment. */
module DeploymentMachine {
  import opened Models
  import opened DeploymentPaths
  import D = Deployment

  /** One machine; `past` lists its worlds. */
  class Machine {
    var w: D.World
    ghost var past: seq<D.World>

    ghost function Now(): D.Trace
      reads this
    {
      D.Trace(w, past)
    }

    constructor (files: map<Path, Content>, store: map<Path, Content>, journal: map<Id, D.Row>)
      ensures Now() == D.Begin(D.World(files, store, journal, true))
    {
      w := D.World(files, store, journal, true);
      past := [D.World(files, store, journal, true)];
    }

    method Step(next: D.World)
      modifies this
      ensures Now() == D.Go(old(Now()), next)
    {
      w := next;
      past := past + [next];
    }

    method SetPhase(id: Id, phase: D.Phase)
      requires id in w.journal
      modifies this
      ensures Now() == D.Mark(old(Now()), id, phase)
    {
      Step(w.(journal := w.journal[id := w.journal[id].(phase := phase)]));
    }

    method AtomicReplace(path: Path, data: Content)
      modifies this
      ensures Now() == D.Write(old(Now()), path, data)
    {
      Step(w.(files := w.files[path := data]));
    }

    /** One restoring write: an unreadable backup is passed over. */
    method Restore(path: Path, backup: Path, accepted: bool)
      modifies this
      ensures Now() == D.WriteBack(old(Now()), path, backup, accepted)
    {
      if backup != "" && path != "" && backup in w.store && accepted {
        AtomicReplace(path, w.store[backup]);
      }
    }

    /** rollback for the row `id`, with the host refusing the writes that `undo` leaves out. */
    method Rollback(id: Id, p: Paths, undo: D.Writes, part: Content)
      requires id in w.journal
      modifies this
      ensures Now() == D.Undo(old(Now()), old(w).journal[id], p, undo, part)
    {
      var j := w.journal[id];
      Step(w.(running := false));
      if j.backup == "" { return; }
      Restore(p.binary, j.backup, undo.binary);
      Restore(p.config, j.backupConfig, undo.config);
      if undo.unit && j.backupUnit != "" && p.unit != "" && j.backupUnit in w.store {
        AtomicReplace(p.unit, part);
        AtomicReplace(p.unit, w.store[j.backupUnit]);
      }
      var restored := undo.binary && p.binary != "" && j.backup in w.store;
      Step(w.(running := restored));
    }

    /** Copies a file to its backup, in two steps. */
    method KeepFile(path: Path, name: Path, half: Content)
      requires path in w.files
      modifies this
      ensures Now() == D.KeepFile(old(Now()), path, name, half)
    {
      Step(w.(store := w.store[name := half]));
      Step(w.(store := w.store[name := w.files[path]]));
    }

    /** The part of deploy that stops the old service and keeps what it is about to overwrite. */
    method BackUp(id: Id, plan: D.Plan, names: Paths, halves: D.Halves)
      requires id in w.journal && w.journal[id] == D.FirstRow(plan) && Named(names)
      modifies this
      ensures Now() == D.BackUp(old(Now()), id, plan, names, halves)
    {
      if plan.p.binary !in w.files { return; }
      Step(w.(journal := w.journal[id := w.journal[id].(phase := D.Stopped, backup := names.binary)]));
      KeepFile(plan.p.binary, names.binary, halves.binary);
      var backupConfig, backupUnit := "", "";
      if plan.p.config in w.files {
        KeepFile(plan.p.config, names.config, halves.config);
        backupConfig := names.config;
      }
      if plan.p.unit in w.files {
        KeepFile(plan.p.unit, names.unit, halves.unit);
        backupUnit := names.unit;
      }
      Step(w.(running := false));
      if backupConfig != "" || backupUnit != "" {
        Step(w.(journal := w.journal[id := w.journal[id].(backupConfig := backupConfig, backupUnit := backupUnit)]));
      }
    }

    /** Writes the unit file, in two steps, and reloads. */
    method InstallUnit(path: Path, text: Content, unit: D.UnitWrite) returns (ok: bool)
      modifies this
      ensures ok == unit.Installed? && Now() == D.InstallUnit(old(Now()), path, text, unit)
    {
      match unit {
        case NotWritten =>
        case Torn(part) => AtomicReplace(path, part);
        case _ =>
          AtomicReplace(path, unit.part);
          AtomicReplace(path, text);
      }
      return unit.Installed?;
    }

    /** Writes the new binary, config and unit, up to the first refusal. */
    method WriteFiles(id: Id, plan: D.Plan, luck: D.Luck) returns (ok: bool)
      requires id in w.journal
      modifies this
      ensures ok == D.Written(plan, luck) && Now() == D.WriteFiles(old(Now()), id, plan, luck)
    {
      if plan.req.artifactUrl != "" {
        if !luck.install { return false; }
        AtomicReplace(plan.p.binary, plan.artifact);
        SetPhase(id, D.Replaced);
      }
      if plan.req.config != "" {
        if !luck.config { return false; }
        AtomicReplace(plan.p.config, plan.req.config);
      }
      ok := InstallUnit(plan.p.unit, plan.unitText, luck.unit);
    }

    /** Reload, enable, start and health check. */
    method BringUp(id: Id, luck: D.Luck) returns (ok: bool)
      requires id in w.journal
      modifies this
      ensures ok == D.CameUp(luck) && Now() == D.BringUp(old(Now()), id, luck)
    {
      if !luck.reload || !luck.enable { return false; }
      SetPhase(id, D.Started);
      if !luck.start { return false; }
      Step(w.(running := true));
      SetPhase(id, D.Verifying);
      return luck.healthy;
    }

    /** Everything deploy does before it changes a file of the host. */
    method Open(id: Id, plan: D.Plan, names: Paths, luck: D.Luck) returns (ready: bool)
      requires Named(names)
      modifies this
      ensures ready == D.Ready(plan, luck) && Now() == D.Open(old(Now()), id, plan, names, luck)
    {
      if !luck.journal { return false; }
      Step(w.(journal := w.journal[id := D.FirstRow(plan)]));
      if plan.req.artifactUrl != "" {
        if plan.req.artifactSha == "" || !luck.cacheReady || !luck.prefetch {
          SetPhase(id, D.RollingBack);
          return false;
        }
      }
      if !luck.unitNameOk || plan.p.binary == "" {
        SetPhase(id, D.RollingBack);
        return false;
      }
      BackUp(id, plan, names, luck.halves);
      if plan.req.artifactUrl != "" && !luck.readArtifact {
        SetPhase(id, D.RollingBack);
        return false;
      }
      return true;
    }

    /** deploy. Its files are DeployPaths of the request, `backup` is a fresh name. */
    method Deploy(id: Id, plan: D.Plan, backup: Path, luck: D.Luck) returns (ok: bool)
      requires backup != ""
      modifies this
      ensures ok == D.Succeeds(plan, luck) && Now() == D.Deploy(old(Now()), id, plan, BackupNames(backup), luck)
    {
      ok := Open(id, plan, BackupNames(backup), luck);
      if !ok { return; }
      ghost var ready := Now();
      ok := WriteFiles(id, plan, luck);
      if ok { ok := BringUp(id, luck); }
      if ok {
        SetPhase(id, D.Done);
      } else {
        SetPhase(id, D.RollingBack);
        Rollback(id, plan.p, luck.undo, luck.undoPart);
      }
      assert Now() == D.Replace(ready, id, plan, luck);
    }

    /** RecoverDeployments: rolls back every unfinished row, then marks it. */
    method RecoverDeployments(items: seq<D.Item>)
      requires D.Known(items, w)
      modifies this
      ensures Now() == D.Recover(old(Now()), items, |items|)
    {
      for n := 0 to |items|
        invariant Now() == D.Recover(old(Now()), items, n)
      {
        var id := items[n].id;
        if w.journal[id].phase == D.Done || w.journal[id].phase == D.RollingBack { continue; }
        Rollback(id, items[n].p, items[n].undo, items[n].part);
        SetPhase(id, D.RollingBack);
      }
    }
  }
}
