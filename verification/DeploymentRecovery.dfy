/** What crash recovery restores: from one world, over many rows, and over any number of passes that
    are themselves cut short by crashes. */
module DeploymentRecovery {
  import opened Models
  import opened DeploymentPaths
  import opened Deployment

  // ---------- the original files ----------

  predicate Back(files: map<Path, Content>, orig: map<Path, Content>, q: Path) {
    q in orig ==> q in files && files[q] == orig[q]
  }

  /** Every file of `p` that existed before the deployment is back. */
  predicate Restored(w: World, orig: map<Path, Content>, p: Paths) {
    Back(w.files, orig, p.binary) && Back(w.files, orig, p.config) && Back(w.files, orig, p.unit)
  }

  /** The file still is the original, or the journal names a backup that holds the original. Without
      a binary backup recovery restores nothing, so `backup` must be recorded as well. */
  predicate Guarded(w: World, j: Row, orig: map<Path, Content>, path: Path, backup: Path) {
    path in orig ==>
      path in w.files &&
      (w.files[path] == orig[path] || (j.backup != "" && backup != "" && backup in w.store && w.store[backup] == orig[path]))
  }

  predicate WriteAhead(w: World, j: Row, orig: map<Path, Content>, p: Paths) {
    && Guarded(w, j, orig, p.binary, j.backup)
    && Guarded(w, j, orig, p.config, j.backupConfig)
    && Guarded(w, j, orig, p.unit, j.backupUnit)
  }

  /** A recorded backup that exists holds the whole original. */
  predicate Whole(w: World, orig: map<Path, Content>, path: Path, backup: Path) {
    backup != "" && backup in w.store ==> path in orig && w.store[backup] == orig[path]
  }

  predicate Intact(w: World, j: Row, orig: map<Path, Content>, p: Paths) {
    Whole(w, orig, p.binary, j.backup) && Whole(w, orig, p.config, j.backupConfig) && Whole(w, orig, p.unit, j.backupUnit)
  }

  // ---------- one row ----------

  /** What recovery of the row writes to `q`, if anything; the unit comes last. */
  function LandsOn(store: map<Path, Content>, j: Row, item: Item, q: Path): Option<Content> {
    if j.backup == "" then None
    else if q == item.p.unit && item.undo.unit && Readable(store, q, j.backupUnit) then Some(store[j.backupUnit])
    else if q == item.p.config && item.undo.config && Readable(store, q, j.backupConfig) then Some(store[j.backupConfig])
    else if q == item.p.binary && item.undo.binary && Readable(store, q, j.backup) then Some(store[j.backup])
    else None
  }

  /** The original lands on the file, or the file is in place and nothing lands on it. */
  predicate Saved(w: World, j: Row, orig: map<Path, Content>, item: Item, q: Path) {
    q in orig ==>
      match LandsOn(w.store, j, item, q)
      case Some(content) => content == orig[q]
      case None => q in w.files && w.files[q] == orig[q]
  }

  /** Recovery, whatever files it aims at and whichever writes the host refuses, restores the files `p`
      exactly when each original of `p` lands on its own file, or is in place with nothing landing on
      it. Rows that recovery skips are restored exactly when nothing needed restoring. */
  lemma {:induction false} RecoveryRestores(w: World, item: Item, orig: map<Path, Content>, p: Paths)
    requires item.id in w.journal
    ensures Restored(RecoverRow(Begin(w), item).w, orig, p) <==>
            if w.journal[item.id].phase == Done || w.journal[item.id].phase == RollingBack then Restored(w, orig, p)
            else Saved(w, w.journal[item.id], orig, item, p.binary) && Saved(w, w.journal[item.id], orig, item, p.config) &&
                 Saved(w, w.journal[item.id], orig, item, p.unit)
  {
    hide Undone, Undo, LandsOn;
    if !LeftAlone(w.journal[item.id]) {
      UndoneAt(w, w.journal[item.id], item, p.binary);
      UndoneAt(w, w.journal[item.id], item, p.config);
      UndoneAt(w, w.journal[item.id], item, p.unit);
    }
  }

  lemma UndoneAt(w: World, j: Row, item: Item, q: Path)
    ensures var files := Undone(w, j, item.p, item.undo);
            match LandsOn(w.store, j, item, q)
            case Some(content) => q in files && files[q] == content
            case None => SameAt(files, w.files, q)
  {
  }

  /** The same for a row whose definition still names the deployed files: each original must be in its
      recorded backup if that can be read and written back, and in place otherwise. Half-written
      backups are included. */
  lemma {:induction false} RecoveryRestoresOwn(w: World, item: Item, orig: map<Path, Content>, p: Paths)
    requires item.id in w.journal && item.p == p && Named(p)
    requires w.journal[item.id].phase != Done && w.journal[item.id].phase != RollingBack
    ensures var j := w.journal[item.id];
            Restored(RecoverRow(Begin(w), item).w, orig, p) <==>
            && KeptOrInPlace(w, j, orig, p.binary, j.backup, item.undo.binary)
            && KeptOrInPlace(w, j, orig, p.config, j.backupConfig, item.undo.config)
            && KeptOrInPlace(w, j, orig, p.unit, j.backupUnit, item.undo.unit)
    ensures item.undo == ALL && Intact(w, w.journal[item.id], orig, p) && (forall q <- Targets(p) | q in orig :: q in w.files) ==>
              (Restored(RecoverRow(Begin(w), item).w, orig, p) <==> WriteAhead(w, w.journal[item.id], orig, p))
  {
    RecoveryRestores(w, item, orig, p);
    assert p.binary in Targets(p) && p.config in Targets(p) && p.unit in Targets(p);
  }

  predicate KeptOrInPlace(w: World, j: Row, orig: map<Path, Content>, path: Path, backup: Path, accepted: bool) {
    path in orig ==>
      if j.backup != "" && accepted && Readable(w.store, path, backup) then w.store[backup] == orig[path]
      else path in w.files && w.files[path] == orig[path]
  }

  // ---------- traces ----------

  /** All worlds that `r` adds to `t` satisfy `inv`. */
  ghost predicate Along(t: Trace, r: Trace, inv: World -> bool) {
    t.past <= r.past && forall i | |t.past| <= i < |r.past| :: inv(r.past[i])
  }

  lemma GoAlong(t: Trace, r: Trace, next: World, inv: World -> bool)
    requires Along(t, r, inv) && inv(next)
    ensures Along(t, Go(r, next), inv)
  {
  }

  lemma AlongJoins(t: Trace, r: Trace, s: Trace, inv: World -> bool)
    requires Along(t, r, inv) && Along(r, s, inv)
    ensures Along(t, s, inv)
  {
  }

  /** What holds in each of the worlds that a rollback passes through holds along it. `held(files)` is
      about the files alone: nothing else changes but the service flag. */
  lemma UndoAlong(t: Trace, j: Row, p: Paths, undo: Writes, part: Content, inv: World -> bool)
    requires forall running: bool :: inv(t.w.(running := running))
    requires j.backup != "" ==>
               forall running: bool ::
                 && inv(t.w.(files := UndoneBinary(t.w, j, p, undo), running := running))
                 && inv(t.w.(files := UndoneConfig(t.w, j, p, undo), running := running))
                 && inv(t.w.(files := UndoneUnit(t.w, j, p, undo), running := running))
                 && (undo.unit && Readable(t.w.store, p.unit, j.backupUnit)
                     ==> inv(t.w.(files := UndoneConfig(t.w, j, p, undo)[p.unit := part], running := running)))
    ensures Along(t, Undo(t, j, p, undo, part), inv) && inv(Undo(t, j, p, undo, part).w)
  {
    var t0 := Service(t, false);
    GoAlong(t, t, t0.w, inv);
    if j.backup != "" {
      var t1 := WriteBack(t0, p.binary, j.backup, undo.binary);
      assert t1.w == t.w.(files := UndoneBinary(t.w, j, p, undo), running := false);
      if t1 != t0 { GoAlong(t, t0, t1.w, inv); }
      var t2 := WriteBack(t1, p.config, j.backupConfig, undo.config);
      assert t2.w == t.w.(files := UndoneConfig(t.w, j, p, undo), running := false);
      if t2 != t1 { GoAlong(t, t1, t2.w, inv); }
      var t3 := WriteBackUnit(t2, p.unit, j.backupUnit, undo.unit, part);
      assert t3.w == t.w.(files := UndoneUnit(t.w, j, p, undo), running := false);
      if t3 != t2 {
        var half := Write(t2, p.unit, part);
        GoAlong(t, t2, half.w, inv);
        GoAlong(t, half, t3.w, inv);
      }
      var r := Undo(t, j, p, undo, part);
      assert r == Go(t3, r.w) && r.w == t.w.(files := UndoneUnit(t.w, j, p, undo), running := r.w.running);
      GoAlong(t, t3, r.w, inv);
    }
  }

  // ---------- rows of other deployments ----------

  predicate Touches(p: Paths, q: Path) {
    q == p.binary || q == p.config || q == p.unit
  }

  predicate Disjoint(p: Paths, r: Paths) {
    !Touches(p, r.binary) && !Touches(p, r.config) && !Touches(p, r.unit)
  }

  predicate SameAt(a: map<Path, Content>, b: map<Path, Content>, q: Path) {
    (q in a <==> q in b) && (q in a ==> a[q] == b[q])
  }

  predicate SameOn(a: map<Path, Content>, b: map<Path, Content>, p: Paths) {
    SameAt(a, b, p.binary) && SameAt(a, b, p.config) && SameAt(a, b, p.unit)
  }

  /** Nothing that matters to the deployment `id` of the files `p` differs. */
  predicate SameJob(x: World, y: World, id: Id, p: Paths) {
    && id in x.journal && id in y.journal && x.journal[id] == y.journal[id]
    && x.store == y.store && SameOn(x.files, y.files, p)
  }

  function SameAs(x: World, id: Id, p: Paths): World -> bool {
    y => SameJob(x, y, id, p)
  }

  /** Recovery of another row, which is skipped or has other files, changes nothing of the job. */
  lemma ForeignRow(t: Trace, item: Item, id: Id, p: Paths)
    requires item.id in t.w.journal && id in t.w.journal && item.id != id
    requires LeftAlone(t.w.journal[item.id]) || Disjoint(p, item.p)
    ensures Along(t, RecoverRow(t, item), SameAs(t.w, id, p))
    ensures SameJob(t.w, RecoverRow(t, item).w, id, p)
  {
    if !LeftAlone(t.w.journal[item.id]) {
      ForeignUndo(t, t.w.journal[item.id], item, id, p);
      var u := Undo(t, t.w.journal[item.id], item.p, item.undo, item.part);
      GoAlong(t, u, Mark(u, item.id, RollingBack).w, SameAs(t.w, id, p));
    }
  }

  lemma ForeignUndo(t: Trace, j: Row, item: Item, id: Id, p: Paths)
    requires id in t.w.journal && Disjoint(p, item.p)
    ensures Along(t, Undo(t, j, item.p, item.undo, item.part), SameAs(t.w, id, p))
    ensures SameJob(t.w, Undo(t, j, item.p, item.undo, item.part).w, id, p)
  {
    var x, r := t.w, item.p;
    UndoneElsewhere(x, j, r, item.undo, item.part, p);
    var a, b, c := UndoneBinary(x, j, r, item.undo), UndoneConfig(x, j, r, item.undo), UndoneUnit(x, j, r, item.undo);
    forall running: bool, files | files in {x.files, a, b, c, b[r.unit := item.part]}
      ensures SameAs(x, id, p)(x.(files := files, running := running))
    {
    }
    UndoAlong(t, j, r, item.undo, item.part, SameAs(x, id, p));
  }

  /** A rollback of other files. */
  lemma UndoneElsewhere(x: World, j: Row, r: Paths, undo: Writes, part: Content, p: Paths)
    requires Disjoint(p, r)
    ensures SameOn(x.files, UndoneBinary(x, j, r, undo), p) && SameOn(x.files, UndoneConfig(x, j, r, undo), p)
    ensures SameOn(x.files, UndoneUnit(x, j, r, undo), p) && SameOn(x.files, UndoneConfig(x, j, r, undo)[r.unit := part], p)
  {
  }

  // ---------- its own row ----------

  /** A deployment that a crash has not hurt: it is unfinished with the journal ahead of the files, or
      finished with its files in place. */
  predicate Sound(x: World, id: Id, orig: map<Path, Content>, p: Paths) {
    && id in x.journal
    && if LeftAlone(x.journal[id]) then Restored(x, orig, p)
       else WriteAhead(x, x.journal[id], orig, p) && Intact(x, x.journal[id], orig, p)
  }

  function SoundFor(id: Id, orig: map<Path, Content>, p: Paths): World -> bool {
    x => Sound(x, id, orig, p)
  }

  /** The restoring writes may overwrite what they overwrite, even with half a file. */
  lemma OwnRow(t: Trace, item: Item, orig: map<Path, Content>)
    requires Sound(t.w, item.id, orig, item.p) && Named(item.p) && item.undo == ALL
    ensures var r := RecoverRow(t, item);
            Along(t, r, SoundFor(item.id, orig, item.p)) && Sound(r.w, item.id, orig, item.p) && LeftAlone(r.w.journal[item.id])
  {
    if !LeftAlone(t.w.journal[item.id]) {
      var inv := SoundFor(item.id, orig, item.p);
      var u := Undo(t, t.w.journal[item.id], item.p, ALL, item.part);
      OwnUndo(t, item.id, orig, item.p, item.part);
      RecoveryRestoresOwn(t.w, item, orig, item.p);
      assert RecoverRow(t, item).w.files == RecoverRow(Begin(t.w), item).w.files;
      GoAlong(t, u, Mark(u, item.id, RollingBack).w, inv);
    }
  }

  /** A file whose recorded backup can be read may be overwritten with anything. */
  lemma OverwriteSound(x: World, id: Id, orig: map<Path, Content>, p: Paths, path: Path, backup: Path, data: Content, running: bool)
    requires Sound(x, id, orig, p) && Named(p) && !LeftAlone(x.journal[id]) && x.journal[id].backup != ""
    requires (path, backup) in {(p.binary, x.journal[id].backup), (p.config, x.journal[id].backupConfig), (p.unit, x.journal[id].backupUnit)}
    ensures Sound(x.(running := running), id, orig, p)
    ensures Readable(x.store, path, backup) ==> Sound(x.(files := x.files[path := data], running := running), id, orig, p)
  {
  }

  lemma OwnUndo(t: Trace, id: Id, orig: map<Path, Content>, p: Paths, part: Content)
    requires Sound(t.w, id, orig, p) && Named(p) && !LeftAlone(t.w.journal[id])
    ensures Along(t, Undo(t, t.w.journal[id], p, ALL, part), SoundFor(id, orig, p))
  {
    var j, inv := t.w.journal[id], SoundFor(id, orig, p);
    if j.backup != "" {
      var w1 := t.w.(files := UndoneBinary(t.w, j, p, ALL));
      var w2 := t.w.(files := UndoneConfig(t.w, j, p, ALL));
      var w3 := t.w.(files := UndoneUnit(t.w, j, p, ALL));
      forall running: bool
        ensures inv(t.w.(running := running)) && inv(w1.(running := running)) && inv(w2.(running := running)) && inv(w3.(running := running))
        ensures Readable(t.w.store, p.unit, j.backupUnit) ==> inv(w2.(files := w2.files[p.unit := part], running := running))
      {
        hide Sound;
        OverwriteFrom(t.w, id, orig, p, part, running);
      }
    }
    UndoAlong(t, j, p, ALL, part, inv);
  }

  lemma OverwriteFrom(w: World, id: Id, orig: map<Path, Content>, p: Paths, part: Content, running: bool)
    requires Sound(w, id, orig, p) && Named(p) && !LeftAlone(w.journal[id]) && w.journal[id].backup != ""
    ensures var j := w.journal[id];
            && Sound(w.(running := running), id, orig, p)
            && Sound(w.(files := UndoneBinary(w, j, p, ALL), running := running), id, orig, p)
            && Sound(w.(files := UndoneConfig(w, j, p, ALL), running := running), id, orig, p)
            && Sound(w.(files := UndoneUnit(w, j, p, ALL), running := running), id, orig, p)
            && (Readable(w.store, p.unit, j.backupUnit) ==>
                  Sound(w.(files := UndoneConfig(w, j, p, ALL)[p.unit := part], running := running), id, orig, p))
  {
    var j := w.journal[id];
    var w1 := w.(files := UndoneBinary(w, j, p, ALL));
    var w2 := w.(files := UndoneConfig(w, j, p, ALL));
    hide WriteAhead, Intact, Restored;
    OverwriteSound(w, id, orig, p, p.binary, j.backup, if j.backup in w.store then w.store[j.backup] else "", running);
    OverwriteSound(w, id, orig, p, p.binary, j.backup, if j.backup in w.store then w.store[j.backup] else "", w.running);
    assert Sound(w1, id, orig, p);
    OverwriteSound(w1, id, orig, p, p.config, j.backupConfig, if j.backupConfig in w.store then w.store[j.backupConfig] else "", running);
    OverwriteSound(w1, id, orig, p, p.config, j.backupConfig, if j.backupConfig in w.store then w.store[j.backupConfig] else "", w.running);
    assert Sound(w2, id, orig, p);
    OverwriteSound(w2, id, orig, p, p.unit, j.backupUnit, if j.backupUnit in w.store then w.store[j.backupUnit] else "", running);
    OverwriteSound(w2, id, orig, p, p.unit, j.backupUnit, part, running);
  }

  // ---------- whole passes ----------

  /** Of the rows that this pass does not skip, the row `id` is resolved to the files `p`, and every
      other row has other files. */
  ghost predicate Fits(items: seq<Item>, x: World, id: Id, p: Paths) {
    Known(items, x) &&
    forall i | 0 <= i < |items| ::
      LeftAlone(x.journal[items[i].id]) || if items[i].id == id then items[i].p == p else Disjoint(p, items[i].p)
  }

  /** The host accepts the restoring writes of the row `id`. */
  ghost predicate Accepting(items: seq<Item>, id: Id) {
    forall i | 0 <= i < |items| :: items[i].id == id ==> items[i].undo == ALL
  }

  /** Recovery never touches a row that it skips, so such a row is skipped throughout the pass. */
  lemma {:induction false} SkippedStays(t: Trace, items: seq<Item>, n: nat, d: Id)
    requires n <= |items| && Known(items, t.w) && d in t.w.journal && LeftAlone(t.w.journal[d])
    ensures Recover(t, items, n).w.journal[d] == t.w.journal[d]
  {
    if n > 0 {
      SkippedStays(t, items, n - 1, d);
    }
  }

  /** One row of a pass. */
  lemma RowKeepsSound(t: Trace, item: Item, id: Id, orig: map<Path, Content>, p: Paths)
    requires Sound(t.w, id, orig, p) && Named(p) && item.id in t.w.journal
    requires LeftAlone(t.w.journal[item.id]) || if item.id == id then item.p == p && item.undo == ALL else Disjoint(p, item.p)
    ensures var r := RecoverRow(t, item);
            && Along(t, r, SoundFor(id, orig, p)) && Sound(r.w, id, orig, p)
            && (item.id == id || LeftAlone(t.w.journal[id]) ==> LeftAlone(r.w.journal[id]))
  {
    hide RecoverRow, Sound;
    SoundKnown(t.w, id, orig, p);
    if LeftAlone(t.w.journal[item.id]) {
      Skipped(t, item);
    } else if item.id == id {
      OwnRow(t, item, orig);
    } else {
      ForeignRow(t, item, id, p);
      SameIsSound(t, RecoverRow(t, item), id, orig, p);
    }
  }

  lemma Skipped(t: Trace, item: Item)
    requires item.id in t.w.journal && LeftAlone(t.w.journal[item.id])
    ensures RecoverRow(t, item) == t
  {
  }

  /** One more row of a pass. */
  lemma PassStep(t: Trace, r: Trace, item: Item, id: Id, orig: map<Path, Content>, p: Paths)
    requires Along(t, r, SoundFor(id, orig, p)) && Sound(r.w, id, orig, p) && Named(p) && item.id in r.w.journal && id in r.w.journal
    requires LeftAlone(r.w.journal[item.id]) || if item.id == id then item.p == p && item.undo == ALL else Disjoint(p, item.p)
    ensures var s := RecoverRow(r, item);
            && Along(t, s, SoundFor(id, orig, p)) && Sound(s.w, id, orig, p) && id in s.w.journal
            && (item.id == id || LeftAlone(r.w.journal[id]) ==> LeftAlone(s.w.journal[id]))
  {
    hide RecoverRow, Sound, Along, Disjoint, Named;
    RowKeepsSound(r, item, id, orig, p);
    AlongJoins(t, r, RecoverRow(r, item), SoundFor(id, orig, p));
    SoundKnown(RecoverRow(r, item).w, id, orig, p);
  }

  /** The row `id` is among the first `n`. */
  ghost predicate Among(items: seq<Item>, n: nat, id: Id)
    requires n <= |items|
  {
    exists i | 0 <= i < n :: items[i].id == id
  }

  lemma {:induction false} PassKeepsSound(t: Trace, items: seq<Item>, n: nat, id: Id, orig: map<Path, Content>, p: Paths)
    requires n <= |items| && Fits(items, t.w, id, p) && Accepting(items, id) && Named(p) && Sound(t.w, id, orig, p)
    ensures var r := Recover(t, items, n);
            && Along(t, r, SoundFor(id, orig, p)) && Sound(r.w, id, orig, p) && id in r.w.journal
            && (Among(items, n, id) ==> LeftAlone(r.w.journal[id]))
  {
    SoundKnown(t.w, id, orig, p);
    if n > 0 {
      hide RecoverRow, Sound, Along, Disjoint, Named, Fits, Accepting, LeftAlone, Among;
      var r := Recover(t, items, n - 1);
      FitsKnown(items, t.w, id, p);
      PassKeepsSound(t, items, n - 1, id, orig, p);
      RowFits(t, items, n - 1, id, p);
      PassStep(t, r, items[n - 1], id, orig, p);
      assert Among(items, n, id) ==> items[n - 1].id == id || Among(items, n - 1, id) by { AmongStep(items, n, id); }
    }
  }

  lemma FitsKnown(items: seq<Item>, x: World, id: Id, p: Paths)
    requires Fits(items, x, id, p)
    ensures Known(items, x)
  {
  }

  /** When the loop comes to row `n`, the row still fits. */
  lemma RowFits(t: Trace, items: seq<Item>, n: nat, id: Id, p: Paths)
    requires n < |items| && Fits(items, t.w, id, p) && Accepting(items, id)
    ensures var x, item := Recover(t, items, n).w, items[n];
            && item.id in x.journal
            && (LeftAlone(x.journal[item.id]) || if item.id == id then item.p == p && item.undo == ALL else Disjoint(p, item.p))
  {
    hide Disjoint;
    if LeftAlone(t.w.journal[items[n].id]) { SkippedStays(t, items, n, items[n].id); }
  }

  lemma SoundKnown(x: World, id: Id, orig: map<Path, Content>, p: Paths)
    requires Sound(x, id, orig, p)
    ensures id in x.journal
  {
  }

  lemma SameIsSound(t: Trace, r: Trace, id: Id, orig: map<Path, Content>, p: Paths)
    requires Sound(t.w, id, orig, p) && Along(t, r, SameAs(t.w, id, p)) && SameJob(t.w, r.w, id, p)
    ensures Along(t, r, SoundFor(id, orig, p)) && Sound(r.w, id, orig, p)
    ensures r.w.journal[id] == t.w.journal[id]
  {
    forall i | |t.past| <= i < |r.past| ensures SoundFor(id, orig, p)(r.past[i]) {
      assert SameAs(t.w, id, p)(r.past[i]);
    }
  }

  /** Where a complete pass leaves the journal: every row it lists reads DONE or ROLLING_BACK, each that
      read anything else now reads ROLLING_BACK, and nothing else about any row changes. */
  lemma {:induction false} PassEnds(t: Trace, items: seq<Item>, n: nat, d: Id)
    requires n <= |items| && Known(items, t.w) && d in t.w.journal
    ensures Recover(t, items, n).w.journal[d] ==
            if Among(items, n, d) && t.w.journal[d].phase != Done && t.w.journal[d].phase != RollingBack
            then t.w.journal[d].(phase := RollingBack) else t.w.journal[d]
  {
    if n > 0 {
      hide Among;
      PassEnds(t, items, n - 1, d);
      AmongStep(items, n, d);
    }
  }

  lemma AmongStep(items: seq<Item>, n: nat, id: Id)
    requires 0 < n <= |items|
    ensures Among(items, n, id) <==> items[n - 1].id == id || Among(items, n - 1, id)
  {
  }

  // ---------- any number of crashes ----------

  /** Pass `i` starts in `worlds[i]` and is cut short in `worlds[i + 1]`, after any of its effects or
      before the first. */
  ghost predicate Crashes(worlds: seq<World>, passes: seq<seq<Item>>, id: Id, p: Paths) {
    |worlds| == |passes| + 1 &&
    forall i | 0 <= i < |passes| :: Cut(worlds[i], passes[i], worlds[i + 1], id, p)
  }

  ghost predicate Cut(x: World, items: seq<Item>, y: World, id: Id, p: Paths) {
    Fits(items, x, id, p) && y in Recover(Begin(x), items, |items|).past
  }

  lemma CutKeepsSound(x: World, items: seq<Item>, y: World, id: Id, orig: map<Path, Content>, p: Paths)
    requires Cut(x, items, y, id, p) && Accepting(items, id) && Named(p) && Sound(x, id, orig, p)
    ensures Sound(y, id, orig, p)
  {
    var r := Recover(Begin(x), items, |items|);
    PassKeepsSound(Begin(x), items, |items|, id, orig, p);
    var i :| 0 <= i < |r.past| && r.past[i] == y;
    if i == 0 {
      assert r.past[0] == Begin(x).past[0];
    } else {
      assert SoundFor(id, orig, p)(r.past[i]);
    }
  }

  lemma {:induction false} CrashesKeepSound(worlds: seq<World>, passes: seq<seq<Item>>, n: nat, id: Id, orig: map<Path, Content>, p: Paths)
    requires Crashes(worlds, passes, id, p) && Named(p) && Sound(worlds[0], id, orig, p) && n < |worlds|
    requires forall items <- passes :: Accepting(items, id)
    ensures Sound(worlds[n], id, orig, p)
  {
    if n > 0 {
      CrashesKeepSound(worlds, passes, n - 1, id, orig, p);
      assert Cut(worlds[n - 1], passes[n - 1], worlds[n], id, p);
      CutKeepsSound(worlds[n - 1], passes[n - 1], worlds[n], id, orig, p);
    }
  }

  /** Recovery may crash any number of times, after any effect, half-written unit files included: the
      first pass that completes leaves every file of the deployment as it was before. */
  lemma {:induction false} RecoveryConverges(worlds: seq<World>, passes: seq<seq<Item>>, last: seq<Item>, id: Id, orig: map<Path, Content>, p: Paths)
    requires Crashes(worlds, passes, id, p) && Named(p) && Sound(worlds[0], id, orig, p)
    requires Fits(last, worlds[|passes|], id, p) && Among(last, |last|, id)
    requires forall items <- passes + [last] :: Accepting(items, id)
    ensures Restored(Recover(Begin(worlds[|passes|]), last, |last|).w, orig, p)
  {
    assert last in passes + [last] && forall items <- passes :: items in passes + [last];
    CrashesKeepSound(worlds, passes, |passes|, id, orig, p);
    PassKeepsSound(Begin(worlds[|passes|]), last, |last|, id, orig, p);
  }

  // ---------- rows that are skipped ----------

  lemma {:induction false} PassLeavesAlone(t: Trace, items: seq<Item>, n: nat, id: Id, p: Paths)
    requires n <= |items| && Fits(items, t.w, id, p) && id in t.w.journal && LeftAlone(t.w.journal[id])
    ensures var r := Recover(t, items, n); Along(t, r, SameAs(t.w, id, p)) && SameJob(t.w, r.w, id, p)
  {
    if n > 0 {
      hide RecoverRow;
      var r, item := Recover(t, items, n - 1), items[n - 1];
      PassLeavesAlone(t, items, n - 1, id, p);
      if LeftAlone(t.w.journal[item.id]) {
        SkippedStays(t, items, n - 1, item.id);
        Skipped(r, item);
      } else {
        ForeignRow(r, item, id, p);
        SameIsSame(r, RecoverRow(r, item), t.w, id, p);
      }
      AlongJoins(t, r, RecoverRow(r, item), SameAs(t.w, id, p));
    }
  }

  lemma SameIsSame(t: Trace, r: Trace, x: World, id: Id, p: Paths)
    requires SameJob(x, t.w, id, p) && Along(t, r, SameAs(t.w, id, p)) && SameJob(t.w, r.w, id, p)
    ensures Along(t, r, SameAs(x, id, p)) && SameJob(x, r.w, id, p)
  {
    forall i | |t.past| <= i < |r.past| ensures SameAs(x, id, p)(r.past[i]) {
      assert SameAs(t.w, id, p)(r.past[i]);
    }
  }

  /** No pass, complete or cut short, and no number of them, changes a file of a skipped row. */
  lemma {:induction false} SkippedIsFinal(worlds: seq<World>, passes: seq<seq<Item>>, n: nat, id: Id, p: Paths)
    requires Crashes(worlds, passes, id, p) && n < |worlds| && id in worlds[0].journal && LeftAlone(worlds[0].journal[id])
    ensures SameJob(worlds[0], worlds[n], id, p)
  {
    if n > 0 {
      SkippedIsFinal(worlds, passes, n - 1, id, p);
      var x, y, items := worlds[n - 1], worlds[n], passes[n - 1];
      assert Cut(x, items, y, id, p);
      PassLeavesAlone(Begin(x), items, |items|, id, p);
      var r := Recover(Begin(x), items, |items|);
      var i :| 0 <= i < |r.past| && r.past[i] == y;
      if i == 0 {
        assert r.past[0] == Begin(x).past[0];
      } else {
        assert SameAs(x, id, p)(r.past[i]);
      }
    }
  }

  // ---------- refused writes ----------

  /** The deployment changed the file, so recovery has to write it back. */
  predicate Changed(w: World, orig: map<Path, Content>, q: Path) {
    !Back(w.files, orig, q)
  }

  /** Recovery marks a row even if the host refused a restoring write, and never comes back to it: after
      one such pass over an unfinished deployment, and however many later ones, the files are the old
      ones exactly if no write was refused that mattered. */
  lemma {:induction false} RefusalIsFinal(w: World, item: Item, orig: map<Path, Content>, worlds: seq<World>, passes: seq<seq<Item>>, n: nat)
    requires Sound(w, item.id, orig, item.p) && Named(item.p)
    requires w.journal[item.id].phase != Done && w.journal[item.id].phase != RollingBack
    requires worlds != [] && worlds[0] == RecoverRow(Begin(w), item).w && Crashes(worlds, passes, item.id, item.p) && n < |worlds|
    ensures Restored(worlds[n], orig, item.p) <==>
            && (Changed(w, orig, item.p.binary) ==> item.undo.binary)
            && (Changed(w, orig, item.p.config) ==> item.undo.config)
            && (Changed(w, orig, item.p.unit) ==> item.undo.unit)
  {
    RecoveryRestoresOwn(w, item, orig, item.p);
    SkippedIsFinal(worlds, passes, n, item.id, item.p);
  }
}
