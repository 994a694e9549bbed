/** Whom a target selects, told from the tables alone: the laws of label matching, on both resolvers and
    on the desired state, and the desired state written out row by row. */
module Selection {
  import opened Models
  import opened HubStore
  import opened DesiredState
  import opened TargetResolution

  // ---------- label targets and label groups ----------

  function LabelTargetOf(key: string, value: string): Target {
    Target(LabelTarget, [], [], key, value)
  }

  /** The node is known and reached, by the resolver of the sync or by the one of the Hub's schedules. */
  predicate Reached(db: Db, t: Target, node: Id)
    requires Resolvable(db, t)
  {
    node in db.labels && (Matches(db, node, t) || Names(db, t, node))
  }

  /** A node that carries the label is reached by the pair and by the key alone, under both resolvers;
      a node without the key is reached by neither; and whom a pair with a value reaches carries it. */
  lemma {:induction false} LabelTargetReaches(db: Db, key: string, value: string, node: Id)
    requires node in db.labels
    ensures key in db.labels[node] && db.labels[node][key] == value ==>
              Matches(db, node, LabelTargetOf(key, value)) && Names(db, LabelTargetOf(key, value), node)
    ensures key in db.labels[node] ==> Matches(db, node, LabelTargetOf(key, "")) && Names(db, LabelTargetOf(key, ""), node)
    ensures key !in db.labels[node] ==> !Reached(db, LabelTargetOf(key, value), node)
    ensures value != "" && Reached(db, LabelTargetOf(key, value), node) ==> key in db.labels[node] && db.labels[node][key] == value
  {
  }

  /** Two different values of a key never share a node. */
  lemma {:induction false} ValuesSeparate(db: Db, key: string, v: string, u: string, node: Id)
    requires v != "" && u != "" && Reached(db, LabelTargetOf(key, v), node) && Reached(db, LabelTargetOf(key, u), node)
    ensures v == u
  {
    LabelTargetReaches(db, key, v, node);
    LabelTargetReaches(db, key, u, node);
  }

  /** The same for a label group: without member rows it reaches exactly the nodes that carry its pair. */
  lemma {:induction false} LabelGroupReaches(db: Db, gid: Id, node: Id)
    requires node in db.labels && gid in db.groups && db.groups[gid].isLabel && (gid, node) !in db.members
    ensures var t, g := Target(GroupTarget, [], [gid], "", ""), db.groups[gid];
            && (Matches(db, node, t) <==> Names(db, t, node))
            && (Names(db, t, node) <==> g.labelKey in db.labels[node] && g.labelValue in {"", db.labels[node][g.labelKey]})
  {
    assert gid in [gid];
  }

  /** The node lists of targets and the member rows of static groups are taken literally. */
  lemma {:induction false} ListsAreLiteral(db: Db, nodes: seq<Id>, gid: Id, node: Id)
    requires node in db.labels
    ensures Matches(db, node, Target(NodeTarget, nodes, [], "", "")) <==> node in nodes
    ensures Names(db, Target(NodeTarget, nodes, [], "", ""), node) <==> node in nodes
    ensures gid in db.groups && !db.groups[gid].isLabel ==>
              var t := Target(GroupTarget, [], [gid], "", "");
              (Matches(db, node, t) <==> (gid, node) in db.members) && (Names(db, t, node) <==> (gid, node) in db.members)
  {
    assert gid in [gid];
  }

  /** After the labels of a node were set, an enabled task for one of the new pairs is desired there, and
      one for another value of the same key is not. */
  lemma {:induction false} LabelsDecide(db: Db, node: Id, labels: Labels, ref: Ref, key: string, value: string)
    requires node in db.labels && ref in db.objects && key in labels
    requires db.objects[ref].def.TaskDef? && db.objects[ref].def.taskEnabled
    requires db.objects[ref].def.target == LabelTargetOf(key, value)
    ensures var after := Transact(db, SetLabels(node, labels));
            node in after.labels && (ref in Desired(after, node) <==> value == "" || value == labels[key])
  {
    var after := Transact(db, SetLabels(node, labels));
    LabelTargetReaches(after, key, value, node);
    assert value == "" ==> LabelTargetOf(key, value) == LabelTargetOf(key, "");
  }

  // ---------- the desired state, row by row ----------

  /** The node belongs to a group of the target: by its labels, or by a member row. */
  ghost predicate BelongsTo(db: Db, node: Id, groups: seq<Id>)
    requires node in db.labels
  {
    exists g <- groups | g in db.groups ::
      || (g, node) in db.members
      || (db.groups[g].isLabel && db.groups[g].labelKey in db.labels[node] &&
          (db.groups[g].labelValue == "" || db.groups[g].labelValue == db.labels[node][db.groups[g].labelKey]))
  }

  /** The task of that id is enabled and aimed at the node. */
  ghost predicate TaskFor(db: Db, node: Id, task: Id)
    requires node in db.labels
  {
    && Ref(Task, task) in db.objects
    && var d := db.objects[Ref(Task, task)].def;
       && d.TaskDef? && d.taskEnabled
       && match d.target.kind
          case NodeTarget => node in d.target.nodeIds
          case GroupTarget => BelongsTo(db, node, d.target.groupIds)
          case LabelTarget => d.target.labelKey in db.labels[node] && d.target.labelValue in {"", db.labels[node][d.target.labelKey]}
          case OtherTarget => false
  }

  lemma BelongsIsMatched(db: Db, node: Id, t: Target)
    requires node in db.labels && t.kind == GroupTarget
    ensures Matches(db, node, t) <==> BelongsTo(db, node, t.groupIds)
  {
    if BelongsTo(db, node, t.groupIds) {
      var g :| g in t.groupIds && g in db.groups && InGroup(db.labels[node], db.groups[g], (g, node) in db.members);
      assert g in MyGroups(db, node);
    }
    if Matches(db, node, t) {
      var g :| g in t.groupIds && g in MyGroups(db, node);
      assert g in db.groups;
    }
  }

  lemma TaskForIsWanted(db: Db, node: Id, task: Id)
    requires Keyed(db) && node in db.labels
    ensures TaskFor(db, node, task) <==> Ref(Task, task) in db.objects && WantsTask(db, node, db.objects[Ref(Task, task)])
  {
    if Ref(Task, task) in db.objects && db.objects[Ref(Task, task)].def.TaskDef? {
      var t := db.objects[Ref(Task, task)].def.target;
      if t.kind == GroupTarget { BelongsIsMatched(db, node, t); }
    }
  }

  /** A node should hold exactly: its enabled tasks, the enabled scripts that those name, all schedules of
      those, enabled or not, and the applications assigned to it, each as it is stored. */
  lemma {:induction false} DesiredWrittenOut(db: Db, node: Id, id: Id)
    requires Keyed(db) && node in db.labels
    ensures Ref(Task, id) in Desired(db, node) <==> TaskFor(db, node, id)
    ensures Ref(Script, id) in Desired(db, node) <==>
            && id != "" && Ref(Script, id) in db.objects && db.objects[Ref(Script, id)].def.scriptEnabled
            && exists task :: TaskFor(db, node, task) && db.objects[Ref(Task, task)].def.scriptId == id
    ensures Ref(Schedule, id) in Desired(db, node) <==>
            Ref(Schedule, id) in db.objects && TaskFor(db, node, db.objects[Ref(Schedule, id)].def.taskId)
    ensures Ref(Application, id) in Desired(db, node) <==> Ref(Application, id) in db.objects && (id, node) in db.assignments
    ensures forall ref <- Desired(db, node) :: Desired(db, node)[ref] == db.objects[ref]
  {
    hide Matches, BelongsTo;
    TaskForIsWanted(db, node, id);
    forall task ensures TaskFor(db, node, task) <==> Ref(Task, task) in db.objects && WantsTask(db, node, db.objects[Ref(Task, task)]) {
      TaskForIsWanted(db, node, task);
    }
    if Ref(Script, id) in db.objects { ScriptWanted(db, node, id); }
    assert Ref(Script, id) in db.objects ==> KindOf(db.objects[Ref(Script, id)].def) == Script;
    assert Ref(Schedule, id) in db.objects ==> KindOf(db.objects[Ref(Schedule, id)].def) == Schedule;
    assert Ref(Application, id) in db.objects ==> KindOf(db.objects[Ref(Application, id)].def) == Application;
    assert Ref(Task, id) in db.objects ==> KindOf(db.objects[Ref(Task, id)].def) == Task;
  }

  lemma ScriptWanted(db: Db, node: Id, id: Id)
    requires Keyed(db) && node in db.labels && Ref(Script, id) in db.objects
    ensures db.objects[Ref(Script, id)].def.ScriptDef?
    ensures Wanted(db, node, Ref(Script, id)) <==>
            && id != "" && db.objects[Ref(Script, id)].def.scriptEnabled
            && exists task :: TaskFor(db, node, task) && db.objects[Ref(Task, task)].def.scriptId == id
  {
    assert RefOf(db.objects[Ref(Script, id)]) == Ref(Script, id);
    assert KindOf(db.objects[Ref(Script, id)].def) == Script;
    if Wanted(db, node, Ref(Script, id)) {
      var t :| t in db.objects && WantsTask(db, node, db.objects[t]) && db.objects[t].def.scriptId == id;
      assert t == Ref(Task, db.objects[t].id);
      TaskForIsWanted(db, node, t.id);
    }
    if exists task :: TaskFor(db, node, task) && db.objects[Ref(Task, task)].def.scriptId == id {
      var task :| TaskFor(db, node, task) && db.objects[Ref(Task, task)].def.scriptId == id;
      TaskForIsWanted(db, node, task);
    }
  }
}
