/** The Hub's second target resolver, ResolveTarget, and its agreement with the desired state. */
module TargetResolution {
  import opened Models
  import opened HubStore
  import opened DesiredState

  /** ResolveTarget's own rule for one group: label groups are dynamic and ignore their member rows. */
  predicate GroupNames(db: Db, gid: Id, node: Id)
    requires gid in db.groups
  {
    var g := db.groups[gid];
    if g.isLabel then node in db.labels && LabelHit(db.labels[node], g.labelKey, g.labelValue)
    else (gid, node) in db.members
  }

  predicate Resolvable(db: Db, t: Target) {
    t.kind == GroupTarget ==> forall g <- t.groupIds :: g in db.groups
  }

  predicate Names(db: Db, t: Target, node: Id)
    requires Resolvable(db, t)
  {
    match t.kind
    case NodeTarget => node in t.nodeIds
    case GroupTarget => exists g <- t.groupIds :: GroupNames(db, g, node)
    case LabelTarget => node in db.labels && LabelHit(db.labels[node], t.labelKey, t.labelValue)
    case OtherTarget => node in t.nodeIds
  }

  /** The closure `add`: append what was not seen before. */
  method AddNew(out: seq<Id>, ids: seq<Id>) returns (grown: seq<Id>)
    requires Distinct(out)
    ensures Distinct(grown) && out <= grown
    ensures forall n :: n in grown <==> n in out || n in ids
  {
    grown := out;
    for i := 0 to |ids|
      invariant Distinct(grown) && out <= grown
      invariant forall n :: n in grown <==> n in out || n in ids[..i]
    {
      assert ids[..i + 1] == ids[..i] + [ids[i]];
      if ids[i] !in grown {
        grown := grown + [ids[i]];
      }
    }
    assert ids[..|ids|] == ids;
  }

  method ListIds(s: set<Id>) returns (out: seq<Id>)
    ensures forall n :: n in out <==> n in s
  {
    out := [];
    var todo := s;
    while todo != {}
      invariant todo <= s && forall n :: n in out <==> n in s && n !in todo
      decreases todo
    {
      var n :| n in todo;
      todo := todo - {n};
      out := out + [n];
    }
  }

  method ResolveTarget(db: Db, t: Target) returns (r: Option<seq<Id>>)
    ensures r.None? <==> t.kind == GroupTarget && exists g <- t.groupIds :: g !in db.groups
    ensures r.Some? ==> Distinct(r.value) && forall n :: n in r.value <==> Names(db, t, n)
  {
    var out := [];
    match t.kind {
    case GroupTarget =>
      for i := 0 to |t.groupIds|
        invariant forall g <- t.groupIds[..i] :: g in db.groups
        invariant Distinct(out)
        invariant forall n :: n in out <==> exists g <- t.groupIds[..i] :: GroupNames(db, g, n)
      {
        var gid := t.groupIds[i];
        assert t.groupIds[..i + 1] == t.groupIds[..i] + [gid];
        if gid !in db.groups { return None; }
        var g := db.groups[gid];
        var ids: seq<Id>;
        if g.isLabel {
          ids := ListIds(set n <- db.labels | LabelHit(db.labels[n], g.labelKey, g.labelValue));
        } else {
          ids := ListIds(set p <- db.members | p.0 == gid :: p.1);
        }
        assert forall n :: n in ids <==> GroupNames(db, gid, n);
        ghost var before := out;
        out := AddNew(out, ids);
        forall n ensures n in out <==> exists g <- t.groupIds[..i + 1] :: GroupNames(db, g, n) {
          assert n in out <==> n in before || GroupNames(db, gid, n);
        }
      }
      assert t.groupIds[..|t.groupIds|] == t.groupIds;
    case LabelTarget =>
      var ids := ListIds(set n <- db.labels | LabelHit(db.labels[n], t.labelKey, t.labelValue));
      out := AddNew(out, ids);
    case NodeTarget => out := AddNew(out, t.nodeIds);
    case OtherTarget => out := AddNew(out, t.nodeIds);
    }
    return Some(out);
  }

  /** A label group that also stores the node as a static member. */
  predicate StaticInLabelGroup(db: Db, gid: Id, node: Id) {
    gid in db.groups && db.groups[gid].isLabel && (gid, node) in db.members
  }

  /** For the three documented target types and label groups without member rows, Hub-run and
      Agent-run schedules of a task reach the same existing nodes. */
  lemma {:induction false} ResolversAgree(db: Db, t: Target, node: Id)
    requires node in db.labels && Resolvable(db, t)
    requires t.kind != OtherTarget
    requires t.kind == GroupTarget ==> forall g <- t.groupIds :: !StaticInLabelGroup(db, g, node)
    ensures Names(db, t, node) <==> Matches(db, node, t)
  {
    if t.kind == GroupTarget {
      forall g <- t.groupIds ensures g in MyGroups(db, node) <==> GroupNames(db, g, node) {
      }
    }
  }

  /** The two resolvers differ exactly in two ways: an undocumented target type still runs on the
      nodes it lists but is never synchronised to them, and a node that only a label group's
      member rows name is synchronised but never run on. */
  lemma {:induction false} ResolversDiffer(db: Db, t: Target, node: Id)
    requires node in db.labels && Resolvable(db, t)
    ensures Names(db, t, node) && !Matches(db, node, t) <==> t.kind == OtherTarget && node in t.nodeIds
    ensures Matches(db, node, t) && !Names(db, t, node) <==>
            && t.kind == GroupTarget
            && (exists g <- t.groupIds :: StaticInLabelGroup(db, g, node))
            && (forall g <- t.groupIds :: !GroupNames(db, g, node))
  {
    if t.kind == GroupTarget {
      forall g <- t.groupIds
        ensures g in MyGroups(db, node) <==> GroupNames(db, g, node) || StaticInLabelGroup(db, g, node)
      {
      }
    }
  }
}
