/** The state of one relayed file and of its targets, under everything that writes it. */
module FileTransfers {
  import opened Models

  datatype Status = Waiting | Uploading | Delivering | Succeeded | Broken | Canceled

  datatype TargetStatus = ToDeliver | InDelivery | Delivered | Undelivered | Abandoned

  datatype Goal = Goal(node: Id, status: TargetStatus)

  /** `sha` and `size` are known once the upload is complete. */
  datatype Transfer = Transfer(source: Id, status: Status, sha: Option<string>, size: nat, targets: seq<Goal>)

  /** Which Agents have a session, and which sessions accept a message. */
  datatype Sessions = Sessions(online: set<Id>, accepting: set<Id>)

  datatype Event =
    | DispatchSource(s: Sessions)
    | ResumeNode(node: Id, s: Sessions)
    | UploadPart(from: Id)
    | UploadDone(from: Id, sha: string, size: nat, s: Sessions)
    | UploadResult(from: Id, ok: bool)
    | DeliveryResult(node: Id, ok: bool)
    | Retry(only: Option<Id>, s: Sessions)
    | Cancel

  function SourceDispatched(t: Transfer, s: Sessions): Transfer {
    if t.status in {Succeeded, Broken, Status.Canceled} || t.sha.Some? || t.source !in s.online then t
    else t.(status := if t.source in s.accepting then Uploading else Waiting)
  }

  function TargetDispatched(t: Transfer, g: Goal, s: Sessions): Goal {
    if t.sha.None? || g.status in {Delivered, Abandoned} || t.status.Canceled? || g.node !in s.online then g
    else g.(status := if g.node in s.accepting then InDelivery else ToDeliver)
  }

  function Resumed(t: Transfer, g: Goal, node: Id, s: Sessions): Goal {
    if g.node == node && g.status in {ToDeliver, InDelivery} then TargetDispatched(t, g, s) else g
  }

  function Retried(t: Transfer, g: Goal, only: Option<Id>, s: Sessions): Goal {
    if (only.None? || g.node == only.value) && g.status.Undelivered? then TargetDispatched(t, g.(status := ToDeliver), s) else g
  }

  function Result(ok: bool): TargetStatus {
    if ok then Delivered else Undelivered
  }

  function Reported(g: Goal, node: Id, ok: bool): Goal {
    if g.node == node then g.(status := Result(ok)) else g
  }

  function GivenUp(g: Goal): Goal {
    if g.status.Delivered? then g else g.(status := Abandoned)
  }

  function Each(targets: seq<Goal>, f: Goal -> Goal): (r: seq<Goal>)
    ensures |r| == |targets| && forall i | 0 <= i < |r| :: r[i] == f(targets[i])
  {
    seq(|targets|, i requires 0 <= i < |targets| => f(targets[i]))
  }

  ghost predicate AllDelivered(t: Transfer) {
    forall g <- t.targets :: g.status == Delivered
  }

  /** The aggregate that a delivery result leaves behind. */
  ghost function Fold(targets: seq<Goal>): Status {
    if forall g <- targets :: g.status.Delivered? then Succeeded
    else if forall g <- targets :: g.status in {Delivered, Undelivered, Abandoned} then Broken
    else Delivering
  }

  ghost predicate Has(t: Transfer, node: Id) {
    exists g <- t.targets :: g.node == node
  }

  ghost function Step(t: Transfer, e: Event): Transfer {
    match e
    case DispatchSource(s) => SourceDispatched(t, s)
    case ResumeNode(node, s) =>
      var u := if t.source == node && t.status in {Waiting, Uploading} then SourceDispatched(t, s) else t;
      if u.sha.None? || u.status in {Status.Canceled, Succeeded} then u
      else u.(targets := Each(u.targets, g => Resumed(u, g, node, s)))
    case UploadPart(from) => if from == t.source && !t.status.Canceled? && t.sha.None? then t.(status := Uploading) else t
    case UploadDone(from, sha, size, s) =>
      if from == t.source && !t.status.Canceled? && t.sha.None? then
        var u := t.(sha := Some(sha), size := size, status := Delivering);
        u.(targets := Each(u.targets, g => TargetDispatched(u, g, s)))
      else t
    case UploadResult(from, ok) => if ok || from != t.source || t.status.Canceled? then t else t.(status := Broken)
    case DeliveryResult(node, ok) =>
      if t.status.Canceled? || !Has(t, node) then t
      else
        var targets := Each(t.targets, (g: Goal) => Reported(g, node, ok));
        t.(targets := targets, status := Fold(targets))
    case Retry(only, s) =>
      if t.status.Canceled? then t
      else if t.sha.None? then SourceDispatched(t.(status := Waiting), s)
      else t.(targets := Each(t.targets, g => Retried(t, g, only, s)), status := Delivering)
    case Cancel => t.(status := Status.Canceled, targets := Each(t.targets, GivenUp))
  }

  ghost function After(t: Transfer, events: seq<Event>, n: nat): Transfer
    requires n <= |events|
  {
    if n == 0 then t else Step(After(t, events, n - 1), events[n - 1])
  }

  // ---------- what every writer keeps ----------

  /** A row that says SUCCESS tells the truth about its targets. */
  ghost predicate Truthful(t: Transfer) {
    t.status.Succeeded? ==> AllDelivered(t)
  }

  lemma StepKeepsTruth(t: Transfer, e: Event)
    requires Truthful(t)
    ensures Truthful(Step(t, e))
  {
  }

  /** Canceled is the end: row and targets stay as the cancellation left them. */
  lemma CanceledStep(t: Transfer, e: Event)
    requires t.status.Canceled? && forall g <- t.targets :: g.status in {Delivered, Abandoned}
    ensures Step(t, e) == t
  {
  }

  lemma {:induction false} CanceledForGood(t: Transfer, events: seq<Event>, n: nat)
    requires n <= |events|
    ensures After(Step(t, Cancel), events, n) == Step(t, Cancel)
  {
    if n > 0 {
      CanceledForGood(t, events, n - 1);
      CanceledStep(Step(t, Cancel), events[n - 1]);
    }
  }

  /** Digest and size are written once; the list of target nodes never changes. */
  lemma {:induction false} WrittenOnce(t: Transfer, events: seq<Event>, m: nat, n: nat)
    requires m <= n <= |events|
    ensures var a, b := After(t, events, m), After(t, events, n);
            && (a.sha.Some? ==> b.sha == a.sha && b.size == a.size) && a.source == b.source
            && |a.targets| == |b.targets| && forall i | 0 <= i < |a.targets| :: a.targets[i].node == b.targets[i].node
    decreases n
  {
    hide Step;
    if m < n {
      WrittenOnce(t, events, m, n - 1);
      StepKeepsDigest(After(t, events, n - 1), events[n - 1]);
    }
  }

  lemma StepKeepsDigest(t: Transfer, e: Event)
    ensures var u := Step(t, e);
            && (t.sha.Some? ==> u.sha == t.sha && u.size == t.size) && u.source == t.source
            && |u.targets| == |t.targets| && forall i | 0 <= i < |t.targets| :: u.targets[i].node == t.targets[i].node
  {
  }

  /** From a new transfer, in any interleaving of its writers. */
  lemma {:induction false} SuccessIsTrue(t: Transfer, events: seq<Event>, n: nat)
    requires t.status.Waiting? && n <= |events|
    ensures Truthful(After(t, events, n))
  {
    if n > 0 {
      SuccessIsTrue(t, events, n - 1);
      StepKeepsTruth(After(t, events, n - 1), events[n - 1]);
    }
  }

  /** What can make a row deny that all its targets have the file: exactly a retry, a late report that
      the upload failed, a cancellation, or an upload that ends after the targets had reported. */
  lemma {:induction false} ConverseBreaks(t: Transfer, e: Event)
    requires AllDelivered(t) && t.status.Succeeded?
    ensures AllDelivered(Step(t, e)) && !Step(t, e).status.Succeeded? <==>
              match e
              case Retry(_, _) => true
              case Cancel => true
              case UploadResult(from, ok) => !ok && from == t.source
              case UploadPart(from) => from == t.source && t.sha.None?
              case UploadDone(from, _, _, _) => from == t.source && t.sha.None?
              case _ => false
  {
    assert Truthful(t);
  }

  /** A retry of a finished transfer leaves it in DELIVERING, with nothing left to deliver: only
      another delivery result, a late upload failure or a cancellation ever moves it again. */
  lemma {:induction false} RetryOfFinishedHangs(t: Transfer, only: Option<Id>, s: Sessions, e: Event)
    requires AllDelivered(t) && t.sha.Some? && !t.status.Canceled?
    ensures var u := Step(t, Retry(only, s));
            && u == t.(status := Delivering)
            && (Step(u, e) == u <==> !(e.Cancel? || (e.UploadResult? && !e.ok && e.from == t.source) || (e.DeliveryResult? && Has(t, e.node))))
  {
    var u := Step(t, Retry(only, s));
    assert u.targets == t.targets;
    if e.DeliveryResult? && Has(t, e.node) {
      DeliveryMoves(u, e.node, e.ok);
    } else if e.ResumeNode? || e.Retry? {
      assert Step(u, e).targets == u.targets;
    }
  }

  lemma DeliveryMoves(t: Transfer, node: Id, ok: bool)
    requires AllDelivered(t) && t.status.Delivering? && Has(t, node)
    ensures Step(t, DeliveryResult(node, ok)) != t
  {
  }

  // ---------- which event moves what ----------

  /** The session of the node exists and accepts the message, or refuses it. */
  predicate Accepts(s: Sessions, node: Id) {
    node in s.online && node in s.accepting
  }

  predicate Refuses(s: Sessions, node: Id) {
    node in s.online && node !in s.accepting
  }

  /** The event brings the complete file of an open upload. */
  predicate Completes(t: Transfer, e: Event) {
    e.UploadDone? && e.from == t.source && !t.status.Canceled? && t.sha.None?
  }

  /** The event tries to deliver to a target in the state `g`: the upload completes and the target still
      wants the file, its node comes back while the transfer is open, or a failed target is retried. */
  predicate Tries(t: Transfer, g: Goal, e: Event, s: Sessions) {
    || (Completes(t, e) && e.s == s && g.status !in {Delivered, Abandoned})
    || (e == ResumeNode(g.node, s) && t.sha.Some? && t.status !in {Status.Canceled, Succeeded} && g.status in {ToDeliver, InDelivery})
    || (e.Retry? && e.s == s && t.sha.Some? && !t.status.Canceled? && g.status == Undelivered && (e.only.None? || e.only.value == g.node))
  }

  /** The transitions of a target: it has the file exactly when its node reported so, has failed exactly
      when its node reported that, is abandoned by a cancellation unless it has the file, and is in
      delivery exactly when a try met a session that accepted; a refused try, and a retry that finds no
      session, leave it waiting. Everything else leaves it as it is. */
  lemma {:induction false} TargetMoves(t: Transfer, e: Event, s: Sessions, i: nat)
    requires i < |t.targets|
    requires e.ResumeNode? || e.UploadDone? || e.Retry? ==> e.s == s
    ensures |Step(t, e).targets| == |t.targets|
    ensures var g, h := t.targets[i], Step(t, e).targets[i];
            && h.node == g.node
            && h.status ==
               if e.DeliveryResult? && e.node == g.node && !t.status.Canceled? then if e.ok then Delivered else Undelivered
               else if e.Cancel? then if g.status == Delivered then Delivered else Abandoned
               else if Tries(t, g, e, s) then
                 if Accepts(s, g.node) then InDelivery else if Refuses(s, g.node) || e.Retry? then ToDeliver else g.status
               else g.status
  {
  }

  /** Event `i` is a report from the node that is heard: the transfer is not canceled by then. */
  ghost predicate Heard(t: Transfer, events: seq<Event>, i: nat, node: Id, ok: bool)
    requires i < |events|
  {
    events[i] == DeliveryResult(node, ok) && !After(t, events, i).status.Canceled?
  }

  lemma DeliveredStep(t: Transfer, e: Event, k: nat)
    requires k < |t.targets|
    ensures var u, node := Step(t, e), t.targets[k].node;
            && |u.targets| == |t.targets| && u.targets[k].node == node
            && (u.targets[k].status == Delivered <==>
                || (e == DeliveryResult(node, true) && !t.status.Canceled?)
                || (t.targets[k].status == Delivered && !(e == DeliveryResult(node, false) && !t.status.Canceled?)))
  {
    var s := if e.ResumeNode? || e.UploadDone? || e.Retry? then e.s else Sessions({}, {});
    TargetMoves(t, e, s, k);
    hide Step;
  }

  /** The node was heard to report a success, and no failure since. */
  ghost predicate Stands(t: Transfer, events: seq<Event>, n: nat, node: Id)
    requires n <= |events|
  {
    exists i | 0 <= i < n :: Heard(t, events, i, node, true) && forall j | i < j < n :: !Heard(t, events, j, node, false)
  }

  lemma StandsStep(t: Transfer, events: seq<Event>, n: nat, node: Id)
    requires 0 < n <= |events|
    ensures Stands(t, events, n, node) <==>
            Heard(t, events, n - 1, node, true) || (Stands(t, events, n - 1, node) && !Heard(t, events, n - 1, node, false))
  {
    hide Heard;
  }

  /** Over any run: a target counts as delivered exactly when its node was heard to report so, and not to
      report a failure since. */
  lemma {:induction false} DeliveredExactly(t: Transfer, events: seq<Event>, n: nat, k: nat)
    requires n <= |events| && k < |t.targets| && t.targets[k].status != Delivered
    ensures var u, node := After(t, events, n), t.targets[k].node;
            && |u.targets| == |t.targets| && u.targets[k].node == node
            && (u.targets[k].status == Delivered <==> Stands(t, events, n, node))
  {
    if n > 0 {
      hide Step, Stands;
      DeliveredExactly(t, events, n - 1, k);
      DeliveredStep(After(t, events, n - 1), events[n - 1], k);
      StandsStep(t, events, n, t.targets[k].node);
    }
  }

  /** What a delivery result leaves of the transfer: SUCCESS if all targets have the file, FAILED if all
      are through and one has not, DELIVERING while one is still to come. */
  lemma {:induction false} ResultDecides(t: Transfer, node: Id, ok: bool)
    requires Has(t, node) && !t.status.Canceled?
    ensures var u := Step(t, DeliveryResult(node, ok));
            && (u.status == Succeeded <==> forall g <- u.targets :: g.status == Delivered)
            && (u.status == Delivering <==> exists g <- u.targets :: g.status == ToDeliver || g.status == InDelivery)
            && (u.status == Broken <==> (exists g <- u.targets :: g.status != Delivered) &&
                                         forall g <- u.targets :: g.status != ToDeliver && g.status != InDelivery)
            && u == t.(status := u.status, targets := u.targets)
  {
  }

  /** The event asks the source for the file: at the first dispatch, when the source comes back during the
      upload, or by a retry before the upload is complete. */
  predicate Asks(t: Transfer, e: Event, s: Sessions) {
    t.sha.None? &&
    ((e == DispatchSource(s) && t.status in {Waiting, Uploading, Delivering}) ||
     (e == ResumeNode(t.source, s) && t.status in {Waiting, Uploading}) ||
     (e.Retry? && e.s == s && !t.status.Canceled?))
  }

  /** The status of a transfer under everything but a delivery result: a source that is asked uploads if
      its session accepts, and waits if it refuses; a part that arrives means an upload, the whole file
      and a retry after it a delivery, a failed upload FAILED, a cancellation CANCELED. */
  lemma {:induction false} StatusMoves(t: Transfer, e: Event, s: Sessions)
    requires e.DispatchSource? || e.ResumeNode? || e.UploadDone? || e.Retry? ==> e.s == s
    requires !e.DeliveryResult?
    ensures Step(t, e).status ==
            if e.Cancel? then Status.Canceled
            else if Asks(t, e, s) then
              if Accepts(s, t.source) then Uploading
              else if Refuses(s, t.source) || e.Retry? then Waiting else t.status
            else if e.UploadPart? && e.from == t.source && !t.status.Canceled? && t.sha.None? then Uploading
            else if Completes(t, e) || (e.Retry? && t.sha.Some? && !t.status.Canceled?) then Delivering
            else if e.UploadResult? && !e.ok && e.from == t.source && !t.status.Canceled? then Broken
            else t.status
    ensures (Step(t, e).sha, Step(t, e).size) == if Completes(t, e) then (Some(e.sha), e.size) else (t.sha, t.size)
  {
  }

  // ---------- the handlers ----------

  class FileTransferManager {
    const source: Id
    var status: Status
    var sha: Option<string>
    var size: nat
    var targets: seq<Goal>

    function Now(): Transfer
      reads this
    {
      Transfer(source, status, sha, size, targets)
    }

    constructor (source: Id, targets: seq<Goal>)
      ensures Now() == Transfer(source, Waiting, None, 0, targets)
    {
      this.source, this.targets := source, targets;
      status, sha, size := Waiting, None, 0;
    }

    method DispatchSource(s: Sessions)
      modifies this
      ensures Now() == SourceDispatched(old(Now()), s)
    {
      if status in {Succeeded, Broken, Status.Canceled} || sha.Some? { return; }
      if source !in s.online { return; }
      status := Uploading;
      if source !in s.accepting { status := Waiting; }
    }

    method DispatchTarget(i: nat, s: Sessions)
      requires i < |targets|
      modifies this
      ensures Now() == old(Now()).(targets := old(targets)[i := TargetDispatched(old(Now()), old(targets)[i], s)])
    {
      var g := targets[i];
      if sha.None? || g.status in {Delivered, Abandoned} || status.Canceled? { return; }
      if g.node !in s.online { return; }
      targets := targets[i := g.(status := InDelivery)];
      if g.node !in s.accepting { targets := targets[i := g.(status := ToDeliver)]; }
    }

    /** The part of ResumeNode that concerns this transfer. */
    method ResumeNode(node: Id, s: Sessions)
      modifies this
      ensures Now() == Step(old(Now()), Event.ResumeNode(node, s))
    {
      if source == node && status in {Waiting, Uploading} { DispatchSource(s); }
      if sha.None? || status in {Status.Canceled, Succeeded} { return; }
      ghost var u := Now();
      for i := 0 to |targets|
        invariant Now() == u.(targets := targets) && |targets| == |u.targets|
        invariant forall k | 0 <= k < |targets| :: targets[k] == if k < i then Resumed(u, u.targets[k], node, s) else u.targets[k]
      {
        if targets[i].node == node && targets[i].status in {ToDeliver, InDelivery} { DispatchTarget(i, s); }
      }
      assert targets == Each(u.targets, g => Resumed(u, g, node, s));
    }

    method UploadPartial(from: Id)
      modifies this
      ensures Now() == Step(old(Now()), UploadPart(from))
    {
      if from != source || status.Canceled? || sha.Some? { return; }
      status := Uploading;
    }

    method CompleteUpload(from: Id, digest: string, total: nat, s: Sessions)
      modifies this
      ensures Now() == Step(old(Now()), UploadDone(from, digest, total, s))
    {
      if from != source || status.Canceled? || sha.Some? { return; }
      size, sha, status := total, Some(digest), Delivering;
      ghost var u := Now();
      for i := 0 to |targets|
        invariant Now() == u.(targets := targets) && |targets| == |u.targets|
        invariant forall k | 0 <= k < |targets| :: targets[k] == if k < i then TargetDispatched(u, u.targets[k], s) else u.targets[k]
      {
        DispatchTarget(i, s);
      }
      assert targets == Each(u.targets, g => TargetDispatched(u, g, s));
    }

    method HandleUploadResult(from: Id, ok: bool)
      modifies this
      ensures Now() == Step(old(Now()), UploadResult(from, ok))
    {
      if ok { return; }
      if source != from || status.Canceled? { return; }
      status := Broken;
    }

    method FindTarget(node: Id) returns (found: bool)
      ensures found <==> Has(Now(), node)
    {
      for i := 0 to |targets|
        invariant forall k | 0 <= k < i :: targets[k].node != node
      {
        if targets[i].node == node { return true; }
      }
      return false;
    }

    method HandleDeliveryResult(node: Id, ok: bool)
      modifies this
      ensures Now() == Step(old(Now()), DeliveryResult(node, ok))
    {
      var found := FindTarget(node);
      if !found || status.Canceled? { return; }
      ghost var was := targets;
      var allSuccess, allTerminal, anyFailed := true, true, false;
      for i := 0 to |targets|
        invariant |targets| == |was| && status == old(status) && sha == old(sha) && size == old(size)
        invariant forall k | 0 <= k < |targets| :: targets[k] == if k < i then Reported(was[k], node, ok) else was[k]
        invariant allSuccess <==> forall k | 0 <= k < i :: targets[k].status.Delivered?
        invariant allTerminal <==> forall k | 0 <= k < i :: targets[k].status in {Delivered, Undelivered, Abandoned}
        invariant anyFailed <==> exists k | 0 <= k < i :: targets[k].status in {Undelivered, Abandoned}
      {
        if targets[i].node == node { targets := targets[i := targets[i].(status := Result(ok))]; }
        match targets[i].status {
          case Delivered =>
          case Undelivered => allSuccess, anyFailed := false, true;
          case Abandoned => allSuccess, anyFailed := false, true;
          case _ => allSuccess, allTerminal := false, false;
        }
      }
      assert targets == Each(was, (g: Goal) => Reported(g, node, ok));
      status := if allSuccess then Succeeded else if allTerminal && anyFailed then Broken else Delivering;
    }

    method Retry(only: Option<Id>, s: Sessions)
      modifies this
      ensures Now() == Step(old(Now()), Event.Retry(only, s))
    {
      if status.Canceled? { return; }
      if sha.None? {
        status := Waiting;
        DispatchSource(s);
        return;
      }
      ghost var u := Now();
      for i := 0 to |targets|
        invariant Now() == u.(targets := targets) && |targets| == |u.targets|
        invariant forall k | 0 <= k < |targets| :: targets[k] == if k < i then Retried(u, u.targets[k], only, s) else u.targets[k]
      {
        if (only.None? || targets[i].node == only.value) && targets[i].status.Undelivered? {
          targets := targets[i := targets[i].(status := ToDeliver)];
          DispatchTarget(i, s);
        }
      }
      assert targets == Each(u.targets, g => Retried(u, g, only, s));
      status := Delivering;
    }

    method Cancel()
      modifies this
      ensures Now() == Step(old(Now()), Event.Cancel)
    {
      status := Status.Canceled;
      ghost var was := targets;
      for i := 0 to |targets|
        invariant |targets| == |was| && status == Status.Canceled && sha == old(sha) && size == old(size)
        invariant forall k | 0 <= k < |targets| :: targets[k] == if k < i then GivenUp(was[k]) else was[k]
      {
        if !targets[i].status.Delivered? { targets := targets[i := targets[i].(status := Abandoned)]; }
      }
      assert targets == Each(was, GivenUp);
    }
  }
}
