/** Capturing the output of a run: two size-limited buffers that share one atomic counter, and the
    pieces in which the output is forwarded. */
module LogBuffers {
  import opened Models

  function Min(a: int, b: int): int {
    if a < b then a else b
  }

  // ---------- one buffer, step by step ----------

  /** Where the writer of one stream stands inside Write: after the first look at the counter, after
      the second has found the sum too large, before the copy, and before the counter is raised. */
  datatype Place = Idle | Admitted(p: Bytes) | Over(p: Bytes) | Copying(p: Bytes, n: nat) | Raising(n: nat)

  /** `given` is all that earlier writes were given. A `totalLimit` of 0 means that the shared counter
      is not looked at. */
  datatype Stream = Stream(content: Bytes, truncated: bool, limit: nat, totalLimit: nat, given: Bytes, at: Place)

  /** The next atomic step of a writer, with the value the counter then has; `p` is what the next write
      brings. The result is the stream and what is added to the counter. */
  function Advance(s: Stream, total: nat, p: Bytes): (Stream, nat) {
    match s.at
    case Idle =>
      if |s.content| >= s.limit || (s.totalLimit > 0 && total >= s.totalLimit)
      then (s.(truncated := true, given := s.given + p), 0)
      else (s.(at := Admitted(p)), 0)
    case Admitted(q) =>
      var n := Min(|q|, s.limit - |s.content|);
      if n < 0 then (s.(at := Copying(q, 0)), 0)
      else if s.totalLimit > 0 && total + n > s.totalLimit then (s.(at := Over(q)), 0)
      else (s.(at := Copying(q, n)), 0)
    case Over(q) => (s.(at := Copying(q, if total < s.totalLimit then s.totalLimit - total else 0)), 0)
    case Copying(q, n) =>
      var kept := if n < |q| then q[..n] else q;
      (s.(content := s.content + kept, truncated := s.truncated || n < |q|, given := s.given + q, at := Raising(|kept|)), 0)
    case Raising(n) => (s.(at := Idle), n)
  }

  /** The two streams of a run, and the counter. */
  datatype Capture = Capture(out: Stream, err: Stream, total: nat)

  /** Which stream takes its next step; the operating system never hands over an empty write. */
  datatype Event = OutStep(p: Bytes) | ErrStep(p: Bytes)

  function Step(c: Capture, e: Event): Capture {
    match e
    case OutStep(p) => var (s, n) := Advance(c.out, c.total, p); c.(out := s, total := c.total + n)
    case ErrStep(p) => var (s, n) := Advance(c.err, c.total, p); c.(err := s, total := c.total + n)
  }

  function After(c: Capture, events: seq<Event>, n: nat): Capture
    requires n <= |events|
  {
    if n == 0 then c else Step(After(c, events, n - 1), events[n - 1])
  }

  /** The wiring of Run: both streams raise the counter, but only stdout has the total limit. */
  function Begin(outLimit: nat, errLimit: nat, totalLimit: nat): Capture {
    Capture(Stream([], false, outLimit, totalLimit, [], Idle), Stream([], false, errLimit, 0, [], Idle), 0)
  }

  // ---------- the invariant of one stream ----------

  /** Nothing more can be accepted, now or later: the counter only grows. */
  predicate Shut(s: Stream, total: int) {
    |s.content| >= s.limit || (s.totalLimit > 0 && total >= s.totalLimit)
  }

  /** Bytes in the buffer that the counter does not know yet. */
  function Pending(s: Stream): nat {
    if s.at.Raising? then s.at.n else 0
  }

  predicate Placed(s: Stream, total: int) {
    match s.at
    case Idle => true
    case Admitted(q) => s.content == s.given && q != [] && |s.content| < s.limit
    case Over(q) => s.content == s.given && q != [] && |s.content| < s.limit && s.totalLimit > 0 &&
                    total + Min(|q|, s.limit - |s.content|) > s.totalLimit
    case Copying(q, n) => s.content == s.given && q != [] && n <= |q| && |s.content| + n <= s.limit &&
                          (s.totalLimit > 0 ==> |s.content| + n <= s.totalLimit || n == 0) &&
                          (n < |q| ==> |s.content| + n == s.limit || (s.totalLimit > 0 && total + n >= s.totalLimit))
    case Raising(n) => n <= |s.content|
  }

  ghost predicate StreamInv(s: Stream, total: int) {
    && s.content <= s.given && |s.content| <= s.limit
    && (s.truncated <==> |s.content| < |s.given|)
    && (|s.content| < |s.given| ==> Shut(s, total + Pending(s)))
    && (s.totalLimit > 0 ==> |s.content| <= s.totalLimit)
    && |s.content| <= total + Pending(s)
    && Placed(s, total)
  }

  lemma PlacedGrows(s: Stream, total: int, more: nat)
    requires StreamInv(s, total)
    ensures StreamInv(s, total + more)
  {
  }

  lemma AdvanceKeeps(s: Stream, total: nat, p: Bytes)
    requires StreamInv(s, total) && p != []
    ensures StreamInv(Advance(s, total, p).0, total + Advance(s, total, p).1)
  {
    var t := Advance(s, total, p).0;
    match s.at {
      case Copying(q, n) =>
        assert n < |q| ==> q[..n] <= q;
      case _ =>
    }
  }

  /** No byte is counted twice or forgotten, and the limits are fixed. */
  lemma AdvanceAccounts(s: Stream, total: nat, p: Bytes)
    ensures var (t, more) := Advance(s, total, p);
            more + Pending(t) + |s.content| == Pending(s) + |t.content| && t.limit == s.limit && t.totalLimit == s.totalLimit
  {
  }

  ghost predicate NonEmpty(e: Event) {
    e.p != []
  }

  ghost predicate Inv(c: Capture) {
    StreamInv(c.out, c.total) && StreamInv(c.err, c.total) &&
    c.total + Pending(c.out) + Pending(c.err) == |c.out.content| + |c.err.content|
  }

  lemma OutKeepsInv(c: Capture, p: Bytes)
    requires Inv(c) && p != []
    ensures Inv(Step(c, OutStep(p)))
  {
    AdvanceKeeps(c.out, c.total, p);
    AdvanceAccounts(c.out, c.total, p);
    PlacedGrows(c.err, c.total, Advance(c.out, c.total, p).1);
    var d := Step(c, OutStep(p));
    assert d.out == Advance(c.out, c.total, p).0 && d.err == c.err && d.total == c.total + Advance(c.out, c.total, p).1;
  }

  lemma ErrKeepsInv(c: Capture, p: Bytes)
    requires Inv(c) && p != []
    ensures Inv(Step(c, ErrStep(p)))
  {
    AdvanceKeeps(c.err, c.total, p);
    AdvanceAccounts(c.err, c.total, p);
    PlacedGrows(c.out, c.total, Advance(c.err, c.total, p).1);
    var d := Step(c, ErrStep(p));
    assert d.err == Advance(c.err, c.total, p).0 && d.out == c.out && d.total == c.total + Advance(c.err, c.total, p).1;
  }

  lemma {:induction false} RunKeepsInv(c: Capture, events: seq<Event>, n: nat)
    requires Inv(c) && n <= |events| && forall e <- events :: NonEmpty(e)
    ensures Inv(After(c, events, n))
  {
    if n > 0 {
      RunKeepsInv(c, events, n - 1);
      var before := After(c, events, n - 1);
      assert NonEmpty(events[n - 1]);
      match events[n - 1] {
        case OutStep(p) => OutKeepsInv(before, p);
        case ErrStep(p) => ErrKeepsInv(before, p);
      }
    }
  }

  lemma {:induction false} LimitsFixed(c: Capture, events: seq<Event>, n: nat)
    requires n <= |events|
    ensures var d := After(c, events, n);
            && d.out.limit == c.out.limit && d.out.totalLimit == c.out.totalLimit
            && d.err.limit == c.err.limit && d.err.totalLimit == c.err.totalLimit
  {
    if n > 0 {
      LimitsFixed(c, events, n - 1);
      var d := After(c, events, n - 1);
      match events[n - 1] {
        case OutStep(p) => AdvanceAccounts(d.out, d.total, p);
        case ErrStep(p) => AdvanceAccounts(d.err, d.total, p);
      }
    }
  }

  /** In every interleaving of the two writers each buffer holds the beginning of its own stream,
      within its own limits, and says that it was cut exactly when a byte was dropped. Stderr is not
      cut before its own limit. */
  lemma {:induction false} BuffersArePrefixes(events: seq<Event>, outLimit: nat, errLimit: nat, totalLimit: nat, n: nat)
    requires n <= |events| && forall e <- events :: NonEmpty(e)
    ensures var c := After(Begin(outLimit, errLimit, totalLimit), events, n);
            && c.out.content <= c.out.given && |c.out.content| <= outLimit && (totalLimit > 0 ==> |c.out.content| <= totalLimit)
            && (c.out.truncated <==> c.out.content != c.out.given)
            && c.err.content <= c.err.given && |c.err.content| == Min(|c.err.given|, errLimit)
            && (c.err.truncated <==> c.err.content != c.err.given)
  {
    RunKeepsInv(Begin(outLimit, errLimit, totalLimit), events, n);
    LimitsFixed(Begin(outLimit, errLimit, totalLimit), events, n);
  }

  /** With a total limit of at least the sum of the two others, as the Agent configures it, the shared
      counter never cuts anything: stdout too keeps all it may. */
  lemma {:induction false} WideCapNeverBinds(events: seq<Event>, outLimit: nat, errLimit: nat, totalLimit: nat, n: nat)
    requires n <= |events| && (forall e <- events :: NonEmpty(e)) && totalLimit >= outLimit + errLimit
    ensures var c := After(Begin(outLimit, errLimit, totalLimit), events, n); |c.out.content| == Min(|c.out.given|, outLimit)
  {
    RunKeepsInv(Begin(outLimit, errLimit, totalLimit), events, n);
    LimitsFixed(Begin(outLimit, errLimit, totalLimit), events, n);
  }

  /** A tighter total limit is not a limit on the total: stderr alone may exceed it by any amount that
      its own limit allows, and then stdout gets nothing. */
  lemma {:induction false} CapBindsOnlyStdout(p: Bytes, q: Bytes, outLimit: nat, errLimit: nat, totalLimit: nat)
    requires p != [] && q != [] && 0 < totalLimit < |p| <= errLimit && outLimit > 0
    ensures var events := [ErrStep(p), ErrStep(p), ErrStep(p), ErrStep(p), OutStep(q)];
            var c := After(Begin(outLimit, errLimit, totalLimit), events, 5);
            && c.err.content == p && !c.err.truncated && c.total == |p| > totalLimit
            && c.out.content == [] && c.out.truncated
  {
    var b := Begin(outLimit, errLimit, totalLimit);
    var events := [ErrStep(p), ErrStep(p), ErrStep(p), ErrStep(p), OutStep(q)];
    assert After(b, events, 0) == b;
    assert After(b, events, 1) == Step(b, events[0]);
    assert After(b, events, 1).err.at == Admitted(p);
    assert After(b, events, 2) == Step(After(b, events, 1), events[1]);
    assert After(b, events, 2).err.at == Copying(p, |p|);
    assert After(b, events, 3) == Step(After(b, events, 2), events[2]);
    assert After(b, events, 3).err.content == p && After(b, events, 3).err.at == Raising(|p|);
    assert After(b, events, 4) == Step(After(b, events, 3), events[3]);
    assert After(b, events, 4).total == |p|;
    assert After(b, events, 5) == Step(After(b, events, 4), events[4]);
  }

  // ---------- exactly when the total is kept ----------

  /** In this run both buffers together never hold more than the total limit. */
  ghost predicate WithinTotal(events: seq<Event>, outLimit: nat, errLimit: nat, totalLimit: nat) {
    (forall e <- events :: NonEmpty(e)) ==>
      forall n | 0 <= n <= |events| ::
        |After(Begin(outLimit, errLimit, totalLimit), events, n).out.content| +
        |After(Begin(outLimit, errLimit, totalLimit), events, n).err.content| <= totalLimit
  }

  function Zeros(n: nat): (p: Bytes)
    ensures |p| == n
  {
    seq(n, _ => 0)
  }

  /** One undisturbed write that fits. */
  lemma OutWrite(c: Capture, p: Bytes, events: seq<Event>, k: nat)
    requires c.out == Stream([], false, c.out.limit, c.out.totalLimit, [], Idle) && c.total == 0
    requires 0 < |p| <= c.out.limit && (c.out.totalLimit > 0 ==> |p| <= c.out.totalLimit)
    requires k + 4 <= |events| && After(c, events, k) == c && forall i | k <= i < k + 4 :: events[i] == OutStep(p)
    ensures After(c, events, k + 4) == c.(out := c.out.(content := p, given := p), total := |p|)
  {
    var c1, c2, c3 := Step(c, OutStep(p)), Step(Step(c, OutStep(p)), OutStep(p)), Step(Step(Step(c, OutStep(p)), OutStep(p)), OutStep(p));
    assert c1 == c.(out := c.out.(at := Admitted(p)));
    assert c2 == c.(out := c.out.(at := Copying(p, |p|)));
    assert c3 == c.(out := c.out.(content := p, given := p, at := Raising(|p|)));
    assert After(c, events, k + 1) == c1;
    assert After(c, events, k + 2) == c2;
    assert After(c, events, k + 3) == c3;
  }

  lemma ErrWrite(b: Capture, c: Capture, q: Bytes, events: seq<Event>, k: nat)
    requires c.err == Stream([], false, c.err.limit, 0, [], Idle) && 0 < |q| <= c.err.limit
    requires k + 4 <= |events| && After(b, events, k) == c && forall i | k <= i < k + 4 :: events[i] == ErrStep(q)
    ensures After(b, events, k + 4) == c.(err := c.err.(content := q, given := q), total := c.total + |q|)
  {
    var c1, c2, c3 := Step(c, ErrStep(q)), Step(Step(c, ErrStep(q)), ErrStep(q)), Step(Step(Step(c, ErrStep(q)), ErrStep(q)), ErrStep(q));
    assert c1 == c.(err := c.err.(at := Admitted(q)));
    assert c2 == c.(err := c.err.(at := Copying(q, |q|)));
    assert c3 == c.(err := c.err.(content := q, given := q, at := Raising(|q|)));
    assert After(b, events, k + 1) == c1;
    assert After(b, events, k + 2) == c2;
    assert After(b, events, k + 3) == c3;
  }

  /** The total limit limits the total in every run exactly when stderr may hold nothing, or when the
      two other limits already do: of the two streams only stdout looks at the counter. */
  lemma {:induction false} TotalKeptExactly(outLimit: nat, errLimit: nat, totalLimit: nat)
    requires totalLimit > 0
    ensures (forall events :: WithinTotal(events, outLimit, errLimit, totalLimit)) <==> errLimit == 0 || outLimit + errLimit <= totalLimit
  {
    if errLimit == 0 || outLimit + errLimit <= totalLimit {
      forall events ensures WithinTotal(events, outLimit, errLimit, totalLimit) {
        if forall e <- events :: NonEmpty(e) {
          forall n | 0 <= n <= |events|
            ensures |After(Begin(outLimit, errLimit, totalLimit), events, n).out.content| +
                    |After(Begin(outLimit, errLimit, totalLimit), events, n).err.content| <= totalLimit
          {
            BuffersArePrefixes(events, outLimit, errLimit, totalLimit, n);
          }
        }
      }
    } else {
      var events := ExceedsTotal(outLimit, errLimit, totalLimit);
      assert !WithinTotal(events, outLimit, errLimit, totalLimit);
    }
  }

  lemma ExceedsTotal(outLimit: nat, errLimit: nat, totalLimit: nat) returns (events: seq<Event>)
    requires errLimit > 0 && outLimit + errLimit > totalLimit > 0
    ensures !WithinTotal(events, outLimit, errLimit, totalLimit)
  {
    var b, p, q := Begin(outLimit, errLimit, totalLimit), Zeros(Min(outLimit, totalLimit)), Zeros(errLimit);
    var late := [ErrStep(q), ErrStep(q), ErrStep(q), ErrStep(q)];
    if outLimit == 0 {
      events := late;
      ErrWrite(b, b, q, events, 0);
      assert |After(b, events, 4).out.content| + |After(b, events, 4).err.content| > totalLimit;
    } else {
      events := [OutStep(p), OutStep(p), OutStep(p), OutStep(p)] + late;
      OutWrite(b, p, events, 0);
      ErrWrite(b, After(b, events, 4), q, events, 4);
      assert |After(b, events, 8).out.content| + |After(b, events, 8).err.content| > totalLimit;
    }
  }

  // ---------- Write ----------

  /** A whole Write, given the values of the counter at its three possible looks. */
  function Written(s: Stream, p: Bytes, first: nat, second: nat, third: nat): Stream
    requires s.at.Idle?
  {
    var s1 := Advance(s, first, p).0;
    if s1.at.Idle? then s1
    else
      var s2 := Advance(s1, second, p).0;
      var s3 := if s2.at.Over? then Advance(s2, third, p).0 else s2;
      Advance(Advance(s3, third, p).0, third, p).0
  }

  lemma WrittenIs(s: Stream, p: Bytes, first: nat, second: nat, third: nat)
    requires s.at.Idle?
    ensures Written(s, p, first, second, third) ==
            if |s.content| >= s.limit || (s.totalLimit > 0 && first >= s.totalLimit) then s.(truncated := true, given := s.given + p)
            else
              var fits := Min(|p|, s.limit - |s.content|);
              var n := if s.totalLimit > 0 && second + fits > s.totalLimit then (if third < s.totalLimit then s.totalLimit - third else 0)
                       else fits;
              s.(content := s.content + if n < |p| then p[..n] else p, truncated := s.truncated || n < |p|, given := s.given + p)
  {
  }

  class LimitedBuffer {
    var content: Bytes
    var truncated: bool
    const limit: nat
    const totalLimit: nat
    ghost var given: Bytes

    ghost function Now(): Stream
      reads this
    {
      Stream(content, truncated, limit, totalLimit, given, Idle)
    }

    constructor (limit: nat, totalLimit: nat)
      ensures Now() == Stream([], false, limit, totalLimit, [], Idle)
    {
      this.limit, this.totalLimit := limit, totalLimit;
      content, truncated, given := [], false, [];
    }

    /** `raised` is what the call adds to the counter; the whole of `p` is always reported as written. */
    method Write(p: Bytes, first: nat, second: nat, third: nat) returns (n: nat, raised: nat)
      modifies this
      ensures Now() == Written(old(Now()), p, first, second, third)
      ensures n == |p| && raised == |content| - |old(content)|
    {
      WrittenIs(Now(), p, first, second, third);
      hide Written;
      given := given + p;
      if |content| >= limit {
        truncated := true;
        return |p|, 0;
      }
      if totalLimit > 0 && first >= totalLimit {
        truncated := true;
        return |p|, 0;
      }
      var writeLen: int := |p|;
      if writeLen > limit - |content| { writeLen := limit - |content|; }
      if totalLimit > 0 && second + writeLen > totalLimit {
        writeLen := totalLimit - third;
        if writeLen < 0 { writeLen := 0; }
      }
      var kept := if writeLen < |p| then p[..writeLen] else p;
      content := content + kept;
      if writeLen < |p| { truncated := true; }
      return |p|, |kept|;
    }
  }

  const CHUNK := 65536

  lemma ConcatOneMore(chunks: seq<Bytes>, c: Bytes)
    ensures Concat(chunks + [c]) == Concat(chunks) + c
  {
  }

  /** streamWriter cuts what it forwards into pieces that fit a frame; together they are the input. */
  method Forward(p: Bytes) returns (chunks: seq<Bytes>)
    ensures Concat(chunks) == p
    ensures forall i | 0 <= i < |chunks| :: 0 < |chunks[i]| <= 65536 && (i < |chunks| - 1 ==> |chunks[i]| == 65536)
  {
    chunks := [];
    var done := 0;
    while done < |p|
      invariant 0 <= done <= |p| && Concat(chunks) == p[..done]
      invariant forall i | 0 <= i < |chunks| :: 0 < |chunks[i]| <= CHUNK && (done < |p| || i < |chunks| - 1 ==> |chunks[i]| == CHUNK)
    {
      var n := if |p| - done > CHUNK then CHUNK else |p| - done;
      ConcatOneMore(chunks, p[done..done + n]);
      assert p[..done] + p[done..done + n] == p[..done + n];
      chunks, done := chunks + [p[done..done + n]], done + n;
    }
    assert p[..|p|] == p;
  }
}
