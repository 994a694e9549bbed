/** One file on its way: a resumable upload to the Hub, and a verified delivery from there. */
module FileUpload {
  import opened Models

  /** The Content-Range header, as its three numbers were read. */
  datatype Range = NoRange | Range(start: int, end: int, total: int) | Unreadable

  datatype Offset = BadRange | At(offset: nat)

  function ParseUploadOffset(r: Range): Offset {
    match r
    case NoRange => At(0)
    case Unreadable => BadRange
    case Range(start, end, total) =>
      if start < 0 || end < start || total < 0 || (end >= total && total != 0) then BadRange else At(start)
  }

  /** The staged file of one transfer. The blob exists from the moment the upload is complete, which is
      when its digest is recorded. */
  datatype Stage = Stage(part: Bytes, blob: Option<Bytes>, canceled: bool)

  /** An upload request. `body` is what arrives before the connection ends; `persisted` is false when
      copying, syncing or closing failed, or the Hub stopped, after those bytes had been written. */
  datatype Request = Request(size: int, range: Range, length: Option<int>, body: Bytes, persisted: bool)

  datatype Reply = Done | Conflict(next: nat) | Refused

  /** handleUpload, without the lookup and the authentication. A canceled transfer is answered by a
      conflict without an offset, which reads as 0. */
  function Receive(s: Stage, q: Request, maxBytes: int): (Stage, Reply) {
    if s.canceled then (s, Conflict(0))
    else if s.blob.Some? then (s, Done)
    else if q.size < 0 || q.size > maxBytes then (s, Refused)
    else match ParseUploadOffset(q.range)
      case BadRange => (s, Refused)
      case At(offset) =>
        if |s.part| != offset then (s, Conflict(|s.part|))
        else if q.length.Some? && q.length.value != q.size - offset then (s, Refused)
        else
          var part := s.part + Copied(q.body, q.size - offset);
          if !q.persisted then (s.(part := part), Refused)
          else if |part| < q.size then (s.(part := part), Conflict(|part|))
          else if |part| != q.size then (s.(part := part), Refused)
          else (s.(part := [], blob := Some(part)), Done)
  }

  /** io.CopyN: at most `n` bytes of the body. */
  function Copied(body: Bytes, n: int): (r: Bytes)
    ensures r <= body && |r| <= if n > 0 then n else 0
  {
    if n <= 0 then [] else if |body| > n then body[..n] else body
  }

  /** What the Agent asks for at an offset; the network may deliver only part of the body. */
  function RequestAt(source: Bytes, offset: nat, arrives: nat, persisted: bool): (q: Request)
    requires offset <= |source|
  {
    Request(|source|, if |source| > 0 then Range(offset, |source| - 1, |source|) else NoRange, Some(|source| - offset),
            Copied(source[offset..], arrives), persisted)
  }

  // ---------- any sequence of uploads ----------

  datatype Event = Upload(offset: nat, arrives: nat, persisted: bool) | Cancel

  function Step(s: Stage, e: Event, source: Bytes, maxBytes: int): Stage {
    match e
    case Upload(offset, arrives, persisted) =>
      if offset <= |source| then Receive(s, RequestAt(source, offset, arrives, persisted), maxBytes).0 else s
    case Cancel => s.(canceled := true)
  }

  function After(s: Stage, events: seq<Event>, source: Bytes, maxBytes: int, n: nat): Stage
    requires n <= |events|
  {
    if n == 0 then s else Step(After(s, events, source, maxBytes, n - 1), events[n - 1], source, maxBytes)
  }

  /** What is staged is the beginning of the source, and what is complete is the source. */
  predicate Faithful(s: Stage, source: Bytes) {
    s.part <= source && (s.blob.Some? ==> s.blob.value == source)
  }

  lemma ReceiveKeepsFaithful(s: Stage, source: Bytes, offset: nat, arrives: nat, persisted: bool, maxBytes: int)
    requires Faithful(s, source) && offset <= |source|
    ensures var (t, reply) := Receive(s, RequestAt(source, offset, arrives, persisted), maxBytes);
            && Faithful(t, source)
            && (reply.Done? ==> t.blob == Some(source))
            && (reply.Conflict? ==> reply.next <= |source|)
  {
  }

  /** However the uploads are cut short, repeated, sent at the wrong offset or canceled, as long as
      the source does not change. */
  lemma {:induction false} StagedIsPrefix(events: seq<Event>, source: Bytes, maxBytes: int, n: nat)
    requires n <= |events|
    ensures Faithful(After(Stage([], None, false), events, source, maxBytes, n), source)
  {
    if n > 0 {
      StagedIsPrefix(events, source, maxBytes, n - 1);
      match events[n - 1] {
        case Upload(offset, arrives, persisted) =>
          if offset <= |source| {
            ReceiveKeepsFaithful(After(Stage([], None, false), events, source, maxBytes, n - 1), source, offset, arrives, persisted, maxBytes);
          }
        case Cancel =>
      }
    }
  }

  /** One exchange at the right offset that the network does not cut completes the upload, except when
      all bytes of a non-empty file are already staged: its range would end before it begins. */
  lemma {:induction false} InSyncExchange(s: Stage, source: Bytes, maxBytes: int)
    requires Faithful(s, source) && !s.canceled && s.blob.None? && |source| <= maxBytes
    ensures Receive(s, RequestAt(source, |s.part|, |source|, true), maxBytes).1.Done? <==> |s.part| < |source| || |source| == 0
    ensures |s.part| < |source| || |source| == 0
            ==> Receive(s, RequestAt(source, |s.part|, |source|, true), maxBytes).0 == Stage([], Some(source), false)
  {
    assert source == s.part + source[|s.part|..];
  }

  /** Once that has happened no later exchange can complete the upload: the staged file is whole and
      the transfer never ends. */
  lemma {:induction false} FullPartIsStuck(s: Stage, events: seq<Event>, source: Bytes, maxBytes: int, n: nat)
    requires s.part == source && s.blob.None? && source != [] && n <= |events|
    ensures var t := After(s, events, source, maxBytes, n); t.part == source && t.blob.None?
  {
    if n > 0 {
      FullPartIsStuck(s, events, source, maxBytes, n - 1);
    }
  }

  /** It takes one upload that wrote all its bytes but failed to report them as persisted. */
  lemma {:induction false} StuckIsReachable(source: Bytes, maxBytes: int)
    requires source != [] && |source| <= maxBytes
    ensures After(Stage([], None, false), [Upload(0, |source|, false)], source, maxBytes, 1) == Stage(source, None, false)
  {
    var events := [Upload(0, |source|, false)];
    assert After(Stage([], None, false), events, source, maxBytes, 0) == Stage([], None, false);
    assert source[0..] == source;
  }

  // ---------- any requests at all ----------

  /** The staged file after the first `n` requests, whoever sends them. */
  function Handled(s: Stage, requests: seq<Request>, maxBytes: int, n: nat): Stage
    requires n <= |requests|
  {
    if n == 0 then s else Receive(Handled(s, requests, maxBytes, n - 1), requests[n - 1], maxBytes).0
  }

  /** The three numbers of the range make sense; a total of 0 stands for an unknown one. */
  predicate Sensible(r: Range) {
    r.NoRange? || (r.Range? && 0 <= r.start <= r.end && r.total >= 0 && (r.total == 0 || r.end < r.total))
  }

  function StartOf(r: Range): int {
    if r.Range? then r.start else 0
  }

  /** A request may add to the part exactly if the upload is open and everything it announces fits: its
      size, its range, the offset, and the length if there is one. */
  predicate Fits(s: Stage, q: Request, maxBytes: int) {
    && !s.canceled && s.blob.None? && 0 <= q.size <= maxBytes && Sensible(q.range) && StartOf(q.range) == |s.part|
    && (q.length.None? || q.length.value == q.size - |s.part|)
  }

  /** One request: it changes nothing unless it fits, and then appends what arrived, up to the announced
      size. It completes an open upload exactly if all announced bytes arrived and were persisted. A
      conflict names the length of the part. */
  lemma {:induction false} RequestAppends(s: Stage, q: Request, maxBytes: int)
    ensures var (t, reply) := Receive(s, q, maxBytes);
            && (!Fits(s, q, maxBytes) ==> t == s)
            && (Fits(s, q, maxBytes) ==>
                  var room := if q.size >= |s.part| then q.size - |s.part| else 0;
                  var all := s.part + if |q.body| <= room then q.body else q.body[..room];
                  t == if |all| == q.size && q.persisted then Stage([], Some(all), false) else s.(part := all))
            && (t.blob.Some? && s.blob.None? <==>
                  Fits(s, q, maxBytes) && |s.part| <= q.size && |q.body| >= q.size - |s.part| && q.persisted)
            && (reply.Done? <==> t.blob.Some? && !s.canceled)
            && (reply.Conflict? ==> if s.canceled then reply.next == 0 else reply.next == |t.part|)
  {
  }

  /** Whatever requests arrive, the part only ever grows at its end until it becomes the blob; neither
      exceeds the limit, and a completed or canceled upload stays as it is. */
  lemma {:induction false} PartOnlyGrows(s: Stage, requests: seq<Request>, maxBytes: int, m: nat, n: nat)
    requires m <= n <= |requests| && |s.part| <= maxBytes && s.blob.None?
    ensures var a, b := Handled(s, requests, maxBytes, m), Handled(s, requests, maxBytes, n);
            && |a.part| <= maxBytes && |b.part| <= maxBytes
            && (a.blob.Some? || a.canceled ==> b == a)
            && (a.blob.None? && b.blob.None? ==> a.part <= b.part)
            && (a.blob.None? && b.blob.Some? ==> a.part <= b.blob.value && |b.blob.value| <= maxBytes)
    decreases n
  {
    if n > 0 {
      PartOnlyGrows(s, requests, maxBytes, if m < n then m else n - 1, n - 1);
      RequestAppends(Handled(s, requests, maxBytes, n - 1), requests[n - 1], maxBytes);
    }
  }

  // ---------- the Agent's side ----------

  /** One exchange as the Agent sees it. */
  lemma ExchangeFacts(s: Stage, source: Bytes, offset: nat, arrives: nat, persisted: bool, maxBytes: int)
    requires Faithful(s, source) && offset <= |source|
    ensures var (t, reply) := Receive(s, RequestAt(source, offset, arrives, persisted), maxBytes);
            && t.canceled == s.canceled
            && (s.canceled ==> t == s && reply == Conflict(0))
            && (!s.canceled && s.blob.Some? ==> t == s && reply == Done)
            && (!s.canceled && s.blob.None? && arrives == |source| && persisted && |source| <= maxBytes ==>
                  if source != [] && offset == |source| then t == s && reply == Refused
                  else if offset != |s.part| then t == s && reply == Conflict(|s.part|)
                  else reply == Done)
  {
  }

  /** What the network does with one attempt: it fails before the Hub sees anything, the reply is lost
      after the Hub has handled `arrives` bytes, or the exchange takes place. */
  datatype Net = NotSent | NoReply(arrives: nat, persisted: bool) | Exchanged(arrives: nat, persisted: bool)

  const ATTEMPTS := 5

  /** The first `n` attempts fail before the Hub sees anything. */
  predicate Unsent(net: seq<Net>, n: nat)
    requires n <= |net|
  {
    forall j | 0 <= j < n :: net[j] == NotSent
  }

  class Staging {
    var stage: Stage
    const maxBytes: int

    constructor (maxBytes: int)
      ensures this.maxBytes == maxBytes && stage == Stage([], None, false)
    {
      this.maxBytes := maxBytes;
      stage := Stage([], None, false);
    }

    method HandleUpload(q: Request) returns (reply: Reply)
      modifies this
      ensures (stage, reply) == Receive(old(stage), q, maxBytes)
    {
      if stage.canceled { return Conflict(0); }
      if stage.blob.Some? { return Done; }
      if q.size < 0 || q.size > maxBytes { return Refused; }
      var at := ParseUploadOffset(q.range);
      if at.BadRange? { return Refused; }
      if |stage.part| != at.offset { return Conflict(|stage.part|); }
      var expected := q.size - at.offset;
      if q.length.Some? && q.length.value != expected { return Refused; }
      stage := stage.(part := stage.part + Copied(q.body, expected));
      if !q.persisted { return Refused; }
      if |stage.part| < q.size { return Conflict(|stage.part|); }
      if |stage.part| != q.size { return Refused; }
      stage := stage.(part := [], blob := Some(stage.part));
      return Done;
    }

    /** uploadFile: up to five attempts, each from the offset that the last reply named. A success
        means that the Hub holds the source; with a network that loses nothing the upload succeeds
        exactly when it is complete already, or neither the first range nor the staged part reaches
        the end of a non-empty source. */
    method UploadFile(source: Bytes, offset: nat, net: seq<Net>) returns (ok: bool)
      requires |net| == 5 && Faithful(stage, source)
      modifies this
      ensures Faithful(stage, source) && stage.canceled == old(stage).canceled
      ensures ok ==> stage.blob == Some(source) && !stage.canceled
      ensures (forall i | 0 <= i < ATTEMPTS :: net[i] == Exchanged(|source|, true)) && |source| <= maxBytes ==>
                (ok <==> offset <= |source| && !old(stage).canceled &&
                         (old(stage).blob.Some? || |source| == 0 || (offset < |source| && |old(stage).part| < |source|)))
      ensures forall i | 0 <= i < 5 && Unsent(net, i) && net[i] == Exchanged(|source|, true) ::
                !old(stage).canceled && |source| <= maxBytes && offset == |old(stage).part| < |source| ==> ok
    {
      hide Receive, RequestAt;
      var at: nat := offset;
      for attempt := 0 to ATTEMPTS
        invariant Faithful(stage, source) && stage.canceled == old(stage).canceled
        invariant Unsent(net, attempt) ==> at == offset && stage == old(stage)
        invariant forall i | 0 <= i < attempt && Unsent(net, i) && net[i] == Exchanged(|source|, true) ::
                    old(stage).canceled || |source| > maxBytes || offset != |old(stage).part| || |old(stage).part| >= |source|
        invariant attempt > 0 ==> offset <= |source|
        invariant attempt > 0 && !stage.canceled && (forall i | 0 <= i < ATTEMPTS :: net[i] == Exchanged(|source|, true)) && |source| <= maxBytes
                  ==> attempt == 1 && stage == old(stage) && stage.blob.None? && at == |stage.part| && offset != at &&
                      |source| > 0 && offset < |source|
        invariant attempt > 0 && stage.canceled ==> stage == old(stage)
      {
        if at > |source| { return false; }
        match net[attempt] {
          case NotSent =>
          case NoReply(arrives, persisted) =>
            ReceiveKeepsFaithful(stage, source, at, arrives, persisted, maxBytes);
            ExchangeFacts(stage, source, at, arrives, persisted, maxBytes);
            var _ := HandleUpload(RequestAt(source, at, arrives, persisted));
          case Exchanged(arrives, persisted) =>
            ReceiveKeepsFaithful(stage, source, at, arrives, persisted, maxBytes);
            ExchangeFacts(stage, source, at, arrives, persisted, maxBytes);
            var reply := HandleUpload(RequestAt(source, at, arrives, persisted));
            match reply {
              case Done => return true;
              case Refused => return false;
              case Conflict(next) =>
                if next > |source| { return false; }
                at := next;
            }
        }
      }
      return false;
    }
  }

  // ---------- delivery ----------

  /** A hash function, in hexadecimal. */
  type Digest = Bytes -> string

  /** The reader that counts and hashes what passes through, and checks both at the end. */
  class VerifyingFileReader {
    const expectedSize: int
    const expectedSha: string
    var bytes: nat
    var seen: Bytes
    var verified: bool

    constructor (expectedSize: int, expectedSha: string)
      ensures this.expectedSize == expectedSize && this.expectedSha == expectedSha
      ensures bytes == 0 && seen == [] && !verified
    {
      this.expectedSize, this.expectedSha := expectedSize, expectedSha;
      bytes, seen, verified := 0, [], false;
    }

    method Read(chunk: Bytes)
      requires bytes == |seen|
      modifies this
      ensures seen == old(seen) + chunk && bytes == |seen| && verified == old(verified)
    {
      bytes, seen := bytes + |chunk|, seen + chunk;
    }

    /** Only the first call checks. */
    method Verify(digest: Digest) returns (ok: bool)
      modifies this`verified
      ensures ok == (old(verified) || Expected(bytes, seen, expectedSize, expectedSha, digest)) && verified
    {
      if verified { return true; }
      verified := true;
      if expectedSize >= 0 && bytes != expectedSize { return false; }
      if expectedSha != "" && digest(seen) != expectedSha { return false; }
      return true;
    }
  }

  predicate Expected(count: nat, content: Bytes, expectedSize: int, expectedSha: string, digest: Digest) {
    (expectedSize < 0 || count == expectedSize) && (expectedSha == "" || digest(content) == expectedSha)
  }

  /** What the host does with the file that is being written beside the destination. */
  datatype Host = Host(temporary: bool, synced: bool, renamed: bool)

  /** downloadFile into a destination: the body comes in chunks and may break off. The destination is
      replaced in one step, by a body that passed the check, or stays as it was. */
  method DownloadFile(destination: Option<Bytes>, chunks: seq<Bytes>, broken: bool, host: Host, size: int, sha: string, digest: Digest)
    returns (result: Option<Bytes>, ok: bool)
    ensures ok == (!broken && host == Host(true, true, true) && (size < 0 || |Concat(chunks)| == size) &&
                   (sha == "" || digest(Concat(chunks)) == sha))
    ensures result == if ok then Some(Concat(chunks)) else destination
  {
    var reader := new VerifyingFileReader(size, sha);
    if !host.temporary { return destination, false; }
    var temporary: Bytes := [];
    for n := 0 to |chunks|
      invariant reader.seen == temporary == Concat(chunks[..n]) && reader.bytes == |temporary|
      invariant !reader.verified
    {
      reader.Read(chunks[n]);
      temporary := temporary + chunks[n];
      assert chunks[..n + 1][..n] == chunks[..n];
    }
    assert chunks[..|chunks|] == chunks;
    if broken { return destination, false; }
    var checked := reader.Verify(digest);
    if !checked { return destination, false; }
    if !host.synced || !host.renamed { return destination, false; }
    var again := reader.Verify(digest);
    return Some(temporary), again;
  }

  /** The whole way: with a digest that tells files apart, whatever reaches the destination from a
      completed upload is the source. */
  lemma {:induction false} DeliveredIsSource(events: seq<Event>, source: Bytes, maxBytes: int, n: nat, blob: Bytes, received: Bytes, digest: Digest)
    requires n <= |events| && After(Stage([], None, false), events, source, maxBytes, n).blob == Some(blob)
    requires digest(blob) != "" && Expected(|received|, received, |blob|, digest(blob), digest)
    requires digest(received) == digest(blob) ==> received == blob
    ensures received == source
  {
    StagedIsPrefix(events, source, maxBytes, n);
  }
}
