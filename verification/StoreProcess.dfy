/**
 `fill_part` and `S3Storage::store` of `src/infra/aws.rs` as a process: between two S3 requests it only reads
 the client's stream, so its behaviour is the next request, and the state it goes to on an answer.
 */
module StoreProcess {
  import opened Common
  import opened ObjectStore

  const MULTIPART_PART_SIZE: nat := 8 * 1024 * 1024

  /** `StorageError` of `src/domain/storage.rs`. */
  datatype StorageError = NotFound | AlreadyExists | OperationFailed | ClientAbort

  datatype StoreResult = Ok | Err(error: StorageError)

  /** An item of the client's body stream: bytes, or a read error. After the last item the stream ends. */
  datatype Event = Chunk(data: Bytes) | Broken

  /** All the bytes of a stream; a stream without a read error delivers the body whole. */
  function Payload(events: seq<Event>): Bytes {
    if events == [] then []
    else
      var last := events[|events| - 1];
      Payload(events[..|events| - 1]) + if last.Chunk? then last.data else []
  }

  predicate Clean(events: seq<Event>) {
    forall i :: 0 <= i < |events| ==> events[i].Chunk?
  }

  function Join(parts: seq<Bytes>): Bytes {
    if parts == [] then [] else Join(parts[..|parts| - 1]) + parts[|parts| - 1]
  }

  lemma JoinAppend(parts: seq<Bytes>, part: Bytes)
    ensures Join(parts + [part]) == Join(parts) + part
  {
    assert (parts + [part])[..|parts|] == parts;
  }

  /** What `fill_part` returns, and how many items of the stream have been taken by then. */
  datatype Filled = Part(buffer: Bytes, eof: bool, taken: nat) | Aborted(taken: nat)

  /** `fill_part` once `buffer` has been collected and `taken` items are gone. */
  function Fill(events: seq<Event>, taken: nat, partSize: nat, buffer: Bytes): (r: Filled)
    requires taken <= |events|
    ensures taken <= r.taken <= |events|
    ensures r.Part? ==> (r.eof <==> |r.buffer| < partSize)
    ensures r.taken == taken ==> r == Part(buffer, |buffer| < partSize, taken)
    decreases |events| - taken
  {
    if |buffer| >= partSize then Part(buffer, false, taken)
    else if taken == |events| then Part(buffer, true, taken)
    else
      match events[taken]
      case Chunk(data) => Fill(events, taken + 1, partSize, buffer + data)
      case Broken => Aborted(taken + 1)
  }

  /** Where `store` is: the request whose answer it is waiting for, or its result. */
  datatype Stage =
    | Putting
    | Creating
    | Sending
    | Completing
    | Aborting(error: StorageError)
    | Finished(result: StoreResult)

  /**
   `parts` are the part bodies issued so far and `completed` the list for CompleteMultipartUpload; while
   Sending the last part is still unanswered.
   */
  datatype Process = Process(
    key: Key,
    events: seq<Event>,
    taken: nat,
    buffer: Bytes,
    eof: bool,
    id: Option<UploadId>,
    parts: seq<Bytes>,
    completed: seq<CompletedPart>,
    stage: Stage)
  {
    predicate Bounded() {
      taken <= |events|
    }
  }

  /** The head of the part loop: send the buffer, or leave the loop when there is nothing left to send. */
  function EnterLoop(p: Process): (q: Process)
    requires p.Bounded()
    ensures q.Bounded() && q.key == p.key && q.events == p.events
  {
    if |p.buffer| > 0 then p.(parts := p.parts + [p.buffer], buffer := [], stage := Sending)
    else p.(stage := Completing)
  }

  function Start(key: Key, events: seq<Event>, partSize: nat): (p: Process)
    ensures p.Bounded() && p.key == key && p.events == events
  {
    match Fill(events, 0, partSize, [])
    case Aborted(taken) => Process(key, events, taken, [], false, None, [], [], Finished(Err(ClientAbort)))
    case Part(buffer, eof, taken) =>
      Process(key, events, taken, buffer, eof, None, [], [], if eof then Putting else Creating)
  }

  /** The loop reads its next part; a read error ends it. */
  function ReadNext(p: Process, partSize: nat): (q: Process)
    requires p.Bounded()
    ensures q.Bounded() && q.key == p.key && q.events == p.events
    ensures q.taken >= p.taken
  {
    match Fill(p.events, p.taken, partSize, [])
    case Aborted(taken) => p.(taken := taken, stage := Aborting(ClientAbort))
    case Part(buffer, eof, taken) => EnterLoop(p.(taken := taken, buffer := buffer, eof := eof))
  }

  /** The part just answered goes on the list for CompleteMultipartUpload. */
  function Recorded(p: Process, tag: Tag): Process {
    p.(completed := p.completed + [CompletedPart(|p.completed| + 1, tag)])
  }

  /** Once the part at hand is recorded: leave the loop at end of stream, else read the next part. */
  function Proceed(p: Process, partSize: nat): (q: Process)
    requires p.Bounded()
    ensures q.Bounded() && q.key == p.key && q.events == p.events
  {
    if p.eof then p.(stage := Completing) else ReadNext(p, partSize)
  }

  /** After a part was stored. */
  function Advance(p: Process, tag: Tag, partSize: nat): (q: Process)
    requires p.Bounded()
    ensures q.Bounded() && q.key == p.key && q.events == p.events
  {
    Proceed(Recorded(p, tag), partSize)
  }

  function NextRequest(p: Process): Option<Request> {
    match p.stage
    case Putting => Some(Put(p.key, p.buffer))
    case Creating => Some(Create(p.key))
    case Sending =>
      if p.id.Some? && p.parts != [] then Some(UploadPart(p.key, p.id.value, |p.completed| + 1, p.parts[|p.parts| - 1]))
      else None
    case Completing => if p.id.Some? then Some(Complete(p.key, p.id.value, p.completed)) else None
    case Aborting(_) => if p.id.Some? then Some(Abort(p.key, p.id.value)) else None
    case Finished(_) => None
  }

  function Resume(p: Process, answer: Response, partSize: nat): (q: Process)
    requires p.Bounded()
    ensures q.Bounded() && q.key == p.key && q.events == p.events
  {
    match p.stage
    case Putting => p.(stage := Finished(if answer == Done then Ok else Err(OperationFailed)))
    case Creating =>
      if answer.Created? && answer.id.Some? then EnterLoop(p.(id := answer.id))
      else p.(stage := Finished(Err(OperationFailed)))
    case Sending =>
      if answer.Stored? && answer.tag.Some? then Advance(p, answer.tag.value, partSize)
      else p.(stage := Aborting(OperationFailed))
    case Completing => p.(stage := Finished(if answer == Done then Ok else Err(OperationFailed)))
    case Aborting(error) => p.(stage := Finished(Err(error)))
    case Finished(_) => p
  }

  function Rank(stage: Stage): nat {
    match stage
    case Finished(_) => 0
    case Putting => 1
    case Aborting(_) => 1
    case Completing => 2
    case Sending => 3
    case Creating => 4
  }

  /** Every answer brings the process nearer its end: it reads on, or moves to a later stage. */
  lemma ResumeProgress(p: Process, answer: Response, partSize: nat)
    requires p.Bounded() && NextRequest(p).Some?
    ensures var q := Resume(p, answer, partSize);
            q.taken > p.taken || (q.taken == p.taken && Rank(q.stage) < Rank(p.stage))
  {
  }

  /** One request to the backend, and the process on its answer. */
  function Take(p: Process, s: Backend, partSize: nat): (r: (Process, Backend))
    requires p.Bounded() && NextRequest(p).Some?
    ensures r.0.Bounded() && r.0.key == p.key && r.0.events == p.events
    ensures r.0.taken > p.taken || (r.0.taken == p.taken && Rank(r.0.stage) < Rank(p.stage))
  {
    var (s', answer) := Serve(s, NextRequest(p).value);
    ResumeProgress(p, answer, partSize);
    (Resume(p, answer, partSize), s')
  }

  /** The process alone with a backend, from `p` to its end. */
  function Drive(p: Process, s: Backend, partSize: nat): (r: (Process, Backend))
    requires p.Bounded()
    ensures r.0.Bounded() && r.0.key == p.key && r.0.events == p.events
    decreases |p.events| - p.taken, Rank(p.stage)
  {
    if NextRequest(p).None? then (p, s)
    else
      var (q, s') := Take(p, s, partSize);
      Drive(q, s', partSize)
  }

  /** Driving goes one request at a time. */
  lemma DriveStep(p: Process, s: Backend, request: Request, partSize: nat)
    requires p.Bounded() && NextRequest(p) == Some(request)
    ensures var (s', answer) := Serve(s, request);
            Drive(p, s, partSize) == Drive(Resume(p, answer, partSize), s', partSize)
  {
  }
}
