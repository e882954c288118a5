/** `S3Storage` of `src/infra/aws.rs` as it is written: two nested loops over a stream and one client. */
module S3StorageObject {
  import opened Common
  import opened ObjectStore
  import opened StoreProcess

  /** The `ReaderStream` lent to `store`: the items not yet taken. */
  class ReaderStream {
    var rest: seq<Event>

    constructor (events: seq<Event>)
      ensures rest == events
    {
      rest := events;
    }

    method Next() returns (item: Option<Event>)
      modifies this
      ensures old(rest) == [] ==> item == None && rest == []
      ensures old(rest) != [] ==> item == Some(old(rest)[0]) && rest == old(rest)[1..]
    {
      if rest == [] {
        return None;
      }
      item := Some(rest[0]);
      rest := rest[1..];
    }
  }

  datatype PartRead = ReadError(error: StorageError) | PartRead(buffer: Bytes, eof: bool)

  /** `fill_part`; `events` is the whole stream, of which `taken` items were gone before the call. */
  method FillPart(data: ReaderStream, partSize: nat, bytesReceived: nat, ghost events: seq<Event>, ghost taken: nat)
    returns (part: PartRead, received: nat)
    requires taken <= |events| && data.rest == events[taken..]
    modifies data
    ensures var filled := Fill(events, taken, partSize, []);
            && data.rest == events[filled.taken..]
            && match filled
               case Aborted(_) => part == ReadError(ClientAbort)
               case Part(buffer, eof, _) => part == PartRead(buffer, eof) && received == bytesReceived + |buffer|
  {
    var buffer: Bytes := [];
    received := bytesReceived;
    ghost var t := taken;
    while |buffer| < partSize
      invariant taken <= t <= |events| && data.rest == events[t..]
      invariant Fill(events, t, partSize, buffer) == Fill(events, taken, partSize, [])
      invariant received == bytesReceived + |buffer|
      decreases |data.rest|
    {
      var item := data.Next();
      match item
      case Some(Chunk(chunk)) =>
        received := received + |chunk|;
        buffer := buffer + chunk;
        t := t + 1;
      case Some(Broken) =>
        return ReadError(ClientAbort), received;
      case None =>
        return PartRead(buffer, true), received;
    }
    part := PartRead(buffer, false);
  }

  /** The process `p` is reading `rest`, the untaken items of `events`, for the upload `id` of `key`. */
  ghost predicate Reading(p: Process, events: seq<Event>, key: Key, id: UploadId, rest: seq<Event>) {
    p.Bounded() && p.events == events && p.key == key && p.id == Some(id) && rest == events[p.taken..]
  }

  /** At the head of the part loop with `buffer` and `eof`. */
  ghost predicate AtHead(p: Process, buffer: Bytes, eof: bool) {
    && p.eof == eof && p.buffer == []
    && if buffer == [] then eof && p.stage == Completing
       else p.stage == Sending && p.parts != [] && p.parts[|p.parts| - 1] == buffer
  }

  /** Alone with `s`, the process `p` ends as `end` says. (The quantifier keeps `Drive` folded in the proofs.) */
  ghost predicate EndsAs(p: Process, s: Backend, end: (Process, Backend)) {
    p.Bounded() && forall n {:trigger Drive(p, s, n)} :: n == MULTIPART_PART_SIZE ==> Drive(p, s, n) == end
  }

  lemma AtFirstPart(first: Process)
    requires first.Bounded() && first.parts == [] && (|first.buffer| > 0 || first.eof)
    ensures var q := EnterLoop(first);
            && AtHead(q, first.buffer, first.eof) && |Join(q.parts)| == |first.buffer|
            && q.taken == first.taken && q.id == first.id && q.completed == first.completed
  {
    JoinAppend([], first.buffer);
  }

  /** The next part of the loop in `store`; `q` is the process with that part at the head of the loop. */
  method ReadPart(data: ReaderStream, bytesReceived: nat, ghost p: Process)
    returns (part: PartRead, received: nat, ghost q: Process)
    requires p.Bounded() && !p.eof && p.buffer == [] && data.rest == p.events[p.taken..]
    requires bytesReceived == |Join(p.parts)|
    modifies data
    ensures q == ReadNext(p, MULTIPART_PART_SIZE) && q.id == p.id && q.completed == p.completed
    ensures data.rest == q.events[q.taken..]
    ensures part.ReadError? ==> q.stage == Aborting(part.error)
    ensures part.PartRead? ==> AtHead(q, part.buffer, part.eof) && received == |Join(q.parts)|
    ensures part.PartRead? && !part.eof ==> |data.rest| < old(|data.rest|)
  {
    q := ReadNext(p, MULTIPART_PART_SIZE);
    part, received := FillPart(data, MULTIPART_PART_SIZE, bytesReceived, p.events, p.taken);
    if part.PartRead? {
      JoinAppend(p.parts, part.buffer);
    }
  }

  datatype Exists = Known(present: bool) | Unknown(error: StorageError)
  datatype Retrieved = Body(data: Bytes) | NoBody(error: StorageError)

  class S3Storage {
    var s3: Backend

    constructor (s3: Backend)
      ensures this.s3 == s3
    {
      this.s3 := s3;
    }

    /** `send().await` of one request. */
    method Send(request: Request) returns (response: Response)
      modifies this
      ensures (s3, response) == Serve(old(s3), request)
    {
      var (s', r) := Serve(s3, request);
      s3 := s';
      response := r;
    }

    method Exists(hash: Key) returns (r: Exists)
      modifies this
      ensures var (s', answer) := Serve(old(s3), Head(hash));
              && s3 == s'
              && (r == Known(true) <==> answer == Found)
              && (r == Known(false) <==> answer == Missing)
              && (r.Unknown? ==> r.error == OperationFailed)
    {
      var response := Send(Head(hash));
      match response
      case Found => r := Known(true);
      case Missing => r := Known(false);
      case _ => r := Unknown(OperationFailed);
    }

    method Retrieve(hash: Key) returns (r: Retrieved)
      modifies this
      ensures var (s', answer) := Serve(old(s3), Get(hash));
              && s3 == s'
              && (r.Body? <==> answer.Object?)
              && (r.Body? ==> r.data == answer.data)
              && (r == NoBody(NotFound) <==> answer == Missing)
              && (r.NoBody? && r.error != NotFound ==> r.error == OperationFailed)
    {
      var response := Send(Get(hash));
      match response
      case Object(data) => r := Body(data);
      case Missing => r := NoBody(NotFound);
      case _ => r := NoBody(OperationFailed);
    }

    /**
     The block inside `store` that uploads parts until the stream is drained. `first` is the process when its
     first part is full, `q` where it is at the head of the loop and when the block ends.
     */
    method UploadParts(hash: Key, uploadId: UploadId, data: ReaderStream, firstBuffer: Bytes, firstEof: bool,
                       firstReceived: nat, ghost first: Process, ghost end: (Process, Backend))
      returns (failure: Option<StorageError>, completedParts: seq<CompletedPart>, ghost q: Process)
      requires first.Bounded() && first.key == hash && data.rest == first.events[first.taken..]
      requires first.buffer == firstBuffer && first.eof == firstEof && first.id == Some(uploadId)
      requires first.parts == [] && first.completed == [] && firstReceived == |firstBuffer|
      requires !firstEof ==> |firstBuffer| >= MULTIPART_PART_SIZE
      requires EndsAs(EnterLoop(first), s3, end)
      modifies this, data
      ensures Reading(q, first.events, hash, uploadId, data.rest)
      ensures EndsAs(q, s3, end)
      ensures failure == None ==> q.stage == Completing && q.completed == completedParts
      ensures failure.Some? ==> q.stage == Aborting(failure.value)
    {
      q := EnterLoop(first);
      AtFirstPart(first);
      completedParts := [];
      var buffer, eof, bytesReceived := firstBuffer, firstEof, firstReceived;
      var partNumber := 1;
      while true
        invariant Reading(q, first.events, hash, uploadId, data.rest)
        invariant AtHead(q, buffer, eof)
        invariant q.completed == completedParts && partNumber == |completedParts| + 1
        invariant bytesReceived == |Join(q.parts)|
        invariant EndsAs(q, s3, end)
        decreases |data.rest| + if eof then 0 else 1
      {
        var partBody := buffer;
        if |partBody| > 0 {
          var tag;
          tag, q := SendPart(hash, uploadId, partNumber, partBody, q, end);
          if tag.None? {
            return Some(OperationFailed), completedParts, q;
          }
          completedParts := completedParts + [CompletedPart(partNumber, tag.value)];
          partNumber := partNumber + 1;
        }
        if eof {
          q := Proceed(q, MULTIPART_PART_SIZE);
          return None, completedParts, q;
        }
        var part: PartRead;
        part, bytesReceived, q := ReadPart(data, bytesReceived, q);
        if part.ReadError? {
          return Some(part.error), completedParts, q;
        }
        buffer, eof := part.buffer, part.eof;
      }
    }

    /** One `upload_part` call; no tag if it failed or was answered without one. */
    method SendPart(hash: Key, uploadId: UploadId, partNumber: nat, partBody: Bytes, ghost p: Process,
                    ghost end: (Process, Backend))
      returns (tag: Option<Tag>, ghost q: Process)
      requires EndsAs(p, s3, end) && p.stage == Sending && NextRequest(p) == Some(UploadPart(hash, uploadId, partNumber, partBody))
      modifies this
      ensures q.Bounded() && q.key == p.key && q.events == p.events && q.taken == p.taken && q.id == p.id
      ensures q.buffer == p.buffer && q.eof == p.eof && q.parts == p.parts
      ensures tag.Some? ==> q.completed == p.completed + [CompletedPart(|p.completed| + 1, tag.value)]
      ensures tag.None? ==> q.stage == Aborting(OperationFailed)
      ensures EndsAs(if tag.Some? then Proceed(q, MULTIPART_PART_SIZE) else q, s3, end)
    {
      DriveStep(p, s3, UploadPart(hash, uploadId, partNumber, partBody), MULTIPART_PART_SIZE);
      var response := Send(UploadPart(hash, uploadId, partNumber, partBody));
      tag := if response.Stored? then response.tag else None;
      q := if tag.Some? then Recorded(p, tag.value) else p.(stage := Aborting(OperationFailed));
    }

    /** The last request of a store, `complete_multipart_upload` or `abort_multipart_upload`. */
    method Finish(request: Request, ghost q: Process, ghost end: (Process, Backend)) returns (done: bool)
      requires EndsAs(q, s3, end) && NextRequest(q) == Some(request) && (q.stage == Completing || q.stage.Aborting?)
      modifies this
      ensures end.1 == s3 && end.0.taken == q.taken
      ensures end.0.stage == Finished(if q.stage.Aborting? then Err(q.stage.error) else if done then Ok else Err(OperationFailed))
    {
      DriveStep(q, s3, request, MULTIPART_PART_SIZE);
      var response := Send(request);
      done := response == Done;
    }

    /** `store` once the first part is full: a multipart upload. */
    method StoreInParts(hash: Key, data: ReaderStream, buffer: Bytes, bytesReceived: nat, ghost start: Process)
      returns (result: StoreResult)
      requires start.Bounded() && start.stage == Creating && start.key == hash && data.rest == start.events[start.taken..]
      requires start.buffer == buffer && !start.eof && |buffer| >= MULTIPART_PART_SIZE && bytesReceived == |buffer|
      requires start.parts == [] && start.completed == []
      modifies this, data
      ensures var (p, s') := Drive(start, old(s3), MULTIPART_PART_SIZE);
              p.stage == Finished(result) && s3 == s' && data.rest == start.events[p.taken..]
    {
      DriveStep(start, s3, Create(hash), MULTIPART_PART_SIZE);
      var created := Send(Create(hash));
      if !created.Created? || created.id.None? {
        return Err(OperationFailed);
      }
      var uploadId := created.id.value;
      var failure, completedParts;
      ghost var q, end := start, Drive(start, old(s3), MULTIPART_PART_SIZE);
      failure, completedParts, q :=
        UploadParts(hash, uploadId, data, buffer, false, bytesReceived, start.(id := created.id), end);
      if failure.Some? {
        var _ := Finish(Abort(hash, uploadId), q, end);
        return Err(failure.value);
      }
      var done := Finish(Complete(hash, uploadId, completedParts), q, end);
      result := if done then Ok else Err(OperationFailed);
    }

    method Store(hash: Key, data: ReaderStream) returns (result: StoreResult)
      modifies this, data
      ensures var (p, s') := Drive(Start(hash, old(data.rest), MULTIPART_PART_SIZE), old(s3), MULTIPART_PART_SIZE);
              && p.stage == Finished(result)
              && s3 == s'
              && data.rest == old(data.rest)[p.taken..]
    {
      ghost var start := Start(hash, data.rest, MULTIPART_PART_SIZE);
      var part, bytesReceived := FillPart(data, MULTIPART_PART_SIZE, 0, data.rest, 0);
      if part.ReadError? {
        return Err(part.error);
      }
      if part.eof {
        DriveStep(start, s3, Put(hash, part.buffer), MULTIPART_PART_SIZE);
        var response := Send(Put(hash, part.buffer));
        return if response == Done then Ok else Err(OperationFailed);
      }
      result := StoreInParts(hash, data, part.buffer, bytesReceived, start);
    }
  }
}
