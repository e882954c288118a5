/** What the store process keeps on every answer S3 may give: byte conservation, part shapes, memory. */
module StoreInvariants {
  import opened Common
  import opened ObjectStore
  import opened StoreProcess

  lemma {:induction false} PayloadPrefix(events: seq<Event>, n: nat)
    requires n <= |events|
    ensures |Payload(events[..n])| <= |Payload(events)|
    decreases |events|
  {
    if n < |events| {
      var init := events[..|events| - 1];
      PayloadPrefix(init, n);
      assert init[..n] == events[..n];
    } else {
      assert events[..n] == events;
    }
  }

  // ---------- fill_part ----------

  /**
   `base` is what came before the buffer. A filled part loses nothing, and no item is taken once there are enough
   bytes for it; a read error is reported exactly when the last item that had to be taken is one.
   */
  lemma {:induction false} FillConserves(events: seq<Event>, taken: nat, partSize: nat, buffer: Bytes, base: Bytes)
    requires taken <= |events| && Clean(events[..taken]) && base + buffer == Payload(events[..taken])
    ensures match Fill(events, taken, partSize, buffer)
            case Part(b, eof, t) =>
              && base + b == Payload(events[..t]) && Clean(events[..t]) && (eof ==> t == |events|)
              && (t > taken ==> |Payload(events[..t - 1])| < |base| + partSize)
            case Aborted(t) =>
              && t > taken && events[t - 1].Broken? && Clean(events[..t - 1])
              && |Payload(events[..t - 1])| < |base| + partSize
    decreases |events| - taken
  {
    if |buffer| < partSize && taken < |events| {
      assert |Payload(events[..taken])| == |base| + |buffer|;
      match events[taken]
      case Chunk(data) =>
        assert events[..taken + 1][..taken] == events[..taken];
        assert base + (buffer + data) == (base + buffer) + data;
        FillConserves(events, taken + 1, partSize, buffer + data, base);
      case Broken =>
    }
  }

  /** Items of at most `chunk` bytes. */
  predicate ChunksWithin(events: seq<Event>, chunk: nat) {
    forall i :: 0 <= i < |events| && events[i].Chunk? ==> |events[i].data| <= chunk
  }

  /** Every buffer `fill_part` ever holds is shorter than a part plus a chunk. */
  lemma {:induction false} FillBounded(events: seq<Event>, taken: nat, partSize: nat, buffer: Bytes, chunk: nat)
    requires taken <= |events| && ChunksWithin(events, chunk) && |buffer| < partSize + chunk
    ensures var r := Fill(events, taken, partSize, buffer); r.Part? ==> |r.buffer| < partSize + chunk
    decreases |events| - taken
  {
    if |buffer| < partSize && taken < |events| && events[taken].Chunk? {
      FillBounded(events, taken + 1, partSize, buffer + events[taken].data, chunk);
    }
  }

  // ---------- the process ----------

  /** The bytes taken from the stream are the bytes issued as parts followed by the bytes still held. */
  ghost predicate Conserves(p: Process)
    requires p.Bounded()
  {
    Join(p.parts) + p.buffer == Payload(p.events[..p.taken]) && Clean(p.events[..p.taken])
  }

  /** `store` is giving up because of the item it took last. */
  ghost predicate GaveUp(p: Process) {
    && 0 < p.taken <= |p.events|
    && p.events[p.taken - 1].Broken? && Clean(p.events[..p.taken - 1])
  }

  /** Parts are never empty, and only the last may be short, and that only at the end of the stream. */
  ghost predicate PartShapes(p: Process, partSize: nat) {
    && (forall i :: 0 <= i < |p.parts| ==> |p.parts[i]| > 0)
    && (forall i :: 0 <= i < |p.parts| - 1 ==> |p.parts[i]| >= partSize)
    && (!p.eof && p.parts != [] ==> |p.parts[|p.parts| - 1]| >= partSize)
  }

  ghost predicate Numbered(parts: seq<CompletedPart>) {
    forall i :: 0 <= i < |parts| ==> parts[i].number == i + 1
  }

  ghost predicate StageShape(p: Process, partSize: nat) {
    match p.stage
    case Putting => p.eof && p.id == None && p.parts == [] && p.completed == [] && |p.buffer| < partSize
    case Creating => !p.eof && p.id == None && p.parts == [] && p.completed == [] && |p.buffer| >= partSize
    case Sending => p.id.Some? && p.buffer == [] && |p.parts| == |p.completed| + 1
    case Completing => p.id.Some? && p.buffer == [] && p.eof && |p.parts| == |p.completed| > 0
    case Aborting(error) =>
      p.id.Some? && (error == ClientAbort || (error == OperationFailed && |p.parts| == |p.completed| + 1))
    case Finished(Ok) =>
      && p.eof
      && (if p.id.Some? then p.buffer == [] && |p.parts| == |p.completed| > 0 else p.parts == [] && |p.buffer| < partSize)
    case Finished(Err(error)) => error in {OperationFailed, ClientAbort}
  }

  predicate BecauseOfClient(stage: Stage) {
    stage == Aborting(ClientAbort) || stage == Finished(Err(ClientAbort))
  }

  ghost predicate Sound(p: Process, partSize: nat) {
    && p.Bounded()
    && Numbered(p.completed)
    && (p.eof ==> p.taken == |p.events|)
    && (if BecauseOfClient(p.stage) then GaveUp(p) else Conserves(p))
    && PartShapes(p, partSize)
    && StageShape(p, partSize)
  }

  lemma StartSound(key: Key, events: seq<Event>, partSize: nat)
    requires partSize > 0
    ensures Sound(Start(key, events, partSize), partSize)
  {
    FillConserves(events, 0, partSize, [], []);
  }

  lemma EnterLoopSound(p: Process, partSize: nat)
    requires partSize > 0 && p.Bounded() && Numbered(p.completed) && (p.eof ==> p.taken == |p.events|)
    requires Conserves(p) && PartShapes(p, partSize) && p.id.Some? && |p.parts| == |p.completed|
    requires if p.eof then p.parts != [] || |p.buffer| > 0 else |p.buffer| >= partSize
    requires forall i :: 0 <= i < |p.parts| ==> |p.parts[i]| >= partSize
    ensures Sound(EnterLoop(p), partSize)
  {
    JoinAppend(p.parts, p.buffer);
  }

  /** The part just answered is recorded, before anything more is read. */
  lemma RecordSound(p: Process, tag: Tag, partSize: nat)
    requires Sound(p, partSize) && p.stage == Sending
    ensures var q := Recorded(p, tag);
            && Numbered(q.completed) && Conserves(q) && PartShapes(q, partSize) && |q.parts| == |q.completed|
            && (!q.eof ==> forall i :: 0 <= i < |q.parts| ==> |q.parts[i]| >= partSize)
  {
  }

  lemma ReadNextSound(q: Process, partSize: nat)
    requires partSize > 0 && q.Bounded() && !q.eof && q.stage == Sending && q.id.Some? && q.buffer == []
    requires Numbered(q.completed) && Conserves(q) && |q.parts| == |q.completed| > 0
    requires forall i :: 0 <= i < |q.parts| ==> |q.parts[i]| >= partSize
    ensures Sound(ReadNext(q, partSize), partSize)
  {
    var base := Join(q.parts);
    assert base + [] == base;
    FillConserves(q.events, q.taken, partSize, [], base);
    match Fill(q.events, q.taken, partSize, [])
    case Aborted(_) =>
    case Part(buffer, eof, taken) => EnterLoopSound(q.(taken := taken, buffer := buffer, eof := eof), partSize);
  }

  lemma AdvanceSound(p: Process, tag: Tag, partSize: nat)
    requires partSize > 0 && Sound(p, partSize) && p.stage == Sending
    ensures Sound(Advance(p, tag, partSize), partSize)
  {
    RecordSound(p, tag, partSize);
    if !p.eof {
      ReadNextSound(Recorded(p, tag), partSize);
    }
  }

  lemma CreatedSound(p: Process, answer: Response, partSize: nat)
    requires partSize > 0 && Sound(p, partSize) && p.stage == Creating
    ensures Sound(Resume(p, answer, partSize), partSize)
  {
    if answer.Created? && answer.id.Some? {
      EnterLoopSound(p.(id := answer.id), partSize);
    }
  }

  lemma SentSound(p: Process, answer: Response, partSize: nat)
    requires partSize > 0 && Sound(p, partSize) && p.stage == Sending
    ensures Sound(Resume(p, answer, partSize), partSize)
  {
    if answer.Stored? && answer.tag.Some? {
      AdvanceSound(p, answer.tag.value, partSize);
    }
  }

  /** Whatever S3 answers, the process stays sound. */
  lemma ResumeSound(p: Process, answer: Response, partSize: nat)
    requires partSize > 0 && Sound(p, partSize)
    ensures Sound(Resume(p, answer, partSize), partSize)
  {
    if p.stage == Creating {
      CreatedSound(p, answer, partSize);
    } else if p.stage == Sending {
      SentSound(p, answer, partSize);
    }
  }

  // ---------- memory ----------

  /** What is held at once: the buffer, or the part being sent. */
  function Held(p: Process): Bytes {
    if p.stage == Sending && p.parts != [] then p.parts[|p.parts| - 1] else p.buffer
  }

  ghost predicate PartsWithin(p: Process, bound: nat) {
    |p.buffer| < bound && forall i :: 0 <= i < |p.parts| ==> |p.parts[i]| < bound
  }

  lemma StartMemory(key: Key, events: seq<Event>, partSize: nat, chunk: nat)
    requires partSize > 0 && ChunksWithin(events, chunk)
    ensures PartsWithin(Start(key, events, partSize), partSize + chunk)
  {
    FillBounded(events, 0, partSize, [], chunk);
  }

  /** Never more than one part and one chunk is held, and so no part is longer than that. */
  lemma ResumeMemory(p: Process, answer: Response, partSize: nat, chunk: nat)
    requires partSize > 0 && p.Bounded() && ChunksWithin(p.events, chunk) && PartsWithin(p, partSize + chunk)
    ensures var q := Resume(p, answer, partSize);
            PartsWithin(q, partSize + chunk) && |Held(q)| < partSize + chunk
  {
    FillBounded(p.events, p.taken, partSize, [], chunk);
  }

  // ---------- every reachable process ----------

  /** The process after a sequence of answers, whatever they are. */
  function Replay(p: Process, answers: seq<Response>, partSize: nat): (q: Process)
    requires p.Bounded()
    ensures q.Bounded() && q.key == p.key && q.events == p.events
  {
    if answers == [] then p
    else Resume(Replay(p, answers[..|answers| - 1], partSize), answers[|answers| - 1], partSize)
  }

  /**
   Byte conservation and bounded memory in every reachable state: unless the client broke off, the bytes
   taken from the stream are the issued parts followed by the buffer, in order; and never more than a part
   and a chunk is held.
   */
  lemma {:induction false} StoreConserves(key: Key, events: seq<Event>, answers: seq<Response>, partSize: nat, chunk: nat)
    requires partSize > 0 && ChunksWithin(events, chunk)
    ensures var p := Replay(Start(key, events, partSize), answers, partSize);
            && Sound(p, partSize) && PartsWithin(p, partSize + chunk) && |Held(p)| < partSize + chunk
            && (!BecauseOfClient(p.stage) ==> Join(p.parts) + p.buffer == Payload(events[..p.taken]))
  {
    if answers == [] {
      StartSound(key, events, partSize);
      StartMemory(key, events, partSize, chunk);
    } else {
      var init := answers[..|answers| - 1];
      StoreConserves(key, events, init, partSize, chunk);
      var p := Replay(Start(key, events, partSize), init, partSize);
      ResumeSound(p, answers[|answers| - 1], partSize);
      ResumeMemory(p, answers[|answers| - 1], partSize, chunk);
    }
  }
}
