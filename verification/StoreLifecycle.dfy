/** The requests one `store` makes: what is sent, in which order, and how an upload ends. */
module StoreLifecycle {
  import opened Common
  import opened ObjectStore
  import opened StoreProcess
  import opened StoreInvariants
  import opened StoreCorrectness
  import opened StoreArithmetic

  predicate PartFailed(call: Call) {
    call.request.UploadPart? && !(call.response.Stored? && call.response.tag.Some?)
  }

  predicate GivesId(call: Call) {
    call.request.Create? && call.response.Created? && call.response.id.Some?
  }

  predicate Terminal(request: Request) {
    request.Complete? || request.Abort?
  }

  /** Create was answered with the id, and part i + 1 was sent as issued and answered with the recorded tag. */
  ghost predicate Opened(p: Process, calls: seq<Call>) {
    && p.id.Some? && |p.completed| <= |p.parts| && 1 + |p.completed| <= |calls|
    && calls[0] == Call(Create(p.key), Created(p.id))
    && forall i :: 1 <= i <= |p.completed| ==>
         calls[i] == Call(UploadPart(p.key, p.id.value, i, p.parts[i - 1]), Stored(Some(p.completed[i - 1].tag)))
  }

  /** A multipart upload that ran to `calls` all but its terminal request. */
  ghost predicate Looped(p: Process, calls: seq<Call>, failed: bool) {
    && Opened(p, calls)
    && if failed then |calls| == 2 + |p.completed| && |p.parts| == 1 + |p.completed| && PartFailed(calls[1 + |p.completed|])
       else |calls| == 1 + |p.completed|
  }

  /** What a put or a complete that was answered so makes of its store. */
  function EndedBy(response: Response): StoreResult {
    if response == Done then Ok else Err(OperationFailed)
  }

  /** The calls made when the process is at `p`. */
  ghost predicate Logged(p: Process, calls: seq<Call>) {
    match p.stage
    case Putting => calls == []
    case Creating => calls == []
    case Sending => Looped(p, calls, false)
    case Completing => Looped(p, calls, false)
    case Aborting(error) => Looped(p, calls, error == OperationFailed)
    case Finished(result) =>
      if p.id.None? then
        || (calls == [] && result == Err(ClientAbort))
        || (|calls| == 1 && calls[0].request == Put(p.key, p.buffer) && result == EndedBy(calls[0].response))
        || (|calls| == 1 && calls[0].request == Create(p.key) && !GivesId(calls[0]) && result == Err(OperationFailed))
      else
        && |calls| > 0
        && var looped, last := calls[..|calls| - 1], calls[|calls| - 1];
        || (Looped(p, looped, false) && last.request == Complete(p.key, p.id.value, p.completed) && Clean(p.events) &&
            result == EndedBy(last.response))
        || (Looped(p, looped, true) && last.request == Abort(p.key, p.id.value) && result == Err(OperationFailed))
        || (Looped(p, looped, false) && last.request == Abort(p.key, p.id.value) && GaveUp(p) && result == Err(ClientAbort))
  }

  lemma LoopedStep(p: Process, calls: seq<Call>, answer: Response, partSize: nat)
    requires partSize > 0 && Sound(p, partSize) && p.stage == Sending && Looped(p, calls, false)
    ensures NextRequest(p).Some?
    ensures Logged(Resume(p, answer, partSize), calls + [Call(NextRequest(p).value, answer)])
  {
    var calls', q := calls + [Call(NextRequest(p).value, answer)], Resume(p, answer, partSize);
    forall i | 1 <= i <= |q.completed|
      ensures calls'[i] == Call(UploadPart(q.key, q.id.value, i, q.parts[i - 1]), Stored(Some(q.completed[i - 1].tag)))
    {
      if i <= |p.completed| {
        assert q.parts[i - 1] == p.parts[i - 1] && q.completed[i - 1] == p.completed[i - 1];
        assert calls[i] == Call(UploadPart(p.key, p.id.value, i, p.parts[i - 1]), Stored(Some(p.completed[i - 1].tag)));
      }
    }
    assert Opened(q, calls');
  }

  /** `Opened` looks only at what a terminal answer leaves as it was. */
  lemma OpenedStays(p: Process, calls: seq<Call>, stage: Stage)
    requires Opened(p, calls)
    ensures Opened(p.(stage := stage), calls)
  {
    var q := p.(stage := stage);
    forall i | 1 <= i <= |q.completed|
      ensures calls[i] == Call(UploadPart(q.key, q.id.value, i, q.parts[i - 1]), Stored(Some(q.completed[i - 1].tag)))
    {
      assert calls[i] == Call(UploadPart(p.key, p.id.value, i, p.parts[i - 1]), Stored(Some(p.completed[i - 1].tag)));
    }
  }

  lemma TerminalStep(p: Process, calls: seq<Call>, answer: Response, partSize: nat)
    requires Sound(p, partSize) && (p.stage == Completing || p.stage.Aborting?) && Logged(p, calls)
    ensures NextRequest(p).Some?
    ensures Logged(Resume(p, answer, partSize), calls + [Call(NextRequest(p).value, answer)])
  {
    var calls', q := calls + [Call(NextRequest(p).value, answer)], Resume(p, answer, partSize);
    assert q == p.(stage := q.stage);
    OpenedStays(p, calls, q.stage);
    assert calls'[..|calls'| - 1] == calls;
    assert p.events[..|p.events|] == p.events;
  }

  lemma LoggedStep(p: Process, calls: seq<Call>, answer: Response, partSize: nat)
    requires partSize > 0 && Sound(p, partSize) && !p.stage.Finished? && Logged(p, calls)
    ensures NextRequest(p).Some?
    ensures Logged(Resume(p, answer, partSize), calls + [Call(NextRequest(p).value, answer)])
  {
    match p.stage
    case Sending => LoopedStep(p, calls, answer, partSize);
    case Completing => TerminalStep(p, calls, answer, partSize);
    case Aborting(_) => TerminalStep(p, calls, answer, partSize);
    case _ =>
  }

  lemma ServeLogged(p: Process, s: Backend, partSize: nat, before: seq<Call>, calls: seq<Call>)
    returns (calls': seq<Call>)
    requires partSize > 0 && Sound(p, partSize) && !p.stage.Finished? && Logged(p, calls) && s.log == before + calls
    ensures NextRequest(p).Some?
    ensures var (q, s') := Take(p, s, partSize);
            s'.log == before + calls' && Sound(q, partSize) && Logged(q, calls')
  {
    LoggedStep(p, calls, Failed, partSize);
    var answer := Serve(s, NextRequest(p).value).1;
    LoggedStep(p, calls, answer, partSize);
    ResumeSound(p, answer, partSize);
    calls' := calls + [Call(NextRequest(p).value, answer)];
  }

  lemma {:induction false} DriveLogged(p: Process, s: Backend, partSize: nat, before: seq<Call>, calls: seq<Call>)
    requires partSize > 0 && Sound(p, partSize) && Logged(p, calls) && s.log == before + calls
    ensures var (q, s') := Drive(p, s, partSize);
            && q.stage.Finished? && Sound(q, partSize)
            && |before| <= |s'.log| && s'.log[..|before|] == before && Logged(q, s'.log[|before|..])
    decreases |p.events| - p.taken, Rank(p.stage)
  {
    if !p.stage.Finished? {
      var calls' := ServeLogged(p, s, partSize, before, calls);
      var (q, s') := Take(p, s, partSize);
      DriveLogged(q, s', partSize, before, calls');
    } else {
      assert s.log[|before|..] == calls;
    }
  }

  /** The calls `store` adds to the log. */
  function Calls(key: Key, events: seq<Event>, s: Backend, partSize: nat): (calls: seq<Call>)
  {
    var log := Drive(Start(key, events, partSize), s, partSize).1.log;
    if |s.log| <= |log| then log[|s.log|..] else []
  }

  /**
   Every upload `store` was given an id for gets exactly one terminal request, as the last call: Complete if
   the body was read whole and every part was stored, Abort otherwise. Without an id there is none.
   */
  lemma UploadLifecycle(key: Key, events: seq<Event>, s: Backend, partSize: nat)
    requires partSize > 0
    ensures var calls := Calls(key, events, s, partSize);
            var given := |calls| > 0 && GivesId(calls[0]);
            && (forall i :: 0 <= i < |calls| && Terminal(calls[i].request) ==> given && i == |calls| - 1)
            && (given ==>
                  var last := calls[|calls| - 1].request;
                  && |calls| >= 2 && Terminal(last) && last.key == key && last.id == calls[0].response.id.value
                  && (last.Complete? <==> Clean(events) && forall i :: 0 <= i < |calls| ==> !PartFailed(calls[i])))
  {
    var start := Start(key, events, partSize);
    StartSound(key, events, partSize);
    DriveLogged(start, s, partSize, s.log, []);
    var (p, s') := Drive(start, s, partSize);
    var calls := Calls(key, events, s, partSize);
    LoggedLifecycle(p, calls, partSize);
  }

  lemma LoopedShape(p: Process, looped: seq<Call>, failed: bool)
    requires Looped(p, looped, failed)
    ensures |looped| > 0 && looped[0].response == Created(p.id)
    ensures forall i :: 0 <= i < |looped| ==> !Terminal(looped[i].request)
    ensures failed <==> exists i :: 0 <= i < |looped| && PartFailed(looped[i])
  {
    forall i | 0 <= i < 1 + |p.completed|
      ensures !Terminal(looped[i].request) && !PartFailed(looped[i])
    {
      if i > 0 {
        assert looped[i] == Call(UploadPart(p.key, p.id.value, i, p.parts[i - 1]), Stored(Some(p.completed[i - 1].tag)));
      }
    }
  }

  lemma LoggedLifecycle(p: Process, calls: seq<Call>, partSize: nat)
    requires p.stage.Finished? && Sound(p, partSize) && Logged(p, calls)
    ensures var given := |calls| > 0 && GivesId(calls[0]);
            && (forall i :: 0 <= i < |calls| && Terminal(calls[i].request) ==> given && i == |calls| - 1)
            && (given ==>
                  var last := calls[|calls| - 1].request;
                  && |calls| >= 2 && Terminal(last) && last.key == p.key && last.id == calls[0].response.id.value
                  && (last.Complete? <==> Clean(p.events) && forall i :: 0 <= i < |calls| ==> !PartFailed(calls[i])))
  {
    if p.id.Some? {
      var n := |calls| - 1;
      var looped := calls[..n];
      var failed := !Looped(p, looped, false);
      LoopedShape(p, looped, failed);
      assert forall i :: 0 <= i < n ==> calls[i] == looped[i];
      if failed {
        var i :| 0 <= i < |looped| && PartFailed(looped[i]);
        assert PartFailed(calls[i]);
      }
    }
  }

  lemma LoggedResult(p: Process, calls: seq<Call>)
    requires p.stage.Finished? && Logged(p, calls)
    ensures var commits := |calls| > 0 && (calls[|calls| - 1].request.Put? || calls[|calls| - 1].request.Complete?);
            var failed := |calls| > 0 && (commits || calls[|calls| - 1].request.Create?
                                          || exists i :: 0 <= i < |calls| && PartFailed(calls[i]));
            p.stage.result == if commits && calls[|calls| - 1].response == Done then Ok
                              else if failed then Err(OperationFailed)
                              else Err(ClientAbort)
  {
    if p.id.Some? {
      var n := |calls| - 1;
      var looped := calls[..n];
      LoopedShape(p, looped, !Looped(p, looped, false));
      assert forall i :: 0 <= i < n ==> calls[i] == looped[i];
      if i :| 0 <= i < |looped| && PartFailed(looped[i]) {
        assert PartFailed(calls[i]);
      }
    }
  }

  /**
   The result can be read off the calls: Ok if the last one is a put or a complete and was answered, OperationFailed if
   that one failed, a create gave no id or a part failed, and otherwise the client broke off.
   */
  lemma ResultExact(key: Key, events: seq<Event>, s: Backend, partSize: nat)
    requires partSize > 0
    ensures var calls, stage := Calls(key, events, s, partSize), Drive(Start(key, events, partSize), s, partSize).0.stage;
            var commits := |calls| > 0 && (calls[|calls| - 1].request.Put? || calls[|calls| - 1].request.Complete?);
            var failed := |calls| > 0 && (commits || calls[|calls| - 1].request.Create?
                                          || exists i :: 0 <= i < |calls| && PartFailed(calls[i]));
            stage == Finished(if commits && calls[|calls| - 1].response == Done then Ok
                              else if failed then Err(OperationFailed)
                              else Err(ClientAbort))
  {
    StartSound(key, events, partSize);
    DriveLogged(Start(key, events, partSize), s, partSize, s.log, []);
    LoggedResult(Drive(Start(key, events, partSize), s, partSize).0, Calls(key, events, s, partSize));
  }

  lemma {:induction false} DriveKeepsLog(p: Process, s: Backend, partSize: nat)
    requires p.Bounded()
    ensures s.log <= Drive(p, s, partSize).1.log
    decreases |p.events| - p.taken, Rank(p.stage)
  {
    if NextRequest(p).Some? {
      var (q, s') := Take(p, s, partSize);
      DriveKeepsLog(q, s', partSize);
    }
  }

  lemma FirstCall(p: Process, s: Backend, partSize: nat)
    requires p.Bounded()
    ensures var log := Drive(p, s, partSize).1.log;
            if NextRequest(p).None? then log == s.log
            else |log| > |s.log| && log[|s.log|].request == NextRequest(p).value && (p.stage == Putting ==> |log| == |s.log| + 1)
  {
    if NextRequest(p).Some? {
      var (q, s') := Take(p, s, partSize);
      DriveKeepsLog(q, s', partSize);
      assert s'.log[|s.log|].request == NextRequest(p).value;
    }
  }

  /**
   What a store begins with is decided by the bytes before the first read error: 8 MiB of them make it a multipart
   upload; fewer are put, in one request, if they are the whole body, and come to nothing, without any request, if not.
   */
  lemma FirstCallExact(key: Key, events: seq<Event>, s: Backend)
    ensures var calls, data := Calls(key, events, s, MULTIPART_PART_SIZE), Payload(Lead(events));
            if |data| >= 8 * 1024 * 1024 then |calls| > 0 && calls[0].request == Create(key)
            else if Clean(events) then |calls| == 1 && calls[0].request == Put(key, data)
            else calls == []
  {
    var p := Start(key, events, MULTIPART_PART_SIZE);
    StartExact(key, events, MULTIPART_PART_SIZE);
    FirstCall(p, s, MULTIPART_PART_SIZE);
  }

  lemma DriveWithoutStorage(p: Process, s: Backend, partSize: nat)
    requires p.Bounded() && s.script == [] && (p.stage.Finished? || p.stage in {Putting, Creating})
    ensures var (q, s') := Drive(p, s, partSize);
            s'.bucket == s.bucket && q.stage == if p.stage.Finished? then p.stage else Finished(Err(OperationFailed))
  {
    if !p.stage.Finished? {
      var (q, s') := Take(p, s, partSize);
      assert q.stage == Finished(Err(OperationFailed));
    }
  }

  /** With S3 gone a store fails at its first call, unless the client is gone before that. */
  lemma StoreWithoutStorage(key: Key, events: seq<Event>, s: Backend)
    requires s.script == []
    ensures var (p, s') := Drive(Start(key, events, MULTIPART_PART_SIZE), s, MULTIPART_PART_SIZE);
            && s'.bucket == s.bucket
            && p.stage == Finished(Err(if Clean(events) || |Payload(Lead(events))| >= 8 * 1024 * 1024 then OperationFailed
                                       else ClientAbort))
  {
    StartExact(key, events, MULTIPART_PART_SIZE);
    DriveWithoutStorage(Start(key, events, MULTIPART_PART_SIZE), s, MULTIPART_PART_SIZE);
  }

  lemma FailedPartInLog(p: Process, calls: seq<Call>, i: nat)
    requires p.stage.Finished? && Logged(p, calls) && i < |calls| && PartFailed(calls[i])
    ensures |p.parts| != |p.completed| && p.id.Some?
  {
    var looped := calls[..|calls| - 1];
    if Looped(p, looped, false) {
      LoopedShape(p, looped, false);
    }
  }

  /** A failed part, like a client abort, leaves the objects as they were. */
  lemma FailedPartKeepsObjects(key: Key, events: seq<Event>, s: Backend, partSize: nat, i: nat)
    requires partSize > 0 && s.bucket.FreshIds()
    requires var calls := Calls(key, events, s, partSize); i < |calls| && PartFailed(calls[i])
    ensures Drive(Start(key, events, partSize), s, partSize).1.bucket.objects == s.bucket.objects
  {
    var start := Start(key, events, partSize);
    StartSound(key, events, partSize);
    StartTracks(key, events, partSize, s.bucket);
    DriveTracks(start, s.bucket, s, partSize);
    DriveLogged(start, s, partSize, s.log, []);
    FailedPartInLog(Drive(start, s, partSize).0, Calls(key, events, s, partSize), i);
  }

  // ---------- what can be left behind ----------

  /** At the Complete call every condition S3 sets is met, part sizes included. */
  lemma CompleteAccepted(p: Process, b0: Bucket, b: Bucket, partSize: nat)
    requires partSize >= MINIMUM_PART && Sound(p, partSize) && Tracks(p, b0, b) && p.stage == Completing
    ensures NextRequest(p).Some? && Accepts(b, NextRequest(p).value)
  {
    var upload := b.uploads[b0.minted];
    forall i | 0 <= i < |p.completed|
      ensures p.completed[i].number in upload.parts
      ensures upload.parts[p.completed[i].number] == StoredPart(p.parts[i], p.completed[i].tag)
    {
      assert HoldsPart(upload, p, i);
    }
  }

  /** The answers after which an upload may stay open: no id, or a terminal request that failed. */
  predicate LeavesOpen(call: Call) {
    if call.request.Create? then !GivesId(call) else Terminal(call.request) && call.response == Failed
  }

  /** What S3 must have done with the last request: carried out a create without giving the id, or refused the end. */
  predicate LeftOpen(request: Request, outcome: Outcome) {
    if request.Create? then outcome.Lost? || outcome.Blank? else Terminal(request) && outcome.Refused?
  }

  lemma LastStepTidy(p: Process, b0: Bucket, b: Bucket, outcome: Outcome, partSize: nat)
    requires partSize > 0 && Sound(p, partSize) && Tracks(p, b0, b) && b0.FreshIds() && !p.stage.Finished?
    ensures NextRequest(p).Some?
    ensures var request := NextRequest(p).value;
            var (b', answer) := Carry(b, request, outcome);
            Resume(p, answer, partSize).stage.Finished? ==>
              && (b'.uploads == b0.uploads || LeavesOpen(Call(request, answer)))
              && (partSize >= MINIMUM_PART ==> (b'.uploads != b0.uploads <==> LeftOpen(request, outcome)))
  {
    if p.stage == Completing {
      CompleteTracks(p, b0, b, partSize);
      if partSize >= MINIMUM_PART {
        CompleteAccepted(p, b0, b, partSize);
      }
    } else if p.stage.Aborting? {
      assert b.uploads - {b0.minted} == b0.uploads;
    }
  }

  /** `s` is the backend `s0` after some calls. */
  ghost predicate Follows(s0: Backend, s: Backend) {
    && |s0.log| <= |s.log|
    && s.script == if |s.log| - |s0.log| <= |s0.script| then s0.script[|s.log| - |s0.log|..] else []
  }

  lemma ServeFollows(s0: Backend, s: Backend, request: Request)
    requires Follows(s0, s)
    ensures var (s', answer) := Serve(s, request);
            && Follows(s0, s')
            && s'.log[|s0.log|..] == s.log[|s0.log|..] + [Call(request, answer)]
            && (s'.bucket, answer) == Carry(s.bucket, request, OutcomeAt(s0.script, |s.log| - |s0.log|))
  {
  }

  /**
   How a store that made `calls` leaves the uploads: as it found them, unless the last call failed and could leave
   one open. With parts as long as S3 asks for, other than it found them exactly if S3 carried out a create
   without giving its id, or refused the terminal request.
   */
  ghost predicate TidyEnd(b0: Bucket, b: Bucket, script: seq<Outcome>, calls: seq<Call>, partSize: nat) {
    var n := |calls|;
    && (b.uploads == b0.uploads || (n > 0 && LeavesOpen(calls[n - 1])))
    && (partSize >= MINIMUM_PART ==>
          (b.uploads != b0.uploads <==> n > 0 && LeftOpen(calls[n - 1].request, OutcomeAt(script, n - 1))))
  }

  ghost predicate Tidy(p: Process, s0: Backend, s: Backend, partSize: nat) {
    Follows(s0, s) && (p.stage.Finished? ==> TidyEnd(s0.bucket, s.bucket, s0.script, s.log[|s0.log|..], partSize))
  }

  lemma ServeTidy(p: Process, s0: Backend, s: Backend, partSize: nat)
    requires partSize > 0 && Sound(p, partSize) && Tracks(p, s0.bucket, s.bucket) && s0.bucket.FreshIds()
    requires Follows(s0, s) && !p.stage.Finished?
    ensures NextRequest(p).Some?
    ensures var (q, s') := Take(p, s, partSize);
            Sound(q, partSize) && Tracks(q, s0.bucket, s'.bucket) && Tidy(q, s0, s', partSize)
  {
    ServeTracks(p, s0.bucket, s, partSize);
    ServeFollows(s0, s, NextRequest(p).value);
    LastStepTidy(p, s0.bucket, s.bucket, OutcomeAt(s0.script, |s.log| - |s0.log|), partSize);
  }

  lemma {:induction false} DriveTidy(p: Process, s0: Backend, s: Backend, partSize: nat)
    requires partSize > 0 && Sound(p, partSize) && Tracks(p, s0.bucket, s.bucket) && s0.bucket.FreshIds()
    requires Tidy(p, s0, s, partSize)
    ensures var (q, s') := Drive(p, s, partSize); q.stage.Finished? && Tidy(q, s0, s', partSize)
    decreases |p.events| - p.taken, Rank(p.stage)
  {
    if !p.stage.Finished? {
      ServeTidy(p, s0, s, partSize);
      var (q, s') := Take(p, s, partSize);
      DriveTidy(q, s0, s', partSize);
    }
  }

  /**
   An upload stays open only if create gave no id, or the one terminal request failed; and with the code's part size
   exactly if S3 carried out the create without giving its id, or refused the terminal request.
   */
  lemma LeftOpenExact(key: Key, events: seq<Event>, s: Backend, partSize: nat)
    requires partSize > 0 && s.bucket.FreshIds()
    ensures var s' := Drive(Start(key, events, partSize), s, partSize).1;
            TidyEnd(s.bucket, s'.bucket, s.script, Calls(key, events, s, partSize), partSize)
  {
    StartSound(key, events, partSize);
    StartTracks(key, events, partSize, s.bucket);
    DriveTidy(Start(key, events, partSize), s, s, partSize);
  }

  /** S3 serves every call but the last, which it refuses. */
  predicate RefusesLast(script: seq<Outcome>) {
    && |script| > 0 && script[|script| - 1] == Refused
    && forall i :: 0 <= i < |script| - 1 ==> script[i].Served?
  }

  /** The store has failed at its complete, upload `id` is open, and nothing aborted it. */
  ghost predicate StrandedAt(p: Process, s: Backend, id: UploadId) {
    && p.stage == Finished(Err(OperationFailed)) && s.bucket.Open(p.key, id)
    && |s.log| > 0 && s.log[|s.log| - 1].request.Complete? && s.log[|s.log| - 1].response == Failed
    && forall i :: 0 <= i < |s.log| ==> !s.log[i].request.Abort?
  }

  lemma RefusedEnd(p: Process, b: Bucket, log: seq<Call>)
    requires p.Bounded() && p.stage == Completing && p.id.Some? && b.Open(p.key, p.id.value)
    requires forall i :: 0 <= i < |log| ==> !log[i].request.Abort?
    ensures var (q, s) := Drive(p, Backend(b, [Refused], log), MULTIPART_PART_SIZE); StrandedAt(q, s, p.id.value)
  {
    var call := Call(Complete(p.key, p.id.value, p.completed), Failed);
    var end := (p.(stage := Finished(Err(OperationFailed))), Backend(b, [], log + [call]));
    assert Drive(p, Backend(b, [Refused], log), MULTIPART_PART_SIZE) == end;
  }

  /** One more part of a body without read errors is served. */
  lemma PartServed(p: Process, b: Bucket, rest: seq<Outcome>, log: seq<Call>)
    requires p.Bounded() && Clean(p.events) && p.stage == Sending && p.parts != [] && p.id.Some? && b.Open(p.key, p.id.value)
    ensures NextRequest(p).Some? && Accepts(b, NextRequest(p).value)
    ensures var request := NextRequest(p).value;
            var q, b' := Resume(p, Stored(Some(0)), MULTIPART_PART_SIZE), Effect(b, request, 0);
            && Take(p, Backend(b, [Served(0)] + rest, log), MULTIPART_PART_SIZE) ==
                 (q, Backend(b', rest, log + [Call(request, Stored(Some(0)))]))
            && request.UploadPart? && b'.Open(p.key, p.id.value) && q.id == p.id
            && (q.stage == Completing || (q.stage == Sending && q.parts != []))
  {
    assert ([Served(0)] + rest)[1..] == rest;
    assert Payload(p.events[..p.taken]) + [] == Payload(p.events[..p.taken]);
    FillConserves(p.events, p.taken, MULTIPART_PART_SIZE, [], Payload(p.events[..p.taken]));
  }

  /** Every part is served, and then the complete is refused. */
  lemma {:induction false} SendToRefusal(p: Process, b: Bucket, log: seq<Call>) returns (script: seq<Outcome>)
    requires p.Bounded() && Clean(p.events) && p.id.Some? && b.Open(p.key, p.id.value)
    requires p.stage == Completing || (p.stage == Sending && p.parts != [])
    requires forall i :: 0 <= i < |log| ==> !log[i].request.Abort?
    ensures RefusesLast(script)
    ensures var (q, s) := Drive(p, Backend(b, script, log), MULTIPART_PART_SIZE); StrandedAt(q, s, p.id.value)
    decreases |p.events| - p.taken, Rank(p.stage)
  {
    if p.stage == Completing {
      script := [Refused];
      RefusedEnd(p, b, log);
    } else {
      PartServed(p, b, [], log);
      ResumeProgress(p, Stored(Some(0)), MULTIPART_PART_SIZE);
      var request := NextRequest(p).value;
      var rest := SendToRefusal(Resume(p, Stored(Some(0)), MULTIPART_PART_SIZE), Effect(b, request, 0),
                                log + [Call(request, Stored(Some(0)))]);
      PartServed(p, b, rest, log);
      script := [Served(0)] + rest;
    }
  }

  /**
   So any multipart store can leave its upload open: S3 serves every call up to the complete, refuses that one, and
   nothing aborts the upload.
   */
  lemma RefusedCompleteLeavesOpen(key: Key, events: seq<Event>, b: Bucket) returns (script: seq<Outcome>)
    requires Clean(events) && |Payload(events)| >= MULTIPART_PART_SIZE && b.FreshIds()
    ensures RefusesLast(script) && b.minted !in b.uploads
    ensures var (p, s) := Drive(Start(key, events, MULTIPART_PART_SIZE), Backend(b, script, []), MULTIPART_PART_SIZE);
            StrandedAt(p, s, b.minted)
  {
    var start := Start(key, events, MULTIPART_PART_SIZE);
    MultipartIff(key, events, MULTIPART_PART_SIZE);
    StartSound(key, events, MULTIPART_PART_SIZE);
    var p, call := Resume(start, Created(Some(b.minted)), MULTIPART_PART_SIZE), Call(Create(key), Created(Some(b.minted)));
    var rest := SendToRefusal(p, Effect(b, Create(key), 0), [call]);
    script := [Served(0)] + rest;
    assert script[1..] == rest && [] + [call] == [call];
    assert Take(start, Backend(b, script, []), MULTIPART_PART_SIZE) == (p, Backend(Effect(b, Create(key), 0), rest, [call]));
  }

  // ---------- when nothing fails ----------

  /** Calls still to be made from here, at most. */
  function Need(p: Process): nat
    requires p.Bounded()
  {
    match p.stage
    case Putting => 1
    case Creating => 3 + |p.events| - p.taken
    case Sending => 2 + |p.events| - p.taken
    case Completing => 1
    case Aborting(_) => 1
    case Finished(_) => 0
  }

  predicate AllServed(script: seq<Outcome>) {
    forall i :: 0 <= i < |script| ==> script[i].Served?
  }

  /** Nothing but the client can stop the process. */
  predicate OnCourse(p: Process, script: seq<Outcome>)
    requires p.Bounded()
  {
    && AllServed(script) && Need(p) <= |script|
    && match p.stage
       case Aborting(error) => error == ClientAbort
       case Finished(result) => result in {Ok, Err(ClientAbort)}
       case _ => true
  }

  lemma AdvanceOnCourse(p: Process, tag: Tag, partSize: nat)
    requires partSize > 0 && p.Bounded() && p.stage == Sending
    ensures var q := Advance(p, tag, partSize);
            q.stage in {Completing, Sending, Aborting(ClientAbort)} && Need(q) < Need(p)
  {
  }

  lemma ServeOnCourse(p: Process, b0: Bucket, s: Backend, partSize: nat)
    requires partSize >= MINIMUM_PART && Sound(p, partSize) && Tracks(p, b0, s.bucket) && b0.FreshIds()
    requires OnCourse(p, s.script) && !p.stage.Finished?
    ensures NextRequest(p).Some?
    ensures var (q, s') := Take(p, s, partSize); OnCourse(q, s'.script)
  {
    match p.stage
    case Putting =>
    case Creating =>
    case Sending =>
      assert Accepts(s.bucket, NextRequest(p).value);
      AdvanceOnCourse(p, s.script[0].tag, partSize);
    case Completing => CompleteAccepted(p, b0, s.bucket, partSize);
    case Aborting(_) =>
  }

  lemma {:induction false} DriveOnCourse(p: Process, b0: Bucket, s: Backend, partSize: nat)
    requires partSize >= MINIMUM_PART && Sound(p, partSize) && Tracks(p, b0, s.bucket) && b0.FreshIds()
    requires OnCourse(p, s.script)
    ensures Drive(p, s, partSize).0.stage in {Finished(Ok), Finished(Err(ClientAbort))}
    decreases |p.events| - p.taken, Rank(p.stage)
  {
    if !p.stage.Finished? {
      ServeTracks(p, b0, s, partSize);
      ServeOnCourse(p, b0, s, partSize);
      var (q, s') := Take(p, s, partSize);
      DriveOnCourse(q, b0, s', partSize);
    }
  }

  /**
   If S3 serves every call, with the code's part size, `store` succeeds exactly on the bodies that arrive
   whole, however they are chunked, and ends by client abort on the others; in particular every
   CompleteMultipartUpload it sends is acceptable.
   */
  lemma StoreSucceeds(key: Key, events: seq<Event>, s: Backend)
    requires s.bucket.FreshIds() && AllServed(s.script) && |events| + 3 <= |s.script|
    ensures Drive(Start(key, events, MULTIPART_PART_SIZE), s, MULTIPART_PART_SIZE).0.stage ==
            Finished(if Clean(events) then Ok else Err(ClientAbort))
  {
    StoreRefinesPut(key, events, s, MULTIPART_PART_SIZE);
    StartSound(key, events, MULTIPART_PART_SIZE);
    StartTracks(key, events, MULTIPART_PART_SIZE, s.bucket);
    DriveOnCourse(Start(key, events, MULTIPART_PART_SIZE), s.bucket, s, MULTIPART_PART_SIZE);
  }
}
