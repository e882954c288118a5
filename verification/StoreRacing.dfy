/**
 Any number of stores at once, over a network that gives no guarantees.

 A request once sent may be carried out by S3 at any later time, any number of times or never (time-outs, the
 SDK's own retries), even after its sender has been told it failed and has moved on. The sender can be told
 "failed" at any time; a positive answer exists only if S3 gave it.
 */
module StoreRacing {
  import opened Common
  import opened ObjectStore
  import opened StoreProcess
  import opened StoreInvariants

  type Pid = nat

  datatype Sent = Sent(pid: Pid, request: Request)

  /** `owners` records whose create request made an upload. */
  datatype World = World(
    bucket: Bucket,
    procs: map<Pid, Process>,
    issued: set<Sent>,
    replies: set<(Sent, Response)>,
    owners: map<UploadId, Pid>)

  datatype Step =
    | Begin(pid: Pid, key: Key, events: seq<Event>)
    | Execute(sent: Sent, tag: Tag)
    | Answer(pid: Pid, response: Response)
    | Expire(key: Key)
    | Pause

  predicate Answerable(w: World, sent: Sent, response: Response) {
    response in {Failed, Created(None), Stored(None)} || (sent, response) in w.replies
  }

  predicate Enabled(w: World, step: Step) {
    match step
    case Begin(pid, _, _) => pid !in w.procs
    case Execute(sent, _) => sent in w.issued && Accepts(w.bucket, sent.request)
    case Answer(pid, response) =>
      && pid in w.procs && w.procs[pid].Bounded() && NextRequest(w.procs[pid]).Some?
      && Answerable(w, Sent(pid, NextRequest(w.procs[pid]).value), response)
    case Expire(_) => true
    case Pause => true
  }

  /** A process moves, and sends the request it is now waiting on. */
  function Move(w: World, pid: Pid, p: Process): World {
    w.(procs := w.procs[pid := p],
       issued := match NextRequest(p) case None => w.issued case Some(r) => w.issued + {Sent(pid, r)})
  }

  function Apply(w: World, step: Step, partSize: nat): World
    requires Enabled(w, step)
  {
    match step
    case Begin(pid, key, events) => Move(w, pid, Start(key, events, partSize))
    case Execute(sent, tag) =>
      w.(bucket := Effect(w.bucket, sent.request, tag),
         replies := w.replies + {(sent, Reply(w.bucket, sent.request, tag))},
         owners := if sent.request.Create? then w.owners[w.bucket.minted := sent.pid] else w.owners)
    case Answer(pid, response) => Move(w, pid, Resume(w.procs[pid], response, partSize))
    case Expire(key) => w.(bucket := w.bucket.(objects := w.bucket.objects - {key}))
    case Pause => w
  }

  ghost predicate Next(w: World, step: Step, w': World, partSize: nat) {
    Enabled(w, step) && w' == Apply(w, step, partSize)
  }

  // ---------- invariant ----------

  /** Every part was stored and the body was read to its end. */
  predicate Settled(p: Process) {
    p.eof && |p.parts| == |p.completed|
  }

  /** What a process that sent `request` has become. */
  ghost predicate Justified(p: Process, request: Request) {
    match request
    case Put(key, data) =>
      && key == p.key && Clean(p.events) && data == Payload(p.events) && Settled(p)
      && (p.stage == Putting || p.stage.Finished?)
    case Create(key) => key == p.key
    case UploadPart(key, id, number, data) =>
      key == p.key && p.id == Some(id) && 1 <= number <= |p.parts| && p.parts[number - 1] == data
    case Complete(key, id, list) =>
      && key == p.key && p.id == Some(id) && Clean(p.events) && Join(p.parts) == Payload(p.events) && Settled(p)
      && |list| == |p.parts| && Numbered(list) && (p.stage == Completing || p.stage.Finished?)
    case Abort(key, id) => key == p.key && p.id == Some(id)
    case _ => false
  }

  ghost predicate ProcessesSound(w: World, partSize: nat) {
    forall pid :: pid in w.procs ==> Sound(w.procs[pid], partSize)
  }

  ghost predicate IssuedJustified(w: World) {
    forall sent :: sent in w.issued ==> sent.pid in w.procs && Justified(w.procs[sent.pid], sent.request)
  }

  /** An upload id belongs to one process, and only that process has it. */
  ghost predicate IdsOwned(w: World) {
    && w.bucket.FreshIds()
    && (forall id :: id in w.owners ==> id < w.bucket.minted)
    && (forall reply :: reply in w.replies && reply.1.Created? && reply.1.id.Some? ==>
          reply.1.id.value in w.owners && w.owners[reply.1.id.value] == reply.0.pid)
    && (forall pid :: pid in w.procs && w.procs[pid].id.Some? ==>
          w.procs[pid].id.value in w.owners && w.owners[w.procs[pid].id.value] == pid)
  }

  ghost predicate PartOf(w: World, id: UploadId, number: nat)
    requires id in w.bucket.uploads && number in w.bucket.uploads[id].parts && id in w.owners
  {
    && w.owners[id] in w.procs
    && var p := w.procs[w.owners[id]];
    p.id == Some(id) && 1 <= number <= |p.parts| && w.bucket.uploads[id].parts[number].data == p.parts[number - 1]
  }

  /** What an upload holds was sent by its owner, under its own number. */
  ghost predicate UploadsOwn(w: World) {
    forall id :: id in w.bucket.uploads && id in w.owners ==>
      forall number :: number in w.bucket.uploads[id].parts ==> PartOf(w, id, number)
  }

  /** `data` is the whole body of the store `pid`, which had all of it stored. */
  ghost predicate BodyOf(w: World, pid: Pid, key: Key, data: Bytes) {
    && pid in w.procs
    && var p := w.procs[pid];
    p.key == key && Clean(p.events) && Settled(p) && data == Payload(p.events)
  }

  ghost predicate Wholesome(w0: World, w: World) {
    forall key :: key in w.bucket.objects ==>
      || (key in w0.bucket.objects && w.bucket.objects[key] == w0.bucket.objects[key])
      || exists pid :: BodyOf(w, pid, key, w.bucket.objects[key])
  }

  ghost predicate Invariant(w0: World, w: World, partSize: nat) {
    ProcessesSound(w, partSize) && IssuedJustified(w) && IdsOwned(w) && UploadsOwn(w) && Wholesome(w0, w)
  }

  // ---------- processes ----------

  lemma NextRequestJustified(p: Process, partSize: nat)
    requires Sound(p, partSize) && NextRequest(p).Some?
    ensures Justified(p, NextRequest(p).value)
  {
    assert p.events[..|p.events|] == p.events;
    assert Join(p.parts) + [] == Join(p.parts);
    assert [] + p.buffer == p.buffer;
  }

  /** Nothing `p` has sent, and no body it stands for, is taken back when it becomes `q`. */
  ghost predicate Keeps(p: Process, q: Process) {
    && q.key == p.key && q.events == p.events
    && (p.id.Some? ==> q.id == p.id)
    && |p.parts| <= |q.parts| && q.parts[..|p.parts|] == p.parts
    && (Settled(p) ==> Settled(q))
    && (forall request :: Justified(p, request) ==> Justified(q, request))
  }

  lemma ResumeJustified(p: Process, answer: Response, partSize: nat, request: Request)
    requires p.Bounded() && Sound(p, partSize) && Justified(p, request) && NextRequest(p).Some?
    ensures Justified(Resume(p, answer, partSize), request)
  {
  }

  lemma ResumeKeeps(p: Process, answer: Response, partSize: nat)
    requires Sound(p, partSize) && NextRequest(p).Some?
    ensures Keeps(p, Resume(p, answer, partSize))
  {
    var q := Resume(p, answer, partSize);
    assert forall i :: 0 <= i < |p.parts| ==> q.parts[i] == p.parts[i];
    forall request | Justified(p, request)
      ensures Justified(q, request)
    {
      ResumeJustified(p, answer, partSize, request);
    }
  }

  // ---------- a process moves ----------

  lemma MoveIssued(w: World, pid: Pid, q: Process, partSize: nat)
    requires IssuedJustified(w) && Sound(q, partSize) && (pid in w.procs ==> Keeps(w.procs[pid], q))
    ensures IssuedJustified(Move(w, pid, q))
  {
    if NextRequest(q).Some? {
      NextRequestJustified(q, partSize);
    }
  }

  lemma MoveObjects(w0: World, w: World, pid: Pid, q: Process)
    requires Wholesome(w0, w) && (pid in w.procs ==> Keeps(w.procs[pid], q))
    ensures Wholesome(w0, Move(w, pid, q))
  {
    var w' := Move(w, pid, q);
    forall key | key in w'.bucket.objects
      ensures (key in w0.bucket.objects && w'.bucket.objects[key] == w0.bucket.objects[key])
        || exists pid :: BodyOf(w', pid, key, w'.bucket.objects[key])
    {
      if key !in w0.bucket.objects || w.bucket.objects[key] != w0.bucket.objects[key] {
        var origin :| BodyOf(w, origin, key, w.bucket.objects[key]);
        assert BodyOf(w', origin, key, w'.bucket.objects[key]);
      }
    }
  }

  lemma MoveInvariant(w0: World, w: World, pid: Pid, q: Process, partSize: nat)
    requires Invariant(w0, w, partSize) && Sound(q, partSize)
    requires pid in w.procs ==> Keeps(w.procs[pid], q)
    requires q.id.Some? ==> q.id.value in w.owners && w.owners[q.id.value] == pid
    ensures Invariant(w0, Move(w, pid, q), partSize)
  {
    MoveIssued(w, pid, q, partSize);
    MoveUploads(w, pid, q);
    MoveObjects(w0, w, pid, q);
  }

  lemma MoveUploads(w: World, pid: Pid, q: Process)
    requires UploadsOwn(w)
    requires pid in w.procs ==> Keeps(w.procs[pid], q)
    ensures UploadsOwn(Move(w, pid, q))
  {
    var w' := Move(w, pid, q);
    forall id, number | id in w'.bucket.uploads && id in w'.owners && number in w'.bucket.uploads[id].parts
      ensures PartOf(w', id, number)
    {
      assert PartOf(w, id, number);
      if w.owners[id] == pid {
        var p := w.procs[pid];
        assert q.parts[..|p.parts|][number - 1] == p.parts[number - 1];
      }
    }
  }

  // ---------- S3 carries out a request ----------

  lemma ExecuteUploads(w: World, sent: Sent, tag: Tag, partSize: nat)
    requires IssuedJustified(w) && IdsOwned(w) && UploadsOwn(w) && Enabled(w, Execute(sent, tag))
    ensures UploadsOwn(Apply(w, Execute(sent, tag), partSize))
  {
    var w' := Apply(w, Execute(sent, tag), partSize);
    forall id, number | id in w'.bucket.uploads && id in w'.owners && number in w'.bucket.uploads[id].parts
      ensures PartOf(w', id, number)
    {
      if sent.request.UploadPart? && sent.request.id == id && sent.request.number == number {
        var p := w.procs[sent.pid];
        assert Justified(p, sent.request);
      } else {
        assert PartOf(w, id, number);
      }
    }
  }

  lemma {:induction false} AssembleOwn(upload: Upload, list: seq<CompletedPart>, parts: seq<Bytes>)
    requires |list| == |parts| && Numbered(list)
    requires forall i :: 0 <= i < |list| ==> list[i].number in upload.parts
    requires forall i :: 0 <= i < |list| ==> upload.parts[list[i].number].data == parts[i]
    ensures Assemble(upload, list) == Join(parts)
  {
    if list != [] {
      AssembleOwn(upload, list[..|list| - 1], parts[..|parts| - 1]);
    }
  }

  /** What a completed upload is assembled to is the whole body of the store that sent the request. */
  lemma CompleteWhole(w: World, sent: Sent)
    requires IssuedJustified(w) && IdsOwned(w) && UploadsOwn(w)
    requires sent in w.issued && Accepts(w.bucket, sent.request) && sent.request.Complete?
    ensures BodyOf(w, sent.pid, sent.request.key, Assemble(w.bucket.uploads[sent.request.id], sent.request.parts))
  {
    var p, id, list := w.procs[sent.pid], sent.request.id, sent.request.parts;
    assert Justified(p, sent.request);
    var upload := w.bucket.uploads[id];
    forall i | 0 <= i < |list|
      ensures upload.parts[list[i].number].data == p.parts[i]
    {
      assert PartOf(w, id, list[i].number);
    }
    AssembleOwn(upload, list, p.parts);
  }

  lemma ExecuteObjects(w0: World, w: World, sent: Sent, tag: Tag, partSize: nat)
    requires Invariant(w0, w, partSize) && Enabled(w, Execute(sent, tag))
    ensures Wholesome(w0, Apply(w, Execute(sent, tag), partSize))
  {
    var w' := Apply(w, Execute(sent, tag), partSize);
    if sent.request.Complete? {
      CompleteWhole(w, sent);
    }
    assert sent.request.Put? ==> BodyOf(w, sent.pid, sent.request.key, sent.request.data);
    forall key | key in w'.bucket.objects
      ensures (key in w0.bucket.objects && w'.bucket.objects[key] == w0.bucket.objects[key])
        || exists pid :: BodyOf(w', pid, key, w'.bucket.objects[key])
    {
      if (sent.request.Put? || sent.request.Complete?) && sent.request.key == key {
        assert BodyOf(w', sent.pid, key, w'.bucket.objects[key]);
      } else if key !in w0.bucket.objects || w.bucket.objects[key] != w0.bucket.objects[key] {
        var origin :| BodyOf(w, origin, key, w.bucket.objects[key]);
        assert BodyOf(w', origin, key, w'.bucket.objects[key]);
      }
    }
  }

  lemma ExecuteIds(w: World, sent: Sent, tag: Tag, partSize: nat)
    requires IdsOwned(w) && Enabled(w, Execute(sent, tag))
    ensures IdsOwned(Apply(w, Execute(sent, tag), partSize))
  {
  }

  // ---------- runs ----------

  ghost predicate Initial(w: World) {
    w.procs == map[] && w.issued == {} && w.replies == {} && w.owners == map[] && w.bucket.FreshIds()
  }

  lemma StepInvariant(w0: World, w: World, step: Step, w': World, partSize: nat)
    requires partSize > 0 && Invariant(w0, w, partSize) && Next(w, step, w', partSize)
    ensures Invariant(w0, w', partSize)
  {
    match step
    case Begin(pid, key, events) =>
      StartSound(key, events, partSize);
      MoveInvariant(w0, w, pid, Start(key, events, partSize), partSize);
    case Execute(sent, tag) =>
      ExecuteIds(w, sent, tag, partSize);
      ExecuteUploads(w, sent, tag, partSize);
      ExecuteObjects(w0, w, sent, tag, partSize);
    case Answer(pid, response) =>
      var p := w.procs[pid];
      ResumeSound(p, response, partSize);
      ResumeKeeps(p, response, partSize);
      MoveInvariant(w0, w, pid, Resume(p, response, partSize), partSize);
    case Expire(_) =>
      forall key | key in w'.bucket.objects
        ensures (key in w0.bucket.objects && w'.bucket.objects[key] == w0.bucket.objects[key])
          || exists pid :: BodyOf(w', pid, key, w'.bucket.objects[key])
      {
        if key !in w0.bucket.objects || w.bucket.objects[key] != w0.bucket.objects[key] {
          var origin :| BodyOf(w, origin, key, w.bucket.objects[key]);
          assert BodyOf(w', origin, key, w'.bucket.objects[key]);
        }
      }
    case Pause =>
  }

  datatype Run = Run(states: seq<World>, steps: seq<Step>) {
    ghost predicate Valid(partSize: nat) {
      && |states| == |steps| + 1
      && Initial(states[0])
      && forall i :: 0 <= i < |steps| ==> Next(states[i], steps[i], states[i + 1], partSize)
    }
  }

  lemma IssuedStays(r: Run, partSize: nat, i: nat)
    requires r.Valid(partSize) && i < |r.steps|
    ensures r.states[i].issued <= r.states[i + 1].issued
  {
    assert Next(r.states[i], r.steps[i], r.states[i + 1], partSize);
  }

  /**
   The network never lets go: what was sent can be carried out at any later instant, in which S3 would accept it, however
   often it was before, and whatever its sender was told and did in the meantime.
   */
  lemma {:induction false} SentLingers(r: Run, partSize: nat, n: nat, m: nat, sent: Sent, tag: Tag)
    requires r.Valid(partSize) && n <= m <= |r.steps| && sent in r.states[n].issued
    ensures sent in r.states[m].issued
    ensures Accepts(r.states[m].bucket, sent.request) ==>
              exists w :: Run(r.states[..m + 1] + [w], r.steps[..m] + [Execute(sent, tag)]).Valid(partSize)
                && w.bucket == Effect(r.states[m].bucket, sent.request, tag) && w.procs == r.states[m].procs
    decreases m
  {
    if n < m {
      SentLingers(r, partSize, n, m - 1, sent, tag);
      IssuedStays(r, partSize, m - 1);
    }
    if Accepts(r.states[m].bucket, sent.request) {
      var w := Apply(r.states[m], Execute(sent, tag), partSize);
      var longer := Run(r.states[..m + 1] + [w], r.steps[..m] + [Execute(sent, tag)]);
      forall i | 0 <= i < |longer.steps|
        ensures Next(longer.states[i], longer.steps[i], longer.states[i + 1], partSize)
      {
        assert i < m ==> Next(r.states[i], r.steps[i], r.states[i + 1], partSize);
      }
    }
  }

  lemma InitialInvariant(w: World, partSize: nat)
    requires Initial(w)
    ensures Invariant(w, w, partSize)
  {
  }

  lemma {:induction false} RunInvariantFrom(r: Run, partSize: nat, i: nat, n: nat)
    requires partSize > 0 && r.Valid(partSize) && i <= n <= |r.steps| && Invariant(r.states[0], r.states[i], partSize)
    ensures Invariant(r.states[0], r.states[n], partSize)
    decreases n - i
  {
    if i < n {
      StepInvariant(r.states[0], r.states[i], r.steps[i], r.states[i + 1], partSize);
      RunInvariantFrom(r, partSize, i + 1, n);
    }
  }

  lemma RunInvariant(r: Run, partSize: nat, n: nat)
    requires partSize > 0 && r.Valid(partSize) && n <= |r.steps|
    ensures Invariant(r.states[0], r.states[n], partSize)
  {
    InitialInvariant(r.states[0], partSize);
    RunInvariantFrom(r, partSize, 0, n);
  }

  /** The object is the one that was there at the start. */
  predicate Untouched(w0: World, w: World, key: Key)
    requires key in w.bucket.objects
  {
    key in w0.bucket.objects && w.bucket.objects[key] == w0.bucket.objects[key]
  }

  /** A store that has read a whole body and had it stored was not broken off and did not lose a part. */
  lemma SettledStage(p: Process, partSize: nat)
    requires Sound(p, partSize) && Settled(p) && Clean(p.events)
    ensures p.stage in {Putting, Completing, Finished(Ok), Finished(Err(OperationFailed))}
  {
  }

  lemma ObjectOrigin(w0: World, w: World, partSize: nat, key: Key)
    requires Invariant(w0, w, partSize) && key in w.bucket.objects && !Untouched(w0, w, key)
    ensures exists pid :: BodyOf(w, pid, key, w.bucket.objects[key]) &&
              w.procs[pid].stage in {Putting, Completing, Finished(Ok), Finished(Err(OperationFailed))}
  {
    var pid :| BodyOf(w, pid, key, w.bucket.objects[key]);
    SettledStage(w.procs[pid], partSize);
  }

  /**
   Racing stores never mix. In every reachable state, an object in S3 is the one that was there at the start or
   the entire body of one store, read to its end and all of it stored; so a store that ended by a client abort
   or a failed part is never where an object came from.
   */
  lemma NeverMixed(r: Run, partSize: nat, n: nat, key: Key)
    requires partSize > 0 && r.Valid(partSize) && n <= |r.steps| && key in r.states[n].bucket.objects
    ensures var w := r.states[n];
            || Untouched(r.states[0], w, key)
            || exists pid :: BodyOf(w, pid, key, w.bucket.objects[key]) &&
                 w.procs[pid].stage in {Putting, Completing, Finished(Ok), Finished(Err(OperationFailed))}
  {
    RunInvariant(r, partSize, n);
    if !Untouched(r.states[0], r.states[n], key) {
      ObjectOrigin(r.states[0], r.states[n], partSize, key);
    }
  }

  // ---------- success means committed ----------

  predicate Commits(sent: Sent) {
    sent.request.Put? || sent.request.Complete?
  }

  /** The object of `key` was `data` in some state up to `n`. */
  ghost predicate WasObject(r: Run, n: nat, key: Key, data: Bytes) {
    exists i :: 0 <= i <= n && i < |r.states| && key in r.states[i].bucket.objects && r.states[i].bucket.objects[key] == data
  }

  /** Every positive answer to a put or a complete goes back to an instant at which the whole body was the object. */
  ghost predicate RepliesTrue(r: Run, n: nat)
    requires n < |r.states|
  {
    forall reply :: reply in r.states[n].replies && Commits(reply.0) && reply.0.pid in r.states[n].procs ==>
      WasObject(r, n, r.states[n].procs[reply.0.pid].key, Payload(r.states[n].procs[reply.0.pid].events))
  }

  /** A store that returned Ok was told so by S3. */
  ghost predicate OkAnswered(w: World) {
    forall pid :: pid in w.procs && w.procs[pid].stage == Finished(Ok) ==>
      exists reply :: reply in w.replies && Commits(reply.0) && reply.0.pid == pid
  }

  lemma ResumeOk(p: Process, answer: Response, partSize: nat)
    requires p.Bounded() && NextRequest(p).Some? && Resume(p, answer, partSize).stage == Finished(Ok)
    ensures answer == Done && (NextRequest(p).value.Put? || NextRequest(p).value.Complete?)
  {
  }

  lemma OkAnsweredStep(w0: World, w: World, step: Step, w': World, partSize: nat)
    requires Invariant(w0, w, partSize) && Next(w, step, w', partSize) && OkAnswered(w) && partSize > 0
    ensures OkAnswered(w')
  {
    forall pid | pid in w'.procs && w'.procs[pid].stage == Finished(Ok)
      ensures exists reply :: reply in w'.replies && Commits(reply.0) && reply.0.pid == pid
    {
      if pid in w.procs && w.procs[pid].stage == Finished(Ok) {
        var reply :| reply in w.replies && Commits(reply.0) && reply.0.pid == pid;
        assert reply in w'.replies;
      } else if step.Answer? {
        ResumeOk(w.procs[pid], step.response, partSize);
        var sent := Sent(pid, NextRequest(w.procs[pid]).value);
        assert (sent, step.response) in w'.replies;
      }
    }
  }

  lemma ExecuteCommits(r: Run, partSize: nat, n: nat)
    requires partSize > 0 && r.Valid(partSize) && n < |r.steps| && r.steps[n].Execute? && Commits(r.steps[n].sent)
    ensures var p := r.states[n].procs; var pid := r.steps[n].sent.pid;
            pid in p && WasObject(r, n + 1, p[pid].key, Payload(p[pid].events))
  {
    RunInvariant(r, partSize, n);
    var w, sent := r.states[n], r.steps[n].sent;
    assert Next(w, r.steps[n], r.states[n + 1], partSize);
    assert Justified(w.procs[sent.pid], sent.request);
    if sent.request.Complete? {
      CompleteWhole(w, sent);
    }
    assert sent.request.key in r.states[n + 1].bucket.objects;
  }

  lemma WasObjectLater(r: Run, n: nat, key: Key, data: Bytes)
    requires WasObject(r, n, key, data)
    ensures WasObject(r, n + 1, key, data)
  {
    var i :| 0 <= i <= n && i < |r.states| && key in r.states[i].bucket.objects && r.states[i].bucket.objects[key] == data;
    assert i <= n + 1;
  }

  lemma RepliesKnown(w: World, step: Step, w': World, partSize: nat)
    requires Next(w, step, w', partSize)
    requires IssuedJustified(w) && forall reply :: reply in w.replies ==> reply.0 in w.issued
    ensures forall reply :: reply in w'.replies ==> reply.0 in w'.issued
    ensures forall reply :: reply in w'.replies && reply !in w.replies ==> step.Execute? && reply.0 == step.sent
    ensures forall pid :: pid in w.procs ==>
              pid in w'.procs && w'.procs[pid].key == w.procs[pid].key && w'.procs[pid].events == w.procs[pid].events
  {
  }

  ghost predicate RepliesSound(r: Run, n: nat)
    requires n < |r.states|
  {
    && RepliesTrue(r, n) && OkAnswered(r.states[n])
    && forall reply :: reply in r.states[n].replies ==> reply.0 in r.states[n].issued
  }

  lemma RepliesSoundNext(r: Run, partSize: nat, i: nat)
    requires partSize > 0 && r.Valid(partSize) && i < |r.steps| && RepliesSound(r, i)
    ensures RepliesSound(r, i + 1)
  {
    var w, step, w' := r.states[i], r.steps[i], r.states[i + 1];
    RunInvariant(r, partSize, i);
    OkAnsweredStep(r.states[0], w, step, w', partSize);
    RepliesKnown(w, step, w', partSize);
    forall reply | reply in w'.replies && Commits(reply.0) && reply.0.pid in w'.procs
      ensures WasObject(r, i + 1, w'.procs[reply.0.pid].key, Payload(w'.procs[reply.0.pid].events))
    {
      if reply in w.replies {
        WasObjectLater(r, i, w.procs[reply.0.pid].key, Payload(w.procs[reply.0.pid].events));
      } else {
        ExecuteCommits(r, partSize, i);
      }
    }
  }

  lemma {:induction false} RunRepliesSound(r: Run, partSize: nat, i: nat, n: nat)
    requires partSize > 0 && r.Valid(partSize) && i <= n <= |r.steps| && RepliesSound(r, i)
    ensures RepliesSound(r, n)
    decreases n - i
  {
    if i < n {
      RepliesSoundNext(r, partSize, i);
      RunRepliesSound(r, partSize, i + 1, n);
    }
  }

  lemma FinishedOkWhole(p: Process, partSize: nat)
    requires Sound(p, partSize) && p.stage == Finished(Ok)
    ensures Clean(p.events)
  {
    assert p.events[..p.taken] == p.events;
  }

  /**
   Ok means committed: if a store has returned Ok, its body arrived whole and at some earlier instant that body,
   entire, was the object under its key, whatever raced with it and whatever came after.
   */
  lemma OkMeansCommitted(r: Run, partSize: nat, n: nat, pid: Pid)
    requires partSize > 0 && r.Valid(partSize) && n <= |r.steps|
    requires pid in r.states[n].procs && r.states[n].procs[pid].stage == Finished(Ok)
    ensures var p := r.states[n].procs[pid]; Clean(p.events) && WasObject(r, n, p.key, Payload(p.events))
  {
    RunRepliesSound(r, partSize, 0, n);
    RunInvariant(r, partSize, n);
    FinishedOkWhole(r.states[n].procs[pid], partSize);
  }
}
