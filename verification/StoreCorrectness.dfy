/** `store` against one backend: it refines "read the whole body, then put it", for every behaviour of S3. */
module StoreCorrectness {
  import opened Common
  import opened ObjectStore
  import opened StoreProcess
  import opened StoreInvariants

  // ---------- the bucket while the process runs ----------

  ghost predicate HoldsPart(upload: Upload, p: Process, i: nat)
    requires i < |p.completed| <= |p.parts|
  {
    i + 1 in upload.parts && upload.parts[i + 1] == StoredPart(p.parts[i], p.completed[i].tag)
  }

  /** The open upload holds, under number i + 1 and the recorded tag, the bytes of every answered part. */
  ghost predicate Holds(upload: Upload, p: Process) {
    && upload.key == p.key
    && |p.completed| <= |p.parts|
    && forall i :: 0 <= i < |p.completed| ==> HoldsPart(upload, p, i)
  }

  ghost predicate Committed(b0: Bucket, b: Bucket, p: Process) {
    Clean(p.events) && b.objects == b0.objects[p.key := Payload(p.events)]
  }

  /** Where the bucket can be, having been `b0` when the process started alone. */
  ghost predicate Tracks(p: Process, b0: Bucket, b: Bucket) {
    match p.stage
    case Putting => b == b0
    case Creating => b == b0
    case Finished(Ok) => Committed(b0, b, p) && b.uploads == b0.uploads
    case Finished(Err(error)) =>
      && (b.objects == b0.objects || (error == OperationFailed && |p.parts| == |p.completed| && Committed(b0, b, p)))
      && forall id :: id in b0.uploads ==> id in b.uploads && b.uploads[id] == b0.uploads[id]
    case _ =>
      && p.id == Some(b0.minted) && b.objects == b0.objects
      && b0.minted in b.uploads && Holds(b.uploads[b0.minted], p)
      && b.uploads == b0.uploads[b0.minted := b.uploads[b0.minted]]
  }

  lemma StartTracks(key: Key, events: seq<Event>, partSize: nat, b: Bucket)
    requires partSize > 0
    ensures Tracks(Start(key, events, partSize), b, b)
  {
  }

  lemma {:induction false} AssembleJoin(upload: Upload, p: Process, n: nat)
    requires Holds(upload, p) && Numbered(p.completed) && n <= |p.completed|
    ensures forall i :: 0 <= i < n ==> p.completed[..n][i].number in upload.parts
    ensures Assemble(upload, p.completed[..n]) == Join(p.parts[..n])
  {
    if n > 0 {
      AssembleJoin(upload, p, n - 1);
      assert HoldsPart(upload, p, n - 1);
      assert p.completed[..n][..n - 1] == p.completed[..n - 1];
      assert p.parts[..n][..n - 1] == p.parts[..n - 1];
    }
  }

  lemma CompleteTracks(p: Process, b0: Bucket, b: Bucket, partSize: nat)
    requires Sound(p, partSize) && Tracks(p, b0, b) && p.stage == Completing && b0.FreshIds()
    ensures forall i :: 0 <= i < |p.completed| ==> p.completed[i].number in b.uploads[b0.minted].parts
    ensures Clean(p.events) && Assemble(b.uploads[b0.minted], p.completed) == Payload(p.events)
    ensures b.uploads - {b0.minted} == b0.uploads
  {
    AssembleJoin(b.uploads[b0.minted], p, |p.completed|);
    assert p.completed[..|p.completed|] == p.completed && p.parts[..|p.parts|] == p.parts;
    assert p.events[..|p.events|] == p.events;
    assert Join(p.parts) + p.buffer == Join(p.parts);
  }

  lemma PutTracks(p: Process, b0: Bucket, b: Bucket, outcome: Outcome, partSize: nat)
    requires partSize > 0 && Sound(p, partSize) && Tracks(p, b0, b) && p.stage == Putting
    ensures var (b', answer) := Carry(b, NextRequest(p).value, outcome);
            Tracks(Resume(p, answer, partSize), b0, b')
  {
    assert p.events[..|p.events|] == p.events;
    assert Join(p.parts) + p.buffer == p.buffer;
  }

  lemma AdvanceHolds(upload: Upload, p: Process, tag: Tag, partSize: nat)
    requires p.Bounded() && Holds(upload, Recorded(p, tag))
    ensures Holds(upload, Advance(p, tag, partSize)) && Advance(p, tag, partSize).id == p.id
    ensures var stage := Advance(p, tag, partSize).stage; stage in {Sending, Completing, Aborting(ClientAbort)}
  {
    var stored, q := Recorded(p, tag), Advance(p, tag, partSize);
    assert q.completed == stored.completed && |stored.parts| <= |q.parts|;
    forall i | 0 <= i < |q.completed|
      ensures HoldsPart(upload, q, i)
    {
      assert HoldsPart(upload, stored, i);
    }
  }

  lemma PartTracks(p: Process, b0: Bucket, b: Bucket, outcome: Outcome, partSize: nat)
    requires partSize > 0 && Sound(p, partSize) && Tracks(p, b0, b) && p.stage == Sending
    ensures var (b', answer) := Carry(b, NextRequest(p).value, outcome);
            Tracks(Resume(p, answer, partSize), b0, b')
  {
    assert b.Open(p.key, b0.minted);
    var (b', answer) := Carry(b, NextRequest(p).value, outcome);
    var upload := b'.uploads[b0.minted];
    forall i | 0 <= i < |p.completed|
      ensures HoldsPart(upload, p, i)
    {
      assert HoldsPart(b.uploads[b0.minted], p, i);
    }
    if answer.Stored? && answer.tag.Some? {
      var stored := Recorded(p, answer.tag.value);
      forall i | 0 <= i < |stored.completed|
        ensures HoldsPart(upload, stored, i)
      {
        if i < |p.completed| {
          assert HoldsPart(upload, p, i);
        }
      }
      AdvanceHolds(upload, p, answer.tag.value, partSize);
    } else {
      var q := Resume(p, answer, partSize);
      forall i | 0 <= i < |q.completed|
        ensures HoldsPart(upload, q, i)
      {
        assert HoldsPart(upload, p, i);
      }
    }
  }

  lemma EndTracks(p: Process, b0: Bucket, b: Bucket, outcome: Outcome, partSize: nat)
    requires partSize > 0 && Sound(p, partSize) && Tracks(p, b0, b) && b0.FreshIds()
    requires p.stage == Completing || p.stage.Aborting?
    ensures var (b', answer) := Carry(b, NextRequest(p).value, outcome);
            Tracks(Resume(p, answer, partSize), b0, b')
  {
    if p.stage == Completing {
      CompleteTracks(p, b0, b, partSize);
    }
  }

  lemma StepTracks(p: Process, b0: Bucket, b: Bucket, outcome: Outcome, partSize: nat)
    requires partSize > 0 && Sound(p, partSize) && Tracks(p, b0, b) && b0.FreshIds() && !p.stage.Finished?
    ensures NextRequest(p).Some?
    ensures var (b', answer) := Carry(b, NextRequest(p).value, outcome);
            Tracks(Resume(p, answer, partSize), b0, b')
  {
    match p.stage
    case Putting => PutTracks(p, b0, b, outcome, partSize);
    case Creating =>
    case Sending => PartTracks(p, b0, b, outcome, partSize);
    case _ => EndTracks(p, b0, b, outcome, partSize);
  }

  lemma ServeTracks(p: Process, b0: Bucket, s: Backend, partSize: nat)
    requires partSize > 0 && Sound(p, partSize) && Tracks(p, b0, s.bucket) && b0.FreshIds() && !p.stage.Finished?
    ensures NextRequest(p).Some?
    ensures var (q, s') := Take(p, s, partSize);
            Sound(q, partSize) && Tracks(q, b0, s'.bucket)
  {
    StepTracks(p, b0, s.bucket, if s.script == [] then Refused else s.script[0], partSize);
    ResumeSound(p, Serve(s, NextRequest(p).value).1, partSize);
  }

  lemma {:induction false} DriveTracks(p: Process, b0: Bucket, s: Backend, partSize: nat)
    requires partSize > 0 && Sound(p, partSize) && Tracks(p, b0, s.bucket) && b0.FreshIds()
    ensures var (q, s') := Drive(p, s, partSize);
            q.stage.Finished? && Sound(q, partSize) && Tracks(q, b0, s'.bucket)
    decreases |p.events| - p.taken, Rank(p.stage)
  {
    if !p.stage.Finished? {
      ServeTracks(p, b0, s, partSize);
      var (q, s') := Take(p, s, partSize);
      DriveTracks(q, b0, s', partSize);
    }
  }

  /**
   For every stream and every behaviour of S3, `store` ends with the object map either as it was or with
   exactly this key set to the whole body. Ok means the latter, and leaves no upload of its own behind; a
   client abort means the former; uploads of others are never touched.
   */
  lemma StoreRefinesPut(key: Key, events: seq<Event>, s: Backend, partSize: nat)
    requires partSize > 0 && s.bucket.FreshIds()
    ensures var (p, s') := Drive(Start(key, events, partSize), s, partSize);
            var whole := s.bucket.objects[key := Payload(events)];
            && p.stage.Finished?
            && (p.stage.result == Ok ==>
                  Clean(events) && p.taken == |events| && s'.bucket.objects == whole && s'.bucket.uploads == s.bucket.uploads)
            && (p.stage.result == Err(ClientAbort) ==> GaveUp(p) && s'.bucket.objects == s.bucket.objects)
            && (s'.bucket.objects == s.bucket.objects || (Clean(events) && s'.bucket.objects == whole))
            && (forall id :: id in s.bucket.uploads ==>
                  id in s'.bucket.uploads && s'.bucket.uploads[id] == s.bucket.uploads[id])
            && (p.stage.result.Err? ==> p.stage.result.error in {OperationFailed, ClientAbort})
  {
    StartSound(key, events, partSize);
    StartTracks(key, events, partSize, s.bucket);
    DriveTracks(Start(key, events, partSize), s.bucket, s, partSize);
  }
}
