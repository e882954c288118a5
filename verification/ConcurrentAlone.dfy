/**
 The account of one PUT in `Handlers` is what the concurrent model does when nothing comes between its acts: for every
 way S3 may behave, some continuation of a run takes the handler to the same answer, S3 to the same bucket and the
 probe cache to the same table and slots.
 */
module ConcurrentAlone {
  import opened Common
  import opened ObjectStore
  import opened Concurrent
  import Probe = ProbeMachine
  import Racing = StoreRacing
  import SP = StoreProcess
  import H = Handlers
  import G = Gate
  import Answers

  const LIMIT: Option<nat> := H.SWEEPING
  const PART: nat := SP.MULTIPART_PART_SIZE

  ghost predicate Continues(r: Run, r': Run) {
    r.states <= r'.states && r.acts <= r'.acts && |r.states| > 0 && |r'.states| > 0
  }

  function Last(r: Run): World
    requires |r.states| > 0
  {
    r.states[|r.states| - 1]
  }

  /** One more act, taken to `w`. */
  lemma GoOn(r: Run, act: Act, w: World) returns (r': Run)
    requires r.Valid(LIMIT, PART) && Next(Last(r), act, w, LIMIT, PART)
    ensures r'.Valid(LIMIT, PART) && Continues(r, r') && Last(r') == w
  {
    r' := Run(r.states + [w], r.acts + [act]);
  }

  lemma ContinuesOn(r: Run, r1: Run, r2: Run)
    requires Continues(r, r1) && Continues(r1, r2)
    ensures Continues(r, r2)
  {
  }

  // ---------- the store ----------

  /** Store `pid` is at `p`, what it waits for has been sent, and S3 is `b`. */
  ghost predicate At(w: World, pid: Racing.Pid, p: SP.Process, b: Bucket) {
    && pid in w.store.procs && w.store.procs[pid] == p && p.Bounded() && w.store.bucket == b
    && (SP.NextRequest(p).Some? ==> Racing.Sent(pid, SP.NextRequest(p).value) in w.store.issued)
  }

  /** Handlers, cache and clock are as they were. */
  predicate Aside(w: World, w': World) {
    w'.handlers == w.handlers && w'.cache.cache == w.cache.cache && w'.cache.now == w.cache.now
  }

  /** S3 carries out what was sent. */
  lemma Carried(r: Run, pid: Racing.Pid, p: SP.Process, tag: Tag) returns (r': Run)
    requires r.Valid(LIMIT, PART) && At(Last(r), pid, p, Last(r).store.bucket) && SP.NextRequest(p).Some?
    requires Accepts(Last(r).store.bucket, SP.NextRequest(p).value)
    ensures r'.Valid(LIMIT, PART) && Continues(r, r') && Aside(Last(r), Last(r'))
    ensures var request := SP.NextRequest(p).value;
            && At(Last(r'), pid, p, Effect(Last(r).store.bucket, request, tag))
            && (Racing.Sent(pid, request), Reply(Last(r).store.bucket, request, tag)) in Last(r').store.replies
  {
    var w, sent := Last(r), Racing.Sent(pid, SP.NextRequest(p).value);
    var move := Racing.Execute(sent, tag);
    var step := CacheStep(w, Network(move));
    var w' := World(Probe.Apply(w.cache, step, LIMIT), Racing.Apply(w.store, move, PART), w.handlers);
    r' := GoOn(r, Network(move), w');
  }

  /** The store is answered, and goes on. */
  lemma Answered(r: Run, pid: Racing.Pid, p: SP.Process, response: Response) returns (r': Run)
    requires r.Valid(LIMIT, PART) && At(Last(r), pid, p, Last(r).store.bucket) && SP.NextRequest(p).Some?
    requires Racing.Answerable(Last(r).store, Racing.Sent(pid, SP.NextRequest(p).value), response)
    ensures r'.Valid(LIMIT, PART) && Continues(r, r') && Aside(Last(r), Last(r'))
    ensures At(Last(r'), pid, SP.Resume(p, response, PART), Last(r).store.bucket)
  {
    var w, move := Last(r), Racing.Answer(pid, response);
    var w' := World(Probe.Apply(w.cache, Probe.Tick(0), LIMIT), Racing.Apply(w.store, move, PART), w.handlers);
    r' := GoOn(r, Network(move), w');
  }

  lemma TakeRuns(r: Run, pid: Racing.Pid, p: SP.Process, s: Backend) returns (r': Run)
    requires r.Valid(LIMIT, PART) && At(Last(r), pid, p, s.bucket) && SP.NextRequest(p).Some?
    ensures r'.Valid(LIMIT, PART) && Continues(r, r') && Aside(Last(r), Last(r'))
    ensures var (q, s') := SP.Take(p, s, PART); At(Last(r'), pid, q, s'.bucket)
  {
    var request, outcome := SP.NextRequest(p).value, if s.script == [] then Refused else s.script[0];
    var answer := Serve(s, request).1;
    if outcome.Refused? || !Accepts(s.bucket, request) {
      r' := Answered(r, pid, p, Failed);
    } else {
      var r1 := Carried(r, pid, p, outcome.tag);
      r' := Answered(r1, pid, p, answer);
      ContinuesOn(r, r1, r');
    }
  }

  /** Whatever `Drive` makes of a script, a run does. */
  lemma {:induction false} DriveRuns(r: Run, pid: Racing.Pid, p: SP.Process, s: Backend) returns (r': Run)
    requires r.Valid(LIMIT, PART) && At(Last(r), pid, p, s.bucket)
    ensures r'.Valid(LIMIT, PART) && Continues(r, r') && Aside(Last(r), Last(r'))
    ensures var (q, s') := SP.Drive(p, s, PART); At(Last(r'), pid, q, s'.bucket)
    decreases |p.events| - p.taken, SP.Rank(p.stage)
  {
    if SP.NextRequest(p).None? {
      r' := r;
    } else {
      var r1 := TakeRuns(r, pid, p, s);
      var (q, s') := SP.Take(p, s, PART);
      r' := DriveRuns(r1, pid, q, s');
      ContinuesOn(r, r1, r');
    }
  }

  // ---------- the handler ----------

  /** The handler `h` is at `phase`, and the rest is as it was in `w`. */
  ghost predicate Puts(w: World, w': World, h: HandlerId, q: H.HttpRequest, phase: Phase) {
    && w'.handlers == w.handlers[h := Handler(q.hash, q.body, phase)]
    && w'.cache.now == w.cache.now
  }

  /** The request arrives, and its existence check is carried out unless S3 refuses it. */
  lemma Checks(r: Run, h: HandlerId, q: H.HttpRequest, refused: bool) returns (r': Run)
    requires r.Valid(LIMIT, PART) && h !in Last(r).handlers
    ensures r'.Valid(LIMIT, PART) && Continues(r, r')
    ensures Puts(Last(r), Last(r'), h, q, Checking(if refused then None else Some(q.hash in Last(r).store.bucket.objects)))
    ensures Last(r').store == Last(r).store && Last(r').cache == Last(r).cache
  {
    var w := Last(r);
    var arrived := World(w.cache, w.store, w.handlers[h := Handler(q.hash, q.body, Checking(None))]);
    r' := GoOn(r, Arrive(h, q.hash, q.body), arrived);
    if !refused {
      var r1 := r';
      var seen := Checking(Some(q.hash in w.store.bucket.objects));
      r' := GoOn(r1, Act.Head(h), World(w.cache, w.store, w.handlers[h := Handler(q.hash, q.body, seen)]));
      ContinuesOn(r, r1, r');
    }
  }

  /** The key was found: the cache is seeded, and the answer is 409. */
  lemma Conflicts(r: Run, w: World, h: HandlerId, q: H.HttpRequest) returns (r': Run)
    requires r.Valid(LIMIT, PART) && Puts(w, Last(r), h, q, Checking(Some(true))) && q.clock <= w.cache.now
    ensures r'.Valid(LIMIT, PART) && Continues(r, r') && Puts(w, Last(r'), h, q, Replied(409))
    ensures Last(r').store == Last(r).store
    ensures Last(r').cache.cache == Probe.MarkPresent(Last(r).cache.cache, q.hash, q.clock, w.cache.now, LIMIT)
  {
    var l := Last(r);
    var act := Conflict(h, q.clock);
    r' := GoOn(r, act, World(Probe.Apply(l.cache, CacheStep(l, act), LIMIT), l.store, Handled(l, act)));
  }

  /** The body is handed to a store of its own. */
  lemma Begins(r: Run, w: World, h: HandlerId, q: H.HttpRequest, seen: Option<bool>, pid: Racing.Pid) returns (r': Run)
    requires r.Valid(LIMIT, PART) && Puts(w, Last(r), h, q, Checking(seen)) && pid !in Last(r).store.procs
    ensures r'.Valid(LIMIT, PART) && Continues(r, r') && Puts(w, Last(r'), h, q, Storing(pid))
    ensures Last(r').cache == Last(r).cache
    ensures At(Last(r'), pid, SP.Start(q.hash, q.body, PART), Last(r).store.bucket)
  {
    var l := Last(r);
    var act := Store(h, pid);
    r' := GoOn(r, act, World(l.cache, Racing.Apply(l.store, StoreStep(l, act), PART), Handled(l, act)));
  }

  /** The store has returned Ok: the cache is seeded, and the answer is 200. */
  lemma Seeds(r: Run, w: World, h: HandlerId, q: H.HttpRequest, pid: Racing.Pid, p: SP.Process) returns (r': Run)
    requires r.Valid(LIMIT, PART) && Puts(w, Last(r), h, q, Storing(pid)) && q.clock <= w.cache.now
    requires At(Last(r), pid, p, Last(r).store.bucket) && p.stage == SP.Finished(SP.Ok)
    ensures r'.Valid(LIMIT, PART) && Continues(r, r') && Puts(w, Last(r'), h, q, Replied(200))
    ensures Last(r').store == Last(r).store
    ensures Last(r').cache.cache == Probe.MarkPresent(Last(r).cache.cache, q.hash, q.clock, w.cache.now, LIMIT)
  {
    var l := Last(r);
    var act := Seed(h, q.clock);
    r' := GoOn(r, act, World(Probe.Apply(l.cache, CacheStep(l, act), LIMIT), l.store, Handled(l, act)));
  }

  /** It has failed: 400 if the client broke off, 403 otherwise. */
  lemma Declines(r: Run, w: World, h: HandlerId, q: H.HttpRequest, pid: Racing.Pid, p: SP.Process) returns (r': Run)
    requires r.Valid(LIMIT, PART) && Puts(w, Last(r), h, q, Storing(pid))
    requires At(Last(r), pid, p, Last(r).store.bucket) && p.stage.Finished? && p.stage.result.Err?
    ensures r'.Valid(LIMIT, PART) && Continues(r, r')
    ensures Puts(w, Last(r'), h, q, Replied(if p.stage.result.error == SP.ClientAbort then 400 else 403))
    ensures Last(r').store == Last(r).store && Last(r').cache == Last(r).cache
  {
    var l := Last(r);
    r' := GoOn(r, Decline(h), World(l.cache, l.store, Handled(l, Decline(h))));
  }

  /**
   Any run goes on so that a PUT that arrives at its end, with nothing else coming between, ends as `store_artifact` ends
   alone: same status, same S3, same probe cache, under every script of S3.
   */
  lemma PutIsARun(r: Run, h: HandlerId, pid: Racing.Pid, q: H.HttpRequest, letters: set<char>, s: Backend) returns (r': Run)
    requires r.Valid(LIMIT, PART) && h !in Last(r).handlers && pid !in Last(r).store.procs
    requires G.ValidHash(q.hash, letters) && s.bucket == Last(r).store.bucket
    requires q.clock <= q.instant == Last(r).cache.now
    ensures r'.Valid(LIMIT, PART) && Continues(r, r')
    ensures var (reply, s', after) := H.StoreArtifact(q, letters, s, Last(r).cache.cache);
            && Last(r').handlers == Last(r).handlers[h := Handler(q.hash, q.body, Replied(reply.status))]
            && Last(r').store.bucket == s'.bucket && Last(r').cache.cache == after
  {
    var w, cache := Last(r), Last(r).cache.cache;
    Answers.PutExact(q, letters, s, cache);
    var refused := OutcomeAt(s.script, 0).Refused?;
    var r1 := Checks(r, h, q, refused);
    if Answers.Heard(s.script, 0) && q.hash in s.bucket.objects {
      r' := Conflicts(r1, w, h, q);
      ContinuesOn(r, r1, r');
    } else {
      var s1 := Serve(s, Request.Head(q.hash)).0;
      Answers.HeadAnswer(s, q.hash);
      var p := SP.Drive(SP.Start(q.hash, q.body, PART), s1, PART).0;
      var r2 := Begins(r1, w, h, q, Last(r1).handlers[h].phase.seen, pid);
      var r3 := DriveRuns(r2, pid, SP.Start(q.hash, q.body, PART), s1);
      if p.stage.result == SP.Ok {
        r' := Seeds(r3, w, h, q, pid, p);
      } else {
        r' := Declines(r3, w, h, q, pid, p);
      }
      ContinuesOn(r, r1, r2);
      ContinuesOn(r, r2, r3);
      ContinuesOn(r, r3, r');
    }
  }
}
