/**
 Everything at once over one S3: GET callers on the probe cache, PUT handlers that check, store and seed, and
 stores, of this server or another, whose requests are carried out late, twice or never.
 */
module Concurrent {
  import opened Common
  import opened ProbeStaleness
  import opened ProbeSeeding
  import Probe = ProbeMachine
  import Racing = StoreRacing
  import StoreProcess

  type HandlerId = nat

  /** Where `store_artifact` is; `seen` is what HeadObject found, once S3 has carried it out. */
  datatype Phase = Checking(seen: Option<bool>) | Storing(pid: Racing.Pid) | Replied(status: nat)

  datatype Handler = Handler(key: Key, events: seq<StoreProcess.Event>, phase: Phase)

  datatype World = World(cache: Probe.State, store: Racing.World, handlers: map<HandlerId, Handler>)

  /**
   `Cache` is a step of the GET callers or of time, `Network` one of S3 or of a store. `Arrive` is a PUT that has
   got past the gate; the other acts are what its handler does next.
   */
  datatype Act =
    | Cache(step: Probe.Step)
    | Network(move: Racing.Step)
    | Arrive(h: HandlerId, key: Key, events: seq<StoreProcess.Event>)
    | Head(h: HandlerId)
    | Conflict(h: HandlerId, clock: Time)
    | Store(h: HandlerId, pid: Racing.Pid)
    | Seed(h: HandlerId, clock: Time)
    | Decline(h: HandlerId)

  function StageOf(w: World, pid: Racing.Pid): Option<StoreProcess.Stage> {
    if pid in w.store.procs then Some(w.store.procs[pid].stage) else None
  }

  const STORED := StoreProcess.Finished(StoreProcess.Ok)

  /** An existence check may fail even after S3 has carried it out, so a handler that is checking may always store. */
  predicate Ready(w: World, act: Act) {
    match act
    case Cache(step) => !step.Mark? && !step.Write? && !step.Delete?
    case Network(_) => true
    case Arrive(h, _, _) => h !in w.handlers
    case Head(h) => h in w.handlers && w.handlers[h].phase == Checking(None)
    case Conflict(h, _) => h in w.handlers && w.handlers[h].phase == Checking(Some(true))
    case Store(h, _) => h in w.handlers && w.handlers[h].phase.Checking?
    case Seed(h, _) => h in w.handlers && w.handlers[h].phase.Storing? && StageOf(w, w.handlers[h].phase.pid) == Some(STORED)
    case Decline(h) =>
      && h in w.handlers && w.handlers[h].phase.Storing?
      && var stage := StageOf(w, w.handlers[h].phase.pid);
      stage.Some? && stage.value.Finished? && stage.value.result.Err?
  }

  function PutOf(w: World, h: HandlerId): Handler {
    if h in w.handlers then w.handlers[h] else Handler("", [], Checking(None))
  }

  /** What the act is to the probe cache: a tick of no length if it does not concern it. */
  function CacheStep(w: World, act: Act): Probe.Step
  {
    match act
    case Cache(step) => step
    case Network(move) =>
      if move.Execute? && Racing.Commits(move.sent) then Probe.Write(move.sent.request.key)
      else if move.Expire? then Probe.Delete(move.key)
      else Probe.Tick(0)
    case Conflict(h, clock) => Probe.Mark(PutOf(w, h).key, clock)
    case Seed(h, clock) => Probe.Mark(PutOf(w, h).key, clock)
    case _ => Probe.Tick(0)
  }

  /** What it is to the stores. */
  function StoreStep(w: World, act: Act): Racing.Step
  {
    match act
    case Network(move) => move
    case Store(h, pid) => Racing.Begin(pid, PutOf(w, h).key, PutOf(w, h).events)
    case _ => Racing.Pause
  }

  function Moved(w: World, h: HandlerId, phase: Phase): map<HandlerId, Handler>
    requires h in w.handlers
  {
    w.handlers[h := w.handlers[h].(phase := phase)]
  }

  function DeclinedStatus(stage: StoreProcess.Stage): nat {
    if stage == StoreProcess.Finished(StoreProcess.Err(StoreProcess.ClientAbort)) then 400 else 403
  }

  function Handled(w: World, act: Act): map<HandlerId, Handler>
    requires Ready(w, act)
  {
    match act
    case Cache(_) => w.handlers
    case Network(_) => w.handlers
    case Arrive(h, key, events) => w.handlers[h := Handler(key, events, Checking(None))]
    case Head(h) => Moved(w, h, Checking(Some(w.handlers[h].key in w.store.bucket.objects)))
    case Conflict(h, _) => Moved(w, h, Replied(409))
    case Store(h, pid) => Moved(w, h, Storing(pid))
    case Seed(h, _) => Moved(w, h, Replied(200))
    case Decline(h) => Moved(w, h, Replied(DeclinedStatus(w.store.procs[w.handlers[h].phase.pid].stage)))
  }

  ghost predicate Next(w: World, act: Act, w': World, limit: Option<nat>, partSize: nat) {
    && Ready(w, act)
    && Probe.Next(w.cache, CacheStep(w, act), w'.cache, limit)
    && Racing.Next(w.store, StoreStep(w, act), w'.store, partSize)
    && w'.handlers == Handled(w, act)
  }

  /** Both sides are about the same S3. */
  predicate Synced(w: World) {
    w.cache.objects == w.store.bucket.objects.Keys
  }

  ghost predicate Initial(w: World) {
    Probe.Initial(w.cache) && Racing.Initial(w.store) && w.handlers == map[] && Synced(w)
  }

  datatype Run = Run(states: seq<World>, acts: seq<Act>) {
    ghost predicate Valid(limit: Option<nat>, partSize: nat) {
      && partSize > 0 && |states| == |acts| + 1
      && Initial(states[0])
      && forall i :: 0 <= i < |acts| ==> Next(states[i], acts[i], states[i + 1], limit, partSize)
    }

    ghost predicate NoExpiry() {
      forall i :: 0 <= i < |acts| ==> !(acts[i].Network? && acts[i].move.Expire?)
    }
  }

  // ---------- its two sides ----------

  ghost function CacheSide(r: Run, limit: Option<nat>, partSize: nat): (p: Probe.Run)
    requires r.Valid(limit, partSize)
    ensures |p.states| == |r.states| && |p.steps| == |r.acts|
    ensures forall i :: 0 <= i < |r.states| ==> p.states[i] == r.states[i].cache
    ensures forall i :: 0 <= i < |r.acts| ==> p.steps[i] == CacheStep(r.states[i], r.acts[i])
  {
    Probe.Run(seq(|r.states|, i requires 0 <= i < |r.states| => r.states[i].cache),
              seq(|r.acts|, i requires 0 <= i < |r.acts| => CacheStep(r.states[i], r.acts[i])))
  }

  ghost function StoreSide(r: Run, limit: Option<nat>, partSize: nat): (p: Racing.Run)
    requires r.Valid(limit, partSize)
    ensures |p.states| == |r.states| && |p.steps| == |r.acts|
    ensures forall i :: 0 <= i < |r.states| ==> p.states[i] == r.states[i].store
    ensures forall i :: 0 <= i < |r.acts| ==> p.steps[i] == StoreStep(r.states[i], r.acts[i])
  {
    Racing.Run(seq(|r.states|, i requires 0 <= i < |r.states| => r.states[i].store),
               seq(|r.acts|, i requires 0 <= i < |r.acts| => StoreStep(r.states[i], r.acts[i])))
  }

  lemma SidesValid(r: Run, limit: Option<nat>, partSize: nat)
    requires r.Valid(limit, partSize)
    ensures CacheSide(r, limit, partSize).Valid(limit) && StoreSide(r, limit, partSize).Valid(partSize)
  {
    forall i | 0 <= i < |r.acts|
      ensures Probe.Next(r.states[i].cache, CacheSide(r, limit, partSize).steps[i], r.states[i + 1].cache, limit)
      ensures Racing.Next(r.states[i].store, StoreSide(r, limit, partSize).steps[i], r.states[i + 1].store, partSize)
    {
      assert Next(r.states[i], r.acts[i], r.states[i + 1], limit, partSize);
    }
  }

  /** Only puts, completes and expiries change which keys have an object. */
  lemma KeysAfter(w: Racing.World, move: Racing.Step, w': Racing.World, partSize: nat)
    requires Racing.Next(w, move, w', partSize)
    ensures w'.bucket.objects.Keys ==
            if move.Execute? && Racing.Commits(move.sent) then w.bucket.objects.Keys + {move.sent.request.key}
            else if move.Expire? then w.bucket.objects.Keys - {move.key}
            else w.bucket.objects.Keys
  {
  }

  lemma SyncedStep(w: World, act: Act, w': World, limit: Option<nat>, partSize: nat)
    requires Synced(w) && Next(w, act, w', limit, partSize)
    ensures Synced(w')
  {
    KeysAfter(w.store, StoreStep(w, act), w'.store, partSize);
    assert CacheStep(w, act).Write? || CacheStep(w, act).Delete? || w'.cache.objects == w.cache.objects;
  }

  lemma {:induction false} RunSynced(r: Run, limit: Option<nat>, partSize: nat, n: nat)
    requires r.Valid(limit, partSize) && n <= |r.acts|
    ensures Synced(r.states[n])
  {
    if n > 0 {
      RunSynced(r, limit, partSize, n - 1);
      SyncedStep(r.states[n - 1], r.acts[n - 1], r.states[n], limit, partSize);
    }
  }

  // ---------- what the handlers know ----------

  /** `key` was in S3 at some instant up to state `n`. */
  ghost predicate FoundBy(r: Run, n: nat, key: Key) {
    exists o :: 0 <= o <= n && o < |r.states| && key in r.states[o].cache.objects
  }

  /** The cache was seeded with `key` by one of the first `n` acts. */
  ghost predicate SeededBy(r: Run, n: nat, key: Key) {
    exists i :: 0 <= i < n && i < |r.acts| && i < |r.states|
      && CacheStep(r.states[i], r.acts[i]).Mark? && CacheStep(r.states[i], r.acts[i]).key == key
  }

  /** A store of this key and body has returned `result`. */
  ghost predicate StoreEnded(w: World, handler: Handler, result: StoreProcess.StoreResult) {
    exists pid :: pid in w.store.procs && w.store.procs[pid].stage == StoreProcess.Finished(result)
      && w.store.procs[pid].key == handler.key && w.store.procs[pid].events == handler.events
  }

  /** What the handler's place in its code says has happened. */
  ghost predicate Informed(r: Run, n: nat, handler: Handler)
    requires n < |r.states|
  {
    match handler.phase
    case Checking(seen) => seen == Some(true) ==> FoundBy(r, n, handler.key)
    case Storing(pid) =>
      && pid in r.states[n].store.procs
      && r.states[n].store.procs[pid].key == handler.key && r.states[n].store.procs[pid].events == handler.events
    case Replied(status) =>
      && status in {200, 400, 403, 409}
      && (status in {200, 409} ==> SeededBy(r, n, handler.key))
      && (status == 200 ==> StoreEnded(r.states[n], handler, StoreProcess.Ok))
      && (status == 400 ==> StoreEnded(r.states[n], handler, StoreProcess.Err(StoreProcess.ClientAbort)))
      && (status == 403 ==> StoreEnded(r.states[n], handler, StoreProcess.Err(StoreProcess.OperationFailed)))
      && (status == 409 ==> FoundBy(r, n, handler.key))
  }

  ghost predicate AllInformed(r: Run, n: nat)
    requires n < |r.states|
  {
    forall h :: h in r.states[n].handlers ==> Informed(r, n, r.states[n].handlers[h])
  }

  /** Stores are never forgotten, and a finished one stays as it is. */
  lemma StoresKept(w: Racing.World, step: Racing.Step, w': Racing.World, partSize: nat)
    requires Racing.Next(w, step, w', partSize)
    ensures forall pid :: pid in w.procs ==>
              && pid in w'.procs && w'.procs[pid].key == w.procs[pid].key && w'.procs[pid].events == w.procs[pid].events
              && (w.procs[pid].stage.Finished? ==> w'.procs[pid].stage == w.procs[pid].stage)
  {
  }

  lemma InformedLater(r: Run, limit: Option<nat>, partSize: nat, n: nat, handler: Handler)
    requires r.Valid(limit, partSize) && n < |r.acts| && Informed(r, n, handler)
    ensures Informed(r, n + 1, handler)
  {
    assert Next(r.states[n], r.acts[n], r.states[n + 1], limit, partSize);
    StoresKept(r.states[n].store, StoreStep(r.states[n], r.acts[n]), r.states[n + 1].store, partSize);
    if FoundBy(r, n, handler.key) {
      var o :| 0 <= o <= n && o < |r.states| && handler.key in r.states[o].cache.objects;
      assert o <= n + 1;
    }
    if SeededBy(r, n, handler.key) {
      var i :| 0 <= i < n && i < |r.states| && i < |r.acts|
        && CacheStep(r.states[i], r.acts[i]).Mark? && CacheStep(r.states[i], r.acts[i]).key == handler.key;
      assert i < n + 1;
    }
    forall result | StoreEnded(r.states[n], handler, result)
      ensures StoreEnded(r.states[n + 1], handler, result)
    {
      var pid :| pid in r.states[n].store.procs && r.states[n].store.procs[pid].stage == StoreProcess.Finished(result)
        && r.states[n].store.procs[pid].key == handler.key && r.states[n].store.procs[pid].events == handler.events;
      assert pid in r.states[n + 1].store.procs;
    }
  }

  /** A store that failed was given up by its client, or failed at S3. */
  lemma FailedStage(r: Run, limit: Option<nat>, partSize: nat, n: nat, pid: Racing.Pid)
    requires r.Valid(limit, partSize) && n <= |r.acts| && pid in r.states[n].store.procs
    ensures var p := r.states[n].store.procs[pid];
            && (p.stage.Finished? && p.stage.result.Err? ==>
                  p.stage.result.error in {StoreProcess.ClientAbort, StoreProcess.OperationFailed})
            && (p.stage == StoreProcess.Finished(StoreProcess.Err(StoreProcess.ClientAbort)) ==> !StoreProcess.Clean(p.events))
  {
    SidesValid(r, limit, partSize);
    Racing.RunInvariant(StoreSide(r, limit, partSize), partSize, n);
  }

  /** The handler that acts learns what its act shows. */
  lemma ActorInformed(r: Run, limit: Option<nat>, partSize: nat, n: nat, h: HandlerId)
    requires r.Valid(limit, partSize) && n < |r.acts| && AllInformed(r, n)
    requires h in r.states[n + 1].handlers
    requires h !in r.states[n].handlers || r.states[n + 1].handlers[h] != r.states[n].handlers[h]
    ensures Informed(r, n + 1, r.states[n + 1].handlers[h])
  {
    var w, act, w' := r.states[n], r.acts[n], r.states[n + 1];
    assert Next(w, act, w', limit, partSize);
    RunSynced(r, limit, partSize, n);
    StoresKept(w.store, StoreStep(w, act), w'.store, partSize);
    if h in w.handlers {
      InformedLater(r, limit, partSize, n, w.handlers[h]);
    }
    match act
    case Head(_) => assert w.handlers[h].key in w.cache.objects ==> FoundBy(r, n + 1, w.handlers[h].key);
    case Conflict(_, _) => assert SeededBy(r, n + 1, w.handlers[h].key);
    case Seed(_, _) =>
      assert SeededBy(r, n + 1, w.handlers[h].key);
      assert w'.store.procs[w.handlers[h].phase.pid].stage == STORED;
    case Decline(_) =>
      FailedStage(r, limit, partSize, n, w.handlers[h].phase.pid);
      assert w'.store.procs[w.handlers[h].phase.pid].stage == w.store.procs[w.handlers[h].phase.pid].stage;
    case _ =>
  }

  lemma {:induction false} RunInformed(r: Run, limit: Option<nat>, partSize: nat, n: nat)
    requires r.Valid(limit, partSize) && n <= |r.acts|
    ensures AllInformed(r, n)
  {
    if n > 0 {
      RunInformed(r, limit, partSize, n - 1);
      assert Next(r.states[n - 1], r.acts[n - 1], r.states[n], limit, partSize);
      forall h | h in r.states[n].handlers
        ensures Informed(r, n, r.states[n].handlers[h])
      {
        if h in r.states[n - 1].handlers && r.states[n].handlers[h] == r.states[n - 1].handlers[h] {
          InformedLater(r, limit, partSize, n - 1, r.states[n].handlers[h]);
        } else {
          ActorInformed(r, limit, partSize, n - 1, h);
        }
      }
    }
  }

  // ---------- what seeding is worth ----------

  lemma StoredWasThere(r: Run, limit: Option<nat>, partSize: nat, n: nat, pid: Racing.Pid)
    requires r.Valid(limit, partSize) && n <= |r.acts| && StageOf(r.states[n], pid) == Some(STORED)
    ensures FoundBy(r, n, r.states[n].store.procs[pid].key)
  {
    var p, side := r.states[n].store.procs[pid], StoreSide(r, limit, partSize);
    SidesValid(r, limit, partSize);
    Racing.OkMeansCommitted(side, partSize, n, pid);
    var data := StoreProcess.Payload(p.events);
    var o :| 0 <= o <= n && o < |side.states| && p.key in side.states[o].bucket.objects && side.states[o].bucket.objects[p.key] == data;
    RunSynced(r, limit, partSize, o);
    assert p.key in r.states[o].cache.objects;
  }

  /** However stores and readers race, the handlers seed the cache only with keys that were in S3. */
  lemma HandlersConfirm(r: Run, limit: Option<nat>, partSize: nat)
    requires r.Valid(limit, partSize)
    ensures MarksConfirmed(CacheSide(r, limit, partSize))
  {
    var side := CacheSide(r, limit, partSize);
    forall i | 0 <= i < |side.steps| && side.steps[i].Mark?
      ensures exists o :: 0 <= o <= i && side.steps[i].key in side.states[o].objects
    {
      var w, act := r.states[i], r.acts[i];
      assert Next(w, act, r.states[i + 1], limit, partSize);
      RunInformed(r, limit, partSize, i);
      assert Informed(r, i, w.handlers[act.h]);
      if act.Seed? {
        StoredWasThere(r, limit, partSize, i, w.handlers[act.h].phase.pid);
      }
      assert FoundBy(r, i, side.steps[i].key);
      var o :| 0 <= o <= i && o < |r.states| && side.steps[i].key in r.states[o].cache.objects;
      assert side.steps[i].key in side.states[o].objects;
    }
  }

  /** The object is the initial one or the entire body of one store. */
  ghost predicate Whole(r: Run, n: nat, key: Key)
    requires n < |r.states| && key in r.states[n].store.bucket.objects
  {
    var w0, w := r.states[0].store, r.states[n].store;
    || Racing.Untouched(w0, w, key)
    || exists pid :: Racing.BodyOf(w, pid, key, w.bucket.objects[key])
  }

  lemma ObjectsWhole(r: Run, limit: Option<nat>, partSize: nat, n: nat, key: Key)
    requires r.Valid(limit, partSize) && n <= |r.acts| && key in r.states[n].cache.objects
    ensures key in r.states[n].store.bucket.objects && Whole(r, n, key)
  {
    SidesValid(r, limit, partSize);
    RunSynced(r, limit, partSize, n);
    Racing.NeverMixed(StoreSide(r, limit, partSize), partSize, n, key);
  }

  lemma NoDeletesOnSide(r: Run, limit: Option<nat>, partSize: nat)
    requires r.Valid(limit, partSize) && r.NoExpiry()
    ensures CacheSide(r, limit, partSize).NoDeletes()
  {
    forall i | 0 <= i < |r.acts|
      ensures !CacheStep(r.states[i], r.acts[i]).Delete?
    {
      assert Next(r.states[i], r.acts[i], r.states[i + 1], limit, partSize);
    }
  }

  lemma SeedingAct(r: Run, limit: Option<nat>, partSize: nat, m: nat, h: HandlerId) returns (i: nat)
    requires r.Valid(limit, partSize) && m <= |r.acts|
    requires h in r.states[m].handlers && r.states[m].handlers[h].phase in {Replied(200), Replied(409)}
    ensures i < m
    ensures var step := CacheSide(r, limit, partSize).steps[i]; step.Mark? && step.key == r.states[m].handlers[h].key
  {
    var key := r.states[m].handlers[h].key;
    RunInformed(r, limit, partSize, m);
    assert Informed(r, m, r.states[m].handlers[h]);
    i :| 0 <= i < m && i < |r.states| && i < |r.acts|
      && CacheStep(r.states[i], r.acts[i]).Mark? && CacheStep(r.states[i], r.acts[i]).key == key;
  }

  /** Seeded at step `i` and not deleted, a key is there, and is not denied. */
  lemma SeededStays(side: Probe.Run, limit: Option<nat>, i: nat, l: nat, n: nat, key: Key)
    requires side.Valid(limit) && side.NoDeletes() && MarksConfirmed(side) && i < l < n <= |side.steps|
    requires side.steps[i].Mark? && side.steps[i].key == key
    requires side.steps[l].Lookup? && side.steps[l].key == key
    ensures key in side.states[n].objects && !AnsweredFalse(side.states[n], side.steps[l].caller)
  {
    var o :| 0 <= o <= i && key in side.states[o].objects;
    ObjectsKept(side, limit, o, i);
    ObjectsKept(side, limit, i, n);
    assert KeptFrom(side, i, key);
    ReadYourWrites(side, limit, i, l, n, key);
  }

  /**
   A PUT that was answered 200 or 409 is seen: unless objects are deleted, and whatever else races, no `present`
   that looks its key up later answers false, and S3 then holds a whole body under the key.
   */
  lemma AnsweredPutIsSeen(r: Run, limit: Option<nat>, partSize: nat, m: nat, l: nat, n: nat, h: HandlerId,
                          c: Probe.CallerId, clock: Time)
    requires r.Valid(limit, partSize) && r.NoExpiry() && m <= l < n <= |r.acts|
    requires h in r.states[m].handlers && r.states[m].handlers[h].phase in {Replied(200), Replied(409)}
    requires r.acts[l] == Cache(Probe.Lookup(c, r.states[m].handlers[h].key, clock))
    ensures !AnsweredFalse(r.states[n].cache, c)
    ensures var key := r.states[m].handlers[h].key; key in r.states[n].store.bucket.objects && Whole(r, n, key)
  {
    var key, side := r.states[m].handlers[h].key, CacheSide(r, limit, partSize);
    var i := SeedingAct(r, limit, partSize, m, h);
    SidesValid(r, limit, partSize);
    NoDeletesOnSide(r, limit, partSize);
    HandlersConfirm(r, limit, partSize);
    SeededStays(side, limit, i, l, n, key);
    ObjectsWhole(r, limit, partSize, n, key);
  }

  /**
   200 says that the body arrived whole and was, entire, the object of its key; 409 that the key was in S3; 400 that the
   body broke off, and 403 that the handler's own store failed at S3.
   */
  lemma StatusMeans(r: Run, limit: Option<nat>, partSize: nat, n: nat, h: HandlerId)
    requires r.Valid(limit, partSize) && n <= |r.acts| && h in r.states[n].handlers
    ensures var handler := r.states[n].handlers[h];
            && (handler.phase == Replied(200) ==>
                  && StoreProcess.Clean(handler.events)
                  && Racing.WasObject(StoreSide(r, limit, partSize), n, handler.key, StoreProcess.Payload(handler.events)))
            && (handler.phase == Replied(409) ==> FoundBy(r, n, handler.key))
            && (handler.phase == Replied(400) ==> !StoreProcess.Clean(handler.events))
            && (handler.phase == Replied(403) ==>
                  StoreEnded(r.states[n], handler, StoreProcess.Err(StoreProcess.OperationFailed)))
  {
    var handler := r.states[n].handlers[h];
    RunInformed(r, limit, partSize, n);
    assert Informed(r, n, handler);
    if handler.phase == Replied(200) {
      var pid :| pid in r.states[n].store.procs && r.states[n].store.procs[pid].stage == STORED
        && r.states[n].store.procs[pid].key == handler.key && r.states[n].store.procs[pid].events == handler.events;
      SidesValid(r, limit, partSize);
      Racing.OkMeansCommitted(StoreSide(r, limit, partSize), partSize, n, pid);
    } else if handler.phase == Replied(400) {
      var broken := StoreProcess.Finished(StoreProcess.Err(StoreProcess.ClientAbort));
      var pid :| pid in r.states[n].store.procs && r.states[n].store.procs[pid].stage == broken
        && r.states[n].store.procs[pid].key == handler.key && r.states[n].store.procs[pid].events == handler.events;
      FailedStage(r, limit, partSize, n, pid);
    }
  }

  /** Keys are content addresses: what S3 held under `key` at first, and every whole body stored under it, is `data`. */
  ghost predicate OneContent(r: Run, key: Key, data: Bytes) {
    && |r.states| > 0
    && (key in r.states[0].store.bucket.objects ==> r.states[0].store.bucket.objects[key] == data)
    && forall n :: 0 <= n < |r.states| ==> forall pid :: pid in r.states[n].store.procs ==>
         var p := r.states[n].store.procs[pid];
         p.key == key && StoreProcess.Clean(p.events) ==> StoreProcess.Payload(p.events) == data
  }

  /**
   The round trip in a race: if keys are content addresses, then after a PUT was answered 200 or 409, and whatever
   else races, no `present` that looks its key up later answers false, and what S3 then holds under the key is, to
   the byte, the content, which is what a PUT that was answered 200 sent.
   */
  lemma RacingRoundTrip(r: Run, limit: Option<nat>, partSize: nat, m: nat, l: nat, n: nat, h: HandlerId,
                        c: Probe.CallerId, clock: Time, data: Bytes)
    requires r.Valid(limit, partSize) && r.NoExpiry() && m <= l < n <= |r.acts|
    requires h in r.states[m].handlers && r.states[m].handlers[h].phase in {Replied(200), Replied(409)}
    requires r.acts[l] == Cache(Probe.Lookup(c, r.states[m].handlers[h].key, clock))
    requires OneContent(r, r.states[m].handlers[h].key, data)
    ensures !AnsweredFalse(r.states[n].cache, c)
    ensures var handler, objects := r.states[m].handlers[h], r.states[n].store.bucket.objects;
            && handler.key in objects && objects[handler.key] == data
            && (handler.phase == Replied(200) ==> StoreProcess.Payload(handler.events) == data)
  {
    AnsweredPutIsSeen(r, limit, partSize, m, l, n, h, c, clock);
    StatusMeans(r, limit, partSize, m, h);
    RunInformed(r, limit, partSize, m);
    assert Informed(r, m, r.states[m].handlers[h]);
  }

  /**
   A `present` that answered true is worth a GetObject: unless objects are deleted, S3 holds at every later
   instant, under that key, the initial object or the entire body of one store.
   */
  lemma PresentMeansWhole(r: Run, limit: Option<nat>, partSize: nat, n: nat, o: nat, c: Probe.CallerId)
    requires r.Valid(limit, partSize) && r.NoExpiry() && n <= o <= |r.acts|
    requires c in r.states[n].cache.callers && r.states[n].cache.callers[c].phase == Probe.Answered(Probe.Ok(true))
    ensures var s := r.states[n].cache; var key := s.cache.slots[s.callers[c].slot].key;
            key in r.states[o].store.bucket.objects && Whole(r, o, key)
  {
    var s := r.states[n].cache;
    SidesValid(r, limit, partSize);
    NoDeletesOnSide(r, limit, partSize);
    HandlersConfirm(r, limit, partSize);
    PositiveSoundness(CacheSide(r, limit, partSize), limit, n, o, c);
    ObjectsWhole(r, limit, partSize, o, s.cache.slots[s.callers[c].slot].key);
  }
}
