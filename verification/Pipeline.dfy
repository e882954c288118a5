/** What the whole route promises: over one request, and over any sequence of them. */
module Pipeline {
  import opened Common
  import opened ObjectStore
  import opened StoreProcess
  import opened StoreInvariants
  import opened StoreCorrectness
  import opened StoreLifecycle
  import opened Gate
  import opened Handlers
  import Probe = ProbeMachine
  import Staleness = ProbeStaleness

  // ---------- one request ----------

  /** No storage behaviour turns into a 5xx: a failed write is a 403, a failed read a 404. */
  lemma NeverServerError(c: Config, letters: set<char>, q: HttpRequest, s: Backend, cache: Probe.Cache)
    requires cache.Bounded()
    ensures var status := Handle(c, letters, q, s, cache).0.status;
            status in {200, 400, 401, 403, 404, 405, 409}
  {
    if q.verb == PUT {
      PutCache(q, letters, s, cache);
    } else if q.verb in {GET, HEAD} {
      GetMeaning(q, letters, s, cache);
    }
  }

  /**
   The answer was given after the body's end, after a read error, or at the drain limit, before which `patience` items
   were discarded; either way the first read error ended it.
   */
  predicate ReadOut(body: seq<Event>, patience: nat, r: Reply) {
    && r.taken <= |body|
    && (forall i :: 0 <= i < r.taken - 1 ==> body[i].Chunk?)
    && if r.cut then patience <= r.taken < |body| && Clean(body[..r.taken])
       else r.taken == |body| || (0 < r.taken && body[r.taken - 1].Broken?)
  }

  /** How far a drain reads: to the first read error or to the end, unless `patience` whole items come first. */
  lemma {:induction false} DrainExact(events: seq<Event>, taken: nat, patience: nat)
    requires taken <= |events|
    ensures var r := Drain(events, taken, patience);
            && (forall i :: taken <= i < r.taken - 1 ==> events[i].Chunk?)
            && (r.cut <==> taken + patience < |events| && forall i :: taken <= i < taken + patience ==> events[i].Chunk?)
            && (if r.cut then r.taken == taken + patience
                else r.taken == |events| || (taken < r.taken && events[r.taken - 1].Broken?))
    decreases patience
  {
    if taken < |events| && patience > 0 && events[taken].Chunk? {
      DrainExact(events, taken + 1, patience - 1);
    }
  }

  lemma AfterStoreReadsOut(q: HttpRequest, result: StoreResult, taken: nat, cache: Probe.Cache)
    requires cache.Bounded() && taken <= |q.body|
    requires if result == Err(ClientAbort) then 0 < taken && q.body[taken - 1].Broken? && Clean(q.body[..taken - 1])
             else Clean(q.body[..taken])
    requires result == Ok ==> taken == |q.body|
    ensures ReadOut(q.body, q.patience, AfterStore(q, result, taken, cache).0)
    ensures |q.body| <= q.patience ==> !AfterStore(q, result, taken, cache).0.cut
  {
    DrainExact(q.body, taken, q.patience);
    assert result != Err(ClientAbort) ==> forall i :: 0 <= i < taken ==> q.body[..taken][i] == q.body[i];
    assert result == Err(ClientAbort) ==> forall i :: 0 <= i < taken - 1 ==> q.body[..taken - 1][i] == q.body[i];
  }

  /** A finished store has read its body to the end if it succeeded, and to the read error if the client broke off. */
  lemma DriveReads(key: Key, events: seq<Event>, s: Backend)
    ensures var p := Drive(Start(key, events, MULTIPART_PART_SIZE), s, MULTIPART_PART_SIZE).0;
            && p.stage.Finished? && p.taken <= |events|
            && (p.stage.result == Ok ==> p.taken == |events|)
            && if p.stage.result == Err(ClientAbort) then
                 0 < p.taken && events[p.taken - 1].Broken? && Clean(events[..p.taken - 1])
               else
                 Clean(events[..p.taken])
  {
    StartSound(key, events, MULTIPART_PART_SIZE);
    DriveLogged(Start(key, events, MULTIPART_PART_SIZE), s, MULTIPART_PART_SIZE, s.log, []);
  }

  lemma StoreReadsOut(q: HttpRequest, s: Backend, cache: Probe.Cache)
    requires cache.Bounded()
    ensures ReadOut(q.body, q.patience, StoreBody(q, s, cache).0)
    ensures |q.body| <= q.patience ==> !StoreBody(q, s, cache).0.cut
  {
    DriveReads(q.hash, q.body, s);
    var p := Drive(Start(q.hash, q.body, MULTIPART_PART_SIZE), s, MULTIPART_PART_SIZE).0;
    AfterStoreReadsOut(q, p.stage.result, p.taken, cache);
  }

  lemma PutReadsOut(q: HttpRequest, letters: set<char>, s: Backend, cache: Probe.Cache)
    requires cache.Bounded()
    ensures var r := StoreArtifact(q, letters, s, cache).0;
            && ReadOut(q.body, q.patience, r) && (|q.body| <= q.patience ==> !r.cut)
            && (r.cut && r.status != 403 ==> r.taken == q.patience)
  {
    var (s1, answer) := Serve(s, Head(q.hash));
    if ValidHash(q.hash, letters) && answer != Found {
      StoreReadsOut(q, s1, cache);
    } else {
      DrainExact(q.body, 0, q.patience);
    }
  }

  /**
   Section 9.6 of RFC 9112, as far as the drain goes: every PUT that gets past the gate, and every write refused
   there, is answered only once its body has been read out; an unauthenticated request is not read at all.
   */
  lemma BodyReadOut(c: Config, letters: set<char>, q: HttpRequest, s: Backend, cache: Probe.Cache)
    requires cache.Bounded()
    ensures var r, verdict := Handle(c, letters, q, s, cache).0, Authorize(c, q.authorization, q.verb);
            && (verdict == Forbidden || (verdict == Pass && q.verb == PUT) ==>
                  ReadOut(q.body, q.patience, r) && (|q.body| <= q.patience ==> !r.cut))
            && (r.cut ==> r.taken == q.patience || (verdict == Pass && r.status == 403))
            && (verdict == Unauthorized ==> r.taken == 0)
  {
    if Authorize(c, q.authorization, q.verb) == Forbidden {
      DrainExact(q.body, 0, q.patience);
    } else if q.verb == PUT {
      PutReadsOut(q, letters, s, cache);
    }
  }

  /** A PUT leaves the object map as it was, or with exactly its key set to exactly its whole body. */
  ghost predicate Stored(q: HttpRequest, b: Bucket, b': Bucket) {
    Clean(q.body) && b'.objects == b.objects[q.hash := Payload(q.body)]
  }

  lemma HeadKeepsBucket(s: Backend, key: Key)
    ensures Serve(s, Head(key)).0.bucket == s.bucket
    ensures Serve(s, Head(key)).1 == Found ==> key in s.bucket.objects
    ensures Serve(s, Head(key)).0.script == if s.script == [] then [] else s.script[1..]
    ensures s.script != [] && s.script[0].Served? ==>
              Serve(s, Head(key)).1 == if key in s.bucket.objects then Found else Missing
  {
  }

  /**
   What the statuses of PUT mean, for every behaviour of S3. 200: this body, whole, is the object, and the
   cache knows it. 409: the key was there, and nothing was written. 400: nothing was written.
   */
  lemma PutMeaning(q: HttpRequest, letters: set<char>, s: Backend, cache: Probe.Cache)
    requires cache.Bounded() && s.bucket.FreshIds()
    ensures var (r, s', after) := StoreArtifact(q, letters, s, cache);
            var b, b' := s.bucket, s'.bucket;
            && r.status in {200, 400, 403, 409}
            && (r.status == 200 ==>
                  ValidHash(q.hash, letters) && Stored(q, b, b') && b'.uploads == b.uploads && r.taken == |q.body|)
            && (r.status in {200, 409} ==>
                  q.hash in after.table && after.slots[after.table[q.hash]].cell == Probe.Resolved(Probe.Sight(true, q.instant)))
            && (r.status == 409 ==> q.hash in b.objects && b' == b)
            && (r.status == 400 ==> b'.objects == b.objects && (ValidHash(q.hash, letters) ==> !Clean(q.body)))
            && (b'.objects == b.objects || (ValidHash(q.hash, letters) && Stored(q, b, b')))
            && (forall id :: id in b.uploads ==> id in b'.uploads && b'.uploads[id] == b.uploads[id])
  {
    HeadKeepsBucket(s, q.hash);
    StoreRefinesPut(q.hash, q.body, Serve(s, Head(q.hash)).0, MULTIPART_PART_SIZE);
  }

  /** With S3 serving every call the status of a PUT is decided by key, bucket and body alone. */
  lemma PutWithHealthyStorage(q: HttpRequest, letters: set<char>, s: Backend, cache: Probe.Cache)
    requires cache.Bounded() && s.bucket.FreshIds() && AllServed(s.script) && |q.body| + 4 <= |s.script|
    ensures StoreArtifact(q, letters, s, cache).0.status ==
            if !ValidHash(q.hash, letters) then 400
            else if q.hash in s.bucket.objects then 409
            else if Clean(q.body) then 200
            else 400
  {
    HeadKeepsBucket(s, q.hash);
    if ValidHash(q.hash, letters) && q.hash !in s.bucket.objects {
      StoreSucceeds(q.hash, q.body, Serve(s, Head(q.hash)).0);
    }
  }

  /** The table leads a lookup of `key` at `clock` to a live slot that says it is missing. */
  predicate CachedMissing(cache: Probe.Cache, key: Key, clock: Time)
    requires cache.Bounded()
  {
    cache.Hit(key, clock) && Staleness.CachesAbsence(cache.slots[cache.table[key]].cell)
  }

  /** The same for a live slot that says it is there. */
  predicate CachedPresent(cache: Probe.Cache, key: Key, clock: Time)
    requires cache.Bounded()
  {
    && cache.Hit(key, clock)
    && var cell := cache.slots[cache.table[key]].cell;
    cell.Resolved? && cell.sight.present
  }

  /** A read of this key joins a probe in flight, which finds the key there, or finds it missing. */
  predicate Joins(q: HttpRequest, cache: Probe.Cache, present: bool)
    requires cache.Bounded()
  {
    && cache.Hit(q.hash, q.clock) && cache.slots[cache.table[q.hash]].cell.Running?
    && q.joined.Some? && q.joined.value.present == present
  }

  lemma PresentKeepsBucket(q: HttpRequest, s: Backend, cache: Probe.Cache)
    requires cache.Bounded()
    ensures Present(q, s, cache).1.bucket == s.bucket
  {
    HeadKeepsBucket(s, q.hash);
  }

  lemma GetKeepsBucket(s: Backend, key: Key)
    ensures Serve(s, Get(key)).0.bucket == s.bucket
    ensures Serve(s, Get(key)).1.Object? ==> key in s.bucket.objects && Serve(s, Get(key)).1.data == s.bucket.objects[key]
  {
  }

  /** A read writes nothing, and what it answers with 200 is the object. */
  lemma GetMeaning(q: HttpRequest, letters: set<char>, s: Backend, cache: Probe.Cache)
    requires cache.Bounded()
    ensures var (r, s', after) := RetrieveArtifact(q, letters, s, cache);
            && s'.bucket == s.bucket
            && r.status in {200, 400, 404}
            && (r.status == 400 <==> !ValidHash(q.hash, letters))
            && (r.status == 200 ==> q.hash in s.bucket.objects && r.content == Some(s.bucket.objects[q.hash]))
  {
    PresentKeepsBucket(q, s, cache);
    GetKeepsBucket(Present(q, s, cache).1, q.hash);
  }

  /**
   With S3 serving every call a read misses exactly when the cache says missing, the probe it joins does, or the key
   is missing.
   */
  lemma GetWithHealthyStorage(q: HttpRequest, letters: set<char>, s: Backend, cache: Probe.Cache)
    requires cache.Bounded() && AllServed(s.script) && 2 <= |s.script|
    ensures var r := RetrieveArtifact(q, letters, s, cache).0;
            r.status ==
            if !ValidHash(q.hash, letters) then 400
            else if CachedMissing(cache, q.hash, q.clock) || Joins(q, cache, false) || q.hash !in s.bucket.objects then 404
            else 200
  {
    HeadKeepsBucket(s, q.hash);
  }

  // ---------- sequences of requests ----------

  datatype ServerState = ServerState(bucket: Bucket, cache: Probe.Cache)

  /** A request, and how S3 is going to behave while it is handled. */
  datatype Visit = Visit(request: HttpRequest, script: seq<Outcome>)

  /** S3 answers the first call of the visit, which for a PUT is the existence check. */
  predicate FirstCallServed(v: Visit) {
    v.script != [] && v.script[0].Served?
  }

  function Step(c: Config, letters: set<char>, v: Visit, st: ServerState): (r: (Reply, ServerState))
    requires st.cache.Bounded()
    ensures r.1.cache.Bounded()
  {
    var s := Backend(st.bucket, v.script, []);
    var (reply, s', cache') := Handle(c, letters, v.request, s, st.cache);
    (reply, ServerState(s'.bucket, cache'))
  }

  function After(c: Config, letters: set<char>, visits: seq<Visit>, st: ServerState): (r: ServerState)
    requires st.cache.Bounded()
    ensures r.cache.Bounded()
  {
    if visits == [] then st else After(c, letters, visits[1..], Step(c, letters, visits[0], st).1)
  }

  predicate ServiceWrite(c: Config, q: HttpRequest) {
    CarriesServiceToken(c, q.authorization) && q.verb == PUT
  }

  lemma OtherMethodsLeaveBucket(c: Config, letters: set<char>, v: Visit, st: ServerState)
    requires st.cache.Bounded() && v.request.verb != PUT
    ensures Step(c, letters, v, st).1.bucket == st.bucket
  {
    GetMeaning(v.request, letters, Backend(st.bucket, v.script, []), st.cache);
  }

  /** Only a PUT with the service token touches S3. */
  lemma OthersLeaveBucket(c: Config, letters: set<char>, v: Visit, st: ServerState)
    requires Validated(c) && st.cache.Bounded() && !ServiceWrite(c, v.request)
    ensures Step(c, letters, v, st).1.bucket == st.bucket
  {
    if v.request.verb == PUT {
      OnlyServiceTokenWrites(c, v.request.authorization, v.request.verb);
    } else {
      OtherMethodsLeaveBucket(c, letters, v, st);
    }
  }

  /** What a service write does to S3 does not depend on the cache. */
  lemma WriteIgnoresCache(c: Config, letters: set<char>, v: Visit, st: ServerState, other: ServerState)
    requires Validated(c) && st.cache.Bounded() && other.cache.Bounded() && st.bucket == other.bucket
    requires ServiceWrite(c, v.request)
    ensures Step(c, letters, v, st).1.bucket == Step(c, letters, v, other).1.bucket
  {
    OnlyServiceTokenWrites(c, v.request.authorization, v.request.verb);
  }

  function Kept(visits: seq<Visit>, keep: HttpRequest -> bool): seq<Visit> {
    if visits == [] then []
    else (if keep(visits[0].request) then [visits[0]] else []) + Kept(visits[1..], keep)
  }

  /**
   Write isolation: S3 after any sequence of requests is S3 after the same sequence with any requests left out
   that are not PUTs carrying the service token.
   */
  lemma {:induction false} WriteIsolation(c: Config, letters: set<char>, visits: seq<Visit>, keep: HttpRequest -> bool,
                                          st: ServerState, other: ServerState)
    requires Validated(c) && st.cache.Bounded() && other.cache.Bounded() && st.bucket == other.bucket
    requires forall q :: ServiceWrite(c, q) ==> keep(q)
    ensures After(c, letters, visits, st).bucket == After(c, letters, Kept(visits, keep), other).bucket
  {
    if visits != [] {
      var v, rest := visits[0], Kept(visits[1..], keep);
      var st' := Step(c, letters, v, st).1;
      if keep(v.request) {
        var other' := Step(c, letters, v, other).1;
        assert ([v] + rest)[1..] == rest;
        if ServiceWrite(c, v.request) {
          WriteIgnoresCache(c, letters, v, st, other);
        } else {
          OthersLeaveBucket(c, letters, v, st);
          OthersLeaveBucket(c, letters, v, other);
        }
        WriteIsolation(c, letters, visits[1..], keep, st', other');
      } else {
        assert [] + rest == rest;
        OthersLeaveBucket(c, letters, v, st);
        WriteIsolation(c, letters, visits[1..], keep, st', other);
      }
    }
  }

  // ---------- S3's ids ----------

  lemma CarryFresh(b: Bucket, request: Request, outcome: Outcome)
    requires b.FreshIds()
    ensures Carry(b, request, outcome).0.FreshIds()
  {
  }

  lemma {:induction false} DriveFresh(p: Process, s: Backend, partSize: nat)
    requires p.Bounded() && s.bucket.FreshIds()
    ensures Drive(p, s, partSize).1.bucket.FreshIds()
    decreases |p.events| - p.taken, Rank(p.stage)
  {
    if NextRequest(p).Some? {
      CarryFresh(s.bucket, NextRequest(p).value, if s.script == [] then Refused else s.script[0]);
      var (q, s') := Take(p, s, partSize);
      DriveFresh(q, s', partSize);
    }
  }

  lemma StepFresh(c: Config, letters: set<char>, v: Visit, st: ServerState)
    requires st.cache.Bounded() && st.bucket.FreshIds()
    ensures Step(c, letters, v, st).1.bucket.FreshIds()
  {
    var s, q := Backend(st.bucket, v.script, []), v.request;
    HeadKeepsBucket(s, q.hash);
    DriveFresh(Start(q.hash, q.body, MULTIPART_PART_SIZE), Serve(s, Head(q.hash)).0, MULTIPART_PART_SIZE);
    GetMeaning(q, letters, s, st.cache);
  }

  // ---------- the probe object ----------

  /** One request changes the object map at most at its own valid key, and there to its whole body. */
  lemma StepObjects(c: Config, letters: set<char>, v: Visit, st: ServerState)
    requires st.cache.Bounded() && st.bucket.FreshIds()
    ensures var q, objects := v.request, Step(c, letters, v, st).1.bucket.objects;
            objects == st.bucket.objects ||
            (q.verb == PUT && ValidHash(q.hash, letters) && Clean(q.body) &&
             objects == st.bucket.objects[q.hash := Payload(q.body)])
  {
    var s := Backend(st.bucket, v.script, []);
    PutMeaning(v.request, letters, s, st.cache);
    GetMeaning(v.request, letters, s, st.cache);
  }

  /** No request, whoever sends it, changes the object the self-probe looks for. */
  lemma {:induction false} ProbeObjectUntouched(c: Config, letters: set<char>, visits: seq<Visit>, st: ServerState)
    requires st.cache.Bounded() && st.bucket.FreshIds() && BeyondAscii(letters)
    ensures var after := After(c, letters, visits, st).bucket.objects;
            && (PROBE_KEY in after <==> PROBE_KEY in st.bucket.objects)
            && (PROBE_KEY in after ==> after[PROBE_KEY] == st.bucket.objects[PROBE_KEY])
  {
    if visits != [] {
      ProbeKeyRejected(letters);
      StepFresh(c, letters, visits[0], st);
      StepObjects(c, letters, visits[0], st);
      ProbeObjectUntouched(c, letters, visits[1..], Step(c, letters, visits[0], st).1);
    }
  }

  // ---------- what a cached presence is worth ----------

  /** Every slot that says present is about a key that is in S3. */
  predicate Honest(st: ServerState) {
    && st.cache.Bounded() && st.cache.Keyed() && st.bucket.FreshIds()
    && forall id :: 0 <= id < |st.cache.slots| && st.cache.slots[id].cell.Resolved? && st.cache.slots[id].cell.sight.present ==>
         st.cache.slots[id].key in st.bucket.objects
  }

  lemma MarkHonest(st: ServerState, hash: Key, clock: Time, instant: Time, bucket: Bucket)
    requires Honest(st) && bucket.FreshIds() && st.bucket.objects.Keys <= bucket.objects.Keys && hash in bucket.objects
    ensures Honest(ServerState(bucket, Probe.MarkPresent(st.cache, hash, clock, instant, SWEEPING)))
  {
  }

  /** A call of `present` leaves what the lookup and the wait left, or resolves the slot found to what S3 holds. */
  lemma PresentCache(q: HttpRequest, s: Backend, cache: Probe.Cache)
    requires cache.Bounded()
    ensures var (found, id) := Probe.Find(cache, q.hash, q.clock, SWEEPING);
            var waited := Probe.Awaited(found, id, q.joined);
            var seen := Probe.Resolved(Probe.Sight(q.hash in s.bucket.objects, q.instant));
            Present(q, s, cache).2 in {waited, Probe.Settled(waited, id, seen)}
  {
  }

  lemma FindKeyed(cache: Probe.Cache, key: Key, clock: Time)
    requires cache.Keyed()
    ensures var (found, id) := Probe.Find(cache, key, clock, SWEEPING);
            && found.Keyed() && found.slots[id].key == key
            && found.slots[..|cache.slots|] == cache.slots
            && (forall i :: |cache.slots| <= i < |found.slots| ==> found.slots[i].cell.Unset?)
            && (forall k :: k in found.table ==> found.table[k] == |cache.slots| || (k in cache.table && found.table[k] == cache.table[k]))
  {
  }

  /** If the request joins a probe that finds its key present, the key is there. */
  predicate Truthful(q: HttpRequest, st: ServerState)
    requires st.cache.Bounded()
  {
    q.verb in {GET, HEAD} && Joins(q, st.cache, true) ==> q.hash in st.bucket.objects
  }

  /** So it is all through a sequence of requests: a joined probe saw S3 a moment ago. */
  ghost predicate AllTruthful(c: Config, letters: set<char>, visits: seq<Visit>, st: ServerState)
    requires st.cache.Bounded()
  {
    visits == [] ||
      (Truthful(visits[0].request, st) && AllTruthful(c, letters, visits[1..], Step(c, letters, visits[0], st).1))
  }

  lemma SettledHonest(st: ServerState, id: Probe.SlotId, cell: Probe.Cell)
    requires Honest(st) && id < |st.cache.slots|
    requires cell.Resolved? && cell.sight.present ==> st.cache.slots[id].key in st.bucket.objects
    ensures Honest(ServerState(st.bucket, Probe.Settled(st.cache, id, cell)))
  {
  }

  lemma PresentHonest(q: HttpRequest, s: Backend, st: ServerState)
    requires Honest(st) && s.bucket == st.bucket && q.verb in {GET, HEAD} && Truthful(q, st)
    ensures Honest(ServerState(st.bucket, Present(q, s, st.cache).2))
  {
    PresentCache(q, s, st.cache);
    FindKeyed(st.cache, q.hash, q.clock);
    var (found, id) := Probe.Find(st.cache, q.hash, q.clock, SWEEPING);
    assert forall i :: 0 <= i < |st.cache.slots| ==> found.slots[i] == st.cache.slots[i];
    assert Honest(ServerState(st.bucket, found));
    if found.slots[id].cell.Running? {
      SettledHonest(ServerState(st.bucket, found), id, if q.joined.Some? then Probe.Resolved(q.joined.value) else Probe.Unset);
    }
    var waited := Probe.Awaited(found, id, q.joined);
    SettledHonest(ServerState(st.bucket, waited), id, Probe.Resolved(Probe.Sight(q.hash in s.bucket.objects, q.instant)));
  }

  lemma AfterStoreCache(q: HttpRequest, result: StoreResult, taken: nat, cache: Probe.Cache)
    requires cache.Bounded() && taken <= |q.body|
    ensures var (r, after) := AfterStore(q, result, taken, cache);
            && r.status in {200, 400, 403}
            && after == if r.status == 200 then Probe.MarkPresent(cache, q.hash, q.clock, q.instant, SWEEPING) else cache
  {
  }

  /** A PUT leaves the cache alone or seeds it. */
  lemma PutCache(q: HttpRequest, letters: set<char>, s: Backend, cache: Probe.Cache)
    requires cache.Bounded()
    ensures var (r, _, after) := StoreArtifact(q, letters, s, cache);
            && r.status in {200, 400, 403, 409}
            && after == if r.status in {200, 409} then Probe.MarkPresent(cache, q.hash, q.clock, q.instant, SWEEPING) else cache
  {
    var s1 := Serve(s, Head(q.hash)).0;
    var p := Drive(Start(q.hash, q.body, MULTIPART_PART_SIZE), s1, MULTIPART_PART_SIZE).0;
    AfterStoreCache(q, if p.stage.Finished? then p.stage.result else Err(OperationFailed), p.taken, cache);
  }

  /** A PUT is refused by the gate, or is what `store_artifact` makes of it. */
  lemma StepPut(c: Config, letters: set<char>, v: Visit, st: ServerState)
    requires st.cache.Bounded() && v.request.verb == PUT
    ensures var (reply, after) := Step(c, letters, v, st);
            var (r, s', cache') := StoreArtifact(v.request, letters, Backend(st.bucket, v.script, []), st.cache);
            (reply.status in {401, 403} && after == st) || (reply == r && after == ServerState(s'.bucket, cache'))
  {
  }

  lemma PutStepHonest(c: Config, letters: set<char>, v: Visit, st: ServerState)
    requires Honest(st) && v.request.verb == PUT
    ensures Honest(Step(c, letters, v, st).1)
  {
    var s, q := Backend(st.bucket, v.script, []), v.request;
    var (r, s', cache') := StoreArtifact(q, letters, s, st.cache);
    StepPut(c, letters, v, st);
    StepFresh(c, letters, v, st);
    PutMeaning(q, letters, s, st.cache);
    PutCache(q, letters, s, st.cache);
    if r.status in {200, 409} && s'.bucket.FreshIds() {
      MarkHonest(st, q.hash, q.clock, q.instant, s'.bucket);
    }
  }

  /** Only a PUT seeds the cache and only a read looks into it. */
  lemma StepCache(c: Config, letters: set<char>, v: Visit, st: ServerState)
    requires st.cache.Bounded()
    ensures var s, q := Backend(st.bucket, v.script, []), v.request;
            Step(c, letters, v, st).1.cache in
              {st.cache, if q.verb == PUT then StoreArtifact(q, letters, s, st.cache).2 else Present(q, s, st.cache).2}
    ensures v.request.verb == OTHER ==> Step(c, letters, v, st).1.cache == st.cache
  {
  }

  lemma ReadStepHonest(c: Config, letters: set<char>, v: Visit, st: ServerState)
    requires Honest(st) && v.request.verb != PUT && Truthful(v.request, st)
    ensures Honest(Step(c, letters, v, st).1)
  {
    var s := Backend(st.bucket, v.script, []);
    OtherMethodsLeaveBucket(c, letters, v, st);
    StepCache(c, letters, v, st);
    if v.request.verb != OTHER {
      PresentHonest(v.request, s, st);
    }
  }

  lemma StepHonest(c: Config, letters: set<char>, v: Visit, st: ServerState)
    requires Honest(st) && Truthful(v.request, st)
    ensures Honest(Step(c, letters, v, st).1)
  {
    if v.request.verb == PUT {
      PutStepHonest(c, letters, v, st);
    } else {
      ReadStepHonest(c, letters, v, st);
    }
  }

  /**
   The handlers seed the cache only for keys that are in S3, so over every sequence of requests, from whatever is
   being probed at its start, a read the cache calls present is a miss only if its own GetObject failed.
   */
  lemma {:induction false} CachedPresenceHolds(c: Config, letters: set<char>, visits: seq<Visit>, st: ServerState, get: Visit)
    requires Honest(st) && AllTruthful(c, letters, visits, st)
    requires var q := get.request;
             q.verb in {GET, HEAD} && ValidHash(q.hash, letters) && Authorize(c, q.authorization, q.verb) == Pass
    ensures var last := After(c, letters, visits, st);
            Honest(last) &&
            (CachedPresent(last.cache, get.request.hash, get.request.clock) && FirstCallServed(get) ==>
               Step(c, letters, get, last).0.status == 200)
  {
    if visits != [] {
      StepHonest(c, letters, visits[0], st);
      CachedPresenceHolds(c, letters, visits[1..], Step(c, letters, visits[0], st).1, get);
    }
  }

  // ---------- round trip ----------

  /** The table does not lead to a claim that `key` is missing, nor to a probe that may still make one. */
  predicate Unrefuted(cache: Probe.Cache, key: Key) {
    && cache.Keyed()
    && (key in cache.table ==>
          var cell := cache.slots[cache.table[key]].cell;
          !Staleness.CachesAbsence(cell) && !cell.Running?)
  }

  /** The object is there, and the cache does not deny it. */
  predicate Readable(st: ServerState, key: Key, data: Bytes) {
    && st.cache.Bounded() && st.bucket.FreshIds() && Unrefuted(st.cache, key)
    && key in st.bucket.objects && st.bucket.objects[key] == data
  }

  /**
   Keys are content addresses: a whole body sent under `key` is `data`. It need not be if S3 answers the
   existence check, because the store is then not reached.
   */
  predicate SameContent(v: Visit, key: Key, data: Bytes) {
    v.request.verb == PUT && v.request.hash == key && Clean(v.request.body) && !FirstCallServed(v) ==>
      Payload(v.request.body) == data
  }

  /** What a lookup followed by a probe leaves in the table, if the probe cannot see the key missing. */
  lemma PresentReadable(q: HttpRequest, s: Backend, cache: Probe.Cache, key: Key)
    requires Unrefuted(cache, key) && key in s.bucket.objects
    ensures Unrefuted(Present(q, s, cache).2, key)
  {
    PresentCache(q, s, cache);
    FindKeyed(cache, q.hash, q.clock);
    var (found, id) := Probe.Find(cache, q.hash, q.clock, SWEEPING);
    assert forall i :: 0 <= i < |cache.slots| ==> found.slots[i] == cache.slots[i];
    assert Unrefuted(found, key);
  }

  lemma MarkReadable(cache: Probe.Cache, hash: Key, clock: Time, instant: Time, key: Key)
    requires cache.Keyed() && (key != hash ==> Unrefuted(cache, key))
    ensures Unrefuted(Probe.MarkPresent(cache, hash, clock, instant, SWEEPING), key)
  {
  }

  lemma StepCacheReadable(c: Config, letters: set<char>, v: Visit, st: ServerState, key: Key, data: Bytes)
    requires Readable(st, key, data)
    ensures Unrefuted(Step(c, letters, v, st).1.cache, key)
  {
    var s, q := Backend(st.bucket, v.script, []), v.request;
    StepCache(c, letters, v, st);
    if q.verb == PUT {
      PutCache(q, letters, s, st.cache);
      MarkReadable(st.cache, q.hash, q.clock, q.instant, key);
    } else {
      PresentReadable(q, s, st.cache, key);
    }
  }

  /** A key that is there is not written again by a PUT whose existence check is answered. */
  lemma ConflictKeepsObjects(c: Config, letters: set<char>, v: Visit, st: ServerState)
    requires st.cache.Bounded() && v.request.verb == PUT && v.request.hash in st.bucket.objects && FirstCallServed(v)
    ensures Step(c, letters, v, st).1.bucket.objects == st.bucket.objects
  {
    HeadKeepsBucket(Backend(st.bucket, v.script, []), v.request.hash);
  }

  lemma StepReadable(c: Config, letters: set<char>, v: Visit, st: ServerState, key: Key, data: Bytes)
    requires Readable(st, key, data) && SameContent(v, key, data)
    ensures Readable(Step(c, letters, v, st).1, key, data)
  {
    StepFresh(c, letters, v, st);
    StepObjects(c, letters, v, st);
    if v.request.verb == PUT && v.request.hash == key && FirstCallServed(v) {
      ConflictKeepsObjects(c, letters, v, st);
    }
    StepCacheReadable(c, letters, v, st, key, data);
  }

  lemma {:induction false} AfterReadable(c: Config, letters: set<char>, visits: seq<Visit>, st: ServerState, key: Key, data: Bytes)
    requires Readable(st, key, data)
    requires forall i :: 0 <= i < |visits| ==> SameContent(visits[i], key, data)
    ensures Readable(After(c, letters, visits, st), key, data)
  {
    if visits != [] {
      StepReadable(c, letters, visits[0], st, key, data);
      AfterReadable(c, letters, visits[1..], Step(c, letters, visits[0], st).1, key, data);
    }
  }

  lemma PutMakesReadable(c: Config, letters: set<char>, put: Visit, st: ServerState)
    requires st.cache.Bounded() && st.bucket.FreshIds() && st.cache.Keyed()
    requires put.request.verb == PUT && Step(c, letters, put, st).0.status == 200
    ensures Readable(Step(c, letters, put, st).1, put.request.hash, Payload(put.request.body))
  {
    var q, s := put.request, Backend(st.bucket, put.script, []);
    StepFresh(c, letters, put, st);
    StepPut(c, letters, put, st);
    PutMeaning(q, letters, s, st.cache);
    PutCache(q, letters, s, st.cache);
    MarkReadable(st.cache, q.hash, q.clock, q.instant, q.hash);
  }

  lemma GetReadable(c: Config, letters: set<char>, get: Visit, st: ServerState, data: Bytes)
    requires Readable(st, get.request.hash, data) && ValidHash(get.request.hash, letters)
    requires get.request.verb in {GET, HEAD} && Authorize(c, get.request.authorization, get.request.verb) == Pass
    requires AllServed(get.script) && 2 <= |get.script|
    ensures Step(c, letters, get, st).0.status == 200 && Step(c, letters, get, st).0.content == Some(data)
  {
    var s := Backend(st.bucket, get.script, []);
    GetWithHealthyStorage(get.request, letters, s, st.cache);
    GetMeaning(get.request, letters, s, st.cache);
  }

  lemma StoredHashValid(c: Config, letters: set<char>, put: Visit, st: ServerState)
    requires st.cache.Bounded() && put.request.verb == PUT && Step(c, letters, put, st).0.status == 200
    ensures ValidHash(put.request.hash, letters)
  {
  }

  /**
   The round trip: after a PUT answered 200, and whatever requests and storage failures come next, an authorised
   read that S3 serves is answered 200 with the bytes of that PUT, provided later bodies under the key agree.
   */
  lemma RoundTrip(c: Config, letters: set<char>, put: Visit, between: seq<Visit>, get: Visit, st: ServerState)
    requires st.cache.Bounded() && st.bucket.FreshIds() && st.cache.Keyed()
    requires put.request.verb == PUT && Step(c, letters, put, st).0.status == 200
    requires forall i :: 0 <= i < |between| ==> SameContent(between[i], put.request.hash, Payload(put.request.body))
    requires get.request.verb in {GET, HEAD} && get.request.hash == put.request.hash
    requires Authorize(c, get.request.authorization, get.request.verb) == Pass
    requires AllServed(get.script) && 2 <= |get.script|
    ensures var reply := Step(c, letters, get, After(c, letters, between, Step(c, letters, put, st).1)).0;
            reply.status == 200 && reply.content == Some(Payload(put.request.body))
  {
    var key, data := put.request.hash, Payload(put.request.body);
    var stored := Step(c, letters, put, st).1;
    PutMakesReadable(c, letters, put, st);
    StoredHashValid(c, letters, put, st);
    AfterReadable(c, letters, between, stored, key, data);
    GetReadable(c, letters, get, After(c, letters, between, stored), data);
  }
}
