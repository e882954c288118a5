/**
 What each request is answered and which calls it makes of S3, told by the request, by S3 and by what the probe
 cache's table leads to.
 */
module Answers {
  import opened Common
  import opened ObjectStore
  import opened StoreProcess
  import opened StoreArithmetic
  import opened StoreLifecycle
  import opened Gate
  import opened Handlers
  import opened Pipeline
  import Probe = ProbeMachine
  import Staleness = ProbeStaleness

  /** The answer to the `n`th call from here gets through; HeadObject and GetObject carry no id or tag to leave out. */
  predicate Heard(script: seq<Outcome>, n: nat) {
    OutcomeAt(script, n).Served? || OutcomeAt(script, n).Blank?
  }

  function Later(script: seq<Outcome>): seq<Outcome> {
    if script == [] then [] else script[1..]
  }

  function HeadCall(b: Bucket, key: Key, heard: bool): Call {
    Call(Head(key), if !heard then Failed else if key in b.objects then Found else Missing)
  }

  function GetCall(b: Bucket, key: Key, heard: bool): Call {
    Call(Get(key), if !heard then Failed else if key in b.objects then Object(b.objects[key]) else Missing)
  }

  lemma HeadAnswer(s: Backend, key: Key)
    ensures var call := HeadCall(s.bucket, key, Heard(s.script, 0));
            Serve(s, Head(key)) == (Backend(s.bucket, Later(s.script), s.log + [call]), call.response)
  {
  }

  lemma GetAnswer(s: Backend, key: Key)
    ensures var call := GetCall(s.bucket, key, Heard(s.script, 0));
            Serve(s, Get(key)) == (Backend(s.bucket, Later(s.script), s.log + [call]), call.response)
  {
  }

  // ---------- the gate ----------

  /** What the two tokens open, from the header to the answer. */
  lemma RepliesByToken(c: Config, letters: set<char>, q: HttpRequest, s: Backend, cache: Probe.Cache)
    requires cache.Bounded()
    ensures var service := q.authorization == Some("Bearer " + c.serviceToken);
            var readOnly := c.readOnlyToken.Some? && q.authorization == Some("Bearer " + c.readOnlyToken.value);
            var (r, s', after) := Handle(c, letters, q, s, cache);
            && (r.status == 401 <==> !service && !readOnly)
            && (r.status == 401 ==> r == Reply(401, None, 0, false) && s' == s && after == cache)
            && (!service && readOnly && q.verb !in {GET, HEAD} ==>
                  r.status == 403 && s' == s && after == cache && r.content == None)
            && (service && q.verb == OTHER ==> r == Reply(405, None, 0, false) && s' == s && after == cache)
            && (service && q.verb == PUT ==> (r, s', after) == StoreArtifact(q, letters, s, cache))
            && ((service || readOnly) && q.verb in {GET, HEAD} ==> (r, s', after) == RetrieveArtifact(q, letters, s, cache))
  {
    VerdictExact(c, q.authorization, q.verb);
    if q.verb == PUT {
      PutCache(q, letters, s, cache);
    } else if q.verb in {GET, HEAD} {
      GetMeaning(q, letters, s, cache);
    }
  }

  // ---------- reads ----------

  /** What a lookup comes to know without a call: the value of the live slot, or what the probe it joins finds. */
  function Known(q: HttpRequest, cache: Probe.Cache): Option<bool>
    requires cache.Bounded()
  {
    if !cache.Hit(q.hash, q.clock) then None
    else
      match cache.slots[cache.table[q.hash]].cell
      case Resolved(sight) => Some(sight.present)
      case Running(_) => if q.joined.Some? then Some(q.joined.value.present) else None
      case Unset => None
  }

  /** A lookup that comes to know something makes no call, and changes no slot but that of the probe it joins. */
  lemma ReadReuses(q: HttpRequest, s: Backend, cache: Probe.Cache)
    requires cache.Bounded() && Known(q, cache).Some?
    ensures var (answer, s', after) := Present(q, s, cache);
            var id := cache.table[q.hash];
            && answer == Probe.Ok(Known(q, cache).value) && s' == s
            && after.table == cache.table
            && after.slots == if cache.slots[id].cell.Resolved? then cache.slots
                              else cache.slots[id := cache.slots[id].(cell := Probe.Resolved(q.joined.value))]
  {
  }

  /**
   Otherwise it asks S3, once. If it hears from S3, the slot that the table leads to, an old one or a new one of the
   lookup's own reading, now has the value S3 gave, be it there or missing, and so has the caller; if not, the slot is
   without a value, and the caller has an error.
   */
  lemma ReadProbes(q: HttpRequest, s: Backend, cache: Probe.Cache)
    requires cache.Bounded() && Known(q, cache).None?
    ensures var (answer, s', after) := Present(q, s, cache);
            var there, heard := q.hash in s.bucket.objects, Heard(s.script, 0);
            && answer == (if heard then Probe.Ok(there) else Probe.Err)
            && s' == Backend(s.bucket, Later(s.script), s.log + [HeadCall(s.bucket, q.hash, heard)])
            && q.hash in after.table
            && var slot := after.slots[after.table[q.hash]];
            && slot.created == (if cache.Hit(q.hash, q.clock) then cache.slots[cache.table[q.hash]].created else q.clock)
            && slot.cell == (if heard then Probe.Resolved(Probe.Sight(there, q.instant)) else Probe.Unset)
  {
    HeadAnswer(s, q.hash);
  }

  /**
   A read, whole. It asks whether the key is there only if the lookup does not tell, gets the object only if the key is
   said to be there, and whatever keeps it from the object is a miss.
   */
  lemma ReadExact(q: HttpRequest, letters: set<char>, s: Backend, cache: Probe.Cache)
    requires cache.Bounded()
    ensures var (r, s', after) := RetrieveArtifact(q, letters, s, cache);
            if !ValidHash(q.hash, letters) then
              r == Reply(400, None, 0, false) && s' == s && after == cache
            else
              var known, objects := Known(q, cache), s.bucket.objects;
              var asked := if known.None? then [HeadCall(s.bucket, q.hash, Heard(s.script, 0))] else [];
              var there := if known.Some? then known.value else Heard(s.script, 0) && q.hash in objects;
              var heard := Heard(s.script, |asked|);
              && s'.bucket == s.bucket && after == Present(q, s, cache).2
              && s'.log == s.log + asked + (if there then [GetCall(s.bucket, q.hash, heard)] else [])
              && r == if there && heard && q.hash in objects then Reply(200, Some(objects[q.hash]), 0, false)
                      else Reply(404, None, 0, false)
  {
    if Known(q, cache).Some? {
      ReadReuses(q, s, cache);
    } else {
      ReadProbes(q, s, cache);
    }
    GetAnswer(Present(q, s, cache).1, q.hash);
  }

  /** How long a table entry with a value tells a read: 60 s if it says present, 5 s if it says missing. */
  lemma EntryKnown(q: HttpRequest, cache: Probe.Cache)
    requires cache.Bounded() && q.hash in cache.table && cache.slots[cache.table[q.hash]].cell.Resolved?
    ensures var slot := cache.slots[cache.table[q.hash]];
            var present := slot.cell.sight.present;
            Known(q, cache) == if q.clock < slot.created + (if present then 60 else 5) * SECOND then Some(present) else None
  {
    Staleness.LifetimesExact(cache.slots[cache.table[q.hash]], q.clock);
  }

  /** What a read of a key costs in calls, and is answered, while the table says `present`, and afterwards. */
  predicate Remembers(present: bool, until: Time, q: HttpRequest, letters: set<char>, s: Backend, cache: Probe.Cache)
    requires cache.Bounded()
  {
    var (r, s', after) := RetrieveArtifact(q, letters, s, cache);
    if q.clock >= until then s.log + [HeadCall(s.bucket, q.hash, Heard(s.script, 0))] <= s'.log
    else if present then after == cache && s'.log == s.log + [GetCall(s.bucket, q.hash, Heard(s.script, 0))]
    else after == cache && s' == s && r.status == 404
  }

  lemma EntryRemembers(q: HttpRequest, letters: set<char>, s: Backend, cache: Probe.Cache)
    requires cache.Bounded() && q.hash in cache.table && cache.slots[cache.table[q.hash]].cell.Resolved?
    requires ValidHash(q.hash, letters)
    ensures var slot := cache.slots[cache.table[q.hash]];
            var present := slot.cell.sight.present;
            Remembers(present, slot.created + (if present then 60 else 5) * SECOND, q, letters, s, cache)
  {
    EntryKnown(q, cache);
    ReadExact(q, letters, s, cache);
    if Known(q, cache).Some? {
      ReadReuses(q, s, cache);
      var after := Present(q, s, cache).2;
      assert after == cache;
    }
  }

  /**
   What S3 told a read is remembered: whatever has become of S3 by then, the next read of the key sends no HeadObject for
   60 s after the first one's reading if the key was there, and for 5 s if it was missing, being a miss without any call;
   from then on S3 is asked again.
   */
  lemma AnswerRemembered(first: HttpRequest, next: HttpRequest, letters: set<char>, s: Backend, t: Backend, cache: Probe.Cache)
    requires cache.Bounded() && ValidHash(first.hash, letters) && next.hash == first.hash
    requires !cache.Hit(first.hash, first.clock) && Heard(s.script, 0)
    ensures var there := first.hash in s.bucket.objects;
            Remembers(there, first.clock + (if there then 60 else 5) * SECOND, next, letters, t,
                      RetrieveArtifact(first, letters, s, cache).2)
  {
    ReadProbes(first, s, cache);
    ReadExact(first, letters, s, cache);
    EntryRemembers(next, letters, t, Present(first, s, cache).2);
  }

  // ---------- writes ----------

  /**
   A PUT, whole. Only a check that found the key keeps it from the store; one that failed does not. What the store
   returned decides the answer.
   */
  lemma PutExact(q: HttpRequest, letters: set<char>, s: Backend, cache: Probe.Cache)
    requires cache.Bounded()
    ensures var (r, s', after) := StoreArtifact(q, letters, s, cache);
            if !ValidHash(q.hash, letters) then
              r.status == 400 && r.content == None && s' == s && after == cache
            else
              var heard := Heard(s.script, 0);
              var s1 := Backend(s.bucket, Later(s.script), s.log + [HeadCall(s.bucket, q.hash, heard)]);
              if heard && q.hash in s.bucket.objects then
                && r.status == 409 && r.content == None && s' == s1
                && after == Probe.MarkPresent(cache, q.hash, q.clock, q.instant, SWEEPING)
              else
                var (p, s2) := Drive(Start(q.hash, q.body, MULTIPART_PART_SIZE), s1, MULTIPART_PART_SIZE);
                && s' == s2 && p.stage.Finished?
                && r.status == (match p.stage.result case Ok => 200 case Err(ClientAbort) => 400 case Err(_) => 403)
                && r.content == (if p.stage.result == Ok then Some([]) else None)
                && after == if p.stage.result == Ok then Probe.MarkPresent(cache, q.hash, q.clock, q.instant, SWEEPING)
                            else cache
  {
    HeadAnswer(s, q.hash);
    if ValidHash(q.hash, letters) {
      DriveReads(q.hash, q.body, Serve(s, Head(q.hash)).0);
    }
  }

  /**
   A check that failed, whether or not S3 carried it out, is taken as "not there": with S3 back, the body is stored, over
   what may be there already.
   */
  lemma PutWhenCheckFails(q: HttpRequest, letters: set<char>, s: Backend, cache: Probe.Cache)
    requires cache.Bounded() && s.bucket.FreshIds() && ValidHash(q.hash, letters)
    requires |q.body| + 4 <= |s.script| && (s.script[0].Refused? || s.script[0].Lost?) && AllServed(s.script[1..])
    ensures var (r, s', after) := StoreArtifact(q, letters, s, cache);
            if Clean(q.body) then r.status == 200 && s'.bucket.objects == s.bucket.objects[q.hash := Payload(q.body)]
            else r.status == 400 && s'.bucket.objects == s.bucket.objects && after == cache
  {
    PutExact(q, letters, s, cache);
    PutMeaning(q, letters, s, cache);
    StoreSucceeds(q.hash, q.body, Serve(s, Head(q.hash)).0);
  }

  /** With S3 gone a PUT is declined, or a 400 if the client is gone too, and the cache learns nothing. */
  lemma PutWithoutStorage(q: HttpRequest, letters: set<char>, s: Backend, cache: Probe.Cache)
    requires cache.Bounded() && ValidHash(q.hash, letters) && s.script == []
    ensures var (r, s', after) := StoreArtifact(q, letters, s, cache);
            && s'.bucket == s.bucket && after == cache
            && r.status == if Clean(q.body) || |Payload(Lead(q.body))| >= 8 * 1024 * 1024 then 403 else 400
  {
    PutExact(q, letters, s, cache);
    StoreWithoutStorage(q.hash, q.body, Serve(s, Head(q.hash)).0);
  }

  /** After a PUT that was answered 200 or 409 the next read of the key, for 60 s, is a GetObject and no HeadObject. */
  lemma SeedRemembered(put: HttpRequest, next: HttpRequest, letters: set<char>, s: Backend, t: Backend, cache: Probe.Cache)
    requires cache.Bounded() && next.hash == put.hash && StoreArtifact(put, letters, s, cache).0.status in {200, 409}
    ensures Remembers(true, put.clock + 60 * SECOND, next, letters, t, StoreArtifact(put, letters, s, cache).2)
  {
    PutExact(put, letters, s, cache);
    EntryRemembers(next, letters, t, StoreArtifact(put, letters, s, cache).2);
  }
}
