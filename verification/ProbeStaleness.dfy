/**
 Bounded staleness: the cache as a refinement of an uncached HeadObject that may answer late.

 A `false` handed to a caller is never invented: S3 really lacked the key at some instant of the run, and
 that instant is not older than the time-to-live of what the caller joined. S3 may change arbitrarily.
 */
module ProbeStaleness {
  import opened Common
  import opened ProbeMachine
  import opened ProbeInvariants

  // ---------- sights are true ----------

  /** The run has an instant, up to state `i`, at which the sight was what S3 held. */
  ghost predicate Witnessed(r: Run, i: nat, key: Key, sight: Sight)
    requires i < |r.states|
  {
    exists o :: 0 <= o <= i && r.states[o].now == sight.at && (key in r.states[o].objects <==> sight.present)
  }

  predicate CachesAbsence(cell: Cell) {
    cell.Resolved? && !cell.sight.present
  }

  /** Everything seen by a running attempt is witnessed, and so is every cached absence. */
  ghost predicate SightsTrue(r: Run, i: nat)
    requires i < |r.states|
  {
    var s := r.states[i];
    && (forall c :: c in s.callers && s.callers[c].phase.Probing? && s.callers[c].phase.seen.Some? ==>
          Witnessed(r, i, s.cache.slots[s.callers[c].slot].key, s.callers[c].phase.seen.value))
    && (forall id :: 0 <= id < |s.cache.slots| && CachesAbsence(s.cache.slots[id].cell) ==>
          Witnessed(r, i, s.cache.slots[id].key, s.cache.slots[id].cell.sight))
  }

  lemma WitnessedLater(r: Run, i: nat, key: Key, sight: Sight)
    requires i + 1 < |r.states| && Witnessed(r, i, key, sight)
    ensures Witnessed(r, i + 1, key, sight)
  {
    var o :| 0 <= o <= i && r.states[o].now == sight.at && (key in r.states[o].objects <==> sight.present);
    assert o <= i + 1;
  }

  lemma SightsTrueAt(r: Run, limit: Option<nat>, i: nat)
    requires r.Valid(limit) && i < |r.steps| && SightsTrue(r, i)
    ensures SightsTrue(r, i + 1)
  {
    var s, step, s' := r.states[i], r.steps[i], r.states[i + 1];
    assert Next(s, step, s', limit);
    forall key, sight | Witnessed(r, i, key, sight)
      ensures Witnessed(r, i + 1, key, sight)
    {
      WitnessedLater(r, i, key, sight);
    }
    if step.Observe? {
      var key := s.cache.slots[s.callers[step.caller].slot].key;
      assert Witnessed(r, i, key, Sight(key in s.objects, s.now));
    }
  }

  lemma {:induction false} RunSightsTrue(r: Run, limit: Option<nat>, i: nat)
    requires r.Valid(limit) && i <= |r.steps|
    ensures SightsTrue(r, i)
  {
    if i > 0 {
      RunSightsTrue(r, limit, i - 1);
      SightsTrueAt(r, limit, i - 1);
    }
  }

  // ---------- a slot that starts fresh resolves fresh ----------

  /** An absence the slot's cell holds, or the attempt running on it has seen, is not older than `bound`. */
  ghost predicate Fresh(s: State, id: SlotId, bound: int)
    requires id < |s.cache.slots|
  {
    var cell := s.cache.slots[id].cell;
    && (CachesAbsence(cell) ==> cell.sight.at >= bound)
    && (cell.Running? && s.In(cell.owner, false) && s.callers[cell.owner].phase.seen.Some? ==>
          var sight := s.callers[cell.owner].phase.seen.value;
          sight.present || sight.at >= bound)
  }

  lemma FreshStep(s: State, step: Step, s': State, limit: Option<nat>, id: SlotId, bound: int)
    requires RunnersMatch(s) && Next(s, step, s', limit)
    requires id < |s.cache.slots| && bound <= s.now && Fresh(s, id, bound)
    ensures id < |s'.cache.slots| && Fresh(s', id, bound)
  {
  }

  lemma FreshAt(r: Run, limit: Option<nat>, i: nat, id: SlotId, bound: int)
    requires r.Valid(limit) && i < |r.steps|
    requires id < |r.states[i].cache.slots| && bound <= r.states[i].now && Fresh(r.states[i], id, bound)
    ensures id < |r.states[i + 1].cache.slots| && Fresh(r.states[i + 1], id, bound)
    ensures bound <= r.states[i + 1].now
  {
    RunConsistent(r, limit, i);
    FreshStep(r.states[i], r.steps[i], r.states[i + 1], limit, id, bound);
    GrowsStep(r.states[i], r.steps[i], r.states[i + 1], limit);
  }

  lemma {:induction false} RunFresh(r: Run, limit: Option<nat>, i: nat, n: nat, id: SlotId, bound: int)
    requires r.Valid(limit) && i <= n <= |r.steps|
    requires id < |r.states[i].cache.slots| && bound <= r.states[i].now && Fresh(r.states[i], id, bound)
    ensures id < |r.states[n].cache.slots| && Fresh(r.states[n], id, bound)
    decreases n - i
  {
    if i < n {
      FreshAt(r, limit, i, id, bound);
      RunFresh(r, limit, i + 1, n, id, bound);
    }
  }

  // ---------- what a lookup and a seed do ----------

  /** An absence lives for 5 s, a presence for 60 s, and a slot without a value for 60 s. */
  lemma LifetimesExact(slot: Slot, clock: Time)
    ensures Live(slot, clock) <==> clock < slot.created + if CachesAbsence(slot.cell) then 5 * SECOND else 60 * SECOND
  {
  }

  /** `table'` has the other entries of `c`, but for those a table of more than `limit` entries loses by being swept. */
  ghost predicate OthersKept(c: Cache, table': map<Key, SlotId>, key: Key, clock: Time, limit: Option<nat>)
    requires c.Bounded()
  {
    && (forall k :: k in table' && k != key ==> k in c.table && table'[k] == c.table[k])
    && forall k :: k in c.table && k != key ==>
         (k in table' <==>
            || limit.None? || |c.table| <= limit.value
            || var slot := c.slots[c.table[k]];
               clock < slot.created + if CachesAbsence(slot.cell) then 5 * SECOND else 60 * SECOND)
  }

  /**
   A lookup shares the slot of the table's entry exactly while that lives at the lookup's reading; otherwise it
   gets a new one, without a value and made at that reading, to which the table now leads.
   */
  lemma LookupExact(s: State, c: CallerId, key: Key, clock: Time, s': State, limit: Option<nat>)
    requires Next(s, Lookup(c, key, clock), s', limit)
    ensures c in s'.callers && s'.callers[c].phase == Waiting && s'.now == s.now && s'.objects == s.objects
    ensures key in s'.cache.table && s'.callers[c].slot == s'.cache.table[key]
    ensures if key in s.cache.table &&
               var slot := s.cache.slots[s.cache.table[key]];
               clock < slot.created + if CachesAbsence(slot.cell) then 5 * SECOND else 60 * SECOND
            then s'.cache == s.cache
            else
              && s'.cache.slots == s.cache.slots + [Slot(key, clock, Unset)] && s'.cache.table[key] == |s.cache.slots|
              && OthersKept(s.cache, s'.cache.table, key, clock, limit)
  {
    if key in s.cache.table {
      LifetimesExact(s.cache.slots[s.cache.table[key]], clock);
    }
  }

  /** A seed makes a new slot that says present, whatever the table led to, and leaves the other slots alone. */
  lemma SeedExact(s: State, key: Key, clock: Time, s': State, limit: Option<nat>)
    requires Next(s, Mark(key, clock), s', limit)
    ensures s'.cache.slots == s.cache.slots + [Slot(key, clock, Resolved(Sight(true, s.now)))]
    ensures key in s'.cache.table && s'.cache.table[key] == |s.cache.slots|
    ensures OthersKept(s.cache, s'.cache.table, key, clock, limit)
    ensures s'.callers == s.callers && s'.now == s.now && s'.objects == s.objects
  {
  }

  /** The cell that `c` holds has a value, and `c` waits for its turn, has it, or is gone. */
  ghost predicate Served(s: State, c: CallerId) {
    && c in s.callers && CellOf(s, c).Resolved?
    && s.callers[c].phase in {Waiting, Gone, Answered(Ok(CellOf(s, c).sight.present))}
  }

  lemma ServedAt(r: Run, limit: Option<nat>, i: nat, c: CallerId)
    requires r.Valid(limit) && i < |r.steps| && Served(r.states[i], c)
    ensures Served(r.states[i + 1], c) && CellOf(r.states[i + 1], c) == CellOf(r.states[i], c)
  {
    RunConsistent(r, limit, i);
    GrowsStep(r.states[i], r.steps[i], r.states[i + 1], limit);
    assert Next(r.states[i], r.steps[i], r.states[i + 1], limit);
  }

  lemma {:induction false} RunServed(r: Run, limit: Option<nat>, i: nat, n: nat, c: CallerId)
    requires r.Valid(limit) && i <= n <= |r.steps| && Served(r.states[i], c)
    ensures Served(r.states[n], c) && CellOf(r.states[n], c) == CellOf(r.states[i], c)
    decreases n
  {
    if i < n {
      RunServed(r, limit, i, n - 1, c);
      ServedAt(r, limit, n - 1, c);
    }
  }

  /**
   A hit on a slot that says present: the call never runs its closure, and if it is answered it is answered true,
   for a sight less than 60 s older than its reading.
   */
  lemma PresentHitBound(r: Run, limit: Option<nat>, j: nat, n: nat, c: CallerId, key: Key, clock: Time)
    requires r.Valid(limit) && j < n <= |r.steps| && r.steps[j] == Lookup(c, key, clock)
    requires r.states[j].cache.Hit(key, clock)
    requires var cell := r.states[j].cache.slots[r.states[j].cache.table[key]].cell; cell.Resolved? && cell.sight.present
    ensures c in r.states[n].callers && r.states[n].callers[c].phase in {Waiting, Gone, Answered(Ok(true))}
    ensures CellOf(r.states[n], c).Resolved? && CellOf(r.states[n], c).sight.at > clock - 60 * SECOND
  {
    assert Next(r.states[j], r.steps[j], r.states[j + 1], limit);
    RunConsistent(r, limit, j);
    LifetimesExact(r.states[j].cache.slots[r.states[j].cache.table[key]], clock);
    RunServed(r, limit, j + 1, n, c);
  }

  // ---------- the staleness bound ----------

  predicate AnsweredFalse(s: State, c: CallerId) {
    c in s.callers && s.callers[c].phase == Answered(Ok(false))
  }

  /** Step `j` is a lookup of `key` by `c`, and by state `n` that call has answered Ok(false). */
  ghost predicate MissAt(r: Run, j: nat, n: nat, c: CallerId, key: Key, clock: Time) {
    && j < n < |r.states| && j < |r.steps|
    && r.steps[j] == Lookup(c, key, clock)
    && AnsweredFalse(r.states[n], c)
  }

  /** S3 lacked `key` at an instant of the run, up to state `n`, not before `since`. */
  ghost predicate LackedSince(r: Run, n: nat, key: Key, since: int) {
    exists o :: 0 <= o <= n && o < |r.states| && r.states[o].now >= since && key !in r.states[o].objects
  }

  lemma MissFromFreshSlot(r: Run, limit: Option<nat>, j: nat, n: nat, c: CallerId, key: Key, clock: Time, bound: int)
    requires r.Valid(limit) && MissAt(r, j, n, c, key, clock)
    requires c in r.states[j + 1].callers && bound <= r.states[j + 1].now
    requires Fresh(r.states[j + 1], r.states[j + 1].callers[c].slot, bound)
    ensures LackedSince(r, n, key, bound)
  {
    assert Next(r.states[j], r.steps[j], r.states[j + 1], limit);
    RunConsistent(r, limit, j);
    KeyedStep(r.states[j], r.steps[j], r.states[j + 1], limit);
    var id := r.states[j + 1].callers[c].slot;
    assert r.states[j + 1].cache.slots[id].key == key;
    RunGrows(r, limit, j + 1, n);
    RunFresh(r, limit, j + 1, n, id, bound);
    RunConsistent(r, limit, n);
    RunSightsTrue(r, limit, n);
    var slot := r.states[n].cache.slots[id];
    assert CellOf(r.states[n], c) == slot.cell;
    assert slot.cell.Resolved? && !slot.cell.sight.present;
    assert Witnessed(r, n, key, slot.cell.sight);
    var o :| 0 <= o <= n && r.states[o].now == slot.cell.sight.at && key !in r.states[o].objects;
  }

  /** After a lookup the caller holds a slot whose contents are not older than the slot's clock reading. */
  lemma LookupFresh(r: Run, limit: Option<nat>, j: nat)
    requires r.Valid(limit) && j < |r.steps| && r.steps[j].Lookup?
    ensures var c, s' := r.steps[j].caller, r.states[j + 1];
            && c in s'.callers
            && s'.now == r.states[j].now
            && var slot := s'.cache.slots[s'.callers[c].slot];
            && Live(slot, r.steps[j].clock)
            && slot.created <= s'.now
            && Fresh(s', s'.callers[c].slot, slot.created)
  {
    assert Next(r.states[j], r.steps[j], r.states[j + 1], limit);
    RunConsistent(r, limit, j + 1);
  }

  /**
   The bound that holds in every run: a call that looked up with clock reading `clock` and answered false
   did so for an absence younger than 60 s before that reading.
   */
  lemma StalenessBound(r: Run, limit: Option<nat>, j: nat, n: nat, c: CallerId, key: Key, clock: Time)
    requires r.Valid(limit) && MissAt(r, j, n, c, key, clock)
    ensures LackedSince(r, n, key, clock - 60 * SECOND + 1)
  {
    LookupFresh(r, limit, j);
    var s' := r.states[j + 1];
    var created := s'.cache.slots[s'.callers[c].slot].created;
    MissFromFreshSlot(r, limit, j, n, c, key, clock, created);
    var o :| 0 <= o <= n && o < |r.states| && r.states[o].now >= created && key !in r.states[o].objects;
    assert r.states[o].now >= clock - 60 * SECOND + 1;
  }

  /** A hit on a slot that was already resolved is less than 5 s stale. */
  lemma ResolvedHitBound(r: Run, limit: Option<nat>, j: nat, n: nat, c: CallerId, key: Key, clock: Time)
    requires r.Valid(limit) && MissAt(r, j, n, c, key, clock)
    requires r.states[j].cache.Hit(key, clock)
    requires r.states[j].cache.slots[r.states[j].cache.table[key]].cell.Resolved?
    ensures LackedSince(r, n, key, clock - 5 * SECOND + 1)
  {
    LookupFresh(r, limit, j);
    assert Next(r.states[j], r.steps[j], r.states[j + 1], limit);
    var s' := r.states[j + 1];
    var id := s'.callers[c].slot;
    RunGrows(r, limit, j + 1, n);
    RunConsistent(r, limit, n);
    assert CellOf(r.states[n], c) == s'.cache.slots[id].cell;
    MissFromFreshSlot(r, limit, j, n, c, key, clock, s'.cache.slots[id].created);
    var created := s'.cache.slots[id].created;
    var o :| 0 <= o <= n && o < |r.states| && r.states[o].now >= created && key !in r.states[o].objects;
    assert r.states[o].now >= clock - 5 * SECOND + 1;
  }

  /** No attempt has been running for longer than `longest`. */
  ghost predicate AttemptsWithin(s: State, longest: Time) {
    forall c :: c in s.callers && s.callers[c].phase.Probing? ==> s.now <= s.callers[c].phase.began + longest
  }

  /** With attempts of bounded length the bound is the larger of 5 s and that length. */
  lemma BoundedAttemptsBound(r: Run, limit: Option<nat>, j: nat, n: nat, c: CallerId, key: Key, clock: Time, longest: Time)
    requires r.Valid(limit) && MissAt(r, j, n, c, key, clock)
    requires AttemptsWithin(r.states[j], longest)
    ensures LackedSince(r, n, key, clock - 5 * SECOND + 1) || LackedSince(r, n, key, clock - longest)
  {
    assert Next(r.states[j], r.steps[j], r.states[j + 1], limit);
    var s, s' := r.states[j], r.states[j + 1];
    RunConsistent(r, limit, j);
    if s.cache.Hit(key, clock) && s.cache.slots[s.cache.table[key]].cell.Resolved? {
      ResolvedHitBound(r, limit, j, n, c, key, clock);
    } else {
      assert clock - longest <= s'.now;
      assert Fresh(s', s'.callers[c].slot, clock - longest);
      MissFromFreshSlot(r, limit, j, n, c, key, clock, clock - longest);
    }
  }

  // ---------- when the documented five seconds hold ----------

  ghost predicate Continues(r: Run, r': Run) {
    && |r.steps| <= |r'.steps| && |r.states| <= |r'.states|
    && r'.steps[..|r.steps|] == r.steps
    && r'.states[..|r.states|] == r.states
  }

  /** The lookup made at the end of `r` answers false in `r'` although S3 held the key for the last 5 s. */
  ghost predicate StaleMiss(r: Run, r': Run, limit: Option<nat>, c: CallerId, key: Key, clock: Time) {
    && r'.Valid(limit) && Continues(r, r')
    && MissAt(r', |r.steps|, |r'.steps|, c, key, clock)
    && !LackedSince(r', |r'.steps|, key, clock - 5 * SECOND + 1)
  }

  /** README.md:151: whatever happens next, a false answer to this lookup is less than 5 s stale. */
  ghost predicate FiveSecondPromise(r: Run, limit: Option<nat>, c: CallerId, key: Key, clock: Time) {
    forall r': Run :: !StaleMiss(r, r', limit, c, key, clock)
  }

  /**
   The lookup finds a live slot whose probe is still in flight, that probe has already seen the key
   missing 5 s ago or earlier, and the key has been there ever since.
   */
  ghost predicate JoinsStaleProbe(r: Run, key: Key, clock: Time)
    requires |r.states| > 0
  {
    var s := r.Last();
    && s.cache.Hit(key, clock)
    && var cell := s.cache.slots[s.cache.table[key]].cell;
    && cell.Running? && s.In(cell.owner, false)
    && s.callers[cell.owner].phase.seen.Some?
    && !s.callers[cell.owner].phase.seen.value.present
    && s.callers[cell.owner].phase.seen.value.at <= clock - 5 * SECOND
    && !LackedSince(r, |r.states| - 1, key, clock - 5 * SECOND + 1)
  }

  /** After that lookup `c` waits on the slot on which `owner` is about to say missing. */
  ghost predicate WaitsForAbsence(s: State, c: CallerId, owner: CallerId) {
    && s.In(c, true) && s.In(owner, false) && s.callers[c].slot == s.callers[owner].slot
    && s.callers[owner].phase.seen.Some? && !s.callers[owner].phase.seen.value.present
  }

  lemma JoinStaleProbe(r: Run, limit: Option<nat>, c: CallerId, key: Key, clock: Time) returns (owner: CallerId)
    requires r.Valid(limit) && Enabled(r.Last(), Lookup(c, key, clock))
    requires JoinsStaleProbe(r, key, clock)
    ensures WaitsForAbsence(Apply(r.Last(), Lookup(c, key, clock), limit), c, owner)
  {
    RunConsistent(r, limit, |r.steps|);
    owner := r.Last().cache.slots[r.Last().cache.table[key]].cell.owner;
  }

  lemma SucceedWithAbsence(s: State, limit: Option<nat>, c: CallerId, owner: CallerId)
    requires WaitsForAbsence(s, c, owner)
    ensures Enabled(s, Succeed(owner))
    ensures var s' := Apply(s, Succeed(owner), limit);
            && s'.In(c, true) && CachesAbsence(CellOf(s', c)) && s'.objects == s.objects && Enabled(s', Wake(c))
  {
  }

  /** The probe of `owner` then resolves, and `c`, which joined it, is answered, all at once. */
  lemma JoinAndWake(r: Run, limit: Option<nat>, c: CallerId, key: Key, clock: Time) returns (r': Run)
    requires r.Valid(limit) && Enabled(r.Last(), Lookup(c, key, clock))
    requires JoinsStaleProbe(r, key, clock)
    ensures r'.Valid(limit) && |r'.steps| == |r.steps| + 3 && Continues(r, r')
    ensures r'.steps[|r.steps|] == Lookup(c, key, clock) && AnsweredFalse(r'.Last(), c)
    ensures forall o :: |r.states| <= o < |r'.states| ==> r'.states[o].objects == r.Last().objects
  {
    var owner := JoinStaleProbe(r, limit, c, key, clock);
    var r1 := Extend(r, Lookup(c, key, clock), limit);
    ExtendValid(r, Lookup(c, key, clock), limit);
    SucceedWithAbsence(r1.Last(), limit, c, owner);
    var r2 := Extend(r1, Succeed(owner), limit);
    ExtendValid(r1, Succeed(owner), limit);
    r' := Extend(r2, Wake(c), limit);
    ExtendValid(r2, Wake(c), limit);
  }

  lemma StaleProbeBreaksPromise(r: Run, limit: Option<nat>, c: CallerId, key: Key, clock: Time)
    requires r.Valid(limit) && Enabled(r.Last(), Lookup(c, key, clock))
    requires JoinsStaleProbe(r, key, clock)
    ensures !FiveSecondPromise(r, limit, c, key, clock)
  {
    var r' := JoinAndWake(r, limit, c, key, clock);
    var last, since := |r.states| - 1, clock - 5 * SECOND + 1;
    assert forall o :: 0 <= o < |r.states| ==> r'.states[o] == r.states[o];
    assert r.states[last].now >= since ==> key in r.states[last].objects;
    assert StaleMiss(r, r', limit, c, key, clock);
  }

  lemma LookupWithoutStaleProbe(r: Run, limit: Option<nat>, c: CallerId, key: Key, clock: Time)
    requires r.Valid(limit) && Enabled(r.Last(), Lookup(c, key, clock))
    requires !JoinsStaleProbe(r, key, clock) && !LackedSince(r, |r.steps|, key, clock - 5 * SECOND + 1)
    requires r.Last().cache.Hit(key, clock) ==>
               !r.Last().cache.slots[r.Last().cache.table[key]].cell.Resolved?
    ensures var s' := Apply(r.Last(), Lookup(c, key, clock), limit);
            Fresh(s', s'.callers[c].slot, clock - 5 * SECOND + 1)
  {
    RunConsistent(r, limit, |r.steps|);
  }

  lemma PromiseOtherwise(r: Run, limit: Option<nat>, c: CallerId, key: Key, clock: Time, r': Run)
    requires r.Valid(limit) && Enabled(r.Last(), Lookup(c, key, clock))
    requires !JoinsStaleProbe(r, key, clock)
    ensures !StaleMiss(r, r', limit, c, key, clock)
  {
    if r'.Valid(limit) && Continues(r, r') && MissAt(r', |r.steps|, |r'.steps|, c, key, clock) {
      var j, n, s, bound := |r.steps|, |r'.steps|, r.Last(), clock - 5 * SECOND + 1;
      assert r'.states[j] == s && (forall o :: 0 <= o <= j ==> r'.states[o] == r.states[o]);
      assert Next(s, r'.steps[j], r'.states[j + 1], limit);
      if LackedSince(r, j, key, bound) {
        var o :| 0 <= o <= j && o < |r.states| && r.states[o].now >= bound && key !in r.states[o].objects;
        assert r'.states[o].now >= bound;
      } else if s.cache.Hit(key, clock) && s.cache.slots[s.cache.table[key]].cell.Resolved? {
        ResolvedHitBound(r', limit, j, n, c, key, clock);
      } else {
        LookupWithoutStaleProbe(r, limit, c, key, clock);
        MissFromFreshSlot(r', limit, j, n, c, key, clock, bound);
      }
    }
  }

  /**
   The documented bound holds for a lookup, in every continuation, if and only if the lookup does not
   join a stalled probe that saw the key missing before the window and the key has been there since.
   */
  lemma PromiseExact(r: Run, limit: Option<nat>, c: CallerId, key: Key, clock: Time)
    requires r.Valid(limit) && Enabled(r.Last(), Lookup(c, key, clock))
    ensures FiveSecondPromise(r, limit, c, key, clock) <==> !JoinsStaleProbe(r, key, clock)
  {
    if JoinsStaleProbe(r, key, clock) {
      StaleProbeBreaksPromise(r, limit, c, key, clock);
    } else {
      forall r': Run ensures !StaleMiss(r, r', limit, c, key, clock) {
        PromiseOtherwise(r, limit, c, key, clock, r');
      }
    }
  }

  /** The first lookup on an empty server makes slot 0. */
  lemma FirstLookup(limit: Option<nat>, key: Key) returns (r: Run)
    ensures r.Valid(limit) && |r.steps| == 1
    ensures r.states[0].now == 0
    ensures r.Last() == State(0, {}, Cache(map[key := 0], [Slot(key, 0, Unset)]), map[0 := Caller(0, 0, Waiting)])
  {
    var r0 := Run([State(0, {}, Cache(map[], []), map[])], []);
    r := Extend(r0, Lookup(0, key, 0), limit);
    ExtendValid(r0, Lookup(0, key, 0), limit);
    assert Sweep(Cache(map[], []), 0, limit).table == map[];
  }

  /** Its probe starts at once and sees the key missing. */
  lemma ProbeSeesNothing(limit: Option<nat>, key: Key) returns (r: Run)
    ensures r.Valid(limit) && |r.steps| == 3
    ensures forall o :: 0 <= o < 4 ==> r.states[o].now == 0
    ensures r.Last() == State(0, {}, Cache(map[key := 0], [Slot(key, 0, Running(0))]),
                              map[0 := Caller(0, 0, Probing(0, Some(Sight(false, 0))))])
  {
    var r1 := FirstLookup(limit, key);
    var r2 := Extend(r1, Start(0), limit);
    ExtendValid(r1, Start(0), limit);
    assert r2.Last().cache.slots == [Slot(key, 0, Running(0))];
    r := Extend(r2, Observe(0), limit);
    ExtendValid(r2, Observe(0), limit);
    assert r.states[1] == r1.Last() && r.states[2] == r2.Last();
  }

  /**
   The documented five seconds do not hold in general: a probe that saw the key missing at time 0 and then
   stalled for 30 seconds, within the S3 timeout, still answers a caller that joins it at the end.
   */
  lemma FiveSecondsFail(limit: Option<nat>, key: Key) returns (r: Run)
    ensures r.Valid(limit) && r.Last().now == 30 * SECOND
    ensures AttemptsWithin(r.Last(), 30 * SECOND)
    ensures !FiveSecondPromise(r, limit, 1, key, 30 * SECOND)
  {
    var r3 := ProbeSeesNothing(limit, key);
    var r4 := Extend(r3, Write(key), limit);
    ExtendValid(r3, Write(key), limit);
    r := Extend(r4, Tick(30 * SECOND), limit);
    ExtendValid(r4, Tick(30 * SECOND), limit);
    assert forall o :: 0 <= o < 4 ==> r.states[o] == r3.states[o];
    assert r.states[4].now == 0;
    StaleProbeBreaksPromise(r, limit, 1, key, 30 * SECOND);
  }
}
