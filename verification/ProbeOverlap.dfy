/** When two HeadObjects for one key can be in flight after all: an attempt that outlives its slot. */
module ProbeOverlap {
  import opened Common
  import opened ProbeMachine
  import opened ProbeInvariants
  import opened ProbeStaleness
  import opened ProbeSingleFlight

  // ---------- an attempt can outlive its slot's window ----------

  /** Two attempts for `key` are in flight in the last state, no attempt having run for more than `longest`. */
  ghost predicate Overlap(r: Run, key: Key, longest: Time, c: CallerId, d: CallerId)
    requires |r.states| > 0
  {
    var s := r.Last();
    && c != d && s.In(c, false) && s.In(d, false)
    && s.cache.slots[s.callers[c].slot].key == key
    && s.cache.slots[s.callers[d].slot].key == key
    && forall i :: 0 <= i < |r.states| ==> AttemptsWithin(r.states[i], longest)
  }

  /** Two callers join slot 0 at time 0 and the first starts its probe. */
  lemma JoinedProbe(limit: Option<nat>, key: Key) returns (r: Run)
    ensures r.Valid(limit)
    ensures forall i :: 0 <= i < |r.states| ==> AttemptsWithin(r.states[i], 30 * SECOND)
    ensures forall i :: 0 <= i < |r.steps| && r.steps[i].Locks() ==> r.steps[i].clock == 0
    ensures r.Last() == State(0, {}, Cache(map[key := 0], [Slot(key, 0, Running(0))]),
                              map[0 := Caller(0, 0, Probing(0, None)), 1 := Caller(0, 0, Waiting)])
  {
    var r1 := FirstLookup(limit, key);
    var r2 := Extend(r1, Lookup(1, key, 0), limit);
    ExtendValid(r1, Lookup(1, key, 0), limit);
    r := Extend(r2, Start(0), limit);
    ExtendValid(r2, Start(0), limit);
    assert r.Last().cache.slots == [Slot(key, 0, Running(0))];
  }

  /** The probe of slot 0 runs for 30 seconds and fails while the second caller waits. */
  lemma ProbeFails(limit: Option<nat>, key: Key) returns (r: Run)
    ensures r.Valid(limit)
    ensures forall i :: 0 <= i < |r.states| ==> AttemptsWithin(r.states[i], 30 * SECOND)
    ensures forall i :: 0 <= i < |r.steps| && r.steps[i].Locks() ==> r.steps[i].clock == 0
    ensures r.Last() == State(30 * SECOND, {}, Cache(map[key := 0], [Slot(key, 0, Unset)]),
                              map[0 := Caller(0, 0, Answered(Err)), 1 := Caller(0, 0, Waiting)])
  {
    var r3 := JoinedProbe(limit, key);
    var r4 := Extend(r3, Tick(30 * SECOND), limit);
    ExtendValid(r3, Tick(30 * SECOND), limit);
    r := Extend(r4, Fail(0), limit);
    ExtendValid(r4, Fail(0), limit);
    assert r.Last().cache.slots == [Slot(key, 0, Unset)];
  }

  /** The second caller then retries on the same slot. */
  lemma RetryAfterError(limit: Option<nat>, key: Key) returns (r: Run)
    ensures r.Valid(limit)
    ensures forall i :: 0 <= i < |r.states| ==> AttemptsWithin(r.states[i], 30 * SECOND)
    ensures forall i :: 0 <= i < |r.steps| && r.steps[i].Locks() ==> r.steps[i].clock == 0
    ensures r.Last() == State(30 * SECOND, {}, Cache(map[key := 0], [Slot(key, 0, Running(1))]),
                              map[0 := Caller(0, 0, Answered(Err)), 1 := Caller(0, 0, Probing(30 * SECOND, None))])
  {
    var r5 := ProbeFails(limit, key);
    r := Extend(r5, Start(1), limit);
    ExtendValid(r5, Start(1), limit);
    assert r.Last().cache.slots == [Slot(key, 0, Running(1))];
  }

  lemma ExpiredLookup(limit: Option<nat>, key: Key)
    ensures Find(Cache(map[key := 0], [Slot(key, 0, Running(1))]), key, 60 * SECOND, limit) ==
              (Cache(map[key := 1], [Slot(key, 0, Running(1)), Slot(key, 60 * SECOND, Unset)]), 1)
  {
    var c := Cache(map[key := 0], [Slot(key, 0, Running(1))]);
    assert !c.Hit(key, 60 * SECOND);
    var swept := Sweep(c, 60 * SECOND, limit);
    assert forall k :: k in swept.table ==> k == key;
    assert swept.table[key := |c.slots|] == map[key := 1];
    assert c.slots + [Slot(key, 60 * SECOND, Unset)] == [Slot(key, 0, Running(1)), Slot(key, 60 * SECOND, Unset)];
  }

  /** When the retry has run for 30 seconds a third caller finds the slot expired and gets one of its own. */
  lemma LookupDuringRetry(limit: Option<nat>, key: Key) returns (r: Run)
    ensures r.Valid(limit) && r.ClockOrdered()
    ensures forall i :: 0 <= i < |r.states| ==> AttemptsWithin(r.states[i], 30 * SECOND)
    ensures r.Last() == State(60 * SECOND, {},
                              Cache(map[key := 1], [Slot(key, 0, Running(1)), Slot(key, 60 * SECOND, Unset)]),
                              map[0 := Caller(0, 0, Answered(Err)), 1 := Caller(0, 0, Probing(30 * SECOND, None)),
                                  2 := Caller(1, 60 * SECOND, Waiting)])
  {
    var r6 := RetryAfterError(limit, key);
    var r7 := Extend(r6, Tick(30 * SECOND), limit);
    ExtendValid(r6, Tick(30 * SECOND), limit);
    ExpiredLookup(limit, key);
    r := Extend(r7, Lookup(2, key, 60 * SECOND), limit);
    ExtendValid(r7, Lookup(2, key, 60 * SECOND), limit);
  }

  /**
   `probe_cache.rs:47-49` calls a slot older than UNRESOLVED_TTL garbage because no probe can still be running.
   A retry after an error keeps the slot's creation time, so it can be: with every attempt within the
   30 second S3 timeout, two HeadObjects for one key are in flight at second 60.
   */
  lemma RetryOutlivesWindow(limit: Option<nat>, key: Key) returns (r: Run)
    ensures r.Valid(limit) && r.ClockOrdered() && Overlap(r, key, 30 * SECOND, 1, 2)
  {
    var r8 := LookupDuringRetry(limit, key);
    r := Extend(r8, Start(2), limit);
    ExtendValid(r8, Start(2), limit);
  }

  // ---------- exactly when an attempt can ----------

  /** The attempt that is running in `s` goes on in `s'`, or is over for good. */
  ghost predicate AttemptKept(s: State, s': State, c: CallerId) {
    && c in s.callers && c in s'.callers
    && s'.callers[c].phase != Waiting
    && (s.In(c, false) && s'.In(c, false) ==> s'.callers[c].phase.began == s.callers[c].phase.began)
    && (!s.In(c, false) ==> !s'.In(c, false))
  }

  lemma AttemptKeptStep(s: State, t: State, step: Step, u: State, limit: Option<nat>, c: CallerId)
    requires AttemptKept(s, t, c) && Next(t, step, u, limit)
    ensures AttemptKept(s, u, c)
  {
  }

  lemma {:induction false} RunAttemptKept(r: Run, limit: Option<nat>, i: nat, n: nat, m: nat, c: CallerId)
    requires r.Valid(limit) && i <= n <= m <= |r.steps| && AttemptKept(r.states[i], r.states[n], c)
    ensures AttemptKept(r.states[i], r.states[m], c)
    decreases m - n
  {
    if n < m {
      AttemptKeptStep(r.states[i], r.states[n], r.steps[n], r.states[n + 1], limit, c);
      RunAttemptKept(r, limit, i, n + 1, m, c);
    }
  }

  /** In `r'` the attempt of `c` still runs, for no longer than `longest`, on a slot past its window. */
  ghost predicate Outlives(r: Run, r': Run, limit: Option<nat>, c: CallerId, longest: Time) {
    && r'.Valid(limit) && Continues(r, r') && |r'.states| > 0
    && var s := r'.Last();
    && s.In(c, false)
    && s.now <= s.callers[c].phase.began + longest
    && !InWindow(s.cache.slots[s.callers[c].slot], s.now)
  }

  lemma TickOutlives(r: Run, limit: Option<nat>, c: CallerId, longest: Time) returns (r': Run)
    requires r.Valid(limit) && r.Last().In(c, false)
    requires var s := r.Last();
             && s.now <= s.callers[c].phase.began + longest
             && s.callers[c].phase.began + longest >= s.cache.slots[s.callers[c].slot].created + 60 * SECOND
    ensures Outlives(r, r', limit, c, longest)
  {
    var s := r.Last();
    var span := s.callers[c].phase.began + longest - s.now;
    r' := Extend(r, Tick(span), limit);
    ExtendValid(r, Tick(span), limit);
  }

  lemma OutlivesOnlyIfLate(r: Run, r': Run, limit: Option<nat>, c: CallerId, longest: Time)
    requires r.Valid(limit) && r.Last().In(c, false) && Outlives(r, r', limit, c, longest)
    ensures var s := r.Last();
            s.callers[c].phase.began + longest >= s.cache.slots[s.callers[c].slot].created + 60 * SECOND
  {
    var i, n := |r.steps|, |r'.steps|;
    assert r'.states[i] == r.Last();
    assert AttemptKept(r'.states[i], r'.states[i], c);
    RunAttemptKept(r', limit, i, i, n, c);
    RunGrows(r', limit, i, n);
  }

  /**
   Exactly when the comment at `probe_cache.rs:47-49` holds for a running attempt: with attempts of at most
   `longest`, it can still run once its slot is garbage if and only if it began no earlier than `longest`
   before the end of the slot's window. A retry after an error begins late without renewing the window.
   */
  lemma OutlivesExact(r: Run, limit: Option<nat>, c: CallerId, longest: Time)
    requires r.Valid(limit) && r.Last().In(c, false) && r.Last().now <= r.Last().callers[c].phase.began + longest
    ensures (exists r' :: Outlives(r, r', limit, c, longest)) <==>
            var s := r.Last();
            s.callers[c].phase.began + longest >= s.cache.slots[s.callers[c].slot].created + 60 * SECOND
  {
    var s := r.Last();
    if s.callers[c].phase.began + longest >= s.cache.slots[s.callers[c].slot].created + 60 * SECOND {
      var r' := TickOutlives(r, limit, c, longest);
    }
    forall r' | Outlives(r, r', limit, c, longest)
      ensures s.callers[c].phase.began + longest >= s.cache.slots[s.callers[c].slot].created + 60 * SECOND
    {
      OutlivesOnlyIfLate(r, r', limit, c, longest);
    }
  }

  // ---------- going on from a run ----------

  /** `r'` goes on from `r` with attempts of at most `longest`, and with no seed of `key`. */
  ghost predicate GoesOn(r: Run, r': Run, limit: Option<nat>, key: Key, longest: Time) {
    && r'.Valid(limit) && Continues(r, r')
    && (forall i :: |r.steps| <= i < |r'.states| ==> AttemptsWithin(r'.states[i], longest))
    && (forall i :: |r.steps| <= i < |r'.steps| && r'.steps[i].Mark? ==> r'.steps[i].key != key)
  }

  lemma StepOn(r: Run, r1: Run, limit: Option<nat>, key: Key, longest: Time, step: Step) returns (r2: Run)
    requires GoesOn(r, r1, limit, key, longest) && Enabled(r1.Last(), step) && !step.Mark?
    requires AttemptsWithin(Apply(r1.Last(), step, limit), longest)
    ensures GoesOn(r, r2, limit, key, longest) && r2.Last() == Apply(r1.Last(), step, limit)
  {
    r2 := Extend(r1, step, limit);
    ExtendValid(r1, step, limit);
    assert r2.steps[..|r.steps|] == r1.steps[..|r.steps|];
    assert r2.states[..|r.states|] == r1.states[..|r.states|];
  }

  /** `s'` is `s` after all attempts but those of `keep` have been cancelled. */
  ghost predicate Trimmed(s: State, s': State, keep: set<CallerId>) {
    && s'.now == s.now && s'.cache.table == s.cache.table && |s'.cache.slots| == |s.cache.slots|
    && s'.callers.Keys == s.callers.Keys
    && (forall id :: 0 <= id < |s.cache.slots| ==>
          var slot, slot' := s.cache.slots[id], s'.cache.slots[id];
          && slot'.key == slot.key && slot'.created == slot.created
          && (slot'.cell == slot.cell || (slot.cell.Running? && slot.cell.owner !in keep && slot'.cell.Unset?)))
    && (forall c :: c in s.callers ==>
          s'.callers[c] == if s.In(c, false) && c !in keep then s.callers[c].(phase := Gone) else s.callers[c])
  }

  /** The callers in a closure, other than those of `keep`. */
  ghost function Others(s: State, keep: set<CallerId>): set<CallerId> {
    set c | c in s.callers && s.In(c, false) && c !in keep
  }

  lemma CancelTrims(s: State, limit: Option<nat>, c: CallerId, keep: set<CallerId>)
    requires RunnersMatch(s) && c in Others(s, keep)
    ensures Trimmed(s, Apply(s, Cancel(c), limit), s.callers.Keys - {c})
    ensures Others(Apply(s, Cancel(c), limit), keep) == Others(s, keep) - {c}
  {
    assert CellOf(s, c) == Running(c);
  }

  lemma NoneTrimmed(s: State, keep: set<CallerId>)
    requires Others(s, keep) == {}
    ensures Trimmed(s, s, keep)
  {
    forall c | c in s.callers && s.In(c, false)
      ensures c in keep
    {
      assert c !in Others(s, keep);
    }
  }

  lemma TrimmedTwice(s: State, t: State, u: State, c: CallerId, keep: set<CallerId>)
    requires Trimmed(s, t, s.callers.Keys - {c}) && c !in keep && Trimmed(t, u, keep)
    requires RunnersMatch(s)
    ensures Trimmed(s, u, keep)
  {
    forall id | 0 <= id < |s.cache.slots|
      ensures var slot, slot' := s.cache.slots[id], u.cache.slots[id];
              && slot'.key == slot.key && slot'.created == slot.created
              && (slot'.cell == slot.cell || (slot.cell.Running? && slot.cell.owner !in keep && slot'.cell.Unset?))
    {
      assert t.cache.slots[id].key == s.cache.slots[id].key;
    }
  }

  /** The attempts of all others can end at once. */
  lemma {:induction false} EndAttempts(r: Run, r1: Run, limit: Option<nat>, key: Key, longest: Time,
                                       keep: set<CallerId>)
    returns (r2: Run)
    requires GoesOn(r, r1, limit, key, longest)
    ensures GoesOn(r, r2, limit, key, longest)
    ensures Trimmed(r1.Last(), r2.Last(), keep) && Others(r2.Last(), keep) == {}
    decreases Others(r1.Last(), keep)
  {
    var s := r1.Last();
    if Others(s, keep) == {} {
      r2 := r1;
      NoneTrimmed(s, keep);
    } else {
      var c :| c in Others(s, keep);
      RunConsistent(r1, limit, |r1.steps|);
      CancelTrims(s, limit, c, keep);
      var next := StepOn(r, r1, limit, key, longest, Cancel(c));
      r2 := EndAttempts(r, next, limit, key, longest, keep);
      TrimmedTwice(s, next.Last(), r2.Last(), c, keep);
    }
  }

  lemma {:induction false} NewCaller(ids: set<CallerId>) returns (d: CallerId)
    ensures forall c :: c in ids ==> c < d
  {
    d := 0;
    if ids != {} {
      var c :| c in ids;
      d := NewCaller(ids - {c});
      assert forall x :: x in ids ==> x == c || x in ids - {c};
      d := if c < d then d else c + 1;
    }
  }

  // ---------- exactly when a second attempt can run beside a given one ----------

  /** The attempt of `c` runs, and so does another one for the same key. */
  ghost predicate Beside(s: State, c: CallerId) {
    && s.In(c, false)
    && exists d :: d != c && s.In(d, false) && s.cache.slots[s.callers[d].slot].key == s.cache.slots[s.callers[c].slot].key
  }

  /** A caller waits or probes on another slot of the same key, and that slot has no value. */
  ghost predicate HeldElsewhere(s: State, c: CallerId, d: CallerId)
    requires c in s.callers
  {
    && (s.In(d, true) || s.In(d, false)) && s.callers[d].slot != s.callers[c].slot
    && s.cache.slots[s.callers[d].slot].key == s.cache.slots[s.callers[c].slot].key && !CellOf(s, d).Resolved?
  }

  /** When the table's entry for `key` dies, if its cell stays as it is. */
  function Expiry(s: State, key: Key): Time
    requires key in s.cache.table
  {
    var slot := s.cache.slots[s.cache.table[key]];
    slot.created + Ttl(slot.cell)
  }

  /** By `deadline` a lookup can be led to a slot without a value other than the one `c` holds. */
  predicate LeadsElsewhere(s: State, c: CallerId, deadline: Time)
    requires c in s.callers
  {
    var key := s.cache.slots[s.callers[c].slot].key;
    key in s.cache.table ==>
      || (s.cache.table[key] != s.callers[c].slot && !s.cache.slots[s.cache.table[key]].cell.Resolved?)
      || Expiry(s, key) <= deadline
  }

  lemma StartElsewhere(r: Run, r1: Run, limit: Option<nat>, key: Key, longest: Time, c: CallerId, d: CallerId)
    returns (r2: Run)
    requires GoesOn(r, r1, limit, key, longest) && |r1.states| > |r.steps| && AttemptsWithin(r1.Last(), longest)
    requires r1.Last().In(c, false) && HeldElsewhere(r1.Last(), c, d)
    ensures GoesOn(r, r2, limit, key, longest) && Beside(r2.Last(), c)
  {
    var s := r1.Last();
    RunConsistent(r1, limit, |r1.steps|);
    assert CellOf(s, c) == Running(c);
    if CellOf(s, d).Running? {
      r2 := r1;
      assert s.In(CellOf(s, d).owner, false);
    } else {
      r2 := StepOn(r, r1, limit, key, longest, Start(d));
      assert r2.Last().In(d, false);
    }
  }

  lemma LookupElsewhere(s: State, limit: Option<nat>, c: CallerId, d: CallerId)
    requires s.cache.Keyed() && s.In(c, false) && d !in s.callers
    requires var key := s.cache.slots[s.callers[c].slot].key;
             s.cache.Hit(key, s.now) ==>
               s.cache.table[key] != s.callers[c].slot && !s.cache.slots[s.cache.table[key]].cell.Resolved?
    ensures var s' := Apply(s, Lookup(d, s.cache.slots[s.callers[c].slot].key, s.now), limit);
            s'.In(c, false) && s'.now == s.now && HeldElsewhere(s', c, d) && (AttemptsWithin(s, s.now) ==> AttemptsWithin(s', s.now))
  {
  }

  /** A lookup now leads to another slot without a value, on which a second attempt starts. */
  lemma SecondNow(r: Run, r1: Run, limit: Option<nat>, key: Key, longest: Time, c: CallerId) returns (r2: Run)
    requires GoesOn(r, r1, limit, key, longest) && |r1.states| > |r.steps| && AttemptsWithin(r1.Last(), longest)
    requires r1.Last().In(c, false) && r1.Last().cache.slots[r1.Last().callers[c].slot].key == key
    requires var s := r1.Last();
             s.cache.Hit(key, s.now) ==>
               s.cache.table[key] != s.callers[c].slot && !s.cache.slots[s.cache.table[key]].cell.Resolved?
    ensures GoesOn(r, r2, limit, key, longest) && Beside(r2.Last(), c)
  {
    var s := r1.Last();
    var d := NewCaller(s.callers.Keys);
    RunConsistent(r1, limit, |r1.steps|);
    LookupElsewhere(s, limit, c, d);
    var next := StepOn(r, r1, limit, key, longest, Lookup(d, key, s.now));
    r2 := StartElsewhere(r, next, limit, key, longest, c, d);
  }

  function Until(now: Time, instant: Time): Time {
    if now < instant then instant - now else 0
  }

  /** Nobody but `c` is in a closure, and the table's entry for `key` expires by the time `c` has to be done. */
  ghost predicate Expiring(s: State, c: CallerId, key: Key, longest: Time) {
    && Others(s, {c}) == {} && s.In(c, false) && AttemptsWithin(s, longest)
    && s.cache.slots[s.callers[c].slot].key == key && key in s.cache.table
    && Expiry(s, key) <= s.callers[c].phase.began + longest
  }

  lemma TrimmedExpiring(s: State, s': State, c: CallerId, key: Key, longest: Time)
    requires RunnersMatch(s) && s.In(c, false) && Trimmed(s, s', {c}) && Others(s', {c}) == {}
    requires AttemptsWithin(s, longest) && s.cache.slots[s.callers[c].slot].key == key && key in s.cache.table
    requires s.cache.table[key] == s.callers[c].slot || s.cache.slots[s.cache.table[key]].cell.Resolved?
    requires Expiry(s, key) <= s.callers[c].phase.began + longest
    ensures Expiring(s', c, key, longest)
  {
    assert CellOf(s, c) == Running(c);
  }

  lemma TickToExpiry(s: State, limit: Option<nat>, c: CallerId, key: Key, longest: Time)
    requires Expiring(s, c, key, longest)
    ensures var s' := Apply(s, Tick(Until(s.now, Expiry(s, key))), limit);
            && AttemptsWithin(s', longest) && s'.callers == s.callers && s'.cache == s.cache && !s'.cache.Hit(key, s'.now)
  {
    forall d | d in s.callers && s.callers[d].phase.Probing?
      ensures d == c
    {
      assert d !in Others(s, {c});
    }
  }

  /** All others stop, and the entry of the table expires before the attempt of `c` has to end. */
  lemma SecondAtExpiry(r: Run, limit: Option<nat>, key: Key, longest: Time, c: CallerId) returns (r2: Run)
    requires r.Valid(limit) && r.Last().In(c, false) && AttemptsWithin(r.Last(), longest)
    requires var s := r.Last();
             && s.cache.slots[s.callers[c].slot].key == key && key in s.cache.table
             && (s.cache.table[key] == s.callers[c].slot || s.cache.slots[s.cache.table[key]].cell.Resolved?)
             && Expiry(s, key) <= s.callers[c].phase.began + longest
    ensures GoesOn(r, r2, limit, key, longest) && Beside(r2.Last(), c)
  {
    RunConsistent(r, limit, |r.steps|);
    var r1 := EndAttempts(r, r, limit, key, longest, {c});
    TrimmedExpiring(r.Last(), r1.Last(), c, key, longest);
    TickToExpiry(r1.Last(), limit, c, key, longest);
    var next := StepOn(r, r1, limit, key, longest, Tick(Until(r1.Last().now, Expiry(r1.Last(), key))));
    r2 := SecondNow(r, next, limit, key, longest, c);
  }

  /**
   Nobody else has a slot of `key` without a value, and the table leads to the slot of `c`, or to a value, and
   does so beyond `deadline`.
   */
  ghost predicate StillAlone(s: State, c: CallerId, key: Key, deadline: Time) {
    && s.In(c, false) && s.cache.slots[s.callers[c].slot].key == key
    && key in s.cache.table
    && (forall d :: !HeldElsewhere(s, c, d))
    && (s.cache.table[key] == s.callers[c].slot || s.cache.slots[s.cache.table[key]].cell.Resolved?)
    && deadline < Expiry(s, key)
  }

  /** A live entry stays, and a lookup of its key finds it. */
  lemma EntryKept(s: State, step: Step, s': State, limit: Option<nat>, key: Key)
    requires key in s.cache.table && Next(s, step, s', limit) && (step.Mark? ==> step.key != key)
    requires s.now < Expiry(s, key)
    ensures key in s'.cache.table && s'.cache.table[key] == s.cache.table[key]
    ensures step.Lookup? && step.key == key ==> s'.callers[step.caller].slot == s.cache.table[key]
    ensures step.Lookup? && step.key == key ==> s'.cache == s.cache
  {
    if step.Locks() {
      assert Live(s.cache.slots[s.cache.table[key]], step.clock);
    }
  }

  lemma HeldBefore(s: State, step: Step, s': State, limit: Option<nat>, c: CallerId, d: CallerId)
    requires s.cache.Keyed() && RunnersMatch(s) && Next(s, step, s', limit) && s.In(c, false) && s'.In(c, false)
    requires HeldElsewhere(s', c, d)
    requires step.Lookup? && step.caller == d ==> step.key != s.cache.slots[s.callers[c].slot].key
    ensures HeldElsewhere(s, c, d)
  {
    GrowsStep(s, step, s', limit);
  }

  lemma EntryAlike(s: State, step: Step, s': State, limit: Option<nat>, c: CallerId, id: SlotId)
    requires RunnersMatch(s) && Next(s, step, s', limit) && s.In(c, false) && s'.In(c, false) && id < |s.cache.slots|
    requires id == s.callers[c].slot || s.cache.slots[id].cell.Resolved?
    ensures s'.callers[c].slot == s.callers[c].slot && s'.cache.slots[id] == s.cache.slots[id]
    ensures s'.cache.slots[s.callers[c].slot].key == s.cache.slots[s.callers[c].slot].key
  {
    GrowsStep(s, step, s', limit);
    RunnersStep(s, step, s', limit);
    assert CellOf(s, c) == Running(c) && CellOf(s', c) == Running(c);
  }

  lemma StillAloneStep(s: State, step: Step, s': State, limit: Option<nat>, c: CallerId, key: Key, deadline: Time)
    requires Consistent(s) && StillAlone(s, c, key, deadline) && Next(s, step, s', limit) && s'.In(c, false)
    requires s.now <= deadline && (step.Mark? ==> step.key != key)
    ensures StillAlone(s', c, key, deadline)
  {
    EntryKept(s, step, s', limit, key);
    EntryAlike(s, step, s', limit, c, s.cache.table[key]);
    forall d
      ensures !HeldElsewhere(s', c, d)
    {
      assert !HeldElsewhere(s, c, d);
      if HeldElsewhere(s', c, d) && !(step.Lookup? && step.caller == d && step.key == key) {
        HeldBefore(s, step, s', limit, c, d);
      }
    }
  }

  lemma LedElsewhere(r: Run, limit: Option<nat>, key: Key, longest: Time, c: CallerId) returns (r': Run)
    requires r.Valid(limit) && r.Last().In(c, false) && AttemptsWithin(r.Last(), longest)
    requires r.Last().cache.slots[r.Last().callers[c].slot].key == key
    requires LeadsElsewhere(r.Last(), c, r.Last().callers[c].phase.began + longest)
    ensures GoesOn(r, r', limit, key, longest) && Beside(r'.Last(), c)
  {
    var s := r.Last();
    if key !in s.cache.table || (s.cache.table[key] != s.callers[c].slot && !s.cache.slots[s.cache.table[key]].cell.Resolved?) {
      r' := SecondNow(r, r, limit, key, longest, c);
    } else {
      r' := SecondAtExpiry(r, limit, key, longest, c);
    }
  }

  /** An attempt that runs at two instants of a run is one attempt, which ran all the time between. */
  lemma RanBetween(r: Run, limit: Option<nat>, j: nat, i: nat, n: nat, c: CallerId)
    requires r.Valid(limit) && j <= i <= n <= |r.steps| && r.states[j].In(c, false) && r.states[n].In(c, false)
    ensures r.states[i].In(c, false) && r.states[i].callers[c].phase.began == r.states[j].callers[c].phase.began
  {
    assert AttemptKept(r.states[j], r.states[j], c);
    RunAttemptKept(r, limit, j, j, i, c);
    assert AttemptKept(r.states[i], r.states[i], c);
    RunAttemptKept(r, limit, i, i, n, c);
  }

  lemma StillAloneAt(r: Run, limit: Option<nat>, i: nat, c: CallerId, key: Key, deadline: Time)
    requires r.Valid(limit) && i < |r.steps| && StillAlone(r.states[i], c, key, deadline)
    requires r.states[i + 1].In(c, false)
    requires r.states[i].now <= deadline && (r.steps[i].Mark? ==> r.steps[i].key != key)
    ensures StillAlone(r.states[i + 1], c, key, deadline)
  {
    RunConsistent(r, limit, i);
    StillAloneStep(r.states[i], r.steps[i], r.states[i + 1], limit, c, key, deadline);
  }

  lemma {:induction false} RunStillAlone(r: Run, limit: Option<nat>, j: nat, i: nat, c: CallerId, key: Key,
                                         deadline: Time)
    requires r.Valid(limit) && j <= i <= |r.steps| && StillAlone(r.states[j], c, key, deadline)
    requires forall k :: j <= k <= i ==> r.states[k].In(c, false) && r.states[k].now <= deadline
    requires forall k :: j <= k < i && r.steps[k].Mark? ==> r.steps[k].key != key
    ensures StillAlone(r.states[i], c, key, deadline)
    decreases i
  {
    if i > j {
      RunStillAlone(r, limit, j, i - 1, c, key, deadline);
      StillAloneAt(r, limit, i - 1, c, key, deadline);
    }
  }

  /** Until it ends, the attempt of `c` keeps the clock before its deadline. */
  lemma DeadlineKept(r: Run, r': Run, limit: Option<nat>, key: Key, longest: Time, c: CallerId, k: nat)
    requires r.Valid(limit) && GoesOn(r, r', limit, key, longest) && |r.steps| <= k <= |r'.steps|
    requires r.Last().In(c, false) && r'.Last().In(c, false)
    ensures r'.states[k].In(c, false) && r'.states[k].now <= r.Last().callers[c].phase.began + longest
  {
    assert r'.states[|r.steps|] == r.Last();
    RanBetween(r', limit, |r.steps|, k, |r'.steps|, c);
  }

  lemma NoneElsewhere(r: Run, r': Run, limit: Option<nat>, key: Key, longest: Time, c: CallerId)
    requires r.Valid(limit) && r.Last().In(c, false) && AttemptsWithin(r.Last(), longest)
    requires r.Last().cache.slots[r.Last().callers[c].slot].key == key
    requires forall d :: !HeldElsewhere(r.Last(), c, d)
    requires !LeadsElsewhere(r.Last(), c, r.Last().callers[c].phase.began + longest)
    requires GoesOn(r, r', limit, key, longest)
    ensures !Beside(r'.Last(), c)
  {
    if Beside(r'.Last(), c) {
      forall k | |r.steps| <= k <= |r'.steps|
        ensures r'.states[k].In(c, false) && r'.states[k].now <= r.Last().callers[c].phase.began + longest
      {
        DeadlineKept(r, r', limit, key, longest, c, k);
      }
      assert r'.states[|r.steps|] == r.Last();
      RunStillAlone(r', limit, |r.steps|, |r'.steps|, c, key, r.Last().callers[c].phase.began + longest);
      RunConsistent(r', limit, |r'.steps|);
      var s := r'.Last();
      var d :| d != c && s.In(d, false) && s.cache.slots[s.callers[d].slot].key == s.cache.slots[s.callers[c].slot].key;
      assert CellOf(s, d) == Running(d) && CellOf(s, c) == Running(c);
      assert HeldElsewhere(s, c, d);
    }
  }

  /**
   Exactly when single flight can break beside a running attempt, whatever its slot's age: while it runs, for at
   most `longest`, another attempt for its key can run, without any seed of the key, if and only if a caller
   still holds another slot of the key that has no value, or the table can lead a lookup to one: there is no
   entry, or it is one already, or it expires by the time the attempt has to end.
   */
  lemma SecondProbeExact(r: Run, limit: Option<nat>, c: CallerId, longest: Time)
    requires r.Valid(limit) && r.Last().In(c, false) && AttemptsWithin(r.Last(), longest)
    ensures var s := r.Last();
            var key := s.cache.slots[s.callers[c].slot].key;
            (exists r' :: GoesOn(r, r', limit, key, longest) && Beside(r'.Last(), c)) <==>
            (exists d :: HeldElsewhere(s, c, d)) || LeadsElsewhere(s, c, s.callers[c].phase.began + longest)
  {
    var s := r.Last();
    var key := s.cache.slots[s.callers[c].slot].key;
    if d :| HeldElsewhere(s, c, d) {
      var r' := StartElsewhere(r, r, limit, key, longest, c, d);
    } else if LeadsElsewhere(s, c, s.callers[c].phase.began + longest) {
      var r' := LedElsewhere(r, limit, key, longest, c);
    } else {
      forall r' | GoesOn(r, r', limit, key, longest)
        ensures !Beside(r'.Last(), c)
      {
        NoneElsewhere(r, r', limit, key, longest, c);
      }
    }
  }
}
