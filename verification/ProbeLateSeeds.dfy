/** Late seeds: a seed whose clock was read before the slot it replaces was made. */
module ProbeLateSeeds {
  import opened Common
  import opened ProbeMachine
  import opened ProbeInvariants
  import opened ProbeStaleness
  import opened ProbeSeeding
  import opened ProbeSingleFlight
  import opened ProbeOverlap

  ghost predicate TwoInFlight(s: State, key: Key) {
    exists c, d :: c != d && InFlight(s, c, key) && InFlight(s, d, key)
  }

  /** The run goes on with a seed of `key` read at `clock`. */
  function Seeding(r: Run, limit: Option<nat>, key: Key, clock: Time): Run
    requires |r.states| > 0 && Enabled(r.Last(), Mark(key, clock))
  {
    Extend(r, Mark(key, clock), limit)
  }

  /** After that seed and no other, and with attempts of at most `longest`, `r'` ends with two attempts for `key`. */
  ghost predicate Splits(r: Run, r': Run, limit: Option<nat>, key: Key, clock: Time, longest: Time)
    requires |r.states| > 0 && Enabled(r.Last(), Mark(key, clock))
  {
    GoesOn(Seeding(r, limit, key, clock), r', limit, key, longest) && TwoInFlight(r'.Last(), key)
  }

  /** A caller waits on slot `id`. */
  ghost predicate Waited(s: State, id: SlotId) {
    exists d :: s.In(d, true) && s.callers[d].slot == id
  }

  // ---------- a late seed lets a second attempt in ----------

  /** The table leads from `key` to a seed read at `clock`, before the slot was made on which `c` has its attempt. */
  ghost predicate Overtaken(s: State, key: Key, c: CallerId, clock: Time) {
    && InFlight(s, c, key) && clock < s.cache.slots[s.callers[c].slot].created
    && key in s.cache.table
    && var seed := s.cache.slots[s.cache.table[key]];
    seed.created == clock && seed.cell.Resolved? && seed.cell.sight.present
  }

  lemma LookupOpensAnother(s: State, limit: Option<nat>, key: Key, c: CallerId, d: CallerId, clock: Time)
    requires Overtaken(s, key, c, clock) && clock + 60 * SECOND <= s.now && d !in s.callers
    ensures var s' := Apply(s, Lookup(d, key, s.now), limit);
            && InFlight(s', c, key)
            && s'.In(d, true) && CellOf(s', d).Unset? && OpenOn(s', s'.callers[d].slot, key)
  {
  }

  lemma StartSplits(s: State, limit: Option<nat>, key: Key, c: CallerId, d: CallerId)
    requires InFlight(s, c, key) && s.In(d, true) && CellOf(s, d).Unset? && OpenOn(s, s.callers[d].slot, key)
    requires RunnersMatch(s)
    ensures TwoInFlight(Apply(s, Start(d), limit), key)
  {
    var s' := Apply(s, Start(d), limit);
    assert c != d && InFlight(s', c, key) && InFlight(s', d, key);
  }

  /** Once the seed has expired, a new caller looks the key up and starts a second attempt. */
  lemma SecondAfterExpiry(r: Run, r1: Run, limit: Option<nat>, key: Key, c: CallerId, clock: Time, longest: Time)
    returns (r2: Run)
    requires GoesOn(r, r1, limit, key, longest) && AttemptsWithin(r1.Last(), longest)
    requires Overtaken(r1.Last(), key, c, clock) && clock + 60 * SECOND <= r1.Last().now
    ensures GoesOn(r, r2, limit, key, longest) && TwoInFlight(r2.Last(), key)
  {
    var d := NewCaller(r1.Last().callers.Keys);
    var lookup := Lookup(d, key, r1.Last().now);
    LookupOpensAnother(r1.Last(), limit, key, c, d, clock);
    var next := StepOn(r, r1, limit, key, longest, lookup);
    RunConsistent(next, limit, |next.steps|);
    StartSplits(next.Last(), limit, key, c, d);
    r2 := StepOn(r, next, limit, key, longest, Start(d));
  }

  /** The slot of `key` that the seed read at `clock` replaced. */
  ghost predicate Replaced(s: State, key: Key, id: SlotId, clock: Time) {
    && id < |s.cache.slots| && OpenOn(s, id, key) && clock < s.cache.slots[id].created
    && key in s.cache.table
    && var seed := s.cache.slots[s.cache.table[key]];
    seed.created == clock && seed.cell.Resolved? && seed.cell.sight.present
  }

  /** The seed expires before the slot it replaced does. */
  lemma SeedExpiresFirst(s: State, limit: Option<nat>, key: Key, id: SlotId, clock: Time)
    requires Replaced(s, key, id, clock)
    ensures var s' := Apply(s, Tick(Until(s.now, clock + 60 * SECOND)), limit);
            && Replaced(s', key, id, clock) && clock + 60 * SECOND <= s'.now && s'.callers == s.callers && s'.cache == s.cache
  {
  }

  lemma MarkReplaces(s: State, limit: Option<nat>, key: Key, id: SlotId, clock: Time)
    requires OpenOn(s, id, key) && clock < s.cache.slots[id].created && clock <= s.now
    ensures var s' := Apply(s, Mark(key, clock), limit);
            && Replaced(s', key, id, clock) && s'.callers == s.callers && s'.now == s.now && s'.cache.slots[id] == s.cache.slots[id]
  {
  }

  lemma TrimmedReplaced(s: State, s': State, keep: set<CallerId>, key: Key, id: SlotId, clock: Time)
    requires Replaced(s, key, id, clock) && Trimmed(s, s', keep)
    ensures Replaced(s', key, id, clock)
  {
  }

  lemma SeedingGoesOn(r: Run, limit: Option<nat>, key: Key, clock: Time, longest: Time)
    requires r.Valid(limit) && Enabled(r.Last(), Mark(key, clock)) && AttemptsWithin(r.Last(), longest)
    ensures var r1 := Seeding(r, limit, key, clock);
            && r1.Valid(limit) && GoesOn(r1, r1, limit, key, longest)
            && r1.Last() == Apply(r.Last(), Mark(key, clock), limit) && AttemptsWithin(r1.Last(), longest)
  {
    ExtendValid(r, Mark(key, clock), limit);
  }

  /** The attempt in flight has time enough: it goes on past the end of the seed. */
  lemma SplitsByLasting(r: Run, limit: Option<nat>, key: Key, c: CallerId, clock: Time, longest: Time) returns (r': Run)
    requires r.Valid(limit) && Enabled(r.Last(), Mark(key, clock)) && InFlight(r.Last(), c, key)
    requires AttemptsWithin(r.Last(), longest) && clock < r.Last().cache.slots[r.Last().callers[c].slot].created
    requires clock + 60 * SECOND <= r.Last().callers[c].phase.began + longest
    ensures Splits(r, r', limit, key, clock, longest)
  {
    var s, id := r.Last(), r.Last().callers[c].slot;
    RunConsistent(r, limit, |r.steps|);
    assert CellOf(s, c) == Running(c);
    var r1 := Seeding(r, limit, key, clock);
    SeedingGoesOn(r, limit, key, clock, longest);
    MarkReplaces(s, limit, key, id, clock);
    var r2 := EndAttempts(r1, r1, limit, key, longest, {c});
    TrimmedReplaced(r1.Last(), r2.Last(), {c}, key, id, clock);
    SeedExpiresFirst(r2.Last(), limit, key, id, clock);
    AloneWithin(r2.Last(), limit, c, clock, longest);
    var r3 := StepOn(r1, r2, limit, key, longest, Tick(Until(s.now, clock + 60 * SECOND)));
    r' := SecondAfterExpiry(r1, r3, limit, key, c, clock, longest);
  }

  /** A lone attempt that began late enough is still within its time when the seed expires. */
  lemma AloneWithin(s: State, limit: Option<nat>, c: CallerId, clock: Time, longest: Time)
    requires Others(s, {c}) == {} && s.In(c, false) && s.now <= s.callers[c].phase.began + longest
    requires clock + 60 * SECOND <= s.callers[c].phase.began + longest
    ensures AttemptsWithin(Apply(s, Tick(Until(s.now, clock + 60 * SECOND)), limit), longest)
  {
    forall d | d in s.callers && s.callers[d].phase.Probing?
      ensures d == c
    {
      assert d !in Others(s, {c});
    }
  }

  /** With nobody in a closure time goes by freely, and a cell without a value is free. */
  lemma NobodyProbing(s: State, limit: Option<nat>, span: Time, longest: Time, id: SlotId)
    requires RunnersMatch(s) && Others(s, {}) == {} && id < |s.cache.slots| && !s.cache.slots[id].cell.Resolved?
    ensures AttemptsWithin(Apply(s, Tick(span), limit), longest)
    ensures s.cache.slots[id].cell.Unset?
  {
    forall d | d in s.callers
      ensures !s.callers[d].phase.Probing?
    {
      assert d !in Others(s, {});
    }
  }

  /** Everybody stops, and the seed expires while `d` waits on the slot it replaced. */
  lemma WaitOutSeed(r: Run, r1: Run, limit: Option<nat>, key: Key, d: CallerId, id: SlotId, clock: Time, longest: Time)
    returns (r3: Run)
    requires GoesOn(r, r1, limit, key, longest) && Replaced(r1.Last(), key, id, clock)
    requires r1.Last().In(d, true) && r1.Last().callers[d].slot == id
    ensures GoesOn(r, r3, limit, key, longest) && AttemptsWithin(r3.Last(), longest)
    ensures Replaced(r3.Last(), key, id, clock) && clock + 60 * SECOND <= r3.Last().now
    ensures r3.Last().In(d, true) && r3.Last().callers[d].slot == id && CellOf(r3.Last(), d).Unset?
  {
    var r2 := EndAttempts(r, r1, limit, key, longest, {});
    var s, span := r2.Last(), Until(r2.Last().now, clock + 60 * SECOND);
    TrimmedReplaced(r1.Last(), s, {}, key, id, clock);
    RunConsistent(r2, limit, |r2.steps|);
    SeedExpiresFirst(s, limit, key, id, clock);
    NobodyProbing(s, limit, span, longest, id);
    r3 := StepOn(r, r2, limit, key, longest, Tick(span));
  }

  lemma RetryOvertaken(s: State, limit: Option<nat>, key: Key, d: CallerId, clock: Time, longest: Time)
    requires s.In(d, true) && CellOf(s, d).Unset? && Replaced(s, key, s.callers[d].slot, clock)
    requires AttemptsWithin(s, longest)
    ensures var s' := Apply(s, Start(d), limit);
            s'.now == s.now && Overtaken(s', key, d, clock) && AttemptsWithin(s', longest)
  {
  }

  /** The attempt in flight stops, and a caller that waits for it tries again once the seed has ended. */
  lemma SplitsByWaiting(r: Run, limit: Option<nat>, key: Key, c: CallerId, d: CallerId, clock: Time, longest: Time)
    returns (r': Run)
    requires r.Valid(limit) && Enabled(r.Last(), Mark(key, clock)) && InFlight(r.Last(), c, key)
    requires AttemptsWithin(r.Last(), longest) && clock < r.Last().cache.slots[r.Last().callers[c].slot].created
    requires r.Last().In(d, true) && r.Last().callers[d].slot == r.Last().callers[c].slot
    ensures Splits(r, r', limit, key, clock, longest)
  {
    var s, id, r1 := r.Last(), r.Last().callers[c].slot, Seeding(r, limit, key, clock);
    RunConsistent(r, limit, |r.steps|);
    assert CellOf(s, c) == Running(c);
    SeedingGoesOn(r, limit, key, clock, longest);
    MarkReplaces(s, limit, key, id, clock);
    var r3 := WaitOutSeed(r1, r1, limit, key, d, id, clock, longest);
    RetryOvertaken(r3.Last(), limit, key, d, clock, longest);
    var r4 := StepOn(r1, r3, limit, key, longest, Start(d));
    r' := SecondAfterExpiry(r1, r4, limit, key, d, clock, longest);
  }

  // ---------- nothing else does ----------

  /** The seed is in slot `seed`, and nothing but it and later slots of its key is in the table. */
  ghost predicate SeedThere(s: State, key: Key, seed: SlotId, clock: Time) {
    && seed < |s.cache.slots|
    && s.cache.slots[seed].key == key && s.cache.slots[seed].created == clock
    && s.cache.slots[seed].cell.Resolved? && s.cache.slots[seed].cell.sight.present
    && (key in s.cache.table ==> seed <= s.cache.table[key])
  }

  /** Until it expires the table leads to it, and there is no later slot of its key. */
  ghost predicate SeedRules(s: State, key: Key, seed: SlotId, clock: Time) {
    clock + 60 * SECOND <= s.now ||
      (key in s.cache.table && s.cache.table[key] == seed
       && forall id :: seed < id < |s.cache.slots| ==> s.cache.slots[id].key != key)
  }

  /** A later slot is in the table while it is open. */
  ghost predicate LaterInTable(s: State, key: Key, seed: SlotId) {
    forall id :: seed < id < |s.cache.slots| && OpenOn(s, id, key) ==> key in s.cache.table && s.cache.table[key] == id
  }

  /** Of the earlier slots of the key none but `former` is open. */
  ghost predicate EarlierClosed(s: State, key: Key, seed: SlotId, former: SlotId) {
    forall id :: 0 <= id < seed && id < |s.cache.slots| && id != former ==> !OpenOn(s, id, key)
  }

  ghost predicate Overruled(s: State, key: Key, seed: SlotId, former: SlotId, clock: Time) {
    && former < seed && seed < |s.cache.slots| && s.cache.slots[former].key == key
    && SeedThere(s, key, seed, clock) && SeedRules(s, key, seed, clock)
    && LaterInTable(s, key, seed) && EarlierClosed(s, key, seed, former)
  }

  lemma LaterInTableLocking(s: State, step: Step, s': State, limit: Option<nat>, key: Key, seed: SlotId)
    requires Next(s, step, s', limit) && LaterInTable(s, key, seed) && step.Locks() && (step.Mark? ==> step.key != key)
    ensures LaterInTable(s', key, seed)
  {
    forall id | seed < id < |s'.cache.slots| && OpenOn(s', id, key)
      ensures key in s'.cache.table && s'.cache.table[key] == id
    {
      if id < |s.cache.slots| {
        assert OpenOn(s, id, key);
        assert Live(s.cache.slots[id], step.clock);
      }
    }
  }

  lemma EarlierClosedStep(s: State, step: Step, s': State, limit: Option<nat>, key: Key, seed: SlotId, former: SlotId)
    requires RunnersMatch(s) && Next(s, step, s', limit) && EarlierClosed(s, key, seed, former)
    requires seed < |s.cache.slots|
    ensures EarlierClosed(s', key, seed, former)
  {
    GrowsStep(s, step, s', limit);
    forall id | 0 <= id < seed && id != former
      ensures !OpenOn(s', id, key)
    {
      assert !OpenOn(s, id, key);
    }
  }

  lemma OverruledLocking(s: State, step: Step, s': State, limit: Option<nat>, key: Key, seed: SlotId, former: SlotId,
                         clock: Time)
    requires Consistent(s) && Next(s, step, s', limit) && Overruled(s, key, seed, former, clock)
    requires step.Locks() && (step.Mark? ==> step.key != key)
    ensures Overruled(s', key, seed, former, clock)
  {
    LaterInTableLocking(s, step, s', limit, key, seed);
    EarlierClosedStep(s, step, s', limit, key, seed, former);
  }

  lemma OverruledOther(s: State, step: Step, s': State, limit: Option<nat>, key: Key, seed: SlotId, former: SlotId,
                       clock: Time)
    requires Consistent(s) && Next(s, step, s', limit) && Overruled(s, key, seed, former, clock)
    requires !step.Locks()
    ensures Overruled(s', key, seed, former, clock)
  {
    GrowsStep(s, step, s', limit);
    EarlierClosedStep(s, step, s', limit, key, seed, former);
    assert s'.cache.table == s.cache.table && |s'.cache.slots| == |s.cache.slots|;
    forall id | seed < id < |s'.cache.slots| && OpenOn(s', id, key)
      ensures key in s'.cache.table && s'.cache.table[key] == id
    {
      assert OpenOn(s, id, key);
    }
  }

  /** Whoever waits or probes on `former` did so in `s0`; an attempt is the one of then, or that of one who waited. */
  ghost predicate HoldersFormer(s0: State, s: State, former: SlotId) {
    forall e :: (s.In(e, true) || s.In(e, false)) && s.callers[e].slot == former ==>
      && e in s0.callers && s0.callers[e].slot == former
      && (s0.In(e, true) || (s0.In(e, false) && s.In(e, false) && s.callers[e].phase.began == s0.callers[e].phase.began))
  }

  /** A lookup leads past it. */
  lemma NotHandedOut(s: State, step: Step, s': State, limit: Option<nat>, key: Key, seed: SlotId, former: SlotId,
                     clock: Time)
    requires s.cache.Keyed() && Next(s, step, s', limit) && Overruled(s, key, seed, former, clock) && step.Lookup?
    ensures s'.callers[step.caller].slot != former
  {
  }

  lemma HeldSince(s: State, step: Step, s': State, limit: Option<nat>, e: CallerId)
    requires Next(s, step, s', limit) && (s'.In(e, true) || s'.In(e, false)) && (step.Lookup? ==> step.caller != e)
    ensures e in s.callers && s.callers[e].slot == s'.callers[e].slot
    ensures s.In(e, true) ||
            (s.In(e, false) && s'.In(e, false) && s'.callers[e].phase.began == s.callers[e].phase.began)
  {
  }

  lemma HoldersFormerStep(s0: State, s: State, step: Step, s': State, limit: Option<nat>, key: Key, seed: SlotId,
                          former: SlotId, clock: Time)
    requires Consistent(s) && Next(s, step, s', limit) && Overruled(s, key, seed, former, clock)
    requires HoldersFormer(s0, s, former)
    ensures HoldersFormer(s0, s', former)
  {
    if step.Lookup? {
      NotHandedOut(s, step, s', limit, key, seed, former, clock);
    }
    forall e | (s'.In(e, true) || s'.In(e, false)) && s'.callers[e].slot == former
      ensures e in s0.callers && s0.callers[e].slot == former
      ensures s0.In(e, true) ||
              (s0.In(e, false) && s'.In(e, false) && s'.callers[e].phase.began == s0.callers[e].phase.began)
    {
      HeldSince(s, step, s', limit, e);
    }
  }

  ghost predicate AfterSeed(s0: State, s: State, key: Key, seed: SlotId, former: SlotId, clock: Time) {
    Overruled(s, key, seed, former, clock) && HoldersFormer(s0, s, former)
  }

  lemma AfterSeedAt(s0: State, r: Run, limit: Option<nat>, i: nat, key: Key, seed: SlotId, former: SlotId, clock: Time)
    requires r.Valid(limit) && i < |r.steps| && AfterSeed(s0, r.states[i], key, seed, former, clock)
    requires r.steps[i].Mark? ==> r.steps[i].key != key
    ensures AfterSeed(s0, r.states[i + 1], key, seed, former, clock)
  {
    var s, step, s' := r.states[i], r.steps[i], r.states[i + 1];
    RunConsistent(r, limit, i);
    HoldersFormerStep(s0, s, step, s', limit, key, seed, former, clock);
    if step.Locks() {
      OverruledLocking(s, step, s', limit, key, seed, former, clock);
    } else {
      OverruledOther(s, step, s', limit, key, seed, former, clock);
    }
  }

  lemma {:induction false} RunAfterSeed(s0: State, r: Run, limit: Option<nat>, j: nat, i: nat, key: Key,
                                        seed: SlotId, former: SlotId, clock: Time)
    requires r.Valid(limit) && j <= i <= |r.steps| && AfterSeed(s0, r.states[j], key, seed, former, clock)
    requires forall k :: j <= k < i && r.steps[k].Mark? ==> r.steps[k].key != key
    ensures AfterSeed(s0, r.states[i], key, seed, former, clock)
    decreases i
  {
    if i > j {
      RunAfterSeed(s0, r, limit, j, i - 1, key, seed, former, clock);
      AfterSeedAt(s0, r, limit, i - 1, key, seed, former, clock);
    }
  }

  lemma SeededAfter(s: State, limit: Option<nat>, key: Key, c: CallerId, clock: Time)
    requires Consistent(s) && Coalescing(s, key) && InFlight(s, c, key) && Enabled(s, Mark(key, clock))
    ensures AfterSeed(s, Apply(s, Mark(key, clock), limit), key, |s.cache.slots|, s.callers[c].slot, clock)
  {
    var s' := Apply(s, Mark(key, clock), limit);
    forall id | 0 <= id < |s.cache.slots| && id != s.callers[c].slot
      ensures !OpenOn(s', id, key)
    {
      if OpenOn(s, id, key) {
        FlightOnOpenSlot(s, c, key, id);
      }
    }
  }

  /** Of two attempts in flight one is on the former slot, and the seed has expired. */
  lemma TwoAfterSeed(s0: State, s: State, key: Key, seed: SlotId, former: SlotId, clock: Time, a: CallerId, b: CallerId)
    requires Consistent(s) && AfterSeed(s0, s, key, seed, former, clock)
    requires a != b && InFlight(s, a, key) && InFlight(s, b, key)
    ensures s.callers[a].slot == former || s.callers[b].slot == former
    ensures clock + 60 * SECOND <= s.now
  {
    assert CellOf(s, a) == Running(a) && CellOf(s, b) == Running(b);
    assert OpenOn(s, s.callers[a].slot, key) && OpenOn(s, s.callers[b].slot, key);
  }

  /** What has come of the seed at the end of a run that went on from it. */
  lemma SplitsAfterSeed(r: Run, r': Run, limit: Option<nat>, key: Key, c: CallerId, clock: Time, longest: Time)
    requires r.Valid(limit) && SeedsTimely(r, key) && InFlight(r.Last(), c, key) && AttemptsWithin(r.Last(), longest)
    requires Enabled(r.Last(), Mark(key, clock)) && Splits(r, r', limit, key, clock, longest)
    ensures var s0, former := r.Last(), r.Last().callers[c].slot;
            && AfterSeed(s0, r'.Last(), key, |s0.cache.slots|, former, clock) && AttemptsWithin(r'.Last(), longest)
            && former < |r'.Last().cache.slots|
            && r'.Last().cache.slots[former].created == s0.cache.slots[former].created
  {
    var s0, j, n, former := r.Last(), |r.steps| + 1, |r'.steps|, r.Last().callers[c].slot;
    RunConsistent(r, limit, |r.steps|);
    RunCoalescing(r, limit, |r.steps|, key);
    SeededAfter(s0, limit, key, c, clock);
    SeedingGoesOn(r, limit, key, clock, longest);
    assert r'.states[j] == Seeding(r, limit, key, clock).Last();
    RunAfterSeed(s0, r', limit, j, n, key, |s0.cache.slots|, former, clock);
    RunGrows(r', limit, j, n);
    assert r'.states[j].cache.slots[former] == s0.cache.slots[former];
  }

  lemma OnlyLateSplits(r: Run, r': Run, limit: Option<nat>, key: Key, c: CallerId, clock: Time, longest: Time)
    requires r.Valid(limit) && SeedsTimely(r, key) && InFlight(r.Last(), c, key) && AttemptsWithin(r.Last(), longest)
    requires Enabled(r.Last(), Mark(key, clock)) && Splits(r, r', limit, key, clock, longest)
    ensures var s := r.Last();
            && clock < s.cache.slots[s.callers[c].slot].created
            && (clock + 60 * SECOND <= s.callers[c].phase.began + longest || Waited(s, s.callers[c].slot))
  {
    var s0, former := r.Last(), r.Last().callers[c].slot;
    SplitsAfterSeed(r, r', limit, key, c, clock, longest);
    RunConsistent(r, limit, |r.steps|);
    RunConsistent(r', limit, |r'.steps|);
    var a, b :| a != b && InFlight(r'.Last(), a, key) && InFlight(r'.Last(), b, key);
    TwoAfterSeed(s0, r'.Last(), key, |s0.cache.slots|, former, clock, a, b);
    var e := if r'.Last().callers[a].slot == former then a else b;
    if s0.In(e, false) {
      assert CellOf(s0, c) == Running(c) && CellOf(s0, e) == Running(e);
    }
  }

  /**
   Exactly when a seed breaks single flight: the clock is read before the mutex is taken (`probe_cache.rs:120-127`),
   and a seed that comes while an attempt for its key is in flight lets a second one join it, with attempts of at
   most `longest` and without any further seed, if and only if its reading is older than the slot of the attempt,
   and either that attempt may last until the seed expires or somebody else waits on its slot, to try again.
   */
  lemma LateSeedExact(r: Run, limit: Option<nat>, key: Key, c: CallerId, clock: Time, longest: Time)
    requires r.Valid(limit) && SeedsTimely(r, key) && InFlight(r.Last(), c, key) && AttemptsWithin(r.Last(), longest)
    requires Enabled(r.Last(), Mark(key, clock))
    ensures var s := r.Last();
            (exists r' :: Splits(r, r', limit, key, clock, longest)) <==>
            && clock < s.cache.slots[s.callers[c].slot].created
            && (clock + 60 * SECOND <= s.callers[c].phase.began + longest || Waited(s, s.callers[c].slot))
  {
    var s := r.Last();
    if clock < s.cache.slots[s.callers[c].slot].created {
      if clock + 60 * SECOND <= s.callers[c].phase.began + longest {
        var r' := SplitsByLasting(r, limit, key, c, clock, longest);
      } else if Waited(s, s.callers[c].slot) {
        var d :| s.In(d, true) && s.callers[d].slot == s.callers[c].slot;
        var r' := SplitsByWaiting(r, limit, key, c, d, clock, longest);
      }
    }
    forall r' | Splits(r, r', limit, key, clock, longest)
      ensures clock < s.cache.slots[s.callers[c].slot].created
      ensures clock + 60 * SECOND <= s.callers[c].phase.began + longest || Waited(s, s.callers[c].slot)
    {
      OnlyLateSplits(r, r', limit, key, c, clock, longest);
    }
  }

  // ---------- one such run ----------

  /** `key` is written at second 0, and a minute goes by. */
  lemma WrittenMinuteAgo(limit: Option<nat>, key: Key) returns (r: Run)
    ensures r.Valid(limit) && r.steps == [Write(key), Tick(60 * SECOND)]
    ensures key in r.states[1].objects
    ensures r.Last() == State(60 * SECOND, {key}, Cache(map[], []), map[])
  {
    var r0 := Run([State(0, {}, Cache(map[], []), map[])], []);
    var r1 := Extend(r0, Write(key), limit);
    ExtendValid(r0, Write(key), limit);
    r := Extend(r1, Tick(60 * SECOND), limit);
    ExtendValid(r1, Tick(60 * SECOND), limit);
    assert r.states[1] == r1.Last();
  }

  /** A caller looks it up at second 60 and its probe starts. */
  lemma ProbeAtSixty(limit: Option<nat>, key: Key) returns (r: Run)
    ensures r.Valid(limit) && r.steps == [Write(key), Tick(60 * SECOND), Lookup(0, key, 60 * SECOND), Start(0)]
    ensures key in r.states[1].objects
    ensures r.Last() == State(60 * SECOND, {key}, Cache(map[key := 0], [Slot(key, 60 * SECOND, Running(0))]),
                              map[0 := Caller(0, 60 * SECOND, Probing(60 * SECOND, None))])
  {
    var r1 := WrittenMinuteAgo(limit, key);
    assert Sweep(Cache(map[], []), 60 * SECOND, limit).table == map[];
    var r2 := Extend(r1, Lookup(0, key, 60 * SECOND), limit);
    ExtendValid(r1, Lookup(0, key, 60 * SECOND), limit);
    assert r2.Last().cache == Cache(map[key := 0], [Slot(key, 60 * SECOND, Unset)]);
    r := Extend(r2, Start(0), limit);
    ExtendValid(r2, Start(0), limit);
    assert r.Last().cache.slots == [Slot(key, 60 * SECOND, Running(0))];
    assert r.states[1] == r1.states[1];
  }

  lemma SeedOverProbe(limit: Option<nat>, key: Key)
    ensures MarkPresent(Cache(map[key := 0], [Slot(key, 60 * SECOND, Running(0))]), key, 0, 60 * SECOND, limit) ==
              Cache(map[key := 1], [Slot(key, 60 * SECOND, Running(0)), Slot(key, 0, Resolved(Sight(true, 60 * SECOND)))])
  {
    var c := Cache(map[key := 0], [Slot(key, 60 * SECOND, Running(0))]);
    var swept := Sweep(c, 0, limit);
    assert forall k :: k in swept.table ==> k == key;
    assert swept.table[key := |c.slots|] == map[key := 1];
  }

  lemma LookupOverSeed(limit: Option<nat>, key: Key)
    ensures var slots := [Slot(key, 60 * SECOND, Running(0)), Slot(key, 0, Resolved(Sight(true, 60 * SECOND)))];
            Find(Cache(map[key := 1], slots), key, 60 * SECOND, limit) ==
              (Cache(map[key := 2], slots + [Slot(key, 60 * SECOND, Unset)]), 2)
  {
    var c := Cache(map[key := 1], [Slot(key, 60 * SECOND, Running(0)), Slot(key, 0, Resolved(Sight(true, 60 * SECOND)))]);
    assert !c.Hit(key, 60 * SECOND);
    var swept := Sweep(c, 60 * SECOND, limit);
    assert forall k :: k in swept.table ==> k == key;
    assert swept.table[key := |c.slots|] == map[key := 2];
  }

  /** A seed whose clock reading is 60 seconds former replaces that slot, and the next lookup replaces the seed. */
  lemma LookupAfterLateSeed(limit: Option<nat>, key: Key) returns (r: Run)
    ensures r.Valid(limit)
    ensures r.steps == [Write(key), Tick(60 * SECOND), Lookup(0, key, 60 * SECOND), Start(0), Mark(key, 0),
                        Lookup(1, key, 60 * SECOND)]
    ensures key in r.states[1].objects
    ensures r.Last() == State(60 * SECOND, {key},
                              Cache(map[key := 2], [Slot(key, 60 * SECOND, Running(0)),
                                                    Slot(key, 0, Resolved(Sight(true, 60 * SECOND))),
                                                    Slot(key, 60 * SECOND, Unset)]),
                              map[0 := Caller(0, 60 * SECOND, Probing(60 * SECOND, None)),
                                  1 := Caller(2, 60 * SECOND, Waiting)])
  {
    var r3 := ProbeAtSixty(limit, key);
    SeedOverProbe(limit, key);
    var r4 := Extend(r3, Mark(key, 0), limit);
    ExtendValid(r3, Mark(key, 0), limit);
    LookupOverSeed(limit, key);
    r := Extend(r4, Lookup(1, key, 60 * SECOND), limit);
    ExtendValid(r4, Lookup(1, key, 60 * SECOND), limit);
    assert r.states[1] == r3.states[1];
  }

  /**
   A seed of a key that is in S3, as the handlers make them, which waits for the mutex for 60 s,
   replaces a live slot by a dead one, so that at once two attempts for the key run on slots of age zero.
   */
  lemma LateSeedOpensSecondProbe(limit: Option<nat>, key: Key) returns (r: Run)
    ensures r.Valid(limit) && !r.ClockOrdered() && MarksConfirmed(r) && r.NoDeletes()
    ensures forall c :: c in {0, 1} ==>
              && r.Last().In(c, false)
              && r.Last().cache.slots[r.Last().callers[c].slot] == Slot(key, r.Last().now, Running(c))
  {
    var r5 := LookupAfterLateSeed(limit, key);
    r := Extend(r5, Start(1), limit);
    ExtendValid(r5, Start(1), limit);
    assert r.states[1] == r5.states[1];
    assert r.steps[2] == Lookup(0, key, 60 * SECOND) && r.steps[4] == Mark(key, 0);
  }
}
