/** The sequential `present` of the handlers is a run of the step system. */
module ProbeAlone {
  import opened Common
  import opened ProbeMachine
  import opened ProbeInvariants
  import opened ProbeStaleness

  function ProbeOutcome(s: State, key: Key, fails: bool): Option<Sight> {
    if fails then None else Some(Sight(key in s.objects, s.now))
  }

  lemma ResolvedAlone(r: Run, limit: Option<nat>, c: CallerId) returns (r': Run)
    requires r.Valid(limit) && r.Last().In(c, true) && CellOf(r.Last(), c).Resolved?
    ensures r'.Valid(limit) && Continues(r, r')
    ensures r'.Last() == SetCaller(r.Last(), c, Answered(Ok(CellOf(r.Last(), c).sight.present)))
  {
    r' := Extend(r, Wake(c), limit);
    ExtendValid(r, Wake(c), limit);
  }

  lemma FailedAlone(r: Run, limit: Option<nat>, c: CallerId) returns (r': Run)
    requires r.Valid(limit) && r.Last().In(c, true) && CellOf(r.Last(), c).Unset?
    ensures r'.Valid(limit) && Continues(r, r')
    ensures r'.Last() == SetCaller(r.Last(), c, Answered(Err))
  {
    var s, id := r.Last(), r.Last().callers[c].slot;
    var r1 := Extend(r, Start(c), limit);
    ExtendValid(r, Start(c), limit);
    r' := Extend(r1, Fail(c), limit);
    ExtendValid(r1, Fail(c), limit);
    assert r'.Last().cache.slots == s.cache.slots;
    assert r'.Last().callers == SetCaller(s, c, Answered(Err)).callers;
  }

  lemma ProbedAlone(r: Run, limit: Option<nat>, c: CallerId) returns (r': Run)
    requires r.Valid(limit) && r.Last().In(c, true) && CellOf(r.Last(), c).Unset?
    ensures r'.Valid(limit) && Continues(r, r')
    ensures var s, id := r.Last(), r.Last().callers[c].slot;
            var sight := Sight(s.cache.slots[id].key in s.objects, s.now);
            r'.Last() == SetCell(SetCaller(s, c, Answered(Ok(sight.present))), id, Resolved(sight))
  {
    var s, id := r.Last(), r.Last().callers[c].slot;
    var r1 := Extend(r, Start(c), limit);
    ExtendValid(r, Start(c), limit);
    var r2 := Extend(r1, Observe(c), limit);
    ExtendValid(r1, Observe(c), limit);
    r' := Extend(r2, Succeed(c), limit);
    ExtendValid(r2, Succeed(c), limit);
    var sight := Sight(s.cache.slots[id].key in s.objects, s.now);
    assert r2.Last().callers[c].phase == Probing(s.now, Some(sight));
    assert r'.Last().cache.slots == s.cache.slots[id := s.cache.slots[id].(cell := Resolved(sight))];
    assert r'.Last().callers == SetCaller(s, c, Answered(Ok(sight.present))).callers;
  }

  /** What the running closure of `owner` returns if it succeeds: what it has seen, or what it sees now. */
  function RunnerSight(s: State, owner: CallerId, key: Key): Sight {
    if s.In(owner, false) && s.callers[owner].phase.seen.Some? then s.callers[owner].phase.seen.value
    else Sight(key in s.objects, s.now)
  }

  /** If a lookup joins a running closure, `joined` is a way in which that can end. */
  predicate CanEnd(s: State, key: Key, clock: Time, joined: Option<Sight>) {
    s.cache.Hit(key, clock) ==>
      var cell := s.cache.slots[s.cache.table[key]].cell;
      cell.Running? && joined.Some? ==> joined.value == RunnerSight(s, cell.owner, key)
  }

  /** The closure that `c` waits for ends as `joined` says. */
  lemma RunnerEnds(r: Run, limit: Option<nat>, c: CallerId, joined: Option<Sight>) returns (r': Run)
    requires r.Valid(limit) && r.Last().In(c, true) && CellOf(r.Last(), c).Running?
    requires joined.Some? ==>
               joined.value == RunnerSight(r.Last(), CellOf(r.Last(), c).owner, r.Last().cache.slots[r.Last().callers[c].slot].key)
    ensures r'.Valid(limit) && Continues(r, r')
    ensures var s, s' := r.Last(), r'.Last();
            && s'.cache == Awaited(s.cache, s.callers[c].slot, joined) && s'.now == s.now && s'.objects == s.objects
            && s'.In(c, true) && s'.callers[c].slot == s.callers[c].slot
  {
    var s, owner := r.Last(), CellOf(r.Last(), c).owner;
    RunConsistent(r, limit, |r.steps|);
    if joined.None? {
      r' := Extend(r, Fail(owner), limit);
      ExtendValid(r, Fail(owner), limit);
    } else if s.callers[owner].phase.seen.Some? {
      r' := Extend(r, Succeed(owner), limit);
      ExtendValid(r, Succeed(owner), limit);
    } else {
      r' := RunnerSeesAndEnds(r, limit, c);
    }
  }

  lemma RunnerSeesAndEnds(r: Run, limit: Option<nat>, c: CallerId) returns (r': Run)
    requires r.Valid(limit) && r.Last().In(c, true) && CellOf(r.Last(), c).Running?
    requires RunnersMatch(r.Last()) && r.Last().callers[CellOf(r.Last(), c).owner].phase.seen.None?
    ensures r'.Valid(limit) && Continues(r, r')
    ensures var s, s' := r.Last(), r'.Last();
            var id := s.callers[c].slot;
            && s'.cache == Settled(s.cache, id, Resolved(Sight(s.cache.slots[id].key in s.objects, s.now)))
            && s'.now == s.now && s'.objects == s.objects && s'.In(c, true) && s'.callers[c].slot == id
  {
    var owner := CellOf(r.Last(), c).owner;
    var r1 := Extend(r, Observe(owner), limit);
    ExtendValid(r, Observe(owner), limit);
    r' := Extend(r1, Succeed(owner), limit);
    ExtendValid(r1, Succeed(owner), limit);
  }

  /** A caller whose cell is free or set goes on to its answer. */
  lemma AnsweredAlone(r: Run, limit: Option<nat>, c: CallerId, fails: bool) returns (r': Run)
    requires r.Valid(limit) && r.Last().In(c, true) && !CellOf(r.Last(), c).Running?
    ensures r'.Valid(limit) && Continues(r, r')
    ensures var s, s' := r.Last(), r'.Last();
            var id := s.callers[c].slot;
            var probe := ProbeOutcome(s, s.cache.slots[id].key, fails);
            && s'.now == s.now && s'.objects == s.objects && c in s'.callers
            && (if CellOf(s, c).Resolved? then
                  s'.cache == s.cache && s'.callers[c].phase == Answered(Ok(CellOf(s, c).sight.present))
                else if probe.None? then
                  s'.cache == s.cache && s'.callers[c].phase == Answered(Err)
                else
                  && s'.cache == Settled(s.cache, id, Resolved(probe.value))
                  && s'.callers[c].phase == Answered(Ok(probe.value.present)))
  {
    if CellOf(r.Last(), c).Resolved? {
      r' := ResolvedAlone(r, limit, c);
    } else if fails {
      r' := FailedAlone(r, limit, c);
    } else {
      r' := ProbedAlone(r, limit, c);
    }
  }

  lemma LookupSlot(s: State, c: CallerId, key: Key, clock: Time, limit: Option<nat>)
    requires s.cache.Keyed() && RunnersMatch(s) && Enabled(s, Lookup(c, key, clock))
    ensures var s' := Apply(s, Lookup(c, key, clock), limit);
            && s'.In(c, true) && s'.cache.slots[s'.callers[c].slot].key == key
            && (s'.cache, s'.callers[c].slot) == Find(s.cache, key, clock, limit)
            && s'.now == s.now && s'.objects == s.objects
            && (CellOf(s', c).Running? ==>
                  && s.cache.Hit(key, clock) && CellOf(s', c) == s.cache.slots[s.cache.table[key]].cell
                  && RunnerSight(s', CellOf(s', c).owner, key) == RunnerSight(s, CellOf(s', c).owner, key))
  {
  }

  lemma ContinuesOn(r: Run, r1: Run, r2: Run)
    requires Continues(r, r1) && Continues(r1, r2)
    ensures Continues(r, r2)
  {
    assert r2.steps[..|r.steps|] == r1.steps[..|r.steps|];
    assert r2.states[..|r.states|] == r1.states[..|r.states|];
  }

  /**
   Looking up, waiting for a closure that is running, probing and answering, without anybody else in between, is
   what `PresentAlone` says, for every way in which the closure can end and whatever else is being probed.
   */
  lemma AloneIsARun(r: Run, limit: Option<nat>, c: CallerId, key: Key, clock: Time, joined: Option<Sight>, fails: bool)
    returns (r': Run)
    requires r.Valid(limit) && Enabled(r.Last(), Lookup(c, key, clock)) && CanEnd(r.Last(), key, clock, joined)
    ensures r'.Valid(limit) && Continues(r, r')
    ensures var (cache, answer, _) :=
              PresentAlone(r.Last().cache, key, clock, joined, ProbeOutcome(r.Last(), key, fails), limit);
            && r'.Last().cache == cache
            && c in r'.Last().callers && r'.Last().callers[c].phase == Answered(answer)
            && r'.Last().now == r.Last().now && r'.Last().objects == r.Last().objects
  {
    var s := r.Last();
    var r1 := Extend(r, Lookup(c, key, clock), limit);
    ExtendValid(r, Lookup(c, key, clock), limit);
    RunConsistent(r, limit, |r.steps|);
    LookupSlot(s, c, key, clock, limit);
    var r2 := r1;
    if CellOf(r1.Last(), c).Running? {
      r2 := RunnerEnds(r1, limit, c, joined);
      ContinuesOn(r, r1, r2);
    }
    r' := AnsweredAlone(r2, limit, c, fails);
    ContinuesOn(r, r2, r');
  }
}
