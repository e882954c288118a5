/** Single flight: how many closures run, on one slot and on one key. */
module ProbeSingleFlight {
  import opened Common
  import opened ProbeMachine
  import opened ProbeInvariants

  // ---------- one slot ----------

  /** At every instant at most one caller of a slot is in its closure. */
  lemma OneRunnerPerSlot(r: Run, limit: Option<nat>, i: nat, c: CallerId, d: CallerId)
    requires r.Valid(limit) && i <= |r.steps|
    requires r.states[i].In(c, false) && r.states[i].In(d, false)
    requires r.states[i].callers[c].slot == r.states[i].callers[d].slot
    ensures c == d
  {
    RunConsistent(r, limit, i);
    assert CellOf(r.states[i], c) == CellOf(r.states[i], d);
  }

  /** Callers of one slot that answer Ok, at whatever instants, answer the same. */
  lemma SameAnswer(r: Run, limit: Option<nat>, i: nat, j: nat, c: CallerId, d: CallerId)
    requires r.Valid(limit) && i <= j <= |r.steps|
    requires c in r.states[i].callers && d in r.states[j].callers
    requires r.states[i].callers[c].slot == r.states[j].callers[d].slot
    requires r.states[i].callers[c].phase.Answered? && r.states[i].callers[c].phase.answer.Ok?
    requires r.states[j].callers[d].phase.Answered? && r.states[j].callers[d].phase.answer.Ok?
    ensures r.states[i].callers[c].phase.answer == r.states[j].callers[d].phase.answer
  {
    RunConsistent(r, limit, i);
    RunConsistent(r, limit, j);
    RunGrows(r, limit, i, j);
    assert CellOf(r.states[j], d) == CellOf(r.states[i], c);
  }

  datatype Event = Began | Released | Finished

  /** What a step does to the attempts on slot `id`. */
  function EventOn(s: State, step: Step, id: SlotId): Option<Event>
    requires Enabled(s, step)
  {
    match step
    case Start(c) => if s.callers[c].slot == id then Some(Began) else None
    case Succeed(c) => if s.callers[c].slot == id then Some(Finished) else None
    case Fail(c) => if s.callers[c].slot == id then Some(Released) else None
    case Cancel(c) => if s.callers[c].slot == id && s.callers[c].phase.Probing? then Some(Released) else None
    case _ => None
  }

  /** The number of events of one kind on slot `id` in the first `n` steps. */
  ghost function Count(r: Run, limit: Option<nat>, n: nat, id: SlotId, event: Event): nat
    requires r.Valid(limit) && n <= |r.steps|
  {
    if n == 0 then 0
    else
      assert Next(r.states[n - 1], r.steps[n - 1], r.states[n], limit);
      Count(r, limit, n - 1, id, event) + if EventOn(r.states[n - 1], r.steps[n - 1], id) == Some(event) then 1 else 0
  }

  /** The books of a slot: attempts began = attempts released + attempts finished + attempts running. */
  ghost predicate Balanced(s: State, id: SlotId, began: nat, released: nat, finished: nat) {
    if id < |s.cache.slots| then
      var cell := s.cache.slots[id].cell;
      && began == released + finished + (if cell.Running? then 1 else 0)
      && finished <= 1
      && (finished == 1 ==> cell.Resolved?)
      && (cell.Resolved? && finished == 0 ==> began == 0)
    else
      began == released == finished == 0
  }

  lemma BalancedStep(s: State, step: Step, s': State, limit: Option<nat>, id: SlotId, b: nat, l: nat, f: nat)
    requires RunnersMatch(s) && Next(s, step, s', limit) && Balanced(s, id, b, l, f)
    ensures Balanced(s', id,
                     b + if EventOn(s, step, id) == Some(Began) then 1 else 0,
                     l + if EventOn(s, step, id) == Some(Released) then 1 else 0,
                     f + if EventOn(s, step, id) == Some(Finished) then 1 else 0)
  {
  }

  lemma {:induction false} RunBalanced(r: Run, limit: Option<nat>, n: nat, id: SlotId)
    requires r.Valid(limit) && n <= |r.steps|
    ensures Balanced(r.states[n], id, Count(r, limit, n, id, Began), Count(r, limit, n, id, Released),
                     Count(r, limit, n, id, Finished))
  {
    if n > 0 {
      RunBalanced(r, limit, n - 1, id);
      RunConsistent(r, limit, n - 1);
      BalancedStep(r.states[n - 1], r.steps[n - 1], r.states[n], limit, id, Count(r, limit, n - 1, id, Began),
                   Count(r, limit, n - 1, id, Released), Count(r, limit, n - 1, id, Finished));
    }
  }

  /** Slot `id` was made by `mark_present`, in one of the first `n` steps. */
  ghost predicate MadeBySeed(r: Run, n: nat, id: SlotId) {
    exists i :: 0 <= i < n && i < |r.steps| && i < |r.states| && r.steps[i].Mark? && |r.states[i].cache.slots| == id
  }

  /** Only a seed resolves a slot without an attempt. */
  ghost predicate SeedBooks(s: State, id: SlotId, seeded: bool, finished: nat) {
    if id < |s.cache.slots| then
      if seeded then s.cache.slots[id].cell.Resolved? && finished == 0
      else finished == if s.cache.slots[id].cell.Resolved? then 1 else 0
    else
      !seeded && finished == 0
  }

  lemma SeedBooksStep(s: State, step: Step, s': State, limit: Option<nat>, id: SlotId, seeded: bool, finished: nat)
    requires RunnersMatch(s) && Next(s, step, s', limit) && SeedBooks(s, id, seeded, finished)
    ensures SeedBooks(s', id, seeded || (step.Mark? && |s.cache.slots| == id),
                      finished + if EventOn(s, step, id) == Some(Finished) then 1 else 0)
  {
  }

  lemma {:induction false} RunSeedBooks(r: Run, limit: Option<nat>, n: nat, id: SlotId)
    requires r.Valid(limit) && n <= |r.steps|
    ensures SeedBooks(r.states[n], id, MadeBySeed(r, n, id), Count(r, limit, n, id, Finished))
  {
    if n > 0 {
      RunSeedBooks(r, limit, n - 1, id);
      RunConsistent(r, limit, n - 1);
      SeedBooksStep(r.states[n - 1], r.steps[n - 1], r.states[n], limit, id, MadeBySeed(r, n - 1, id),
                    Count(r, limit, n - 1, id, Finished));
      assert MadeBySeed(r, n, id) <==>
             MadeBySeed(r, n - 1, id) || (r.steps[n - 1].Mark? && |r.states[n - 1].cache.slots| == id);
    }
  }

  /**
   The closures run on a slot. On one made by `mark_present`: none. On any other: those that failed or were
   cancelled, plus the one that resolved it, if it is resolved, or the one that is running.
   */
  lemma ClosuresRun(r: Run, limit: Option<nat>, n: nat, id: SlotId)
    requires r.Valid(limit) && n <= |r.steps| && id < |r.states[n].cache.slots|
    ensures var began, released, finished :=
              Count(r, limit, n, id, Began), Count(r, limit, n, id, Released), Count(r, limit, n, id, Finished);
            var cell := r.states[n].cache.slots[id].cell;
            if MadeBySeed(r, n, id) then
              cell.Resolved? && began == released == finished == 0
            else
              && finished == (if cell.Resolved? then 1 else 0)
              && began == released + finished + if cell.Running? then 1 else 0
  {
    RunBalanced(r, limit, n, id);
    RunSeedBooks(r, limit, n, id);
  }

  lemma {:induction false} PastWaiting(r: Run, limit: Option<nat>, i: nat, n: nat, c: CallerId)
    requires r.Valid(limit) && i <= n <= |r.steps| && c in r.states[i].callers && !r.states[i].In(c, true)
    ensures c in r.states[n].callers && !r.states[n].In(c, true)
    decreases n
  {
    if i < n {
      PastWaiting(r, limit, i, n - 1, c);
      assert Next(r.states[n - 1], r.steps[n - 1], r.states[n], limit);
    }
  }

  /** A caller's closure runs at most once. */
  lemma ClosureRunsOnce(r: Run, limit: Option<nat>, i: nat, j: nat, c: CallerId)
    requires r.Valid(limit) && i < |r.steps| && j < |r.steps|
    requires r.steps[i] == Start(c) && r.steps[j] == Start(c)
    ensures i == j
  {
    assert Next(r.states[i], r.steps[i], r.states[i + 1], limit);
    assert Next(r.states[j], r.steps[j], r.states[j + 1], limit);
    if i < j {
      PastWaiting(r, limit, i + 1, j, c);
    } else if j < i {
      PastWaiting(r, limit, j + 1, i, c);
    }
  }

  // ---------- one key ----------

  predicate InWindow(slot: Slot, now: Time) {
    now < slot.created + 60 * SECOND
  }

  /** No slot was made with a clock reading later than `clock`. */
  ghost predicate CreatedBy(s: State, clock: Time) {
    forall id :: 0 <= id < |s.cache.slots| ==> s.cache.slots[id].created <= clock
  }

  lemma {:induction false} CreatedBeforeLock(r: Run, limit: Option<nat>, i: nat, j: nat)
    requires r.Valid(limit) && r.ClockOrdered() && i <= j < |r.steps| && r.steps[j].Locks()
    ensures CreatedBy(r.states[i], r.steps[j].clock)
  {
    if i > 0 {
      CreatedBeforeLock(r, limit, i - 1, j);
      assert Next(r.states[i - 1], r.steps[i - 1], r.states[i], limit);
    }
  }

  /** Later slots of the same key are resolved already. */
  ghost predicate LaterResolved(s: State, id: SlotId)
    requires id < |s.cache.slots|
  {
    forall j :: id < j < |s.cache.slots| && s.cache.slots[j].key == s.cache.slots[id].key ==>
      s.cache.slots[j].cell.Resolved?
  }

  /** The table still coalesces on the slot, or a write has seeded the key since. */
  ghost predicate Guarded(s: State, id: SlotId)
    requires id < |s.cache.slots|
  {
    var key := s.cache.slots[id].key;
    && key in s.cache.table
    && (s.cache.table[key] == id ||
        var seed := s.cache.slots[s.cache.table[key]];
        seed.cell.Resolved? && seed.cell.sight.present && s.cache.slots[id].created <= seed.created)
  }

  /** The slot is of `key`, unresolved, and inside its window. */
  predicate OpenOn(s: State, id: SlotId, key: Key) {
    && id < |s.cache.slots|
    && s.cache.slots[id].key == key && !s.cache.slots[id].cell.Resolved? && InWindow(s.cache.slots[id], s.now)
  }

  /** While an unresolved slot of `key` is inside its window, no other probe of `key` can be opened. */
  ghost predicate Coalescing(s: State, key: Key) {
    forall id :: 0 <= id < |s.cache.slots| && OpenOn(s, id, key) ==> Guarded(s, id) && LaterResolved(s, id)
  }

  /** A seed of `key` read at `clock` is not older than a slot of `key` that is still open. */
  ghost predicate SeedTimely(s: State, key: Key, clock: Time) {
    forall id :: 0 <= id < |s.cache.slots| && OpenOn(s, id, key) ==> s.cache.slots[id].created <= clock
  }

  /** So it is for every seed of `key`; nothing is asked of lookups, or of other keys. */
  ghost predicate SeedsTimely(r: Run, key: Key) {
    forall i :: 0 <= i < |r.steps| && i < |r.states| && r.steps[i].Mark? && r.steps[i].key == key ==>
      SeedTimely(r.states[i], key, r.steps[i].clock)
  }

  lemma OrderedSeedsTimely(r: Run, limit: Option<nat>, key: Key)
    requires r.Valid(limit) && r.ClockOrdered()
    ensures SeedsTimely(r, key)
  {
    forall i | 0 <= i < |r.steps| && r.steps[i].Mark? && r.steps[i].key == key
      ensures SeedTimely(r.states[i], key, r.steps[i].clock)
    {
      CreatedBeforeLock(r, limit, i, i);
    }
  }

  lemma CoalescingStepLookup(s: State, step: Step, s': State, limit: Option<nat>, key: Key)
    requires Consistent(s) && Next(s, step, s', limit) && Coalescing(s, key)
    requires step.Lookup?
    ensures Coalescing(s', key)
  {
    forall id | 0 <= id < |s'.cache.slots| && OpenOn(s', id, key)
      ensures Guarded(s', id) && LaterResolved(s', id)
    {
      if id < |s.cache.slots| {
        assert OpenOn(s, id, key);
      }
    }
  }

  lemma CoalescingStepMark(s: State, step: Step, s': State, limit: Option<nat>, key: Key)
    requires Consistent(s) && Next(s, step, s', limit) && Coalescing(s, key)
    requires step.Mark? && (step.key == key ==> SeedTimely(s, key, step.clock))
    ensures Coalescing(s', key)
  {
    forall id | 0 <= id < |s'.cache.slots| && OpenOn(s', id, key)
      ensures Guarded(s', id) && LaterResolved(s', id)
    {
      assert OpenOn(s, id, key);
    }
  }

  lemma CoalescingStepOther(s: State, step: Step, s': State, limit: Option<nat>, key: Key)
    requires Consistent(s) && Next(s, step, s', limit) && Coalescing(s, key)
    requires !step.Locks()
    ensures Coalescing(s', key)
  {
    forall id | 0 <= id < |s'.cache.slots| && OpenOn(s', id, key)
      ensures Guarded(s', id) && LaterResolved(s', id)
    {
      assert OpenOn(s, id, key);
    }
  }

  lemma {:induction false} RunCoalescing(r: Run, limit: Option<nat>, n: nat, key: Key)
    requires r.Valid(limit) && SeedsTimely(r, key) && n <= |r.steps|
    ensures Coalescing(r.states[n], key)
  {
    if n > 0 {
      var s, step, s' := r.states[n - 1], r.steps[n - 1], r.states[n];
      RunCoalescing(r, limit, n - 1, key);
      RunConsistent(r, limit, n - 1);
      if step.Lookup? {
        CoalescingStepLookup(s, step, s', limit, key);
      } else if step.Mark? {
        CoalescingStepMark(s, step, s', limit, key);
      } else {
        CoalescingStepOther(s, step, s', limit, key);
      }
    }
  }

  /** Caller `c` has a HeadObject for `key` in flight, on a slot that is not 60 s old yet. */
  predicate InFlight(s: State, c: CallerId, key: Key) {
    && s.In(c, false)
    && s.cache.slots[s.callers[c].slot].key == key && InWindow(s.cache.slots[s.callers[c].slot], s.now)
  }

  /** An attempt in flight is on the only open slot of its key. */
  lemma FlightOnOpenSlot(s: State, c: CallerId, key: Key, id: SlotId)
    requires Consistent(s) && Coalescing(s, key) && InFlight(s, c, key) && OpenOn(s, id, key)
    ensures s.callers[c].slot == id
  {
    assert CellOf(s, c) == Running(c);
    assert OpenOn(s, s.callers[c].slot, key);
    assert LaterResolved(s, id) && LaterResolved(s, s.callers[c].slot);
  }

  /**
   At every instant at most one HeadObject per key is in flight among attempts whose slot is not
   60 s old yet. So if no attempt outlives its slot's window, there is one per key altogether. Clock readings
   may come in any order, but for seeds of this key older than one of its open slots.
   */
  lemma OneInFlightPerKey(r: Run, limit: Option<nat>, n: nat, key: Key, c: CallerId, d: CallerId)
    requires r.Valid(limit) && SeedsTimely(r, key) && n <= |r.steps|
    requires InFlight(r.states[n], c, key) && InFlight(r.states[n], d, key)
    ensures c == d
  {
    var s := r.states[n];
    RunConsistent(r, limit, n);
    RunCoalescing(r, limit, n, key);
    assert CellOf(s, c) == Running(c) && CellOf(s, d) == Running(d);
    FlightOnOpenSlot(s, c, key, s.callers[d].slot);
  }
}
