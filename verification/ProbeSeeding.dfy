/** Seeding on write: read-your-writes on one instance, and what a cached `true` is worth. */
module ProbeSeeding {
  import opened Common
  import opened ProbeMachine
  import opened ProbeInvariants
  import opened ProbeStaleness

  /** Nobody deletes `key` from state `from` on. */
  ghost predicate KeptFrom(r: Run, from: nat, key: Key) {
    forall i :: from <= i < |r.steps| ==> r.steps[i] != Delete(key)
  }

  /** On slots numbered `base` or higher nothing claims the key is missing. */
  ghost predicate Undenied(s: State, key: Key, base: SlotId) {
    && (forall id :: base <= id < |s.cache.slots| && s.cache.slots[id].key == key ==>
          !CachesAbsence(s.cache.slots[id].cell))
    && (forall c :: c in s.callers && s.callers[c].phase.Probing? && s.callers[c].phase.seen.Some? ==>
          base <= s.callers[c].slot && s.cache.slots[s.callers[c].slot].key == key ==>
          s.callers[c].phase.seen.value.present)
  }

  /**
   The key is in S3, and the table leads only to slots that do not deny it. Slots below `base` may still be
   probed, and may still resolve to false.
   */
  ghost predicate Seeded(s: State, key: Key, base: SlotId) {
    && key in s.objects
    && base <= |s.cache.slots|
    && (key in s.cache.table ==> base <= s.cache.table[key])
    && Undenied(s, key, base)
  }

  lemma SeededByMark(s: State, step: Step, s': State, limit: Option<nat>)
    requires Consistent(s) && Next(s, step, s', limit) && step.Mark? && step.key in s.objects
    ensures Seeded(s', step.key, |s.cache.slots|)
  {
  }

  lemma UndeniedStep(s: State, step: Step, s': State, limit: Option<nat>, key: Key, base: SlotId)
    requires Next(s, step, s', limit) && key in s.objects && Undenied(s, key, base)
    ensures Undenied(s', key, base)
  {
  }

  lemma SeededStep(s: State, step: Step, s': State, limit: Option<nat>, key: Key, base: SlotId)
    requires Next(s, step, s', limit) && Seeded(s, key, base) && step != Delete(key)
    ensures Seeded(s', key, base)
  {
    UndeniedStep(s, step, s', limit, key, base);
  }

  lemma SeededAt(r: Run, limit: Option<nat>, i: nat, key: Key, base: SlotId)
    requires r.Valid(limit) && i < |r.steps| && Seeded(r.states[i], key, base) && r.steps[i] != Delete(key)
    ensures Seeded(r.states[i + 1], key, base)
  {
    SeededStep(r.states[i], r.steps[i], r.states[i + 1], limit, key, base);
  }

  lemma {:induction false} RunSeeded(r: Run, limit: Option<nat>, i: nat, n: nat, key: Key, base: SlotId)
    requires r.Valid(limit) && i <= n <= |r.steps| && Seeded(r.states[i], key, base) && KeptFrom(r, i, key)
    ensures Seeded(r.states[n], key, base)
    decreases n - i
  {
    if i < n {
      SeededAt(r, limit, i, key, base);
      RunSeeded(r, limit, i + 1, n, key, base);
    }
  }

  lemma LookupSeeded(s: State, step: Step, s': State, limit: Option<nat>, base: SlotId)
    requires s.cache.Keyed() && Next(s, step, s', limit) && step.Lookup? && Seeded(s, step.key, base)
    ensures step.caller in s'.callers && base <= s'.callers[step.caller].slot < |s'.cache.slots|
    ensures s'.cache.slots[s'.callers[step.caller].slot].key == step.key
  {
  }

  /**
   Read your writes: once `mark_present` has run for a key that is in S3, no call of `present` that takes
   the mutex later answers false, whatever probes were in flight and however late they resolve.
   */
  lemma ReadYourWrites(r: Run, limit: Option<nat>, m: nat, j: nat, n: nat, key: Key)
    requires r.Valid(limit) && m < j < n <= |r.steps|
    requires r.steps[m].Mark? && r.steps[m].key == key && key in r.states[m].objects && KeptFrom(r, m, key)
    requires r.steps[j].Lookup? && r.steps[j].key == key
    ensures !AnsweredFalse(r.states[n], r.steps[j].caller)
  {
    var base, c := |r.states[m].cache.slots|, r.steps[j].caller;
    RunConsistent(r, limit, m);
    SeededByMark(r.states[m], r.steps[m], r.states[m + 1], limit);
    RunSeeded(r, limit, m + 1, j, key, base);
    RunConsistent(r, limit, j);
    LookupSeeded(r.states[j], r.steps[j], r.states[j + 1], limit, base);
    RunSeeded(r, limit, m + 1, n, key, base);
    RunGrows(r, limit, j + 1, n);
    RunConsistent(r, limit, n);
    assert r.states[n].cache.slots[r.states[n].callers[c].slot].key == key;
  }

  // ---------- positive soundness ----------

  /** `mark_present` is only called for a key that was in S3 at or before the call. */
  ghost predicate MarksConfirmed(r: Run) {
    forall i :: 0 <= i < |r.steps| && i < |r.states| && r.steps[i].Mark? ==>
      exists o :: 0 <= o <= i && r.steps[i].key in r.states[o].objects
  }

  /** Every cached or seen `true`, reachable through the table or not, is about a key that is in S3. */
  ghost predicate PresenceTrue(s: State) {
    && (forall id :: 0 <= id < |s.cache.slots| && s.cache.slots[id].cell.Resolved? ==>
          s.cache.slots[id].cell.sight.present ==> s.cache.slots[id].key in s.objects)
    && (forall c :: c in s.callers && s.callers[c].phase.Probing? && s.callers[c].phase.seen.Some? ==>
          s.callers[c].phase.seen.value.present ==> s.cache.slots[s.callers[c].slot].key in s.objects)
  }

  lemma PresenceStep(s: State, step: Step, s': State, limit: Option<nat>)
    requires Next(s, step, s', limit) && PresenceTrue(s) && !step.Delete?
    requires step.Mark? ==> step.key in s.objects
    ensures PresenceTrue(s') && s.objects <= s'.objects
  {
  }

  lemma {:induction false} ObjectsKept(r: Run, limit: Option<nat>, i: nat, n: nat)
    requires r.Valid(limit) && r.NoDeletes() && i <= n <= |r.steps|
    ensures r.states[i].objects <= r.states[n].objects
    decreases n
  {
    if i < n {
      ObjectsKept(r, limit, i, n - 1);
      assert Next(r.states[n - 1], r.steps[n - 1], r.states[n], limit);
    }
  }

  lemma {:induction false} RunPresenceTrue(r: Run, limit: Option<nat>, n: nat)
    requires r.Valid(limit) && r.NoDeletes() && MarksConfirmed(r) && n <= |r.steps|
    ensures PresenceTrue(r.states[n])
  {
    if n > 0 {
      RunPresenceTrue(r, limit, n - 1);
      if r.steps[n - 1].Mark? {
        var o :| 0 <= o <= n - 1 && r.steps[n - 1].key in r.states[o].objects;
        ObjectsKept(r, limit, o, n - 1);
      }
      PresenceStep(r.states[n - 1], r.steps[n - 1], r.states[n], limit);
    }
  }

  /** Without deletes a call that answers true tells the truth about S3, then and for the rest of the run. */
  lemma PositiveSoundness(r: Run, limit: Option<nat>, n: nat, o: nat, c: CallerId)
    requires r.Valid(limit) && r.NoDeletes() && MarksConfirmed(r) && n <= o <= |r.steps|
    requires c in r.states[n].callers && r.states[n].callers[c].phase == Answered(Ok(true))
    ensures r.states[n].cache.slots[r.states[n].callers[c].slot].key in r.states[o].objects
  {
    RunPresenceTrue(r, limit, n);
    RunConsistent(r, limit, n);
    ObjectsKept(r, limit, n, o);
    assert CellOf(r.states[n], c) == r.states[n].cache.slots[r.states[n].callers[c].slot].cell;
  }
}
