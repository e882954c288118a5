/** What every step of the probe cache keeps, and what a run never undoes. */
module ProbeInvariants {
  import opened Common
  import opened ProbeMachine

  // ---------- state invariants ----------

  /** A cell names its runner exactly when that caller is in its closure on that slot. */
  ghost predicate RunnersMatch(s: State) {
    && (forall id :: 0 <= id < |s.cache.slots| && s.cache.slots[id].cell.Running? ==>
          var c := s.cache.slots[id].cell.owner;
          c in s.callers && s.callers[c].phase.Probing? && s.callers[c].slot == id)
    && (forall c :: c in s.callers && s.callers[c].phase.Probing? ==> CellOf(s, c) == Running(c))
  }

  /** An Ok answer is the value the slot's cell holds. */
  ghost predicate AnswersMatch(s: State) {
    forall c :: c in s.callers && s.callers[c].phase.Answered? && s.callers[c].phase.answer.Ok? ==>
      CellOf(s, c).Resolved? && CellOf(s, c).sight.present == s.callers[c].phase.answer.present
  }

  /** Slots and sights never lie in the future, and nothing is seen for a slot before the slot's clock reading. */
  ghost predicate SlotsTimely(s: State) {
    forall id :: 0 <= id < |s.cache.slots| ==>
      var slot := s.cache.slots[id];
      slot.created <= s.now && (slot.cell.Resolved? ==> slot.created <= slot.cell.sight.at <= s.now)
  }

  /** Neither do attempts, which begin after the slot's clock reading and see after they began. */
  ghost predicate AttemptsTimely(s: State) {
    forall c :: c in s.callers && s.callers[c].phase.Probing? ==>
      var p := s.callers[c].phase;
      && s.cache.slots[s.callers[c].slot].created <= p.began <= s.now
      && (p.seen.Some? ==> p.began <= p.seen.value.at <= s.now)
  }

  ghost predicate Timely(s: State) {
    SlotsTimely(s) && AttemptsTimely(s)
  }

  ghost predicate Consistent(s: State) {
    s.cache.Keyed() && RunnersMatch(s) && AnswersMatch(s) && Timely(s)
  }

  lemma KeyedStep(s: State, step: Step, s': State, limit: Option<nat>)
    requires s.cache.Keyed() && Next(s, step, s', limit)
    ensures s'.cache.Keyed()
  {
  }

  lemma RunnersStepShared(s: State, step: Step, s': State, limit: Option<nat>)
    requires RunnersMatch(s) && Next(s, step, s', limit)
    requires step.Tick? || step.Locks() || step.Write? || step.Delete?
    ensures RunnersMatch(s')
  {
  }

  lemma RunnersStepCell(s: State, step: Step, s': State, limit: Option<nat>)
    requires RunnersMatch(s) && Next(s, step, s', limit)
    requires step.Start? || step.Succeed? || step.Fail? || (step.Cancel? && s.In(step.caller, false))
    ensures RunnersMatch(s')
  {
    var c := step.caller;
    var id := s.callers[c].slot;
    assert forall d :: d in s.callers && d != c && s.callers[d].phase.Probing? ==> s.callers[d].slot != id;
  }

  lemma RunnersStep(s: State, step: Step, s': State, limit: Option<nat>)
    requires RunnersMatch(s) && Next(s, step, s', limit)
    ensures RunnersMatch(s')
  {
    if step.Tick? || step.Locks() || step.Write? || step.Delete? {
      RunnersStepShared(s, step, s', limit);
    } else if step.Start? || step.Succeed? || step.Fail? || (step.Cancel? && s.In(step.caller, false)) {
      RunnersStepCell(s, step, s', limit);
    }
  }

  lemma AnswersStep(s: State, step: Step, s': State, limit: Option<nat>)
    requires RunnersMatch(s) && AnswersMatch(s) && Next(s, step, s', limit)
    ensures AnswersMatch(s')
  {
  }

  lemma SlotsTimelyStep(s: State, step: Step, s': State, limit: Option<nat>)
    requires Timely(s) && Next(s, step, s', limit)
    ensures SlotsTimely(s')
  {
  }

  lemma AttemptsTimelyStep(s: State, step: Step, s': State, limit: Option<nat>)
    requires Timely(s) && Next(s, step, s', limit)
    ensures AttemptsTimely(s')
  {
  }

  lemma TimelyStep(s: State, step: Step, s': State, limit: Option<nat>)
    requires Timely(s) && Next(s, step, s', limit)
    ensures Timely(s')
  {
    SlotsTimelyStep(s, step, s', limit);
    AttemptsTimelyStep(s, step, s', limit);
  }

  lemma ConsistentStep(s: State, step: Step, s': State, limit: Option<nat>)
    requires Consistent(s) && Next(s, step, s', limit)
    ensures Consistent(s')
  {
    KeyedStep(s, step, s', limit);
    RunnersStep(s, step, s', limit);
    AnswersStep(s, step, s', limit);
    TimelyStep(s, step, s', limit);
  }

  lemma {:induction false} RunConsistent(r: Run, limit: Option<nat>, i: nat)
    requires r.Valid(limit) && i <= |r.steps|
    ensures Consistent(r.states[i])
  {
    if i > 0 {
      RunConsistent(r, limit, i - 1);
      ConsistentStep(r.states[i - 1], r.steps[i - 1], r.states[i], limit);
    }
  }

  // ---------- what is never undone ----------

  /** Slots are never freed or re-timed, a resolved cell keeps its value, the clock does not go back. */
  ghost predicate Grows(s: State, s': State) {
    && s.now <= s'.now
    && |s.cache.slots| <= |s'.cache.slots|
    && (forall id :: 0 <= id < |s.cache.slots| ==>
          var slot, slot' := s.cache.slots[id], s'.cache.slots[id];
          slot.key == slot'.key && slot.created == slot'.created &&
          (slot.cell.Resolved? ==> slot'.cell == slot.cell))
    && (forall c :: c in s.callers ==>
          c in s'.callers && s'.callers[c].slot == s.callers[c].slot && s'.callers[c].clock == s.callers[c].clock)
  }

  lemma GrowsStep(s: State, step: Step, s': State, limit: Option<nat>)
    requires RunnersMatch(s) && Next(s, step, s', limit)
    ensures Grows(s, s')
  {
  }

  lemma GrowsTransitive(s: State, t: State, u: State)
    requires Grows(s, t) && Grows(t, u)
    ensures Grows(s, u)
  {
    forall id | 0 <= id < |s.cache.slots|
      ensures var slot, slot' := s.cache.slots[id], u.cache.slots[id];
              slot.key == slot'.key && slot.created == slot'.created &&
              (slot.cell.Resolved? ==> slot'.cell == slot.cell)
    {
      assert t.cache.slots[id].key == s.cache.slots[id].key;
    }
  }

  lemma GrowsAt(r: Run, limit: Option<nat>, i: nat)
    requires r.Valid(limit) && i < |r.steps|
    ensures Grows(r.states[i], r.states[i + 1])
  {
    RunConsistent(r, limit, i);
    GrowsStep(r.states[i], r.steps[i], r.states[i + 1], limit);
  }

  lemma {:induction false} RunGrows(r: Run, limit: Option<nat>, i: nat, j: nat)
    requires r.Valid(limit) && i <= j <= |r.steps|
    ensures Grows(r.states[i], r.states[j])
    decreases j - i
  {
    if i < j {
      GrowsAt(r, limit, i);
      RunGrows(r, limit, i + 1, j);
      GrowsTransitive(r.states[i], r.states[i + 1], r.states[j]);
    }
  }
}
