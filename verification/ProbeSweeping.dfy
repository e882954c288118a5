/** The sweep: exactly when it changes no decision; it bounds the table; and probes open at a bounded rate. */
module ProbeSweeping {
  import opened Common
  import opened ProbeMachine
  import opened ProbeInvariants
  import opened ProbeSingleFlight

  // ---------- dead slots ----------

  /** The cell went through part of its life: running, released, resolved for good. */
  ghost predicate Aged(slot: Slot, slot': Slot) {
    && slot.key == slot'.key && slot.created == slot'.created
    && (slot.cell.Resolved? ==> slot'.cell == slot.cell)
  }

  /** A slot that is not live never becomes live again, whatever its cell resolves to later. */
  lemma DeadStaysDead(slot: Slot, slot': Slot, clock: Time, clock': Time)
    requires Aged(slot, slot') && clock <= clock' && !Live(slot, clock)
    ensures !Live(slot', clock')
  {
  }

  // ---------- what a table that never sweeps holds ----------

  /** The newest slot of `key`. */
  predicate Newest(s: State, key: Key, id: SlotId) {
    && id < |s.cache.slots| && s.cache.slots[id].key == key
    && forall j :: id < j < |s.cache.slots| ==> s.cache.slots[j].key != key
  }

  /** A table entry is the key's newest slot. */
  ghost predicate TableNewest(s: State) {
    forall k :: k in s.cache.table ==> Newest(s, k, s.cache.table[k])
  }

  /** Every key that ever had a slot has an entry. */
  ghost predicate TableComplete(s: State) {
    forall id :: 0 <= id < |s.cache.slots| ==> s.cache.slots[id].key in s.cache.table
  }

  lemma TableNewestInsert(s: State, s': State, key: Key, slot: Slot, clock: Time, limit: Option<nat>)
    requires TableNewest(s) && slot.key == key && s'.cache == Insert(s.cache, key, slot, clock, limit)
    ensures TableNewest(s')
  {
  }

  lemma TableNewestStep(s: State, step: Step, s': State, limit: Option<nat>)
    requires Next(s, step, s', limit) && TableNewest(s)
    ensures TableNewest(s')
  {
    if |s.cache.slots| < |s'.cache.slots| {
      TableNewestInsert(s, s', step.key, s'.cache.slots[|s.cache.slots|], step.clock, limit);
    } else {
      assert s'.cache.table == s.cache.table;
      assert forall i :: 0 <= i < |s.cache.slots| ==> s'.cache.slots[i].key == s.cache.slots[i].key;
    }
  }

  lemma {:induction false} RunTableNewest(r: Run, limit: Option<nat>, n: nat)
    requires r.Valid(limit) && n <= |r.steps|
    ensures TableNewest(r.states[n])
  {
    if n > 0 {
      RunTableNewest(r, limit, n - 1);
      TableNewestStep(r.states[n - 1], r.steps[n - 1], r.states[n], limit);
    }
  }

  lemma TableCompleteStep(s: State, step: Step, s': State)
    requires Next(s, step, s', None) && TableComplete(s)
    ensures TableComplete(s')
  {
  }

  lemma {:induction false} RunTableComplete(r: Run, n: nat)
    requires r.Valid(None) && n <= |r.steps|
    ensures TableComplete(r.states[n])
  {
    if n > 0 {
      RunTableComplete(r, n - 1);
      TableCompleteStep(r.states[n - 1], r.steps[n - 1], r.states[n]);
    }
  }

  /** Slots that a step makes do not change which of the old ones is the newest of its key. */
  lemma NewestKept(s: State, step: Step, s': State, limit: Option<nat>, key: Key, e: SlotId)
    requires Next(s, step, s', limit) && Newest(s', key, e) && e < |s.cache.slots|
    ensures Newest(s, key, e)
  {
    assert forall j :: 0 <= j < |s.cache.slots| ==> s'.cache.slots[j].key == s.cache.slots[j].key;
  }

  // ---------- the sweep is invisible ----------

  /** A lookup of `key` at `clock` misses a slot that is still live at that reading, because it was swept away. */
  ghost predicate SweptLive(s: State, key: Key, clock: Time) {
    key !in s.cache.table && exists id: SlotId :: Newest(s, key, id) && Live(s.cache.slots[id], clock)
  }

  /** No lookup of a key satisfying `about` does. */
  ghost predicate SweepUnseen(r: Run, about: Key -> bool) {
    forall i :: 0 <= i < |r.steps| && i < |r.states| && r.steps[i].Lookup? && about(r.steps[i].key) ==>
      !SweptLive(r.states[i], r.steps[i].key, r.steps[i].clock)
  }

  function Any(key: Key): bool {
    true
  }

  ghost predicate SameButTable(a: State, b: State) {
    a.now == b.now && a.objects == b.objects && a.callers == b.callers && a.cache.slots == b.cache.slots
  }

  lemma LookupAgrees(a: State, b: State, key: Key, clock: Time)
    requires SameButTable(a, b) && TableNewest(a) && TableNewest(b) && TableComplete(b)
    ensures b.cache.Hit(key, clock) <==> a.cache.Hit(key, clock) || SweptLive(a, key, clock)
    ensures key in a.cache.table ==> key in b.cache.table && b.cache.table[key] == a.cache.table[key]
  {
    if key in b.cache.table {
      assert Newest(a, key, b.cache.table[key]);
    }
    if key in a.cache.table {
      assert Newest(a, key, a.cache.table[key]);
    }
  }

  lemma SameStep(a: State, b: State, step: Step, a': State, limit: Option<nat>)
    requires SameButTable(a, b) && TableNewest(a) && TableNewest(b) && TableComplete(b) && Next(a, step, a', limit)
    requires step.Lookup? ==> !SweptLive(a, step.key, step.clock)
    ensures Enabled(b, step) && SameButTable(a', Apply(b, step, None))
  {
    if step.Lookup? {
      LookupAgrees(a, b, step.key, step.clock);
    }
  }

  /** `q` takes the steps of `r` on a cache that never sweeps, and everything but the table is the same throughout. */
  ghost predicate Unswept(r: Run, q: Run) {
    && q.Valid(None) && q.steps == r.steps && |q.states| == |r.states|
    && forall i :: 0 <= i < |r.states| ==> SameButTable(r.states[i], q.states[i])
  }

  /** A never-sweeping cache can take the same steps. */
  lemma {:induction false} UnsweptTwin(r: Run, limit: Option<nat>, n: nat) returns (q: Run)
    requires r.Valid(limit) && SweepUnseen(r, Any) && n <= |r.steps|
    ensures Unswept(Run(r.states[..n + 1], r.steps[..n]), q)
  {
    if n == 0 {
      q := Run([r.states[0]], []);
    } else {
      var p := UnsweptTwin(r, limit, n - 1);
      RunTableNewest(r, limit, n - 1);
      RunTableNewest(p, None, n - 1);
      RunTableComplete(p, n - 1);
      assert SameButTable(r.states[..n][n - 1], p.Last());
      SameStep(r.states[n - 1], p.Last(), r.steps[n - 1], r.states[n], limit);
      q := Extend(p, r.steps[n - 1], None);
      ExtendValid(p, r.steps[n - 1], None);
      assert r.steps[..n] == r.steps[..n - 1] + [r.steps[n - 1]];
      assert r.states[..n + 1] == r.states[..n] + [r.states[n]];
    }
  }

  lemma UnsweptMeansUnseen(r: Run, limit: Option<nat>, q: Run, i: nat)
    requires r.Valid(limit) && Unswept(r, q) && i < |r.steps| && r.steps[i].Lookup?
    ensures !SweptLive(r.states[i], r.steps[i].key, r.steps[i].clock)
  {
    RunTableNewest(r, limit, i);
    RunTableNewest(q, None, i);
    RunTableComplete(q, i);
    assert SameButTable(r.states[i], q.states[i]) && SameButTable(r.states[i + 1], q.states[i + 1]);
    LookupAgrees(r.states[i], q.states[i], r.steps[i].key, r.steps[i].clock);
    assert Next(r.states[i], r.steps[i], r.states[i + 1], limit) && Next(q.states[i], r.steps[i], q.states[i + 1], None);
  }

  /**
   Exactly when the sweep is invisible: a cache that sweeps at any threshold hands the same slots to the same
   callers as one that never sweeps, all through a run, if and only if no lookup misses a slot that has been
   swept away and is still live at the lookup's own clock reading.
   */
  lemma SweepInvisibleExact(r: Run, limit: Option<nat>)
    requires r.Valid(limit)
    ensures (exists q :: Unswept(r, q)) <==> SweepUnseen(r, Any)
  {
    if SweepUnseen(r, Any) {
      var q := UnsweptTwin(r, limit, |r.steps|);
      assert r.states[..|r.steps| + 1] == r.states && r.steps[..|r.steps|] == r.steps;
      assert Unswept(r, q);
    }
    forall q, i | Unswept(r, q) && 0 <= i < |r.steps| && r.steps[i].Lookup?
      ensures !SweptLive(r.states[i], r.steps[i].key, r.steps[i].clock)
    {
      UnsweptMeansUnseen(r, limit, q, i);
    }
  }

  // ---------- clock readings in lock order ----------

  /** The clock reading of the last step before `n` that took the mutex. */
  function LastClock(steps: seq<Step>, n: nat): Time
    requires n <= |steps|
  {
    if n == 0 then 0 else if steps[n - 1].Locks() then steps[n - 1].clock else LastClock(steps, n - 1)
  }

  lemma {:induction false} LastClockOrdered(r: Run, n: nat, j: nat)
    requires r.ClockOrdered() && n <= j < |r.steps| && r.steps[j].Locks()
    ensures LastClock(r.steps, n) <= r.steps[j].clock
  {
    if n > 0 && !r.steps[n - 1].Locks() {
      LastClockOrdered(r, n - 1, j);
    }
  }

  /** What the table has lost is of no use to a lookup at `clock` or later. */
  ghost predicate SweptDead(s: State, clock: Time) {
    forall id :: 0 <= id < |s.cache.slots| && s.cache.slots[id].key !in s.cache.table && Newest(s, s.cache.slots[id].key, id) ==>
      !Live(s.cache.slots[id], clock)
  }

  lemma SweptDeadLocking(s: State, step: Step, s': State, limit: Option<nat>, clock: Time)
    requires Next(s, step, s', limit) && TableNewest(s) && SweptDead(s, clock) && step.Locks() && clock <= step.clock
    ensures SweptDead(s', step.clock)
  {
    forall id | 0 <= id < |s'.cache.slots| && s'.cache.slots[id].key !in s'.cache.table && Newest(s', s'.cache.slots[id].key, id)
      ensures !Live(s'.cache.slots[id], step.clock)
    {
      var key := s'.cache.slots[id].key;
      NewestKept(s, step, s', limit, key, id);
      assert key in s.cache.table ==> s.cache.table[key] == id;
    }
  }

  lemma SweptDeadOther(s: State, step: Step, s': State, limit: Option<nat>, clock: Time)
    requires RunnersMatch(s) && Next(s, step, s', limit) && SweptDead(s, clock) && !step.Locks()
    ensures SweptDead(s', clock)
  {
    GrowsStep(s, step, s', limit);
    assert |s'.cache.slots| == |s.cache.slots| && s'.cache.table == s.cache.table;
    forall id | 0 <= id < |s'.cache.slots| && s'.cache.slots[id].key !in s'.cache.table && Newest(s', s'.cache.slots[id].key, id)
      ensures !Live(s'.cache.slots[id], clock)
    {
      NewestKept(s, step, s', limit, s.cache.slots[id].key, id);
      DeadStaysDead(s.cache.slots[id], s'.cache.slots[id], clock, clock);
    }
  }

  lemma SweptDeadAt(r: Run, limit: Option<nat>, i: nat)
    requires r.Valid(limit) && r.ClockOrdered() && i < |r.steps| && SweptDead(r.states[i], LastClock(r.steps, i))
    ensures SweptDead(r.states[i + 1], LastClock(r.steps, i + 1))
  {
    var clock, step := LastClock(r.steps, i), r.steps[i];
    RunConsistent(r, limit, i);
    RunTableNewest(r, limit, i);
    if step.Locks() {
      LastClockOrdered(r, i, i);
      SweptDeadLocking(r.states[i], step, r.states[i + 1], limit, clock);
    } else {
      SweptDeadOther(r.states[i], step, r.states[i + 1], limit, clock);
    }
  }

  lemma {:induction false} RunSweptDead(r: Run, limit: Option<nat>, n: nat)
    requires r.Valid(limit) && r.ClockOrdered() && n <= |r.steps|
    ensures SweptDead(r.states[n], LastClock(r.steps, n))
  {
    if n > 0 {
      RunSweptDead(r, limit, n - 1);
      SweptDeadAt(r, limit, n - 1);
    }
  }

  lemma DeadUnseen(s: State, key: Key, clock: Time, clock': Time)
    requires SweptDead(s, clock) && clock <= clock'
    ensures !SweptLive(s, key, clock')
  {
  }

  lemma OrderedUnseen(r: Run, limit: Option<nat>)
    requires r.Valid(limit) && r.ClockOrdered()
    ensures SweepUnseen(r, Any)
  {
    forall i | 0 <= i < |r.steps| && r.steps[i].Lookup?
      ensures !SweptLive(r.states[i], r.steps[i].key, r.steps[i].clock)
    {
      RunSweptDead(r, limit, i);
      LastClockOrdered(r, i, i);
      DeadUnseen(r.states[i], r.steps[i].key, LastClock(r.steps, i), r.steps[i].clock);
    }
  }

  /** With a monotone clock the sweep is never seen, and what it took from the table is dead at the last reading. */
  lemma SweepInvisible(r: Run, limit: Option<nat>, n: nat) returns (q: Run)
    requires r.Valid(limit) && r.ClockOrdered() && n <= |r.steps|
    ensures Unswept(r, q)
    ensures SweptDead(r.states[n], LastClock(r.steps, n))
  {
    OrderedUnseen(r, limit);
    RunSweptDead(r, limit, n);
    q := UnsweptTwin(r, limit, |r.steps|);
    assert r.states[..|r.steps| + 1] == r.states && r.steps[..|r.steps|] == r.steps;
  }

  // ---------- a sweep that is seen ----------

  /** Pairwise different keys. */
  function Pad(i: nat): Key {
    seq(i, _ => 'a')
  }

  function PadTable(n: nat): map<Key, SlotId> {
    if n == 0 then map[] else PadTable(n - 1)[Pad(n - 1) := n - 1]
  }

  lemma {:induction false} PadTableHolds(n: nat)
    ensures |PadTable(n)| == n
    ensures forall k :: k in PadTable(n) <==> |k| < n && k == Pad(|k|)
    ensures forall k :: k in PadTable(n) ==> PadTable(n)[k] == |k|
  {
    if n > 0 {
      PadTableHolds(n - 1);
      assert Pad(n - 1) !in PadTable(n - 1);
    }
  }

  /** The first `n` keys have been looked up at second 0, each by a caller of its own. */
  ghost predicate Padded(s: State, n: nat) {
    && s.cache.table == PadTable(n) && |s.cache.slots| == n
    && (forall i :: 0 <= i < n ==> s.cache.slots[i] == Slot(Pad(i), 0, Unset))
    && (forall c :: c in s.callers ==> c < n)
  }

  lemma PadOnce(s: State, t: nat, n: nat)
    requires Padded(s, n) && n <= t
    ensures Enabled(s, Lookup(n, Pad(n), 0))
    ensures Padded(Apply(s, Lookup(n, Pad(n), 0), Some(t)), n + 1)
    ensures Apply(s, Lookup(n, Pad(n), 0), Some(t)).now == s.now
  {
    PadTableHolds(n);
    assert Pad(n) !in s.cache.table;
  }

  lemma {:induction false} PadUp(t: nat, n: nat) returns (r: Run)
    requires n <= t + 1
    ensures r.Valid(Some(t)) && |r.steps| == n && Padded(r.Last(), n) && r.Last().now == 0
  {
    if n == 0 {
      r := Run([State(0, {}, Cache(map[], []), map[])], []);
    } else {
      var p := PadUp(t, n - 1);
      PadOnce(p.Last(), t, n - 1);
      r := Extend(p, Lookup(n - 1, Pad(n - 1), 0), Some(t));
      ExtendValid(p, Lookup(n - 1, Pad(n - 1), 0), Some(t));
    }
  }

  /** The table is then over its threshold, and a lookup at second 60 sweeps all of it away. */
  lemma SweptAway(s: State, t: nat)
    requires Padded(s, t + 1) && s.now == 60 * SECOND
    ensures Enabled(s, Lookup(t + 1, Pad(t + 1), 60 * SECOND))
    ensures var s' := Apply(s, Lookup(t + 1, Pad(t + 1), 60 * SECOND), Some(t));
            && s'.now == s.now && s'.cache.table == map[Pad(t + 1) := t + 1]
            && s'.cache.slots == s.cache.slots + [Slot(Pad(t + 1), 60 * SECOND, Unset)]
            && forall c :: c in s'.callers ==> c < t + 2
  {
    PadTableHolds(t + 1);
    assert Pad(t + 1) !in s.cache.table;
    assert Sweep(s.cache, 60 * SECOND, Some(t)).table == map[];
  }

  /** A lookup that read the clock at second 0, before all that, misses the slot it would have shared. */
  lemma MissesSwept(s: State, t: nat)
    requires s.cache.table == map[Pad(t + 1) := t + 1] && |s.cache.slots| == t + 2
    requires forall i :: 0 <= i < t + 2 ==> s.cache.slots[i].key == Pad(i)
    requires s.cache.slots[0] == Slot(Pad(0), 0, Unset)
    requires forall c :: c in s.callers ==> c < t + 2
    ensures Enabled(s, Lookup(t + 2, Pad(0), 0)) && SweptLive(s, Pad(0), 0)
    ensures Apply(s, Lookup(t + 2, Pad(0), 0), Some(t)).cache.slots == s.cache.slots + [Slot(Pad(0), 0, Unset)]
  {
    assert |Pad(0)| != |Pad(t + 1)|;
    assert forall j :: 0 < j < |s.cache.slots| ==> |s.cache.slots[j].key| == j;
    assert Newest(s, Pad(0), 0) && Live(s.cache.slots[0], 0);
  }

  lemma SweepAtThreshold(t: nat) returns (r: Run)
    ensures r.Valid(Some(t)) && |r.steps| == t + 3
    ensures r.Last().cache.table == map[Pad(t + 1) := t + 1] && |r.Last().cache.slots| == t + 2
    ensures forall i :: 0 <= i < t + 2 ==> r.Last().cache.slots[i].key == Pad(i)
    ensures r.Last().cache.slots[0] == Slot(Pad(0), 0, Unset)
    ensures forall c :: c in r.Last().callers ==> c < t + 2
  {
    var limit := Some(t);
    var r1 := PadUp(t, t + 1);
    var r2 := Extend(r1, Tick(60 * SECOND), limit);
    ExtendValid(r1, Tick(60 * SECOND), limit);
    SweptAway(r2.Last(), t);
    r := Extend(r2, Lookup(t + 1, Pad(t + 1), 60 * SECOND), limit);
    ExtendValid(r2, Lookup(t + 1, Pad(t + 1), 60 * SECOND), limit);
  }

  /**
   At every threshold, the code's included: a lookup that read the clock at second 0 and then waited for the
   mutex misses the slot it would have shared, and opens a second one at the same reading.
   */
  lemma LateLookupSeesSweep(t: nat) returns (r: Run)
    ensures r.Valid(Some(t)) && !exists q :: Unswept(r, q)
    ensures var slots := r.Last().cache.slots;
            |slots| == t + 3 && slots[0] == slots[t + 2] == Slot(Pad(0), 0, Unset)
  {
    var limit := Some(t);
    var r1 := SweepAtThreshold(t);
    MissesSwept(r1.Last(), t);
    r := Extend(r1, Lookup(t + 2, Pad(0), 0), limit);
    ExtendValid(r1, Lookup(t + 2, Pad(0), 0), limit);
    assert r.states[t + 3] == r1.Last() && r.steps[t + 3] == Lookup(t + 2, Pad(0), 0);
    SweepInvisibleExact(r, limit);
  }

  // ---------- the rate of probes ----------

  /** Step `i` is a lookup of `key` that opened a slot of its own. */
  ghost predicate OpensAt(r: Run, i: nat, key: Key) {
    && i < |r.steps| && i + 1 < |r.states|
    && r.steps[i].Lookup? && r.steps[i].key == key
    && |r.states[i].cache.slots| < |r.states[i + 1].cache.slots|
  }

  /** No slot of `key` was made with a clock reading later than `clock`. */
  ghost predicate KeyCreatedBy(s: State, key: Key, clock: Time) {
    forall id :: 0 <= id < |s.cache.slots| && s.cache.slots[id].key == key ==> s.cache.slots[id].created <= clock
  }

  /** No seed of `key` is read before an earlier slot of `key` was. */
  ghost predicate SeedsNewest(r: Run, key: Key) {
    forall i :: 0 <= i < |r.steps| && i < |r.states| && r.steps[i].Mark? && r.steps[i].key == key ==>
      KeyCreatedBy(r.states[i], key, r.steps[i].clock)
  }

  /** What the rates of probes for `key` rest on; both hold if clock readings come in lock order. */
  ghost predicate KeyTimely(r: Run, key: Key) {
    SeedsNewest(r, key) && SweepUnseen(r, k => k == key)
  }

  lemma OrderedKeyTimely(r: Run, limit: Option<nat>, key: Key)
    requires r.Valid(limit) && r.ClockOrdered()
    ensures KeyTimely(r, key)
  {
    OrderedUnseen(r, limit);
    forall i | 0 <= i < |r.steps| && r.steps[i].Mark? && r.steps[i].key == key
      ensures KeyCreatedBy(r.states[i], key, r.steps[i].clock)
    {
      CreatedBeforeLock(r, limit, i, i);
    }
  }

  /** Where the key's newest slot `e` can stand, once slot `id` was made by a probe. */
  ghost predicate SpacedAfter(s: State, e: SlotId, id: SlotId)
    requires e < |s.cache.slots| && id < |s.cache.slots|
  {
    var newest, first := s.cache.slots[e], s.cache.slots[id];
    || e == id
    || (newest.cell.Resolved? && newest.cell.sight.present && newest.created >= first.created)
    || (newest.created >= first.created + 5 * SECOND && first.cell.Resolved? && !first.cell.sight.present)
    || newest.created >= first.created + 60 * SECOND
  }

  ghost predicate SpacedFromProbe(s: State, key: Key, id: SlotId) {
    && id < |s.cache.slots| && s.cache.slots[id].key == key
    && forall e :: 0 <= e < |s.cache.slots| && Newest(s, key, e) ==> SpacedAfter(s, e, id)
  }

  /** The lookup is timely for `key`: it misses nothing that was swept and is live. The seed is: it is the newest. */
  ghost predicate StepTimely(s: State, step: Step, key: Key) {
    && (step.Mark? && step.key == key ==> KeyCreatedBy(s, key, step.clock))
    && (step.Lookup? && step.key == key ==> !SweptLive(s, key, step.clock))
  }

  lemma {:induction false} NewestExists(s: State, key: Key, id: SlotId, n: nat) returns (e: SlotId)
    requires id < n <= |s.cache.slots| && s.cache.slots[id].key == key
    requires forall j :: n <= j < |s.cache.slots| ==> s.cache.slots[j].key != key
    ensures Newest(s, key, e)
  {
    if s.cache.slots[n - 1].key == key {
      e := n - 1;
    } else {
      e := NewestExists(s, key, id, n - 1);
    }
  }

  /** A lookup that opens a slot found the newest one of its key dead. */
  lemma OpenedOnDead(s: State, step: Step, s': State, limit: Option<nat>, e: SlotId)
    requires Next(s, step, s', limit) && TableNewest(s) && step.Lookup? && StepTimely(s, step, step.key)
    requires |s.cache.slots| < |s'.cache.slots| && Newest(s, step.key, e)
    ensures !Live(s.cache.slots[e], step.clock)
  {
    if step.key in s.cache.table {
      assert Newest(s, step.key, s.cache.table[step.key]);
    }
  }

  lemma SpacedFromProbeStep(s: State, step: Step, s': State, limit: Option<nat>, key: Key, id: SlotId)
    requires RunnersMatch(s) && TableNewest(s) && Next(s, step, s', limit) && SpacedFromProbe(s, key, id)
    requires StepTimely(s, step, key)
    ensures SpacedFromProbe(s', key, id)
  {
    GrowsStep(s, step, s', limit);
    var e0 := NewestExists(s, key, id, |s.cache.slots|);
    assert SpacedAfter(s, e0, id);
    forall e | 0 <= e < |s'.cache.slots| && Newest(s', key, e)
      ensures SpacedAfter(s', e, id)
    {
      if e < |s.cache.slots| {
        NewestKept(s, step, s', limit, key, e);
      } else if step.Lookup? {
        OpenedOnDead(s, step, s', limit, e0);
      }
    }
  }

  lemma StepTimelyAt(r: Run, i: nat, key: Key)
    requires KeyTimely(r, key) && i < |r.steps| && i < |r.states|
    ensures StepTimely(r.states[i], r.steps[i], key)
  {
  }

  lemma SpacedFromProbeAt(r: Run, limit: Option<nat>, i: nat, key: Key, id: SlotId)
    requires r.Valid(limit) && KeyTimely(r, key) && i < |r.steps| && SpacedFromProbe(r.states[i], key, id)
    ensures SpacedFromProbe(r.states[i + 1], key, id)
  {
    RunConsistent(r, limit, i);
    RunTableNewest(r, limit, i);
    StepTimelyAt(r, i, key);
    SpacedFromProbeStep(r.states[i], r.steps[i], r.states[i + 1], limit, key, id);
  }

  lemma {:induction false} RunSpacedFromProbe(r: Run, limit: Option<nat>, i: nat, n: nat, key: Key, id: SlotId)
    requires r.Valid(limit) && KeyTimely(r, key) && i <= n <= |r.steps|
    requires SpacedFromProbe(r.states[i], key, id)
    ensures SpacedFromProbe(r.states[n], key, id)
    decreases n - i
  {
    if i < n {
      SpacedFromProbeAt(r, limit, i, key, id);
      RunSpacedFromProbe(r, limit, i + 1, n, key, id);
    }
  }

  /** Where the key's newest slot can stand, once the key was seeded at `clock`: a later seed, or long after. */
  ghost predicate SpacedAfterSeed(newest: Slot, clock: Time) {
    || (newest.cell.Resolved? && newest.cell.sight.present && newest.created >= clock)
    || newest.created >= clock + 60 * SECOND
  }

  /** `id` is the seed. */
  ghost predicate SpacedFromSeed(s: State, key: Key, id: SlotId, clock: Time) {
    && id < |s.cache.slots| && s.cache.slots[id].key == key
    && forall e :: 0 <= e < |s.cache.slots| && Newest(s, key, e) ==> SpacedAfterSeed(s.cache.slots[e], clock)
  }

  lemma SpacedFromSeedStep(s: State, step: Step, s': State, limit: Option<nat>, key: Key, id: SlotId, clock: Time)
    requires RunnersMatch(s) && TableNewest(s) && Next(s, step, s', limit) && SpacedFromSeed(s, key, id, clock)
    requires StepTimely(s, step, key)
    ensures SpacedFromSeed(s', key, id, clock)
  {
    GrowsStep(s, step, s', limit);
    var e0 := NewestExists(s, key, id, |s.cache.slots|);
    forall e | 0 <= e < |s'.cache.slots| && Newest(s', key, e)
      ensures SpacedAfterSeed(s'.cache.slots[e], clock)
    {
      if e < |s.cache.slots| {
        NewestKept(s, step, s', limit, key, e);
      } else if step.Lookup? {
        OpenedOnDead(s, step, s', limit, e0);
      }
    }
  }

  lemma SeededSpaced(s: State, step: Step, s': State, limit: Option<nat>)
    requires Next(s, step, s', limit) && step.Mark?
    ensures SpacedFromSeed(s', step.key, |s.cache.slots|, step.clock)
  {
  }

  lemma SpacedFromSeedAt(r: Run, limit: Option<nat>, i: nat, key: Key, id: SlotId, clock: Time)
    requires r.Valid(limit) && KeyTimely(r, key) && i < |r.steps| && SpacedFromSeed(r.states[i], key, id, clock)
    ensures SpacedFromSeed(r.states[i + 1], key, id, clock)
  {
    RunConsistent(r, limit, i);
    RunTableNewest(r, limit, i);
    StepTimelyAt(r, i, key);
    SpacedFromSeedStep(r.states[i], r.steps[i], r.states[i + 1], limit, key, id, clock);
  }

  lemma {:induction false} RunSpacedFromSeed(r: Run, limit: Option<nat>, i: nat, n: nat, key: Key, id: SlotId, clock: Time)
    requires r.Valid(limit) && KeyTimely(r, key) && i <= n <= |r.steps| && SpacedFromSeed(r.states[i], key, id, clock)
    ensures SpacedFromSeed(r.states[n], key, id, clock)
    decreases n - i
  {
    if i < n {
      SpacedFromSeedAt(r, limit, i, key, id, clock);
      RunSpacedFromSeed(r, limit, i + 1, n, key, id, clock);
    }
  }

  lemma OpenedSpaced(s: State, step: Step, s': State, limit: Option<nat>)
    requires Next(s, step, s', limit) && step.Lookup? && |s.cache.slots| < |s'.cache.slots|
    ensures SpacedFromProbe(s', step.key, |s.cache.slots|)
    ensures s'.cache.slots[|s.cache.slots|].created == step.clock
  {
  }

  lemma SeedGap(r: Run, limit: Option<nat>, m: nat, j: nat, key: Key)
    requires r.Valid(limit) && KeyTimely(r, key) && m < j && OpensAt(r, j, key)
    requires r.steps[m].Mark? && r.steps[m].key == key
    ensures r.steps[j].clock - r.steps[m].clock >= 60 * SECOND
  {
    SeededSpaced(r.states[m], r.steps[m], r.states[m + 1], limit);
    var s, id := r.states[j], |r.states[m].cache.slots|;
    RunSpacedFromSeed(r, limit, m + 1, j, key, id, r.steps[m].clock);
    var e := NewestExists(s, key, id, |s.cache.slots|);
    RunTableNewest(r, limit, j);
    StepTimelyAt(r, j, key);
    OpenedOnDead(s, r.steps[j], r.states[j + 1], limit, e);
  }

  /**
   Two lookups that each open a probe of one key are at least 5 s apart, and at least
   60 s apart unless the first probe resolved to absent; a write in between also keeps the second
   one 60 s away.
   */
  lemma ProbeGap(r: Run, limit: Option<nat>, i: nat, j: nat, key: Key)
    requires r.Valid(limit) && KeyTimely(r, key) && i < j && OpensAt(r, i, key) && OpensAt(r, j, key)
    ensures var id, gap := |r.states[i].cache.slots|, r.steps[j].clock - r.steps[i].clock;
            && id < |r.states[j].cache.slots|
            && var cell := r.states[j].cache.slots[id].cell;
            gap >= 60 * SECOND || (gap >= 5 * SECOND && cell.Resolved? && !cell.sight.present)
    ensures forall m :: i < m < j && r.steps[m].Mark? && r.steps[m].key == key ==>
              r.steps[j].clock - r.steps[m].clock >= 60 * SECOND
  {
    var id, s := |r.states[i].cache.slots|, r.states[j];
    OpenedSpaced(r.states[i], r.steps[i], r.states[i + 1], limit);
    RunSpacedFromProbe(r, limit, i + 1, j, key, id);
    RunGrows(r, limit, i + 1, j);
    RunTableNewest(r, limit, j);
    StepTimelyAt(r, j, key);
    var e := NewestExists(s, key, id, |s.cache.slots|);
    OpenedOnDead(s, r.steps[j], r.states[j + 1], limit, e);
    assert SpacedAfter(s, e, id);
    forall m | i < m < j && r.steps[m].Mark? && r.steps[m].key == key
      ensures r.steps[j].clock - r.steps[m].clock >= 60 * SECOND
    {
      SeedGap(r, limit, m, j, key);
    }
  }

  /** The probes of `key` opened with a clock reading in [from, from + length]. */
  ghost function Opened(r: Run, key: Key, from: Time, length: Time): set<nat> {
    set i: nat | i < |r.steps| && OpensAt(r, i, key) && from <= r.steps[i].clock <= from + length
  }

  /** At step `i` a probe of `key` succeeds, on a slot made with a clock reading in [from, from + length]. */
  ghost predicate SucceedsAt(r: Run, i: nat, key: Key, from: Time, length: Time) {
    && i < |r.steps| && i < |r.states|
    && r.steps[i].Succeed? && r.steps[i].caller in r.states[i].callers
    && var slot := r.states[i].cache.slots[r.states[i].callers[r.steps[i].caller].slot];
    slot.key == key && from <= slot.created <= from + length
  }

  ghost function Succeeded(r: Run, key: Key, from: Time, length: Time): set<nat> {
    set i: nat | i < |r.steps| && SucceedsAt(r, i, key, from, length)
  }

  /** The step that made slot `id`. */
  lemma {:induction false} MadeAt(r: Run, limit: Option<nat>, n: nat, id: SlotId) returns (m: nat)
    requires r.Valid(limit) && n <= |r.steps| && id < |r.states[n].cache.slots|
    ensures m < n && |r.states[m].cache.slots| == id && id < |r.states[m + 1].cache.slots|
    ensures r.steps[m].Locks() && r.steps[m].key == r.states[n].cache.slots[id].key
    ensures r.steps[m].clock == r.states[n].cache.slots[id].created
  {
    assert n > 0;
    assert Next(r.states[n - 1], r.steps[n - 1], r.states[n], limit);
    if id < |r.states[n - 1].cache.slots| {
      m := MadeAt(r, limit, n - 1, id);
      GrowsAt(r, limit, n - 1);
    } else {
      m := n - 1;
    }
  }

  /** The slot a probe succeeds on was opened by a lookup in the window. */
  lemma SuccessOpened(r: Run, limit: Option<nat>, i: nat, key: Key, from: Time, length: Time) returns (m: nat)
    requires r.Valid(limit) && SucceedsAt(r, i, key, from, length)
    ensures m in Opened(r, key, from, length)
    ensures |r.states[m].cache.slots| == r.states[i].callers[r.steps[i].caller].slot
  {
    var id := r.states[i].callers[r.steps[i].caller].slot;
    assert Next(r.states[i], r.steps[i], r.states[i + 1], limit);
    RunConsistent(r, limit, i);
    assert CellOf(r.states[i], r.steps[i].caller).Running?;
    RunSeedBooks(r, limit, i, id);
    m := MadeAt(r, limit, i, id);
    assert r.steps[m].Lookup?;
  }

  /** No slot is succeeded on twice. */
  lemma SucceedsOnce(r: Run, limit: Option<nat>, i: nat, j: nat, key: Key, from: Time, length: Time)
    requires r.Valid(limit) && i < j && SucceedsAt(r, i, key, from, length) && SucceedsAt(r, j, key, from, length)
    ensures r.states[i].callers[r.steps[i].caller].slot != r.states[j].callers[r.steps[j].caller].slot
  {
    var id := r.states[i].callers[r.steps[i].caller].slot;
    assert Next(r.states[i], r.steps[i], r.states[i + 1], limit);
    assert Next(r.states[j], r.steps[j], r.states[j + 1], limit);
    assert r.states[i + 1].cache.slots[id].cell.Resolved?;
    RunGrows(r, limit, i + 1, j);
    RunConsistent(r, limit, j);
    assert CellOf(r.states[j], r.steps[j].caller).Running?;
  }

  lemma SuccessesWithinOpened(r: Run, limit: Option<nat>, key: Key, from: Time, length: Time)
    requires r.Valid(limit)
    ensures |Succeeded(r, key, from, length)| <= |Opened(r, key, from, length)|
  {
    var successes := Succeeded(r, key, from, length);
    var opening: map<nat, int> := map[];
    forall i | i in successes
      ensures exists m :: m in Opened(r, key, from, length) &&
                |r.states[m].cache.slots| == r.states[i].callers[r.steps[i].caller].slot
    {
      var m := SuccessOpened(r, limit, i, key, from, length);
    }
    opening := map i | i in successes ::
      var m :| m in Opened(r, key, from, length) &&
               |r.states[m].cache.slots| == r.states[i].callers[r.steps[i].caller].slot;
      m;
    forall i, j | i in successes && j in successes && i != j
      ensures opening[i] != opening[j]
    {
      SucceedsOnce(r, limit, if i < j then i else j, if i < j then j else i, key, from, length);
    }
    InjectionBound(successes, opening, Opened(r, key, from, length));
  }

  function Bucket(offset: nat, width: nat): nat
    requires width > 0
  {
    offset / width
  }

  lemma BucketsApart(a: nat, b: nat, width: nat)
    requires width > 0 && a + width <= b
    ensures Bucket(a, width) < Bucket(b, width)
  {
    assert a == (a / width) * width + a % width;
    assert b == (b / width) * width + b % width;
    ScaleOrdered(b / width, a / width, width);
  }

  lemma BucketsOrdered(a: nat, b: nat, width: nat)
    requires width > 0 && a <= b
    ensures Bucket(a, width) <= Bucket(b, width)
  {
    assert a == (a / width) * width + a % width;
    assert b == (b / width) * width + b % width;
    ScaleOrdered(b / width + 1, a / width, width);
  }

  /** Instants pairwise `width` apart in an interval are at most one per bucket. */
  lemma SpacedInstants(marks: set<nat>, clock: map<nat, Time>, from: Time, length: Time, width: Time)
    requires width > 0
    requires forall i :: i in marks ==> i in clock && from <= clock[i] <= from + length
    requires forall i, j :: i in marks && j in marks && i < j ==> clock[i] + width <= clock[j]
    ensures |marks| <= 1 + Bucket(length, width)
  {
    var bucket: map<nat, int> := map i | i in marks :: Bucket(clock[i] - from, width);
    forall i, j | i in marks && j in marks && i < j
      ensures bucket[i] != bucket[j]
    {
      BucketsApart(clock[i] - from, clock[j] - from, width);
    }
    forall i | i in marks
      ensures bucket[i] in Interval(1 + Bucket(length, width))
    {
      BucketsOrdered(clock[i] - from, length, width);
    }
    InjectionBound(marks, bucket, Interval(1 + Bucket(length, width)));
  }

  /**
   However many callers there are, a window opens at most 1 + length / 5 s probes per key, and no more
   than that succeed on what it opened.
   */
  lemma ProbeRate(r: Run, limit: Option<nat>, key: Key, from: Time, length: Time)
    requires r.Valid(limit) && KeyTimely(r, key)
    ensures |Opened(r, key, from, length)| <= 1 + length / (5 * SECOND)
    ensures |Succeeded(r, key, from, length)| <= 1 + length / (5 * SECOND)
  {
    var probes := Opened(r, key, from, length);
    var clock := map i | i in probes :: r.steps[i].clock;
    forall i, j | i in probes && j in probes && i < j
      ensures clock[i] + 5 * SECOND <= clock[j]
    {
      ProbeGap(r, limit, i, j, key);
    }
    SpacedInstants(probes, clock, from, length, 5 * SECOND);
    SuccessesWithinOpened(r, limit, key, from, length);
  }

  // ---------- the size of the table ----------

  /** The slots created in the 60 s before `clock`. */
  ghost function Recent(c: Cache, clock: Time): set<int> {
    set id | 0 <= id < |c.slots| && clock < c.slots[id].created + 60 * SECOND
  }

  ghost predicate Small(c: Cache, threshold: nat, clock: Time) {
    |c.table| <= threshold + 1 || |c.table| <= |Recent(c, clock)|
  }

  /** A table whose entries are all recent is not larger than the number of recent slots. */
  lemma TableWithinRecent(s: State, clock: Time)
    requires s.cache.Keyed()
    requires forall k :: k in s.cache.table ==> s.cache.table[k] in Recent(s.cache, clock)
    ensures |s.cache.table| <= |Recent(s.cache, clock)|
  {
    var table := s.cache.table;
    var ids: map<Key, int> := map k | k in table :: table[k];
    InjectionBound(table.Keys, ids, Recent(s.cache, clock));
    assert |table| == |table.Keys|;
  }

  lemma SweptInsertRecent(s: State, step: Step, s': State, threshold: nat)
    requires Next(s, step, s', Some(threshold)) && step.Locks()
    requires |s.cache.slots| < |s'.cache.slots| && |s.cache.table| > threshold
    ensures forall k :: k in s'.cache.table ==> s'.cache.table[k] in Recent(s'.cache, step.clock)
  {
  }

  lemma UnsweptInsert(c: Cache, key: Key, slot: Slot, clock: Time, threshold: nat)
    requires c.Bounded() && |c.table| <= threshold
    ensures |Insert(c, key, slot, clock, Some(threshold)).table| <= threshold + 1
  {
    var table := Insert(c, key, slot, clock, Some(threshold)).table;
    assert table.Keys == c.table.Keys + {key};
    assert |table| == |table.Keys| && |c.table| == |c.table.Keys|;
  }

  lemma UnsweptInsertSmall(s: State, step: Step, s': State, threshold: nat)
    requires Next(s, step, s', Some(threshold)) && step.Locks()
    requires |s.cache.slots| < |s'.cache.slots| && |s.cache.table| <= threshold
    ensures |s'.cache.table| <= threshold + 1
  {
    var slot := s'.cache.slots[|s.cache.slots|];
    assert s'.cache == Insert(s.cache, step.key, slot, step.clock, Some(threshold));
    UnsweptInsert(s.cache, step.key, slot, step.clock, threshold);
  }

  lemma InsertSmall(s: State, step: Step, s': State, threshold: nat)
    requires s.cache.Keyed() && Next(s, step, s', Some(threshold)) && step.Locks()
    requires |s.cache.slots| < |s'.cache.slots|
    ensures Small(s'.cache, threshold, step.clock)
  {
    if |s.cache.table| > threshold {
      KeyedStep(s, step, s', Some(threshold));
      SweptInsertRecent(s, step, s', threshold);
      TableWithinRecent(s', step.clock);
    } else {
      UnsweptInsertSmall(s, step, s', threshold);
    }
  }

  /** The clock reading of the last slot creation before state `n`. */
  ghost function LastInsertion(r: Run, n: nat): Time
    requires n <= |r.steps| && |r.states| == |r.steps| + 1
  {
    if n == 0 then 0
    else if |r.states[n - 1].cache.slots| < |r.states[n].cache.slots| && r.steps[n - 1].Locks() then r.steps[n - 1].clock
    else LastInsertion(r, n - 1)
  }

  lemma RecentUnchanged(s: State, step: Step, s': State, limit: Option<nat>, clock: Time)
    requires Next(s, step, s', limit)
    requires !step.Locks() || |s.cache.slots| == |s'.cache.slots|
    ensures s'.cache.table == s.cache.table && Recent(s'.cache, clock) == Recent(s.cache, clock)
  {
  }

  lemma TableBoundedAt(r: Run, threshold: nat, i: nat)
    requires r.Valid(Some(threshold)) && i < |r.steps|
    requires Small(r.states[i].cache, threshold, LastInsertion(r, i))
    ensures Small(r.states[i + 1].cache, threshold, LastInsertion(r, i + 1))
  {
    var s, step, s' := r.states[i], r.steps[i], r.states[i + 1];
    RunConsistent(r, Some(threshold), i);
    GrowsAt(r, Some(threshold), i);
    if step.Locks() && |s.cache.slots| < |s'.cache.slots| {
      InsertSmall(s, step, s', threshold);
    } else {
      RecentUnchanged(s, step, s', Some(threshold), LastInsertion(r, i));
    }
  }

  /**
   In every reachable state the table holds at most threshold + 1 entries, or no more than the slots created
   in the 60 s window that ends at the last insertion, however many probes failed or were cancelled.
   */
  lemma {:induction false} TableBounded(r: Run, threshold: nat, n: nat)
    requires r.Valid(Some(threshold)) && n <= |r.steps|
    ensures Small(r.states[n].cache, threshold, LastInsertion(r, n))
  {
    if n > 0 {
      TableBounded(r, threshold, n - 1);
      TableBoundedAt(r, threshold, n - 1);
    }
  }
}
