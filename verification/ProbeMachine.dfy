/**
 The probe cache of `src/server/probe_cache.rs` as a step system.

 A slot is shared: a caller keeps its handle (an `Arc<Slot>`) after the table has dropped or replaced the
 entry, so slots live in an append-only arena and the table maps a key to an index into it.
 `OnceCell::get_or_try_init` is taken at its contract: at most one caller runs its closure on a cell, a
 successful closure resolves the cell for good, a failed or cancelled one hands the cell back.
 Everything asynchronous is a step of its own, so that any interleaving of callers, writes and deletes
 by anybody, and the passing of time is a run.
 */
module ProbeMachine {
  import opened Common

  const NEGATIVE_TTL: Time := 5 * SECOND
  const POSITIVE_TTL: Time := 60 * SECOND
  const UNRESOLVED_TTL: Time := 60 * SECOND
  const SWEEP_THRESHOLD: nat := 10_000

  type SlotId = nat
  type CallerId = nat

  /** What a HeadObject saw, and the instant at which it was true in S3. */
  datatype Sight = Sight(present: bool, at: Time)

  /** The cell stores only `sight.present`; `sight.at` is bookkeeping for the staleness statements. */
  datatype Cell = Unset | Running(owner: CallerId) | Resolved(sight: Sight)

  datatype Slot = Slot(key: Key, created: Time, cell: Cell)

  /** `saturating_duration_since`: a clock reading older than `created` gives age zero. */
  function Age(created: Time, now: Time): Time {
    if created <= now then now - created else 0
  }

  function Ttl(cell: Cell): Time {
    match cell
    case Unset => UNRESOLVED_TTL
    case Running(_) => UNRESOLVED_TTL
    case Resolved(sight) => if sight.present then POSITIVE_TTL else NEGATIVE_TTL
  }

  predicate Live(slot: Slot, now: Time) {
    Age(slot.created, now) < Ttl(slot.cell)
  }

  datatype Cache = Cache(table: map<Key, SlotId>, slots: seq<Slot>) {
    /** A handle always refers to an allocated slot. */
    predicate Bounded() {
      forall k :: k in table ==> table[k] < |slots|
    }

    /** A table entry refers to a slot made for that key. */
    predicate Keyed() {
      Bounded() && forall k :: k in table ==> slots[table[k]].key == k
    }

    /** The slot a lookup of `key` would reuse, if there is one. */
    predicate Hit(key: Key, clock: Time)
      requires Bounded()
    {
      key in table && Live(slots[table[key]], clock)
    }
  }

  /** `limit` is the sweep threshold; `None` is the cache that never sweeps. */
  function Sweep(c: Cache, clock: Time, limit: Option<nat>): (r: Cache)
    requires c.Bounded()
    ensures r.Bounded()
  {
    if limit.Some? && |c.table| > limit.value then
      c.(table := map k | k in c.table && Live(c.slots[c.table[k]], clock) :: c.table[k])
    else
      c
  }

  function Insert(c: Cache, key: Key, slot: Slot, clock: Time, limit: Option<nat>): (r: Cache)
    requires c.Bounded()
    ensures r.Bounded()
  {
    var swept := Sweep(c, clock, limit);
    Cache(swept.table[key := |c.slots|], c.slots + [slot])
  }

  /** `ProbeCache::slot` */
  function Find(c: Cache, key: Key, clock: Time, limit: Option<nat>): (r: (Cache, SlotId))
    requires c.Bounded()
    ensures r.0.Bounded() && r.1 < |r.0.slots|
  {
    if c.Hit(key, clock) then
      (c, c.table[key])
    else
      (Insert(c, key, Slot(key, clock, Unset), clock, limit), |c.slots|)
  }

  /** `ProbeCache::mark_present` */
  function MarkPresent(c: Cache, key: Key, clock: Time, now: Time, limit: Option<nat>): (r: Cache)
    requires c.Bounded()
    ensures r.Bounded()
  {
    Insert(c, key, Slot(key, clock, Resolved(Sight(true, now))), clock, limit)
  }

  datatype Answer = Ok(present: bool) | Err

  datatype Phase =
    | Waiting
    | Probing(began: Time, seen: Option<Sight>)
    | Answered(answer: Answer)
    | Gone

  /** A call of `present`: the slot handle it holds, the clock reading it looked up with, and where it is. */
  datatype Caller = Caller(slot: SlotId, clock: Time, phase: Phase)

  datatype RawState = State(now: Time, objects: set<Key>, cache: Cache, callers: map<CallerId, Caller>) {
    predicate Bounded() {
      && cache.Bounded()
      && forall c :: c in callers ==> callers[c].slot < |cache.slots|
    }

    predicate In(c: CallerId, waiting: bool) {
      c in callers && if waiting then callers[c].phase.Waiting? else callers[c].phase.Probing?
    }
  }

  type State = s: RawState | s.Bounded() witness State(0, {}, Cache(map[], []), map[])

  /**
   `clock` in `Lookup` and `Mark` is the `Instant::now()` taken before the mutex: any reading that is not
   in the future. `Write` and `Delete` are anybody's.
   */
  datatype Step =
    | Tick(span: Time)
    | Lookup(caller: CallerId, key: Key, clock: Time)
    | Start(caller: CallerId)
    | Observe(caller: CallerId)
    | Succeed(caller: CallerId)
    | Fail(caller: CallerId)
    | Cancel(caller: CallerId)
    | Wake(caller: CallerId)
    | Mark(key: Key, clock: Time)
    | Write(key: Key)
    | Delete(key: Key)
  {
    /** The steps that take the mutex. */
    predicate Locks() {
      Lookup? || Mark?
    }
  }

  function CellOf(s: State, c: CallerId): Cell
    requires c in s.callers
  {
    s.cache.slots[s.callers[c].slot].cell
  }

  predicate Enabled(s: State, step: Step) {
    match step
    case Tick(_) => true
    case Lookup(c, _, clock) => c !in s.callers && clock <= s.now
    case Start(c) => s.In(c, true) && CellOf(s, c).Unset?
    case Observe(c) => s.In(c, false) && s.callers[c].phase.seen.None?
    case Succeed(c) => s.In(c, false) && s.callers[c].phase.seen.Some?
    case Fail(c) => s.In(c, false)
    case Cancel(c) => s.In(c, true) || s.In(c, false)
    case Wake(c) => s.In(c, true) && CellOf(s, c).Resolved?
    case Mark(_, clock) => clock <= s.now
    case Write(_) => true
    case Delete(_) => true
  }

  function SetCaller(s: State, c: CallerId, phase: Phase): State
    requires c in s.callers
  {
    s.(callers := s.callers[c := s.callers[c].(phase := phase)])
  }

  function SetCell(s: State, id: SlotId, cell: Cell): State
    requires id < |s.cache.slots|
  {
    s.(cache := s.cache.(slots := s.cache.slots[id := s.cache.slots[id].(cell := cell)]))
  }

  function Apply(s: State, step: Step, limit: Option<nat>): State
    requires Enabled(s, step)
  {
    match step
    case Tick(span) => s.(now := s.now + span)
    case Lookup(c, key, clock) =>
      var (cache, id) := Find(s.cache, key, clock, limit);
      s.(cache := cache, callers := s.callers[c := Caller(id, clock, Waiting)])
    case Start(c) =>
      SetCell(SetCaller(s, c, Probing(s.now, None)), s.callers[c].slot, Running(c))
    case Observe(c) =>
      var caller := s.callers[c];
      SetCaller(s, c, caller.phase.(seen := Some(Sight(s.cache.slots[caller.slot].key in s.objects, s.now))))
    case Succeed(c) =>
      var sight := s.callers[c].phase.seen.value;
      SetCell(SetCaller(s, c, Answered(Ok(sight.present))), s.callers[c].slot, Resolved(sight))
    case Fail(c) =>
      SetCell(SetCaller(s, c, Answered(Err)), s.callers[c].slot, Unset)
    case Cancel(c) =>
      var gone := SetCaller(s, c, Gone);
      if s.callers[c].phase.Probing? then SetCell(gone, s.callers[c].slot, Unset) else gone
    case Wake(c) =>
      SetCaller(s, c, Answered(Ok(CellOf(s, c).sight.present)))
    case Mark(key, clock) =>
      s.(cache := MarkPresent(s.cache, key, clock, s.now, limit))
    case Write(key) => s.(objects := s.objects + {key})
    case Delete(key) => s.(objects := s.objects - {key})
  }

  ghost predicate Next(s: State, step: Step, s': State, limit: Option<nat>) {
    Enabled(s, step) && s' == Apply(s, step, limit)
  }

  ghost predicate Initial(s: State) {
    s.cache == Cache(map[], []) && s.callers == map[]
  }

  /** `states[i]` is the instant before `steps[i]`; S3 may hold anything at the start. */
  datatype Run = Run(states: seq<State>, steps: seq<Step>) {
    ghost predicate Valid(limit: Option<nat>) {
      && |states| == |steps| + 1
      && Initial(states[0])
      && forall i :: 0 <= i < |steps| ==> Next(states[i], steps[i], states[i + 1], limit)
    }

    function Last(): State
      requires |states| > 0
    {
      states[|states| - 1]
    }

    /** The mutex was taken in the order of the clock readings. */
    ghost predicate ClockOrdered() {
      forall i, j :: 0 <= i < j < |steps| && steps[i].Locks() && steps[j].Locks() ==>
        steps[i].clock <= steps[j].clock
    }

    ghost predicate NoDeletes() {
      forall i :: 0 <= i < |steps| ==> !steps[i].Delete?
    }
  }

  /** One more step at the end of a run. */
  function Extend(r: Run, step: Step, limit: Option<nat>): (r': Run)
    requires |r.states| > 0 && Enabled(r.Last(), step)
  {
    Run(r.states + [Apply(r.Last(), step, limit)], r.steps + [step])
  }

  lemma ExtendValid(r: Run, step: Step, limit: Option<nat>)
    requires r.Valid(limit) && Enabled(r.Last(), step)
    ensures Extend(r, step, limit).Valid(limit)
    ensures Extend(r, step, limit).Last() == Apply(r.Last(), step, limit)
  {
  }

  // ---------- one caller at a time ----------

  function Settled(c: Cache, id: SlotId, cell: Cell): (r: Cache)
    requires c.Bounded() && id < |c.slots|
    ensures r.Bounded() && |r.slots| == |c.slots|
  {
    c.(slots := c.slots[id := c.slots[id].(cell := cell)])
  }

  /**
   What a caller of slot `id` finds once it is its turn. If a closure is running it waits for its end: `joined` is
   what that closure returns, `None` for an error or a cancellation.
   */
  function Awaited(c: Cache, id: SlotId, joined: Option<Sight>): (r: Cache)
    requires c.Bounded() && id < |c.slots|
    ensures r.Bounded() && |r.slots| == |c.slots| && !r.slots[id].cell.Running?
  {
    if c.slots[id].cell.Running? then Settled(c, id, if joined.Some? then Resolved(joined.value) else Unset) else c
  }

  /**
   `present` from start to end, with nobody else on the slot but the closure it joins, if there is one: the cache
   afterwards, the answer, and whether its own closure was run. `probe` is what that returns, `None` for an error.
   */
  function PresentAlone(c: Cache, key: Key, clock: Time, joined: Option<Sight>, probe: Option<Sight>, limit: Option<nat>):
    (r: (Cache, Answer, bool))
    requires c.Bounded()
    ensures r.0.Bounded()
  {
    var (found, id) := Find(c, key, clock, limit);
    var waited := Awaited(found, id, joined);
    if waited.slots[id].cell.Resolved? then
      (waited, Ok(waited.slots[id].cell.sight.present), false)
    else
      match probe
      case None => (waited, Err, true)
      case Some(sight) => (Settled(waited, id, Resolved(sight)), Ok(sight.present), true)
  }
}
