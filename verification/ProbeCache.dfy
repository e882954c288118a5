/** `src/server/probe_cache.rs` as it is written: a table updated in place, slots shared by reference. */
module ProbeCacheObject {
  import opened Common
  import M = ProbeMachine

  /**
   `Slot`: `present` and `busy` are the `OnceCell<bool>`, its value and whether a closure holds its permit; a
   reference to the object is an `Arc<Slot>`.
   */
  class Slot {
    const created: Time
    var present: Option<bool>
    var busy: bool

    constructor (created: Time, present: Option<bool>)
      ensures this.created == created && this.present == present && !busy
    {
      this.created := created;
      this.present := present;
      busy := false;
    }

    /** The object is slot `s` of the step system; a cell on which a closure is running has no value yet. */
    ghost predicate Matches(s: M.Slot)
      reads this
    {
      && created == s.created && busy == s.cell.Running?
      && match s.cell
         case Unset => present == None
         case Running(_) => present == None
         case Resolved(sight) => present == Some(sight.present)
    }

    predicate Live(now: Time)
      reads this
      ensures forall s :: Matches(s) ==> (Live(now) <==> M.Live(s, now))
      ensures Live(now) <==> now < created + if present == Some(false) then 5 * SECOND else 60 * SECOND
    {
      var age := M.Age(created, now);
      match present
      case None => age < M.UNRESOLVED_TTL
      case Some(true) => age < M.POSITIVE_TTL
      case Some(false) => age < M.NEGATIVE_TTL
    }
  }

  class ProbeCache {
    var slots: map<Key, Slot>

    /** The state of the step system this object is in, and the object behind each of its slots. */
    ghost var view: M.Cache
    ghost var arena: seq<Slot>

    ghost predicate Valid()
      reads this, arena
    {
      && |arena| == |view.slots| && view.Bounded()
      && (forall i, j :: 0 <= i < j < |arena| ==> arena[i] != arena[j])
      && (forall i :: 0 <= i < |arena| ==> arena[i].Matches(view.slots[i]))
      && Pictures(slots, view, arena)
    }

    /** The table of objects `entries` is the table of `c`, whose slots are the objects of `objects`. */
    static ghost predicate Pictures(entries: map<Key, Slot>, c: M.Cache, objects: seq<Slot>) {
      && c.Bounded() && |objects| == |c.slots|
      && c.table.Keys == entries.Keys
      && forall k :: k in entries ==> objects[c.table[k]] == entries[k]
    }

    constructor ()
      ensures Valid() && arena == [] && view == M.Cache(map[], [])
    {
      slots := map[];
      arena := [];
      view := M.Cache(map[], []);
    }

    /** What `retain` keeps is what the step system's sweep keeps. */
    lemma SweepAgrees(now: Time)
      requires Valid()
      ensures |slots| == |view.table|
      ensures forall k :: k in slots ==> (slots[k].Live(now) <==> M.Live(view.slots[view.table[k]], now))
    {
      assert |view.table| == |view.table.Keys| && |slots| == |slots.Keys|;
      forall k | k in slots
        ensures slots[k].Live(now) <==> M.Live(view.slots[view.table[k]], now)
      {
        assert slots[k].Matches(view.slots[view.table[k]]);
      }
    }

    /** The entries `retain` leaves. */
    static function LiveSlots(entries: map<Key, Slot>, now: Time): map<Key, Slot>
      reads entries.Values
    {
      map k | k in entries && entries[k].Live(now) :: entries[k]
    }

    /** What a sweep leaves of the table: all of it, unless it has more than 10,000 entries. */
    static ghost function Swept(entries: map<Key, Slot>, now: Time): map<Key, Slot>
      reads entries.Values
    {
      if |entries| > 10_000 then LiveSlots(entries, now) else entries
    }

    lemma SweptPictured(now: Time)
      requires Valid()
      ensures var swept := M.Sweep(view, now, Some(M.SWEEP_THRESHOLD));
              Pictures(Swept(slots, now), swept, arena) && swept.slots == view.slots
    {
      SweepAgrees(now);
      if |slots| > M.SWEEP_THRESHOLD {
        assert LiveSlots(slots, now).Keys == M.Sweep(view, now, Some(M.SWEEP_THRESHOLD)).table.Keys;
      }
    }

    method Sweep(now: Time)
      requires Valid()
      modifies this
      ensures Valid() && arena == old(arena)
      ensures view == M.Sweep(old(view), now, Some(M.SWEEP_THRESHOLD))
      ensures slots == old(Swept(slots, now))
    {
      ghost var swept, kept := M.Sweep(view, now, Some(M.SWEEP_THRESHOLD)), Swept(slots, now);
      SweptPictured(now);
      if |slots| > M.SWEEP_THRESHOLD {
        slots := LiveSlots(slots, now);
      }
      assert slots == kept;
      view := swept;
    }

    method Insert(hash: Key, slot: Slot, ghost s: M.Slot)
      requires Valid() && slot !in arena && slot.Matches(s)
      modifies this
      ensures Valid() && arena == old(arena) + [slot] && slots == old(slots)[hash := slot]
      ensures view == M.Cache(old(view).table[hash := |old(arena)|], old(view).slots + [s])
    {
      slots := slots[hash := slot];
      view := M.Cache(view.table[hash := |arena|], view.slots + [s]);
      arena := arena + [slot];
    }

    /** A sweep, if one is due, and then a new entry. */
    method SweepAndInsert(hash: Key, slot: Slot, now: Time, ghost s: M.Slot)
      requires Valid() && slot !in arena && slot.Matches(s)
      modifies this
      ensures Valid() && arena == old(arena) + [slot]
      ensures view == M.Insert(old(view), hash, s, now, Some(M.SWEEP_THRESHOLD))
      ensures slots == old(Swept(slots, now))[hash := slot]
    {
      Sweep(now);
      Insert(hash, slot, s);
    }

    /** `instant` is the moment of the call, at or after the clock reading `now`. */
    method MarkPresent(hash: Key, now: Time, ghost instant: Time)
      requires Valid()
      modifies this
      ensures Valid() && old(arena) <= arena && (forall s :: s in arena ==> s in old(arena) || fresh(s))
      ensures view == M.MarkPresent(old(view), hash, now, instant, Some(M.SWEEP_THRESHOLD))
      ensures hash in slots && slots == old(Swept(slots, now))[hash := slots[hash]]
      ensures fresh(slots[hash]) && slots[hash].created == now && slots[hash].present == Some(true) && !slots[hash].busy
    {
      var slot := new Slot(now, Some(true));
      SweepAndInsert(hash, slot, now, M.Slot(hash, now, M.Resolved(M.Sight(true, instant))));
    }

    /** `slot` */
    method SlotFor(hash: Key, now: Time) returns (slot: Slot)
      requires Valid()
      modifies this
      ensures Valid() && old(arena) <= arena && (forall s :: s in arena ==> s in old(arena) || fresh(s))
      ensures view == M.Find(old(view), hash, now, Some(M.SWEEP_THRESHOLD)).0
      ensures slot == arena[M.Find(old(view), hash, now, Some(M.SWEEP_THRESHOLD)).1]
      ensures hash in slots && slots[hash] == slot
      ensures if hash in old(slots) && old(slots)[hash].Live(now) then slots == old(slots)
              else
                && slots == old(Swept(slots, now))[hash := slot]
                && fresh(slot) && slot.created == now && slot.present == None && !slot.busy
    {
      if hash in slots {
        var existing := slots[hash];
        if existing.Live(now) {
          return existing;
        }
      }
      slot := new Slot(now, None);
      SweepAndInsert(hash, slot, now, M.Slot(hash, now, M.Unset));
    }

    /** Set the cell of slot `id`, as a successful closure does. */
    method Resolve(slot: Slot, sight: M.Sight, ghost id: M.SlotId)
      requires Valid() && id < |arena| && arena[id] == slot && slot.present == None
      modifies this`view, slot
      ensures Valid() && slot.present == Some(sight.present)
      ensures view == M.Settled(old(view), id, M.Resolved(sight))
    {
      slot.present := Some(sight.present);
      slot.busy := false;
      view := M.Settled(view, id, M.Resolved(sight));
    }

    /** Wait until no closure holds the cell of slot `id`; the one that does sets it to `joined`, or gives it back. */
    method Await(slot: Slot, joined: Option<M.Sight>, ghost id: M.SlotId)
      requires Valid() && id < |arena| && arena[id] == slot
      modifies this`view, slot
      ensures Valid() && !slot.busy
      ensures view == M.Awaited(old(view), id, joined)
    {
      assert slot.Matches(view.slots[id]);
      if slot.busy {
        if joined.Some? {
          Resolve(slot, joined.value, id);
        } else {
          slot.busy := false;
          view := M.Settled(view, id, M.Unset);
        }
      }
    }
  }
}
