/** The handlers as they are written, over the client object, the cache object and the request's body. */
module ServerObject {
  import opened Common
  import opened StoreProcess
  import opened S3StorageObject
  import opened ProbeCacheObject
  import opened Gate
  import H = Handlers
  import Probe = ProbeMachine

  /** `drain_body_within`; the limit fires after `patience` items. */
  method DrainBody(body: ReaderStream, patience: nat, ghost events: seq<Event>, ghost taken: nat) returns (cut: bool)
    requires taken <= |events| && body.rest == events[taken..]
    modifies body
    ensures var drained := H.Drain(events, taken, patience);
            body.rest == events[drained.taken..] && cut == drained.cut
  {
    var left := patience;
    ghost var t := taken;
    while true
      invariant taken <= t <= |events| && body.rest == events[t..]
      invariant H.Drain(events, t, left) == H.Drain(events, taken, patience)
      decreases left
    {
      if left == 0 && body.rest != [] {
        return true;
      }
      var item := body.Next();
      if item.None? || item.value.Broken? {
        return false;
      }
      left := left - 1;
      t := t + 1;
    }
  }

  /** `AppState` */
  class Server {
    const config: Config
    const letters: set<char>
    const storage: S3Storage
    const probe: ProbeCache

    constructor (config: Config, letters: set<char>, storage: S3Storage, probe: ProbeCache)
      ensures this.config == config && this.letters == letters && this.storage == storage && this.probe == probe
    {
      this.config := config;
      this.letters := letters;
      this.storage := storage;
      this.probe := probe;
    }

    /** `store_artifact` after the call of `store`. */
    method AfterStore(q: H.HttpRequest, body: ReaderStream, stored: StoreResult, ghost taken: nat) returns (r: H.Reply)
      requires probe.Valid() && taken <= |q.body| && body.rest == q.body[taken..]
      modifies probe, body
      ensures probe.Valid() && old(probe.arena) <= probe.arena
      ensures forall s :: s in probe.arena ==> s in old(probe.arena) || fresh(s)
      ensures (r, probe.view) == H.AfterStore(q, stored, taken, old(probe.view))
      ensures r.taken <= |q.body| && body.rest == q.body[r.taken..]
    {
      match stored
      case Ok =>
        probe.MarkPresent(q.hash, q.clock, q.instant);
        r := H.Reply(200, Some([]), |q.body| - |body.rest|, false);
      case Err(ClientAbort) =>
        r := H.Reply(H.StatusOf(H.Storage(ClientAbort)), None, |q.body| - |body.rest|, false);
      case Err(_) =>
        var cut := DrainBody(body, q.patience, q.body, taken);
        r := H.Reply(H.StatusOf(H.Declined), None, |q.body| - |body.rest|, cut);
    }

    /** `store_artifact` from the call of `store` on. */
    method StoreBody(q: H.HttpRequest, body: ReaderStream) returns (r: H.Reply)
      requires probe.Valid() && body.rest == q.body
      modifies storage, probe, body
      ensures probe.Valid() && old(probe.arena) <= probe.arena
      ensures forall s :: s in probe.arena ==> s in old(probe.arena) || fresh(s)
      ensures (r, storage.s3, probe.view) == H.StoreBody(q, old(storage.s3), old(probe.view))
      ensures r.taken <= |q.body| && body.rest == q.body[r.taken..]
    {
      ghost var p := Drive(Start(q.hash, q.body, MULTIPART_PART_SIZE), storage.s3, MULTIPART_PART_SIZE).0;
      var stored := storage.Store(q.hash, body);
      r := AfterStore(q, body, stored, p.taken);
    }

    method StoreArtifact(q: H.HttpRequest, body: ReaderStream) returns (r: H.Reply)
      requires probe.Valid() && body.rest == q.body
      modifies storage, probe, body
      ensures probe.Valid() && old(probe.arena) <= probe.arena
      ensures forall s :: s in probe.arena ==> s in old(probe.arena) || fresh(s)
      ensures (r, storage.s3, probe.view) == H.StoreArtifact(q, letters, old(storage.s3), old(probe.view))
      ensures r.taken <= |q.body| && body.rest == q.body[r.taken..]
    {
      if !ValidHash(q.hash, letters) {
        var cut := DrainBody(body, q.patience, q.body, 0);
        return H.Reply(H.StatusOf(H.BadRequest), None, |q.body| - |body.rest|, cut);
      }
      var known := storage.Exists(q.hash);
      if known == Known(true) {
        probe.MarkPresent(q.hash, q.clock, q.instant);
        var cut := DrainBody(body, q.patience, q.body, 0);
        return H.Reply(409, None, |q.body| - |body.rest|, cut);
      }
      r := StoreBody(q, body);
    }

    /** `get_or_try_init`: the cell runs `storage.exists` only if it is not resolved once it is its turn. */
    method GetOrTryInit(q: H.HttpRequest, slot: Slot, ghost id: Probe.SlotId) returns (answer: Probe.Answer)
      requires probe.Valid() && id < |probe.arena| && probe.arena[id] == slot
      modifies storage, probe`view, slot
      ensures probe.Valid()
      ensures (answer, storage.s3, probe.view) == H.GetOrTryInit(q, old(storage.s3), old(probe.view), id)
    {
      probe.Await(slot, q.joined, id);
      assert slot.Matches(probe.view.slots[id]);
      if slot.present.Some? {
        return Probe.Ok(slot.present.value);
      }
      var known := storage.Exists(q.hash);
      if known.Unknown? {
        return Probe.Err;
      }
      probe.Resolve(slot, Probe.Sight(known.present, q.instant), id);
      return Probe.Ok(known.present);
    }

    method Present(q: H.HttpRequest) returns (answer: Probe.Answer)
      requires probe.Valid()
      modifies storage, probe, probe.arena
      ensures probe.Valid() && old(probe.arena) <= probe.arena
      ensures forall s :: s in probe.arena ==> s in old(probe.arena) || fresh(s)
      ensures (answer, storage.s3, probe.view) == H.Present(q, old(storage.s3), old(probe.view))
    {
      ghost var id := Probe.Find(probe.view, q.hash, q.clock, H.SWEEPING).1;
      var slot := probe.SlotFor(q.hash, q.clock);
      assert slot in probe.arena;
      answer := GetOrTryInit(q, slot, id);
    }

    method RetrieveArtifact(q: H.HttpRequest) returns (r: H.Reply)
      requires probe.Valid()
      modifies storage, probe, probe.arena
      ensures probe.Valid() && old(probe.arena) <= probe.arena
      ensures forall s :: s in probe.arena ==> s in old(probe.arena) || fresh(s)
      ensures (r, storage.s3, probe.view) == H.RetrieveArtifact(q, letters, old(storage.s3), old(probe.view))
    {
      if !ValidHash(q.hash, letters) {
        return H.Reply(H.StatusOf(H.BadRequest), None, 0, false);
      }
      var present := Present(q);
      if present != Probe.Ok(true) {
        return H.Reply(H.StatusOf(H.Storage(NotFound)), None, 0, false);
      }
      var retrieved := storage.Retrieve(q.hash);
      if retrieved.NoBody? {
        return H.Reply(H.StatusOf(H.Storage(NotFound)), None, 0, false);
      }
      return H.Reply(200, Some(retrieved.data), 0, false);
    }

    method Handle(q: H.HttpRequest, body: ReaderStream) returns (r: H.Reply)
      requires probe.Valid() && body.rest == q.body
      modifies storage, probe, probe.arena, body
      ensures probe.Valid() && old(probe.arena) <= probe.arena
      ensures forall s :: s in probe.arena ==> s in old(probe.arena) || fresh(s)
      ensures (r, storage.s3, probe.view) == H.Handle(config, letters, q, old(storage.s3), old(probe.view))
      ensures r.taken <= |q.body| && body.rest == q.body[r.taken..]
    {
      var verdict := Authorize(config, q.authorization, q.verb);
      if verdict == Unauthorized {
        return H.Reply(H.StatusOf(H.NotAuthorized), None, 0, false);
      }
      if verdict == Forbidden {
        var cut := DrainBody(body, q.patience, q.body, 0);
        return H.Reply(H.StatusOf(H.Declined), None, |q.body| - |body.rest|, cut);
      }
      match q.verb
      case PUT => r := StoreArtifact(q, body);
      case OTHER => r := H.Reply(405, None, 0, false);
      case _ => r := RetrieveArtifact(q);
    }
  }
}
