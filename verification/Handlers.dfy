/**
 `src/server/handlers.rs`, `src/server/error.rs` and the cache route: what one request does to S3, to the
 probe cache and to the client's body, and what it is answered.
 */
module Handlers {
  import opened Common
  import opened ObjectStore
  import opened StoreProcess
  import opened Gate
  import Probe = ProbeMachine

  const SWEEPING: Option<nat> := Some(Probe.SWEEP_THRESHOLD)

  datatype ServerError = BadRequest | NotAuthorized | Declined | InternalError | Storage(error: StorageError)

  /** `IntoResponse for ServerError` */
  function StatusOf(e: ServerError): nat {
    match e
    case Storage(NotFound) => 404
    case Storage(AlreadyExists) => 409
    case Storage(ClientAbort) => 400
    case BadRequest => 400
    case NotAuthorized => 401
    case Declined => 403
    case _ => 500
  }

  /**
   A request on `/v1/cache/{hash}`. `patience` is how many items a drain gets through before its time limit,
   `clock` and `instant` the clock reading and the moment at which the probe cache is used, and `joined` what
   becomes of a probe in flight that the request joins, `None` if it fails or is cancelled.
   */
  datatype HttpRequest = HttpRequest(
    verb: Method,
    authorization: Option<string>,
    hash: Key,
    body: seq<Event>,
    patience: nat,
    clock: Time,
    instant: Time,
    joined: Option<Probe.Sight>)

  /** `taken` items of the body were read before the answer; `cut` if the drain limit fired. */
  datatype Reply = Reply(status: nat, content: Option<Bytes>, taken: nat, cut: bool)

  datatype Drained = Drained(taken: nat, cut: bool)

  /** `drain_body_within`: read on to the end of the body or a read error, or until the limit. */
  function Drain(events: seq<Event>, taken: nat, patience: nat): (r: Drained)
    requires taken <= |events|
    ensures taken <= r.taken <= |events|
    decreases patience
  {
    if taken == |events| then Drained(taken, false)
    else if patience == 0 then Drained(taken, true)
    else if events[taken].Broken? then Drained(taken + 1, false)
    else Drain(events, taken + 1, patience - 1)
  }

  function Refusal(e: ServerError, drained: Drained): Reply {
    Reply(StatusOf(e), None, drained.taken, drained.cut)
  }

  /** What `store_artifact` makes of the result of `store`, which had read `taken` items of the body. */
  function AfterStore(q: HttpRequest, result: StoreResult, taken: nat, cache: Probe.Cache): (r: (Reply, Probe.Cache))
    requires taken <= |q.body| && cache.Bounded()
    ensures r.1.Bounded()
  {
    match result
    case Ok => (Reply(200, Some([]), taken, false), Probe.MarkPresent(cache, q.hash, q.clock, q.instant, SWEEPING))
    case Err(ClientAbort) => (Refusal(Storage(ClientAbort), Drained(taken, false)), cache)
    case Err(_) => (Refusal(Declined, Drain(q.body, taken, q.patience)), cache)
  }

  /** `store_artifact` once the key is not known to exist. */
  function StoreBody(q: HttpRequest, s: Backend, cache: Probe.Cache): (r: (Reply, Backend, Probe.Cache))
    requires cache.Bounded()
    ensures r.2.Bounded()
  {
    var (p, s') := Drive(Start(q.hash, q.body, MULTIPART_PART_SIZE), s, MULTIPART_PART_SIZE);
    var (reply, after) := AfterStore(q, if p.stage.Finished? then p.stage.result else Err(OperationFailed), p.taken, cache);
    (reply, s', after)
  }

  /** `store_artifact` */
  function StoreArtifact(q: HttpRequest, letters: set<char>, s: Backend, cache: Probe.Cache): (r: (Reply, Backend, Probe.Cache))
    requires cache.Bounded()
    ensures r.2.Bounded()
  {
    if !ValidHash(q.hash, letters) then
      (Refusal(BadRequest, Drain(q.body, 0, q.patience)), s, cache)
    else
      var (s1, answer) := Serve(s, Head(q.hash));
      if answer == Found then
        var drained := Drain(q.body, 0, q.patience);
        (Reply(409, None, drained.taken, drained.cut), s1,
         Probe.MarkPresent(cache, q.hash, q.clock, q.instant, SWEEPING))
      else
        StoreBody(q, s1, cache)
  }

  /** What HeadObject's answer tells a probe: what it saw, or an error. */
  function Seen(answer: Response, instant: Time): Option<Probe.Sight> {
    match answer
    case Found => Some(Probe.Sight(true, instant))
    case Missing => Some(Probe.Sight(false, instant))
    case _ => None
  }

  /** `get_or_try_init` on the cell of slot `id`, with `storage.exists` as its closure. */
  function GetOrTryInit(q: HttpRequest, s: Backend, found: Probe.Cache, id: Probe.SlotId): (r: (Probe.Answer, Backend, Probe.Cache))
    requires found.Bounded() && id < |found.slots|
    ensures r.2.Bounded()
  {
    var waited := Probe.Awaited(found, id, q.joined);
    if waited.slots[id].cell.Resolved? then
      (Probe.Ok(waited.slots[id].cell.sight.present), s, waited)
    else
      var (s1, answer) := Serve(s, Head(q.hash));
      match Seen(answer, q.instant)
      case None => (Probe.Err, s1, waited)
      case Some(sight) => (Probe.Ok(sight.present), s1, Probe.Settled(waited, id, Probe.Resolved(sight)))
  }

  /** `ProbeCache::present` */
  function Present(q: HttpRequest, s: Backend, cache: Probe.Cache): (r: (Probe.Answer, Backend, Probe.Cache))
    requires cache.Bounded()
    ensures r.2.Bounded()
  {
    var (found, id) := Probe.Find(cache, q.hash, q.clock, SWEEPING);
    GetOrTryInit(q, s, found, id)
  }

  /** It is `PresentAlone` of the step system, with what HeadObject answered as the probe's result. */
  lemma PresentIsAlone(q: HttpRequest, s: Backend, cache: Probe.Cache)
    requires cache.Bounded()
    ensures var (answer, s', after) := Present(q, s, cache);
            var (s1, head) := Serve(s, Head(q.hash));
            var alone := Probe.PresentAlone(cache, q.hash, q.clock, q.joined, Seen(head, q.instant), SWEEPING);
            && after == alone.0 && answer == alone.1
            && s' == if alone.2 then s1 else s
  {
  }

  /** `retrieve_artifact` */
  function RetrieveArtifact(q: HttpRequest, letters: set<char>, s: Backend, cache: Probe.Cache): (r: (Reply, Backend, Probe.Cache))
    requires cache.Bounded()
    ensures r.2.Bounded()
  {
    if !ValidHash(q.hash, letters) then
      (Refusal(BadRequest, Drained(0, false)), s, cache)
    else
      var (present, s1, after) := Present(q, s, cache);
      if present != Probe.Ok(true) then
        (Refusal(Storage(NotFound), Drained(0, false)), s1, after)
      else
        var (s2, answer) := Serve(s1, Get(q.hash));
        if answer.Object? then (Reply(200, Some(answer.data), 0, false), s2, after)
        else (Refusal(Storage(NotFound), Drained(0, false)), s2, after)
  }

  /** The whole cache route: `auth_middleware`, then the method's handler, or axum's 405. */
  function Handle(c: Config, letters: set<char>, q: HttpRequest, s: Backend, cache: Probe.Cache): (r: (Reply, Backend, Probe.Cache))
    requires cache.Bounded()
    ensures r.2.Bounded()
  {
    match Authorize(c, q.authorization, q.verb)
    case Unauthorized => (Refusal(NotAuthorized, Drained(0, false)), s, cache)
    case Forbidden => (Refusal(Declined, Drain(q.body, 0, q.patience)), s, cache)
    case Pass =>
      match q.verb
      case PUT => StoreArtifact(q, letters, s, cache)
      case OTHER => (Reply(405, None, 0, false), s, cache)
      case _ => RetrieveArtifact(q, letters, s, cache)
  }
}
