/**
 S3 as `src/infra/aws.rs` uses it: objects, multipart uploads, and requests that may be refused, or be
 carried out with the answer lost on the way back.
 */
module ObjectStore {
  import opened Common

  type UploadId = nat
  type Tag = nat

  /** S3 requires every part of a multipart upload but the last to be at least this long. */
  const MINIMUM_PART: nat := 5 * 1024 * 1024

  datatype StoredPart = StoredPart(data: Bytes, tag: Tag)
  datatype Upload = Upload(key: Key, parts: map<nat, StoredPart>)
  datatype CompletedPart = CompletedPart(number: nat, tag: Tag)

  /** `minted` is the next upload id. */
  datatype Bucket = Bucket(objects: map<Key, Bytes>, uploads: map<UploadId, Upload>, minted: UploadId) {
    predicate FreshIds() {
      forall id :: id in uploads ==> id < minted
    }

    predicate Open(key: Key, id: UploadId) {
      id in uploads && uploads[id].key == key
    }
  }

  datatype Request =
    | Head(key: Key)
    | Get(key: Key)
    | Put(key: Key, data: Bytes)
    | Create(key: Key)
    | UploadPart(key: Key, id: UploadId, number: nat, data: Bytes)
    | Complete(key: Key, id: UploadId, parts: seq<CompletedPart>)
    | Abort(key: Key, id: UploadId)

  /** A successful create may come back without an upload id, a successful part without an ETag. */
  datatype Response =
    | Failed
    | Missing
    | Found
    | Object(data: Bytes)
    | Done
    | Created(id: Option<UploadId>)
    | Stored(tag: Option<Tag>)

  /** What CompleteMultipartUpload demands: known parts with their tags, ascending, long enough but the last. */
  predicate Assembles(upload: Upload, parts: seq<CompletedPart>) {
    && |parts| > 0
    && (forall i :: 0 <= i < |parts| ==>
          parts[i].number in upload.parts && upload.parts[parts[i].number].tag == parts[i].tag)
    && (forall i, j :: 0 <= i < j < |parts| ==> parts[i].number < parts[j].number)
    && (forall i :: 0 <= i < |parts| - 1 ==> |upload.parts[parts[i].number].data| >= MINIMUM_PART)
  }

  function Assemble(upload: Upload, parts: seq<CompletedPart>): Bytes
    requires forall i :: 0 <= i < |parts| ==> parts[i].number in upload.parts
  {
    if parts == [] then []
    else Assemble(upload, parts[..|parts| - 1]) + upload.parts[parts[|parts| - 1].number].data
  }

  predicate Accepts(b: Bucket, request: Request) {
    match request
    case UploadPart(key, id, number, _) => b.Open(key, id)
    case Complete(key, id, parts) => b.Open(key, id) && Assembles(b.uploads[id], parts)
    case Abort(key, id) => b.Open(key, id)
    case _ => true
  }

  /** What carrying out an acceptable request does; `tag` is the ETag S3 picks for a part. */
  function Effect(b: Bucket, request: Request, tag: Tag): Bucket
    requires Accepts(b, request)
  {
    match request
    case Head(_) => b
    case Get(_) => b
    case Put(key, data) => b.(objects := b.objects[key := data])
    case Create(key) => b.(uploads := b.uploads[b.minted := Upload(key, map[])], minted := b.minted + 1)
    case UploadPart(_, id, number, data) =>
      b.(uploads := b.uploads[id := b.uploads[id].(parts := b.uploads[id].parts[number := StoredPart(data, tag)])])
    case Complete(key, id, parts) =>
      b.(objects := b.objects[key := Assemble(b.uploads[id], parts)], uploads := b.uploads - {id})
    case Abort(_, id) => b.(uploads := b.uploads - {id})
  }

  /** The answer to a request that was carried out. */
  function Reply(b: Bucket, request: Request, tag: Tag): Response {
    match request
    case Head(key) => if key in b.objects then Found else Missing
    case Get(key) => if key in b.objects then Object(b.objects[key]) else Missing
    case Put(_, _) => Done
    case Create(_) => Created(Some(b.minted))
    case UploadPart(_, _, _, _) => Stored(Some(tag))
    case Complete(_, _, _) => Done
    case Abort(_, _) => Done
  }

  function Blanked(response: Response): Response {
    match response
    case Created(_) => Created(None)
    case Stored(_) => Stored(None)
    case _ => response
  }

  /**
   What becomes of one request: served, refused before it had any effect, carried out with the answer lost,
   or carried out and answered without the id or tag.
   */
  datatype Outcome = Served(tag: Tag) | Refused | Lost(tag: Tag) | Blank(tag: Tag)

  datatype Call = Call(request: Request, response: Response)

  /** A bucket together with how it is going to behave; a script that has run out refuses everything. */
  datatype Backend = Backend(bucket: Bucket, script: seq<Outcome>, log: seq<Call>)

  /** The bucket after a request and its answer, under one outcome. */
  function Carry(b: Bucket, request: Request, outcome: Outcome): (Bucket, Response) {
    if outcome.Refused? || !Accepts(b, request) then (b, Failed)
    else
      var reply := Reply(b, request, outcome.tag);
      (Effect(b, request, outcome.tag),
       match outcome
       case Served(_) => reply
       case Lost(_) => Failed
       case _ => Blanked(reply))
  }

  /** What becomes of the `n`th request from here. */
  function OutcomeAt(script: seq<Outcome>, n: nat): Outcome {
    if n < |script| then script[n] else Refused
  }

  function Serve(s: Backend, request: Request): (Backend, Response) {
    var outcome := if s.script == [] then Refused else s.script[0];
    var (bucket, response) := Carry(s.bucket, request, outcome);
    (Backend(bucket, if s.script == [] then [] else s.script[1..], s.log + [Call(request, response)]), response)
  }
}
