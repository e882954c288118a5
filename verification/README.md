# Nx cache server: a verified model

The server keeps Nx build artifacts in S3. This project models its four hard pieces in Dafny and proves what
they promise, one by one and together:

- **The probe cache** (`src/server/probe_cache.rs`), a single-flight cache with three times-to-live in front of
  HeadObject. `ProbeMachine` is a step system in which any number of callers look up, run their closure, see S3,
  succeed, fail, are cancelled or wake, while writers and deleters change S3, writes seed the cache and time
  passes; every statement is about all its runs. `ProbeCacheObject` is the table as it is written, updated in
  place over shared slots, and each of its methods is proved to take the corresponding step, also while closures
  are running on any of the slots.
- **The streaming multipart store** (`src/infra/aws.rs`). `StoreProcess` is `fill_part` and `store` as a process
  that sends requests and goes on with the answers. `S3StorageObject` holds the two nested loops as written,
  proved equal to that process against a backend that may refuse a call, lose its answer or leave out the id or
  tag. `StoreRacing` puts any number of these processes on a network without guarantees.
- **The handlers** (`src/server/handlers.rs`) and **the gate** (`src/server/middleware.rs`, `validation.rs`,
  `config.rs`). `Handlers` says what one request does to S3, to the probe cache and to the client's body;
  `ServerObject` is the code over the objects above. `Answers` says for every request and every behaviour of S3 what it
  is answered, which calls it makes and what the cache remembers, from the tokens, S3 and the table alone; `Pipeline`
  proves what the statuses mean and what holds over sequences of requests. `Concurrent` runs everything at once over
  one S3: readers, handlers that check, store and seed, and the stores of this server and others; `ConcurrentAlone`
  shows that a PUT as `Handlers` has it is one of its runs.

## How it is modelled

- An `Arc<Slot>` is an index into an append-only arena in the step system and an object reference in the class,
  so a slot outlives its table entry. `Sight.at`, the instant at which a HeadObject was true, is bookkeeping for
  the staleness statements.
- `OnceCell::get_or_try_init` is taken at its contract: one closure at a time on a cell, Ok sets it for good, an
  error or a cancellation gives it back. `ProbeSingleFlight` proves what follows for whole runs.
- `Instant::now()` is read before the mutex is taken, so a clock reading is a step parameter that may be any
  instant not in the future. Most statements hold for readings in any order. Where the order matters, exact
  conditions are proved: a seed breaks single flight if and only if its reading is older than the slot of the
  running attempt and that attempt may last beyond the seed, or somebody waits to retry it (`LateSeedExact`), and a
  sweep is seen if and only if a lookup misses a slot that was swept away
  and is live at the lookup's own reading (`SweepInvisibleExact`). A monotone clock (`ClockOrdered`) implies both
  conditions (`OrderedSeedsTimely`, `OrderedUnseen`).
- The sweep threshold is a parameter, `None` meaning a cache that never sweeps. The code's value is 10_000.
- A read may find its key being probed. In the handlers' specification what becomes of that probe is part of the
  request (`joined`): it finds the key, finds it missing, or fails or is cancelled, and then it is the read's turn.
  `AloneIsARun` ties this to the step system; in between, S3 is as it is at the read's own calls.
- A body is a finite sequence of chunks and read errors; the drain's time limit is the number of items it gets
  through (`patience`). HEAD is served by the GET handler.
- In `StoreRacing` a request once sent may be carried out at any later time, any number of times or never, even
  after its sender was told that it failed. A positive answer exists only if S3 gave it. `Expire` is a delete by
  somebody else.
- The alphanumeric characters beyond ASCII are a parameter (`letters`), as Unicode defines them.
- Which assumption a theorem on S3 makes: `StoreRefinesPut`, `UploadLifecycle`, `PutMeaning`, `PutExact`,
  `ReadExact`, `NeverMixed`, `WriteIsolation` and `RoundTrip` hold for every behaviour, including a put or complete that is reported as
  failed and was committed. `StoreSucceeds`, `PutWithHealthyStorage` and `GetWithHealthyStorage` are about calls
  that are all served.

## Where the code and its comments differ

- `README.md:151` says that a stale 404 lasts up to 5 s. A caller that joins a stalled probe can be told about an
  older absence (`FiveSecondsFail`). `PromiseExact` gives the exact condition; `StalenessBound`,
  `ResolvedHitBound` and `BoundedAttemptsBound` give what does hold.
- `src/server/probe_cache.rs:47-49` says that no probe can still be running on a slot older than UNRESOLVED_TTL.
  A waiter that retries after an error keeps the slot's creation time, so one can (`RetryOutlivesWindow`);
  `OutlivesExact` says when, and `SecondProbeExact` when a second attempt can then run beside it.
- `README.md:133` gives an ASCII alphabet. The code accepts all Unicode alphanumerics, up to 128 bytes of UTF-8;
  the documented keys are exactly the accepted ones that are ASCII (`DocumentedHashExact`), and there are others
  (`UndocumentedHash`).
- `README.md:155` speaks of failed parts only. A failed complete is not followed by an abort, so it too can leave an
  upload open, whatever the body (`RefusedCompleteLeavesOpen`); `LeftOpenExact` says exactly when `store` leaves one.

## Model

| member | source | states |
|---|---|---|
| ProbeInvariants.RunConsistent | src/server/probe_cache.rs:87-147 | In every state of every run table entries are of their key, a cell is running exactly when its owner is in its closure, Ok answers are the cell's value, and nothing is seen before the slot's clock reading. |
| ProbeInvariants.RunGrows | src/server/probe_cache.rs:65-68 | No slot is freed or re-timed, no resolved cell ever changes, and a caller keeps its handle, whatever the table does. |
| ProbeStaleness.RunSightsTrue | src/server/probe_cache.rs:106-114 | Every cached absence, and everything a running attempt has seen, was true of S3 at the instant recorded for it. |
| ProbeStaleness.LifetimesExact | src/server/probe_cache.rs:87-94 | A slot lives for 5 s after its reading if it says missing and for 60 s otherwise, and any time before its reading. |
| ProbeStaleness.LookupExact | src/server/probe_cache.rs:132-156 | A lookup shares the table's slot exactly while 5 s or 60 s have not passed since its reading; otherwise it gets a new slot of its own reading without a value, and the other entries stay but for those that a table over the threshold loses because their time is up. |
| ProbeStaleness.SeedExact | src/server/probe_cache.rs:119-130 | A seed puts a new present slot of its reading in place of whatever the table led to, with the same effect on the other entries, and no slot or caller changes. |
| ProbeStaleness.StalenessBound | src/server/probe_cache.rs:87-147 | In every run a call that answers false does so for an absence less than 60 s older than the clock reading it looked up with. |
| ProbeStaleness.ResolvedHitBound | src/server/probe_cache.rs:87-114 | If the slot was already resolved at the lookup, the absence is less than 5 s old. |
| ProbeStaleness.PresentHitBound | src/server/probe_cache.rs:87-114 | A hit on a slot that says present never probes, is answered true if at all, and rests on a sight less than 60 s older than its reading. |
| ProbeStaleness.BoundedAttemptsBound | src/server/probe_cache.rs:39-57 | If no attempt has run for longer than T at the lookup, the absence is no older than the larger of 5 s and T. |
| ProbeStaleness.PromiseExact | README.md:151 | The documented 5 s hold for a lookup in every continuation if and only if the lookup does not join an unfinished probe that saw the key missing before the window, the key having been there since. |
| ProbeStaleness.FiveSecondsFail | README.md:151 | A run, with attempts within 30 s, in which a lookup is left without the documented 5 s. |
| ProbeSeeding.ReadYourWrites | src/server/probe_cache.rs:116-147 | After `mark_present` for a key in S3 that is not deleted, no later lookup of it ever answers false, though probes from before the write may still resolve to false. |
| ProbeSeeding.PositiveSoundness | src/server/probe_cache.rs:41-44 | Without deletes, and with keys marked only once they were in S3, a call that answers true names a key that is in S3 then and later. |
| ProbeSingleFlight.OneRunnerPerSlot | src/server/probe_cache.rs:9-12 | No two callers of a slot are ever in their closures at once. |
| ProbeSingleFlight.SameAnswer | src/server/probe_cache.rs:111-113 | All callers of a slot that answer Ok, whenever they do, answer the same. |
| ProbeSingleFlight.ClosuresRun | src/server/probe_cache.rs:106-130 | On a slot made by `mark_present` no closure ever runs. On any other, the closures begun are those that failed or were cancelled, plus exactly one if the slot is resolved, which it then is by that probe's Ok, or one if an attempt is running. |
| ProbeSingleFlight.ClosureRunsOnce | src/server/probe_cache.rs:106-114 | A caller's closure runs at most once in a run. |
| ProbeSingleFlight.OneInFlightPerKey | src/server/probe_cache.rs:9-12 | Of the attempts whose slot is not yet 60 s old at most one per key is in flight in every reachable state, for lookups and other keys' seeds with readings in any order, if no seed of the key is older than an open slot of it. |
| ProbeSingleFlight.OrderedSeedsTimely | src/server/probe_cache.rs:119-147 | Readings in lock order meet that condition for every key. |
| ProbeOverlap.RetryOutlivesWindow | src/server/probe_cache.rs:46-50 | A run in which, with every attempt within 30 s, two HeadObjects for one key are in flight. |
| ProbeOverlap.OutlivesExact | src/server/probe_cache.rs:46-50 | A running attempt of at most T can still run when its slot is garbage if and only if it began within T of the end of the slot's window. |
| ProbeOverlap.SecondProbeExact | src/server/probe_cache.rs:9-12 | While an attempt runs, for at most T and whatever the age of its slot, a second one for its key can run without any seed if and only if a caller still holds another slot of the key without a value, or the table has no entry for the key, leads to such a slot, or has an entry that expires before the attempt must end. |
| ProbeLateSeeds.LateSeedExact | src/server/probe_cache.rs:119-147 | While an attempt for a key is in flight, a seed of the key lets some continuation, with attempts of at most T and no further seeds of it, run a second attempt beside the first or its retry if and only if the seed's clock reading is older than the slot of the attempt, and the attempt may last until the seed expires or somebody else waits on the slot. |
| ProbeLateSeeds.LateSeedOpensSecondProbe | src/server/probe_cache.rs:119-147 | A reachable case of it: a run in which a seed, of a key that is in S3 and stays there, read 60 s late puts two attempts for the key on slots of age zero. |
| ProbeSweeping.DeadStaysDead | src/server/probe_cache.rs:87-94 | A slot that is not live never becomes live again, whatever its cell resolves to. |
| ProbeSweeping.SweepInvisibleExact | src/server/probe_cache.rs:132-156 | For every run of a cache that sweeps at any threshold: a cache that never sweeps can take the same steps with the same slots, callers and answers throughout if and only if no lookup misses a swept slot that is live at its own reading. |
| ProbeSweeping.SweepInvisible | src/server/probe_cache.rs:132-156 | With a monotone clock the never-sweeping run always exists, and what the sweep took from the table is dead at the last reading. |
| ProbeSweeping.LateLookupSeesSweep | src/server/probe_cache.rs:132-156 | For every threshold, 10_000 included, a run with a late reading for which there is no such cache: one key gets two slots with the same reading. |
| ProbeSweeping.UnsweptTwin | src/server/probe_cache.rs:149-156 | The never-sweeping run is constructed, for every prefix of a run in which no sweep is seen. |
| ProbeSweeping.ProbeGap | src/server/probe_cache.rs:87-147 | Two probes opened for a key are 5 s apart, and 60 s apart unless the first resolved to absent; a seed in between keeps the next one 60 s away. Readings may be out of order, except that a seed of the key is not older than a slot of it and no lookup of it misses a live swept slot. |
| ProbeSweeping.OrderedKeyTimely | src/server/probe_cache.rs:119-147 | Readings in lock order meet these two conditions for every key. |
| ProbeSweeping.ProbeRate | src/server/probe_cache.rs:9-19 | Under the same two conditions a window of length L opens at most 1 + L / 5 s probes for a key, however many callers there are, and no more than that succeed on the slots it opened. |
| ProbeSweeping.TableBounded | src/server/probe_cache.rs:59-63 | In every reachable state the table has at most threshold + 1 entries or no more than the slots created in the 60 s before the last insertion. |
| ProbeAlone.AloneIsARun | src/server/probe_cache.rs:106-114 | A call of `present`, with nobody else on its slot but the closure it joins, if it joins one, is a run of the step system, with the cache and answer the handlers use, for every way in which that closure can end and whatever else is being probed. |
| ProbeCacheObject.Slot.Live | src/server/probe_cache.rs:87-94 | The object lives for 5 s after `created` if it says missing, for 60 s otherwise, and its liveness is that of the slot it stands for, resolved, released or being probed. |
| ProbeCacheObject.ProbeCache.Sweep | src/server/probe_cache.rs:152-156 | In place, a table of more than 10,000 entries keeps exactly the live ones, a smaller one all, whatever is being probed. |
| ProbeCacheObject.ProbeCache.MarkPresent | src/server/probe_cache.rs:119-130 | The table, swept if due, leads to a fresh present slot of this reading; table and slots are those after the seeding step; no existing slot is changed. |
| ProbeCacheObject.ProbeCache.SlotFor | src/server/probe_cache.rs:132-147 | A live entry is shared and the table left alone; otherwise the table, swept if due, leads to a fresh slot without a value; slot and table are those of the lookup step. |
| ProbeCacheObject.ProbeCache.Resolve | src/server/probe_cache.rs:112-113 | Setting a cell that has no value yet changes that slot alone, in the table or detached, whatever else is being probed. |
| ProbeCacheObject.ProbeCache.Await | src/server/probe_cache.rs:111-113 | Waiting for a slot leaves its cell set to what the closure that held it returned, or free if that failed; on a slot that nobody holds it changes nothing. |
| S3StorageObject.FillPart | src/infra/aws.rs:343-369 | The loop takes from the stream, and returns, what the specification of a part says, and counts exactly the bytes it collected. |
| StoreInvariants.FillConserves | src/infra/aws.rs:343-369 | A part loses and reorders nothing, takes no item once it is full, ends at `eof` only at the end of the stream, and fails exactly if the last item it had to take is a read error. |
| StoreInvariants.FillBounded | src/infra/aws.rs:349-356 | The buffer is always shorter than a part plus a chunk. |
| StoreInvariants.ResumeSound | src/infra/aws.rs:408-555 | Whatever S3 answers, bytes, part sizes, part numbers and the stage stay consistent. |
| StoreInvariants.StoreConserves | src/infra/aws.rs:408-513 | In every reachable state the bytes drawn are the issued parts followed by the buffer, in order, and less than a part plus a chunk is held. |
| S3StorageObject.S3Storage.Exists | src/infra/aws.rs:373-391 | True, false or an error, exactly as HeadObject found, missed or failed. |
| S3StorageObject.S3Storage.Retrieve | src/infra/aws.rs:558-579 | The object's bytes, NotFound exactly for a missing key, and an error otherwise. |
| S3StorageObject.S3Storage.UploadParts | src/infra/aws.rs:458-516 | The part loop leaves S3 and the stream where the process has arrived, with its list of parts if it may complete and its error if it must abort. |
| S3StorageObject.S3Storage.Store | src/infra/aws.rs:393-556 | Result, S3 and the rest of the stream are those of the process driven to its end. |
| StoreCorrectness.StoreRefinesPut | src/infra/aws.rs:393-556 | For every chunking and every behaviour of S3 the object map ends as it was or with exactly this key set to the whole body; Ok means the latter, client abort the former, and other uploads are not touched. |
| StoreLifecycle.UploadLifecycle | src/infra/aws.rs:431-555 | An upload with an id gets one terminal request, the last call: complete if and only if the body was whole and no part failed, abort otherwise. |
| StoreLifecycle.ResultExact | src/infra/aws.rs:393-556 | The result can be read off the calls: Ok if and only if the last is a put or complete that was answered, otherwise a failure if that one failed, a create gave no id or a part failed, and a client abort if none of these. |
| StoreLifecycle.FirstCallExact | src/infra/aws.rs:403-433 | If 8 MiB precede the first read error the store begins with a create; if not, it is a single put of the whole body, or makes no call if the body breaks off. |
| StoreLifecycle.StoreWithoutStorage | src/infra/aws.rs:403-456 | With S3 gone a store fails at its first call and changes nothing, unless the body breaks off before 8 MiB, which is a client abort. |
| StoreLifecycle.FailedPartKeepsObjects | src/infra/aws.rs:465-536 | If any part of a store failed, the object map is what it was. |
| StoreLifecycle.LeftOpenExact | src/infra/aws.rs:446-555 | An upload stays open only if the store's last call was a create without id or a failed terminal request; with the code's part size, if and only if S3 carried out the create without giving its id, or refused the terminal request. |
| StoreLifecycle.RefusedCompleteLeavesOpen | src/infra/aws.rs:538-553 | For every whole body of at least a part, however chunked: if S3 serves every call and then refuses the complete, the store fails, its upload is still open, and no abort was sent. |
| StoreLifecycle.CompleteAccepted | src/infra/aws.rs:538-553 | At the complete call the upload is open, the tags are known, the numbers ascend and every part but the last is at least 5 MiB. |
| StoreLifecycle.StoreSucceeds | src/infra/aws.rs:393-556 | If S3 serves every call, `store` succeeds on exactly the bodies that arrive whole, and ends by client abort on the others. |
| StoreArithmetic.StartExact | src/infra/aws.rs:403-433 | Where a store begins, for every stream and part size: a multipart upload if a part's worth of bytes precedes the first read error, else one put of the whole body, else a client abort. |
| StoreArithmetic.MultipartIff | src/infra/aws.rs:403-433 | Multipart is chosen if and only if the body is at least a part long, whatever its chunking. |
| StoreArithmetic.PartCount | src/infra/aws.rs:458-513 | The parts of a complete request concatenate to the body, are numbered from 1, lie within the size bounds, and their number lies between two roundings of the body's length. |
| StoreArithmetic.PartNumberFits | src/infra/aws.rs:459-502 | The 32-bit part number does not overflow in any reachable state of a store of a body below 16 PiB, whatever S3 answers and however the store ends. |
| StoreRacing.NeverMixed | src/infra/aws.rs:393-556 | For any interleaving of any number of stores, an object is in every reachable state the initial one or the entire body of a single store whose parts were all stored. |
| StoreRacing.OkMeansCommitted | src/infra/aws.rs:393-556 | A store that returned Ok in a race had its whole body as the object at some earlier instant. |
| StoreRacing.SentLingers | src/infra/aws.rs:481-536 | What was sent can be carried out at every later instant at which S3 would accept it, again or for the first time, whatever its sender was told meanwhile. |
| Gate.VerdictExact | src/server/middleware.rs:52-102 | For every configuration, header and method: unauthorized if and only if neither token is carried, pass if and only if the service token is, or the read-only one with GET or HEAD, forbidden otherwise. |
| Gate.EmptyTokenRejected | src/domain/config.rs:142-165 | With a validated configuration an empty token is nobody's. |
| Gate.OnlyServiceTokenWrites | src/server/middleware.rs:52-102 | With a validated configuration a method that is not a read passes if and only if it carries the service token, and is answered 403 if and only if it carries the read-only one. |
| Gate.ValidHashExact | src/server/validation.rs:3-20 | Accepted are exactly the keys of 1 to 128 octets of UTF-8, counted on the encoding of section 3 of RFC 3629, made of ASCII letters and digits, hyphens, underscores and the letters beyond ASCII. |
| Gate.WideHash | src/server/validation.rs:3-20 | Of letters of two octets, keys up to 64 characters are accepted and no longer ones. |
| Gate.DocumentedHashExact | src/server/validation.rs:3-20 | The documented keys are exactly the accepted ones that are ASCII. |
| Gate.UndocumentedHash | README.md:133 | A key that is accepted and is not a documented one. |
| Gate.ProbeKeyRejected | src/domain/storage.rs:6-9 | The self-probe's key is not a valid hash. |
| ServerObject.DrainBody | src/server/handlers.rs:165-182 | The drain stops at the end of the body, after a read error, or at its limit, and reports the limit. |
| ServerObject.Server.StoreArtifact | src/server/handlers.rs:12-101 | Reply, S3, probe cache and the rest of the body are those of the specification. |
| ServerObject.Server.GetOrTryInit | src/server/probe_cache.rs:112-113 | Once it is the caller's turn, HeadObject is called, and the shared cell set, only if the cell has no value and the call does not fail. |
| ServerObject.Server.Present | src/server/probe_cache.rs:106-114 | Answer, S3 and the cache, shared slots included, are those of the specification, also for a read that joins a probe in flight, and while other slots are being probed. |
| Handlers.PresentIsAlone | src/server/probe_cache.rs:106-114 | That specification is the step system's call with nobody else on the slot but the closure it joins. |
| ServerObject.Server.RetrieveArtifact | src/server/handlers.rs:103-149 | Reply, S3 and probe cache are those of the specification. |
| ServerObject.Server.Handle | src/server/middleware.rs:44-103 | The gate and the handlers together, with the body left where the reply says. |
| Answers.RepliesByToken | src/server/middleware.rs:52-102 | 401, with S3, cache and body untouched, if and only if neither token is carried; 403 without any effect for the read-only token on anything but GET and HEAD; 405 for the service token on other methods; else the handlers' answer. |
| Answers.ReadReuses | src/server/probe_cache.rs:106-114 | A lookup that finds a live value, or joins a probe that gives one, answers that value without a call. |
| Answers.ReadProbes | src/server/probe_cache.rs:106-114 | Any other sends one HeadObject: if it is heard the answer is whether the key is in S3, missing included, and the slot of the table is set to it; if not, the answer is an error and the slot has no value. |
| Answers.ReadExact | src/server/handlers.rs:103-149 | A read's reply and its calls, in order, for every behaviour of S3: HeadObject only if the lookup does not tell, GetObject only if the key is said to be there, 200 with the object's bytes only if both got through, else 404; 400 and nothing at all for an invalid key. |
| Answers.AnswerRemembered | src/server/handlers.rs:107-114 | The next read of a key sends no HeadObject for 60 s if it was there, and for 5 s if it was missing, when it is a 404 without any call; from then on it asks again. |
| Answers.SeedRemembered | src/server/handlers.rs:91-94 | For 60 s after a PUT was answered 200 or 409 a read of its key is a GetObject alone. |
| Answers.PutExact | src/server/handlers.rs:12-101 | A PUT's status, S3 and cache for every behaviour of S3: 409 only if the check was heard and the key is there, otherwise, also if the check failed, the store's outcome: 200 and seeded, 400 for a client abort, 403 for a failure. |
| Answers.PutWhenCheckFails | src/server/handlers.rs:25-32 | If the existence check fails and S3 then serves every call, a whole body is stored and answered 200, a broken one 400. |
| Answers.PutWithoutStorage | src/server/handlers.rs:65-90 | With S3 gone a PUT is 403, or 400 if the body breaks off before 8 MiB, and nothing changes. |
| Pipeline.NeverServerError | src/server/handlers.rs:25-32 | No behaviour of S3 makes a cache request end in a 5xx. |
| Pipeline.BodyReadOut | src/server/handlers.rs:162-182 | A PUT past the gate, and a write refused there, is answered after the body's end, the first read error or the drain limit, and at that limit exactly `patience` items were discarded, unless a failed store had read some before; an unauthenticated request's body is not read. |
| Pipeline.DrainExact | src/server/handlers.rs:165-182 | A drain takes items up to the first read error or the end; it is cut if and only if the limit allows for fewer items than that, and has then taken as many as the limit allows. |
| Pipeline.PutMeaning | src/server/handlers.rs:12-101 | 200 means that this body, whole, is the object and the cache knows; 409 that the key was there and nothing was written; 400 that nothing was written; no status goes with anything but this body under this key. |
| Pipeline.PutWithHealthyStorage | src/server/handlers.rs:12-101 | With S3 up the status is 400, 409 or 200 as decided by the key, its presence and the body. |
| Pipeline.GetMeaning | src/server/handlers.rs:103-149 | A read changes nothing in S3, is 400 exactly for an invalid key, and 200 only with the object's own bytes. |
| Pipeline.GetWithHealthyStorage | src/server/handlers.rs:103-149 | With S3 up a valid read misses if and only if a live slot says missing, the probe in flight that it joins does, or the key is missing. |
| Pipeline.WriteIsolation | src/server/middleware.rs:83-100 | S3 after any sequence of requests is S3 after the sequence without any requests that are not PUTs with the service token. |
| Pipeline.ProbeObjectUntouched | src/domain/storage.rs:6-9 | No sequence of requests by anybody changes the object at the probe key. |
| Pipeline.CachedPresenceHolds | src/server/handlers.rs:41-94 | After any sequence of requests, if the probes they joined told the truth about S3, a read that finds a live `present` slot is answered 200 if its GetObject is served. |
| Pipeline.ConflictKeepsObjects | src/server/handlers.rs:32-44 | A PUT on a present key whose existence check is served changes no object. |
| Pipeline.RoundTrip | src/server/handlers.rs:12-149 | After a PUT answered 200, whatever is being probed and whatever requests and failures follow, an authorised read that S3 serves returns the bytes of that PUT, as long as bodies stored later under the key are the same. |
| Concurrent.RunInformed | src/server/handlers.rs:32-94 | In every state of every run with any number of handlers, stores and readers, each handler's place in its code is right about S3: it has found the key, its own store runs, or has returned Ok for 200, a client abort for 400 and a failure for 403, the cache was seeded before 200 or 409. |
| Concurrent.HandlersConfirm | src/server/handlers.rs:32-94 | However stores and readers race, the handlers seed the cache only with keys that were in S3. |
| Concurrent.StatusMeans | src/server/handlers.rs:32-100 | In any race, 200 means that this body arrived whole and was, entire, the object at an earlier instant, 409 that the key was in S3, 400 that the body broke off, and 403 that its store failed at S3. |
| Concurrent.AnsweredPutIsSeen | src/server/probe_cache.rs:20-23 | Without deletes, after a PUT was answered 200 or 409 no later lookup of its key answers false, and S3 holds under the key the initial object or the entire body of one store. |
| Concurrent.RacingRoundTrip | src/server/handlers.rs:46-49 | If keys are content addresses, then in any race without deletes S3 holds exactly the content under the key of an answered PUT whenever a later lookup of it goes on, that lookup does not answer false, and the content is what a PUT answered 200 sent. |
| ConcurrentAlone.PutIsARun | src/server/handlers.rs:12-101 | Every run, and every script of S3, has a continuation in which a PUT that arrives ends with the status, the bucket and the cache that `Handlers` gives it. |
| Concurrent.PresentMeansWhole | src/server/handlers.rs:127-140 | Without deletes, a `present` that answered true is followed at every instant by a whole, unmixed object under the key. |

## Left out

- ProbeSweeping.ProbeGap: stated, like ProbeRate, for runs in which seeds and swept slots of the key meet the two conditions in its row; LateSeedOpensSecondProbe and LateLookupSeesSweep show that neither can be dropped.
- Pipeline.RoundTrip: is about requests handled one after the other with nobody else deleting objects; `RacingRoundTrip` is about interleavings, up to the lookup and the object, without the GetObject.
- Pipeline.CachedPresenceHolds: takes it that a probe which a read joins, and which another caller runs, tells the truth; `PositiveSoundness` proves that of runs.
- Cancelling a PUT in the middle of `store`: no code of the server can run then, so its upload stays open.
- S3's limit of 10,000 parts: covered only as one of the refusals S3 may answer with.
- Read errors of GetObject's body after the 200 has been sent, and bodies that never end inside `store`, which has no time limit.
- Overflow of the `usize` byte counter, which only feeds a log line.
- AWS client construction, credentials, regions, retries and time-outs (`src/infra/aws.rs:58-334`); only the bound on an attempt's duration appears, as a parameter.
- Axum routing, response headers, the access log, the startup and self-probe tasks, and the body of a 405: plumbing around the core.
- Command line and configuration parsing; constant-time comparison is byte equality.
- The internals of tokio's OnceCell and Mutex and of the stream adapters, taken at their contracts.
