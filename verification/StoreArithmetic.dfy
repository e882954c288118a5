/** How a body is cut: the choice of multipart, the sizes, the numbers. */
module StoreArithmetic {
  import opened Common
  import opened ObjectStore
  import opened StoreProcess
  import opened StoreInvariants

  function CeilDiv(a: nat, b: nat): nat
    requires b > 0
  {
    (a + b - 1) / b
  }

  lemma CeilDivUpper(a: nat, b: nat, n: nat)
    requires b > 0 && n > 0 && (n - 1) * b < a
    ensures n <= CeilDiv(a, b)
  {
    var q := CeilDiv(a, b);
    assert a + b - 1 < (q + 1) * b;
    assert (q + 1) * b == q * b + b;
    ScaleOrdered(q, n - 1, b);
  }

  lemma CeilDivLower(a: nat, b: nat, n: nat)
    requires b > 0 && a <= n * b
    ensures CeilDiv(a, b) <= n
  {
    var q := CeilDiv(a, b);
    assert q * b <= a + b - 1;
    ScaleOrdered(n + 1, q, b);
    assert (n + 1) * b == n * b + b;
  }

  lemma OneMore(n: nat, size: nat)
    ensures (n + 1) * size == n * size + size
  {
  }

  lemma {:induction false} JoinAtLeast(parts: seq<Bytes>, low: nat)
    requires forall i :: 0 <= i < |parts| ==> low <= |parts[i]|
    ensures |parts| * low <= |Join(parts)|
  {
    if parts != [] {
      var init := parts[..|parts| - 1];
      JoinAtLeast(init, low);
      OneMore(|init|, low);
    }
  }

  lemma {:induction false} JoinAtMost(parts: seq<Bytes>, high: nat)
    requires forall i :: 0 <= i < |parts| ==> |parts[i]| <= high
    ensures |Join(parts)| <= |parts| * high
  {
    if parts != [] {
      var init := parts[..|parts| - 1];
      JoinAtMost(init, high);
      OneMore(|init|, high);
    }
  }

  /** The items before the first read error. */
  function Lead(events: seq<Event>): (lead: seq<Event>)
    ensures lead <= events && Clean(lead)
    ensures |lead| < |events| ==> events[|lead|].Broken?
  {
    if events == [] || events[0].Broken? then [] else [events[0]] + Lead(events[1..])
  }

  /** Items without a read error are part of the lead. */
  lemma LeadHolds(events: seq<Event>, n: nat)
    requires n <= |events| && Clean(events[..n])
    ensures var lead := Lead(events); n <= |lead| && events[..n] == lead[..n] && |Payload(events[..n])| <= |Payload(lead)|
  {
    var lead := Lead(events);
    assert forall i :: 0 <= i < n ==> events[..n][i] == events[i];
    PayloadPrefix(lead, n);
  }

  /** Up to a read error it is all of it. */
  lemma LeadEnds(events: seq<Event>, n: nat)
    requires n <= |events| && Clean(events[..n]) && (n < |events| ==> events[n].Broken?)
    ensures Lead(events) == events[..n]
  {
    LeadHolds(events, n);
  }

  lemma FirstAborted(events: seq<Event>, partSize: nat)
    requires Fill(events, 0, partSize, []).Aborted?
    ensures !Clean(events) && |Payload(Lead(events))| < partSize
  {
    FillConserves(events, 0, partSize, [], []);
    var taken := Fill(events, 0, partSize, []).taken;
    LeadEnds(events, taken - 1);
    assert !events[taken - 1].Chunk?;
  }

  lemma FirstFilled(events: seq<Event>, partSize: nat)
    requires Fill(events, 0, partSize, []).Part?
    ensures var Part(buffer, eof, taken) := Fill(events, 0, partSize, []);
            if eof then Clean(events) && Payload(Lead(events)) == buffer && |buffer| < partSize
            else |Payload(Lead(events))| >= |buffer| >= partSize
  {
    FillConserves(events, 0, partSize, [], []);
    var Part(buffer, eof, taken) := Fill(events, 0, partSize, []);
    assert [] + buffer == buffer;
    if eof {
      assert events[..taken] == events;
      LeadEnds(events, taken);
    } else {
      LeadHolds(events, taken);
    }
  }

  /** Where a store begins, by the bytes before the first read error. */
  lemma StartExact(key: Key, events: seq<Event>, partSize: nat)
    requires partSize > 0
    ensures var p, data := Start(key, events, partSize), Payload(Lead(events));
            && p.stage == (if |data| >= partSize then Creating else if Clean(events) then Putting else Finished(Err(ClientAbort)))
            && (p.stage == Putting ==> p.buffer == data)
  {
    if Fill(events, 0, partSize, []).Aborted? {
      FirstAborted(events, partSize);
    } else {
      FirstFilled(events, partSize);
    }
  }

  /**
   A body is uploaded in parts if and only if it is at least one part long, whatever the chunking;
   otherwise it is put whole.
   */
  lemma MultipartIff(key: Key, events: seq<Event>, partSize: nat)
    requires partSize > 0 && Clean(events)
    ensures Start(key, events, partSize).stage == if |Payload(events)| >= partSize then Creating else Putting
  {
    StartExact(key, events, partSize);
    assert events[..|events|] == events;
    LeadEnds(events, |events|);
  }

  lemma CompletingJoin(p: Process, partSize: nat)
    requires Sound(p, partSize) && p.stage == Completing
    ensures Join(p.parts) == Payload(p.events)
  {
    assert p.events[..p.taken] == p.events;
    assert Join(p.parts) + [] == Join(p.parts);
  }

  lemma CutCount(parts: seq<Bytes>, partSize: nat, chunk: nat)
    requires partSize > 0 && chunk > 0 && parts != []
    requires forall i :: 0 <= i < |parts| ==> 0 < |parts[i]| < partSize + chunk
    requires forall i :: 0 <= i < |parts| - 1 ==> partSize <= |parts[i]|
    ensures CeilDiv(|Join(parts)|, partSize + chunk - 1) <= |parts| <= CeilDiv(|Join(parts)|, partSize)
  {
    var n := |parts|;
    JoinAtMost(parts, partSize + chunk - 1);
    CeilDivLower(|Join(parts)|, partSize + chunk - 1, n);
    JoinAtLeast(parts[..n - 1], partSize);
    CeilDivUpper(|Join(parts)|, partSize, n);
  }

  /**
   The parts named in a Complete request, whatever S3 answered before it: concatenated they are the body,
   every part but the last is between one part and one part plus a chunk long, the last is not empty,
   the numbers are 1, 2, ..., and there are as many as two roundings of the body's length allow.
   */
  lemma PartCount(key: Key, events: seq<Event>, answers: seq<Response>, partSize: nat, chunk: nat)
    requires partSize > 0 && chunk > 0 && ChunksWithin(events, chunk)
    requires Replay(Start(key, events, partSize), answers, partSize).stage == Completing
    ensures var p := Replay(Start(key, events, partSize), answers, partSize);
            && Join(p.parts) == Payload(events)
            && |p.completed| == |p.parts|
            && (forall i :: 0 <= i < |p.parts| ==> p.completed[i].number == i + 1)
            && (forall i :: 0 <= i < |p.parts| ==>
                  (if i < |p.parts| - 1 then partSize else 1) <= |p.parts[i]| < partSize + chunk)
            && CeilDiv(|Payload(events)|, partSize + chunk - 1) <= |p.parts| <= CeilDiv(|Payload(events)|, partSize)
  {
    StoreConserves(key, events, answers, partSize, chunk);
    var p := Replay(Start(key, events, partSize), answers, partSize);
    CompletingJoin(p, partSize);
    CutCount(p.parts, partSize, chunk);
  }

  const MAX_I32: nat := 0x7fff_ffff

  /** No more was issued than the stream holds, even when the client breaks off. */
  ghost predicate IssuedWithin(p: Process) {
    |p.completed| <= |p.parts| && |Join(p.parts)| <= |Payload(p.events)|
  }

  lemma ConservedWithin(p: Process)
    requires p.Bounded() && Conserves(p)
    ensures |Join(p.parts)| <= |Payload(p.events)|
  {
    PayloadPrefix(p.events, p.taken);
  }

  lemma ResumeIssued(p: Process, answer: Response, partSize: nat)
    requires partSize > 0 && Sound(p, partSize) && IssuedWithin(p)
    ensures IssuedWithin(Resume(p, answer, partSize))
  {
    ResumeSound(p, answer, partSize);
    var q := Resume(p, answer, partSize);
    if BecauseOfClient(q.stage) {
      assert q.parts == p.parts;
    } else {
      ConservedWithin(q);
    }
  }

  lemma {:induction false} ReplayIssued(key: Key, events: seq<Event>, answers: seq<Response>, partSize: nat)
    requires partSize > 0
    ensures var p := Replay(Start(key, events, partSize), answers, partSize); Sound(p, partSize) && IssuedWithin(p)
  {
    if answers == [] {
      StartSound(key, events, partSize);
    } else {
      var init := answers[..|answers| - 1];
      ReplayIssued(key, events, init, partSize);
      var p := Replay(Start(key, events, partSize), init, partSize);
      ResumeSound(p, answers[|answers| - 1], partSize);
      ResumeIssued(p, answers[|answers| - 1], partSize);
    }
  }

  /** Parts that are full but for the last, which is not empty, are fewer than the bytes allow. */
  lemma FullPartsCount(parts: seq<Bytes>, limit: nat)
    requires forall i :: 0 <= i < |parts| - 1 ==> |parts[i]| >= MULTIPART_PART_SIZE
    requires parts != [] ==> |parts[|parts| - 1]| > 0
    requires |Join(parts)| <= limit * MULTIPART_PART_SIZE
    ensures |parts| <= limit
  {
    var n := |parts|;
    if n > 0 {
      JoinAtLeast(parts[..n - 1], MULTIPART_PART_SIZE);
      assert |Join(parts)| > (n - 1) * MULTIPART_PART_SIZE;
      ScaleOrdered(limit, n - 1, MULTIPART_PART_SIZE);
    }
  }

  /**
   The `i32` part number, one past the parts stored so far, does not overflow in any store of a body below 16 PiB,
   whatever S3 answers and however it ends.
   */
  lemma PartNumberFits(key: Key, events: seq<Event>, answers: seq<Response>)
    requires |Payload(events)| <= (MAX_I32 - 1) * MULTIPART_PART_SIZE
    ensures |Replay(Start(key, events, MULTIPART_PART_SIZE), answers, MULTIPART_PART_SIZE).completed| + 1 <= MAX_I32
  {
    var p := Replay(Start(key, events, MULTIPART_PART_SIZE), answers, MULTIPART_PART_SIZE);
    ReplayIssued(key, events, answers, MULTIPART_PART_SIZE);
    FullPartsCount(p.parts, MAX_I32 - 1);
  }
}
