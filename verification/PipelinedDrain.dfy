/** Draining pipelined RPC responses (benches/tier4_rpc_support.rs): who was answered, and when to give up. */
module PipelinedDrain {
  import opened Basics
  import opened RpcWire

  datatype Sent = Sent(id: Bytes, body: Bytes)

  datatype DrainError = DuplicateIds | TooManyFrames | ReceiveFailed | UnexpectedId | BadResponse

  // ----- the reference: what the frames read so far answer

  predicate UniqueIds(sent: seq<Sent>) {
    forall i, j | 0 <= i < j < |sent| :: sent[i].id != sent[j].id
  }

  function ExpectedBodies(sent: seq<Sent>): map<Bytes, Bytes> {
    if sent == [] then map[]
    else ExpectedBodies(sent[..|sent| - 1])[sent[|sent| - 1].id := sent[|sent| - 1].body]
  }

  /** A single-frame answer: sequence zero, its own body, end of stream. */
  predicate Answers(r: ResponseParts, body: Bytes) {
    r.seqNo == 0 && r.body == body && r.streamEnd
  }

  /** The ids answered by the response frames among `frames`, in order. */
  function AnsweredIds(frames: seq<Bytes>): seq<Bytes> {
    if frames == [] then []
    else
      var last := ResponseIn(frames[|frames| - 1]);
      AnsweredIds(frames[..|frames| - 1]) + if last.Some? then [last.value.id] else []
  }

  /** Every response among the frames is a proper answer to something sent. */
  predicate AllProper(sent: map<Bytes, Bytes>, frames: seq<Bytes>) {
    forall i | 0 <= i < |frames| && ResponseIn(frames[i]).Some? ::
      var r := ResponseIn(frames[i]).value; r.id in sent && Answers(r, sent[r.id])
  }

  predicate Distinct(ids: seq<Bytes>) {
    forall i, j | 0 <= i < j < |ids| :: ids[i] != ids[j]
  }

  /** Each request answered exactly once and properly, and nothing else answered. */
  predicate AnsweredExactlyOnce(sent: map<Bytes, Bytes>, frames: seq<Bytes>) {
    AllProper(sent, frames) && Distinct(AnsweredIds(frames)) && (set id | id in AnsweredIds(frames)) == sent.Keys
  }

  lemma {:induction false} AnsweredAreResponses(frames: seq<Bytes>, id: Bytes)
    ensures id in AnsweredIds(frames) <==> exists i ::
              0 <= i < |frames| && ResponseIn(frames[i]).Some? && ResponseIn(frames[i]).value.id == id
    decreases |frames|
  {
    if frames != [] {
      var n := |frames| - 1;
      AnsweredAreResponses(frames[..n], id);
      if i :| 0 <= i < |frames| && ResponseIn(frames[i]).Some? && ResponseIn(frames[i]).value.id == id {
        if i < n { assert frames[..n][i] == frames[i]; }
      }
    }
  }

  /** What is still expected after one more frame. */
  function AfterFrame(expected: map<Bytes, Bytes>, frame: Bytes): Option<map<Bytes, Bytes>> {
    match ResponseIn(frame)
    case None => Some(expected)
    case Some(r) => if r.id in expected && Answers(r, expected[r.id]) then Some(expected - {r.id}) else None
  }

  /** What is still expected after reading `frames`, or nothing sensible once a frame was wrong. */
  function Left(sent: map<Bytes, Bytes>, frames: seq<Bytes>): Option<map<Bytes, Bytes>> {
    if frames == [] then Some(sent)
    else
      var before := Left(sent, frames[..|frames| - 1]);
      if before.None? then None else AfterFrame(before.value, frames[|frames| - 1])
  }

  lemma LeftNext(sent: map<Bytes, Bytes>, frames: seq<Bytes>, n: nat)
    requires n < |frames|
    ensures Left(sent, frames[..n + 1]) ==
            if Left(sent, frames[..n]).None? then None else AfterFrame(Left(sent, frames[..n]).value, frames[n])
  {
    assert frames[..n + 1][..n] == frames[..n];
  }

  lemma {:induction false} WrongStaysWrong(sent: map<Bytes, Bytes>, frames: seq<Bytes>, n: nat, m: nat)
    requires n <= m <= |frames| && Left(sent, frames[..n]).None?
    ensures Left(sent, frames[..m]).None?
    decreases m
  {
    if n < m {
      WrongStaysWrong(sent, frames, n, m - 1);
      LeftNext(sent, frames, m - 1);
    }
  }

  /** The fold tells exactly which frames were proper and which ids are still open. */
  lemma {:induction false} LeftMeans(sent: map<Bytes, Bytes>, frames: seq<Bytes>)
    ensures Left(sent, frames).Some? <==> AllProper(sent, frames) && Distinct(AnsweredIds(frames))
    ensures Left(sent, frames).Some? ==> Left(sent, frames).value == sent - (set id | id in AnsweredIds(frames))
    decreases |frames|
  {
    if frames != [] {
      var n := |frames| - 1;
      var before, last := frames[..n], frames[n];
      LeftMeans(sent, before);
      ProperAtEnd(sent, frames);
      var ids := AnsweredIds(before);
      if ResponseIn(last).Some? {
        var id := ResponseIn(last).value.id;
        DistinctAtEnd(ids, id);
        assert AnsweredIds(frames) == ids + [id];
        assert (set k | k in ids + [id]) == (set k | k in ids) + {id};
        if Left(sent, before).Some? {
          var open := Left(sent, before).value;
          assert id in open <==> id in sent && id !in ids;
          assert id in open ==> open[id] == sent[id] && open - {id} == sent - ((set k | k in ids) + {id});
        }
      } else {
        assert AnsweredIds(frames) == ids + [] == ids;
      }
    }
  }

  lemma ProperAtEnd(sent: map<Bytes, Bytes>, frames: seq<Bytes>)
    requires frames != []
    ensures var last := ResponseIn(frames[|frames| - 1]);
            AllProper(sent, frames) <==> (&& AllProper(sent, frames[..|frames| - 1])
                                          && (last.Some? ==>
                                                && last.value.id in sent
                                                && Answers(last.value, sent[last.value.id])))
  {
  }

  lemma DistinctAtEnd(ids: seq<Bytes>, id: Bytes)
    ensures Distinct(ids + [id]) <==> Distinct(ids) && id !in ids
  {
    var longer := ids + [id];
    assert forall i | 0 <= i < |ids| :: longer[i] == ids[i];
    assert longer[|ids|] == id;
  }

  /** Nothing left to expect means each request was answered exactly once, and the other way round. */
  lemma EmptyMeansAnswered(sent: map<Bytes, Bytes>, frames: seq<Bytes>)
    ensures Left(sent, frames) == Some(map[]) <==> AnsweredExactlyOnce(sent, frames)
  {
    LeftMeans(sent, frames);
    var answered := set id | id in AnsweredIds(frames);
    if Left(sent, frames).Some? {
      assert answered <= sent.Keys by {
        forall id | id in answered ensures id in sent { AnsweredAreResponses(frames, id); }
      }
      assert (sent - answered).Keys == sent.Keys - answered;
      if sent.Keys - answered == {} {
        assert sent.Keys == (sent.Keys - answered) + sent.Keys * answered;
        assert sent.Keys == answered;
        assert sent - answered == map[];
      } else {
        var id :| id in sent.Keys - answered;
        assert id in sent - answered;
      }
    }
  }

  // ----- the code

  lemma {:induction false} ExpectedKeys(sent: seq<Sent>, id: Bytes)
    ensures id in ExpectedBodies(sent) <==> exists i :: 0 <= i < |sent| && sent[i].id == id
    decreases |sent|
  {
    if sent != [] {
      var n := |sent| - 1;
      ExpectedKeys(sent[..n], id);
      assert forall i | 0 <= i < n :: sent[..n][i] == sent[i];
    }
  }

  lemma {:induction false} ExpectedCount(sent: seq<Sent>)
    ensures |ExpectedBodies(sent)| <= |sent|
    ensures |ExpectedBodies(sent)| == |sent| <==> UniqueIds(sent)
    decreases |sent|
  {
    if sent != [] {
      var n := |sent| - 1;
      ExpectedCount(sent[..n]);
      ExpectedKeys(sent[..n], sent[n].id);
      assert forall i | 0 <= i < n :: sent[..n][i] == sent[i];
      assert ExpectedBodies(sent).Keys == ExpectedBodies(sent[..n]).Keys + {sent[n].id};
      if sent[n].id in ExpectedBodies(sent[..n]) {
        assert ExpectedBodies(sent).Keys == ExpectedBodies(sent[..n]).Keys;
      }
    }
  }

  /** With distinct ids the map says which body each request carried. */
  lemma {:induction false} ExpectedIsSent(sent: seq<Sent>, i: nat)
    requires UniqueIds(sent) && i < |sent|
    ensures sent[i].id in ExpectedBodies(sent) && ExpectedBodies(sent)[sent[i].id] == sent[i].body
    decreases |sent|
  {
    var n := |sent| - 1;
    if i < n {
      assert sent[..n][i] == sent[i];
      ExpectedIsSent(sent[..n], i);
    }
  }

  method ExpectedResponseBodies(sent: seq<Sent>) returns (expected: Result<map<Bytes, Bytes>, DrainError>)
    ensures expected.Ok? <==> UniqueIds(sent)
    ensures expected.Ok? ==> expected.value == ExpectedBodies(sent)
  {
    var bodies: map<Bytes, Bytes> := map[];
    for n := 0 to |sent|
      invariant bodies == ExpectedBodies(sent[..n])
    {
      bodies := bodies[sent[n].id := sent[n].body];
      assert sent[..n + 1][..n] == sent[..n];
    }
    assert sent[..|sent|] == sent;
    ExpectedCount(sent);
    if |bodies| != |sent| {
      return Err(DuplicateIds);
    }
    return Ok(bodies);
  }

  /** One frame: anything that is not a response is skipped, a response must answer something still expected. */
  method ValidatePipelinedResponse(frame: Bytes, expected: map<Bytes, Bytes>)
    returns (left: Result<map<Bytes, Bytes>, DrainError>)
    requires |frame| <= U64_MAX
    ensures var r := ResponseIn(frame);
            match r
            case None => left == Ok(expected)
            case Some(response) =>
              left == if response.id !in expected then Err(UnexpectedId)
                      else if Answers(response, expected[response.id]) then Ok(expected - {response.id})
                      else Err(BadResponse)
  {
    var parsed := ParseResponseFrame(frame);
    if parsed.None? {
      return Ok(expected);
    }
    var response := parsed.value;
    if response.id !in expected {
      return Err(UnexpectedId);
    }
    var body := expected[response.id];
    if response.seqNo != 0 || response.body != body || !response.streamEnd {
      return Err(BadResponse);
    }
    return Ok(expected - {response.id});
  }

  /** A prefix of the stream, within the scan limit, that answers everything sent exactly once. */
  ghost predicate Completes(sent: map<Bytes, Bytes>, frames: seq<Bytes>, limit: nat, n: nat) {
    n <= limit && n <= |frames| && AnsweredExactlyOnce(sent, frames[..n])
  }

  ghost predicate Completed(sent: map<Bytes, Bytes>, frames: seq<Bytes>, limit: nat) {
    exists n :: Completes(sent, frames, limit, n)
  }

  /** Four frames per request, saturating like the source. */
  function ScanLimit(requests: nat): (limit: nat)
    ensures requests <= limit <= 4 * requests
    ensures 4 * requests <= U64_MAX ==> limit == 4 * requests
  {
    var scaled := Clamp64(requests * 4);
    if scaled < requests then requests else scaled
  }

  /** No prefix up to `limit` completes if none did so far and the walk cannot go on. */
  lemma NeverCompletes(sent: map<Bytes, Bytes>, frames: seq<Bytes>, limit: nat, scanned: nat)
    requires scanned <= |frames|
    requires forall n | 0 <= n < scanned :: Left(sent, frames[..n]) != Some(map[])
    requires scanned > limit || Left(sent, frames[..scanned]).None?
             || (Left(sent, frames[..scanned]) != Some(map[]) && (scanned == limit || scanned == |frames|))
    ensures !Completed(sent, frames, limit)
  {
    forall n | 0 <= n <= limit && n <= |frames| ensures !AnsweredExactlyOnce(sent, frames[..n]) {
      EmptyMeansAnswered(sent, frames[..n]);
      if n >= scanned && Left(sent, frames[..scanned]).None? { WrongStaysWrong(sent, frames, scanned, n); }
    }
  }

  /**
   The drain succeeds exactly when the ids are distinct and some prefix of at most four frames per request
   answers each of them once and properly; it reads no more than that, and stops as soon as it is complete.
   */
  method DrainPipelinedResponses(sent: seq<Sent>, frames: seq<Bytes>)
    returns (drained: Result<(), DrainError>, framesRead: nat)
    requires forall i | 0 <= i < |frames| :: |frames[i]| <= U64_MAX
    ensures framesRead <= ScanLimit(|sent|)
    ensures drained.Ok? <==> UniqueIds(sent) && Completed(ExpectedBodies(sent), frames, ScanLimit(|sent|))
    ensures drained.Ok? ==> Completes(ExpectedBodies(sent), frames, ScanLimit(|sent|), framesRead)
  {
    var built := ExpectedResponseBodies(sent);
    if built.Err? {
      return Err(built.error), 0;
    }
    var limit := ScanLimit(|sent|);
    ghost var all := built.value;
    var expected := built.value;
    var scanned := 0;
    assert frames[..0] == [];
    while expected != map[]
      invariant scanned <= limit && scanned <= |frames|
      invariant Left(all, frames[..scanned]) == Some(expected)
      invariant forall n | 0 <= n < scanned :: Left(all, frames[..n]) != Some(map[])
      decreases limit - scanned
    {
      if scanned + 1 > limit {
        NeverCompletes(all, frames, limit, scanned);
        return Err(TooManyFrames), scanned;
      }
      if scanned == |frames| {
        NeverCompletes(all, frames, limit, scanned);
        return Err(ReceiveFailed), scanned;
      }
      LeftNext(all, frames, scanned);
      var left := ValidatePipelinedResponse(frames[scanned], expected);
      if left.Err? {
        NeverCompletes(all, frames, limit, scanned + 1);
        return Err(left.error), scanned + 1;
      }
      expected, scanned := left.value, scanned + 1;
    }
    EmptyMeansAnswered(all, frames[..scanned]);
    assert Completes(all, frames, limit, scanned);
    return Ok(()), scanned;
  }

  /** What the timed drain waits for: the body and the moment the request was sent. */
  datatype Waiting = Waiting(body: Bytes, started: nat)

  function Bodies(waiting: map<Bytes, Waiting>): map<Bytes, Bytes> {
    map id | id in waiting :: waiting[id].body
  }

  lemma BodiesWithout(waiting: map<Bytes, Waiting>, id: Bytes)
    requires id in waiting
    ensures Bodies(waiting - {id}) == Bodies(waiting) - {id} && |waiting - {id}| == |waiting| - 1
  {
  }

  function Elapsed(now: nat, started: nat): nat {
    if now >= started then now - started else 0
  }

  /** The latency an answer adds, if the frame is one. */
  function Latency(waiting: map<Bytes, Waiting>, frame: Bytes, now: nat): seq<nat> {
    match ResponseIn(frame)
    case None => []
    case Some(r) => if r.id in waiting then [Elapsed(now, waiting[r.id].started)] else []
  }

  /** One latency per answer, in the order the answers arrived. */
  function LatenciesOf(waiting: map<Bytes, Waiting>, frames: seq<Bytes>, now: seq<nat>): seq<nat>
    requires |now| == |frames|
  {
    if frames == [] then []
    else
      var n := |frames| - 1;
      LatenciesOf(waiting, frames[..n], now[..n]) + Latency(waiting, frames[n], now[n])
  }

  lemma LatenciesNext(waiting: map<Bytes, Waiting>, frames: seq<Bytes>, now: seq<nat>, n: nat)
    requires n < |frames| == |now|
    ensures LatenciesOf(waiting, frames[..n + 1], now[..n + 1]) ==
            LatenciesOf(waiting, frames[..n], now[..n]) + Latency(waiting, frames[n], now[n])
  {
    assert frames[..n + 1][..n] == frames[..n] && now[..n + 1][..n] == now[..n];
  }

  /** What is still expected was asked for at the start, with the same body and start time. */
  predicate StillWaiting(expected: map<Bytes, Waiting>, waiting: map<Bytes, Waiting>) {
    forall id | id in expected :: id in waiting && expected[id] == waiting[id]
  }

  method CollectTimedResponse(frame: Bytes, expected: map<Bytes, Waiting>, latencies: seq<nat>, now: nat)
    returns (taken: Result<(map<Bytes, Waiting>, seq<nat>), DrainError>)
    requires |frame| <= U64_MAX
    ensures AfterFrame(Bodies(expected), frame) == if taken.Ok? then Some(Bodies(taken.value.0)) else None
    ensures taken.Ok? ==> |taken.value.0| + |taken.value.1| == |expected| + |latencies|
    ensures taken.Ok? ==>
              StillWaiting(taken.value.0, expected) && taken.value.1 == latencies + Latency(expected, frame, now)
    ensures taken.Ok? && ResponseIn(frame).Some? ==> ResponseIn(frame).value.id in expected
  {
    var parsed := ParseResponseFrame(frame);
    if parsed.None? {
      return Ok((expected, latencies));
    }
    var response := parsed.value;
    if response.id !in expected {
      return Err(UnexpectedId);
    }
    var entry := expected[response.id];
    if response.seqNo != 0 || response.body != entry.body || !response.streamEnd {
      return Err(BadResponse);
    }
    BodiesWithout(expected, response.id);
    return Ok((expected - {response.id}, latencies + [Elapsed(now, entry.started)]));
  }

  /**
   Where the timed drain stands after `n` frames: what is pending, what is collected, and that it is not done before.
   */
  ghost predicate TimedProgress(waiting: map<Bytes, Waiting>, frames: seq<Bytes>, now: seq<nat>, n: nat,
                                expected: map<Bytes, Waiting>, collected: seq<nat>)
    requires n <= |frames| == |now|
  {
    && Left(Bodies(waiting), frames[..n]) == Some(Bodies(expected))
    && StillWaiting(expected, waiting)
    && |expected| + |collected| == |waiting|
    && collected == LatenciesOf(waiting, frames[..n], now[..n])
    && (forall m | 0 <= m < n :: Left(Bodies(waiting), frames[..m]) != Some(map[]))
  }

  lemma TimedStep(waiting: map<Bytes, Waiting>, frames: seq<Bytes>, now: seq<nat>, n: nat,
                  expected: map<Bytes, Waiting>, collected: seq<nat>, rest: map<Bytes, Waiting>)
    requires n < |frames| == |now| && TimedProgress(waiting, frames, now, n, expected, collected)
    requires StillWaiting(rest, expected) && AfterFrame(Bodies(expected), frames[n]) == Some(Bodies(rest))
    requires ResponseIn(frames[n]).Some? ==> ResponseIn(frames[n]).value.id in expected
    requires expected != map[]
             && |rest| + |collected + Latency(expected, frames[n], now[n])| == |expected| + |collected|
    ensures TimedProgress(waiting, frames, now, n + 1, rest, collected + Latency(expected, frames[n], now[n]))
  {
    LeftNext(Bodies(waiting), frames, n);
    LatenciesNext(waiting, frames, now, n);
    assert Bodies(expected).Keys == expected.Keys != {};
  }

  lemma TimedDone(waiting: map<Bytes, Waiting>, frames: seq<Bytes>, now: seq<nat>, n: nat, collected: seq<nat>)
    requires n <= |frames| == |now| && TimedProgress(waiting, frames, now, n, map[], collected)
    ensures Completed(Bodies(waiting), frames, |frames|) && Completes(Bodies(waiting), frames, |frames|, n)
    ensures |collected| == |waiting| && collected == LatenciesOf(waiting, frames[..n], now[..n])
  {
    assert Bodies(map[]) == map[];
    EmptyMeansAnswered(Bodies(waiting), frames[..n]);
    assert Completes(Bodies(waiting), frames, |frames|, n);
  }

  lemma TimedStuck(waiting: map<Bytes, Waiting>, frames: seq<Bytes>, now: seq<nat>, n: nat,
                   expected: map<Bytes, Waiting>, collected: seq<nat>)
    requires n <= |frames| == |now| && TimedProgress(waiting, frames, now, n, expected, collected) && expected != map[]
    requires n == |frames| || AfterFrame(Bodies(expected), frames[n]).None?
    ensures !Completed(Bodies(waiting), frames, |frames|)
  {
    assert Bodies(expected).Keys == expected.Keys != {};
    if n < |frames| {
      LeftNext(Bodies(waiting), frames, n);
      NeverCompletes(Bodies(waiting), frames, |frames|, n + 1);
    } else {
      NeverCompletes(Bodies(waiting), frames, |frames|, n);
    }
  }

  /**
   The timed drain has no scan limit and keeps one latency per distinct id: what is pending and what is
   collected always add up to the number of ids, so the final count check cannot fail.
   */
  method DrainTimedResponses(waiting: map<Bytes, Waiting>, frames: seq<Bytes>, now: seq<nat>)
    returns (latencies: Result<seq<nat>, DrainError>, framesRead: nat)
    requires |now| == |frames| && forall i | 0 <= i < |frames| :: |frames[i]| <= U64_MAX
    ensures latencies.Ok? <==> Completed(Bodies(waiting), frames, |frames|)
    ensures latencies.Ok? ==> Completes(Bodies(waiting), frames, |frames|, framesRead) && |latencies.value| == |waiting|
    ensures latencies.Ok? ==> latencies.value == LatenciesOf(waiting, frames[..framesRead], now[..framesRead])
  {
    var expected, scanned := waiting, 0;
    var collected: seq<nat> := [];
    assert frames[..0] == [];
    while expected != map[]
      invariant scanned <= |frames| && TimedProgress(waiting, frames, now, scanned, expected, collected)
      decreases |frames| - scanned
    {
      if scanned == |frames| {
        TimedStuck(waiting, frames, now, scanned, expected, collected);
        return Err(ReceiveFailed), scanned;
      }
      var taken := CollectTimedResponse(frames[scanned], expected, collected, now[scanned]);
      if taken.Err? {
        TimedStuck(waiting, frames, now, scanned, expected, collected);
        return Err(taken.error), scanned + 1;
      }
      TimedStep(waiting, frames, now, scanned, expected, collected, taken.value.0);
      expected, collected, scanned := taken.value.0, taken.value.1, scanned + 1;
    }
    TimedDone(waiting, frames, now, scanned, collected);
    if |collected| != |waiting| {
      assert false;
    }
    return Ok(collected), scanned;
  }
}
