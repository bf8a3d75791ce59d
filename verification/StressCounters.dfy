/** The stress runner's per-phase accounting (benches/stress_support/runner.rs, artifacts.rs) against an exact log. */
module StressCounters {
  import opened Basics
  import Latencies

  datatype FailureKind = Timeout | InvalidResponse | DomainError | Transport | Verification

  datatype Failure = Failure(kind: FailureKind, detail: string)

  datatype StepOutcome =
    | Completed
    | CompletedWithRejections(code: nat, count: nat)
    | CapacityRejected(code: nat)
    | Contended
    | DeliveryWindowMiss

  type StepResult = Result<StepOutcome, Failure>

  predicate IsCompleted(result: StepResult) {
    result.Ok? && (result.value.Completed? || result.value.CompletedWithRejections?)
  }

  /** Everything a phase counts: a step of one lane, a failure outside any step, a batch of checks that passed. */
  datatype Event = Stepped(lane: nat, result: StepResult, elapsed: nat) | Refused(error: Failure) | Checked(checks: nat)

  // ----- exact totals of a log

  datatype Measure =
    | Attempts | Completions | RejectedSteps | Contentions | Misses | FailedSteps
    | Failures | Timeouts | ValidationErrors | Checks
    | LaneCompletions(lane: nat)
    | Rejections | LaneRejections(lane: nat) | CodeRejections(code: nat)

  function FailureOf(e: Event): Option<Failure> {
    match e
    case Stepped(_, Err(error), _) => Some(error)
    case Refused(error) => Some(error)
    case _ => None
  }

  /** The capacity rejections a step reports: their code and how many. */
  function RejectionOf(e: Event): Option<(nat, nat)> {
    match e
    case Stepped(_, Ok(CompletedWithRejections(code, count)), _) => Some((code, count))
    case Stepped(_, Ok(CapacityRejected(code)), _) => Some((code, 1))
    case _ => None
  }

  predicate Is(e: Event, outcome: StepOutcome) {
    e.Stepped? && e.result == Ok(outcome)
  }

  predicate Completes(e: Event) {
    e.Stepped? && IsCompleted(e.result)
  }

  function One(b: bool): nat {
    if b then 1 else 0
  }

  function Weight(m: Measure, e: Event): nat {
    match m
    case Attempts => One(e.Stepped?)
    case Completions => One(Completes(e))
    case RejectedSteps => One(e.Stepped? && e.result.Ok? && e.result.value.CapacityRejected?)
    case Contentions => One(Is(e, Contended))
    case Misses => One(Is(e, DeliveryWindowMiss))
    case FailedSteps => One(e.Stepped? && e.result.Err?)
    case Failures => One(FailureOf(e).Some?)
    case Timeouts => One(FailureOf(e).Some? && FailureOf(e).value.kind.Timeout?)
    case ValidationErrors => One(FailureOf(e).Some? && FailureOf(e).value.kind in {InvalidResponse, Verification})
    case Checks => if e.Checked? then e.checks else 0
    case LaneCompletions(lane) => One(Completes(e) && e.lane == lane)
    case Rejections => if RejectionOf(e).Some? then RejectionOf(e).value.1 else 0
    case LaneRejections(lane) => if RejectionOf(e).Some? && e.lane == lane then RejectionOf(e).value.1 else 0
    case CodeRejections(code) => if RejectionOf(e).Some? && RejectionOf(e).value.0 == code then RejectionOf(e).value.1
      else 0
  }

  function Total(m: Measure, log: seq<Event>): nat {
    if log == [] then 0 else Total(m, log[..|log| - 1]) + Weight(m, log[|log| - 1])
  }

  lemma TotalNext(m: Measure, log: seq<Event>, e: Event)
    ensures Total(m, log + [e]) == Total(m, log) + Weight(m, e)
  {
    assert (log + [e])[..|log|] == log;
  }

  /** Every attempt ends in exactly one way. */
  lemma {:induction false} AttemptsAreConserved(log: seq<Event>)
    ensures Total(Attempts, log) ==
            Total(Completions, log) + Total(RejectedSteps, log) + Total(Contentions, log)
            + Total(Misses, log) + Total(FailedSteps, log)
    decreases |log|
  {
    if log != [] { AttemptsAreConserved(log[..|log| - 1]); }
  }

  /** The latencies of the completed steps, as the histogram takes them. */
  function Samples(log: seq<Event>): seq<nat> {
    if log == [] then []
    else
      var last := log[|log| - 1];
      Samples(log[..|log| - 1]) + if Completes(last) then [Clamp64(last.elapsed)] else []
  }

  lemma SamplesNext(log: seq<Event>, e: Event)
    ensures Samples(log + [e]) == Samples(log) + if Completes(e) then [Clamp64(e.elapsed)] else []
  {
    assert (log + [e])[..|log|] == log;
  }

  lemma {:induction false} OneSamplePerCompletion(log: seq<Event>)
    ensures |Samples(log)| == Total(Completions, log)
    decreases |log|
  {
    if log != [] { OneSamplePerCompletion(log[..|log| - 1]); }
  }

  // ----- lanes and codes add up

  function SumOf(xs: seq<nat>): nat {
    if xs == [] then 0 else SumOf(xs[..|xs| - 1]) + xs[|xs| - 1]
  }

  lemma {:induction false} SumOfRaised(xs: seq<nat>, i: nat, more: nat)
    requires i < |xs|
    ensures SumOf(xs[i := xs[i] + more]) == SumOf(xs) + more
    decreases |xs|
  {
    var n, raised := |xs| - 1, xs[i := xs[i] + more];
    if i < n {
      SumOfRaised(xs[..n], i, more);
      assert raised[..n] == xs[..n][i := xs[..n][i] + more];
    } else {
      assert raised[..n] == xs[..n];
    }
  }

  lemma {:induction false} SumOfZeros(xs: seq<nat>)
    requires forall i | 0 <= i < |xs| :: xs[i] == 0
    ensures SumOf(xs) == 0
    decreases |xs|
  {
    if xs != [] { SumOfZeros(xs[..|xs| - 1]); }
  }

  predicate InLanes(log: seq<Event>, lanes: nat) {
    forall i | 0 <= i < |log| :: log[i].Stepped? ==> log[i].lane < lanes
  }

  function CompletionsByLane(log: seq<Event>, lanes: nat): seq<nat> {
    seq(lanes, lane requires lane >= 0 => Total(LaneCompletions(lane), log))
  }

  function RejectionsByLane(log: seq<Event>, lanes: nat): seq<nat> {
    seq(lanes, lane requires lane >= 0 => Total(LaneRejections(lane), log))
  }

  lemma CompletionsByLaneNext(log: seq<Event>, e: Event, lanes: nat)
    requires Completes(e) ==> e.lane < lanes
    ensures var before := CompletionsByLane(log, lanes);
            CompletionsByLane(log + [e], lanes) == if Completes(e) then before[e.lane := before[e.lane] + 1] else before
  {
    forall l | 0 <= l < lanes
      ensures Total(LaneCompletions(l), log + [e]) == Total(LaneCompletions(l), log) + Weight(LaneCompletions(l), e)
    {
      TotalNext(LaneCompletions(l), log, e);
    }
  }

  lemma RejectionsByLaneNext(log: seq<Event>, e: Event, lanes: nat)
    requires RejectionOf(e).Some? ==> e.lane < lanes
    ensures var before := RejectionsByLane(log, lanes);
            RejectionsByLane(log + [e], lanes) ==
            if RejectionOf(e).Some? then before[e.lane := before[e.lane] + RejectionOf(e).value.1] else before
  {
    forall l | 0 <= l < lanes
      ensures Total(LaneRejections(l), log + [e]) == Total(LaneRejections(l), log) + Weight(LaneRejections(l), e)
    {
      TotalNext(LaneRejections(l), log, e);
    }
  }

  lemma {:induction false} LaneCompletionsAddUp(log: seq<Event>, lanes: nat)
    requires InLanes(log, lanes)
    ensures SumOf(CompletionsByLane(log, lanes)) == Total(Completions, log)
    decreases |log|
  {
    if log == [] {
      SumOfZeros(CompletionsByLane(log, lanes));
    } else {
      var before, e := log[..|log| - 1], log[|log| - 1];
      LaneCompletionsAddUp(before, lanes);
      assert log == before + [e];
      CompletionsByLaneNext(before, e, lanes);
      if Completes(e) { SumOfRaised(CompletionsByLane(before, lanes), e.lane, 1); }
    }
  }

  lemma {:induction false} LaneRejectionsAddUp(log: seq<Event>, lanes: nat)
    requires InLanes(log, lanes)
    ensures SumOf(RejectionsByLane(log, lanes)) == Total(Rejections, log)
    decreases |log|
  {
    if log == [] {
      SumOfZeros(RejectionsByLane(log, lanes));
    } else {
      var before, e := log[..|log| - 1], log[|log| - 1];
      LaneRejectionsAddUp(before, lanes);
      assert log == before + [e];
      RejectionsByLaneNext(before, e, lanes);
      if RejectionOf(e).Some? { SumOfRaised(RejectionsByLane(before, lanes), e.lane, RejectionOf(e).value.1); }
    }
  }

  /** The codes some step reported, even with a count of zero. */
  function Codes(log: seq<Event>): set<nat> {
    if log == [] then {}
    else
      var last := RejectionOf(log[|log| - 1]);
      Codes(log[..|log| - 1]) + if last.Some? then {last.value.0} else {}
  }

  lemma CodesNext(log: seq<Event>, e: Event)
    ensures Codes(log + [e]) == Codes(log) + if RejectionOf(e).Some? then {RejectionOf(e).value.0} else {}
  {
    assert (log + [e])[..|log|] == log;
  }

  function RejectionsByCode(log: seq<Event>): map<nat, nat> {
    map code | code in Codes(log) :: Total(CodeRejections(code), log)
  }

  lemma {:induction false} UnreportedCode(log: seq<Event>, code: nat)
    requires code !in Codes(log)
    ensures Total(CodeRejections(code), log) == 0
    decreases |log|
  {
    if log != [] { UnreportedCode(log[..|log| - 1], code); }
  }

  function AddCode(counts: map<nat, nat>, code: nat, count: nat): map<nat, nat> {
    counts[code := (if code in counts then counts[code] else 0) + count]
  }

  lemma RejectionsByCodeNext(log: seq<Event>, e: Event)
    ensures var before := RejectionsByCode(log);
            RejectionsByCode(log + [e]) ==
            if RejectionOf(e).Some? then AddCode(before, RejectionOf(e).value.0, RejectionOf(e).value.1) else before
  {
    CodesNext(log, e);
    var before, now := RejectionsByCode(log), RejectionsByCode(log + [e]);
    var after := if RejectionOf(e).Some? then AddCode(before, RejectionOf(e).value.0, RejectionOf(e).value.1)
      else before;
    assert now.Keys == after.Keys;
    forall code | code in now ensures now[code] == after[code] {
      TotalNext(CodeRejections(code), log, e);
      if code !in before { UnreportedCode(log, code); }
    }
  }

  lemma {:induction false} CodeRejectionsAddUp(log: seq<Event>)
    ensures Sum(RejectionsByCode(log)) == Total(Rejections, log)
    decreases |log|
  {
    if log == [] {
      assert RejectionsByCode(log) == map[];
    } else {
      var before, e := log[..|log| - 1], log[|log| - 1];
      CodeRejectionsAddUp(before);
      assert log == before + [e];
      RejectionsByCodeNext(before, e);
      if RejectionOf(e).Some? {
        var counts, code := RejectionsByCode(before), RejectionOf(e).value.0;
        SumUpdated(counts, code, AddCode(counts, code, RejectionOf(e).value.1)[code]);
      }
    }
  }

  // ----- saturating counters

  function Clamped(xs: seq<nat>): seq<nat> {
    seq(|xs|, i requires 0 <= i < |xs| => Clamp64(xs[i]))
  }

  function ClampedMap(counts: map<nat, nat>): map<nat, nat> {
    map code | code in counts :: Clamp64(counts[code])
  }

  lemma ClampedRaised(xs: seq<nat>, i: nat, more: nat)
    requires i < |xs|
    ensures Clamped(xs[i := xs[i] + more]) == Clamped(xs)[i := Clamp64(Clamped(xs)[i] + more)]
  {
  }

  lemma ClampedMapRaised(counts: map<nat, nat>, code: nat, count: nat)
    ensures var clamped := ClampedMap(counts);
            ClampedMap(AddCode(counts, code, count)) ==
            clamped[code := Clamp64((if code in clamped then clamped[code] else 0) + count)]
  {
  }

  predicate OthersAreZero(xs: seq<nat>, i: nat) {
    i < |xs| && forall j | 0 <= j < |xs| && j != i :: xs[j] == 0
  }

  ghost predicate OnlyOneCounts(xs: seq<nat>) {
    exists i :: OthersAreZero(xs, i)
  }

  lemma SumOfCleared(xs: seq<nat>, i: nat)
    requires i < |xs|
    ensures SumOf(xs) == SumOf(xs[i := 0]) + xs[i]
  {
    SumOfRaised(xs[i := 0], i, xs[i]);
    assert xs[i := 0][i := xs[i]] == xs;
  }

  lemma SumOfOne(xs: seq<nat>, i: nat)
    requires OthersAreZero(xs, i)
    ensures SumOf(xs) == xs[i]
  {
    SumOfCleared(xs, i);
    SumOfZeros(xs[i := 0]);
  }

  /** Saturating every counter keeps the sum exactly when the total fits or a single counter holds it all. */
  lemma SaturatedSum(xs: seq<nat>)
    ensures SumOf(Clamped(xs)) == Clamp64(SumOf(xs)) <==> SumOf(xs) <= U64_MAX || OnlyOneCounts(xs)
  {
    var clamped := Clamped(xs);
    if big :| 0 <= big < |xs| && xs[big] > U64_MAX {
      SumOfCleared(xs, big);
      SumOfCleared(clamped, big);
      if other :| 0 <= other < |xs| && other != big && xs[other] > 0 {
        SumOfCleared(clamped[big := 0], other);
        assert SumOf(clamped) > U64_MAX;
        assert forall i :: !OthersAreZero(xs, i);
      } else {
        SumOfOne(clamped, big);
        assert OthersAreZero(xs, big);
      }
    } else {
      assert clamped == xs;
      if OnlyOneCounts(xs) {
        var i :| OthersAreZero(xs, i);
        SumOfOne(xs, i);
      }
    }
  }

  // ----- the phase record

  /** The first failure of a log. */
  function FirstFailure(log: seq<Event>): Option<Failure> {
    if log == [] then None
    else
      var before := FirstFailure(log[..|log| - 1]);
      if before.Some? then before else FailureOf(log[|log| - 1])
  }

  lemma StartOfLog(log: seq<Event>, events: seq<Event>)
    ensures log + events[..0] == log && FirstFailure(events[..0]) == None
  {
  }

  lemma FirstFailureNext(log: seq<Event>, e: Event)
    ensures FirstFailure(log + [e]) == if FirstFailure(log).Some? then FirstFailure(log) else FailureOf(e)
  {
    assert (log + [e])[..|log|] == log;
  }

  lemma {:induction false} FirstFailureOfConcat(a: seq<Event>, b: seq<Event>)
    ensures FirstFailure(a + b) == if FirstFailure(a).Some? then FirstFailure(a) else FirstFailure(b)
    decreases |b|
  {
    if b == [] {
      assert a + b == a;
    } else {
      var n := |b| - 1;
      FirstFailureOfConcat(a, b[..n]);
      assert (a + b)[..|a + b| - 1] == a + b[..n];
    }
  }

  lemma {:induction false} NoFailureMeansNone(log: seq<Event>)
    ensures FirstFailure(log).None? <==> Total(Failures, log) == 0
    ensures FirstFailure(log).None? <==> forall i | 0 <= i < |log| :: FailureOf(log[i]).None?
    decreases |log|
  {
    if log != [] {
      var n := |log| - 1;
      NoFailureMeansNone(log[..n]);
      assert forall i | 0 <= i < n :: log[..n][i] == log[i];
    }
  }

  datatype Observation = Observation(result: StepResult, elapsed: nat, completedAt: nat)

  /** One step of every lane at once, and how long it took. */
  datatype Batch = Batch(elapsed: nat, outcomes: seq<Observation>)

  function BatchLog(batch: Batch): seq<Event> {
    seq(|batch.outcomes|, i requires 0 <= i < |batch.outcomes| =>
      Stepped(i, batch.outcomes[i].result, batch.outcomes[i].elapsed))
  }

  /** Active time spent in the batches. */
  function ActiveTime(batches: seq<Batch>): nat {
    if batches == [] then 0 else ActiveTime(batches[..|batches| - 1]) + batches[|batches| - 1].elapsed
  }

  /** The active time at which a lane last completed a cycle. */
  function LastCompletion(batches: seq<Batch>, lane: nat): nat {
    if batches == [] then 0
    else
      var before, last := batches[..|batches| - 1], batches[|batches| - 1];
      if lane < |last.outcomes| && IsCompleted(last.outcomes[lane].result)
      then ActiveTime(before) + last.outcomes[lane].completedAt
      else LastCompletion(before, lane)
  }

  function LastCompletions(batches: seq<Batch>, lanes: nat): seq<nat> {
    seq(lanes, lane requires lane >= 0 => LastCompletion(batches, lane))
  }

  lemma TimesNext(batches: seq<Batch>, batch: Batch, lane: nat)
    ensures ActiveTime(batches + [batch]) == ActiveTime(batches) + batch.elapsed
    ensures LastCompletion(batches + [batch], lane) ==
            if lane < |batch.outcomes| && IsCompleted(batch.outcomes[lane].result)
            then ActiveTime(batches) + batch.outcomes[lane].completedAt
            else LastCompletion(batches, lane)
  {
    assert (batches + [batch])[..|batches|] == batches;
  }

  /** What a verification round adds: the checks of a lane that made some, and a failure for any other lane. */
  function RoundEvent(result: Result<nat, Failure>): Event {
    match result
    case Ok(checks) => if checks == 0 then Refused(NO_CHECKS) else Checked(checks)
    case Err(error) => Refused(error)
  }

  const NO_CHECKS := Failure(Verification, "driver supplied no actual verification checks")

  function RoundLog(results: seq<Result<nat, Failure>>): seq<Event> {
    seq(|results|, i requires 0 <= i < |results| => RoundEvent(results[i]))
  }

  /** Every lane verified, with at least one check. */
  predicate AllVerified(results: seq<Result<nat, Failure>>) {
    forall i | 0 <= i < |results| :: results[i].Ok? && results[i].value > 0
  }

  lemma RoundVerdict(results: seq<Result<nat, Failure>>)
    ensures FirstFailure(RoundLog(results)).None? <==> AllVerified(results)
  {
    NoFailureMeansNone(RoundLog(results));
    assert forall i | 0 <= i < |results| :: FailureOf(RoundLog(results)[i]).None? <==>
        results[i].Ok? && results[i].value > 0;
  }

  // ----- when a lane is making progress, and when a capacity stop is earned

  const MINIMUM_ACTIVE: nat := 30_000_000_000
  const MINIMUM_LANE_COMPLETIONS: nat := 10

  function Gap(elapsed: nat, last: nat): nat {
    if elapsed >= last then elapsed - last else 0
  }

  /** Time left before a lane has gone `limit` without a completed cycle; the gap passes through 64 bits. */
  function Remaining(elapsed: nat, last: nat, limit: nat): nat {
    Gap(limit, Clamp64(Gap(elapsed, last)))
  }

  /** The check sees a stalled lane exactly when the limit itself fits 64 bits of nanoseconds. */
  lemma StallIsSeen(elapsed: nat, last: nat, limit: nat)
    ensures Remaining(elapsed, last, limit) > 0 <==> Gap(elapsed, last) < limit || limit > U64_MAX
  {
  }

  predicate AllProgress(elapsed: nat, lasts: seq<nat>, limit: nat) {
    forall lane | 0 <= lane < |lasts| :: Remaining(elapsed, lasts[lane], limit) > 0
  }

  function Fewest(lanes: seq<nat>): (fewest: nat)
    ensures lanes != [] ==> fewest in lanes
    ensures forall i | 0 <= i < |lanes| :: fewest <= lanes[i]
  {
    if lanes == [] then 0
    else if |lanes| == 1 then lanes[0]
    else
      var rest := Fewest(lanes[..|lanes| - 1]);
      if lanes[|lanes| - 1] < rest then lanes[|lanes| - 1] else rest
  }

  /** Enough active time, and enough cycles on every lane, for an early capacity stop to pass. */
  predicate EarnedStop(active: nat, budget: nat, lanes: seq<nat>) {
    && (MINIMUM_ACTIVE <= active || budget <= active)
    && lanes != [] && forall i | 0 <= i < |lanes| :: lanes[i] >= MINIMUM_LANE_COMPLETIONS
  }

  lemma SaturatedLanesQualifyAlike(active: nat, budget: nat, lanes: seq<nat>)
    ensures EarnedStop(active, budget, Clamped(lanes)) <==> EarnedStop(active, budget, lanes)
  {
    assert forall i | 0 <= i < |lanes| :: Clamped(lanes)[i] == Clamp64(lanes[i]);
  }

  function Shortfall(active: nat, budget: nat, lanes: seq<nat>): (short: bool)
    ensures short <==> !EarnedStop(active, budget, lanes)
  {
    var required := if budget < MINIMUM_ACTIVE then budget else MINIMUM_ACTIVE;
    !(active >= required && Fewest(lanes) >= MINIMUM_LANE_COMPLETIONS)
  }

  // ----- the counters as one value, and what each of them means

  datatype Counters = Counters(attempted: nat, completed: nat, contentions: nat, deliveryWindowMisses: nat,
                               capacityRejections: map<nat, nat>,
                               laneCompletions: seq<nat>, laneCapacityRejections: seq<nat>,
                               failures: nat, timeouts: nat, validationErrors: nat, failure: Option<Failure>,
                               verificationChecks: nat)

  function Zero(lanes: nat): Counters {
    Counters(0, 0, 0, 0, map[], seq(lanes, i => 0), seq(lanes, i => 0), 0, 0, 0, None, 0)
  }

  function Raise(counters: seq<nat>, i: nat, more: nat): seq<nat> {
    if i < |counters| then counters[i := Clamp64(counters[i] + more)] else counters
  }

  function WithFailure(c: Counters, error: Failure): Counters {
    c.(failures := Clamp64(c.failures + 1),
       timeouts := if error.kind.Timeout? then Clamp64(c.timeouts + 1) else c.timeouts,
       validationErrors := if error.kind in {InvalidResponse, Verification} then Clamp64(c.validationErrors + 1)
         else c.validationErrors,
       failure := if c.failure.None? then Some(error) else c.failure)
  }

  function WithRejections(c: Counters, lane: nat, code: nat, count: nat): Counters {
    var before := if code in c.capacityRejections then c.capacityRejections[code] else 0;
    c.(capacityRejections := c.capacityRejections[code := Clamp64(before + count)],
       laneCapacityRejections := Raise(c.laneCapacityRejections, lane, count))
  }

  function WithCompletion(c: Counters, lane: nat): Counters {
    c.(completed := Clamp64(c.completed + 1), laneCompletions := Raise(c.laneCompletions, lane, 1))
  }

  /** The counters after one more event. */
  function Next(c: Counters, e: Event): Counters {
    match e
    case Refused(error) => WithFailure(c, error)
    case Checked(checks) => c.(verificationChecks := Clamp64(c.verificationChecks + checks))
    case Stepped(lane, result, _) =>
      var tried := c.(attempted := Clamp64(c.attempted + 1));
      match result
      case Ok(Completed) => WithCompletion(tried, lane)
      case Ok(CompletedWithRejections(code, count)) => WithRejections(WithCompletion(tried, lane), lane, code, count)
      case Ok(CapacityRejected(code)) => WithRejections(tried, lane, code, 1)
      case Ok(Contended) => tried.(contentions := Clamp64(c.contentions + 1))
      case Ok(DeliveryWindowMiss) => tried.(deliveryWindowMisses := Clamp64(c.deliveryWindowMisses + 1))
      case Err(error) => WithFailure(tried, error)
  }

  function Count(lanes: nat, log: seq<Event>): Counters {
    if log == [] then Zero(lanes) else Next(Count(lanes, log[..|log| - 1]), log[|log| - 1])
  }

  ghost predicate CountsSteps(c: Counters, log: seq<Event>) {
    && c.attempted == Clamp64(Total(Attempts, log))
    && c.contentions == Clamp64(Total(Contentions, log))
    && c.deliveryWindowMisses == Clamp64(Total(Misses, log))
    && c.verificationChecks == Clamp64(Total(Checks, log))
  }

  ghost predicate CountsCompletions(c: Counters, log: seq<Event>, lanes: nat) {
    && c.completed == Clamp64(Total(Completions, log))
    && c.laneCompletions == Clamped(CompletionsByLane(log, lanes))
  }

  ghost predicate CountsRejections(c: Counters, log: seq<Event>, lanes: nat) {
    && c.capacityRejections == ClampedMap(RejectionsByCode(log))
    && c.laneCapacityRejections == Clamped(RejectionsByLane(log, lanes))
  }

  ghost predicate CountsFailures(c: Counters, log: seq<Event>) {
    && c.failures == Clamp64(Total(Failures, log))
    && c.timeouts == Clamp64(Total(Timeouts, log))
    && c.validationErrors == Clamp64(Total(ValidationErrors, log))
    && c.failure == FirstFailure(log)
  }

  predicate Adds(before: nat, after: nat, weight: nat) {
    before <= U64_MAX ==> after == Clamp64(before + weight)
  }

  /** One event raises each plain counter by its weight in that measure. */
  lemma NextAddsWeights(c: Counters, e: Event)
    ensures var c' := Next(c, e);
            && Adds(c.attempted, c'.attempted, Weight(Attempts, e))
            && Adds(c.completed, c'.completed, Weight(Completions, e))
            && Adds(c.contentions, c'.contentions, Weight(Contentions, e))
            && Adds(c.deliveryWindowMisses, c'.deliveryWindowMisses, Weight(Misses, e))
            && Adds(c.verificationChecks, c'.verificationChecks, Weight(Checks, e))
  {
  }

  lemma NextAddsFailures(c: Counters, e: Event)
    ensures var c' := Next(c, e);
            && Adds(c.failures, c'.failures, Weight(Failures, e))
            && Adds(c.timeouts, c'.timeouts, Weight(Timeouts, e))
            && Adds(c.validationErrors, c'.validationErrors, Weight(ValidationErrors, e))
            && c'.failure == if c.failure.Some? then c.failure else FailureOf(e)
  {
  }

  lemma NextAddsByLane(c: Counters, e: Event)
    ensures var c' := Next(c, e); var rejected := RejectionOf(e);
            && c'.laneCompletions == (if Completes(e) then Raise(c.laneCompletions, e.lane, 1) else c.laneCompletions)
            && (rejected.None? ==>
                  && c'.laneCapacityRejections == c.laneCapacityRejections
                  && c'.capacityRejections == c.capacityRejections)
            && (rejected.Some? ==>
                  var with := WithRejections(c, e.lane, rejected.value.0, rejected.value.1);
                  c'.laneCapacityRejections == with.laneCapacityRejections
                    && c'.capacityRejections == with.capacityRejections)
  {
  }

  lemma TotalAdds(m: Measure, log: seq<Event>, e: Event, before: nat, after: nat)
    requires before == Clamp64(Total(m, log)) && Adds(before, after, Weight(m, e))
    ensures after == Clamp64(Total(m, log + [e]))
  {
    TotalNext(m, log, e);
  }

  lemma StepsCounted(c: Counters, c': Counters, log: seq<Event>, e: Event)
    requires CountsSteps(c, log) && c' == Next(c, e)
    ensures CountsSteps(c', log + [e])
  {
    NextAddsWeights(c, e);
    TotalAdds(Attempts, log, e, c.attempted, c'.attempted);
    TotalAdds(Contentions, log, e, c.contentions, c'.contentions);
    TotalAdds(Misses, log, e, c.deliveryWindowMisses, c'.deliveryWindowMisses);
    TotalAdds(Checks, log, e, c.verificationChecks, c'.verificationChecks);
  }

  lemma CompletionsCounted(c: Counters, c': Counters, log: seq<Event>, e: Event, lanes: nat)
    requires CountsCompletions(c, log, lanes) && c' == Next(c, e) && (e.Stepped? ==> e.lane < lanes)
    ensures CountsCompletions(c', log + [e], lanes)
  {
    NextAddsWeights(c, e);
    TotalAdds(Completions, log, e, c.completed, c'.completed);
    NextAddsByLane(c, e);
    CompletionsByLaneNext(log, e, lanes);
    if Completes(e) { ClampedRaised(CompletionsByLane(log, lanes), e.lane, 1); }
  }

  lemma CodeCounted(log: seq<Event>, e: Event, code: nat, count: nat)
    requires RejectionOf(e) == Some((code, count))
    ensures var counts := ClampedMap(RejectionsByCode(log));
            ClampedMap(RejectionsByCode(log + [e])) ==
            counts[code := Clamp64((if code in counts then counts[code] else 0) + count)]
  {
    RejectionsByCodeNext(log, e);
    ClampedMapRaised(RejectionsByCode(log), code, count);
  }

  lemma LaneRejectionCounted(log: seq<Event>, e: Event, lanes: nat, code: nat, count: nat)
    requires RejectionOf(e) == Some((code, count)) && e.lane < lanes
    ensures Clamped(RejectionsByLane(log + [e], lanes)) == Raise(Clamped(RejectionsByLane(log, lanes)), e.lane, count)
  {
    RejectionsByLaneNext(log, e, lanes);
    ClampedRaised(RejectionsByLane(log, lanes), e.lane, count);
  }

  lemma RejectionsCounted(c: Counters, c': Counters, log: seq<Event>, e: Event, lanes: nat)
    requires CountsRejections(c, log, lanes) && c' == Next(c, e) && (e.Stepped? ==> e.lane < lanes)
    ensures CountsRejections(c', log + [e], lanes)
  {
    NextAddsByLane(c, e);
    if RejectionOf(e).Some? {
      CodeCounted(log, e, RejectionOf(e).value.0, RejectionOf(e).value.1);
      LaneRejectionCounted(log, e, lanes, RejectionOf(e).value.0, RejectionOf(e).value.1);
    } else {
      RejectionsByCodeNext(log, e);
      RejectionsByLaneNext(log, e, lanes);
    }
  }

  lemma FailuresCounted(c: Counters, c': Counters, log: seq<Event>, e: Event)
    requires CountsFailures(c, log) && c' == Next(c, e)
    ensures CountsFailures(c', log + [e])
  {
    NextAddsFailures(c, e);
    TotalAdds(Failures, log, e, c.failures, c'.failures);
    TotalAdds(Timeouts, log, e, c.timeouts, c'.timeouts);
    TotalAdds(ValidationErrors, log, e, c.validationErrors, c'.validationErrors);
    FirstFailureNext(log, e);
  }

  /** Every counter is the exact total of the log, cut off at the 64-bit ceiling. */
  lemma {:induction false} CountersAreTotals(lanes: nat, log: seq<Event>)
    requires InLanes(log, lanes)
    ensures CountsSteps(Count(lanes, log), log) && CountsFailures(Count(lanes, log), log)
    ensures CountsCompletions(Count(lanes, log), log, lanes) && CountsRejections(Count(lanes, log), log, lanes)
    decreases |log|
  {
    if log != [] {
      var before, e := log[..|log| - 1], log[|log| - 1];
      CountersAreTotals(lanes, before);
      assert log == before + [e];
      var c, c' := Count(lanes, before), Count(lanes, log);
      StepsCounted(c, c', before, e);
      FailuresCounted(c, c', before, e);
      CompletionsCounted(c, c', before, e, lanes);
      RejectionsCounted(c, c', before, e, lanes);
    }
  }

  lemma CountNext(lanes: nat, log: seq<Event>, e: Event)
    ensures Count(lanes, log + [e]) == Next(Count(lanes, log), e)
    ensures Samples(log + [e]) == if Completes(e) then Samples(log) + [Clamp64(e.elapsed)] else Samples(log)
  {
    SamplesNext(log, e);
    assert (log + [e])[..|log|] == log;
  }

  /**
   The reported attempts are the reported outcomes plus the rejected and failed steps exactly when the attempts fit
   the counter or all of them ended the same reported way; the samples then are the completions while those fit.
   */
  lemma AttemptsMatch(lanes: nat, log: seq<Event>)
    requires InLanes(log, lanes)
    ensures var c := Count(lanes, log);
            c.attempted == c.completed + c.contentions + c.deliveryWindowMisses
                           + Total(RejectedSteps, log) + Total(FailedSteps, log) <==>
            || Total(Attempts, log) <= U64_MAX
            || Total(Attempts, log) == Total(Completions, log) || Total(Attempts, log) == Total(Contentions, log)
            || Total(Attempts, log) == Total(Misses, log)
    ensures Count(lanes, log).completed == Clamp64(|Samples(log)|)
  {
    hide Total, Count, Samples, Clamped, ClampedMap;
    CountersAreTotals(lanes, log);
    AttemptsAreConserved(log);
    OneSamplePerCompletion(log);
  }

  /**
   Lane completions add up to the completed count exactly when nothing saturated or a single lane did all the work.
   */
  lemma LanesMatchTotal(lanes: nat, log: seq<Event>)
    requires InLanes(log, lanes)
    ensures var c := Count(lanes, log);
            SumOf(c.laneCompletions) == c.completed <==>
            Total(Completions, log) <= U64_MAX || OnlyOneCounts(CompletionsByLane(log, lanes))
  {
    CountersAreTotals(lanes, log);
    LaneCompletionsAddUp(log, lanes);
    SaturatedSum(CompletionsByLane(log, lanes));
  }

  lemma {:induction false} SumOfClamped(xs: seq<nat>)
    ensures SumOf(Clamped(xs)) <= SumOf(xs)
    ensures SumOf(Clamped(xs)) == SumOf(xs) <==> forall i | 0 <= i < |xs| :: xs[i] <= U64_MAX
    decreases |xs|
  {
    if xs != [] {
      var n := |xs| - 1;
      SumOfClamped(xs[..n]);
      assert Clamped(xs)[..n] == Clamped(xs[..n]);
      assert forall i | 0 <= i < n :: xs[..n][i] == xs[i];
    }
  }

  lemma {:induction false} SumOfClampedMap(counts: map<nat, nat>)
    ensures Sum(ClampedMap(counts)) <= Sum(counts)
    ensures Sum(ClampedMap(counts)) == Sum(counts) <==> forall code | code in counts :: counts[code] <= U64_MAX
    decreases |counts|
  {
    if counts == map[] {
      assert ClampedMap(counts) == map[];
    } else {
      var code :| code in counts;
      var rest := counts - {code};
      SumOfClampedMap(rest);
      SumWithout(counts, code);
      SumWithout(ClampedMap(counts), code);
      assert ClampedMap(counts) - {code} == ClampedMap(rest);
      assert forall c | c in counts :: c == code || c in rest;
    }
  }

  /**
   Per-lane and per-code rejections each add up to all rejections exactly when none of their counters has saturated.
   */
  lemma RejectionsMatch(lanes: nat, log: seq<Event>)
    requires InLanes(log, lanes)
    ensures var c := Count(lanes, log);
            && (SumOf(c.laneCapacityRejections) == Total(Rejections, log) <==>
                forall lane | 0 <= lane < lanes :: Total(LaneRejections(lane), log) <= U64_MAX)
            && (Sum(c.capacityRejections) == Total(Rejections, log) <==>
                forall code | code in Codes(log) :: Total(CodeRejections(code), log) <= U64_MAX)
  {
    hide Total, Count, Sum, SumOf;
    CountersAreTotals(lanes, log);
    LaneRejectionsAddUp(log, lanes);
    CodeRejectionsAddUp(log);
    var byLane, byCode := RejectionsByLane(log, lanes), RejectionsByCode(log);
    SumOfClamped(byLane);
    SumOfClampedMap(byCode);
    assert forall lane | 0 <= lane < lanes :: byLane[lane] == Total(LaneRejections(lane), log);
    assert byCode.Keys == Codes(log) && forall code | code in Codes(log) ::
        byCode[code] == Total(CodeRejections(code), log);
  }

  class Phase {
    const lanes: nat
    const latencies: Latencies.Histogram
    var attempted: nat
    var completed: nat
    var contentions: nat
    var deliveryWindowMisses: nat
    var capacityRejections: map<nat, nat>
    var laneCompletions: seq<nat>
    var laneCapacityRejections: seq<nat>
    var failures: nat
    var timeouts: nat
    var validationErrors: nat
    var failure: Option<Failure>
    var verificationChecks: nat
    var elapsedNs: nat
    var laneLastCompletionNs: seq<nat>
    var capacityBoundary: bool

    ghost function View(): Counters
      reads this`attempted, this`completed, this`contentions, this`deliveryWindowMisses, this`capacityRejections,
            this`laneCompletions, this`laneCapacityRejections, this`failures, this`timeouts, this`validationErrors,
            this`failure, this`verificationChecks
    {
      Counters(attempted, completed, contentions, deliveryWindowMisses, capacityRejections, laneCompletions,
               laneCapacityRejections, failures, timeouts, validationErrors, failure, verificationChecks)
    }

    ghost predicate Valid()
      reads this`laneCompletions, this`laneCapacityRejections
    {
      |laneCompletions| == lanes && |laneCapacityRejections| == lanes
    }

    constructor (clients: nat)
      ensures lanes == clients && fresh(latencies) && Valid() && View() == Zero(clients) && latencies.Holds([])
      ensures elapsedNs == 0 && laneLastCompletionNs == seq(clients, i => 0) && !capacityBoundary
    {
      lanes := clients;
      latencies := new Latencies.Histogram();
      attempted, completed, contentions, deliveryWindowMisses := 0, 0, 0, 0;
      capacityRejections := map[];
      laneCompletions, laneCapacityRejections := seq(clients, i => 0), seq(clients, i => 0);
      failures, timeouts, validationErrors, verificationChecks := 0, 0, 0, 0;
      failure, elapsedNs, laneLastCompletionNs, capacityBoundary := None, 0, seq(clients, i => 0), false;
    }

    method RecordFailure(error: Failure)
      modifies this`failures, this`timeouts, this`validationErrors, this`failure
      ensures View() == WithFailure(old(View()), error)
    {
      failures := Clamp64(failures + 1);
      match error.kind {
        case Timeout => timeouts := Clamp64(timeouts + 1);
        case InvalidResponse => validationErrors := Clamp64(validationErrors + 1);
        case Verification => validationErrors := Clamp64(validationErrors + 1);
        case _ =>
      }
      if failure.None? {
        failure := Some(error);
      }
    }

    method RecordCapacityRejections(lane: nat, code: nat, count: nat)
      requires Valid() && lane < lanes
      modifies this`capacityRejections, this`laneCapacityRejections
      ensures Valid() && View() == WithRejections(old(View()), lane, code, count)
    {
      var counted := if code in capacityRejections then capacityRejections[code] else 0;
      capacityRejections := capacityRejections[code := Clamp64(counted + count)];
      laneCapacityRejections := laneCapacityRejections[lane := Clamp64(laneCapacityRejections[lane] + count)];
    }

    method RecordCompletion(lane: nat, elapsed: nat, ghost samples: seq<nat>)
      requires Valid() && lane < lanes && latencies.Holds(samples)
      modifies this`completed, this`laneCompletions, latencies
      ensures Valid() && View() == WithCompletion(old(View()), lane) && latencies.Holds(samples + [Clamp64(elapsed)])
    {
      completed := Clamp64(completed + 1);
      laneCompletions := laneCompletions[lane := Clamp64(laneCompletions[lane] + 1)];
      latencies.Record(elapsed, samples);
    }

    method Classify(lane: nat, result: StepResult, elapsed: nat, ghost samples: seq<nat>)
      returns (failed: Option<Failure>)
      requires Valid() && lane < lanes && latencies.Holds(samples)
      modifies this`attempted, this`completed, this`contentions, this`deliveryWindowMisses, this`capacityRejections,
               this`laneCompletions, this`laneCapacityRejections, this`failures, this`timeouts, this`validationErrors,
               this`failure, latencies
      ensures Valid() && View() == Next(old(View()), Stepped(lane, result, elapsed))
      ensures latencies.Holds(samples + if IsCompleted(result) then [Clamp64(elapsed)] else [])
      ensures failed == FailureOf(Stepped(lane, result, elapsed))
    {
      attempted := Clamp64(attempted + 1);
      assert samples + [] == samples;
      match result {
        case Ok(Completed) =>
          RecordCompletion(lane, elapsed, samples);
        case Ok(CompletedWithRejections(code, count)) =>
          RecordCompletion(lane, elapsed, samples);
          RecordCapacityRejections(lane, code, count);
        case Ok(CapacityRejected(code)) =>
          RecordCapacityRejections(lane, code, 1);
        case Ok(Contended) =>
          contentions := Clamp64(contentions + 1);
        case Ok(DeliveryWindowMiss) =>
          deliveryWindowMisses := Clamp64(deliveryWindowMisses + 1);
        case Err(error) =>
          RecordFailure(error);
          return Some(error);
      }
      return None;
    }

    /** The record is what counting this log gives. */
    ghost predicate Reflects(log: seq<Event>)
      reads this`attempted, this`completed, this`contentions, this`deliveryWindowMisses, this`capacityRejections,
            this`laneCompletions, this`laneCapacityRejections, this`failures, this`timeouts, this`validationErrors,
            this`failure, this`verificationChecks, latencies
    {
      Valid() && InLanes(log, lanes) && View() == Count(lanes, log) && latencies.Holds(Samples(log))
    }

    /** What the counters that steer the phase say about the log. */
    lemma Reading(log: seq<Event>)
      requires Reflects(log)
      ensures failure == FirstFailure(log)
      ensures capacityRejections == map[] <==> Codes(log) == {}
      ensures laneCompletions == Clamped(CompletionsByLane(log, lanes))
    {
      CountersAreTotals(lanes, log);
      assert capacityRejections.Keys == Codes(log);
    }

    /** The clock fields are what these batches give. */
    ghost predicate Times(batches: seq<Batch>)
      reads this
    {
      elapsedNs == ActiveTime(batches) && laneLastCompletionNs == LastCompletions(batches, lanes)
    }

    /** One lane's part of a batch, in terms of the log. */
    method Observe(lane: nat, observed: Observation, ghost log: seq<Event>) returns (failed: Option<Failure>)
      requires lane < lanes && Reflects(log)
      modifies this`attempted, this`completed, this`contentions, this`deliveryWindowMisses, this`capacityRejections,
               this`laneCompletions, this`laneCapacityRejections, this`failures, this`timeouts, this`validationErrors,
               this`failure, latencies
      ensures Reflects(log + [Stepped(lane, observed.result, observed.elapsed)])
      ensures failed == FailureOf(Stepped(lane, observed.result, observed.elapsed))
    {
      failed := Classify(lane, observed.result, observed.elapsed, Samples(log));
      CountNext(lanes, log, Stepped(lane, observed.result, observed.elapsed));
    }

    /** Counts a whole batch; the verdict is its first failure in lane order. */
    method ApplyBatch(batch: Batch, ghost log: seq<Event>, ghost batches: seq<Batch>) returns (failed: Option<Failure>)
      requires Reflects(log) && Times(batches) && |batch.outcomes| == lanes
      modifies this, latencies
      ensures Reflects(log + BatchLog(batch)) && Times(batches + [batch]) && capacityBoundary == old(capacityBoundary)
      ensures failed == FirstFailure(BatchLog(batch))
    {
      hide Reflects, FailureOf, LastCompletion, ActiveTime, FirstFailure;
      var beganAt := elapsedNs;
      elapsedNs := elapsedNs + batch.elapsed;
      failed := None;
      ghost var events := BatchLog(batch);
      StartOfLog(log, events);
      for lane := 0 to lanes
        invariant Reflects(log + events[..lane]) && failed == FirstFailure(events[..lane])
        invariant elapsedNs == beganAt + batch.elapsed && capacityBoundary == old(capacityBoundary)
        invariant |laneLastCompletionNs| == lanes
        invariant forall l | 0 <= l < lanes ::
            laneLastCompletionNs[l] == if l < lane && IsCompleted(batch.outcomes[l].result)
                                       then beganAt + batch.outcomes[l].completedAt else LastCompletion(batches, l)
      {
        var observed := batch.outcomes[lane];
        if IsCompleted(observed.result) {
          laneLastCompletionNs := laneLastCompletionNs[lane := beganAt + observed.completedAt];
        }
        var error := Observe(lane, observed, log + events[..lane]);
        FirstFailureNext(events[..lane], events[lane]);
        assert events[..lane + 1] == events[..lane] + [events[lane]];
        assert log + events[..lane + 1] == log + events[..lane] + [events[lane]];
        if failed.None? {
          failed := error;
        }
      }
      assert events[..lanes] == events;
      forall l | 0 <= l < lanes ensures laneLastCompletionNs[l] == LastCompletion(batches + [batch], l) {
        TimesNext(batches, batch, l);
      }
      TimesNext(batches, batch, 0);
    }

    /** A failure outside any step, in terms of the log. */
    method Refuse(error: Failure, ghost log: seq<Event>)
      requires Reflects(log)
      modifies this`failures, this`timeouts, this`validationErrors, this`failure
      ensures Reflects(log + [Refused(error)]) && failure.Some?
    {
      RecordFailure(error);
      CountNext(lanes, log, Refused(error));
    }

    method CountChecks(checks: nat, ghost log: seq<Event>)
      requires Reflects(log)
      modifies this`verificationChecks
      ensures Reflects(log + [Checked(checks)])
    {
      verificationChecks := Clamp64(verificationChecks + checks);
      CountNext(lanes, log, Checked(checks));
    }

    /** One verification round: every result is counted, and the verdict is the first failure in lane order. */
    method Verify(results: seq<Result<nat, Failure>>, ghost log: seq<Event>) returns (failed: Option<Failure>)
      requires Reflects(log)
      modifies this`failures, this`timeouts, this`validationErrors, this`failure, this`verificationChecks
      ensures Reflects(log + RoundLog(results)) && failed == FirstFailure(RoundLog(results))
    {
      hide Reflects, FirstFailure;
      failed := None;
      ghost var events := RoundLog(results);
      StartOfLog(log, events);
      for i := 0 to |results|
        invariant Reflects(log + events[..i]) && failed == FirstFailure(events[..i])
      {
        var result := if results[i] == Ok(0) then Err(NO_CHECKS) else results[i];
        FirstFailureNext(events[..i], events[i]);
        assert events[..i + 1] == events[..i] + [events[i]];
        assert log + events[..i + 1] == log + events[..i] + [events[i]];
        match result {
          case Ok(observed) =>
            CountChecks(observed, log + events[..i]);
          case Err(error) =>
            Refuse(error, log + events[..i]);
            if failed.None? {
              failed := Some(error);
            }
        }
      }
      assert events[..|results|] == events;
    }

    /** Fails, and records it, as soon as some lane has gone the whole limit without a completed cycle. */
    method CheckLaneProgress(limit: nat, ghost log: seq<Event>) returns (failed: Option<Failure>)
      requires Reflects(log)
      modifies this`failures, this`timeouts, this`validationErrors, this`failure
      ensures failed.None? <==> AllProgress(elapsedNs, laneLastCompletionNs, limit)
      ensures failed.None? ==> Reflects(log) && failure == old(failure)
      ensures failed.Some? ==> failed.value.kind == Timeout && Reflects(log + [Refused(failed.value)]) && failure.Some?
    {
      hide Reflects;
      for lane := 0 to |laneLastCompletionNs|
        invariant forall l | 0 <= l < lane :: Remaining(elapsedNs, laneLastCompletionNs[l], limit) > 0
        invariant Reflects(log) && failure == old(failure)
      {
        if Remaining(elapsedNs, laneLastCompletionNs[lane], limit) == 0 {
          var error := Failure(Timeout, "lane completed no useful cycle within its active seconds");
          Refuse(error, log);
          return Some(error);
        }
      }
      return None;
    }

    method QualifyCapacityBoundary(budget: nat, ghost log: seq<Event>) returns (failed: Option<Failure>)
      requires Reflects(log)
      modifies this`failures, this`timeouts, this`validationErrors, this`failure, this`capacityBoundary
      ensures failed.None? <==> EarnedStop(elapsedNs, budget, laneCompletions)
      ensures failed.None? ==> capacityBoundary && Reflects(log) && failure == old(failure)
      ensures failed.Some? ==>
                capacityBoundary == old(capacityBoundary) && Reflects(log + [Refused(failed.value)]) && failure.Some?
    {
      hide Reflects;
      if Shortfall(Clamp64(elapsedNs), budget, laneCompletions) {
        var error := Failure(Verification, "capacity boundary before a qualifying amount of work");
        Refuse(error, log);
        return Some(error);
      }
      capacityBoundary := true;
      return None;
    }
  }
}
