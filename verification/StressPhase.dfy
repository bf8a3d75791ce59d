/** The phase loop of the stress runner (benches/stress_support/runner.rs): when it ends, and what an Ok means. */
module StressPhase {
  import opened Basics
  import opened StressCounters

  const VERIFY_INTERVAL: nat := 30_000_000_000

  datatype Settings = Settings(duration: nat, progressTimeout: nat, allowCapacityBoundary: bool)

  /** One turn of the loop: its batch, what a verification round would find, and the save if a checkpoint falls due. */
  datatype Turn = Turn(batch: Batch, verification: seq<Result<nat, Failure>>, checkpoint: Option<Result<(), Failure>>)

  datatype Verdict = GoOn | Finished | Stop(error: Failure)

  // ----- what the turns so far amount to

  function Batches(turns: seq<Turn>): seq<Batch> {
    seq(|turns|, i requires 0 <= i < |turns| => turns[i].batch)
  }

  function Active(turns: seq<Turn>): nat {
    ActiveTime(Batches(turns))
  }

  /** Active time at the last verification round, and whether the latest turn is due for one. */
  function LastVerified(turns: seq<Turn>): nat
    decreases |turns|, 1
  {
    if turns == [] then 0
    else if Due(turns) then Active(turns)
    else LastVerified(turns[..|turns| - 1])
  }

  predicate Due(turns: seq<Turn>)
    decreases |turns|, 0
  {
    turns != [] && Gap(Active(turns), LastVerified(turns[..|turns| - 1])) >= VERIFY_INTERVAL
  }

  /** Everything counted in these turns, each with its verification round if it was due. */
  function LoopLog(turns: seq<Turn>): seq<Event>
    decreases |turns|, 1
  {
    if turns == [] then []
    else AfterBatch(turns) + if Due(turns) then RoundLog(turns[|turns| - 1].verification) else []
  }

  /** The same, just after the latest batch. */
  function AfterBatch(turns: seq<Turn>): seq<Event>
    requires turns != []
    decreases |turns|, 0
  {
    LoopLog(turns[..|turns| - 1]) + BatchLog(turns[|turns| - 1].batch)
  }

  predicate Clean(turns: seq<Turn>)
    requires turns != []
  {
    FirstFailure(BatchLog(turns[|turns| - 1].batch)).None?
  }

  /** Some step so far was turned away for capacity, and the stage may end on that. */
  predicate AtBoundary(turns: seq<Turn>, settings: Settings)
    requires turns != []
  {
    settings.allowCapacityBoundary && Codes(AfterBatch(turns)) != {}
  }

  predicate LanesProgress(turns: seq<Turn>, settings: Settings, lanes: nat) {
    AllProgress(Active(turns), LastCompletions(Batches(turns), lanes), settings.progressTimeout)
  }

  /** The turn went well and the stage is not cut short. */
  predicate Passes(turns: seq<Turn>, settings: Settings, lanes: nat)
    requires turns != []
  {
    var turn := turns[|turns| - 1];
    && Clean(turns) && !AtBoundary(turns, settings) && LanesProgress(turns, settings, lanes)
    && (Due(turns) ==> AllVerified(turn.verification))
    && (turn.checkpoint.Some? ==> turn.checkpoint.value.Ok?)
  }

  predicate GoesOn(turns: seq<Turn>, settings: Settings, lanes: nat)
    requires turns != []
  {
    Passes(turns, settings, lanes) && Active(turns) < settings.duration
  }

  predicate EndsOnTime(turns: seq<Turn>, settings: Settings, lanes: nat)
    requires turns != []
  {
    Passes(turns, settings, lanes) && Active(turns) >= settings.duration
  }

  /** A capacity stop that passes: at least ten cycles on every lane and 30 s of active time, or the whole budget. */
  predicate EndsAtBoundary(turns: seq<Turn>, settings: Settings, lanes: nat)
    requires turns != []
  {
    && Clean(turns) && AtBoundary(turns, settings)
    && EarnedStop(Active(turns), settings.duration, CompletionsByLane(AfterBatch(turns), lanes))
  }

  lemma TurnsNext(before: seq<Turn>, turn: Turn)
    ensures var turns := before + [turn];
            && turns[..|turns| - 1] == before && turns[|turns| - 1] == turn
            && Batches(turns) == Batches(before) + [turn.batch]
            && AfterBatch(turns) == LoopLog(before) + BatchLog(turn.batch)
            && LoopLog(turns) ==
               (if Due(turns) then AfterBatch(turns) + RoundLog(turn.verification) else AfterBatch(turns))
            && LastVerified(turns) == (if Due(turns) then Active(turns) else LastVerified(before))
            && (Due(turns) <==> Gap(Active(turns), LastVerified(before)) >= VERIFY_INTERVAL)
  {
  }

  // ----- one turn

  /** The phase stands where these turns leave it. */
  ghost predicate Stands(phase: Phase, turns: seq<Turn>)
    reads phase, phase.latencies
  {
    phase.Reflects(LoopLog(turns)) && phase.Times(Batches(turns)) && !phase.capacityBoundary
  }

  /** A stop is explained by a recorded failure or by a checkpoint that could not be saved. */
  ghost predicate Explained(phase: Phase, turn: Turn, error: Failure)
    reads phase
  {
    phase.failure.Some? || turn.checkpoint == Some(Err(error))
  }

  method RunTurn(phase: Phase, settings: Settings, turn: Turn, lastVerification: nat, ghost before: seq<Turn>)
    returns (verdict: Verdict, verified: nat, ghost log: seq<Event>)
    requires |turn.batch.outcomes| == phase.lanes && Stands(phase, before) && lastVerification == LastVerified(before)
    modifies phase, phase.latencies
    ensures var turns := before + [turn];
            && (verdict.GoOn? <==> GoesOn(turns, settings, phase.lanes))
            && (verdict.Finished? <==>
                  EndsOnTime(turns, settings, phase.lanes) || EndsAtBoundary(turns, settings, phase.lanes))
            && (!verdict.Stop? && !AtBoundary(turns, settings) ==>
                  Stands(phase, turns) && verified == LastVerified(turns) && log == LoopLog(turns))
            && (!verdict.Stop? && AtBoundary(turns, settings) ==> phase.capacityBoundary && log == AfterBatch(turns))
            && (verdict.Stop? ==> Explained(phase, turn, verdict.error))
    ensures phase.Reflects(log)
  {
    hide Phase.Reflects, EarnedStop, Due, Codes, LoopLog, AfterBatch, LastVerified;
    hide AllVerified, AllProgress, LastCompletions, ActiveTime, FirstFailure, CompletionsByLane;
    ghost var turns := before + [turn];
    TurnsNext(before, turn);
    verified, log := lastVerification, AfterBatch(turns);
    var failed := phase.ApplyBatch(turn.batch, LoopLog(before), Batches(before));
    phase.Reading(log);
    if failed.Some? {
      FirstFailureOfConcat(LoopLog(before), BatchLog(turn.batch));
      return Stop(failed.value), verified, log;
    }
    if settings.allowCapacityBoundary && phase.capacityRejections != map[] {
      SaturatedLanesQualifyAlike(Active(turns), settings.duration, CompletionsByLane(log, phase.lanes));
      failed := phase.QualifyCapacityBoundary(settings.duration, log);
      if failed.Some? {
        log := log + [Refused(failed.value)];
        return Stop(failed.value), verified, log;
      }
      return Finished, verified, log;
    }
    failed := phase.CheckLaneProgress(settings.progressTimeout, log);
    if failed.Some? {
      log := log + [Refused(failed.value)];
      return Stop(failed.value), verified, log;
    }
    if Gap(phase.elapsedNs, lastVerification) >= VERIFY_INTERVAL {
      RoundVerdict(turn.verification);
      failed := phase.Verify(turn.verification, log);
      log := log + RoundLog(turn.verification);
      if failed.Some? {
        FirstFailureOfConcat(AfterBatch(turns), RoundLog(turn.verification));
        phase.Reading(log);
        return Stop(failed.value), verified, log;
      }
      verified := phase.elapsedNs;
    }
    if turn.checkpoint.Some? && turn.checkpoint.value.Err? {
      return Stop(turn.checkpoint.value.error), verified, log;
    }
    return if phase.elapsedNs >= settings.duration then Finished else GoOn, verified, log;
  }

  // ----- the loop

  predicate Succeeded(outcome: Option<Result<(), Failure>>) {
    outcome.Some? && outcome.value.Ok?
  }

  ghost predicate KeepsGoing(turns: seq<Turn>, settings: Settings, lanes: nat, n: nat)
    requires n <= |turns|
  {
    forall k | 1 <= k <= n :: GoesOn(turns[..k], settings, lanes)
  }

  /** The loop ends well with turn `n`, and every turn before it went on. */
  ghost predicate EndsWith(turns: seq<Turn>, settings: Settings, lanes: nat, n: nat) {
    && 1 <= n <= |turns| && KeepsGoing(turns, settings, lanes, n - 1)
    && (EndsOnTime(turns[..n], settings, lanes) || EndsAtBoundary(turns[..n], settings, lanes))
  }

  lemma OneWayToEnd(turns: seq<Turn>, settings: Settings, lanes: nat, n: nat, m: nat)
    requires 1 <= n <= |turns| && KeepsGoing(turns, settings, lanes, n - 1)
    requires !GoesOn(turns[..n], settings, lanes) && EndsWith(turns, settings, lanes, m)
    ensures m == n
  {
  }

  /**
   The loop ends well exactly when some turn does and every turn before it went on; it then has used just those
   turns. It is still running exactly when every turn so far went on.
   */
  method RunLoop(phase: Phase, settings: Settings, turns: seq<Turn>)
    returns (outcome: Option<Result<(), Failure>>, used: nat, ghost log: seq<Event>)
    requires Stands(phase, [])
    requires forall i | 0 <= i < |turns| :: |turns[i].batch.outcomes| == phase.lanes
    modifies phase, phase.latencies
    ensures used <= |turns| && phase.Reflects(log)
    ensures outcome.None? <==> KeepsGoing(turns, settings, phase.lanes, |turns|)
    ensures Succeeded(outcome) <==> exists n :: EndsWith(turns, settings, phase.lanes, n)
    ensures Succeeded(outcome) ==> EndsWith(turns, settings, phase.lanes, used)
    ensures Succeeded(outcome) && !AtBoundary(turns[..used], settings) ==>
              log == LoopLog(turns[..used]) && !phase.capacityBoundary
    ensures Succeeded(outcome) && AtBoundary(turns[..used], settings) ==>
              log == AfterBatch(turns[..used]) && phase.capacityBoundary
    ensures outcome.Some? && outcome.value.Err? ==> used > 0 && Explained(phase, turns[used - 1], outcome.value.error)
  {
    hide GoesOn, EndsOnTime, EndsAtBoundary, AtBoundary, LoopLog, LastVerified, Phase.Reflects;
    var verified := 0;
    used, log := 0, LoopLog([]);
    StartStands(phase);
    assert turns[..0] == [];
    while used < |turns|
      invariant used <= |turns| && Stands(phase, turns[..used]) && verified == LastVerified(turns[..used])
      invariant KeepsGoing(turns, settings, phase.lanes, used) && log == LoopLog(turns[..used])
    {
      ghost var before := turns[..used];
      assert turns[..used + 1] == before + [turns[used]];
      var verdict, now, after := RunTurn(phase, settings, turns[used], verified, before);
      used, verified, log := used + 1, now, after;
      ghost var lanes := phase.lanes;
      if verdict.Stop? {
        forall n: nat ensures !EndsWith(turns, settings, lanes, n) {
          if EndsWith(turns, settings, lanes, n) { OneWayToEnd(turns, settings, lanes, used, n); }
        }
        return Some(Err(verdict.error)), used, log;
      }
      EndingIsNotGoing(turns[..used], settings, lanes);
      if verdict.Finished? {
        assert EndsWith(turns, settings, lanes, used);
        return Some(Ok(())), used, log;
      }
      NotAtBoundary(turns[..used], settings, lanes);
    }
    forall n: nat ensures !EndsWith(turns, settings, phase.lanes, n) {
      if EndsWith(turns, settings, phase.lanes, n) { EndingIsNotGoing(turns[..n], settings, phase.lanes); }
    }
    return None, used, log;
  }

  lemma StartStands(phase: Phase)
    requires Stands(phase, [])
    ensures LastVerified([]) == 0 && phase.Reflects(LoopLog([]))
  {
  }

  lemma EndingIsNotGoing(turns: seq<Turn>, settings: Settings, lanes: nat)
    requires turns != []
    ensures EndsOnTime(turns, settings, lanes) || EndsAtBoundary(turns, settings, lanes) ==>
              !GoesOn(turns, settings, lanes)
  {
  }

  lemma NotAtBoundary(turns: seq<Turn>, settings: Settings, lanes: nat)
    requires turns != [] && GoesOn(turns, settings, lanes)
    ensures !AtBoundary(turns, settings)
  {
  }

  // ----- a whole phase

  /** Everything counted by the time the loop ends well. */
  function EndLog(turns: seq<Turn>, settings: Settings): seq<Event>
    requires turns != []
  {
    if AtBoundary(turns, settings) then AfterBatch(turns) else LoopLog(turns)
  }

  lemma {:induction false} GoingIsClean(turns: seq<Turn>, settings: Settings, lanes: nat, n: nat)
    requires n <= |turns| && KeepsGoing(turns, settings, lanes, n)
    ensures FirstFailure(LoopLog(turns[..n])).None?
  {
    if n > 0 {
      GoingIsClean(turns, settings, lanes, n - 1);
      assert turns[..n][..n - 1] == turns[..n - 1];
      assert GoesOn(turns[..n], settings, lanes);
      PassedTurnIsClean(turns[..n], settings, lanes);
    }
  }

  lemma PassedTurnIsClean(turns: seq<Turn>, settings: Settings, lanes: nat)
    requires turns != [] && FirstFailure(LoopLog(turns[..|turns| - 1])).None?
    ensures Clean(turns) ==> FirstFailure(AfterBatch(turns)).None?
    ensures Passes(turns, settings, lanes) ==> FirstFailure(LoopLog(turns)).None?
  {
    var n, turn := |turns| - 1, turns[|turns| - 1];
    FirstFailureOfConcat(LoopLog(turns[..n]), BatchLog(turn.batch));
    FirstFailureOfConcat(AfterBatch(turns), if Due(turns) then RoundLog(turn.verification) else []);
    RoundVerdict(turn.verification);
  }

  lemma EndingIsClean(turns: seq<Turn>, settings: Settings, lanes: nat, n: nat)
    requires EndsWith(turns, settings, lanes, n)
    ensures FirstFailure(EndLog(turns[..n], settings)).None?
  {
    GoingIsClean(turns, settings, lanes, n - 1);
    assert turns[..n][..n - 1] == turns[..n - 1];
    PassedTurnIsClean(turns[..n], settings, lanes);
  }

  /** A lane has completed a cycle less than `limit` of active time ago. */
  predicate Recent(turns: seq<Turn>, lane: nat, limit: nat) {
    Gap(Active(turns), LastCompletion(Batches(turns), lane)) < limit
  }

  /** What the progress check says for any limit: one beyond 64 bits of nanoseconds never fails. */
  lemma ProgressMeans(turns: seq<Turn>, settings: Settings, lanes: nat)
    ensures LanesProgress(turns, settings, lanes) <==>
            || settings.progressTimeout > U64_MAX
            || forall lane | 0 <= lane < lanes :: Recent(turns, lane, settings.progressTimeout)
  {
    var lasts, limit := LastCompletions(Batches(turns), lanes), settings.progressTimeout;
    forall lane | 0 <= lane < lanes
      ensures Remaining(Active(turns), lasts[lane], limit) > 0 <==> Recent(turns, lane, limit) || limit > U64_MAX
    {
      StallIsSeen(Active(turns), lasts[lane], limit);
    }
    if LanesProgress(turns, settings, lanes) && limit <= U64_MAX {
      forall lane | 0 <= lane < lanes ensures Recent(turns, lane, limit) {
        assert Remaining(Active(turns), lasts[lane], limit) > 0;
      }
    }
  }

  lemma {:induction false} ActiveGrows(turns: seq<Turn>, k: nat, n: nat)
    requires k <= n <= |turns|
    ensures Active(turns[..k]) <= Active(turns[..n])
    ensures 0 < k == n ==> Active(turns[..n]) == Active(turns[..n - 1]) + turns[n - 1].batch.elapsed
    decreases n
  {
    if n > 0 {
      assert Batches(turns[..n])[..n - 1] == Batches(turns[..n - 1]);
      if k < n { ActiveGrows(turns, k, n - 1); }
    }
  }

  /** The longest duration a run may be configured with: 86400 seconds. */
  const MAX_DURATION: nat := 86_400 * 1_000_000_000

  /** With active time or limit within 64 bits of nanoseconds the check passes exactly when every lane is recent. */
  lemma ProgressIsExact(turns: seq<Turn>, settings: Settings, lanes: nat)
    requires Active(turns) <= U64_MAX || settings.progressTimeout <= U64_MAX
    ensures LanesProgress(turns, settings, lanes) <==>
            forall lane | 0 <= lane < lanes :: Recent(turns, lane, settings.progressTimeout)
  {
    ProgressMeans(turns, settings, lanes);
  }

  /** A phase of a configured duration stays within 64 bits, whatever its last batch takes short of centuries. */
  lemma ConfiguredPhaseFits(turns: seq<Turn>, settings: Settings, lanes: nat, n: nat)
    requires EndsWith(turns, settings, lanes, n) && settings.duration <= MAX_DURATION
    requires turns[n - 1].batch.elapsed <= U64_MAX - MAX_DURATION
    ensures Active(turns[..n]) <= U64_MAX
  {
    hide Passes, EndsOnTime, EndsAtBoundary;
    ActiveGrows(turns, n, n);
    if n > 1 { assert GoesOn(turns[..n - 1], settings, lanes); }
  }

  /** Every lane completed at least one cycle. */
  predicate Worked(log: seq<Event>, lanes: nat) {
    forall lane | 0 <= lane < lanes :: Total(LaneCompletions(lane), log) > 0
  }

  lemma WorkedIsCounted(log: seq<Event>, lanes: nat)
    ensures 0 in Clamped(CompletionsByLane(log, lanes)) <==> !Worked(log, lanes)
  {
    var counted := Clamped(CompletionsByLane(log, lanes));
    assert forall lane | 0 <= lane < lanes :: counted[lane] == Clamp64(Total(LaneCompletions(lane), log));
  }

  datatype Termination = Running | Failed | CapacityBoundary | ProbeComplete | DurationComplete

  /** What a phase that passes has to show: a good end, work on every lane, and every lane verified afterwards. */
  ghost predicate PhasePasses(turns: seq<Turn>, settings: Settings, clients: nat,
      finalRound: seq<Result<nat, Failure>>, n: nat)
  {
    && EndsWith(turns, settings, clients, n)
    && Worked(EndLog(turns[..n], settings), clients)
    && AllVerified(finalRound)
  }

  method FinishPhaseVerification(report: Phase, finalRound: seq<Result<nat, Failure>>, ghost log: seq<Event>)
    returns (failed: Option<Failure>, ghost after: seq<Event>)
    requires report.Reflects(log)
    modifies report`failures, report`timeouts, report`validationErrors, report`failure, report`verificationChecks
    ensures failed.None? <==> Worked(log, report.lanes) && AllVerified(finalRound)
    ensures failed.None? ==> after == log + RoundLog(finalRound)
    ensures failed.Some? ==> report.failure.Some?
    ensures report.Reflects(after)
  {
    hide Phase.Reflects, Worked, AllVerified, FirstFailure;
    report.Reading(log);
    WorkedIsCounted(log, report.lanes);
    if 0 in report.laneCompletions {
      var error := Failure(Verification, "at least one lane completed no validated domain cycles");
      report.Refuse(error, log);
      return Some(error), log + [Refused(error)];
    }
    RoundVerdict(finalRound);
    FirstFailureOfConcat(log, RoundLog(finalRound));
    failed := report.Verify(finalRound, log);
    after := log + RoundLog(finalRound);
    report.Reading(after);
  }

  /**
   A phase passes exactly when its loop ended well, every lane completed a cycle and every lane was verified after
   its last batch; it then has recorded no failure, and a phase that ended any other way has recorded one. Only a
   save that fails before the loop or after it makes the call fail without a record.
   */
  method RunPhase(clients: nat, settings: Settings, turns: seq<Turn>, firstSave: Result<(), Failure>,
                  finalRound: seq<Result<nat, Failure>>, finalSave: Result<(), Failure>)
    returns (result: Option<Result<(), Failure>>, report: Phase, termination: Termination, ghost used: nat)
    requires |finalRound| == clients
    requires forall i | 0 <= i < |turns| :: |turns[i].batch.outcomes| == |turns[i].verification| == clients
    ensures fresh(report) && fresh(report.latencies) && report.lanes == clients
    ensures result.None? <==> firstSave.Ok? && KeepsGoing(turns, settings, clients, |turns|)
    ensures Succeeded(result) <==>
            && firstSave.Ok? && finalSave.Ok? && exists n :: PhasePasses(turns, settings, clients, finalRound, n)
    ensures Succeeded(result) ==> PhasePasses(turns, settings, clients, finalRound, used)
    ensures termination.Running? <==> firstSave.Err? || result.None?
    ensures termination.Failed? ==> report.failure.Some?
    ensures !termination.Running? && !termination.Failed? ==>
              && PhasePasses(turns, settings, clients, finalRound, used)
              && report.Reflects(EndLog(turns[..used], settings) + RoundLog(finalRound)) && report.failure.None?
              && termination == (if AtBoundary(turns[..used], settings) then CapacityBoundary
                                 else if settings.duration == 0 then ProbeComplete else DurationComplete)
  {
    hide Phase.Reflects, KeepsGoing, EndsOnTime, EndsAtBoundary, Worked;
    hide AllVerified, AtBoundary, LoopLog, AfterBatch, FirstFailure;
    report := new Phase(clients);
    used, termination := 0, Running;
    if firstSave.Err? {
      return Some(Err(firstSave.error)), report, termination, used;
    }
    FreshStands(report);
    var outcome, turnsUsed, log := RunLoop(report, settings, turns);
    used := turnsUsed;
    if outcome.None? {
      NotEnded(turns, settings, clients, finalRound);
      return None, report, termination, used;
    }
    var verdict := outcome.value;
    if verdict.Ok? {
      UniqueEnd(turns, settings, clients, used);
      var failed, after := FinishPhaseVerification(report, finalRound, log);
      if failed.Some? {
        verdict := Err(failed.value);
      } else {
        EndingIsClean(turns, settings, clients, used);
        RoundVerdict(finalRound);
        FirstFailureOfConcat(log, RoundLog(finalRound));
        report.Reading(after);
        assert PhasePasses(turns, settings, clients, finalRound, used);
      }
      log := after;
    }
    if verdict.Err? && report.failure.None? {
      report.Refuse(verdict.error, log);
    }
    termination := if verdict.Err? then Failed
                   else if report.capacityBoundary then CapacityBoundary
                   else if settings.duration == 0 then ProbeComplete else DurationComplete;
    result := Some(if verdict.Err? then verdict else finalSave);
  }

  lemma FreshStands(report: Phase)
    requires report.View() == Zero(report.lanes) && report.Valid() && report.latencies.Holds([])
    requires report.elapsedNs == 0 && report.laneLastCompletionNs == seq(report.lanes, i => 0)
             && !report.capacityBoundary
    ensures Stands(report, [])
  {
  }

  lemma UniqueEnd(turns: seq<Turn>, settings: Settings, lanes: nat, n: nat)
    requires EndsWith(turns, settings, lanes, n)
    ensures forall m | EndsWith(turns, settings, lanes, m) :: m == n
  {
  }

  lemma NotEnded(turns: seq<Turn>, settings: Settings, lanes: nat, finalRound: seq<Result<nat, Failure>>)
    requires KeepsGoing(turns, settings, lanes, |turns|)
    ensures forall n :: !PhasePasses(turns, settings, lanes, finalRound, n)
  {
  }

  /**
   What a passed phase guarantees if its active time or its limit fits 64 bits of nanoseconds: no failure, every
   lane verified at the end, every lane's gap below the limit at each batch end, and the whole duration or an earned
   capacity stop.
   */
  lemma PassedPhase(turns: seq<Turn>, settings: Settings, clients: nat, finalRound: seq<Result<nat, Failure>>, n: nat)
    requires PhasePasses(turns, settings, clients, finalRound, n) && |finalRound| == clients
    requires settings.progressTimeout <= U64_MAX || Active(turns[..n]) <= U64_MAX
    ensures FirstFailure(EndLog(turns[..n], settings)).None?
    ensures forall lane | 0 <= lane < clients ::
              && finalRound[lane].Ok? && finalRound[lane].value > 0
              && Total(LaneCompletions(lane), EndLog(turns[..n], settings)) > 0
    ensures forall k, lane | 1 <= k < n && 0 <= lane < clients :: Recent(turns[..k], lane, settings.progressTimeout)
    ensures forall k | 1 <= k < n :: Active(turns[..k]) < settings.duration
    ensures if AtBoundary(turns[..n], settings) then
              && settings.allowCapacityBoundary
              && (Active(turns[..n]) >= MINIMUM_ACTIVE || Active(turns[..n]) >= settings.duration)
              && forall lane | 0 <= lane < clients ::
                   Total(LaneCompletions(lane), AfterBatch(turns[..n])) >= MINIMUM_LANE_COMPLETIONS
            else
              && Active(turns[..n]) >= settings.duration
              && forall lane | 0 <= lane < clients :: Recent(turns[..n], lane, settings.progressTimeout)
  {
    hide Recent, LanesProgress, Due, Clean, LoopLog, FirstFailure, Active;
    EndingIsClean(turns, settings, clients, n);
    forall k, lane | 1 <= k < n && 0 <= lane < clients ensures Recent(turns[..k], lane, settings.progressTimeout) {
      assert GoesOn(turns[..k], settings, clients);
      ActiveGrows(turns, k, n);
      ProgressIsExact(turns[..k], settings, clients);
    }
    ProgressIsExact(turns[..n], settings, clients);
    if AtBoundary(turns[..n], settings) {
      var done := CompletionsByLane(AfterBatch(turns[..n]), clients);
      assert forall lane | 0 <= lane < clients :: done[lane] == Total(LaneCompletions(lane), AfterBatch(turns[..n]));
    }
  }

  /**
   A lane stalled for thirty thousand million seconds that the check lets pass, under a limit of 18446744074 seconds.
   No configured run lasts that long.
   */
  lemma StalledLanePasses()
    ensures var settings := Settings(0, 18_446_744_074 * 1_000_000_000, false);
            var idle := Batch(30_000_000_000 * 1_000_000_000, [Observation(Ok(Contended), 0, 0)]);
            var turns := [Turn(idle, [Ok(1)], None)];
            LanesProgress(turns, settings, 1) && !Recent(turns, 0, settings.progressTimeout)
  {
    var settings := Settings(0, 18_446_744_074 * 1_000_000_000, false);
    var turns := [Turn(Batch(30_000_000_000 * 1_000_000_000, [Observation(Ok(Contended), 0, 0)]), [Ok(1)], None)];
    ProgressMeans(turns, settings, 1);
    assert Batches(turns) == [turns[0].batch] && Batches(turns)[..0] == [];
  }
}
