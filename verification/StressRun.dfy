/**
 All phases of a stress run (benches/stress_support/runner.rs): the probes, the load stages, and what a whole run adds
 up to.
 */
module StressRun {
  import opened Basics
  import opened StressCounters
  import opened StressPhase

  datatype Stage = Stage(clients: nat, settings: Settings)

  function Loads(tier: nat): (loads: seq<nat>)
    ensures loads != [] && forall i | 0 <= i < |loads| :: 1 <= loads[i] <= Lanes(tier)
  {
    if tier == 5 then [1, 2, 4, 8, 16, 32, 64] else [8]
  }

  /** How many drivers a run prepares. */
  function Lanes(tier: nat): nat {
    if tier == 5 then 64 else 8
  }

  function Budgets(stages: seq<Stage>): nat {
    if stages == [] then 0 else Budgets(stages[..|stages| - 1]) + stages[|stages| - 1].settings.duration
  }

  /** One client and no time budget: the probe before and after the load stages. */
  function Probe(progressTimeout: nat): Stage {
    Stage(1, Settings(0, progressTimeout, false))
  }

  /** The stages' shares of the duration: whole nanoseconds, the last stage taking what is left over. */
  function StageBudget(duration: nat, count: nat, index: nat): nat
    requires index < count
  {
    var share := duration / count;
    if index + 1 == count then Gap(duration, share * (count - 1)) else share
  }

  function Spent(duration: nat, count: nat, index: nat): nat
    requires count > 0
  {
    if index == count then duration else (duration / count) * index
  }

  lemma ShareTimesCount(duration: nat, count: nat)
    requires count > 0
    ensures var share := duration / count; share * count <= duration < share * count + count
    ensures var share := duration / count; share * (count - 1) + share == share * count
  {
  }

  lemma SpentNext(duration: nat, count: nat, index: nat)
    requires index < count
    ensures Spent(duration, count, index) + StageBudget(duration, count, index) == Spent(duration, count, index + 1)
    ensures Spent(duration, count, 0) == 0 == Budgets([]) && Spent(duration, count, count) == duration
    ensures duration / count <= StageBudget(duration, count, index) < duration / count + count
  {
    var share := duration / count;
    ShareTimesCount(duration, count);
    assert share * index + share == share * (index + 1);
  }

  /** A load stage: so many clients, an even share of the duration, and a capacity stop only in tier 5. */
  predicate IsLoadStage(stage: Stage, clients: nat, duration: nat, count: nat, progressTimeout: nat, tier: nat)
    requires count > 0
  {
    && stage.clients == clients && stage.settings.progressTimeout == progressTimeout
    && stage.settings.allowCapacityBoundary == (tier == 5)
    && duration / count <= stage.settings.duration < duration / count + count
  }

  /** The load stages split the whole duration between them, as evenly as whole nanoseconds allow. */
  ghost predicate LoadStages(stages: seq<Stage>, duration: nat, progressTimeout: nat, tier: nat) {
    && |stages| == |Loads(tier)| && Budgets(stages) == duration
    && forall i | 0 <= i < |stages| :: IsLoadStage(stages[i], Loads(tier)[i], duration, |stages|, progressTimeout, tier)
  }

  lemma BudgetsNext(stages: seq<Stage>, stage: Stage)
    ensures Budgets(stages + [stage]) == Budgets(stages) + stage.settings.duration
  {
    assert (stages + [stage])[..|stages|] == stages;
  }

  function LoadStage(duration: nat, progressTimeout: nat, tier: nat, index: nat): Stage
    requires index < |Loads(tier)|
  {
    Stage(Loads(tier)[index], Settings(StageBudget(duration, |Loads(tier)|, index), progressTimeout, tier == 5))
  }

  function LoadPlan(duration: nat, progressTimeout: nat, tier: nat): seq<Stage> {
    seq(|Loads(tier)|, i requires 0 <= i < |Loads(tier)| => LoadStage(duration, progressTimeout, tier, i))
  }

  /** Every phase of a run in order: probe, load stages, probe. */
  function Plan(duration: nat, progressTimeout: nat, tier: nat): seq<Stage> {
    [Probe(progressTimeout)] + LoadPlan(duration, progressTimeout, tier) + [Probe(progressTimeout)]
  }

  lemma {:induction false} PlanPrefix(duration: nat, progressTimeout: nat, tier: nat, n: nat)
    requires n <= |Loads(tier)|
    ensures Budgets(LoadPlan(duration, progressTimeout, tier)[..n]) == Spent(duration, |Loads(tier)|, n)
  {
    hide Loads, StageBudget, Spent;
    var plan, count := LoadPlan(duration, progressTimeout, tier), |Loads(tier)|;
    SpentNext(duration, count, if n == 0 then 0 else n - 1);
    if n > 0 {
      PlanPrefix(duration, progressTimeout, tier, n - 1);
      assert plan[..n] == plan[..n - 1] + [plan[n - 1]];
      BudgetsNext(plan[..n - 1], plan[n - 1]);
    }
  }

  lemma PlanSplitsDuration(duration: nat, progressTimeout: nat, tier: nat)
    ensures LoadStages(LoadPlan(duration, progressTimeout, tier), duration, progressTimeout, tier)
    ensures forall i | 0 <= i < |Plan(duration, progressTimeout, tier)| ::
              1 <= Plan(duration, progressTimeout, tier)[i].clients <= Lanes(tier)
  {
    hide Loads, StageBudget, Spent;
    var plan, count := LoadPlan(duration, progressTimeout, tier), |Loads(tier)|;
    PlanPrefix(duration, progressTimeout, tier, count);
    assert plan[..count] == plan;
    SpentNext(duration, count, 0);
    forall i | 0 <= i < count ensures IsLoadStage(plan[i], Loads(tier)[i], duration, count, progressTimeout, tier) {
      SpentNext(duration, count, i);
    }
  }

  // ----- running them

  /** What the environment does during one phase. */
  datatype Play = Play(
    turns: seq<Turn>, firstSave: Result<(), Failure>,
    finalRound: seq<Result<nat, Failure>>, finalSave: Result<(), Failure>)

  predicate Sized(play: Play, clients: nat) {
    && |play.finalRound| == clients
    && forall i | 0 <= i < |play.turns| :: |play.turns[i].batch.outcomes| == |play.turns[i].verification| == clients
  }

  ghost predicate StagePasses(stage: Stage, play: Play, n: nat) {
    play.firstSave.Ok? && play.finalSave.Ok?
      && PhasePasses(play.turns, stage.settings, stage.clients, play.finalRound, n)
  }

  ghost predicate CanPass(stage: Stage, play: Play) {
    exists n :: StagePasses(stage, play, n)
  }

  method RunStage(stage: Stage, play: Play) returns (result: Option<Result<(), Failure>>, ghost used: nat)
    requires Sized(play, stage.clients)
    ensures Succeeded(result) <==> CanPass(stage, play)
    ensures Succeeded(result) ==> StagePasses(stage, play, used)
  {
    hide PhasePasses;
    var outcome, report, termination, turns :=
      RunPhase(stage.clients, stage.settings, play.turns, play.firstSave, play.finalRound, play.finalSave);
    result, used := outcome, turns;
    if n :| PhasePasses(play.turns, stage.settings, stage.clients, play.finalRound, n) {
      assert play.firstSave.Ok? && play.finalSave.Ok? ==> StagePasses(stage, play, n);
    }
  }

  /** The turns a phase used. */
  function Used(play: Play, n: nat): seq<Turn> {
    if n <= |play.turns| then play.turns[..n] else play.turns
  }

  predicate StoppedAtCapacity(stage: Stage, play: Play, n: nat) {
    Used(play, n) != [] && AtBoundary(Used(play, n), stage.settings)
  }

  /** Active time of the stages, each up to the turn it ended with. */
  function ActiveSum(plays: seq<Play>, used: seq<nat>): nat
    requires |plays| == |used|
  {
    if plays == [] then 0
    else
      var n := |plays| - 1;
      ActiveSum(plays[..n], used[..n]) + Active(Used(plays[n], used[n]))
  }

  lemma StageSpendsItsBudget(stage: Stage, play: Play, n: nat)
    requires StagePasses(stage, play, n) && !StoppedAtCapacity(stage, play, n)
    ensures Active(Used(play, n)) >= stage.settings.duration
  {
    hide AtBoundary, KeepsGoing, Passes, Worked, Active;
    EarnedAtBoundary(play.turns[..n], stage.settings, stage.clients);
  }

  lemma EarnedAtBoundary(turns: seq<Turn>, settings: Settings, lanes: nat)
    requires turns != []
    ensures EndsAtBoundary(turns, settings, lanes) ==> AtBoundary(turns, settings)
  {
  }

  lemma {:induction false} StagesSpendTheirBudgets(stages: seq<Stage>, plays: seq<Play>, used: seq<nat>)
    requires |stages| == |plays| == |used|
    requires forall i | 0 <= i < |stages| ::
               StagePasses(stages[i], plays[i], used[i]) && !StoppedAtCapacity(stages[i], plays[i], used[i])
    ensures ActiveSum(plays, used) >= Budgets(stages)
    decreases |stages|
  {
    hide StagePasses, StoppedAtCapacity, Used, Active;
    if stages != [] {
      var n := |stages| - 1;
      StagesSpendTheirBudgets(stages[..n], plays[..n], used[..n]);
      StageSpendsItsBudget(stages[n], plays[n], used[n]);
    }
  }

  /**
   A run in which no stage stopped at its capacity has been active under load for at least the configured duration.
   */
  lemma WholeDurationIsSpent(duration: nat, progressTimeout: nat, tier: nat, plays: seq<Play>, used: seq<nat>)
    requires |plays| == |used| == |Loads(tier)|
    requires forall i | 0 <= i < |plays| :: StagePasses(LoadPlan(duration, progressTimeout, tier)[i], plays[i], used[i])
    requires forall i | 0 <= i < |plays| ::
               !StoppedAtCapacity(LoadPlan(duration, progressTimeout, tier)[i], plays[i], used[i])
    ensures ActiveSum(plays, used) >= duration
  {
    hide Loads, StageBudget, StagePasses, StoppedAtCapacity, ActiveSum;
    PlanSplitsDuration(duration, progressTimeout, tier);
    StagesSpendTheirBudgets(LoadPlan(duration, progressTimeout, tier), plays, used);
  }

  ghost predicate AnyAtCapacity(stages: seq<Stage>, plays: seq<Play>, used: seq<nat>)
    requires |stages| == |plays| == |used|
  {
    exists i :: 0 <= i < |stages| && StoppedAtCapacity(stages[i], plays[i], used[i])
  }

  lemma SuccessSpendsDuration(duration: nat, progressTimeout: nat, tier: nat, plays: seq<Play>, used: seq<nat>)
    requires |plays| == |used| == |Loads(tier)| + 2
    requires forall i | 0 <= i < |plays| :: StagePasses(Plan(duration, progressTimeout, tier)[i], plays[i], used[i])
    ensures var (stages, n) := (LoadPlan(duration, progressTimeout, tier), |plays| - 1);
            !AnyAtCapacity(stages, plays[1..n], used[1..n]) ==> ActiveSum(plays[1..n], used[1..n]) >= duration
  {
    hide Loads, StageBudget, StagePasses, StoppedAtCapacity, ActiveSum;
    var stages, n := LoadPlan(duration, progressTimeout, tier), |plays| - 1;
    forall i | 0 <= i < |stages| ensures StagePasses(stages[i], plays[1..n][i], used[1..n][i]) {
      assert Plan(duration, progressTimeout, tier)[i + 1] == stages[i];
    }
    if !AnyAtCapacity(stages, plays[1..n], used[1..n]) {
      WholeDurationIsSpent(duration, progressTimeout, tier, plays[1..n], used[1..n]);
    }
  }

  /**
   Runs the plan, stopping at the first phase that does not succeed. A run succeeds exactly when every phase of
   the plan passes, and `used` then says with how many turns each of them did; unless some load stage stopped at its
   capacity, the load stages were then active for at least the configured duration.
   */
  method RunPhases(duration: nat, progressTimeout: nat, tier: nat, plays: seq<Play>)
    returns (result: Option<Result<(), Failure>>, ran: nat, ghost used: seq<nat>)
    requires |plays| == |Plan(duration, progressTimeout, tier)|
    requires forall i | 0 <= i < |plays| :: Sized(plays[i], Plan(duration, progressTimeout, tier)[i].clients)
    ensures 1 <= ran <= |plays| && |used| == ran
    ensures forall i | 0 <= i < ran - 1 :: StagePasses(Plan(duration, progressTimeout, tier)[i], plays[i], used[i])
    ensures Succeeded(result) <==>
            forall i | 0 <= i < |plays| :: CanPass(Plan(duration, progressTimeout, tier)[i], plays[i])
    ensures Succeeded(result) ==>
              && ran == |plays|
              && StagePasses(Plan(duration, progressTimeout, tier)[ran - 1], plays[ran - 1], used[ran - 1])
    ensures Succeeded(result) ==>
              var (loads, times) := (plays[1..ran - 1], used[1..ran - 1]);
              AnyAtCapacity(LoadPlan(duration, progressTimeout, tier), loads, times)
                || ActiveSum(loads, times) >= duration
  {
    hide Loads, StageBudget, StagePasses, Sized, StoppedAtCapacity, ActiveSum;
    ghost var plan := Plan(duration, progressTimeout, tier);
    var outcome, turns := RunStage(Probe(progressTimeout), plays[0]);
    used := [turns];
    if !Succeeded(outcome) {
      return outcome, 1, used;
    }
    assert CanPass(plan[0], plays[0]);
    var loads := Loads(tier);
    for index := 0 to |loads|
      invariant |used| == index + 1
      invariant forall i | 0 <= i <= index :: StagePasses(plan[i], plays[i], used[i]) && CanPass(plan[i], plays[i])
    {
      var budget := StageBudget(duration, |loads|, index);
      var stage := Stage(loads[index], Settings(budget, progressTimeout, tier == 5));
      assert stage == plan[index + 1];
      outcome, turns := RunStage(stage, plays[index + 1]);
      used := used + [turns];
      if !Succeeded(outcome) {
        return outcome, index + 2, used;
      }
    }
    ran := |loads| + 2;
    assert plan[ran - 1] == Probe(progressTimeout);
    outcome, turns := RunStage(Probe(progressTimeout), plays[ran - 1]);
    used := used + [turns];
    result := outcome;
    if Succeeded(result) {
      SuccessSpendsDuration(duration, progressTimeout, tier, plays, used);
    }
  }
}
