/** What holds over whole runs of the shutdown protocol, in every interleaving of its tasks. */
module ShutdownRuns {
  import opened Basics
  import opened ShutdownSignals
  import opened ShutdownProtocol

  lemma OneStepAdvances(run: seq<State>, events: seq<Event>, i: nat)
    requires IsRun(run, events) && i < |events|
    ensures Advances(run[i], run[i + 1])
  {
    hide Step, Inv;
    RunKeepsInv(run, events, i);
    StepKeepsInv(run[i], events[i], run[i + 1]);
  }

  lemma {:induction false} RunAdvances(run: seq<State>, events: seq<Event>, i: nat, j: nat)
    requires IsRun(run, events) && i <= j < |run|
    ensures Advances(run[i], run[j])
    decreases j
  {
    hide Step;
    if i < j {
      RunAdvances(run, events, i, j - 1);
      OneStepAdvances(run, events, j - 1);
    }
  }

  predicate AnyFatal(requests: seq<ShutdownSignal>) {
    exists i :: 0 <= i < |requests| && IsFailure(requests[i])
  }

  function FirstFatal(requests: seq<ShutdownSignal>): (signal: ShutdownSignal)
    requires AnyFatal(requests)
    ensures IsFailure(signal) && signal in requests
  {
    if IsFailure(requests[0]) then requests[0]
    else
      assert AnyFatal(requests[1..]) by {
        var i :| 0 <= i < |requests| && IsFailure(requests[i]);
        assert requests[1..][i - 1] == requests[i];
      }
      FirstFatal(requests[1..])
  }

  lemma {:induction false} FirstFatalIsEarliest(requests: seq<ShutdownSignal>, i: nat)
    requires IsEarliestMaximal(requests, i) && IsFailure(requests[i])
    ensures AnyFatal(requests) && FirstFatal(requests) == requests[i]
  {
    if i > 0 {
      assert Priority(requests[0]) < Priority(requests[i]);
      var rest := requests[1..];
      assert rest[i - 1] == requests[i];
      assert forall j | 0 <= j < |rest| :: rest[j] == requests[j + 1];
      FirstFatalIsEarliest(rest, i - 1);
    }
  }

  /** After any requests, what is published is the first fatal one if there is any, and otherwise not fatal. */
  lemma PublishedFatalIsFirst(requests: seq<ShutdownSignal>)
    requires requests != []
    ensures Publish(requests).Some?
    ensures IsFailure(Publish(requests).value) <==> AnyFatal(requests)
    ensures AnyFatal(requests) ==> Publish(requests).value == FirstFatal(requests)
  {
    PublishedIsEarliestMaximal(requests);
    var i: nat :| IsEarliestMaximal(requests, i) && requests[i] == Publish(requests).value;
    if IsFailure(requests[i]) {
      FirstFatalIsEarliest(requests, i);
    }
  }

  ghost predicate ReportsFirstFatal(
    result: Result<(), string>, cleanup: Result<(), string>, asked: seq<ShutdownSignal>)
  {
    && (AnyFatal(asked) ==> result.Err? && FailureText(FirstFatal(asked)) <= result.error)
    && (!AnyFatal(asked) ==> result == cleanup)
    && (result.Ok? <==> !AnyFatal(asked) && cleanup.Ok?)
  }

  /**
   Whatever the interleaving and however cleanup went, a fatal signal requested before the last read makes
   the broker fail with the text of the first such signal; success needs no fatal signal and a clean cleanup.
   */
  lemma ReportNamesFirstFatal(run: seq<State>, events: seq<Event>, i: nat)
    requires IsRun(run, events) && i < |run| && run[i].main.pc.Reported?
    ensures var pc := run[i].main.pc;
            && 0 < pc.readAfter <= |run[i].channel.requests|
            && ReportsFirstFatal(pc.result, pc.cleanup, run[i].channel.requests[..pc.readAfter])
  {
    RunKeepsInv(run, events, i);
    PublishedFatalIsFirst(run[i].channel.requests[..run[i].main.pc.readAfter]);
  }

  lemma ReportStep(s: State, e: Event, s': State)
    requires Step(s, e, s') && s'.main.pc.Reported?
    ensures s.main.pc.Reported? ==> s'.main.pc == s.main.pc
    ensures !s.main.pc.Reported? ==> s'.main.pc.readAfter == |s.channel.requests|
  {
    hide Step, Report, ImmediateCloseReason;
    OnlyBootMovesBoot(s, e, s');
  }

  lemma {:induction false} FinalReadSeesEarlierRequests(run: seq<State>, events: seq<Event>, i: nat, j: nat)
    requires IsRun(run, events) && i < j < |run|
    requires !run[i].main.pc.Reported? && run[j].main.pc.Reported?
    ensures |run[i].channel.requests| <= run[j].main.pc.readAfter <= |run[j].channel.requests|
    decreases j
  {
    hide Step;
    ReportStep(run[j - 1], events[j - 1], run[j]);
    OneStepAdvances(run, events, j - 1);
    if run[j - 1].main.pc.Reported? {
      FinalReadSeesEarlierRequests(run, events, i, j - 1);
    } else {
      RunAdvances(run, events, i, j - 1);
    }
  }

  /** Once fatal is published while the boot task has not reported, the broker cannot end well. */
  lemma FatalBeforeReportFailsBroker(run: seq<State>, events: seq<Event>, i: nat, j: nat)
    requires IsRun(run, events) && i < j < |run|
    requires Level(run[i].channel.published) == PRIORITY_FATAL
    requires !run[i].main.pc.Reported? && run[j].main.pc.Reported?
    ensures var pc := run[j].main.pc;
            && pc.result.Err? && AnyFatal(run[i].channel.requests)
            && FailureText(FirstFatal(run[i].channel.requests)) <= pc.result.error
  {
    RunKeepsInv(run, events, i);
    RunAdvances(run, events, i, j);
    FinalReadSeesEarlierRequests(run, events, i, j);
    ReportNamesFirstFatal(run, events, j);
    var early, asked := run[i].channel.requests, run[j].channel.requests[..run[j].main.pc.readAfter];
    PublishedFatalIsFirst(early);
    FirstFatalOfPrefix(early, asked);
  }

  lemma {:induction false} FirstFatalOfPrefix(early: seq<ShutdownSignal>, asked: seq<ShutdownSignal>)
    requires early <= asked && AnyFatal(early)
    ensures AnyFatal(asked) && FirstFatal(asked) == FirstFatal(early)
  {
    var i :| 0 <= i < |early| && IsFailure(early[i]);
    assert IsFailure(asked[i]);
    if !IsFailure(early[0]) {
      assert early[1..][i - 1] == early[i];
      FirstFatalOfPrefix(early[1..], asked[1..]);
    }
  }

  /** While nothing or only a drain is published and the runtime is not shutting down, both monitors are still there. */
  lemma MonitorsOutliveADrain(run: seq<State>, events: seq<Event>, i: nat)
    requires IsRun(run, events) && i < |run|
    ensures !MustNotWait(run[i].channel.published) && run[i].shared.lifecycle != ShuttingDown ==>
              run[i].runtime.pc != RDone && run[i].storage.pc != SDone
    ensures run[i].runtime.pc == RDone ==> run[i].shared.lifecycle != Running
  {
    RunKeepsInv(run, events, i);
  }

  /** Nothing fatal is ever requested before the storage monitor starts. */
  lemma NoFatalBeforeStorage(run: seq<State>, events: seq<Event>, i: nat)
    requires IsRun(run, events) && i < |run| && run[i].storage.pc == SAbsent
    ensures !AnyFatal(run[i].channel.requests)
  {
    RunKeepsInv(run, events, i);
    if run[i].channel.requests != [] { PublishedFatalIsFirst(run[i].channel.requests); }
  }

  lemma EarlyEndStays(s: State, e: Event, s': State)
    requires Step(s, e, s') && s.main.pc.Aborted? && s.storage.pc == SAbsent
    ensures s'.main.pc.Aborted? && s'.storage.pc == SAbsent
  {
    hide Step, StorageNext, StorageMove, MainNext;
    OnlyBootMovesBoot(s, e, s');
    OnlyStorageMovesStorage(s, e, s');
  }

  /** A boot task that ended before its store was monitored has missed no fatal signal, then or ever after. */
  lemma {:induction false} EarlyEndMissesNothing(run: seq<State>, events: seq<Event>, i: nat, j: nat)
    requires IsRun(run, events) && i <= j < |run| && run[i].main.pc.Aborted? && run[i].storage.pc == SAbsent
    ensures run[j].main.pc.Aborted? && run[j].storage.pc == SAbsent && !AnyFatal(run[j].channel.requests)
    decreases j
  {
    hide Step;
    if i < j {
      EarlyEndMissesNothing(run, events, i, j - 1);
      EarlyEndStays(run[j - 1], events[j - 1], run[j]);
    }
    NoFatalBeforeStorage(run, events, j);
  }

  lemma {:induction false} SawIsSticky(run: seq<State>, events: seq<Event>, i: nat, j: nat)
    requires IsRun(run, events) && i <= j < |run|
    ensures run[i].runtime.saw ==> run[j].runtime.saw
    ensures run[i].storage.saw ==> run[j].storage.saw
    decreases j
  {
    if i < j {
      SawIsSticky(run, events, i, j - 1);
      assert Step(run[j - 1], events[j - 1], run[j]);
    }
  }

  /**
   A failure met at a tick, during a drain or not, is fatal on the channel once the monitor has moved on, for good.
   */
  lemma SeenFailureEscalates(run: seq<State>, events: seq<Event>, i: nat, j: nat)
    requires IsRun(run, events) && i <= j < |run|
    ensures run[i].runtime.saw && run[j].runtime.pc != RMark && run[j].runtime.pc != RReport ==>
              Level(run[j].channel.published) == PRIORITY_FATAL
    ensures run[i].storage.saw && run[j].storage.pc != SMark && run[j].storage.pc != SReport ==>
              Level(run[j].channel.published) == PRIORITY_FATAL
  {
    SawIsSticky(run, events, i, j);
    RunKeepsInv(run, events, j);
  }

  // ----- how many moves of its own a task needs, whatever the others do in between

  datatype Task = RuntimeMonitorTask | StorageMonitorTask | BootTaskItself

  predicate By(task: Task, e: Event) {
    match task
    case RuntimeMonitorTask => e.RuntimeMoves? || e.RuntimeChannelCloses?
    case StorageMonitorTask => e.StorageStarts? || e.StorageMoves? || e.StorageChannelCloses?
    case BootTaskItself =>
      || e.StartupReturns? || e.StartupFails? || e.DomainsAttach? || e.StartupCompletes? || e.ShutdownBegins?
      || e.WaitFails? || e.StorageRetryFails? || e.MainMoves? || e.GraceDecides? || e.MainWakes?
      || e.MainChannelCloses? || e.GraceElapses? || e.DomainsDetach? || e.CleanupEnds? || e.AbortEnds?
  }

  /** The moves a task makes from state i to state j. */
  function Moves(task: Task, events: seq<Event>, i: nat, j: nat): nat
    requires i <= j <= |events|
  {
    if i == j then 0 else Moves(task, events, i, j - 1) + if By(task, events[j - 1]) then 1 else 0
  }

  /** A tick of the runtime monitor that has met a failure, or is about to read a flag that never falls. */
  predicate RuntimeCommitted(s: State) {
    || Level(s.channel.published) == PRIORITY_FATAL
    || s.runtime.pc == RReport || s.runtime.pc == RMark || (s.runtime.pc == RTickFatal && s.shared.fatalFlag)
  }

  /** Committed, or in a tick that will look at a failed domain if it is still attached by then. */
  predicate RuntimeWillReport(s: State) {
    || RuntimeCommitted(s)
    || (s.shared.domains == Serving(true) && (s.runtime.pc == RTickFatal || s.runtime.pc == RTickFailed))
  }

  /** Its moves until a fatal signal is published. */
  function RuntimeLeft(s: State): nat {
    if Level(s.channel.published) == PRIORITY_FATAL then 0
    else match s.runtime.pc
      case RReport => 1
      case RMark => 2
      case RTickFailed => 3
      case _ => if s.shared.fatalFlag then 2 else 4
  }

  lemma RuntimeLeftFalls(s: State, e: Event, s': State)
    requires Inv(s) && Step(s, e, s') && RuntimeWillReport(s) && (RuntimeCommitted(s) || !e.DomainsDetach?)
    ensures RuntimeWillReport(s') && (RuntimeCommitted(s) ==> RuntimeCommitted(s'))
    ensures RuntimeLeft(s') == 0 || RuntimeLeft(s') + (if By(RuntimeMonitorTask, e) then 1 else 0) <= RuntimeLeft(s)
  {
    hide Step, Inv, Requested;
    StepKeepsInv(s, e, s');
    LevelIsBounded(s');
    RequestRaises(s.channel, ActorFailure);
    OnlyRuntimeMovesRuntime(s, e, s');
    if s.shared.domains == Serving(true) && !e.DomainsDetach? { OnlyDetachRemovesFailure(s, e, s'); }
  }

  // ----- one task per event, and what it leaves alone

  lemma EventHasOneTask(s: State, e: Event)
    ensures RuntimeEnabled(s, e) ==> By(RuntimeMonitorTask, e)
    ensures StorageEnabled(s, e) ==> By(StorageMonitorTask, e)
    ensures MainEnabled(s, e) ==> By(BootTaskItself, e)
    ensures OsEnabled(s, e) || WorldEnabled(s, e) ==> forall task :: !By(task, e)
    ensures forall task, other :: By(task, e) && By(other, e) ==> task == other
  {
    hide RuntimeEnabled, StorageEnabled, MainEnabled;
    EventOfEnabled(s, e);
  }

  lemma EventOfEnabled(s: State, e: Event)
    ensures RuntimeEnabled(s, e) ==> By(RuntimeMonitorTask, e)
    ensures StorageEnabled(s, e) ==> By(StorageMonitorTask, e)
    ensures MainEnabled(s, e) ==> By(BootTaskItself, e)
  {
  }

  lemma OsKeeps(s: State, e: Event)
    requires OsEnabled(s, e)
    ensures var s' := OsNext(s, e);
            s'.shared == s.shared && s'.runtime == s.runtime && s'.storage == s.storage && s'.main == s.main
  {
  }

  lemma RuntimeKeeps(s: State, e: Event)
    requires RuntimeEnabled(s, e)
    ensures var s' := RuntimeNext(s, e);
            s'.storage == s.storage && s'.main == s.main && s'.shared.domains == s.shared.domains
  {
    hide Requested, RuntimeMove;
  }

  lemma StorageKeeps(s: State, e: Event)
    requires StorageEnabled(s, e)
    ensures var s' := StorageNext(s, e);
            s'.runtime == s.runtime && s'.main == s.main && s'.shared.domains == s.shared.domains
  {
    hide Requested, StorageMove;
  }

  lemma MainKeeps(s: State, e: Event)
    requires MainEnabled(s, e)
    ensures var s' := MainNext(s, e); s'.runtime == s.runtime && s'.storage == s.storage
    ensures s.shared.domains == Serving(true) && !e.DomainsDetach? ==>
              MainNext(s, e).shared.domains == Serving(true)
  {
    hide MainMove;
  }

  lemma WorldKeeps(s: State, e: Event)
    requires WorldEnabled(s, e)
    ensures var s' := WorldNext(s, e);
            && s'.runtime == s.runtime && s'.storage == s.storage
            && (s'.main == s.main || s'.main == s.main.(timerFired := true))
            && (s.shared.domains == Serving(true) ==> s'.shared.domains == Serving(true))
  {
  }

  lemma OnlyDetachRemovesFailure(s: State, e: Event, s': State)
    requires Step(s, e, s') && s.shared.domains == Serving(true) && !e.DomainsDetach?
    ensures s'.shared.domains == Serving(true)
  {
    hide OsNext, RuntimeNext, StorageNext, MainNext, WorldNext;
    hide OsEnabled, RuntimeEnabled, StorageEnabled, MainEnabled, WorldEnabled;
    if OsEnabled(s, e) { OsKeeps(s, e); }
    if RuntimeEnabled(s, e) { RuntimeKeeps(s, e); }
    if StorageEnabled(s, e) { StorageKeeps(s, e); }
    if MainEnabled(s, e) { MainKeeps(s, e); }
    if WorldEnabled(s, e) { WorldKeeps(s, e); }
  }

  lemma OnlyRuntimeMovesRuntime(s: State, e: Event, s': State)
    requires Step(s, e, s')
    ensures if By(RuntimeMonitorTask, e) then RuntimeEnabled(s, e) && s' == RuntimeNext(s, e)
            else s'.runtime == s.runtime
  {
    hide By, OsNext, RuntimeNext, StorageNext, MainNext, WorldNext;
    hide OsEnabled, RuntimeEnabled, StorageEnabled, MainEnabled, WorldEnabled;
    EventHasOneTask(s, e);
    if OsEnabled(s, e) { OsKeeps(s, e); }
    if StorageEnabled(s, e) { StorageKeeps(s, e); }
    if MainEnabled(s, e) { MainKeeps(s, e); }
    if WorldEnabled(s, e) { WorldKeeps(s, e); }
  }

  lemma OnlyStorageMovesStorage(s: State, e: Event, s': State)
    requires Step(s, e, s')
    ensures if By(StorageMonitorTask, e) then StorageEnabled(s, e) && s' == StorageNext(s, e)
            else s'.storage == s.storage
  {
    hide By, OsNext, RuntimeNext, StorageNext, MainNext, WorldNext;
    hide OsEnabled, RuntimeEnabled, StorageEnabled, MainEnabled, WorldEnabled;
    EventHasOneTask(s, e);
    if OsEnabled(s, e) { OsKeeps(s, e); }
    if RuntimeEnabled(s, e) { RuntimeKeeps(s, e); }
    if MainEnabled(s, e) { MainKeeps(s, e); }
    if WorldEnabled(s, e) { WorldKeeps(s, e); }
  }

  lemma OnlyBootMovesBoot(s: State, e: Event, s': State)
    requires Step(s, e, s')
    ensures if By(BootTaskItself, e) then MainEnabled(s, e) && s' == MainNext(s, e)
            else s'.main == s.main || s'.main == s.main.(timerFired := true)
  {
    hide By, OsNext, RuntimeNext, StorageNext, MainNext, WorldNext;
    hide OsEnabled, RuntimeEnabled, StorageEnabled, MainEnabled, WorldEnabled;
    EventHasOneTask(s, e);
    if OsEnabled(s, e) { OsKeeps(s, e); }
    if RuntimeEnabled(s, e) { RuntimeKeeps(s, e); }
    if StorageEnabled(s, e) { StorageKeeps(s, e); }
    if WorldEnabled(s, e) { WorldKeeps(s, e); }
  }

  /**
   A tick that meets a failure makes the channel fatal within four moves of the runtime monitor, two if the
   failure was already marked, three once it is looking at the domains, whatever the other tasks do meanwhile
   short of detaching the domains before it has looked.
   */
  lemma {:induction false} RuntimeFailureIsReported(run: seq<State>, events: seq<Event>, i: nat, j: nat)
    requires IsRun(run, events) && i <= j < |run| && RuntimeWillReport(run[i])
    requires RuntimeCommitted(run[i]) || forall k | i <= k < j :: !events[k].DomainsDetach?
    ensures RuntimeWillReport(run[j]) && (RuntimeCommitted(run[i]) ==> RuntimeCommitted(run[j]))
    ensures Level(run[j].channel.published) == PRIORITY_FATAL
            || RuntimeLeft(run[j]) + Moves(RuntimeMonitorTask, events, i, j) <= RuntimeLeft(run[i])
    ensures Moves(RuntimeMonitorTask, events, i, j) >= RuntimeLeft(run[i]) ==>
              Level(run[j].channel.published) == PRIORITY_FATAL
    decreases j
  {
    hide Step, Inv, RuntimeWillReport, RuntimeCommitted;
    if i < j {
      RuntimeFailureIsReported(run, events, i, j - 1);
      RunKeepsInv(run, events, j - 1);
      RuntimeLeftFalls(run[j - 1], events[j - 1], run[j]);
      OneStepAdvances(run, events, j - 1);
      RunKeepsInv(run, events, j);
      LevelIsBounded(run[j]);
    }
    LeftIsZero(run[j]);
  }

  lemma DomainTick(s: State, e: Event)
    requires s.runtime.pc == RTickFailed && e.RuntimeMoves? && RuntimeEnabled(s, e)
    ensures RuntimeNext(s, e).runtime.pc == RMark <==> s.shared.domains == Serving(true)
  {
  }

  /**
   When the runtime monitor looks at the domains it acts exactly on a failed one still attached, and the channel
   is then fatal within three of its moves, that look included, even if the domains are detached right after.
   */
  lemma DomainFailureIsReported(run: seq<State>, events: seq<Event>, i: nat, j: nat)
    requires IsRun(run, events) && i < j < |run|
    requires run[i].runtime.pc == RTickFailed && events[i].RuntimeMoves?
    ensures run[i + 1].runtime.pc == RMark <==> run[i].shared.domains == Serving(true)
    ensures run[i].shared.domains == Serving(true) && Moves(RuntimeMonitorTask, events, i, j) >= 3 ==>
              Level(run[j].channel.published) == PRIORITY_FATAL
  {
    hide Step, RuntimeNext, RuntimeEnabled;
    OnlyRuntimeMovesRuntime(run[i], events[i], run[i + 1]);
    DomainTick(run[i], events[i]);
    MovesFromNext(RuntimeMonitorTask, events, i, j);
    if run[i].shared.domains == Serving(true) {
      RuntimeFailureIsReported(run, events, i + 1, j);
    }
  }

  lemma LevelIsBounded(s: State)
    requires Inv(s)
    ensures Level(s.channel.published) <= PRIORITY_FATAL
  {
    AcceptedIsBounded(s.channel.requests);
  }

  lemma LeftIsZero(s: State)
    ensures RuntimeLeft(s) == 0 <==> Level(s.channel.published) == PRIORITY_FATAL
  {
  }

  /** The storage monitor after a tick that read an unhealthy lease. */
  predicate StorageWillReport(s: State) {
    Level(s.channel.published) == PRIORITY_FATAL || s.storage.pc == SReport || s.storage.pc == SMark
  }

  function StorageLeft(s: State): nat {
    if Level(s.channel.published) == PRIORITY_FATAL then 0 else if s.storage.pc == SReport then 1 else 2
  }

  lemma StorageLeftFalls(s: State, e: Event, s': State)
    requires Inv(s) && Step(s, e, s') && StorageWillReport(s)
    ensures StorageWillReport(s')
    ensures StorageLeft(s') == 0 || StorageLeft(s') + (if By(StorageMonitorTask, e) then 1 else 0) <= StorageLeft(s)
  {
    hide Step, Inv, Requested;
    StepKeepsInv(s, e, s');
    LevelIsBounded(s');
    RequestRaises(s.channel, StorageLeaseFailure);
    OnlyStorageMovesStorage(s, e, s');
  }

  lemma {:induction false} StorageReportIsDue(run: seq<State>, events: seq<Event>, i: nat, j: nat)
    requires IsRun(run, events) && i <= j < |run| && StorageWillReport(run[i])
    ensures StorageWillReport(run[j])
    ensures Level(run[j].channel.published) == PRIORITY_FATAL
            || StorageLeft(run[j]) + Moves(StorageMonitorTask, events, i, j) <= StorageLeft(run[i])
    decreases j
  {
    hide Step, Inv, StorageWillReport;
    if i < j {
      StorageReportIsDue(run, events, i, j - 1);
      RunKeepsInv(run, events, j - 1);
      StorageLeftFalls(run[j - 1], events[j - 1], run[j]);
      OneStepAdvances(run, events, j - 1);
      RunKeepsInv(run, events, j);
      LevelIsBounded(run[j]);
    }
  }

  lemma {:induction false} MovesFromNext(task: Task, events: seq<Event>, i: nat, j: nat)
    requires i < j <= |events|
    ensures Moves(task, events, i, j) == Moves(task, events, i + 1, j) + if By(task, events[i]) then 1 else 0
    decreases j
  {
    if i + 1 < j { MovesFromNext(task, events, i, j - 1); }
  }

  lemma UnhealthyTick(s: State, e: Event)
    requires s.storage.pc == STickStore && s.shared.storeAlive && !s.shared.leaseHealthy
    requires e.StorageMoves? && StorageEnabled(s, e)
    ensures StorageNext(s, e).storage.pc == SMark
  {
  }

  /**
   A lease that is unhealthy when the storage monitor looks at it is fatal on the channel within three of its moves.
   */
  lemma LeaseFailureIsReported(run: seq<State>, events: seq<Event>, i: nat, j: nat)
    requires IsRun(run, events) && i < j < |run|
    requires run[i].storage.pc == STickStore && run[i].shared.storeAlive && !run[i].shared.leaseHealthy
    requires events[i].StorageMoves?
    requires Moves(StorageMonitorTask, events, i, j) >= 3
    ensures Level(run[j].channel.published) == PRIORITY_FATAL
  {
    hide Step, StorageNext, StorageEnabled;
    OnlyStorageMovesStorage(run[i], events[i], run[i + 1]);
    UnhealthyTick(run[i], events[i]);
    StorageReportIsDue(run, events, i + 1, j);
    MovesFromNext(StorageMonitorTask, events, i, j);
  }

  /** Where the boot task is between the signal it acts on and its report, counted in moves still to make. */
  function BootLeft(m: Main): nat {
    match m.pc
    case Closing(_) => 11
    case GraceCheck(_) => 10
    case GraceTop(_) => if m.seen >= 2 then 5 else 9 - 2 * m.seen
    case GraceSelect(_) => if m.seen >= 1 then 6 else 8
    case Effective(_) => 5
    case Stopping(_, _, _, _) => 4
    case Cleaning(_, _, _, _) => 3
    case Releasing(_) => 2
    case FinalRead(_, _) => 1
    case _ => 0
  }

  predicate Leaving(m: Main) {
    !m.pc.Booting? && !m.pc.Aborting? && !m.pc.Aborted?
  }

  lemma BootMoveFalls(s: State)
    requires MainInv(s.main, s.channel, s.shared) && s.channel.version <= Level(s.channel.published)
    requires MainEnabled(s, MainMoves)
    ensures var m := MainNext(s, MainMoves).main; Leaving(m) && BootLeft(m) < BootLeft(s.main)
  {
    hide Report, ImmediateCloseReason, ReasonFor, Publish;
  }

  lemma BootLeftFalls(s: State, e: Event)
    requires Inv(s) && MainEnabled(s, e) && Leaving(s.main)
    ensures Leaving(MainNext(s, e).main) && BootLeft(MainNext(s, e).main) < BootLeft(s.main)
  {
    hide Publish, Accepted, MainMove, ReasonFor;
    AcceptedIsBounded(s.channel.requests);
    if e.MainMoves? { BootMoveFalls(s); }
  }

  /** However often it is woken, the boot task is done eleven moves after it starts closing. */
  lemma {:induction false} BootEndsWithinElevenMoves(run: seq<State>, events: seq<Event>, i: nat, j: nat)
    requires IsRun(run, events) && i <= j < |run| && Leaving(run[i].main)
    ensures Leaving(run[j].main)
    ensures Moves(BootTaskItself, events, i, j) + BootLeft(run[j].main) <= BootLeft(run[i].main) <= 11
    ensures Moves(BootTaskItself, events, i, j) >= BootLeft(run[i].main) ==> run[j].main.pc.Reported?
    decreases j
  {
    hide Inv, Step, MainNext, MainEnabled;
    if i < j {
      BootEndsWithinElevenMoves(run, events, i, j - 1);
      RunKeepsInv(run, events, j - 1);
      OnlyBootMovesBoot(run[j - 1], events[j - 1], run[j]);
      if By(BootTaskItself, events[j - 1]) { BootLeftFalls(run[j - 1], events[j - 1]); }
    }
  }

  /**
   The close decision of every run: at least as urgent as the signal that started it, closed with the
   planned-drain reason exactly when it still drains, and with the grace cut short only by urgency.
   */
  lemma CloseDecision(run: seq<State>, events: seq<Event>, i: nat)
    requires IsRun(run, events) && i < |run|
    requires run[i].main.pc.Stopping? || run[i].main.pc.Cleaning?
    ensures var pc := run[i].main.pc;
            && Priority(pc.incoming) <= Priority(pc.signal)
            && pc.reason == ReasonFor(pc.signal)
            && (pc.reason == PlannedDrain <==> RequiresDrain(pc.signal))
            && (run[i].main.graceDue && !run[i].main.timerFired ==>
                  !RequiresDrain(pc.signal) && Level(run[i].channel.published) > PRIORITY_GRACEFUL)
  {
    RunKeepsInv(run, events, i);
  }

  /** The drain wait wakes at most twice, because a third change would already have been urgent. */
  lemma GraceWakesAtMostTwice(run: seq<State>, events: seq<Event>, i: nat)
    requires IsRun(run, events) && i < |run|
    ensures var pc := run[i].main.pc;
            pc.GraceTop? || pc.GraceSelect? || pc.Effective? || pc.Stopping? ==> run[i].main.wakeups <= 2
    ensures run[i].channel.version <= 3
  {
    RunKeepsInv(run, events, i);
    AcceptedIsBounded(run[i].channel.requests);
  }

  /**
   No receiver ever finds the channel closed: not a monitor, not the drain wait, not the wait for a signal and not
   the wait between storage attempts, because each waits while it or the coordinator still holds a sender.
   */
  lemma ChannelNeverCloses(run: seq<State>, events: seq<Event>, i: nat)
    requires IsRun(run, events) && i < |run|
    ensures !RuntimeEnabled(run[i], RuntimeChannelCloses) && !StorageEnabled(run[i], StorageChannelCloses)
    ensures !MainEnabled(run[i], MainChannelCloses)
    ensures !MainEnabled(run[i], WaitFails) && !MainEnabled(run[i], StorageRetryFails)
  {
    RunKeepsInv(run, events, i);
  }
}
