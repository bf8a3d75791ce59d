/**
 The shutdown protocol as a step relation over its four tasks: the OS signal task, the runtime monitor,
 the storage lease monitor (src/api/broker_shutdown.rs) and the boot task that waits, drains and tears
 down (src/api/broker.rs). Every atomic access is its own step and any task may move next.
 */
module ShutdownProtocol {
  import opened Basics
  import opened ShutdownSignals

  // ----- texts shared with the boot sequence

  datatype CloseReason = PlannedDrain | Immediate(text: string)

  function ImmediateCloseReason(signal: ShutdownSignal): string
    requires !RequiresDrain(signal)
  {
    match signal
    case CtrlC => "broker shutdown"
    case ActorFailure => "broker stopped after fatal domain actor failure"
    case StorageLeaseFailure => "broker stopped after losing the Midge writer lease"
  }

  /** The reason sessions are closed with: the configured drain text exactly for a signal that drains. */
  function ReasonFor(signal: ShutdownSignal): CloseReason {
    if RequiresDrain(signal) then PlannedDrain else Immediate(ImmediateCloseReason(signal))
  }

  function FailureText(signal: ShutdownSignal): string
    requires IsFailure(signal)
  {
    if signal == ActorFailure then "fatal domain actor failure" else "primary Midge writer lease became unhealthy"
  }

  /** How the boot task reports, given the last signal it reads and how cleanup went. */
  function Report(signal: ShutdownSignal, cleanup: Result<(), string>): Result<(), string> {
    if IsFailure(signal) then
      match cleanup
      case Ok(_) => Err(FailureText(signal))
      case Err(error) => Err(FailureText(signal) + "; broker cleanup failed: " + error)
    else cleanup
  }

  // ----- state

  datatype Lifecycle = Running | Draining | ShuttingDown

  datatype OsTask = Listening | Stopped

  datatype RuntimeMonitor =
    | RTop | RSelect | RChanged | RDrain(leave: bool)
    | RTickFatal | RTickFailed | RMark | RReport
    | RTickDraining | RAskDrain | RTickShutting | RDone

  datatype StorageMonitor =
    | SAbsent | STop | SSelect | SChanged
    | STickShutting | STickStore | SMark | SReport | SDrain | SDone

  datatype BootTask =
    | Booting
    | Closing(incoming: ShutdownSignal)
    | GraceCheck(incoming: ShutdownSignal)
    | GraceTop(incoming: ShutdownSignal)
    | GraceSelect(incoming: ShutdownSignal)
    | Effective(incoming: ShutdownSignal)
    | Stopping(incoming: ShutdownSignal, signal: ShutdownSignal, reason: CloseReason, preempted: bool)
    | Cleaning(incoming: ShutdownSignal, signal: ShutdownSignal, reason: CloseReason, preempted: bool)
    | Releasing(signal: ShutdownSignal)
    | FinalRead(signal: ShutdownSignal, cleanup: Result<(), string>)
    | Reported(result: Result<(), string>, cleanup: Result<(), string>, readAfter: nat)
    | Aborting | Aborted

  /**
   The watch channel: latest value, number of changes, and every request so far as history. The count of
   live senders is in the state.
   */
  datatype Channel = Channel(requests: seq<ShutdownSignal>, published: Option<ShutdownSignal>, version: nat)

  /** The domain actors as the runtime handle sees them: attached and ready, or not there at all. */
  datatype Domains = NoDomains | Serving(failed: bool)

  /** Flags shared through the runtime handle, and the store behind its weak reference. */
  datatype Shared = Shared(
    lifecycle: Lifecycle, startupComplete: bool, storageReady: bool,
    fatalFlag: bool, domains: Domains, leaseHealthy: bool, storeAlive: bool)

  // `seen` is the last channel version a receiver marked as seen; `saw` records that a tick met a failure.
  datatype RuntimeTask = RuntimeTask(pc: RuntimeMonitor, seen: nat, saw: bool)
  datatype StorageTask = StorageTask(pc: StorageMonitor, seen: nat, saw: bool)
  datatype Main = Main(pc: BootTask, seen: nat, wakeups: nat, graceDue: bool, timerFired: bool)

  // `senders` counts the live clones of the sending half: the coordinator's, and one in each task that may request.
  datatype State = State(
    channel: Channel, senders: int, shared: Shared,
    os: OsTask, runtime: RuntimeTask, storage: StorageTask, main: Main)

  datatype Event =
    // OS signal task; a closed stream ends the task after its request
    | Interrupt | Terminate(closed: bool)
    // monitors: one atomic action, with the branch a select takes
    | RuntimeMoves(tick: bool) | RuntimeChannelCloses
    | StorageStarts | StorageMoves(tick: bool) | StorageChannelCloses
    // boot task
    | StartupReturns | StartupFails | DomainsAttach | StartupCompletes | ShutdownBegins(seen: nat)
    | WaitFails | StorageRetryFails
    | MainMoves | GraceDecides(due: bool) | MainWakes | MainChannelCloses | GraceElapses
    | DomainsDetach | CleanupEnds(cleanup: Result<(), string>) | AbortEnds
    // environment
    | TimerFires | DomainFails | FailureMarked | LeaseChanges(healthy: bool) | OperatorDrains

  ghost predicate Init(s: State) {
    && s.channel == Channel([], None, 0) && s.senders == 3
    && s.shared.lifecycle == Running && !s.shared.startupComplete && s.shared.storeAlive
    && s.shared.domains == NoDomains && !s.shared.fatalFlag
    && s.os == Listening
    && s.runtime == RuntimeTask(RTop, 0, false)
    && s.storage == StorageTask(SAbsent, 0, false)
    && s.main == Main(Booting, 0, 0, false, false)
  }

  function Requested(c: Channel, signal: ShutdownSignal): Channel {
    var offered := Offer(c.published, signal);
    Channel(c.requests + [signal], offered, c.version + if offered != c.published then 1 else 0)
  }

  function DrainBegun(shared: Shared): Shared {
    if shared.lifecycle == Running then shared.(lifecycle := Draining) else shared
  }

  predicate MustNotWait(published: Option<ShutdownSignal>) {
    published.Some? && !RequiresDrain(published.value)
  }

  // ----- the OS signal task

  predicate OsEnabled(s: State, e: Event) {
    s.os == Listening && (e.Interrupt? || e.Terminate?)
  }

  function OsNext(s: State, e: Event): State
    requires OsEnabled(s, e)
  {
    match e
    case Interrupt => s.(channel := Requested(s.channel, CtrlC), os := Stopped, senders := s.senders - 1)
    case Terminate(closed) =>
      var asked := s.(channel := Requested(s.channel, Sigterm));
      if closed then asked.(os := Stopped, senders := s.senders - 1) else asked
  }

  // ----- the runtime monitor

  predicate RuntimeEnabled(s: State, e: Event) {
    match e
    case RuntimeMoves(tick) =>
      s.runtime.pc != RDone && (s.runtime.pc == RSelect && !tick ==> s.channel.version != s.runtime.seen)
    case RuntimeChannelCloses => s.runtime.pc == RSelect && s.senders == 0
    case _ => false
  }

  /** Where a runtime monitor step leaves the monitor, given what it reads. */
  function RuntimeMove(t: RuntimeTask, tick: bool, c: Channel, shared: Shared): RuntimeTask {
    match t.pc
    case RTop => t.(pc := if MustNotWait(c.published) then RDrain(true) else RSelect)
    case RSelect => if tick then t.(pc := RTickFatal) else t.(pc := RChanged, seen := c.version)
    case RChanged => t.(pc := if c.published.Some? then RDrain(MustNotWait(c.published)) else RTop)
    case RDrain(leave) => t.(pc := if leave then RDone else RTop)
    case RTickFatal => if shared.fatalFlag then t.(pc := RReport, saw := true) else t.(pc := RTickFailed)
    case RTickFailed =>
      if shared.domains == Serving(true) then t.(pc := RMark, saw := true) else t.(pc := RTickDraining)
    case RMark => t.(pc := RReport)
    case RReport => t.(pc := RDrain(true))
    case RTickDraining => t.(pc := if shared.lifecycle == Draining then RAskDrain else RTickShutting)
    case RAskDrain => t.(pc := RTickShutting)
    case RTickShutting => t.(pc := if shared.lifecycle == ShuttingDown then RDone else RTop)
    case RDone => t
  }

  function RuntimeNext(s: State, e: Event): State
    requires RuntimeEnabled(s, e)
  {
    if e.RuntimeChannelCloses?
    then s.(shared := DrainBegun(s.shared), runtime := s.runtime.(pc := RDone), senders := s.senders - 1)
    else
      var task := RuntimeMove(s.runtime, e.tick, s.channel, s.shared);
      var moved := s.(runtime := task, senders := if task.pc == RDone then s.senders - 1 else s.senders);
      match s.runtime.pc
      case RDrain(_) => moved.(shared := DrainBegun(s.shared))
      case RMark => moved.(shared := s.shared.(fatalFlag := true))
      case RReport => moved.(channel := Requested(s.channel, ActorFailure))
      case RAskDrain => moved.(channel := Requested(s.channel, DrainRequested))
      case _ => moved
  }

  // ----- the storage lease monitor

  predicate StorageEnabled(s: State, e: Event) {
    match e
    case StorageStarts => s.storage.pc == SAbsent && s.main.pc == Booting
    case StorageMoves(tick) =>
      && s.storage.pc != SAbsent && s.storage.pc != SDone
      && (s.storage.pc == SSelect && !tick ==> s.channel.version != s.storage.seen)
    case StorageChannelCloses => s.storage.pc == SSelect && s.senders == 0
    case _ => false
  }

  function StorageMove(t: StorageTask, tick: bool, c: Channel, shared: Shared): StorageTask {
    match t.pc
    case STop => t.(pc := if MustNotWait(c.published) then SDone else SSelect)
    case SSelect => if tick then t.(pc := STickShutting) else t.(pc := SChanged, seen := c.version)
    case SChanged => t.(pc := if MustNotWait(c.published) then SDone else STop)
    case STickShutting => t.(pc := if shared.lifecycle == ShuttingDown then SDone else STickStore)
    case STickStore =>
      if !shared.storeAlive then t.(pc := SDone)
      else if shared.leaseHealthy then t.(pc := STop)
      else t.(pc := SMark, saw := true)
    case SMark => t.(pc := SReport)
    case SReport => t.(pc := SDrain)
    case SDrain => t.(pc := SDone)
    case _ => t
  }

  function StorageNext(s: State, e: Event): State
    requires StorageEnabled(s, e)
  {
    if e.StorageStarts?
    then s.(storage := s.storage.(pc := STop), shared := s.shared.(storageReady := true), senders := s.senders + 1)
    else if e.StorageChannelCloses? then s.(storage := s.storage.(pc := SDone), senders := s.senders - 1)
    else
      var task := StorageMove(s.storage, e.tick, s.channel, s.shared);
      var moved := s.(storage := task, senders := if task.pc == SDone then s.senders - 1 else s.senders);
      match s.storage.pc
      case SMark => moved.(shared := s.shared.(storageReady := false))
      case SReport => moved.(channel := Requested(s.channel, StorageLeaseFailure))
      case SDrain => moved.(shared := DrainBegun(s.shared))
      case _ => moved
  }

  // ----- the boot task: wait, drain, close, clean up, report

  predicate MainEnabled(s: State, e: Event) {
    var pc := s.main.pc;
    match e
    case StartupReturns => pc == Booting && s.storage.pc == SAbsent
    case StartupFails => pc == Booting
    case DomainsAttach => pc == Booting && s.storage.pc != SAbsent && s.shared.domains.NoDomains?
    case StartupCompletes => pc == Booting && s.shared.domains.Serving?
    case ShutdownBegins(seen) =>
      pc == Booting && s.channel.published.Some? && s.main.seen <= seen <= s.channel.version
    case WaitFails => pc == Booting && s.channel.published.None? && s.senders == 0
    case StorageRetryFails => pc == Booting && s.channel.published.None? && s.senders == 0
    case MainMoves => pc.Closing? || pc.GraceTop? || pc.Effective? || pc.Stopping? || pc.FinalRead?
    case GraceDecides(due) => pc.GraceCheck? && (due ==> s.shared.startupComplete)
    case MainWakes => pc.GraceSelect? && s.channel.version != s.main.seen
    case MainChannelCloses => pc.GraceSelect? && s.senders == 0
    case GraceElapses => pc.GraceSelect? && s.main.timerFired
    case DomainsDetach => pc.Cleaning? || (pc == Aborting && s.shared.domains.Serving?)
    case CleanupEnds(_) => pc.Releasing?
    case AbortEnds => pc == Aborting && s.shared.domains.NoDomains?
    case _ => false
  }

  /** The atomic moves that read the channel or act on what was read. */
  function MainMove(pc: BootTask, c: Channel): BootTask
    requires pc.Closing? || pc.GraceTop? || pc.Effective? || pc.Stopping? || pc.FinalRead?
  {
    match pc
    case Closing(incoming) =>
      if RequiresDrain(incoming) then GraceCheck(incoming)
      else Stopping(incoming, incoming, Immediate(ImmediateCloseReason(incoming)), false)
    case GraceTop(incoming) =>
      if MustNotWait(c.published)
      then Stopping(incoming, c.published.value, Immediate(ImmediateCloseReason(c.published.value)), true)
      else GraceSelect(incoming)
    case Effective(incoming) =>
      var effective := if c.published.Some? then c.published.value else incoming;
      Stopping(incoming, effective,
               if RequiresDrain(effective) then PlannedDrain else Immediate(ImmediateCloseReason(effective)), false)
    case Stopping(incoming, signal, reason, preempted) => Cleaning(incoming, signal, reason, preempted)
    case FinalRead(signal, cleanup) =>
      var last := if c.published.Some? then c.published.value else signal;
      Reported(Report(last, cleanup), cleanup, |c.requests|)
  }

  function MainNext(s: State, e: Event): State
    requires MainEnabled(s, e)
  {
    var m := s.main;
    match e
    case StartupReturns => s.(main := m.(pc := Aborted), senders := s.senders - 1)
    case DomainsAttach => s.(shared := s.shared.(domains := Serving(false)))
    case StartupCompletes => s.(shared := s.shared.(startupComplete := true))
    case ShutdownBegins(seen) => s.(main := m.(pc := Closing(s.channel.published.value), seen := seen))
    case StartupFails => s.(main := m.(pc := Aborting), shared := s.shared.(lifecycle := ShuttingDown))
    case WaitFails => s.(main := m.(pc := Aborted), senders := s.senders - 1)
    case StorageRetryFails => s.(main := m.(pc := Aborting), shared := s.shared.(lifecycle := ShuttingDown))
    case AbortEnds =>
      s.(main := m.(pc := Aborted), shared := s.shared.(storeAlive := false), senders := s.senders - 1)
    case GraceDecides(due) =>
      s.(main := m.(graceDue := due, timerFired := false, wakeups := 0,
                    pc := if due then GraceTop(m.pc.incoming) else Effective(m.pc.incoming)))
    case MainWakes =>
      s.(main := m.(pc := GraceTop(m.pc.incoming), seen := s.channel.version, wakeups := m.wakeups + 1))
    case MainChannelCloses => s.(main := m.(pc := Effective(m.pc.incoming)))
    case GraceElapses => s.(main := m.(pc := Effective(m.pc.incoming)))
    case DomainsDetach =>
      s.(shared := s.shared.(domains := NoDomains),
         main := if m.pc.Cleaning? then m.(pc := Releasing(m.pc.signal)) else m)
    case CleanupEnds(cleanup) =>
      s.(main := m.(pc := FinalRead(m.pc.signal, cleanup)), shared := s.shared.(storeAlive := false))
    case MainMoves =>
      var moved := s.(main := m.(pc := MainMove(m.pc, s.channel)));
      if m.pc.Closing? && RequiresDrain(m.pc.incoming) then moved.(shared := DrainBegun(s.shared))
      else if m.pc.Stopping? then moved.(shared := s.shared.(lifecycle := ShuttingDown))
      else if m.pc.FinalRead? then moved.(senders := s.senders - 1)
      else moved
  }

  // ----- the environment: a domain fails only while attached, the lease may come and go

  predicate WorldEnabled(s: State, e: Event) {
    || e.TimerFires? || e.LeaseChanges? || e.OperatorDrains?
    || (e.DomainFails? && s.shared.domains.Serving?) || (e.FailureMarked? && s.storage.pc != SAbsent)
  }

  function WorldNext(s: State, e: Event): State
    requires WorldEnabled(s, e)
  {
    match e
    case TimerFires => s.(main := s.main.(timerFired := true))
    case DomainFails => s.(shared := s.shared.(domains := Serving(true)))
    case FailureMarked => s.(shared := s.shared.(fatalFlag := true))
    case LeaseChanges(healthy) => s.(shared := s.shared.(leaseHealthy := healthy))
    case OperatorDrains => s.(shared := DrainBegun(s.shared))
  }

  predicate Step(s: State, e: Event, s': State) {
    || (OsEnabled(s, e) && s' == OsNext(s, e))
    || (RuntimeEnabled(s, e) && s' == RuntimeNext(s, e))
    || (StorageEnabled(s, e) && s' == StorageNext(s, e))
    || (MainEnabled(s, e) && s' == MainNext(s, e))
    || (WorldEnabled(s, e) && s' == WorldNext(s, e))
  }

  /** A run: states joined by steps of any task, starting with nothing requested. */
  ghost predicate IsRun(run: seq<State>, events: seq<Event>) {
    && |run| == |events| + 1
    && Init(run[0])
    && forall i | 0 <= i < |events| :: Step(run[i], events[i], run[i + 1])
  }

  // ----- what a task may rely on: others only add requests and push the lifecycle forward

  ghost predicate ChannelInv(c: Channel) {
    c.published == Publish(c.requests) && c.version == Accepted(c.requests)
  }

  function Rank(lifecycle: Lifecycle): nat {
    match lifecycle case Running => 0 case Draining => 1 case ShuttingDown => 2
  }

  ghost predicate Advances(s: State, s': State) {
    && s.channel.requests <= s'.channel.requests
    && s.channel.version <= s'.channel.version
    && Level(s.channel.published) <= Level(s'.channel.published)
    && Rank(s.shared.lifecycle) <= Rank(s'.shared.lifecycle)
    && (s.shared.fatalFlag ==> s'.shared.fatalFlag)
  }

  /** A step leaves the channel alone or makes one request on it. */
  ghost predicate ChannelMoves(c: Channel, c': Channel) {
    c' == c || exists signal :: c' == Requested(c, signal)
  }

  lemma ChannelKept(c: Channel, c': Channel)
    requires ChannelInv(c) && ChannelMoves(c, c')
    ensures ChannelInv(c')
  {
  }

  // ----- what each task keeps true of itself

  ghost predicate RuntimeInv(t: RuntimeTask, c: Channel, shared: Shared) {
    && t.seen <= c.version
    && (t.pc == RDone ==> shared.lifecycle != Running && (MustNotWait(c.published) || shared.lifecycle == ShuttingDown))
    && (t.pc == RDrain(true) ==> MustNotWait(c.published))
    && (t.pc == RMark || t.pc == RReport ==> t.saw)
    && (t.saw && t.pc != RMark && t.pc != RReport ==> Level(c.published) == PRIORITY_FATAL)
  }

  ghost predicate StorageInv(t: StorageTask, c: Channel, shared: Shared) {
    && t.seen <= c.version
    && (t.pc == SDone ==> MustNotWait(c.published) || shared.lifecycle == ShuttingDown)
    && (t.pc == SDrain ==> MustNotWait(c.published))
    && (t.pc == SMark || t.pc == SReport ==> t.saw)
    && (t.saw && t.pc != SMark && t.pc != SReport ==> Level(c.published) == PRIORITY_FATAL)
  }

  ghost predicate MainInv(m: Main, c: Channel, shared: Shared) {
    && m.seen <= c.version
    && match m.pc {
         case Booting => m.wakeups == 0 && !m.graceDue
         case Closing(incoming) => Priority(incoming) <= Level(c.published) && m.wakeups == 0 && !m.graceDue
         case GraceCheck(incoming) => Planned(incoming, c, shared)
         case GraceTop(incoming) => Planned(incoming, c, shared) && m.graceDue && m.wakeups <= m.seen && m.wakeups <= 2
         case GraceSelect(incoming) => Planned(incoming, c, shared) && m.graceDue && m.wakeups <= m.seen <= 1
         case Effective(incoming) => Planned(incoming, c, shared) && (m.graceDue ==> m.timerFired) && m.wakeups <= 2
         case Stopping(incoming, signal, reason, preempted) => Decided(m, c)
         case Cleaning(incoming, signal, reason, preempted) => Decided(m, c) && shared.lifecycle == ShuttingDown
         case Releasing(signal) => Priority(signal) <= Level(c.published) && shared.lifecycle == ShuttingDown
         case FinalRead(signal, cleanup) => Priority(signal) <= Level(c.published) && shared.lifecycle == ShuttingDown
         case Reported(result, cleanup, readAfter) =>
           && shared.lifecycle == ShuttingDown && 0 < readAfter <= |c.requests|
           && Publish(c.requests[..readAfter]).Some?
           && result == Report(Publish(c.requests[..readAfter]).value, cleanup)
         case Aborting => shared.lifecycle == ShuttingDown
         case Aborted => true
       }
  }

  ghost predicate Planned(incoming: ShutdownSignal, c: Channel, shared: Shared) {
    RequiresDrain(incoming) && Priority(incoming) <= Level(c.published) && shared.lifecycle != Running
  }

  /** The close decision: no less urgent than asked, reason and signal agree, and only urgency cuts a grace short. */
  ghost predicate Decided(m: Main, c: Channel)
    requires m.pc.Stopping? || m.pc.Cleaning?
  {
    && Priority(m.pc.incoming) <= Priority(m.pc.signal) <= Level(c.published)
    && m.pc.reason == ReasonFor(m.pc.signal)
    && (m.pc.preempted ==> RequiresDrain(m.pc.incoming) && !RequiresDrain(m.pc.signal))
    && (m.graceDue && !m.pc.preempted ==> m.timerFired)
    && m.wakeups <= 2
  }

  /** Who holds a sender: the coordinator until the boot task returns, and every task that has not. */
  function Holders(s: State): nat {
    (if s.main.pc.Reported? || s.main.pc.Aborted? then 0 else 1) + (if s.os == Listening then 1 else 0)
    + (if s.runtime.pc == RDone then 0 else 1) + (if s.storage.pc == SAbsent || s.storage.pc == SDone then 0 else 1)
  }

  ghost predicate Inv(s: State) {
    && ChannelInv(s.channel) && s.senders == Holders(s)
    && RuntimeInv(s.runtime, s.channel, s.shared)
    && StorageInv(s.storage, s.channel, s.shared)
    && MainInv(s.main, s.channel, s.shared)
    && (!s.shared.storeAlive ==> s.shared.lifecycle == ShuttingDown)
    && EarlyInv(s)
  }

  /** Before the storage monitor starts nothing can have failed; a boot task that ended later began the shutdown. */
  ghost predicate EarlyInv(s: State) {
    && (s.storage.pc == SAbsent ==>
          && s.shared.domains == NoDomains && !s.shared.fatalFlag && !s.runtime.saw
          && Level(s.channel.published) < PRIORITY_FATAL)
    && (s.main.pc == Aborted && s.storage.pc != SAbsent ==> s.shared.lifecycle == ShuttingDown)
  }

  lemma RuntimeStable(s: State, s': State)
    requires Advances(s, s') && s'.runtime == s.runtime && RuntimeInv(s.runtime, s.channel, s.shared)
    ensures RuntimeInv(s'.runtime, s'.channel, s'.shared)
  {
  }

  lemma StorageStable(s: State, s': State)
    requires Advances(s, s') && s'.storage == s.storage && StorageInv(s.storage, s.channel, s.shared)
    ensures StorageInv(s'.storage, s'.channel, s'.shared)
  {
  }

  lemma MainStable(s: State, s': State)
    requires Advances(s, s') && MainInv(s.main, s.channel, s.shared)
    requires s'.main == s.main || s'.main == s.main.(timerFired := true)
    ensures MainInv(s'.main, s'.channel, s'.shared)
  {
    if s.main.pc.Reported? {
      assert s.channel.requests[..s.main.pc.readAfter] == s'.channel.requests[..s.main.pc.readAfter];
    }
  }

  lemma OsStep(s: State, e: Event)
    requires OsEnabled(s, e)
    ensures var s' := OsNext(s, e);
            && Advances(s, s') && ChannelMoves(s.channel, s'.channel)
            && s'.shared == s.shared && s'.runtime == s.runtime && s'.storage == s.storage && s'.main == s.main
  {
  }

  /** A request adds itself to the history and never lowers anything; afterwards the level is at least its own. */
  lemma RequestRaises(c: Channel, signal: ShutdownSignal)
    ensures var c' := Requested(c, signal);
            && c.requests <= c'.requests && c.version <= c'.version
            && Level(c.published) <= Level(c'.published) && Priority(signal) <= Level(c'.published) <= PRIORITY_FATAL
  {
  }

  lemma RuntimeStep(s: State, e: Event)
    requires RuntimeInv(s.runtime, s.channel, s.shared) && RuntimeEnabled(s, e) && s.senders == Holders(s)
    ensures var s' := RuntimeNext(s, e);
            && Advances(s, s') && ChannelMoves(s.channel, s'.channel) && s'.storage == s.storage && s'.main == s.main
            && s'.shared.storeAlive == s.shared.storeAlive && RuntimeInv(s'.runtime, s'.channel, s'.shared)
  {
    hide Requested;
    RequestRaises(s.channel, ActorFailure);
    RequestRaises(s.channel, DrainRequested);
  }

  lemma StorageStep(s: State, e: Event)
    requires StorageInv(s.storage, s.channel, s.shared) && StorageEnabled(s, e) && s.senders == Holders(s)
    requires !s.shared.storeAlive ==> s.shared.lifecycle == ShuttingDown
    ensures var s' := StorageNext(s, e);
            && Advances(s, s') && ChannelMoves(s.channel, s'.channel) && s'.runtime == s.runtime && s'.main == s.main
            && s'.shared.storeAlive == s.shared.storeAlive && StorageInv(s'.storage, s'.channel, s'.shared)
  {
    hide Requested;
    RequestRaises(s.channel, StorageLeaseFailure);
  }

  lemma MainMoveStep(s: State)
    requires ChannelInv(s.channel) && MainInv(s.main, s.channel, s.shared) && MainEnabled(s, MainMoves)
    ensures var s' := MainNext(s, MainMoves);
            Advances(s, s') && s'.shared.storeAlive == s.shared.storeAlive && MainInv(s'.main, s'.channel, s'.shared)
  {
    AcceptedIsBounded(s.channel.requests);
    assert s.channel.requests[..|s.channel.requests|] == s.channel.requests;
  }

  predicate InGrace(e: Event) {
    e.GraceDecides? || e.MainWakes? || e.MainChannelCloses? || e.GraceElapses?
  }

  lemma GraceStep(s: State, e: Event)
    requires ChannelInv(s.channel) && MainInv(s.main, s.channel, s.shared) && MainEnabled(s, e) && InGrace(e)
    requires 0 < s.senders
    ensures var s' := MainNext(s, e); s'.shared == s.shared && MainInv(s'.main, s'.channel, s'.shared)
  {
    hide Publish, Accepted, ReasonFor, MainMove;
    AcceptedIsBounded(s.channel.requests);
  }

  predicate InCleanup(e: Event) {
    e.DomainsDetach? || e.CleanupEnds? || e.AbortEnds?
  }

  lemma CleanupStep(s: State, e: Event)
    requires MainInv(s.main, s.channel, s.shared) && MainEnabled(s, e) && InCleanup(e)
    ensures var s' := MainNext(s, e);
            && Advances(s, s') && MainInv(s'.main, s'.channel, s'.shared)
            && s'.shared.lifecycle == s.shared.lifecycle == ShuttingDown
  {
    hide Publish, ReasonFor, MainMove, Planned;
  }

  lemma StartupStep(s: State, e: Event)
    requires MainInv(s.main, s.channel, s.shared) && MainEnabled(s, e)
    requires !InGrace(e) && !InCleanup(e) && !e.MainMoves?
    ensures var s' := MainNext(s, e);
            && Advances(s, s') && MainInv(s'.main, s'.channel, s'.shared)
            && s'.shared.storeAlive == s.shared.storeAlive
  {
    hide Publish, ReasonFor, MainMove, Planned, Decided;
  }

  lemma MainStep(s: State, e: Event)
    requires ChannelInv(s.channel) && MainInv(s.main, s.channel, s.shared) && MainEnabled(s, e)
             && s.senders == Holders(s)
    requires !s.shared.storeAlive ==> s.shared.lifecycle == ShuttingDown
    ensures var s' := MainNext(s, e);
            && Advances(s, s') && s'.channel == s.channel && s'.runtime == s.runtime && s'.storage == s.storage
            && (!s'.shared.storeAlive ==> s'.shared.lifecycle == ShuttingDown)
            && MainInv(s'.main, s'.channel, s'.shared)
  {
    hide MainInv, MainMove, ChannelInv;
    if e.MainMoves? { MainMoveStep(s); }
    else if InGrace(e) { GraceStep(s, e); }
    else if InCleanup(e) { CleanupStep(s, e); }
    else { StartupStep(s, e); }
  }

  lemma WorldStep(s: State, e: Event)
    requires WorldEnabled(s, e)
    ensures var s' := WorldNext(s, e);
            && Advances(s, s') && s'.channel == s.channel && ChannelMoves(s.channel, s'.channel)
            && s'.runtime == s.runtime && s'.storage == s.storage
            && (s'.main == s.main || s'.main == s.main.(timerFired := true))
            && s'.shared.storeAlive == s.shared.storeAlive
  {
  }

  /** Every task guarantees what the others rely on. */
  lemma StepAdvances(s: State, e: Event, s': State)
    requires Inv(s) && Step(s, e, s')
    ensures Advances(s, s') && ChannelMoves(s.channel, s'.channel)
    ensures !s'.shared.storeAlive ==> s'.shared.lifecycle == ShuttingDown
    ensures s'.runtime == s.runtime || RuntimeInv(s'.runtime, s'.channel, s'.shared)
    ensures s'.storage == s.storage || StorageInv(s'.storage, s'.channel, s'.shared)
    ensures s'.main == s.main || s'.main == s.main.(timerFired := true) || MainInv(s'.main, s'.channel, s'.shared)
  {
    hide OsNext, RuntimeNext, StorageNext, MainNext, WorldNext, RuntimeInv, StorageInv, MainInv, EarlyInv;
    hide OsEnabled, RuntimeEnabled, StorageEnabled, MainEnabled, WorldEnabled, Holders;
    if OsEnabled(s, e) { OsStep(s, e); }
    if RuntimeEnabled(s, e) { RuntimeStep(s, e); }
    if StorageEnabled(s, e) { StorageStep(s, e); }
    if MainEnabled(s, e) { MainStep(s, e); }
    if WorldEnabled(s, e) { WorldStep(s, e); }
  }

  lemma RuntimeCountsSenders(s: State, e: Event)
    requires s.senders == Holders(s) && RuntimeEnabled(s, e)
    ensures RuntimeNext(s, e).senders == Holders(RuntimeNext(s, e))
  {
    hide Requested, MustNotWait, DrainBegun;
  }

  lemma StorageCountsSenders(s: State, e: Event)
    requires s.senders == Holders(s) && StorageEnabled(s, e)
    ensures StorageNext(s, e).senders == Holders(StorageNext(s, e))
  {
    hide Requested, MustNotWait, DrainBegun;
  }

  lemma MainCountsSenders(s: State, e: Event)
    requires s.senders == Holders(s) && MainEnabled(s, e)
    ensures MainNext(s, e).senders == Holders(MainNext(s, e))
  {
    hide ImmediateCloseReason, Report, MustNotWait, DrainBegun;
  }

  /** Every clone of the sender is dropped by the task that holds it, and by no other step. */
  lemma StepCountsSenders(s: State, e: Event, s': State)
    requires s.senders == Holders(s) && Step(s, e, s')
    ensures s'.senders == Holders(s')
  {
    hide RuntimeNext, StorageNext, MainNext, RuntimeEnabled, StorageEnabled, MainEnabled;
    if RuntimeEnabled(s, e) && s' == RuntimeNext(s, e) { RuntimeCountsSenders(s, e); }
    else if StorageEnabled(s, e) && s' == StorageNext(s, e) { StorageCountsSenders(s, e); }
    else if MainEnabled(s, e) && s' == MainNext(s, e) { MainCountsSenders(s, e); }
  }

  /** A request that is not fatal leaves a channel below fatal below fatal. */
  lemma LesserRequest(c: Channel, signal: ShutdownSignal)
    requires !IsFailure(signal)
    ensures Level(c.published) < PRIORITY_FATAL ==> Level(Requested(c, signal).published) < PRIORITY_FATAL
  {
  }

  /** The runtime monitor of a broker without domains meets no failure and requests nothing fatal. */
  lemma EarlyRuntimeStep(s: State, e: Event)
    requires EarlyInv(s) && RuntimeInv(s.runtime, s.channel, s.shared) && RuntimeEnabled(s, e)
    ensures EarlyInv(RuntimeNext(s, e))
  {
    hide Requested, MustNotWait;
    LesserRequest(s.channel, DrainRequested);
  }

  lemma EarlyStorageStep(s: State, e: Event)
    requires EarlyInv(s) && StorageEnabled(s, e)
    ensures EarlyInv(StorageNext(s, e))
  {
    hide Requested, MustNotWait;
  }

  lemma EarlyMainStep(s: State, e: Event)
    requires EarlyInv(s) && MainInv(s.main, s.channel, s.shared) && MainEnabled(s, e) && s.senders == Holders(s)
    ensures EarlyInv(MainNext(s, e))
  {
    hide Publish, ReasonFor, Report, ImmediateCloseReason, Decided, Planned;
  }

  lemma EarlyOtherStep(s: State, e: Event)
    requires EarlyInv(s)
    ensures OsEnabled(s, e) ==> EarlyInv(OsNext(s, e))
    ensures WorldEnabled(s, e) ==> EarlyInv(WorldNext(s, e))
  {
    hide Requested;
    LesserRequest(s.channel, CtrlC);
    LesserRequest(s.channel, Sigterm);
  }

  lemma EarlyStep(s: State, e: Event, s': State)
    requires Inv(s) && Step(s, e, s')
    ensures EarlyInv(s')
  {
    hide EarlyInv, RuntimeInv, MainInv, RuntimeNext, StorageNext, MainNext, RuntimeEnabled, StorageEnabled, MainEnabled;
    hide OsNext, OsEnabled, WorldNext, WorldEnabled;
    EarlyOtherStep(s, e);
    if RuntimeEnabled(s, e) { EarlyRuntimeStep(s, e); }
    if StorageEnabled(s, e) { EarlyStorageStep(s, e); }
    if MainEnabled(s, e) { EarlyMainStep(s, e); }
  }

  lemma StepKeepsInv(s: State, e: Event, s': State)
    requires Inv(s) && Step(s, e, s')
    ensures Advances(s, s') && Inv(s')
  {
    StepAdvances(s, e, s');
    StepCountsSenders(s, e, s');
    EarlyStep(s, e, s');
    ChannelKept(s.channel, s'.channel);
    if s'.runtime == s.runtime { RuntimeStable(s, s'); }
    if s'.storage == s.storage { StorageStable(s, s'); }
    if s'.main == s.main || s'.main == s.main.(timerFired := true) { MainStable(s, s'); }
  }

  lemma StartKeepsInv(s: State)
    requires Init(s)
    ensures Inv(s)
  {
  }

  lemma {:induction false} RunKeepsInv(run: seq<State>, events: seq<Event>, i: nat)
    requires IsRun(run, events) && i < |run|
    ensures Inv(run[i])
  {
    hide Inv, Init, Step;
    if i == 0 {
      StartKeepsInv(run[0]);
    } else {
      RunKeepsInv(run, events, i - 1);
      StepKeepsInv(run[i - 1], events[i - 1], run[i]);
    }
  }
}
