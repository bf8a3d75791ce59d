/**
 Boot and teardown of the broker as a machine over its resources (src/api/broker.rs, with the storage open
 loop of src/api/storage_runtime.rs). Every stage outcome and every arrival of shutdown requests at an await
 is an input, so what is proved holds for all combinations of them.
 */
module BrokerBoot {
  import opened Basics
  import opened ShutdownSignals
  import opened ShutdownProtocol
  import opened ShutdownRuns

  // ----- resources and the order they may be used in

  datatype Listener = Http | Metrics | Tcp
  datatype ListenerState = Idle | Live | Signalled | Joined
  datatype StoreState = Unopened | Open | Shut | ShutFailed
  datatype DomainState = Unattached | Attached | Detached

  /** The store is shut exactly when the attempt said so. */
  function StoreAfter(outcome: Result<(), string>): StoreState {
    if outcome.Ok? then Shut else ShutFailed
  }

  datatype Resources = Resources(
    http: ListenerState, metrics: ListenerState, tcp: ListenerState,
    store: StoreState, opens: nat, shutAttempts: nat, domains: DomainState,
    lifecycle: Lifecycle, startupComplete: bool, closedWith: Option<string>)
  {
    function Of(l: Listener): ListenerState {
      match l case Http => http case Metrics => metrics case Tcp => tcp
    }

    function With(l: Listener, state: ListenerState): Resources {
      match l
      case Http => this.(http := state)
      case Metrics => this.(metrics := state)
      case Tcp => this.(tcp := state)
    }

    /** A listener is spawned once; the TCP one only after domains are attached. */
    function Spawn(l: Listener): Resources
      requires Of(l) == Idle && (l == Tcp ==> domains == Attached)
    {
      With(l, Live)
    }

    /** A stop signal goes once to a live listener, after the runtime has begun shutting down. */
    function Stop(l: Listener): Resources
      requires Of(l) == Live && lifecycle == ShuttingDown
    {
      With(l, Signalled)
    }

    function Join(l: Listener): Resources
      requires Of(l) == Signalled
    {
      With(l, Joined)
    }

    function OpenStore(): Resources
      requires store == Unopened
    {
      this.(store := Open, opens := opens + 1)
    }

    /** One attempt to shut an open engine; it may fail and leave the engine as it was. */
    function TryShut(outcome: Result<(), string>): Resources
      requires store == Open
    {
      this.(store := StoreAfter(outcome), shutAttempts := shutAttempts + 1)
    }

    /** The store is given up only when no listener can reach it any more and domains are detached. */
    function ShutStore(outcome: Result<(), string>): Resources
      requires store == Open && domains != Attached
      requires forall l :: Of(l) == Idle || Of(l) == Joined
    {
      TryShut(outcome)
    }

    /** The store was opened at most once, and its shutdown attempted once exactly when it is no longer open. */
    predicate StoreCounted() {
      && opens == (if store == Unopened then 0 else 1)
      && shutAttempts == (if store == Unopened || store == Open then 0 else 1)
    }

    /** Nothing is left to do: each spawned listener has ended, and an opened store was given its one shutdown. */
    predicate Released() {
      && (forall l :: Of(l) == Idle || Of(l) == Joined)
      && store != Open && shutAttempts == opens && domains != Attached
    }
  }

  const FRESH := Resources(Idle, Idle, Idle, Unopened, 0, 0, Unattached, Running, false, None)

  // ----- outcomes the environment decides

  datatype Attempt =
    | Opened
    | OpenFailed(retryable: bool, error: string)
    | ProvisionFailed(error: string)
    | TaskFailed(error: string)

  /** Where the store lives. Only persistent storage is retried; each mode first prepares its open options. */
  datatype StorageMode =
    | InMemory(prepared: Result<(), string>)
    | Persistent(prepared: Result<(), string>)
    | InvalidMode(reason: string)

  datatype Script = Script(
    config: Result<(), string>, runtime: Result<(), string>,
    httpSpawn: Result<(), string>, httpReady: Result<(), string>,
    metricsSpawn: Result<(), string>, metricsReady: Result<(), string>,
    storage: StorageMode, attempts: seq<Attempt>, engineClose: Result<(), string>,
    domains: Result<(), string>,
    tcpEnabled: bool, tcpSpawn: Result<(), string>, tcpReady: Result<(), string>,
    graceAwaits: nat, drainReason: string,
    httpJoin: Result<(), string>, metricsJoin: Result<(), string>, tcpJoin: Result<(), string>,
    storeShutdown: Result<(), string>)

  /** What other tasks do while the boot task awaits: requests they make, and how many senders go as tasks end. */
  datatype Arrival = Arrival(requests: seq<ShutdownSignal>, endedTasks: nat)

  /** How a wait on the channel ends: with a signal, with the channel closed, or not yet. */
  datatype Waited = Published(signal: ShutdownSignal) | Closed | NotYet

  datatype BootStage<T> = Continue(value: T) | ShutdownRequested | Failed(error: string) | Waiting

  /** `StillWaiting`: no signal and no storage lease has come yet, so the call has not returned. */
  datatype BootOutcome = Returned(result: Result<(), string>) | StillWaiting

  // ----- combining cleanup errors

  function ErrorsOf(results: seq<Result<(), string>>): seq<string> {
    if results == [] then []
    else (if results[0].Err? then [results[0].error] else []) + ErrorsOf(results[1..])
  }

  function JoinTexts(texts: seq<string>): string {
    if texts == [] then ""
    else if |texts| == 1 then texts[0]
    else texts[0] + "; " + JoinTexts(texts[1..])
  }

  function CombineCleanupResults(results: seq<Result<(), string>>): Result<(), string> {
    var errors := ErrorsOf(results);
    if errors == [] then Ok(()) else Err(JoinTexts(errors))
  }

  lemma {:induction false} JoinKeepsEveryText(texts: seq<string>, i: nat)
    requires i < |texts|
    ensures Contains(JoinTexts(texts), texts[i])
  {
    if |texts| == 1 {
      assert JoinTexts(texts) == "" + texts[0] + "";
    } else if i == 0 {
      assert JoinTexts(texts) == "" + texts[0] + ("; " + JoinTexts(texts[1..]));
    } else {
      JoinKeepsEveryText(texts[1..], i - 1);
      var before, after :| JoinTexts(texts[1..]) == before + texts[i] + after;
      assert JoinTexts(texts) == (texts[0] + "; " + before) + texts[i] + after;
    }
  }

  lemma {:induction false} ErrorsAreCollected(results: seq<Result<(), string>>)
    ensures ErrorsOf(results) == [] <==> forall i | 0 <= i < |results| :: results[i].Ok?
    ensures forall i | 0 <= i < |results| && results[i].Err? :: results[i].error in ErrorsOf(results)
  {
    if results != [] {
      ErrorsAreCollected(results[1..]);
      assert forall i | 0 < i < |results| :: results[i] == results[1..][i - 1];
    }
  }

  /** Cleanup succeeds only if every part did, and a failure mentions each part that failed. */
  lemma CombinedMentionsEveryError(results: seq<Result<(), string>>)
    ensures CombineCleanupResults(results).Ok? <==> forall i | 0 <= i < |results| :: results[i].Ok?
    ensures forall i | 0 <= i < |results| && results[i].Err? ::
              CombineCleanupResults(results).Err? && Contains(CombineCleanupResults(results).error, results[i].error)
  {
    ErrorsAreCollected(results);
    var errors := ErrorsOf(results);
    forall i | 0 <= i < |results| && results[i].Err? ensures Contains(JoinTexts(errors), results[i].error) {
      var k :| 0 <= k < |errors| && errors[k] == results[i].error;
      JoinKeepsEveryText(errors, k);
    }
  }

  /** A startup error with whatever cleanup added after it. */
  function Appended(error: string, note: string, cleanup: Result<(), string>): string {
    match cleanup
    case Ok(_) => error
    case Err(cleanupError) => error + note + cleanupError
  }

  function ContextCleanup(script: Script, tcp: bool): Result<(), string> {
    var tcpJoin := if tcp then script.tcpJoin else Ok(());
    var listeners := CombineCleanupResults([tcpJoin, script.httpJoin, script.metricsJoin]);
    match (listeners, script.storeShutdown)
    case (Ok(_), Ok(_)) => Ok(())
    case (Err(error), Ok(_)) => Err(error)
    case (Ok(_), Err(error)) => Err(error)
    case (Err(listenerError), Err(runtimeError)) =>
      Err("listener cleanup failed: " + listenerError + "; runtime cleanup failed: " + runtimeError)
  }

  lemma FailedShutdownIsReported(script: Script, tcp: bool)
    ensures script.storeShutdown.Err? ==> ContextCleanup(script, tcp).Err?
  {
  }

  function ReasonText(script: Script, signal: ShutdownSignal): string {
    if RequiresDrain(signal) then script.drainReason else ImmediateCloseReason(signal)
  }

  // ----- the boot task

  class Broker {
    const script: Script
    const trigger: ShutdownTrigger
    var res: Resources
    var arrivals: seq<Arrival>
    var coordinator: bool
    var monitoring: bool
    var otherSenders: nat
    var seen: nat
    ghost var firstError: Option<string>

    /** The coordinator, and with it one sender of the channel, lives as long as the boot call. */
    ghost predicate Valid()
      reads this, trigger
    {
      trigger.Valid() && seen <= trigger.version && coordinator && res.StoreCounted() && FatalHasSource()
    }

    /** A fatal signal comes from the storage monitor or from a failed domain, and both come after an open store. */
    ghost predicate FatalHasSource()
      reads this`monitoring, trigger
    {
      AnyFatal(trigger.requests) ==> monitoring
    }

    /** Live senders of the channel: the coordinator's own and those of the tasks it started. */
    function Senders(): nat
      reads this`coordinator, this`otherSenders
    {
      otherSenders + if coordinator then 1 else 0
    }

    /** What a started broker holds: both standby listeners, the store, and TCP only behind attached domains. */
    ghost predicate Started()
      reads this
    {
      && res.http == Live && res.metrics == Live && res.store == Open
      && (res.tcp == Idle || (res.tcp == Live && res.domains == Attached))
      && res.domains != Detached
    }

    constructor (script: Script, arrivals: seq<Arrival>, otherSenders: nat)
      ensures Valid() && fresh(trigger) && trigger.requests == []
      ensures this.script == script && this.arrivals == arrivals && res == FRESH && firstError == None && !monitoring
    {
      this.script, this.arrivals, this.otherSenders, coordinator := script, arrivals, otherSenders, true;
      seen, monitoring := 0, false;
      res, firstError := FRESH, None;
      trigger := new ShutdownTrigger();
    }

    /**
     Other tasks run: the next batch of requests reaches the channel, and some of the tasks end. While nothing is
     monitored no task requests a fatal signal.
     */
    method Await()
      requires trigger.Valid()
      modifies this`arrivals, this`otherSenders, trigger
      ensures trigger.Valid() && old(trigger.requests) <= trigger.requests && otherSenders <= old(otherSenders)
      ensures Level(old(trigger.current)) <= Level(trigger.current) && old(trigger.version) <= trigger.version
      ensures |arrivals| == if old(arrivals) == [] then 0 else old(|arrivals|) - 1
      ensures old(FatalHasSource()) ==> FatalHasSource()
    {
      if arrivals != [] {
        var batch, ended := arrivals[0].requests, arrivals[0].endedTasks;
        arrivals, otherSenders := arrivals[1..], if ended <= otherSenders then otherSenders - ended else 0;
        for i := 0 to |batch|
          invariant arrivals == old(arrivals)[1..] && otherSenders <= old(otherSenders)
          invariant trigger.Valid() && old(trigger.requests) <= trigger.requests
          invariant Level(old(trigger.current)) <= Level(trigger.current) && old(trigger.version) <= trigger.version
          invariant old(FatalHasSource()) ==> FatalHasSource()
        {
          if monitoring || !IsFailure(batch[i]) {
            var _ := trigger.Request(batch[i]);
          }
        }
      }
    }

    /** Stop and join what startup had spawned, keeping the startup error in front of any cleanup error. */
    method AbortStartup(metrics: bool, error: string) returns (reported: string)
      requires Valid() && res.http == Live && res.metrics == (if metrics then Live else Idle)
      modifies this`res, this`arrivals, this`otherSenders, trigger
      ensures Valid() && old(trigger.requests) <= trigger.requests
      ensures res == old(res).(lifecycle := ShuttingDown, http := Joined, metrics := if metrics then Joined else Idle)
      ensures error <= reported
      ensures reported == Appended(error, "; startup listener cleanup failed: ",
                                   CombineCleanupResults(
                                     [script.httpJoin, if metrics then script.metricsJoin else Ok(())]))
    {
      res := res.(lifecycle := ShuttingDown);
      res := res.Stop(Http);
      if metrics { res := res.Stop(Metrics); }
      Await();
      res := res.Join(Http);
      if metrics { res := res.Join(Metrics); }
      var cleanup := CombineCleanupResults([script.httpJoin, if metrics then script.metricsJoin else Ok(())]);
      reported := Appended(error, "; startup listener cleanup failed: ", cleanup);
    }

    /** The metrics listener, behind a live HTTP one; a failure stops and joins both. */
    method StartMetrics() returns (stage: BootStage<()>)
      requires Valid() && res == FRESH.(http := Live) && firstError == None
      modifies this`res, this`arrivals, this`otherSenders, this`firstError, trigger
      ensures Valid() && old(trigger.requests) <= trigger.requests
      ensures stage.Continue? || stage.Failed?
      ensures stage.Continue? ==> res == FRESH.(http := Live, metrics := Live) && firstError == None
      ensures stage.Failed? ==>
                && res.Released() && res.store == Unopened && res.closedWith.None?
                && firstError.Some? && firstError.value <= stage.error
    {
      hide Appended, CombineCleanupResults, Publish, Accepted;
      Await();
      if script.metricsSpawn.Err? {
        firstError := Some(script.metricsSpawn.error);
        var reported := AbortStartup(false, script.metricsSpawn.error);
        return Failed(reported);
      }
      res := res.Spawn(Metrics);
      Await();
      if script.metricsReady.Err? {
        var error := "Metrics listener failed to start: " + script.metricsReady.error;
        firstError := Some(error);
        var reported := AbortStartup(true, error);
        return Failed(reported);
      }
      return Continue(());
    }

    method StartListeners() returns (stage: BootStage<()>)
      requires Valid() && res == FRESH && firstError == None
      modifies this`res, this`arrivals, this`otherSenders, this`firstError, trigger
      ensures Valid() && old(trigger.requests) <= trigger.requests
      ensures stage.Continue? || stage.Failed?
      ensures stage.Continue? ==> res == FRESH.(http := Live, metrics := Live) && firstError == None
      ensures stage.Failed? ==>
                && res.Released() && res.store == Unopened && res.closedWith.None?
                && firstError.Some? && firstError.value <= stage.error
    {
      hide Appended, CombineCleanupResults, Publish, Accepted;
      Await();
      if script.httpSpawn.Err? {
        firstError := Some(script.httpSpawn.error);
        return Failed(script.httpSpawn.error);
      }
      res := res.Spawn(Http);
      Await();
      if script.httpReady.Err? {
        var error := "WebSocket listener failed to start: " + script.httpReady.error;
        firstError := Some(error);
        var reported := AbortStartup(false, error);
        return Failed(reported);
      }
      stage := StartMetrics();
    }

    /** An engine opened under a published signal is closed again, and a close that fails is the startup error. */
    method CloseCancelled() returns (stage: BootStage<()>)
      requires Valid() && res.store == Open && trigger.current.Some? && firstError == None
      modifies this`res, this`firstError
      ensures Valid() && res == old(res).TryShut(script.engineClose)
      ensures if script.engineClose.Ok? then stage.ShutdownRequested? && firstError == None
              else stage == Failed(script.engineClose.error) && firstError == Some(script.engineClose.error)
    {
      res := res.TryShut(script.engineClose);
      if script.engineClose.Err? {
        firstError := Some(script.engineClose.error);
        return Failed(script.engineClose.error);
      }
      return ShutdownRequested;
    }

    /** One attempt to open the store. `Waiting` asks for another; any engine not handed on is closed here. */
    method OpenOnce(attempt: Attempt, retries: bool) returns (stage: BootStage<()>)
      requires Valid() && res.store == Unopened && firstError == None
      modifies this`res, this`arrivals, this`otherSenders, this`firstError, trigger
      ensures Valid() && old(trigger.requests) <= trigger.requests
      ensures StoreHandled(stage, old(res))
      ensures stage.Continue? ==> attempt.Opened? && trigger.current.None?
      ensures stage.Waiting? ==> retries && attempt.OpenFailed? && attempt.retryable
    {
      hide Publish, Accepted, AnyFatal;
      Await();
      if attempt.TaskFailed? {
        firstError := Some(attempt.error);
        return Failed(attempt.error);
      }
      if attempt.Opened? || attempt.ProvisionFailed? {
        res := res.OpenStore();
      }
      if trigger.current.Some? {
        if attempt.OpenFailed? {
          return ShutdownRequested;
        }
        stage := CloseCancelled();
        return;
      }
      match attempt {
        case Opened => return Continue(());
        case OpenFailed(retryable, error) =>
          if retries && retryable {
            return Waiting;
          }
          firstError := Some(error);
          return Failed(error);
        case ProvisionFailed(error) =>
          res := res.TryShut(script.engineClose);
          firstError := Some(error);
          return Failed(Appended(error, "; Midge cleanup after provisioning failure failed: ", script.engineClose));
      }
    }

    /** What opening the store leaves behind: the open store on success, and otherwise no engine left open. */
    ghost predicate StoreHandled(stage: BootStage<()>, before: Resources)
      requires before.store == Unopened
      reads this, trigger
    {
      && (stage.Continue? ==> res == before.OpenStore())
      && (!stage.Continue? ==> res == before || res == before.OpenStore().TryShut(script.engineClose))
      && (stage.ShutdownRequested? ==> res.store != ShutFailed && trigger.current.Some?)
      && (stage.Waiting? ==> res == before)
      && (if stage.Failed? then firstError.Some? && firstError.value <= stage.error else firstError == None)
    }

    /** The retry loop of persistent storage: it looks for a signal before each attempt and during each pause. */
    method OpenWithRetry() returns (stage: BootStage<()>)
      requires Valid() && res.store == Unopened && firstError == None
      modifies this`res, this`arrivals, this`otherSenders, this`firstError, trigger
      ensures Valid() && old(trigger.requests) <= trigger.requests
      ensures StoreHandled(stage, old(res))
      ensures stage.Continue? ==> trigger.current.None?
      ensures stage.Waiting? ==> trigger.current.None? && forall k | 0 <= k < |script.attempts| ::
                                   script.attempts[k].OpenFailed? && script.attempts[k].retryable
    {
      for k := 0 to |script.attempts|
        invariant Valid() && old(trigger.requests) <= trigger.requests && res == old(res) && firstError == None
        invariant forall i | 0 <= i < k :: script.attempts[i].OpenFailed? && script.attempts[i].retryable
      {
        if trigger.current.Some? {
          return ShutdownRequested;
        }
        stage := OpenOnce(script.attempts[k], true);
        if !stage.Waiting? {
          return;
        }
        var waited := WaitForRetry();
        match waited {
          case Closed => assert false;
          case Published(_) => return ShutdownRequested;
          case NotYet =>
        }
      }
      return if trigger.current.Some? then ShutdownRequested else Waiting;
    }

    /**
     Storage in each of its modes. Nothing is opened once a signal has been seen; a store handed on was opened
     with no signal published; and in memory the one attempt decides.
     */
    method OpenStorageStage() returns (stage: BootStage<()>)
      requires Valid() && res.store == Unopened && firstError == None
      modifies this`res, this`arrivals, this`otherSenders, this`firstError, trigger
      ensures Valid() && old(trigger.requests) <= trigger.requests
      ensures StoreHandled(stage, old(res))
      ensures old(trigger.current).Some? ==> stage.ShutdownRequested? && res == old(res)
      ensures stage.Continue? ==> trigger.current.None?
      ensures stage.Waiting? ==> trigger.current.None? && !script.storage.InvalidMode?
      ensures stage.Waiting? && script.storage.InMemory? ==> script.attempts == []
    {
      hide Publish, Accepted;
      if trigger.current.Some? {
        return ShutdownRequested;
      }
      match script.storage {
        case InvalidMode(reason) =>
          firstError := Some(reason);
          return Failed(reason);
        case InMemory(prepared) =>
          if prepared.Err? {
            firstError := Some(prepared.error);
            return Failed(prepared.error);
          }
          if script.attempts == [] {
            return Waiting;
          }
          stage := OpenOnce(script.attempts[0], false);
        case Persistent(prepared) =>
          Await();
          if prepared.Err? {
            firstError := Some(prepared.error);
            return Failed(prepared.error);
          }
          stage := OpenWithRetry();
      }
    }

    /**
     The drain wait. It ends early only on an urgent signal and otherwise lasts the whole grace; two changes
     of the channel already make the signal urgent, so it wakes at most twice.
     */
    method DrainGrace(signal: ShutdownSignal)
      returns (escalated: Option<ShutdownSignal>, ghost waited: nat, ghost wakeups: nat)
      requires Valid() && RequiresDrain(signal) && Priority(signal) <= Level(trigger.current)
      modifies this`arrivals, this`otherSenders, trigger
      ensures Valid() && old(trigger.requests) <= trigger.requests
      ensures Priority(signal) <= Level(trigger.current)
      ensures escalated.Some? ==> escalated == trigger.current && !RequiresDrain(escalated.value)
      ensures escalated.None? ==> waited == script.graceAwaits
      ensures wakeups <= 2
    {
      var remaining, mark := script.graceAwaits, seen;
      waited, wakeups := 0, 0;
      while remaining > 0
        invariant Valid() && old(trigger.requests) <= trigger.requests
        invariant Priority(signal) <= Level(trigger.current)
        invariant waited + remaining == script.graceAwaits
        invariant wakeups <= mark <= trigger.version && wakeups <= 2
        decreases remaining, 3 - mark
      {
        AcceptedIsBounded(trigger.requests);
        if trigger.current.Some? && !RequiresDrain(trigger.current.value) {
          return trigger.current, waited, wakeups;
        }
        if trigger.version != mark {
          mark, wakeups := trigger.version, wakeups + 1;
        } else {
          Await();
          remaining, waited := remaining - 1, waited + 1;
        }
      }
      return None, waited, wakeups;
    }

    /** The drain decision: never less urgent than the signal that asked, with the reason that goes with the answer. */
    method SessionCloseReason(signal: ShutdownSignal)
      returns (reason: string, effective: ShutdownSignal, ghost waited: nat)
      requires Valid() && Priority(signal) <= Level(trigger.current)
      modifies this`res, this`arrivals, this`otherSenders, trigger
      ensures Valid() && old(trigger.requests) <= trigger.requests
      ensures Priority(signal) <= Priority(effective) <= Level(trigger.current)
      ensures if RequiresDrain(signal) then Some(effective) == trigger.current else effective == signal
      ensures reason == ReasonText(script, effective)
      ensures res == if RequiresDrain(signal) && old(res.lifecycle) == Running
                     then old(res).(lifecycle := Draining) else old(res)
      ensures RequiresDrain(effective) && res.startupComplete ==> waited == script.graceAwaits
    {
      waited := 0;
      if !RequiresDrain(signal) {
        return ImmediateCloseReason(signal), signal, waited;
      }
      if res.lifecycle == Running {
        res := res.(lifecycle := Draining);
      }
      if res.startupComplete {
        var escalated, lasted, _ := DrainGrace(signal);
        waited := lasted;
        if escalated.Some? {
          return ImmediateCloseReason(escalated.value), escalated.value, waited;
        }
      }
      effective := if trigger.current.Some? then trigger.current.value else signal;
      if !RequiresDrain(effective) {
        return ImmediateCloseReason(effective), effective, waited;
      }
      return script.drainReason, effective, waited;
    }

    /** Stop signals to every live listener, then all of them joined. */
    method StopAndJoinListeners(tcp: bool)
      requires Valid() && res.lifecycle == ShuttingDown
      requires res.http == Live && res.metrics == Live && (tcp ==> res.tcp == Live)
      modifies this`res, this`arrivals, this`otherSenders, trigger
      ensures Valid() && old(trigger.requests) <= trigger.requests
      ensures Level(old(trigger.current)) <= Level(trigger.current)
      ensures res == old(res).(http := Joined, metrics := Joined, tcp := if tcp then Joined else old(res.tcp))
    {
      hide Publish, Accepted;
      if tcp { res := res.Stop(Tcp); }
      res := res.Stop(Http);
      res := res.Stop(Metrics);
      Await();
      if tcp { res := res.Join(Tcp); }
      res := res.Join(Http);
      res := res.Join(Metrics);
    }

    /** Close sessions, stop and join every listener, detach domains and give the store its shutdown, in that order. */
    method ShutdownContext(reason: string) returns (cleanup: Result<(), string>)
      requires Valid() && Started()
      modifies this`res, this`arrivals, this`otherSenders, trigger
      ensures Valid() && old(trigger.requests) <= trigger.requests
      ensures res.Released() && res.store == StoreAfter(script.storeShutdown) && res.closedWith == Some(reason)
      ensures res.http == Joined && res.metrics == Joined && (res.tcp == Joined <==> old(res.tcp) == Live)
      ensures cleanup == ContextCleanup(script, old(res.tcp) == Live)
    {
      hide ContextCleanup, Publish, Accepted;
      var tcp := res.tcp == Live;
      res := res.(lifecycle := ShuttingDown, closedWith := Some(reason));
      Await();
      StopAndJoinListeners(tcp);
      if res.domains == Attached {
        res := res.(domains := Detached);
      }
      Await();
      res := res.ShutStore(script.storeShutdown);
      cleanup := ContextCleanup(script, tcp);
    }

    /** `effective` is what the close was decided on, `decidedAt` the length of the request history at that moment. */
    method ShutdownBroker(signal: ShutdownSignal)
      returns (result: Result<(), string>, ghost effective: ShutdownSignal, ghost decidedAt: nat)
      requires Valid() && Started() && Priority(signal) <= Level(trigger.current)
      modifies this`res, this`arrivals, this`otherSenders, trigger
      ensures Valid() && old(trigger.requests) <= trigger.requests
      ensures res.Released() && res.store == StoreAfter(script.storeShutdown)
      ensures res.http == Joined && res.metrics == Joined && (res.tcp == Joined <==> old(res.tcp) == Live)
      ensures Priority(signal) <= Priority(effective) && res.closedWith == Some(ReasonText(script, effective))
      ensures |old(trigger.requests)| <= decidedAt <= |trigger.requests|
      ensures if RequiresDrain(signal) then Publish(trigger.requests[..decidedAt]) == Some(effective)
              else effective == signal
      ensures ReportsFirstFatal(result, ContextCleanup(script, res.tcp == Joined), trigger.requests)
      ensures res.store == ShutFailed ==> result.Err?
    {
      hide Publish, FirstFatal, AnyFatal, ContextCleanup, FailureText, ReasonText, Resources.Released;
      FailedShutdownIsReported(script, res.tcp == Live);
      var reason, answer, _ := SessionCloseReason(signal);
      effective, decidedAt := answer, |trigger.requests|;
      ghost var decidedOn := trigger.requests;
      var cleanup := ShutdownContext(reason);
      assert trigger.requests[..decidedAt] == decidedOn;
      PublishedIsEarliestMaximal(trigger.requests);
      var last := if trigger.current.Some? then trigger.current.value else answer;
      PublishedFatalIsFirst(trigger.requests);
      result := Report(last, cleanup);
    }

    method FailStartedBroker(error: string) returns (reported: string)
      requires Valid() && Started()
      modifies this`res, this`arrivals, this`otherSenders, trigger
      ensures Valid() && old(trigger.requests) <= trigger.requests
      ensures res.Released() && res.store == StoreAfter(script.storeShutdown) && res.closedWith.Some?
      ensures error <= reported
      ensures reported == Appended(error, "; broker startup cleanup failed: ",
                                   ContextCleanup(script, old(res.tcp) == Live))
    {
      var cleanup := ShutdownContext("broker startup failed");
      reported := Appended(error, "; broker startup cleanup failed: ", cleanup);
    }

    /** `wait`: a published signal, or an error once no sender is left that could publish one. */
    method Wait() returns (waited: Waited)
      requires trigger.Valid() && seen <= trigger.version
      modifies this`arrivals, this`otherSenders, this`seen, trigger
      ensures trigger.Valid() && seen <= trigger.version && old(trigger.requests) <= trigger.requests
      ensures old(FatalHasSource()) ==> FatalHasSource()
      ensures waited == if trigger.current.Some? then Published(trigger.current.value)
                        else if Senders() == 0 then Closed else NotYet
    {
      while trigger.current.None? && Senders() > 0 && arrivals != []
        invariant trigger.Valid() && seen <= trigger.version && old(trigger.requests) <= trigger.requests
        invariant old(FatalHasSource()) ==> FatalHasSource()
        decreases |arrivals|
      {
        Await();
        seen := trigger.version;
      }
      if trigger.current.Some? {
        return Published(trigger.current.value);
      }
      return if Senders() == 0 then Closed else NotYet;
    }

    /** The pause between storage attempts: over, or cut short by a signal or by the last sender going. */
    method WaitForRetry() returns (waited: Waited)
      requires trigger.Valid()
      modifies this`arrivals, this`otherSenders, trigger
      ensures trigger.Valid() && old(trigger.requests) <= trigger.requests
      ensures old(FatalHasSource()) ==> FatalHasSource()
      ensures waited == if trigger.current.Some? then Published(trigger.current.value)
                        else if Senders() == 0 then Closed else NotYet
    {
      if trigger.current.None? {
        Await();
      }
      if trigger.current.Some? {
        return Published(trigger.current.value);
      }
      return if Senders() == 0 then Closed else NotYet;
    }

    /** The TCP listener, if configured; a failure tears the started broker down again. */
    method StartTcp() returns (stage: BootStage<()>)
      requires Valid() && Started() && res.domains == Attached && res.tcp == Idle && firstError == None
      modifies this`res, this`arrivals, this`otherSenders, this`firstError, trigger
      ensures Valid() && old(trigger.requests) <= trigger.requests
      ensures stage.Continue? || stage.Failed?
      ensures stage.Continue? ==> Started() && firstError == None
      ensures stage.Failed? ==> BootEnded(Err(stage.error)) && res.closedWith.Some?
    {
      hide ContextCleanup, CombineCleanupResults, Appended, Publish, Accepted, AnyFatal, FirstFatal;
      if !script.tcpEnabled {
        return Continue(());
      }
      Await();
      if script.tcpSpawn.Err? {
        firstError := Some(script.tcpSpawn.error);
        var reported := FailStartedBroker(script.tcpSpawn.error);
        return Failed(reported);
      }
      res := res.Spawn(Tcp);
      Await();
      if script.tcpReady.Err? {
        var error := "TCP listener failed to start: " + script.tcpReady.error;
        firstError := Some(error);
        var reported := FailStartedBroker(error);
        return Failed(reported);
      }
      return Continue(());
    }

    /** A published signal ends a started broker by its shutdown. */
    method EndBySignal(signal: ShutdownSignal) returns (outcome: BootOutcome)
      requires Valid() && Started() && Priority(signal) <= Level(trigger.current) && firstError == None
      modifies this`res, this`arrivals, this`otherSenders, trigger
      ensures Valid() && old(trigger.requests) <= trigger.requests
      ensures outcome.Returned? && BootEnded(outcome.result) && res.closedWith.Some?
    {
      hide ContextCleanup, CombineCleanupResults, Publish, Accepted, AnyFatal, FirstFatal, FailureText, ReasonText;
      var result, _, _ := ShutdownBroker(signal);
      return Returned(result);
    }

    method CompleteStartup() returns (outcome: BootOutcome)
      requires Valid() && Started() && res.domains == Attached && res.tcp == Idle && firstError == None
      modifies this`res, this`arrivals, this`otherSenders, this`seen, this`firstError, trigger
      ensures Valid() && old(trigger.requests) <= trigger.requests
      ensures outcome.Returned? ==> BootEnded(outcome.result) && res.closedWith.Some?
      ensures outcome.StillWaiting? ==> Started() && res.startupComplete && trigger.current.None?
    {
      hide BootEnded, Publish, Accepted, AnyFatal;
      if trigger.current.Some? {
        outcome := EndBySignal(trigger.current.value);
        return;
      }
      var tcp := StartTcp();
      if tcp.Failed? {
        return Returned(Err(tcp.error));
      }
      if trigger.current.Some? {
        outcome := EndBySignal(trigger.current.value);
        return;
      }
      res := res.(startupComplete := true);
      var waited := Wait();
      match waited {
        case Closed => assert false;
        case NotYet => return StillWaiting;
        case Published(signal) => outcome := EndBySignal(signal);
      }
    }

    /**
     How every boot ends. All spawned listeners were stopped and joined, and an opened store was given one shutdown,
     which decides whether it is shut; a store that could not be shut is never reported as success. A startup error
     stays in front of whatever cleanup added. A fatal signal is never lost: requested at any time, it makes the boot
     fail, and without a startup error the report begins with the first one. A boot stopped before it had a store was
     asked to, saw nothing fatal, and reports its cleanup alone.
     */
    ghost predicate BootEnded(result: Result<(), string>)
      reads this, trigger
    {
      && res.Released() && res.opens <= 1
      && (if res.closedWith.Some? then res.store == StoreAfter(script.storeShutdown)
          else res.store == Unopened || res.store == StoreAfter(script.engineClose))
      && (res.store == ShutFailed ==> result.Err?)
      && (firstError.Some? ==> result.Err? && firstError.value <= result.error)
      && (AnyFatal(trigger.requests) ==>
            result.Err? && (firstError.None? ==> FailureText(FirstFatal(trigger.requests)) <= result.error))
      && (firstError.None? && res.closedWith.Some? ==>
            && res.http == Joined && res.metrics == Joined
            && ReportsFirstFatal(result, ContextCleanup(script, res.tcp == Joined), trigger.requests))
      && (firstError.None? && res.closedWith.None? ==>
            && trigger.current.Some? && !AnyFatal(trigger.requests) && res.tcp == Idle && res.http == res.metrics
            && result == if res.http == Idle then Ok(())
                         else CombineCleanupResults([script.httpJoin, script.metricsJoin]))
    }

    /** From the open store on: a signal seen now ends the boot, otherwise the store is monitored and domains start. */
    method BootWithStore() returns (outcome: BootOutcome)
      requires Valid() && Started() && res.domains == Unattached && res.tcp == Idle && firstError == None
      modifies this`res, this`arrivals, this`otherSenders, this`seen, this`firstError, this`monitoring, trigger
      ensures Valid() && old(trigger.requests) <= trigger.requests
      ensures outcome.Returned? ==> BootEnded(outcome.result) && res.closedWith.Some?
      ensures outcome.StillWaiting? ==> Started() && res.startupComplete && trigger.current.None?
    {
      hide ContextCleanup, CombineCleanupResults, Appended, Publish, Accepted, AnyFatal, FirstFatal;
      if trigger.current.Some? {
        outcome := EndBySignal(trigger.current.value);
        return;
      }
      monitoring := true;
      Await();
      if script.domains.Err? {
        firstError := Some(script.domains.error);
        var reported := FailStartedBroker(script.domains.error);
        return Returned(Err(reported));
      }
      res := res.(domains := Attached);
      outcome := CompleteStartup();
    }

    /** The boot sequence after observability is up. */
    method BootInitialized() returns (outcome: BootOutcome)
      requires Valid() && res == FRESH && firstError == None && !monitoring
      modifies this, trigger
      ensures Valid() && old(trigger.requests) <= trigger.requests
      ensures outcome.Returned? ==> BootEnded(outcome.result)
      ensures outcome.Returned? && AnyFatal(trigger.requests) ==>
                && outcome.result.Err?
                && (firstError.None? ==> FailureText(FirstFatal(trigger.requests)) <= outcome.result.error)
      ensures outcome.StillWaiting? ==>
                trigger.current.None? && (res.store == Unopened || (Started() && res.startupComplete))
    {
      hide ContextCleanup, CombineCleanupResults, Appended, Publish, Accepted, AnyFatal, FirstFatal, ReportsFirstFatal;
      if script.config.Err? {
        firstError := Some(script.config.error);
        return Returned(Err(script.config.error));
      }
      if trigger.current.Some? {
        return Returned(Ok(()));
      }
      if script.runtime.Err? {
        firstError := Some(script.runtime.error);
        return Returned(Err(script.runtime.error));
      }
      var listeners := StartListeners();
      if listeners.Failed? {
        return Returned(Err(listeners.error));
      }
      var storage := OpenStorageStage();
      match storage {
        case ShutdownRequested =>
          var result := ShutdownIncompleteStartup();
          return Returned(result);
        case Failed(error) =>
          var reported := AbortStartup(true, error);
          return Returned(Err(reported));
        case Waiting =>
          return StillWaiting;
        case Continue(_) =>
      }
      outcome := BootWithStore();
    }

    /** Storage gave up because a signal was seen, so there is one to log here and only listeners to stop. */
    method ShutdownIncompleteStartup() returns (result: Result<(), string>)
      requires Valid() && trigger.current.Some? && res.http == Live && res.metrics == Live
      modifies this`res, this`arrivals, this`otherSenders, trigger
      ensures Valid() && old(trigger.requests) <= trigger.requests && trigger.current.Some?
      ensures res == old(res).(lifecycle := ShuttingDown, http := Joined, metrics := Joined)
      ensures result == CombineCleanupResults([script.httpJoin, script.metricsJoin])
    {
      res := res.(lifecycle := ShuttingDown);
      StopAndJoinListeners(false);
      result := CombineCleanupResults([script.httpJoin, script.metricsJoin]);
    }
  }
}
