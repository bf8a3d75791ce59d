/**
 How a stress run cleans up (benches/stress_support/runner.rs, fixture.rs): what is closed, kept, deleted and
 reported.
 */
module StressCleanup {
  import opened Basics
  import opened StressCounters

  // ----- failures that gather more failures

  function KindText(kind: FailureKind): string {
    match kind
    case Timeout => "Timeout"
    case InvalidResponse => "InvalidResponse"
    case DomainError => "DomainError"
    case Transport => "Transport"
    case Verification => "Verification"
  }

  function Text(error: Failure): string {
    KindText(error.kind) + ": " + error.detail
  }

  function Decimal(n: nat): string {
    (if n < 10 then "" else Decimal(n / 10)) + ["0123456789"[n % 10]]
  }

  type Outcome = Result<(), Failure>

  /** The first failure keeps its kind and its words; a later one is added behind it. */
  function AppendFailure(result: Outcome, error: Failure, context: string): Outcome {
    match result
    case Ok(_) => Err(Failure(error.kind, context + ": " + error.detail))
    case Err(original) => Err(original.(detail := original.detail + "; " + context + ": " + Text(error)))
  }

  /** A failure and where it happened, in the order they happened. */
  datatype Mishap = Mishap(error: Failure, context: string)

  function AppendAll(result: Outcome, mishaps: seq<Mishap>): Outcome {
    if mishaps == [] then result
    else
      var n := |mishaps| - 1;
      AppendFailure(AppendAll(result, mishaps[..n]), mishaps[n].error, mishaps[n].context)
  }

  /** However many failures follow, the first one's kind and words survive, and only no failure at all is a success. */
  lemma {:induction false} FirstFailureSurvives(result: Outcome, mishaps: seq<Mishap>)
    ensures AppendAll(result, mishaps).Ok? <==> result.Ok? && mishaps == []
    ensures result.Err? ==>
              AppendAll(result, mishaps).Err? && AppendAll(result, mishaps).error.kind == result.error.kind
                            && result.error.detail <= AppendAll(result, mishaps).error.detail
    ensures result.Ok? && mishaps != [] ==>
              AppendAll(result, mishaps).Err? && AppendAll(result, mishaps).error.kind == mishaps[0].error.kind
    decreases |mishaps|
  {
    if mishaps != [] { FirstFailureSurvives(result, mishaps[..|mishaps| - 1]); }
  }

  lemma AppendTells(result: Outcome, error: Failure, context: string)
    ensures Contains(AppendFailure(result, error, context).error.detail, error.detail)
  {
    var detail := AppendFailure(result, error, context).error.detail;
    var before := (if result.Ok? then "" else result.error.detail + "; ") + context + ": "
      + if result.Ok? then "" else KindText(error.kind) + ": ";
    assert detail == before + error.detail + "";
  }

  lemma AppendKeeps(result: Outcome, error: Failure, context: string, part: string)
    requires result.Err? && Contains(result.error.detail, part)
    ensures Contains(AppendFailure(result, error, context).error.detail, part)
  {
    var tail := "; " + context + ": " + Text(error);
    var before, after :| result.error.detail == before + part + after;
    assert AppendFailure(result, error, context).error.detail == before + part + (after + tail);
  }

  /** No failure is lost: the final text contains the detail of every one. */
  lemma {:induction false} EveryFailureIsTold(result: Outcome, mishaps: seq<Mishap>, i: nat)
    requires i < |mishaps|
    ensures AppendAll(result, mishaps).Err?
            && Contains(AppendAll(result, mishaps).error.detail, mishaps[i].error.detail)
    decreases |mishaps|
  {
    hide Contains;
    var n := |mishaps| - 1;
    var earlier, last := AppendAll(result, mishaps[..n]), mishaps[n];
    if i < n {
      EveryFailureIsTold(result, mishaps[..n], i);
      AppendKeeps(earlier, last.error, last.context, mishaps[i].error.detail);
    } else {
      AppendTells(earlier, last.error, last.context);
    }
  }

  // ----- what cleanup acts on

  datatype ServerState = Up | Down | Unknown

  class TestServer {
    var state: ServerState

    constructor ()
      ensures state == Up
    {
      state := Up;
    }

    /** Only a shutdown that reports success leaves the server known to be down. */
    method Shutdown(outcome: Outcome)
      requires state == Up
      modifies this
      ensures state == if outcome.Ok? then Down else Unknown
    {
      state := if outcome.Ok? then Down else Unknown;
    }
  }

  /** What became of the directory on disk. */
  datatype Files = NoFiles | InUse | Removed | RemovalFailed | Kept

  class StorageDirectory {
    var held: bool
    var files: Files

    ghost predicate Valid()
      reads this
    {
      held <==> files == InUse
    }

    constructor (local: bool)
      ensures Valid() && files == if local then InUse else NoFiles
    {
      held, files := local, if local then InUse else NoFiles;
    }

    /** Deletes the directory. Nobody may ask for that while the server might still be using it. */
    method Release(removal: Result<(), string>, ghost server: TestServer) returns (released: Outcome)
      requires Valid() && server.state == Down
      modifies this
      ensures Valid() && !held
      ensures files == if old(files) != InUse then old(files) else if removal.Ok? then Removed else RemovalFailed
      ensures released.Ok? <==> old(files) != InUse || removal.Ok?
    {
      if held {
        held := false;
        if removal.Err? {
          files := RemovalFailed;
          return Err(Failure(Transport, "benchmark storage cleanup failed: " + removal.error));
        }
        files := Removed;
      }
      return Ok(());
    }

    /** Going out of scope never deletes: a directory that was not released stays. */
    method Drop()
      requires Valid()
      modifies this
      ensures Valid() && !held && files == if old(files) == InUse then Kept else old(files)
    {
      if held {
        held, files := false, Kept;
      }
    }
  }

  // ----- the evidence file and the growing result

  datatype Status = Running | RunCompleted | Failed

  datatype CleanupStatus = NotStarted | CleanupRunning | CleanupCompleted | CleanupFailed

  datatype CleanupFailure = CleanupFailure(stage: string, driver: Option<nat>, error: Failure)

  class Artifacts {
    const saves: nat -> Outcome
    var saved: nat
    var status: Status
    var cleanupStatus: CleanupStatus
    var cleanupFailures: seq<CleanupFailure>
    var failure: Option<Failure>
    ghost var mishaps: seq<Mishap>

    constructor (saves: nat -> Outcome)
      ensures this.saves == saves && saved == 0 && status == Running && cleanupStatus == NotStarted
      ensures cleanupFailures == [] && failure == None && mishaps == []
    {
      this.saves := saves;
      saved, status, cleanupStatus, cleanupFailures, failure, mishaps := 0, Running, NotStarted, [], None, [];
    }

    /** All saves from number `first` on went well. */
    ghost predicate SavedSince(first: nat)
      reads this
    {
      forall i | first <= i < saved :: saves(i).Ok?
    }

    /**
     The result so far is the workload's with every mishap added; there is none exactly if all saves and closes went
     well.
     */
    ghost predicate Tracks(workload: Outcome, result: Outcome, first: nat)
      reads this
    {
      && result == AppendAll(workload, mishaps)
      && (mishaps == [] <==> cleanupFailures == [] && SavedSince(first))
    }

    method Save() returns (outcome: Outcome)
      modifies this`saved
      ensures saved == old(saved) + 1 && outcome == saves(old(saved))
    {
      outcome := saves(saved);
      saved := saved + 1;
    }

    method RememberFailure(result: Outcome)
      modifies this`status, this`failure
      ensures if result.Ok? then status == old(status) && failure == old(failure)
              else status == Failed && failure == Some(result.error)
    {
      if result.Err? {
        status, failure := Failed, Some(result.error);
      }
    }

    method Append(result: Outcome, error: Failure, context: string) returns (longer: Outcome)
      modifies this`mishaps
      ensures longer == AppendFailure(result, error, context) && mishaps == old(mishaps) + [Mishap(error, context)]
    {
      mishaps := mishaps + [Mishap(error, context)];
      longer := AppendFailure(result, error, context);
    }

    method SaveCleanupProgress(result: Outcome, ghost workload: Outcome, ghost first: nat) returns (after: Outcome)
      requires Tracks(workload, result, first) && first <= saved
      modifies this`saved, this`status, this`failure, this`mishaps
      ensures Tracks(workload, after, first) && saved > old(saved)
      ensures after.Err? ==> failure == Some(after.error) && status == Failed
    {
      hide AppendAll, AppendFailure;
      after := result;
      RememberFailure(after);
      var outcome := Save();
      if outcome.Err? {
        after := Append(after, outcome.error, "saving cleanup evidence failed");
        AppendedOnce(workload, old(mishaps), mishaps[|mishaps| - 1]);
        RememberFailure(after);
      }
    }

    method RecordCleanupFailure(result: Outcome, stage: string, driver: Option<nat>, error: Failure,
        ghost workload: Outcome, ghost first: nat)
      returns (after: Outcome)
      requires Tracks(workload, result, first) && first <= saved
      modifies this`saved, this`status, this`failure, this`mishaps, this`cleanupFailures
      ensures Tracks(workload, after, first) && saved > old(saved)
      ensures cleanupFailures == old(cleanupFailures) + [CleanupFailure(stage, driver, error)]
    {
      hide AppendAll, AppendFailure;
      cleanupFailures := cleanupFailures + [CleanupFailure(stage, driver, error)];
      after := Append(result, error, if driver.None? then stage + " cleanup failed"
                                     else stage + " cleanup at prepared index " + Decimal(driver.value) + " failed");
      AppendedOnce(workload, old(mishaps), mishaps[|mishaps| - 1]);
      after := SaveCleanupProgress(after, workload, first);
    }
  }

  lemma NothingAppended(workload: Outcome)
    ensures AppendAll(workload, []) == workload
  {
  }

  lemma AppendedOnce(workload: Outcome, mishaps: seq<Mishap>, next: Mishap)
    ensures AppendAll(workload, mishaps + [next]) ==
            AppendFailure(AppendAll(workload, mishaps), next.error, next.context)
  {
  }

  // ----- closing everything

  /** The failures of the driver closes, in order. */
  function DriverFailures(closes: seq<Outcome>): seq<CleanupFailure> {
    if closes == [] then []
    else
      var n := |closes| - 1;
      DriverFailures(closes[..n]) + if closes[n].Err? then [CleanupFailure("driver", Some(n), closes[n].error)] else []
  }

  lemma DriverFailuresNext(closes: seq<Outcome>, n: nat)
    requires n < |closes|
    ensures DriverFailures(closes[..n + 1]) ==
            if closes[n].Err? then DriverFailures(closes[..n]) + [CleanupFailure("driver", Some(n), closes[n].error)]
            else DriverFailures(closes[..n])
  {
    assert closes[..n + 1][..n] == closes[..n];
  }

  lemma {:induction false} NoDriverFailures(closes: seq<Outcome>)
    ensures DriverFailures(closes) == [] <==> forall i | 0 <= i < |closes| :: closes[i].Ok?
    decreases |closes|
  {
    if closes != [] {
      var n := |closes| - 1;
      NoDriverFailures(closes[..n]);
      assert forall i | 0 <= i < n :: closes[..n][i] == closes[i];
    }
  }

  /** What happens to the files: deleted only behind a confirmed shutdown, and kept whenever there is a doubt. */
  function FilesAfter(files: Files, shutdown: Outcome, removal: Result<(), string>): Files {
    if files != InUse then files
    else if shutdown.Err? then Kept
    else if removal.Ok? then Removed else RemovalFailed
  }

  predicate CleanStop(files: Files, shutdown: Outcome, removal: Result<(), string>) {
    shutdown.Ok? && (files == InUse ==> removal.Ok?)
  }

  method CloseServerAndDirectory(artifacts: Artifacts, server: TestServer, directory: StorageDirectory,
      shutdown: Outcome, removal: Result<(), string>, result: Outcome, ghost workload: Outcome, ghost first: nat)
    returns (after: Outcome)
    requires server.state == Up && directory.Valid()
    requires artifacts.Tracks(workload, result, first) && first <= artifacts.saved
    modifies artifacts`saved, artifacts`status, artifacts`failure, artifacts`mishaps, artifacts`cleanupFailures,
      server, directory
    ensures artifacts.Tracks(workload, after, first) && artifacts.saved >= old(artifacts.saved)
    ensures directory.files == FilesAfter(old(directory.files), shutdown, removal)
    ensures server.state == if shutdown.Ok? then Down else Unknown
    ensures old(artifacts.cleanupFailures) <= artifacts.cleanupFailures
    ensures |artifacts.cleanupFailures| == |old(artifacts.cleanupFailures)|
            + if CleanStop(old(directory.files), shutdown, removal) then 0 else 1
    ensures !CleanStop(old(directory.files), shutdown, removal) ==>
              artifacts.cleanupFailures[|old(artifacts.cleanupFailures)|].stage ==
              if shutdown.Ok? then "directory" else "server"
  {
    server.Shutdown(shutdown);
    after := result;
    match shutdown {
      case Ok(_) =>
        var released := directory.Release(removal, server);
        if released.Err? {
          after := artifacts.RecordCleanupFailure(after, "directory", None, released.error, workload, first);
        }
      case Err(error) =>
        var detail := if directory.held then error.detail + "; benchmark storage retained" else error.detail;
        directory.Drop();
        after := artifacts.RecordCleanupFailure(after, "server", None, Failure(error.kind, detail), workload, first);
    }
  }

  /** Everything that has to go well for a run to end well once its server is up. */
  ghost predicate AllWell(artifacts: Artifacts, workload: Outcome, closes: seq<Outcome>, files: Files,
      shutdown: Outcome, removal: Result<(), string>, first: nat)
    reads artifacts
  {
    && workload.Ok? && (forall i | 0 <= i < |closes| :: closes[i].Ok?)
    && CleanStop(files, shutdown, removal) && artifacts.SavedSince(first)
  }

  /** The driver closes, in index order: each failure is recorded as a driver's and added to the result. */
  method CloseDrivers(artifacts: Artifacts, closes: seq<Outcome>, result: Outcome,
      ghost workload: Outcome, ghost first: nat)
    returns (after: Outcome)
    requires artifacts.Tracks(workload, result, first) && first <= artifacts.saved && artifacts.cleanupFailures == []
    modifies artifacts`saved, artifacts`status, artifacts`failure, artifacts`mishaps, artifacts`cleanupFailures
    ensures artifacts.Tracks(workload, after, first) && artifacts.saved >= old(artifacts.saved)
    ensures artifacts.cleanupFailures == DriverFailures(closes)
  {
    hide AppendAll, DriverFailures;
    after := result;
    NoDriverFailures(closes[..0]);
    for index := 0 to |closes|
      invariant artifacts.Tracks(workload, after, first) && artifacts.saved >= old(artifacts.saved)
      invariant artifacts.cleanupFailures == DriverFailures(closes[..index])
    {
      DriverFailuresNext(closes, index);
      if closes[index].Err? {
        after := artifacts.RecordCleanupFailure(after, "driver", Some(index), closes[index].error, workload, first);
      }
    }
    assert closes[..|closes|] == closes;
  }

  /**
   Closes every driver, then the server, then the directory, adding each failure to the workload's own result: the
   result is Ok exactly when the workload, every close, the shutdown, the removal and every save went well.
   */
  method CloseFixture(artifacts: Artifacts, server: TestServer, directory: StorageDirectory, closes: seq<Outcome>,
                      shutdown: Outcome, removal: Result<(), string>, workload: Outcome)
    returns (result: Outcome)
    requires server.state == Up && directory.Valid()
    requires artifacts.cleanupFailures == [] && artifacts.mishaps == []
    modifies artifacts, server, directory
    ensures result == AppendAll(workload, artifacts.mishaps)
    ensures result.Ok? <==>
              AllWell(artifacts, workload, closes, old(directory.files), shutdown, removal, old(artifacts.saved))
    ensures directory.files == FilesAfter(old(directory.files), shutdown, removal)
    ensures server.state == if shutdown.Ok? then Down else Unknown
    ensures artifacts.saved >= old(artifacts.saved) + 3
    ensures artifacts.cleanupStatus ==
            if DriverFailures(closes) == [] && CleanStop(old(directory.files), shutdown, removal)
              then CleanupCompleted else CleanupFailed
    ensures DriverFailures(closes) <= artifacts.cleanupFailures
    ensures result.Err? ==> artifacts.failure == Some(result.error) && artifacts.status == Failed
  {
    hide AppendAll, CleanStop, FilesAfter, DriverFailures;
    ghost var first := artifacts.saved;
    NothingAppended(workload);
    result := artifacts.SaveCleanupProgress(workload, workload, first);
    artifacts.cleanupStatus := CleanupRunning;
    result := artifacts.SaveCleanupProgress(result, workload, first);
    result := CloseDrivers(artifacts, closes, result, workload, first);
    NoDriverFailures(closes);
    result := CloseServerAndDirectory(artifacts, server, directory, shutdown, removal, result, workload, first);
    artifacts.cleanupStatus := if artifacts.cleanupFailures == [] then CleanupCompleted else CleanupFailed;
    result := artifacts.SaveCleanupProgress(result, workload, first);
    FirstFailureSurvives(workload, artifacts.mishaps);
  }

  /** The last word: Ok exactly if the result is and the final save went well. */
  method Finalize(artifacts: Artifacts, result: Outcome) returns (answer: Result<(), string>)
    modifies artifacts`saved, artifacts`status, artifacts`failure
    ensures artifacts.saved == old(artifacts.saved) + 1
    ensures answer.Ok? <==> result.Ok? && artifacts.saves(old(artifacts.saved)).Ok?
    ensures result.Err? ==> answer.Err? && Text(result.error) <= answer.error && artifacts.failure == Some(result.error)
    ensures artifacts.status == if result.Ok? then RunCompleted else Failed
  {
    artifacts.status := if result.Ok? then RunCompleted else Failed;
    artifacts.RememberFailure(result);
    var outcome := artifacts.Save();
    if outcome.Err? {
      return Err(if result.Ok? then "saving final workload evidence failed: " + Text(outcome.error)
                 else Text(result.error) + "; saving final workload evidence also failed: " + Text(outcome.error));
    }
    match result
    case Ok(_) => return Ok(());
    case Err(error) => return Err(Text(error));
  }

  /**
   A whole run around its workload. The storage directory is deleted only when the server was started and its
   shutdown confirmed; on every other path that created one it stays on disk. The run succeeds exactly when
   every stage, every close and every save did.
   */
  method Run(local: bool, created: Outcome, start: Outcome, workload: Outcome, closes: seq<Outcome>, shutdown: Outcome,
             removal: Result<(), string>, saves: nat -> Outcome)
    returns (answer: Result<(), string>, artifacts: Artifacts, files: Files, confirmedDown: bool)
    ensures files in {Removed, RemovalFailed} ==> confirmedDown
    ensures files == if !local || created.Err? then NoFiles
                     else if saves(0).Ok? && start.Ok? then FilesAfter(InUse, shutdown, removal) else Kept
    ensures answer.Ok? <==>
            && created.Ok? && start.Ok? && CleanStop(if local then InUse else NoFiles, shutdown, removal)
            && workload.Ok? && (forall i | 0 <= i < |closes| :: closes[i].Ok?)
            && artifacts.saves == saves && forall i | 0 <= i < artifacts.saved :: saves(i).Ok?
  {
    artifacts := new Artifacts(saves);
    confirmedDown := false;
    if created.Err? {
      answer := Finalize(artifacts, created);
      return answer, artifacts, NoFiles, confirmedDown;
    }
    var directory := new StorageDirectory(local);
    var saved := artifacts.Save();
    if saved.Err? {
      directory.Drop();
      return Err(Text(saved.error)), artifacts, directory.files, confirmedDown;
    }
    if start.Err? {
      directory.Drop();
      answer := Finalize(artifacts, start);
      return answer, artifacts, directory.files, confirmedDown;
    }
    var server := new TestServer();
    var result := CloseFixture(artifacts, server, directory, closes, shutdown, removal, workload);
    confirmedDown := server.state == Down;
    answer := Finalize(artifacts, result);
    return answer, artifacts, directory.files, confirmedDown;
  }
}
