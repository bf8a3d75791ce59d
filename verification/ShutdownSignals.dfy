/** The shutdown signal, its escalation order and the channel it is published on (src/api/broker_shutdown.rs). */
module ShutdownSignals {
  import opened Basics

  datatype ShutdownSignal = CtrlC | Sigterm | DrainRequested | ActorFailure | StorageLeaseFailure

  const PRIORITY_GRACEFUL: nat := 1
  const PRIORITY_INTERRUPT: nat := 2
  const PRIORITY_FATAL: nat := 3

  predicate RequiresDrain(signal: ShutdownSignal) {
    signal == Sigterm || signal == DrainRequested
  }

  predicate IsFailure(signal: ShutdownSignal) {
    signal == ActorFailure || signal == StorageLeaseFailure
  }

  function Priority(signal: ShutdownSignal): nat {
    match signal
    case Sigterm | DrainRequested => PRIORITY_GRACEFUL
    case CtrlC => PRIORITY_INTERRUPT
    case ActorFailure | StorageLeaseFailure => PRIORITY_FATAL
  }

  /** Urgency of what a reader of the channel sees; nothing published counts as zero. */
  function Level(published: Option<ShutdownSignal>): nat {
    if published.None? then 0 else Priority(published.value)
  }

  /** What one request leaves on the channel. */
  function Offer(current: Option<ShutdownSignal>, signal: ShutdownSignal): Option<ShutdownSignal> {
    if current.Some? && Priority(current.value) >= Priority(signal) then current else Some(signal)
  }

  /** What a whole history of requests leaves on the channel. */
  function Publish(requests: seq<ShutdownSignal>): Option<ShutdownSignal> {
    if requests == [] then None
    else Offer(Publish(requests[..|requests| - 1]), requests[|requests| - 1])
  }

  /** How many of the requests changed the channel. */
  function Accepted(requests: seq<ShutdownSignal>): nat {
    if requests == [] then 0
    else
      var before := requests[..|requests| - 1];
      Accepted(before) + if Publish(requests) != Publish(before) then 1 else 0
  }

  /** `i` is the first request of the greatest priority. */
  predicate IsEarliestMaximal(requests: seq<ShutdownSignal>, i: nat) {
    && i < |requests|
    && (forall j | 0 <= j < |requests| :: Priority(requests[j]) <= Priority(requests[i]))
    && (forall j | 0 <= j < i :: Priority(requests[j]) < Priority(requests[i]))
  }

  lemma EarliestMaximalNext(before: seq<ShutdownSignal>, signal: ShutdownSignal, top: nat)
    requires IsEarliestMaximal(before, top)
    ensures IsEarliestMaximal(before + [signal], if Priority(before[top]) >= Priority(signal) then top else |before|)
  {
  }

  /** There is a winner, and it is what is published. */
  lemma {:induction false} WinnerIsPublished(requests: seq<ShutdownSignal>) returns (winner: nat)
    requires requests != []
    ensures IsEarliestMaximal(requests, winner) && Publish(requests) == Some(requests[winner])
  {
    var before, signal := requests[..|requests| - 1], requests[|requests| - 1];
    assert requests == before + [signal];
    if before == [] {
      winner := 0;
    } else {
      var top := WinnerIsPublished(before);
      EarliestMaximalNext(before, signal, top);
      winner := if Priority(before[top]) >= Priority(signal) then top else |before|;
    }
  }

  lemma PublishedIsEarliestMaximal(requests: seq<ShutdownSignal>)
    ensures requests == [] <==> Publish(requests) == None
    ensures forall signal :: Publish(requests) == Some(signal) <==>
              exists i: nat :: IsEarliestMaximal(requests, i) && requests[i] == signal
  {
    if requests != [] {
      var winner := WinnerIsPublished(requests);
      assert forall i: nat | IsEarliestMaximal(requests, i) :: i == winner;
    }
  }

  /** Publishing is monotone: later requests never lower the level or take the signal away. */
  lemma {:induction false} LevelNeverFalls(requests: seq<ShutdownSignal>, more: seq<ShutdownSignal>)
    ensures Level(Publish(requests)) <= Level(Publish(requests + more))
    ensures Publish(requests).Some? ==> Publish(requests + more).Some?
    ensures Level(Publish(requests)) == Level(Publish(requests + more)) ==>
              Publish(requests) == Publish(requests + more)
    ensures Accepted(requests) <= Accepted(requests + more)
    decreases |more|
  {
    if more == [] {
      assert requests + more == requests;
    } else {
      LevelNeverFalls(requests, more[..|more| - 1]);
      assert (requests + more)[..|requests + more| - 1] == requests + more[..|more| - 1];
    }
  }

  lemma {:induction false} LevelIsGreatestPriority(requests: seq<ShutdownSignal>)
    ensures forall i | 0 <= i < |requests| :: Priority(requests[i]) <= Level(Publish(requests))
    ensures requests != [] ==> exists i :: 0 <= i < |requests| && Priority(requests[i]) == Level(Publish(requests))
  {
    if requests != [] {
      PublishedIsEarliestMaximal(requests);
      var i: nat :| IsEarliestMaximal(requests, i) && requests[i] == Publish(requests).value;
    }
  }

  /** Racing requests may change which signal wins, never how urgent the winner is. */
  lemma LevelIgnoresOrder(requests: seq<ShutdownSignal>, shuffled: seq<ShutdownSignal>)
    requires multiset(requests) == multiset(shuffled)
    ensures Level(Publish(requests)) == Level(Publish(shuffled))
  {
    LevelIsGreatestPriority(requests);
    LevelIsGreatestPriority(shuffled);
    forall i | 0 <= i < |requests| ensures requests[i] in shuffled { assert requests[i] in multiset(requests); }
    forall i | 0 <= i < |shuffled| ensures shuffled[i] in requests { assert shuffled[i] in multiset(shuffled); }
    assert requests == [] <==> |multiset(requests)| == 0;
    assert shuffled == [] <==> |multiset(shuffled)| == 0;
  }

  /** Each accepted request raises the level, so at most three are ever accepted. */
  lemma {:induction false} AcceptedIsBounded(requests: seq<ShutdownSignal>)
    ensures Accepted(requests) <= Level(Publish(requests)) <= PRIORITY_FATAL
    ensures requests != [] ==> Accepted(requests) >= 1
    decreases |requests|
  {
    if requests != [] {
      AcceptedIsBounded(requests[..|requests| - 1]);
    }
  }

  /** The watch channel with its latest value, the number of changes and, as history, every request made. */
  class ShutdownTrigger {
    var current: Option<ShutdownSignal>
    var version: nat
    ghost var requests: seq<ShutdownSignal>

    ghost predicate Valid()
      reads this
    {
      current == Publish(requests) && version == Accepted(requests)
    }

    constructor ()
      ensures Valid() && requests == [] && current == None
    {
      current, version, requests := None, 0, [];
    }

    /** The answer says whether the channel changed, which only a strictly more urgent signal does. */
    method Request(signal: ShutdownSignal) returns (accepted: bool)
      requires Valid()
      modifies this
      ensures Valid() && requests == old(requests) + [signal]
      ensures accepted <==> Priority(signal) > Level(old(current))
      ensures accepted ==> current == Some(signal) && version == old(version) + 1
      ensures !accepted ==> current == old(current) && version == old(version)
    {
      requests := requests + [signal];
      assert requests[..|requests| - 1] == old(requests);
      if current.Some? && Priority(current.value) >= Priority(signal) {
        return false;
      }
      current, version := Some(signal), version + 1;
      return true;
    }
  }
}
