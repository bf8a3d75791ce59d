/**
 Byte admission for transport frames (src/api/buffer_budget.rs). The first half is the code as written, alone on
 its two semaphores; the second half lets any number of sessions wrap, clone, slice and drop at once, one
 semaphore operation per step.
 */
module BufferBudget {
  import opened Basics

  // ----- one caller

  class Semaphore {
    var permits: nat

    constructor (permits: nat)
      ensures this.permits == permits
    {
      this.permits := permits;
    }

    method TryAcquire(count: nat) returns (acquired: bool)
      modifies this
      ensures acquired <==> count <= old(permits)
      ensures permits == old(permits) - if acquired then count else 0
    {
      acquired := count <= permits;
      if acquired { permits := permits - count; }
    }

    method Release(count: nat)
      modifies this
      ensures permits == old(permits) + count
    {
      permits := permits + count;
    }
  }

  /** A frame that owns its bytes and as many permits of each semaphore. */
  class BudgetedFrame {
    const bytes: seq<bv8>
    const session: Semaphore
    const shared: Semaphore

    constructor (bytes: seq<bv8>, session: Semaphore, shared: Semaphore)
      ensures this.bytes == bytes && this.session == session && this.shared == shared
    {
      this.bytes, this.session, this.shared := bytes, session, shared;
    }

    /** Dropping the last owner gives both reservations back, whatever happened to the counters meanwhile. */
    method Drop()
      requires session != shared
      modifies session, shared
      ensures session.permits == old(session.permits) + |bytes| && shared.permits == old(shared.permits) + |bytes|
    {
      session.Release(|bytes|);
      shared.Release(|bytes|);
    }
  }

  class BufferBudget {
    const shared: Semaphore
    const session: Semaphore

    constructor (shared: Semaphore, sessionBytes: nat)
      ensures this.shared == shared && fresh(session) && session.permits == sessionBytes && session != shared
    {
      this.shared := shared;
      session := new Semaphore(sessionBytes);
    }

    /**
     Uncontended admission succeeds exactly when the length fits u32 and both budgets; a refusal leaves both
     counters as they were and names the first limit that was hit.
     */
    method Wrap(bytes: seq<bv8>) returns (wrapped: Result<BudgetedFrame, string>)
      requires session != shared
      modifies session, shared
      ensures wrapped.Ok? <==> |bytes| <= U32_MAX && |bytes| <= old(session.permits) && |bytes| <= old(shared.permits)
      ensures wrapped.Ok? ==> && fresh(wrapped.value) && wrapped.value.bytes == bytes
                              && wrapped.value.session == session && wrapped.value.shared == shared
                              && session.permits + |bytes| == old(session.permits)
                              && shared.permits + |bytes| == old(shared.permits)
      ensures wrapped.Err? ==> && session.permits == old(session.permits) && shared.permits == old(shared.permits)
                               && wrapped.error == if |bytes| > U32_MAX then "frame byte count exceeds u32"
                                                   else if |bytes| > old(session.permits)
                                                     then "session transport byte budget exhausted"
                                                   else "shared transport byte budget exhausted"
    {
      if |bytes| > U32_MAX {
        return Err("frame byte count exceeds u32");
      }
      var count := |bytes|;
      var held := session.TryAcquire(count);
      if !held {
        return Err("session transport byte budget exhausted");
      }
      var both := shared.TryAcquire(count);
      if !both {
        session.Release(count);
        return Err("shared transport byte budget exhausted");
      }
      var frame := new BudgetedFrame(bytes, session, shared);
      return Ok(frame);
    }
  }

  // ----- many callers

  datatype Session = Session(capacity: nat, free: nat)

  /** A wrap between its two acquisitions, and after the second one was refused. */
  datatype Wrap = Wrap(session: nat, len: nat, refused: bool)

  /** A frame is `Live` while handles own it; then its two permits are dropped one after the other. */
  datatype Phase = Live(owners: nat) | Dropping | SharedOnly
  datatype Frame = Frame(session: nat, len: nat, phase: Phase)

  datatype Budget = Budget(
    sharedCapacity: nat, sharedFree: nat,
    sessions: map<nat, Session>, wraps: map<nat, Wrap>, frames: map<nat, Frame>, handles: map<nat, nat>)

  datatype Event =
    | OpenSession(session: nat, capacity: nat)
    | TakeSession(wrap: nat, session: nat, len: nat)
    | TakeShared(wrap: nat, frame: nat, handle: nat)
    | RefuseShared(wrap: nat)
    | GiveBack(wrap: nat)
    | CloneOrSlice(handle: nat, copy: nat)
    | DropHandle(handle: nat)
    | DropSessionPermit(frame: nat)
    | DropSharedPermit(frame: nat)

  predicate Enabled(b: Budget, e: Event) {
    match e
    case OpenSession(session, _) => session !in b.sessions
    case TakeSession(wrap, session, len) =>
      wrap !in b.wraps && session in b.sessions && len <= U32_MAX && len <= b.sessions[session].free
    case TakeShared(wrap, frame, handle) =>
      && wrap in b.wraps && !b.wraps[wrap].refused && b.wraps[wrap].len <= b.sharedFree
      && frame !in b.frames && handle !in b.handles
    case RefuseShared(wrap) => wrap in b.wraps && !b.wraps[wrap].refused && b.wraps[wrap].len > b.sharedFree
    case GiveBack(wrap) => wrap in b.wraps && b.wraps[wrap].refused && b.wraps[wrap].session in b.sessions
    case CloneOrSlice(handle, copy) =>
      handle in b.handles && copy !in b.handles && b.handles[handle] in b.frames
        && b.frames[b.handles[handle]].phase.Live?
    case DropHandle(handle) =>
      && handle in b.handles && b.handles[handle] in b.frames
      && b.frames[b.handles[handle]].phase.Live? && b.frames[b.handles[handle]].phase.owners > 0
    case DropSessionPermit(frame) =>
      frame in b.frames && b.frames[frame].phase.Dropping? && b.frames[frame].session in b.sessions
    case DropSharedPermit(frame) => frame in b.frames && b.frames[frame].phase.SharedOnly?
  }

  function Refill(sessions: map<nat, Session>, s: nat, len: nat): map<nat, Session>
    requires s in sessions
  {
    sessions[s := sessions[s].(free := sessions[s].free + len)]
  }

  function Next(b: Budget, e: Event): Budget
    requires Enabled(b, e)
  {
    match e
    case OpenSession(session, capacity) => b.(sessions := b.sessions[session := Session(capacity, capacity)])
    case TakeSession(wrap, session, len) =>
      var s := b.sessions[session];
      b.(sessions := b.sessions[session := s.(free := s.free - len)],
         wraps := b.wraps[wrap := Wrap(session, len, false)])
    case TakeShared(wrap, frame, handle) =>
      var w := b.wraps[wrap];
      b.(sharedFree := b.sharedFree - w.len, wraps := b.wraps - {wrap},
         frames := b.frames[frame := Frame(w.session, w.len, Live(1))], handles := b.handles[handle := frame])
    case RefuseShared(wrap) => b.(wraps := b.wraps[wrap := b.wraps[wrap].(refused := true)])
    case GiveBack(wrap) =>
      var w := b.wraps[wrap];
      b.(sessions := Refill(b.sessions, w.session, w.len), wraps := b.wraps - {wrap})
    case CloneOrSlice(handle, copy) =>
      var f := b.handles[handle];
      var frame := b.frames[f];
      b.(frames := b.frames[f := frame.(phase := Live(frame.phase.owners + 1))], handles := b.handles[copy := f])
    case DropHandle(handle) =>
      var f := b.handles[handle];
      var frame := b.frames[f];
      var left := frame.phase.owners - 1;
      b.(frames := b.frames[f := frame.(phase := if left == 0 then Dropping else Live(left))],
         handles := b.handles - {handle})
    case DropSessionPermit(frame) =>
      var f := b.frames[frame];
      b.(sessions := Refill(b.sessions, f.session, f.len), frames := b.frames[frame := f.(phase := SharedOnly)])
    case DropSharedPermit(frame) =>
      b.(sharedFree := b.sharedFree + b.frames[frame].len, frames := b.frames - {frame})
  }

  // ----- who holds how many bytes

  function WrapBytes(w: Wrap, s: nat): nat {
    if w.session == s then w.len else 0
  }

  function FrameBytes(f: Frame, s: nat): nat {
    if f.session == s && !f.phase.SharedOnly? then f.len else 0
  }

  function WrapsOf(wraps: map<nat, Wrap>, s: nat): map<nat, nat> {
    map w | w in wraps :: WrapBytes(wraps[w], s)
  }

  function FramesOf(frames: map<nat, Frame>, s: nat): map<nat, nat> {
    map f | f in frames :: FrameBytes(frames[f], s)
  }

  function AllFrames(frames: map<nat, Frame>): map<nat, nat> {
    map f | f in frames :: frames[f].len
  }

  function OwnersOf(handles: map<nat, nat>, frame: nat): set<nat> {
    set h | h in handles && handles[h] == frame
  }

  ghost predicate SessionConserved(b: Budget, s: nat)
    requires s in b.sessions
  {
    b.sessions[s].free + Sum(WrapsOf(b.wraps, s)) + Sum(FramesOf(b.frames, s)) == b.sessions[s].capacity
  }

  ghost predicate SharedConserved(b: Budget) {
    b.sharedFree + Sum(AllFrames(b.frames)) == b.sharedCapacity
  }

  ghost predicate SessionsKnown(b: Budget) {
    && (forall w | w in b.wraps :: b.wraps[w].session in b.sessions)
    && (forall f | f in b.frames :: b.frames[f].session in b.sessions)
  }

  /** Reference counts are exact, and no handle outlives its frame's reservation. */
  ghost predicate CountsExact(b: Budget) {
    && (forall h | h in b.handles :: b.handles[h] in b.frames && b.frames[b.handles[h]].phase.Live?)
    && (forall f | f in b.frames && b.frames[f].phase.Live? ::
          b.frames[f].phase.owners == |OwnersOf(b.handles, f)| && b.frames[f].phase.owners > 0)
  }

  ghost predicate Inv(b: Budget) {
    && SessionsKnown(b) && SharedConserved(b) && CountsExact(b)
    && (forall s | s in b.sessions :: SessionConserved(b, s))
  }

  // ----- how one update moves the sums

  lemma WrapPut(wraps: map<nat, Wrap>, w: nat, wrap: Wrap, s: nat)
    ensures Sum(WrapsOf(wraps[w := wrap], s)) + (if w in wraps then WrapBytes(wraps[w], s) else 0)
            == Sum(WrapsOf(wraps, s)) + WrapBytes(wrap, s)
  {
    SumUpdated(WrapsOf(wraps, s), w, WrapBytes(wrap, s));
    assert WrapsOf(wraps[w := wrap], s) == WrapsOf(wraps, s)[w := WrapBytes(wrap, s)];
  }

  lemma WrapTaken(wraps: map<nat, Wrap>, w: nat, s: nat)
    requires w in wraps
    ensures Sum(WrapsOf(wraps - {w}, s)) + WrapBytes(wraps[w], s) == Sum(WrapsOf(wraps, s))
  {
    SumWithout(WrapsOf(wraps, s), w);
    assert WrapsOf(wraps - {w}, s) == WrapsOf(wraps, s) - {w};
  }

  lemma FramePut(frames: map<nat, Frame>, f: nat, frame: Frame, s: nat)
    ensures Sum(FramesOf(frames[f := frame], s)) + (if f in frames then FrameBytes(frames[f], s) else 0)
            == Sum(FramesOf(frames, s)) + FrameBytes(frame, s)
    ensures Sum(AllFrames(frames[f := frame])) + (if f in frames then frames[f].len else 0)
            == Sum(AllFrames(frames)) + frame.len
  {
    SumUpdated(FramesOf(frames, s), f, FrameBytes(frame, s));
    assert FramesOf(frames[f := frame], s) == FramesOf(frames, s)[f := FrameBytes(frame, s)];
    SumUpdated(AllFrames(frames), f, frame.len);
    assert AllFrames(frames[f := frame]) == AllFrames(frames)[f := frame.len];
  }

  lemma FrameTaken(frames: map<nat, Frame>, f: nat, s: nat)
    requires f in frames
    ensures Sum(FramesOf(frames - {f}, s)) + FrameBytes(frames[f], s) == Sum(FramesOf(frames, s))
    ensures Sum(AllFrames(frames - {f})) + frames[f].len == Sum(AllFrames(frames))
  {
    SumWithout(FramesOf(frames, s), f);
    assert FramesOf(frames - {f}, s) == FramesOf(frames, s) - {f};
    SumWithout(AllFrames(frames), f);
    assert AllFrames(frames - {f}) == AllFrames(frames) - {f};
  }

  lemma {:induction false} SumOfZeros(m: map<nat, nat>)
    requires forall k | k in m :: m[k] == 0
    ensures Sum(m) == 0
    decreases |m|
  {
    if m != map[] {
      var k :| k in m && Sum(m) == m[k] + Sum(m - {k});
      SumOfZeros(m - {k});
    }
  }

  // ----- every step keeps the invariant

  lemma StepConservesShared(b: Budget, e: Event)
    requires SharedConserved(b) && Enabled(b, e)
    ensures SharedConserved(Next(b, e))
  {
    match e
    case TakeShared(wrap, frame, handle) =>
      FramePut(b.frames, frame, Frame(b.wraps[wrap].session, b.wraps[wrap].len, Live(1)), 0);
    case CloneOrSlice(handle, copy) => FramePut(b.frames, b.handles[handle], Next(b, e).frames[b.handles[handle]], 0);
    case DropHandle(handle) => FramePut(b.frames, b.handles[handle], Next(b, e).frames[b.handles[handle]], 0);
    case DropSessionPermit(frame) => FramePut(b.frames, frame, Next(b, e).frames[frame], 0);
    case DropSharedPermit(frame) => FrameTaken(b.frames, frame, 0);
    case _ =>
  }

  lemma StepConservesSession(b: Budget, e: Event, s: nat)
    requires SessionsKnown(b) && Enabled(b, e) && s in Next(b, e).sessions
    requires s in b.sessions ==> SessionConserved(b, s)
    ensures SessionConserved(Next(b, e), s)
  {
    hide Sum;
    var b' := Next(b, e);
    match e
    case OpenSession(session, capacity) =>
      if s == session {
        SumOfZeros(WrapsOf(b.wraps, s));
        SumOfZeros(FramesOf(b.frames, s));
      }
    case TakeSession(wrap, session, len) => WrapPut(b.wraps, wrap, Wrap(session, len, false), s);
    case TakeShared(wrap, frame, handle) =>
      WrapTaken(b.wraps, wrap, s);
      FramePut(b.frames, frame, b'.frames[frame], s);
    case RefuseShared(wrap) => WrapPut(b.wraps, wrap, b'.wraps[wrap], s);
    case GiveBack(wrap) => WrapTaken(b.wraps, wrap, s);
    case CloneOrSlice(handle, copy) => FramePut(b.frames, b.handles[handle], b'.frames[b.handles[handle]], s);
    case DropHandle(handle) => FramePut(b.frames, b.handles[handle], b'.frames[b.handles[handle]], s);
    case DropSessionPermit(frame) => FramePut(b.frames, frame, b'.frames[frame], s);
    case DropSharedPermit(frame) => FrameTaken(b.frames, frame, s);
  }

  lemma OwnerAdded(handles: map<nat, nat>, handle: nat, frame: nat, f: nat)
    requires handle !in handles
    ensures |OwnersOf(handles[handle := frame], f)| == |OwnersOf(handles, f)| + if f == frame then 1 else 0
  {
    assert OwnersOf(handles[handle := frame], f) == OwnersOf(handles, f) + if f == frame then {handle} else {};
  }

  lemma OwnerRemoved(handles: map<nat, nat>, handle: nat, f: nat)
    requires handle in handles
    ensures |OwnersOf(handles - {handle}, f)| == |OwnersOf(handles, f)| - if f == handles[handle] then 1 else 0
  {
    assert OwnersOf(handles - {handle}, f) == OwnersOf(handles, f) - {handle};
  }

  lemma UnknownFrameHasNoOwner(b: Budget, f: nat)
    requires CountsExact(b) && f !in b.frames
    ensures |OwnersOf(b.handles, f)| == 0
  {
  }

  lemma CountKept(b: Budget, e: Event, f: nat)
    requires CountsExact(b) && Enabled(b, e) && f in Next(b, e).frames && Next(b, e).frames[f].phase.Live?
    ensures var b' := Next(b, e);
            b'.frames[f].phase.owners == |OwnersOf(b'.handles, f)| && b'.frames[f].phase.owners > 0
  {
    match e
    case TakeShared(wrap, frame, handle) =>
      OwnerAdded(b.handles, handle, frame, f);
      if f == frame { UnknownFrameHasNoOwner(b, f); }
    case CloneOrSlice(handle, copy) => OwnerAdded(b.handles, copy, b.handles[handle], f);
    case DropHandle(handle) => OwnerRemoved(b.handles, handle, f);
    case _ =>
  }

  lemma HandleKept(b: Budget, e: Event, h: nat)
    requires CountsExact(b) && Enabled(b, e) && h in Next(b, e).handles
    ensures var b' := Next(b, e); b'.handles[h] in b'.frames && b'.frames[b'.handles[h]].phase.Live?
  {
    if e.DropHandle? && b.handles[h] == b.handles[e.handle] {
      SubsetCard({h, e.handle}, OwnersOf(b.handles, b.handles[h]));
    }
  }

  lemma StepKeepsCounts(b: Budget, e: Event)
    requires CountsExact(b) && Enabled(b, e)
    ensures CountsExact(Next(b, e))
  {
    var b' := Next(b, e);
    forall f | f in b'.frames && b'.frames[f].phase.Live?
      ensures b'.frames[f].phase.owners == |OwnersOf(b'.handles, f)| && b'.frames[f].phase.owners > 0
    {
      CountKept(b, e, f);
    }
    forall h | h in b'.handles ensures b'.handles[h] in b'.frames && b'.frames[b'.handles[h]].phase.Live? {
      HandleKept(b, e, h);
    }
  }

  lemma StepKnowsSessions(b: Budget, e: Event)
    requires SessionsKnown(b) && Enabled(b, e)
    ensures SessionsKnown(Next(b, e))
  {
  }

  lemma StepKeepsInv(b: Budget, e: Event)
    requires Inv(b) && Enabled(b, e)
    ensures Inv(Next(b, e))
  {
    var b' := Next(b, e);
    assert SessionsKnown(b') by { StepKnowsSessions(b, e); }
    assert SharedConserved(b') by { StepConservesShared(b, e); }
    assert CountsExact(b') by { StepKeepsCounts(b, e); }
    forall s | s in b'.sessions ensures SessionConserved(b', s) {
      StepConservesSession(b, e, s);
    }
  }

  // ----- whole runs

  ghost predicate IsRun(run: seq<Budget>, events: seq<Event>) {
    && |run| == |events| + 1
    && run[0] == Budget(run[0].sharedCapacity, run[0].sharedCapacity, map[], map[], map[], map[])
    && forall i | 0 <= i < |events| :: Enabled(run[i], events[i]) && run[i + 1] == Next(run[i], events[i])
  }

  /**
   In every interleaving, each session's free permits, its wraps in progress and its live frames add up to its
   capacity; the shared pool adds up over all frames; and a handle always has its whole reservation behind it.
   */
  lemma {:induction false} RunConserves(run: seq<Budget>, events: seq<Event>, i: nat)
    requires IsRun(run, events) && i < |run|
    ensures Inv(run[i]) && run[i].sharedCapacity == run[0].sharedCapacity
  {
    if i == 0 {
      assert AllFrames(run[0].frames) == map[];
    } else {
      RunConserves(run, events, i - 1);
      StepKeepsInv(run[i - 1], events[i - 1]);
    }
  }

  /** The limits hold at every moment, and once nothing is in flight every permit is back. */
  lemma NoLeakNoOverrun(run: seq<Budget>, events: seq<Event>, i: nat)
    requires IsRun(run, events) && i < |run|
    ensures Sum(AllFrames(run[i].frames)) <= run[i].sharedCapacity
    ensures forall s | s in run[i].sessions :: Sum(FramesOf(run[i].frames, s)) <= run[i].sessions[s].capacity
    ensures run[i].frames == map[] ==> run[i].sharedFree == run[i].sharedCapacity
    ensures run[i].frames == map[] && run[i].wraps == map[] ==>
              forall s | s in run[i].sessions :: run[i].sessions[s].free == run[i].sessions[s].capacity
  {
    RunConserves(run, events, i);
    if run[i].frames == map[] {
      assert AllFrames(run[i].frames) == map[];
      forall s | s in run[i].sessions ensures SessionConserved(run[i], s) && FramesOf(run[i].frames, s) == map[] {}
      if run[i].wraps == map[] {
        forall s | s in run[i].sessions ensures SessionConserved(run[i], s) && WrapsOf(run[i].wraps, s) == map[] {}
      }
    }
  }

  /** A frame with no handle left can always finish giving its permits back, in two steps. */
  lemma DroppedFrameIsReleased(run: seq<Budget>, events: seq<Event>, i: nat, f: nat)
    requires IsRun(run, events) && i < |run| && f in run[i].frames && OwnersOf(run[i].handles, f) == {}
    ensures run[i].frames[f].phase.Dropping? || run[i].frames[f].phase.SharedOnly?
    ensures run[i].frames[f].phase.Dropping? ==>
              && Enabled(run[i], DropSessionPermit(f))
              && Enabled(Next(run[i], DropSessionPermit(f)), DropSharedPermit(f))
    ensures run[i].frames[f].phase.SharedOnly? ==> Enabled(run[i], DropSharedPermit(f))
  {
    RunConserves(run, events, i);
  }

  /** A refused wrap that nobody interrupts leaves the whole budget as it found it. */
  lemma RefusalRestoresEverything(b: Budget, wrap: nat, session: nat, len: nat)
    requires Enabled(b, TakeSession(wrap, session, len)) && len > b.sharedFree
    ensures var b1 := Next(b, TakeSession(wrap, session, len));
            && Enabled(b1, RefuseShared(wrap)) && Enabled(Next(b1, RefuseShared(wrap)), GiveBack(wrap))
            && Next(Next(b1, RefuseShared(wrap)), GiveBack(wrap)) == b
  {
  }

  /**
   A wrap's first acquisition succeeds exactly when it fits beside the session's live frames and its other wraps in
   progress.
   */
  lemma SessionAdmission(run: seq<Budget>, events: seq<Event>, i: nat, wrap: nat, s: nat, len: nat)
    requires IsRun(run, events) && i < |run| && s in run[i].sessions && wrap !in run[i].wraps && len <= U32_MAX
    ensures var b := run[i];
            Enabled(b, TakeSession(wrap, s, len)) <==>
              Sum(WrapsOf(b.wraps, s)) + Sum(FramesOf(b.frames, s)) + len <= b.sessions[s].capacity
  {
    hide Sum;
    RunConserves(run, events, i);
    assert SessionConserved(run[i], s);
  }

  /** Its second one succeeds exactly when it fits beside the live frames of all sessions, and is refused otherwise. */
  lemma SharedAdmission(run: seq<Budget>, events: seq<Event>, i: nat, wrap: nat, frame: nat, handle: nat)
    requires IsRun(run, events) && i < |run| && wrap in run[i].wraps && !run[i].wraps[wrap].refused
    requires frame !in run[i].frames && handle !in run[i].handles
    ensures var b := run[i];
            && (Enabled(b, TakeShared(wrap, frame, handle)) <==>
                  Sum(AllFrames(b.frames)) + b.wraps[wrap].len <= b.sharedCapacity)
            && (Enabled(b, TakeShared(wrap, frame, handle)) <==> !Enabled(b, RefuseShared(wrap)))
  {
    hide Sum;
    RunConserves(run, events, i);
  }

  /** The length is one a frame may have, and fits beside the live frames of its session and of the process. */
  ghost predicate FitsBesideFrames(b: Budget, s: nat, len: nat)
    requires s in b.sessions
  {
    && len <= U32_MAX
    && Sum(FramesOf(b.frames, s)) + len <= b.sessions[s].capacity && Sum(AllFrames(b.frames)) + len <= b.sharedCapacity
  }

  /** What a wrap starting now would be given, if nobody else moved until it is done. */
  predicate Admits(b: Budget, s: nat, len: nat)
    requires s in b.sessions
  {
    len <= U32_MAX && len <= b.sessions[s].free && len <= b.sharedFree
  }

  /**
   Wraps in progress make admission stricter than the live frames do for exactly these lengths: above the
   session's free permits, and up to what its wraps hold on top of that and what the shared pool still has.
   */
  lemma WronglyRefusedLengths(run: seq<Budget>, events: seq<Event>, i: nat, s: nat, len: nat)
    requires IsRun(run, events) && i < |run| && s in run[i].sessions
    ensures var b := run[i];
            && (Admits(b, s, len) ==> FitsBesideFrames(b, s, len))
            && (FitsBesideFrames(b, s, len) && !Admits(b, s, len) <==>
                b.sessions[s].free < len <= b.sessions[s].free + Sum(WrapsOf(b.wraps, s)) && len <= b.sharedFree
                  && len <= U32_MAX)
  {
    hide Sum;
    RunConserves(run, events, i);
    assert SessionConserved(run[i], s);
  }

  /**
   So admission is exact for every length exactly when the session has no bytes in progress, or its free permits are
   not the tightest limit.
   */
  lemma ExactAdmission(run: seq<Budget>, events: seq<Event>, i: nat, s: nat)
    requires IsRun(run, events) && i < |run| && s in run[i].sessions
    ensures var b := run[i];
            (forall len: nat :: Admits(b, s, len) <==> FitsBesideFrames(b, s, len)) <==>
            Sum(WrapsOf(b.wraps, s)) == 0 || b.sharedFree <= b.sessions[s].free || U32_MAX <= b.sessions[s].free
  {
    hide Sum;
    var b := run[i];
    forall len: nat
      ensures (Admits(b, s, len) <==> FitsBesideFrames(b, s, len)) <==>
              !(b.sessions[s].free < len <= b.sessions[s].free + Sum(WrapsOf(b.wraps, s)) && len <= b.sharedFree
                && len <= U32_MAX)
    {
      WronglyRefusedLengths(run, events, i, s, len);
    }
    var next := b.sessions[s].free + 1;
    assert (Admits(b, s, next) <==> FitsBesideFrames(b, s, next)) <==>
           !(next <= b.sessions[s].free + Sum(WrapsOf(b.wraps, s)) && next <= b.sharedFree && next <= U32_MAX);
  }

  /**
   A run in which that happens: a wrap that is bound to be refused by the shared pool keeps another of its session
   out.
   */
  lemma ContentionCanRefuseWhatWouldFit() returns (run: seq<Budget>, events: seq<Event>)
    ensures IsRun(run, events) && |run| == 3 && 0 in run[2].sessions && 1 !in run[2].wraps
    ensures Enabled(run[2], RefuseShared(0)) && FitsBesideFrames(run[2], 0, 1)
    ensures !Enabled(run[2], TakeSession(1, 0, 1)) && !Admits(run[2], 0, 1)
  {
    var empty := Budget(4, 4, map[], map[], map[], map[]);
    events := [OpenSession(0, 8), TakeSession(0, 0, 8)];
    var ready := Next(empty, events[0]);
    run := [empty, ready, Next(ready, events[1])];
    assert AllFrames(run[2].frames) == map[] && FramesOf(run[2].frames, 0) == map[];
  }
}
