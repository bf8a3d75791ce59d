/**
 The cloud catalog fixture (benches/cloud_catalog/fixture.rs): a long put log over few keys, and what is left of it.
 */
module CatalogFixture {
  import opened Basics
  import opened RpcWire

  const KEYS: nat := 32

  /** A storage key: the encoded family prefix followed by the slot, big end first. */
  function Key(prefix: Bytes, slot: nat): Bytes {
    prefix + ToBE(slot, 4)
  }

  function Repeat(s: Bytes, times: nat): Bytes {
    if times == 0 then [] else s + Repeat(s, times - 1)
  }

  function Value(sequence: nat): Bytes {
    Repeat(ToBE(sequence, 4), 32)
  }

  /** The index of the write a slot should end with; the subtractions are the source's unsigned ones. */
  function ExpectedIndex(records: nat, slot: nat): (index: nat)
    requires slot < records
    ensures index < records
  {
    var last := records - 1;
    last - (last - slot) % KEYS
  }

  function Expected(records: nat, slot: nat): Bytes
    requires slot < records
  {
    Value(ExpectedIndex(records, slot))
  }

  // ----- encodings tell numbers apart

  lemma NumbersDiffer(a: nat, b: nat)
    requires a <= U32_MAX && b <= U32_MAX && ToBE(a, 4) == ToBE(b, 4)
    ensures a == b
  {
    Pow256Values();
    NumberToBytesAndBack(a, 4);
    NumberToBytesAndBack(b, 4);
  }

  lemma KeysDiffer(prefix: Bytes, a: nat, b: nat)
    requires a <= U32_MAX && b <= U32_MAX
    ensures Key(prefix, a) == Key(prefix, b) <==> a == b
  {
    if Key(prefix, a) == Key(prefix, b) {
      assert Key(prefix, a)[|prefix|..] == ToBE(a, 4) && Key(prefix, b)[|prefix|..] == ToBE(b, 4);
      NumbersDiffer(a, b);
    }
  }

  lemma ValuesDiffer(a: nat, b: nat)
    requires a <= U32_MAX && b <= U32_MAX
    ensures Value(a) == Value(b) <==> a == b
  {
    if Value(a) == Value(b) {
      assert Value(a)[..4] == ToBE(a, 4) && Value(b)[..4] == ToBE(b, 4);
      NumbersDiffer(a, b);
    }
  }

  // ----- the log and its replay

  datatype Put = Put(key: Bytes, value: Bytes, sequence: nat)

  function Replay(state: map<Bytes, Bytes>, log: seq<Put>): map<Bytes, Bytes> {
    if log == [] then state
    else
      var last := log[|log| - 1];
      Replay(state, log[..|log| - 1])[last.key := last.value]
  }

  /** The fixture's log: put number i writes i to slot i mod 32. */
  ghost predicate IsFixtureLog(log: seq<Put>, prefix: Bytes, firstSequence: nat) {
    |log| <= U32_MAX
    && forall i | 0 <= i < |log| :: log[i] == Put(Key(prefix, i % KEYS), Value(i), firstSequence + i)
  }

  /** The closed form is the latest write to the slot. */
  lemma ClosedFormIsLatest(records: nat, slot: nat)
    requires slot < records && slot < KEYS
    ensures ExpectedIndex(records, slot) % KEYS == slot
    ensures forall i | ExpectedIndex(records, slot) < i < records :: i % KEYS != slot
  {
  }

  lemma ExpectedNext(records: nat, slot: nat)
    requires slot < records && slot < KEYS
    ensures ExpectedIndex(records + 1, slot) == if records % KEYS == slot then records else ExpectedIndex(records, slot)
  {
  }

  lemma LogPrefix(log: seq<Put>, prefix: Bytes, firstSequence: nat)
    requires log != [] && IsFixtureLog(log, prefix, firstSequence)
    ensures IsFixtureLog(log[..|log| - 1], prefix, firstSequence)
    ensures log[|log| - 1] == Put(Key(prefix, (|log| - 1) % KEYS), Value(|log| - 1), firstSequence + |log| - 1)
  {
  }

  /** Replaying the log, however long, leaves a written slot holding exactly the closed form. */
  lemma {:induction false} ReplayGivesExpected(state: map<Bytes, Bytes>, log: seq<Put>, prefix: Bytes,
      firstSequence: nat, slot: nat)
    requires IsFixtureLog(log, prefix, firstSequence) && slot < KEYS && slot < |log|
    ensures Key(prefix, slot) in Replay(state, log) && Replay(state, log)[Key(prefix, slot)] == Expected(|log|, slot)
    decreases |log|
  {
    hide ToBE, Value, IsFixtureLog, Key;
    var n := |log| - 1;
    LogPrefix(log, prefix, firstSequence);
    KeysDiffer(prefix, n % KEYS, slot);
    if slot < n {
      ReplayGivesExpected(state, log[..n], prefix, firstSequence, slot);
      ExpectedNext(n, slot);
    }
  }

  /** The log touches no key but its slots. */
  lemma {:induction false} OtherKeysAreKept(state: map<Bytes, Bytes>, log: seq<Put>, prefix: Bytes,
      firstSequence: nat, key: Bytes)
    requires IsFixtureLog(log, prefix, firstSequence) && forall slot | 0 <= slot < KEYS :: key != Key(prefix, slot)
    ensures (key in Replay(state, log) <==> key in state) && (key in state ==> Replay(state, log)[key] == state[key])
    decreases |log|
  {
    hide ToBE, Value, IsFixtureLog, Key;
    if log != [] {
      LogPrefix(log, prefix, firstSequence);
      OtherKeysAreKept(state, log[..|log| - 1], prefix, firstSequence, key);
    }
  }

  /** What a reader finds after replay: the seed untouched, every slot as expected, nothing else. */
  ghost predicate HoldsFixture(state: map<Bytes, Bytes>, prefix: Bytes, seed: Bytes, records: nat)
    requires records >= KEYS
  {
    && Key(prefix, U32_MAX) in state && state[Key(prefix, U32_MAX)] == seed
    && (forall slot | 0 <= slot < KEYS ::
          Key(prefix, slot) in state && state[Key(prefix, slot)] == Expected(records, slot))
    && (forall key | key in state ::
          key == Key(prefix, U32_MAX) || exists slot :: 0 <= slot < KEYS && key == Key(prefix, slot))
  }

  lemma FixtureIsReadBack(log: seq<Put>, prefix: Bytes, firstSequence: nat, seed: Bytes)
    requires IsFixtureLog(log, prefix, firstSequence) && |log| >= KEYS
    ensures HoldsFixture(Replay(map[Key(prefix, U32_MAX) := seed], log), prefix, seed, |log|)
  {
    hide Key, Expected, Replay;
    var seeded := map[Key(prefix, U32_MAX) := seed];
    var state := Replay(seeded, log);
    forall slot | 0 <= slot < KEYS
      ensures Key(prefix, slot) in state && state[Key(prefix, slot)] == Expected(|log|, slot)
              && Key(prefix, slot) != Key(prefix, U32_MAX)
    {
      ReplayGivesExpected(seeded, log, prefix, firstSequence, slot);
      KeysDiffer(prefix, slot, U32_MAX);
    }
    OtherKeysAreKept(seeded, log, prefix, firstSequence, Key(prefix, U32_MAX));
    forall key | key in state
      ensures key == Key(prefix, U32_MAX) || exists slot :: 0 <= slot < KEYS && key == Key(prefix, slot)
    {
      if forall slot | 0 <= slot < KEYS :: key != Key(prefix, slot) {
        OtherKeysAreKept(seeded, log, prefix, firstSequence, key);
      }
    }
  }

  // ----- publishing the log as sealed segments

  /** One sealed segment: its id, what it follows, its single record, its size and the link to it. */
  datatype Segment<L> = Segment(id: nat, previous: L, record: Put, size: nat, link: L)

  function Sizes<L>(segments: seq<Segment<L>>): nat {
    if segments == [] then 0 else Sizes(segments[..|segments| - 1]) + segments[|segments| - 1].size
  }

  function LinkBefore<L>(segments: seq<Segment<L>>, i: nat, head: L): L
    requires i <= |segments|
  {
    if i == 0 then head else segments[i - 1].link
  }

  /** Ids are consecutive and each segment follows the one before it, the first one the catalog's head. */
  ghost predicate IsChain<L(!new)>(segments: seq<Segment<L>>, firstId: nat, head: L, seal: (nat, L, Put) -> (nat, L)) {
    forall i | 0 <= i < |segments| ::
      && segments[i].id == firstId + i && segments[i].previous == LinkBefore(segments, i, head)
      && (segments[i].size, segments[i].link) == seal(segments[i].id, segments[i].previous, segments[i].record)
  }

  lemma NoChain<L(!new)>(firstId: nat, head: L, seal: (nat, L, Put) -> (nat, L))
    ensures IsChain([], firstId, head, seal) && Sizes<L>([]) == 0 && LinkBefore([], 0, head) == head
  {
  }

  lemma ChainNext<L(!new)>(segments: seq<Segment<L>>, next: Segment<L>, firstId: nat, head: L,
      seal: (nat, L, Put) -> (nat, L))
    requires IsChain(segments, firstId, head, seal)
    requires next.id == firstId + |segments| && next.previous == LinkBefore(segments, |segments|, head)
    requires (next.size, next.link) == seal(next.id, next.previous, next.record)
    ensures IsChain(segments + [next], firstId, head, seal) && Sizes(segments + [next]) == Sizes(segments) + next.size
    ensures LinkBefore(segments + [next], |segments| + 1, head) == next.link
  {
    var longer := segments + [next];
    assert longer[..|segments|] == segments;
    forall i | 0 <= i < |longer|
      ensures longer[i].previous == LinkBefore(longer, i, head) && (i < |segments| ==> longer[i] == segments[i])
    {
      assert i < |segments| ==> LinkBefore(longer, i, head) == LinkBefore(segments, i, head);
    }
  }

  method Publish<L(!new)>(prefix: Bytes, segments: nat, firstId: nat, firstSequence: nat, head: L,
      seal: (nat, L, Put) -> (nat, L), ghost seed: Bytes)
    returns (chain: seq<Segment<L>>, walBytes: nat, ghost log: seq<Put>)
    requires KEYS <= segments <= U32_MAX && segments % KEYS == 0
    ensures |chain| == |log| == segments && IsChain(chain, firstId, head, seal) && walBytes == Sizes(chain)
    ensures IsFixtureLog(log, prefix, firstSequence) && forall i | 0 <= i < segments :: chain[i].record == log[i]
    ensures HoldsFixture(Replay(map[Key(prefix, U32_MAX) := seed], log), prefix, seed, segments)
  {
    hide Key, Value, Replay, HoldsFixture, IsChain, LinkBefore, Sizes;
    var previous := head;
    chain, walBytes, log := [], 0, [];
    NoChain(firstId, head, seal);
    for index := 0 to segments
      invariant |chain| == |log| == index && IsChain(chain, firstId, head, seal) && walBytes == Sizes(chain)
      invariant previous == LinkBefore(chain, index, head)
      invariant IsFixtureLog(log, prefix, firstSequence) && forall i | 0 <= i < index :: chain[i].record == log[i]
    {
      var record := Put(Key(prefix, index % KEYS), Value(index), firstSequence + index);
      var (size, link) := seal(firstId + index, previous, record);
      var segment := Segment(firstId + index, previous, record, size, link);
      ChainNext(chain, segment, firstId, head, seal);
      chain, walBytes, log := chain + [segment], walBytes + size, log + [record];
      previous := link;
    }
    FixtureIsReadBack(log, prefix, firstSequence, seed);
  }
}
