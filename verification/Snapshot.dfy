/**
 Snapshot artifacts (src/snapshot.rs): what makes one valid, the validator and the constructors that must agree
 with it, and the encoded form. Route grammar, JSON and the digest are parameters.
 */
module Snapshot {
  import opened Basics
  import opened RouteMatcher
  import opened PatternCoverage

  const SNAPSHOT_FORMAT_VERSION: nat := 1
  const MAX_EVENT_SIZE: nat := 400 * 1024

  type Bytes = seq<bv8>

  datatype SnapshotDomain = Kv | Stream

  datatype KvEntry = KvEntry(key: Bytes, value: Bytes)
  datatype KvResource = KvResource(route: string, entries: seq<KvEntry>)
  datatype StreamRecord = StreamRecord(body: Bytes, metadata: Option<Bytes>)
  datatype StreamResource = StreamResource(route: string, capturedWatermark: nat, records: seq<StreamRecord>)

  datatype Payload = Payload(
    formatVersion: nat, domain: SnapshotDomain, routeFamily: nat, selector: string, recordCount: nat,
    resources: seq<KvResource>, streamResources: seq<StreamResource>)

  datatype Artifact = Artifact(payload: Payload, checksum: Bytes)

  /** Registration text of a domain compiles to a pattern or is refused; `split` is how a route is read for matching. */
  datatype Grammar = Grammar(compile: (SnapshotDomain, string) -> Option<Pattern>, split: string -> Route)

  datatype Codec = Codec(
    payloadBytes: Payload -> Option<Bytes>, digest: Bytes -> Bytes,
    encode: Artifact -> Option<Bytes>, decode: Bytes -> Option<Artifact>)

  /** The JSON codec reads back what it wrote. */
  ghost predicate RoundTrips(codec: Codec) {
    forall a :: codec.encode(a).Some? ==> codec.decode(codec.encode(a).value) == Some(a)
  }

  datatype SnapshotError =
    | UnsupportedVersion | InvalidFamily | InvalidSelector | WrongDomain | ForeignResources | MissingExactResource
    | RouteNotConcrete | OutsideSelector | DuplicateResource | DuplicateKey | WatermarkTooLow | EventTooLarge
    | CountOverflow | CountMismatch | Unencodable | ChecksumMismatch | Undecodable

  // ----- selectors

  datatype Selector = Selector(domain: SnapshotDomain, routeFamily: nat, route: string, pattern: Pattern)

  function NewSelector(g: Grammar, domain: SnapshotDomain, routeFamily: nat, route: string): Option<Selector> {
    if routeFamily == 0 || g.compile(domain, route).None? then None
    else Some(Selector(domain, routeFamily, route, g.compile(domain, route).value))
  }

  /** A selector obtained from `NewSelector`, for a family that is a u32. */
  predicate IsSelector(g: Grammar, s: Selector) {
    s.routeFamily <= U32_MAX && NewSelector(g, s.domain, s.routeFamily, s.route) == Some(s)
  }

  predicate IsExact(pattern: Pattern) {
    forall i | 0 <= i < |pattern.segments| :: pattern.segments[i].Literal?
  }

  predicate IsConcrete(g: Grammar, s: Selector, route: string) {
    var named := NewSelector(g, s.domain, s.routeFamily, route);
    named.Some? && IsExact(named.value.pattern)
  }

  predicate Selects(g: Grammar, s: Selector, route: string) {
    MatchesRoute(s.pattern, g.split(route))
  }

  // ----- the declarative notion of a valid artifact

  predicate RouteOk(g: Grammar, s: Selector, route: string) {
    IsConcrete(g, s, route) && Selects(g, s, route)
  }

  predicate DistinctTexts(texts: seq<string>) {
    forall i, j | 0 <= i < j < |texts| :: texts[i] != texts[j]
  }

  predicate DistinctKeys(entries: seq<KvEntry>) {
    forall i, j | 0 <= i < j < |entries| :: entries[i].key != entries[j].key
  }

  function EventSize(record: StreamRecord): nat {
    |record.body| + if record.metadata.Some? then |record.metadata.value| else 0
  }

  predicate AllReplayable(records: seq<StreamRecord>) {
    forall i | 0 <= i < |records| :: EventSize(records[i]) <= MAX_EVENT_SIZE
  }

  function KvDefects(r: KvResource): set<SnapshotError> {
    if DistinctKeys(r.entries) then {} else {DuplicateKey}
  }

  function StreamDefects(r: StreamResource): set<SnapshotError> {
    (if r.capturedWatermark >= |r.records| then {} else {WatermarkTooLow})
    + (if AllReplayable(r.records) then {} else {EventTooLarge})
  }

  /** Both kinds of resource reduced to what the shared rules look at. */
  datatype Item = Item(route: string, size: nat, defects: set<SnapshotError>)

  function KvItems(rs: seq<KvResource>): seq<Item> {
    seq(|rs|, i requires 0 <= i < |rs| => Item(rs[i].route, |rs[i].entries|, KvDefects(rs[i])))
  }

  function StreamItems(rs: seq<StreamResource>): seq<Item> {
    seq(|rs|, i requires 0 <= i < |rs| => Item(rs[i].route, |rs[i].records|, StreamDefects(rs[i])))
  }

  function Items(p: Payload): seq<Item> {
    match p.domain case Kv => KvItems(p.resources) case Stream => StreamItems(p.streamResources)
  }

  function Total(items: seq<Item>): nat {
    if items == [] then 0 else Total(items[..|items| - 1]) + items[|items| - 1].size
  }

  function Routes(items: seq<Item>): seq<string> {
    seq(|items|, i requires 0 <= i < |items| => items[i].route)
  }

  predicate ExactRule(s: Selector, items: seq<Item>) {
    IsExact(s.pattern) ==> |items| == 1 && items[0].route == s.route
  }

  /** The rules every resource list obeys. */
  predicate ItemsOk(g: Grammar, s: Selector, items: seq<Item>) {
    && (forall i | 0 <= i < |items| :: RouteOk(g, s, items[i].route) && items[i].defects == {})
    && DistinctTexts(Routes(items))
    && Total(items) <= U64_MAX
  }

  predicate ValidPayload(g: Grammar, p: Payload) {
    && p.formatVersion == SNAPSHOT_FORMAT_VERSION
    && p.routeFamily <= U32_MAX && NewSelector(g, p.domain, p.routeFamily, p.selector).Some?
    && (match p.domain case Kv => p.streamResources == [] case Stream => p.resources == [])
    && var s := NewSelector(g, p.domain, p.routeFamily, p.selector).value;
    && ExactRule(s, Items(p)) && ItemsOk(g, s, Items(p))
    && p.recordCount == Total(Items(p))
  }

  predicate Sealed(codec: Codec, a: Artifact) {
    codec.payloadBytes(a.payload).Some? && a.checksum == codec.digest(codec.payloadBytes(a.payload).value)
  }

  predicate ValidArtifact(g: Grammar, codec: Codec, a: Artifact) {
    ValidPayload(g, a.payload) && Sealed(codec, a)
  }

  /** Each error names a rule the artifact really breaks. */
  ghost predicate Breaks(g: Grammar, codec: Codec, a: Artifact, error: SnapshotError) {
    var p := a.payload;
    match error
    case UnsupportedVersion => p.formatVersion != SNAPSHOT_FORMAT_VERSION
    case InvalidFamily => p.routeFamily > U32_MAX
    case InvalidSelector => NewSelector(g, p.domain, p.routeFamily, p.selector).None?
    case ForeignResources => if p.domain == Kv then p.streamResources != [] else p.resources != []
    case CountMismatch => p.recordCount != Total(Items(p))
    case Unencodable => codec.payloadBytes(p).None?
    case ChecksumMismatch => codec.payloadBytes(p).Some? && a.checksum != codec.digest(codec.payloadBytes(p).value)
    case _ =>
      var s := NewSelector(g, p.domain, p.routeFamily, p.selector);
      s.Some? && BreaksList(g, s.value, Items(p), error)
  }

  ghost predicate BreaksList(g: Grammar, s: Selector, items: seq<Item>, error: SnapshotError) {
    match error
    case MissingExactResource => !ExactRule(s, items)
    case RouteNotConcrete => exists i :: 0 <= i < |items| && !IsConcrete(g, s, items[i].route)
    case OutsideSelector => exists i :: 0 <= i < |items| && !Selects(g, s, items[i].route)
    case DuplicateResource => !DistinctTexts(Routes(items))
    case DuplicateKey | WatermarkTooLow | EventTooLarge => exists i :: 0 <= i < |items| && error in items[i].defects
    case CountOverflow => Total(items) > U64_MAX
    case _ => false
  }

  lemma {:induction false} TotalGrows(items: seq<Item>, n: nat)
    requires n <= |items|
    ensures Total(items[..n]) <= Total(items)
    decreases |items|
  {
    if n == |items| {
      assert items[..n] == items;
    } else {
      TotalGrows(items[..|items| - 1], n);
      assert items[..|items| - 1][..n] == items[..n];
    }
  }

  lemma TotalNext(items: seq<Item>, n: nat)
    requires n < |items|
    ensures Total(items[..n + 1]) == Total(items[..n]) + items[n].size
  {
    assert items[..n + 1][..n] == items[..n];
  }

  // ----- the validator

  method KeysAreDistinct(entries: seq<KvEntry>) returns (distinct: bool)
    ensures distinct <==> DistinctKeys(entries)
  {
    var keys: set<Bytes> := {};
    for n := 0 to |entries|
      invariant keys == set i | 0 <= i < n :: entries[i].key
      invariant DistinctKeys(entries[..n])
    {
      if entries[n].key in keys {
        return false;
      }
      keys := keys + {entries[n].key};
      assert entries[..n + 1] == entries[..n] + [entries[n]];
    }
    assert entries[..|entries|] == entries;
    return true;
  }

  function SaturatingAdd(a: nat, b: nat): nat {
    Clamp64(a + b)
  }

  method AnyTooLarge(records: seq<StreamRecord>) returns (tooLarge: bool)
    ensures tooLarge <==> !AllReplayable(records)
  {
    for n := 0 to |records|
      invariant forall i | 0 <= i < n :: EventSize(records[i]) <= MAX_EVENT_SIZE
    {
      var metadata := if records[n].metadata.Some? then |records[n].metadata.value| else 0;
      if SaturatingAdd(|records[n].body|, metadata) > MAX_EVENT_SIZE {
        return true;
      }
    }
    return false;
  }

  /** The per-resource checks, in source order, for the resource at `n`; `routes` holds the routes before it. */
  method CheckRoute(g: Grammar, s: Selector, items: seq<Item>, n: nat, routes: set<string>)
    returns (checked: Result<(), SnapshotError>)
    requires n < |items| && routes == set i | 0 <= i < n :: items[i].route
    ensures checked.Ok? <==> RouteOk(g, s, items[n].route) && items[n].route !in routes
    ensures checked.Err? ==> BreaksList(g, s, items, checked.error)
  {
    var named := NewSelector(g, s.domain, s.routeFamily, items[n].route);
    if named.None? || !IsExact(named.value.pattern) {
      return Err(RouteNotConcrete);
    }
    if !MatchesRoute(s.pattern, g.split(items[n].route)) {
      return Err(OutsideSelector);
    }
    if items[n].route in routes {
      var i :| 0 <= i < n && items[i].route == items[n].route;
      assert Routes(items)[i] == Routes(items)[n];
      return Err(DuplicateResource);
    }
    return Ok(());
  }

  ghost predicate PrefixOk(g: Grammar, s: Selector, items: seq<Item>, n: nat)
    requires n <= |items|
  {
    && (forall i | 0 <= i < n :: RouteOk(g, s, items[i].route) && items[i].defects == {})
    && (forall i, j | 0 <= i < j < n :: items[i].route != items[j].route)
    && Total(items[..n]) <= U64_MAX
  }

  lemma PrefixStart(g: Grammar, s: Selector, items: seq<Item>)
    ensures PrefixOk(g, s, items, 0) && Total(items[..0]) == 0
  {
  }

  lemma PrefixComplete(g: Grammar, s: Selector, items: seq<Item>)
    ensures PrefixOk(g, s, items, |items|) <==> ItemsOk(g, s, items)
  {
    assert items[..|items|] == items;
    forall i, j | 0 <= i < j < |items|
      ensures Routes(items)[i] == Routes(items)[j] <==> items[i].route == items[j].route {}
  }

  /** An error at any point refutes the whole list. */
  lemma PrefixBroken(g: Grammar, s: Selector, items: seq<Item>, n: nat)
    requires n < |items|
    requires !RouteOk(g, s, items[n].route) || items[n].defects != {} || Total(items[..n + 1]) > U64_MAX
             || exists i :: 0 <= i < n && items[i].route == items[n].route
    ensures !ItemsOk(g, s, items)
  {
    TotalGrows(items, n + 1);
    if i :| 0 <= i < n && items[i].route == items[n].route {
      assert Routes(items)[i] == Routes(items)[n];
    }
  }

  method ValidateKv(g: Grammar, s: Selector, resources: seq<KvResource>) returns (counted: Result<nat, SnapshotError>)
    requires s.domain == Kv
    ensures var items := KvItems(resources);
            && (counted.Ok? <==> ItemsOk(g, s, items)) && (counted.Ok? ==> counted.value == Total(items))
            && (counted.Err? ==> BreaksList(g, s, items, counted.error))
  {
    hide Total, ItemsOk;
    var items := KvItems(resources);
    PrefixStart(g, s, items);
    var recordCount := 0;
    var routes: set<string> := {};
    for n := 0 to |resources|
      invariant PrefixOk(g, s, items, n) && recordCount == Total(items[..n])
      invariant routes == set i | 0 <= i < n :: items[i].route
    {
      var checked := CheckRoute(g, s, items, n, routes);
      if checked.Err? {
        PrefixBroken(g, s, items, n);
        return Err(checked.error);
      }
      routes := routes + {resources[n].route};
      var distinct := KeysAreDistinct(resources[n].entries);
      if !distinct {
        assert DuplicateKey in items[n].defects;
        PrefixBroken(g, s, items, n);
        return Err(DuplicateKey);
      }
      TotalNext(items, n);
      if recordCount + |resources[n].entries| > U64_MAX {
        PrefixBroken(g, s, items, n);
        TotalGrows(items, n + 1);
        return Err(CountOverflow);
      }
      recordCount := recordCount + |resources[n].entries|;
    }
    PrefixComplete(g, s, items);
    assert items[..|resources|] == items;
    return Ok(recordCount);
  }

  method ValidateStream(g: Grammar, s: Selector, resources: seq<StreamResource>)
    returns (counted: Result<nat, SnapshotError>)
    requires s.domain == Stream
    ensures var items := StreamItems(resources);
            && (counted.Ok? <==> ItemsOk(g, s, items)) && (counted.Ok? ==> counted.value == Total(items))
            && (counted.Err? ==> BreaksList(g, s, items, counted.error))
  {
    hide Total, ItemsOk;
    var items := StreamItems(resources);
    PrefixStart(g, s, items);
    var recordCount := 0;
    var routes: set<string> := {};
    for n := 0 to |resources|
      invariant PrefixOk(g, s, items, n) && recordCount == Total(items[..n])
      invariant routes == set i | 0 <= i < n :: items[i].route
    {
      var checked := CheckRoute(g, s, items, n, routes);
      if checked.Err? {
        PrefixBroken(g, s, items, n);
        return Err(checked.error);
      }
      routes := routes + {resources[n].route};
      if resources[n].capturedWatermark < |resources[n].records| {
        assert WatermarkTooLow in items[n].defects;
        PrefixBroken(g, s, items, n);
        return Err(WatermarkTooLow);
      }
      var tooLarge := AnyTooLarge(resources[n].records);
      if tooLarge {
        assert EventTooLarge in items[n].defects;
        PrefixBroken(g, s, items, n);
        return Err(EventTooLarge);
      }
      TotalNext(items, n);
      if recordCount + |resources[n].records| > U64_MAX {
        PrefixBroken(g, s, items, n);
        TotalGrows(items, n + 1);
        return Err(CountOverflow);
      }
      recordCount := recordCount + |resources[n].records|;
    }
    PrefixComplete(g, s, items);
    assert items[..|resources|] == items;
    return Ok(recordCount);
  }

  /** The validator accepts exactly the valid artifacts, and a refusal names a rule that is broken. */
  method Validate(g: Grammar, codec: Codec, a: Artifact) returns (checked: Result<(), SnapshotError>)
    ensures checked.Ok? <==> ValidArtifact(g, codec, a)
    ensures checked.Err? ==> Breaks(g, codec, a, checked.error)
  {
    var p := a.payload;
    if p.formatVersion != SNAPSHOT_FORMAT_VERSION {
      return Err(UnsupportedVersion);
    }
    if p.routeFamily > U32_MAX {
      return Err(InvalidFamily);
    }
    var named := NewSelector(g, p.domain, p.routeFamily, p.selector);
    if named.None? {
      return Err(InvalidSelector);
    }
    var s := named.value;
    if (p.domain == Kv && p.streamResources != []) || (p.domain == Stream && p.resources != []) {
      return Err(ForeignResources);
    }
    var counted;
    match p.domain {
      case Kv =>
        if IsExact(s.pattern) && (|p.resources| != 1 || p.resources[0].route != s.route) {
          return Err(MissingExactResource);
        }
        counted := ValidateKv(g, s, p.resources);
      case Stream =>
        if IsExact(s.pattern) && (|p.streamResources| != 1 || p.streamResources[0].route != s.route) {
          return Err(MissingExactResource);
        }
        counted := ValidateStream(g, s, p.streamResources);
    }
    if counted.Err? {
      return Err(counted.error);
    }
    if counted.value != p.recordCount {
      return Err(CountMismatch);
    }
    var bytes := codec.payloadBytes(p);
    if bytes.None? {
      return Err(Unencodable);
    }
    if codec.digest(bytes.value) != a.checksum {
      return Err(ChecksumMismatch);
    }
    return Ok(());
  }

  // ----- the constructors

  function KvPayload(s: Selector, resources: seq<KvResource>): Payload {
    Payload(SNAPSHOT_FORMAT_VERSION, Kv, s.routeFamily, s.route, Total(KvItems(resources)), resources, [])
  }

  function StreamPayload(s: Selector, resources: seq<StreamResource>): Payload {
    Payload(SNAPSHOT_FORMAT_VERSION, Stream, s.routeFamily, s.route, Total(StreamItems(resources)), [], resources)
  }

  /** Errors a constructor can never report, because it computes what they would compare. */
  predicate Unreachable(error: SnapshotError) {
    error.UnsupportedVersion? || error.InvalidFamily? || error.InvalidSelector? || error.ForeignResources?
    || error.CountMismatch? || error.ChecksumMismatch? || error.Undecodable?
  }

  method FromPayload(g: Grammar, codec: Codec, p: Payload) returns (built: Result<Artifact, SnapshotError>)
    ensures built.Ok? <==> ValidPayload(g, p) && codec.payloadBytes(p).Some?
    ensures built.Ok? ==> built.value.payload == p && ValidArtifact(g, codec, built.value)
    ensures built.Err? ==>
              built.error != ChecksumMismatch
                && (built.error == Unencodable || forall c :: Breaks(g, codec, Artifact(p, c), built.error))
  {
    var bytes := codec.payloadBytes(p);
    if bytes.None? {
      return Err(Unencodable);
    }
    var artifact := Artifact(p, codec.digest(bytes.value));
    var checked := Validate(g, codec, artifact);
    if checked.Err? {
      return Err(checked.error);
    }
    return Ok(artifact);
  }

  /** The KV constructor succeeds exactly on resource lists that make a valid, encodable payload. */
  method FromKvResources(g: Grammar, codec: Codec, s: Selector, resources: seq<KvResource>)
    returns (built: Result<Artifact, SnapshotError>)
    requires IsSelector(g, s)
    ensures built.Ok? <==> s.domain == Kv && ExactRule(s, KvItems(resources)) && ItemsOk(g, s, KvItems(resources))
                           && codec.payloadBytes(KvPayload(s, resources)).Some?
    ensures built.Ok? ==> built.value.payload == KvPayload(s, resources) && ValidArtifact(g, codec, built.value)
    ensures built.Err? ==> !Unreachable(built.error)
  {
    if s.domain != Kv {
      return Err(WrongDomain);
    }
    if IsExact(s.pattern) && (|resources| != 1 || resources[0].route != s.route) {
      return Err(MissingExactResource);
    }
    ghost var items := KvItems(resources);
    var recordCount := 0;
    for n := 0 to |resources|
      invariant recordCount == Total(items[..n]) <= U64_MAX
    {
      TotalNext(items, n);
      if !MatchesRoute(s.pattern, g.split(resources[n].route)) {
        PrefixBroken(g, s, items, n);
        return Err(OutsideSelector);
      }
      if recordCount + |resources[n].entries| > U64_MAX {
        PrefixBroken(g, s, items, n);
        return Err(CountOverflow);
      }
      recordCount := recordCount + |resources[n].entries|;
    }
    assert items[..|resources|] == items;
    built := FromPayload(g, codec,
      Payload(SNAPSHOT_FORMAT_VERSION, Kv, s.routeFamily, s.route, recordCount, resources, []));
    if built.Err? {
      NoMismatch(g, codec, s, KvPayload(s, resources), built.error);
    }
  }

  /** The Stream constructor's fold: the running count, or the first rule a resource breaks. */
  function CountStreams(g: Grammar, s: Selector, resources: seq<StreamResource>): Result<nat, SnapshotError> {
    if resources == [] then Ok(0)
    else
      var last := resources[|resources| - 1];
      match CountStreams(g, s, resources[..|resources| - 1])
      case Err(error) => Err(error)
      case Ok(count) =>
        if !MatchesRoute(s.pattern, g.split(last.route)) then Err(OutsideSelector)
        else if last.capturedWatermark < |last.records| then Err(WatermarkTooLow)
        else if exists i :: 0 <= i < |last.records| && EventSize(last.records[i]) > MAX_EVENT_SIZE then
          Err(EventTooLarge)
        else if count + |last.records| > U64_MAX then Err(CountOverflow)
        else Ok(count + |last.records|)
  }

  lemma {:induction false} StreamCountAgrees(g: Grammar, s: Selector, resources: seq<StreamResource>)
    ensures var counted := CountStreams(g, s, resources);
            && (counted.Ok? ==> counted.value == Total(StreamItems(resources)))
            && (counted.Err? ==> !Unreachable(counted.error) && !ItemsOk(g, s, StreamItems(resources)))
    decreases |resources|
  {
    if resources != [] {
      var n := |resources| - 1;
      var items := StreamItems(resources);
      StreamCountAgrees(g, s, resources[..n]);
      assert StreamItems(resources[..n]) == items[..n];
      assert items[..n + 1] == items;
      var counted := CountStreams(g, s, resources);
      if CountStreams(g, s, resources[..n]).Err? {
        if ItemsOk(g, s, items) { SublistOk(g, s, items, n); }
      } else if counted.Err? {
        PrefixBroken(g, s, items, n);
      }
    }
  }

  lemma SublistOk(g: Grammar, s: Selector, items: seq<Item>, n: nat)
    requires n <= |items| && ItemsOk(g, s, items)
    ensures ItemsOk(g, s, items[..n])
  {
    TotalGrows(items, n);
    assert Routes(items[..n]) == Routes(items)[..n];
  }

  method FromStreamResources(g: Grammar, codec: Codec, s: Selector, resources: seq<StreamResource>)
    returns (built: Result<Artifact, SnapshotError>)
    requires IsSelector(g, s)
    ensures built.Ok? <==>
              s.domain == Stream && ExactRule(s, StreamItems(resources)) && ItemsOk(g, s, StreamItems(resources))
                           && codec.payloadBytes(StreamPayload(s, resources)).Some?
    ensures built.Ok? ==> built.value.payload == StreamPayload(s, resources) && ValidArtifact(g, codec, built.value)
    ensures built.Err? ==> !Unreachable(built.error)
  {
    if s.domain != Stream {
      return Err(WrongDomain);
    }
    if IsExact(s.pattern) && (|resources| != 1 || resources[0].route != s.route) {
      return Err(MissingExactResource);
    }
    StreamCountAgrees(g, s, resources);
    var counted := CountStreams(g, s, resources);
    if counted.Err? {
      return Err(counted.error);
    }
    built := FromPayload(g, codec,
      Payload(SNAPSHOT_FORMAT_VERSION, Stream, s.routeFamily, s.route, counted.value, [], resources));
    if built.Err? {
      NoMismatch(g, codec, s, StreamPayload(s, resources), built.error);
    }
  }

  /** With version, selector and count taken from the selector and the data, those checks cannot fail. */
  lemma NoMismatch(g: Grammar, codec: Codec, s: Selector, p: Payload, error: SnapshotError)
    requires IsSelector(g, s) && (p == KvPayload(s, p.resources) || p == StreamPayload(s, p.streamResources))
             && p.domain == s.domain
    requires error == Unencodable || forall c :: Breaks(g, codec, Artifact(p, c), error)
    requires error != ChecksumMismatch
    ensures !Unreachable(error)
  {
    if error != Unencodable {
      assert Breaks(g, codec, Artifact(p, []), error);
    }
  }

  // ----- the encoded form

  function Encoded(g: Grammar, codec: Codec, a: Artifact): Option<Bytes> {
    if ValidArtifact(g, codec, a) then codec.encode(a) else None
  }

  function Decoded(g: Grammar, codec: Codec, bytes: Bytes): Option<Artifact> {
    var a := codec.decode(bytes);
    if a.Some? && ValidArtifact(g, codec, a.value) then a else None
  }

  method ToBytes(g: Grammar, codec: Codec, a: Artifact) returns (bytes: Result<Bytes, SnapshotError>)
    ensures bytes.Ok? <==> Encoded(g, codec, a).Some?
    ensures bytes.Ok? ==> Some(bytes.value) == Encoded(g, codec, a)
    ensures ValidArtifact(g, codec, a) && bytes.Err? ==> bytes.error == Unencodable
  {
    var checked := Validate(g, codec, a);
    if checked.Err? {
      return Err(checked.error);
    }
    var encoded := codec.encode(a);
    if encoded.None? {
      return Err(Unencodable);
    }
    return Ok(encoded.value);
  }

  /** Nothing is handed out unless it decodes and validates. */
  method FromBytes(g: Grammar, codec: Codec, bytes: Bytes) returns (a: Result<Artifact, SnapshotError>)
    ensures a.Ok? <==> Decoded(g, codec, bytes).Some?
    ensures a.Ok? ==> Some(a.value) == Decoded(g, codec, bytes) && ValidArtifact(g, codec, a.value)
  {
    var decoded := codec.decode(bytes);
    if decoded.None? {
      return Err(Undecodable);
    }
    var checked := Validate(g, codec, decoded.value);
    if checked.Err? {
      return Err(checked.error);
    }
    return Ok(decoded.value);
  }

  /** What was encoded comes back whole, and encoding never fails for want of validity once constructed. */
  lemma EncodedRoundTrips(g: Grammar, codec: Codec, a: Artifact)
    requires RoundTrips(codec) && Encoded(g, codec, a).Some?
    ensures Decoded(g, codec, Encoded(g, codec, a).value) == Some(a)
  {
  }
}
