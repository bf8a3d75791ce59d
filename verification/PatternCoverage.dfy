/**
 Authorization by language inclusion (src/runtime/matcher.rs): a granted pattern covers a requested
 one when every path the request matches is matched by the grant. The source decides this by walking
 the product of two position automata; its u128 masks are modelled as the sets of positions they hold.
 */
module PatternCoverage {
  import opened Basics
  import opened RouteMatcher

  const MASK_BITS: nat := 128
  const MAX_PATTERN_COVERAGE_STATES: nat := 16_384

  /** What a path segment looks like to the automata: a literal of either pattern, or anything else. */
  datatype Symbol = Other | Known(text: string)

  datatype Pair = Pair(requested: set<nat>, allowed: set<nat>)

  predicate Consumes(segment: PatternSegment, symbol: Symbol) {
    segment == Star || (segment.Literal? && symbol == Known(segment.text))
  }

  // ----- the reference: inclusion of the two matched languages

  ghost predicate Covered(requested: seq<PatternSegment>, allowed: seq<PatternSegment>) {
    forall path | IsPath(path) && Matches(requested, path) :: Matches(allowed, path)
  }

  ghost predicate CoveredAtDepth(requested: seq<PatternSegment>, allowed: seq<PatternSegment>, depth: nat) {
    forall path | IsPath(path) && |path| == depth && Matches(requested, path) :: Matches(allowed, path)
  }

  // ----- automaton positions

  ghost predicate InClosure(pattern: seq<PatternSegment>, states: set<nat>, j: nat)
    requires j <= |pattern|
  {
    j in states || (j > 0 && pattern[j - 1] == DoubleStar && InClosure(pattern, states, j - 1))
  }

  ghost function Closure(pattern: seq<PatternSegment>, states: set<nat>): set<nat> {
    set j: nat | j <= |pattern| && InClosure(pattern, states, j)
  }

  ghost predicate Moved(pattern: seq<PatternSegment>, states: set<nat>, symbol: Symbol, j: nat) {
    || (j < |pattern| && j in states && pattern[j] == DoubleStar)
    || (0 < j <= |pattern| && j - 1 in states && Consumes(pattern[j - 1], symbol))
  }

  ghost function Step(pattern: seq<PatternSegment>, states: set<nat>, symbol: Symbol): set<nat> {
    Closure(pattern, set j: nat | j <= |pattern| && Moved(pattern, states, symbol, j))
  }

  predicate IsPosition(pattern: seq<PatternSegment>, j: nat) {
    j <= |pattern|
  }

  ghost function Positions(pattern: seq<PatternSegment>): set<nat> {
    set j: nat | j <= |pattern| && IsPosition(pattern, j)
  }

  /** A position is alive after `path` when the pattern up to it (through a `**` there) matches `path`. */
  ghost predicate Alive(pattern: seq<PatternSegment>, path: seq<string>, j: nat)
    requires j <= |pattern|
  {
    if j < |pattern| && pattern[j] == DoubleStar then Matches(pattern[..j + 1], path)
    else Matches(pattern[..j], path)
  }

  ghost function Run(pattern: seq<PatternSegment>, path: seq<string>): set<nat> {
    set j: nat | j <= |pattern| && Alive(pattern, path, j)
  }

  lemma AcceptsMeansMatches(pattern: seq<PatternSegment>, path: seq<string>)
    ensures |pattern| in Run(pattern, path) <==> Matches(pattern, path)
  {
    assert pattern[..|pattern|] == pattern;
  }

  lemma {:induction false} AliveAtStart(pattern: seq<PatternSegment>, j: nat)
    requires j <= |pattern|
    ensures InClosure(pattern, {0}, j) <==> Matches(pattern[..j], [])
    ensures InClosure(pattern, {0}, j) <==> Alive(pattern, [], j)
  {
    if j > 0 {
      AliveAtStart(pattern, j - 1);
      assert pattern[..j] == pattern[..j - 1] + [pattern[j - 1]];
      MatchesAtEnd(pattern[..j - 1], pattern[j - 1], []);
    }
    if j < |pattern| {
      assert pattern[..j + 1] == pattern[..j] + [pattern[j]];
      MatchesAtEnd(pattern[..j], pattern[j], []);
    }
  }

  lemma StartIsRun(pattern: seq<PatternSegment>)
    ensures Closure(pattern, {0}) == Run(pattern, [])
  {
    forall j: nat | j <= |pattern| ensures InClosure(pattern, {0}, j) <==> Alive(pattern, [], j) {
      AliveAtStart(pattern, j);
    }
  }

  /** How the symbol stands for the segment, as far as this pattern can tell. */
  ghost predicate Stands(pattern: seq<PatternSegment>, symbol: Symbol, part: string) {
    forall i | 0 <= i < |pattern| && pattern[i] != DoubleStar ::
      Takes(pattern[i], part) <==> Consumes(pattern[i], symbol)
  }

  lemma {:induction false} AliveAfterStep(pattern: seq<PatternSegment>, path: seq<string>, part: string,
      symbol: Symbol, j: nat)
    requires Stands(pattern, symbol, part)
    requires j <= |pattern|
    ensures var moved := set k: nat | k <= |pattern| && Moved(pattern, Run(pattern, path), symbol, k);
            InClosure(pattern, moved, j) <==> Alive(pattern, path + [part], j)
  {
    var longer := path + [part];
    assert longer[..|longer| - 1] == path && longer[|longer| - 1] == part;
    if j > 0 {
      AliveAfterStep(pattern, path, part, symbol, j - 1);
      assert pattern[..j] == pattern[..j - 1] + [pattern[j - 1]];
      MatchesAtEnd(pattern[..j - 1], pattern[j - 1], longer);
    }
    if j < |pattern| {
      assert pattern[..j + 1] == pattern[..j] + [pattern[j]];
      MatchesAtEnd(pattern[..j], pattern[j], longer);
    }
  }

  /** One transition of the automaton is one more path segment. */
  lemma StepIsRun(pattern: seq<PatternSegment>, path: seq<string>, part: string, symbol: Symbol)
    requires Stands(pattern, symbol, part)
    ensures Step(pattern, Run(pattern, path), symbol) == Run(pattern, path + [part])
  {
    forall j: nat | j <= |pattern|
      ensures j in Step(pattern, Run(pattern, path), symbol) <==> j in Run(pattern, path + [part])
    {
      AliveAfterStep(pattern, path, part, symbol, j);
    }
  }

  lemma {:induction false} DeadStaysDead(pattern: seq<PatternSegment>, j: nat)
    requires j <= |pattern|
    ensures !InClosure(pattern, {}, j)
  {
    if j > 0 { DeadStaysDead(pattern, j - 1); }
  }

  // ----- the alphabet

  ghost predicate IsAlphabet(symbols: seq<Symbol>, requested: seq<PatternSegment>, allowed: seq<PatternSegment>) {
    && Other in symbols
    && (forall s | s in symbols && s.Known? :: Literal(s.text) in requested + allowed)
    && (forall s | s in requested + allowed && s.Literal? :: Known(s.text) in symbols)
  }

  /** Every segment is seen as one of the symbols, alike by both patterns. */
  lemma SymbolFor(symbols: seq<Symbol>, requested: seq<PatternSegment>, allowed: seq<PatternSegment>, part: string)
    returns (symbol: Symbol)
    requires IsAlphabet(symbols, requested, allowed)
    ensures symbol in symbols && Stands(requested, symbol, part) && Stands(allowed, symbol, part)
  {
    symbol := if Known(part) in symbols then Known(part) else Other;
    forall i | 0 <= i < |requested| && requested[i].Literal?
      ensures requested[i] in requested + allowed
    {
      assert (requested + allowed)[i] == requested[i];
    }
    forall i | 0 <= i < |allowed| && allowed[i].Literal?
      ensures allowed[i] in requested + allowed
    {
      assert (requested + allowed)[|requested| + i] == allowed[i];
    }
  }

  lemma {:induction false} FreshSegment(pattern: seq<PatternSegment>, n: nat) returns (part: string)
    ensures IsSegment(part) && |part| > n
    ensures forall i | 0 <= i < |pattern| && pattern[i].Literal? :: |pattern[i].text| < |part|
  {
    if pattern == [] {
      part := seq(n + 1, i => 'x');
    } else {
      var longest := if pattern[0].Literal? then |pattern[0].text| + n else n;
      part := FreshSegment(pattern[1..], longest);
      forall i | 0 <= i < |pattern| && pattern[i].Literal? ensures |pattern[i].text| < |part| {
        if i > 0 { assert pattern[1..][i - 1] == pattern[i]; }
      }
    }
  }

  /** Every symbol is the view of some real segment. */
  lemma SegmentFor(symbols: seq<Symbol>, requested: seq<PatternSegment>, allowed: seq<PatternSegment>, symbol: Symbol)
    returns (part: string)
    requires IsPattern(requested) && IsPattern(allowed)
    requires IsAlphabet(symbols, requested, allowed) && symbol in symbols
    ensures IsSegment(part) && Stands(requested, symbol, part) && Stands(allowed, symbol, part)
  {
    match symbol
    case Known(text) =>
      part := text;
      var i :| 0 <= i < |requested + allowed| && (requested + allowed)[i] == Literal(text);
      assert i < |requested| ==> requested[i] == Literal(text);
      assert i >= |requested| ==> allowed[i - |requested|] == Literal(text);
    case Other =>
      part := FreshSegment(requested + allowed, 0);
      forall i | 0 <= i < |requested| ensures requested[i] != Literal(part) {
        assert (requested + allowed)[i] == requested[i];
      }
      forall i | 0 <= i < |allowed| ensures allowed[i] != Literal(part) {
        assert (requested + allowed)[|requested| + i] == allowed[i];
      }
  }

  // ----- reachable pairs

  ghost function PairAfter(requested: seq<PatternSegment>, allowed: seq<PatternSegment>, path: seq<string>): Pair {
    Pair(Run(requested, path), Run(allowed, path))
  }

  ghost predicate Reached(requested: seq<PatternSegment>, allowed: seq<PatternSegment>, pair: Pair) {
    exists path :: IsPath(path) && PairAfter(requested, allowed, path) == pair
  }

  /** The product states a search can meet: some path leads there and the request is still alive. */
  ghost function ReachablePairs(requested: seq<PatternSegment>, allowed: seq<PatternSegment>): set<Pair> {
    set r, a | r <= Positions(requested) && a <= Positions(allowed) && r != {}
      && Reached(requested, allowed, Pair(r, a)) :: Pair(r, a)
  }

  ghost predicate ReachedAt(requested: seq<PatternSegment>, allowed: seq<PatternSegment>, depth: nat, pair: Pair) {
    exists path :: IsPath(path) && |path| == depth && PairAfter(requested, allowed, path) == pair
  }

  ghost function PairsAtDepth(requested: seq<PatternSegment>, allowed: seq<PatternSegment>, depth: nat): set<Pair> {
    set r, a | r <= Positions(requested) && a <= Positions(allowed) && r != {}
      && ReachedAt(requested, allowed, depth, Pair(r, a)) :: Pair(r, a)
  }

  ghost predicate Refutes(requested: seq<PatternSegment>, allowed: seq<PatternSegment>, pair: Pair) {
    |requested| in pair.requested && |allowed| !in pair.allowed
  }

  ghost function Next(requested: seq<PatternSegment>, allowed: seq<PatternSegment>, pair: Pair, symbol: Symbol): Pair {
    Pair(Step(requested, pair.requested, symbol), Step(allowed, pair.allowed, symbol))
  }

  lemma StartIsReached(requested: seq<PatternSegment>, allowed: seq<PatternSegment>)
    ensures PairAfter(requested, allowed, []) in ReachablePairs(requested, allowed)
    ensures PairsAtDepth(requested, allowed, 0) == {PairAfter(requested, allowed, [])}
  {
    StartIsRun(requested);
    assert InClosure(requested, {0}, 0);
    assert IsPath([]);
    assert 0 in Run(requested, []);
    var start := PairAfter(requested, allowed, []);
    assert ReachedAt(requested, allowed, 0, start);
    assert Pair(start.requested, start.allowed) == start;
  }

  lemma NextIsReached(symbols: seq<Symbol>, requested: seq<PatternSegment>, allowed: seq<PatternSegment>, pair: Pair,
      symbol: Symbol)
    requires IsPattern(requested) && IsPattern(allowed)
    requires IsAlphabet(symbols, requested, allowed) && symbol in symbols
    requires pair in ReachablePairs(requested, allowed)
    ensures var next := Next(requested, allowed, pair, symbol);
            next.requested != {} ==> next in ReachablePairs(requested, allowed)
  {
    var path :| IsPath(path) && PairAfter(requested, allowed, path) == pair;
    var part := SegmentFor(symbols, requested, allowed, symbol);
    StepIsRun(requested, path, part, symbol);
    StepIsRun(allowed, path, part, symbol);
    assert IsPath(path + [part]);
    var next := Next(requested, allowed, pair, symbol);
    assert PairAfter(requested, allowed, path + [part]) == next;
    assert Pair(next.requested, next.allowed) == next;
  }

  lemma DeadStep(pattern: seq<PatternSegment>, symbol: Symbol)
    ensures Step(pattern, {}, symbol) == {}
  {
    forall j: nat | j <= |pattern| ensures !InClosure(pattern, {}, j) { DeadStaysDead(pattern, j); }
    assert (set j: nat | j <= |pattern| && Moved(pattern, {}, symbol, j)) == {};
  }

  /** A set holding the start and closed under live successors meets every path the request survives. */
  lemma {:induction false} ClosedSetMeetsEveryPath(symbols: seq<Symbol>, requested: seq<PatternSegment>,
      allowed: seq<PatternSegment>, visited: set<Pair>, path: seq<string>)
    requires IsAlphabet(symbols, requested, allowed) && IsPath(path)
    requires PairAfter(requested, allowed, []) in visited
    requires forall pair, symbol | pair in visited && symbol in symbols ::
               Expanded(requested, allowed, visited, pair, symbol)
    ensures PairAfter(requested, allowed, path) in visited || Run(requested, path) == {}
    decreases |path|
  {
    if path != [] {
      var before, part := path[..|path| - 1], path[|path| - 1];
      assert path == before + [part];
      ClosedSetMeetsEveryPath(symbols, requested, allowed, visited, before);
      var symbol := SymbolFor(symbols, requested, allowed, part);
      StepIsRun(requested, before, part, symbol);
      StepIsRun(allowed, before, part, symbol);
      if Run(requested, before) == {} {
        DeadStep(requested, symbol);
      } else {
        assert Expanded(requested, allowed, visited, PairAfter(requested, allowed, before), symbol);
      }
    }
  }

  ghost predicate Expanded(requested: seq<PatternSegment>, allowed: seq<PatternSegment>, visited: set<Pair>,
      pair: Pair, symbol: Symbol)
  {
    var next := Next(requested, allowed, pair, symbol);
    next.requested != {} ==> next in visited
  }

  /** Inclusion is exactly the absence of a refuting reachable pair. */
  lemma CoveredIffNoRefutation(requested: seq<PatternSegment>, allowed: seq<PatternSegment>)
    ensures Covered(requested, allowed) <==>
            forall pair | pair in ReachablePairs(requested, allowed) :: !Refutes(requested, allowed, pair)
  {
    forall path | IsPath(path) ensures Matches(requested, path) ==>
      PairAfter(requested, allowed, path) in ReachablePairs(requested, allowed)
    {
      AcceptsMeansMatches(requested, path);
      var pair := PairAfter(requested, allowed, path);
      assert Pair(pair.requested, pair.allowed) == pair;
    }
    forall path | IsPath(path) ensures Refutes(requested, allowed, PairAfter(requested, allowed, path)) <==>
      (Matches(requested, path) && !Matches(allowed, path))
    {
      AcceptsMeansMatches(requested, path);
      AcceptsMeansMatches(allowed, path);
    }
  }

  // ----- the search

  /** One forward pass adds the position after every `**` already held. */
  method EpsilonClosure(pattern: seq<PatternSegment>, states: set<nat>) returns (closed: set<nat>)
    requires states <= Positions(pattern)
    ensures closed == Closure(pattern, states)
  {
    closed := states;
    for index := 0 to |pattern|
      invariant closed <= Positions(pattern)
      invariant forall j: nat | j <= |pattern| ::
                  j in closed <==> if j <= index then InClosure(pattern, states, j) else j in states
    {
      if index in closed && pattern[index] == DoubleStar {
        closed := closed + {index + 1};
      }
    }
  }

  method Transition(pattern: seq<PatternSegment>, states: set<nat>, symbol: Symbol) returns (next: set<nat>)
    requires states <= Positions(pattern)
    ensures next == Step(pattern, states, symbol)
  {
    var moved: set<nat> := {};
    for index := 0 to |pattern|
      invariant moved <= Positions(pattern)
      invariant forall j: nat | j < index :: j in moved <==> Moved(pattern, states, symbol, j)
      invariant index in moved <==> 0 < index && index - 1 in states && Consumes(pattern[index - 1], symbol)
      invariant forall j | j in moved :: j <= index
    {
      if index in states {
        match pattern[index]
        case Literal(text) => if symbol == Known(text) { moved := moved + {index + 1}; }
        case Star => moved := moved + {index + 1};
        case DoubleStar => moved := moved + {index};
      }
    }
    assert moved == set j: nat | j <= |pattern| && Moved(pattern, states, symbol, j);
    next := EpsilonClosure(pattern, moved);
  }

  method Alphabet(requested: seq<PatternSegment>, allowed: seq<PatternSegment>) returns (symbols: seq<Symbol>)
    ensures IsAlphabet(symbols, requested, allowed)
    ensures forall i, j | 0 <= i < j < |symbols| :: symbols[i] != symbols[j]
  {
    symbols := [Other];
    var both := requested + allowed;
    for index := 0 to |both|
      invariant forall i, j | 0 <= i < j < |symbols| :: symbols[i] != symbols[j]
      invariant Other in symbols
      invariant forall s | s in symbols && s.Known? :: Literal(s.text) in both
      invariant forall i | 0 <= i < index && both[i].Literal? :: Known(both[i].text) in symbols
    {
      if both[index].Literal? && Known(both[index].text) !in symbols {
        symbols := symbols + [Known(both[index].text)];
      }
    }
  }

  /** Queue every live successor of `pair` not met before, giving up when too many pairs are held. */
  method Expand(requested: seq<PatternSegment>, allowed: seq<PatternSegment>, symbols: seq<Symbol>, pair: Pair,
                seen: set<Pair>, ghost space: set<Pair>) returns (visited: set<Pair>, queued: seq<Pair>, overflow: bool)
    requires IsSpace(requested, allowed, symbols, space)
    requires pair in seen && seen <= space
    ensures seen <= visited <= space
    ensures overflow ==> |visited| > MAX_PATTERN_COVERAGE_STATES
    ensures !overflow && |seen| <= MAX_PATTERN_COVERAGE_STATES ==> |visited| <= MAX_PATTERN_COVERAGE_STATES
    ensures !overflow ==> forall symbol | symbol in symbols :: Expanded(requested, allowed, visited, pair, symbol)
    ensures !overflow ==> forall q :: q in visited <==> q in seen || q in queued
    ensures !overflow ==> |visited| == |seen| + |queued|
  {
    visited, queued, overflow := seen, [], false;
    for index := 0 to |symbols|
      invariant seen <= visited <= space
      invariant |seen| <= MAX_PATTERN_COVERAGE_STATES ==> |visited| <= MAX_PATTERN_COVERAGE_STATES
      invariant forall i | 0 <= i < index :: Expanded(requested, allowed, visited, pair, symbols[i])
      invariant forall q :: q in visited <==> q in seen || q in queued
      invariant |visited| == |seen| + |queued|
    {
      var nextRequested := Transition(requested, pair.requested, symbols[index]);
      assert Expanded(requested, allowed, space, pair, symbols[index]);
      if nextRequested != {} {
        var nextAllowed := Transition(allowed, pair.allowed, symbols[index]);
        var next := Pair(nextRequested, nextAllowed);
        if next !in visited {
          visited := visited + {next};
          if |visited| > MAX_PATTERN_COVERAGE_STATES {
            overflow := true;
            return;
          }
          queued := queued + [next];
        }
      }
    }
  }

  /** Pairs of positions, closed under live successors. */
  ghost predicate IsSpace(requested: seq<PatternSegment>, allowed: seq<PatternSegment>, symbols: seq<Symbol>,
      space: set<Pair>)
  {
    && (forall pair | pair in space :: pair.requested <= Positions(requested) && pair.allowed <= Positions(allowed))
    && forall pair, symbol | pair in space && symbol in symbols :: Expanded(requested, allowed, space, pair, symbol)
  }

  lemma ReachableIsSpace(requested: seq<PatternSegment>, allowed: seq<PatternSegment>, symbols: seq<Symbol>)
    requires IsPattern(requested) && IsPattern(allowed) && IsAlphabet(symbols, requested, allowed)
    ensures IsSpace(requested, allowed, symbols, ReachablePairs(requested, allowed))
  {
    var space := ReachablePairs(requested, allowed);
    forall pair, symbol | pair in space && symbol in symbols ensures Expanded(requested, allowed, space, pair, symbol) {
      NextIsReached(symbols, requested, allowed, pair, symbol);
    }
  }

  /** The breadth-first walk: without overflow it visits a settled set, and a refutation ends it at once. */
  method Walk(requested: seq<PatternSegment>, allowed: seq<PatternSegment>, symbols: seq<Symbol>, start: Pair,
      ghost space: set<Pair>)
    returns (clean: bool, ghost visited: set<Pair>)
    requires IsSpace(requested, allowed, symbols, space) && start in space
    ensures start in visited && visited <= space
    ensures clean ==> |visited| <= MAX_PATTERN_COVERAGE_STATES
    ensures clean ==> forall q | q in visited :: Settled(requested, allowed, symbols, visited, q)
    ensures !clean ==> |space| > MAX_PATTERN_COVERAGE_STATES || exists q | q in space :: Refutes(requested, allowed, q)
  {
    var pending, held := [start], {start};
    visited := held;
    while pending != []
      invariant visited == held && start in held && held <= space
      invariant forall q | q in pending :: q in held
      invariant |held| <= MAX_PATTERN_COVERAGE_STATES
      invariant forall q | q in held && q !in pending :: Settled(requested, allowed, symbols, held, q)
      decreases |space - held|, |pending|
    {
      var pair := pending[0];
      if |requested| in pair.requested && |allowed| !in pair.allowed {
        assert Refutes(requested, allowed, pair);
        return false, visited;
      }
      var more, queued, overflow := Expand(requested, allowed, symbols, pair, held, space);
      if overflow {
        SubsetCard(more, space);
        return false, visited;
      }
      if queued != [] {
        ShrinkingRest(held, more, space);
      }
      forall q | q in more && q !in pending[1..] + queued ensures Settled(requested, allowed, symbols, more, q) {
        assert q in held && (q == pair || q !in pending);
        if q != pair { StaysSettled(requested, allowed, symbols, held, more, q); }
      }
      pending, held := pending[1..] + queued, more;
      visited := held;
    }
    return true, visited;
  }

  lemma StaysSettled(requested: seq<PatternSegment>, allowed: seq<PatternSegment>, symbols: seq<Symbol>,
      seen: set<Pair>, more: set<Pair>, pair: Pair)
    requires seen <= more && Settled(requested, allowed, symbols, seen, pair)
    ensures Settled(requested, allowed, symbols, more, pair)
  {
  }

  /**
   The search answers yes exactly for inclusion, as long as the masks are wide enough and the number
   of product states stays within its limit; beyond either limit it always answers no.
   */
  method LanguageIsSubset(requested: seq<PatternSegment>, allowed: seq<PatternSegment>) returns (subset: bool)
    requires IsPattern(requested) && IsPattern(allowed)
    ensures subset <==> && |requested| < MASK_BITS && |allowed| < MASK_BITS
                        && |ReachablePairs(requested, allowed)| <= MAX_PATTERN_COVERAGE_STATES
                        && Covered(requested, allowed)
  {
    if |requested| >= MASK_BITS || |allowed| >= MASK_BITS {
      return false;
    }
    var symbols := Alphabet(requested, allowed);
    var startRequested := EpsilonClosure(requested, {0});
    var startAllowed := EpsilonClosure(allowed, {0});
    StartIsRun(requested);
    StartIsRun(allowed);
    StartIsReached(requested, allowed);
    CoveredIffNoRefutation(requested, allowed);
    ReachableIsSpace(requested, allowed, symbols);
    ghost var visited;
    subset, visited := Walk(requested, allowed, symbols, Pair(startRequested, startAllowed),
      ReachablePairs(requested, allowed));
    if subset {
      AllMet(symbols, requested, allowed, visited);
    }
  }

  ghost predicate Settled(requested: seq<PatternSegment>, allowed: seq<PatternSegment>, symbols: seq<Symbol>,
      visited: set<Pair>, pair: Pair)
  {
    && !Refutes(requested, allowed, pair)
    && forall symbol | symbol in symbols :: Expanded(requested, allowed, visited, pair, symbol)
  }

  lemma ShrinkingRest<T>(seen: set<T>, more: set<T>, all: set<T>)
    requires seen <= more <= all && |more| > |seen|
    ensures |all - more| < |all - seen|
  {
  }

  lemma AllMet(symbols: seq<Symbol>, requested: seq<PatternSegment>, allowed: seq<PatternSegment>, visited: set<Pair>)
    requires IsAlphabet(symbols, requested, allowed)
    requires PairAfter(requested, allowed, []) in visited && visited <= ReachablePairs(requested, allowed)
    requires forall q | q in visited :: Settled(requested, allowed, symbols, visited, q)
    ensures visited == ReachablePairs(requested, allowed)
  {
    forall pair | pair in ReachablePairs(requested, allowed) ensures pair in visited {
      var path :| IsPath(path) && PairAfter(requested, allowed, path) == pair;
      ClosedSetMeetsEveryPath(symbols, requested, allowed, visited, path);
    }
  }

  // ----- the same question restricted to paths of one length

  lemma {:induction false} NextAtDepth(symbols: seq<Symbol>, requested: seq<PatternSegment>,
      allowed: seq<PatternSegment>, depth: nat, pair: Pair)
    requires IsPattern(requested) && IsPattern(allowed) && IsAlphabet(symbols, requested, allowed)
    ensures pair in PairsAtDepth(requested, allowed, depth + 1) <==>
            pair.requested != {} && exists before, symbol ::
              before in PairsAtDepth(requested, allowed, depth) && symbol in symbols
                && Next(requested, allowed, before, symbol) == pair
  {
    if pair in PairsAtDepth(requested, allowed, depth + 1) {
      var path :| IsPath(path) && |path| == depth + 1 && PairAfter(requested, allowed, path) == pair;
      var init, part := path[..depth], path[depth];
      assert path == init + [part] && IsPath(init);
      var symbol := SymbolFor(symbols, requested, allowed, part);
      StepIsRun(requested, init, part, symbol);
      StepIsRun(allowed, init, part, symbol);
      var before := PairAfter(requested, allowed, init);
      if before.requested == {} { DeadStep(requested, symbol); }
      assert ReachedAt(requested, allowed, depth, before) && Pair(before.requested, before.allowed) == before;
      assert Next(requested, allowed, before, symbol) == pair;
    }
    forall before, symbol | before in PairsAtDepth(requested, allowed, depth) && symbol in symbols
                            && Next(requested, allowed, before, symbol) == pair && pair.requested != {}
      ensures pair in PairsAtDepth(requested, allowed, depth + 1)
    {
      var path :| IsPath(path) && |path| == depth && PairAfter(requested, allowed, path) == before;
      var part := SegmentFor(symbols, requested, allowed, symbol);
      StepIsRun(requested, path, part, symbol);
      StepIsRun(allowed, path, part, symbol);
      assert IsPath(path + [part]) && PairAfter(requested, allowed, path + [part]) == pair;
      assert Pair(pair.requested, pair.allowed) == pair;
    }
  }

  lemma CoveredAtDepthIffNoRefutation(requested: seq<PatternSegment>, allowed: seq<PatternSegment>, depth: nat)
    ensures CoveredAtDepth(requested, allowed, depth) <==>
            forall pair | pair in PairsAtDepth(requested, allowed, depth) :: !Refutes(requested, allowed, pair)
  {
    forall path | IsPath(path) && |path| == depth ensures Matches(requested, path) ==>
      PairAfter(requested, allowed, path) in PairsAtDepth(requested, allowed, depth)
    {
      AcceptsMeansMatches(requested, path);
      var pair := PairAfter(requested, allowed, path);
      assert Pair(pair.requested, pair.allowed) == pair;
    }
    forall path | IsPath(path) ensures Refutes(requested, allowed, PairAfter(requested, allowed, path)) <==>
      (Matches(requested, path) && !Matches(allowed, path))
    {
      AcceptsMeansMatches(requested, path);
      AcceptsMeansMatches(allowed, path);
    }
  }

  lemma {:induction false} EmptyStaysEmpty(symbols: seq<Symbol>, requested: seq<PatternSegment>,
      allowed: seq<PatternSegment>, from: nat, depth: nat)
    requires IsPattern(requested) && IsPattern(allowed) && IsAlphabet(symbols, requested, allowed)
    requires from <= depth && PairsAtDepth(requested, allowed, from) == {}
    ensures PairsAtDepth(requested, allowed, depth) == {}
    decreases depth - from
  {
    if from < depth {
      var level := PairsAtDepth(requested, allowed, from + 1);
      if level != {} {
        var pair :| pair in level;
        NextAtDepth(symbols, requested, allowed, from, pair);
      }
      EmptyStaysEmpty(symbols, requested, allowed, from + 1, depth);
    }
  }

  /** Live successors of every pair of one depth, giving up when too many are held. */
  method NextFrontier(requested: seq<PatternSegment>, allowed: seq<PatternSegment>, symbols: seq<Symbol>,
      frontier: set<Pair>, ghost level: set<Pair>)
    returns (next: set<Pair>, overflow: bool)
    requires forall pair | pair in frontier ::
               pair.requested <= Positions(requested) && pair.allowed <= Positions(allowed)
    requires forall pair, symbol | pair in frontier && symbol in symbols ::
               Expanded(requested, allowed, level, pair, symbol)
    ensures next <= level
    ensures overflow ==> |next| > MAX_PATTERN_COVERAGE_STATES
    ensures !overflow ==> |next| <= MAX_PATTERN_COVERAGE_STATES
    ensures !overflow ==> forall pair, symbol | pair in frontier && symbol in symbols ::
              Expanded(requested, allowed, next, pair, symbol)
  {
    next, overflow := {}, false;
    var rest := frontier;
    while rest != {}
      invariant rest <= frontier && next <= level && |next| <= MAX_PATTERN_COVERAGE_STATES
      invariant forall pair, symbol | pair in frontier - rest && symbol in symbols ::
                  Expanded(requested, allowed, next, pair, symbol)
      decreases |rest|
    {
      var pair :| pair in rest;
      for index := 0 to |symbols|
        invariant next <= level && |next| <= MAX_PATTERN_COVERAGE_STATES
        invariant forall q, symbol | q in frontier - rest && symbol in symbols ::
                    Expanded(requested, allowed, next, q, symbol)
        invariant forall i | 0 <= i < index :: Expanded(requested, allowed, next, pair, symbols[i])
      {
        assert Expanded(requested, allowed, level, pair, symbols[index]);
        var nextRequested := Transition(requested, pair.requested, symbols[index]);
        if nextRequested != {} {
          var nextAllowed := Transition(allowed, pair.allowed, symbols[index]);
          next := next + {Pair(nextRequested, nextAllowed)};
          if |next| > MAX_PATTERN_COVERAGE_STATES {
            return next, true;
          }
        }
      }
      rest := rest - {pair};
    }
  }

  lemma FrontierIsNextLevel(symbols: seq<Symbol>, requested: seq<PatternSegment>, allowed: seq<PatternSegment>,
      depth: nat, next: set<Pair>)
    requires IsPattern(requested) && IsPattern(allowed) && IsAlphabet(symbols, requested, allowed)
    requires next <= PairsAtDepth(requested, allowed, depth + 1)
    requires forall pair, symbol | pair in PairsAtDepth(requested, allowed, depth) && symbol in symbols ::
               Expanded(requested, allowed, next, pair, symbol)
    ensures next == PairsAtDepth(requested, allowed, depth + 1)
  {
    forall pair | pair in PairsAtDepth(requested, allowed, depth + 1) ensures pair in next {
      NextAtDepth(symbols, requested, allowed, depth, pair);
      var before, symbol :| before in PairsAtDepth(requested, allowed, depth) && symbol in symbols
        && Next(requested, allowed, before, symbol) == pair;
      assert Expanded(requested, allowed, next, before, symbol);
    }
  }

  lemma LevelIsExpanded(symbols: seq<Symbol>, requested: seq<PatternSegment>, allowed: seq<PatternSegment>, depth: nat)
    requires IsPattern(requested) && IsPattern(allowed) && IsAlphabet(symbols, requested, allowed)
    ensures forall pair, symbol | pair in PairsAtDepth(requested, allowed, depth) && symbol in symbols ::
              Expanded(requested, allowed, PairsAtDepth(requested, allowed, depth + 1), pair, symbol)
  {
    forall pair, symbol | pair in PairsAtDepth(requested, allowed, depth) && symbol in symbols
      ensures Expanded(requested, allowed, PairsAtDepth(requested, allowed, depth + 1), pair, symbol)
    {
      NextAtDepth(symbols, requested, allowed, depth, Next(requested, allowed, pair, symbol));
    }
  }

  ghost predicate LevelsFit(requested: seq<PatternSegment>, allowed: seq<PatternSegment>, depth: nat) {
    forall d: nat | d <= depth :: |PairsAtDepth(requested, allowed, d)| <= MAX_PATTERN_COVERAGE_STATES
  }

  /** The depth-bounded form: exact for inclusion among paths of one length while each level fits. */
  method LanguageIsSubsetAtDepth(requested: seq<PatternSegment>, allowed: seq<PatternSegment>, depth: nat)
    returns (subset: bool)
    requires IsPattern(requested) && IsPattern(allowed)
    ensures subset <==> && |requested| < MASK_BITS && |allowed| < MASK_BITS
                        && LevelsFit(requested, allowed, depth)
                        && CoveredAtDepth(requested, allowed, depth)
  {
    if |requested| >= MASK_BITS || |allowed| >= MASK_BITS {
      return false;
    }
    var symbols := Alphabet(requested, allowed);
    var startRequested := EpsilonClosure(requested, {0});
    var startAllowed := EpsilonClosure(allowed, {0});
    StartIsRun(requested);
    StartIsRun(allowed);
    StartIsReached(requested, allowed);
    var frontier := {Pair(startRequested, startAllowed)};
    for d := 0 to depth
      invariant frontier == PairsAtDepth(requested, allowed, d)
      invariant forall k: nat | k <= d :: |PairsAtDepth(requested, allowed, k)| <= MAX_PATTERN_COVERAGE_STATES
    {
      LevelIsExpanded(symbols, requested, allowed, d);
      PairsArePositions(requested, allowed, d);
      var next, overflow :=
        NextFrontier(requested, allowed, symbols, frontier, PairsAtDepth(requested, allowed, d + 1));
      if overflow {
        SubsetCard(next, PairsAtDepth(requested, allowed, d + 1));
        return false;
      }
      FrontierIsNextLevel(symbols, requested, allowed, d, next);
      if next == {} {
        forall k: nat | d < k <= depth ensures PairsAtDepth(requested, allowed, k) == {} {
          EmptyStaysEmpty(symbols, requested, allowed, d + 1, k);
        }
        CoveredAtDepthIffNoRefutation(requested, allowed, depth);
        return true;
      }
      frontier := next;
    }
    CoveredAtDepthIffNoRefutation(requested, allowed, depth);
    subset := forall pair | pair in frontier :: |requested| !in pair.requested || |allowed| in pair.allowed;
  }

  lemma PairsArePositions(requested: seq<PatternSegment>, allowed: seq<PatternSegment>, depth: nat)
    ensures forall pair | pair in PairsAtDepth(requested, allowed, depth) ::
              pair.requested <= Positions(requested) && pair.allowed <= Positions(allowed)
  {
  }

  // ----- patterns with a scheme

  datatype Pattern = Pattern(scheme: Option<string>, segments: seq<PatternSegment>)
  datatype Route = Route(scheme: Option<string>, path: seq<string>)

  predicate MatchesRoute(pattern: Pattern, route: Route) {
    && (pattern.scheme.Some? ==> route.scheme == pattern.scheme)
    && Matches(pattern.segments, route.path)
  }

  ghost predicate CoversEveryRoute(granted: Pattern, requested: Pattern) {
    forall route: Route | IsPath(route.path) && MatchesRoute(requested, route) :: MatchesRoute(granted, route)
  }

  ghost predicate WithinSearchLimits(requested: seq<PatternSegment>, allowed: seq<PatternSegment>) {
    && |requested| < MASK_BITS && |allowed| < MASK_BITS
    && |ReachablePairs(requested, allowed)| <= MAX_PATTERN_COVERAGE_STATES
  }

  predicate SchemesAgree(granted: Pattern, requested: Pattern) {
    granted.scheme.Some? ==> requested.scheme == granted.scheme
  }

  /** A grant is accepted exactly when it covers every route of the request and the search stays within its limits. */
  method Covers(granted: Pattern, requested: Pattern) returns (covers: bool)
    requires IsPattern(granted.segments) && IsPattern(requested.segments)
    ensures covers <==> CoversEveryRoute(granted, requested) && WithinSearchLimits(requested.segments, granted.segments)
  {
    SchemesMustAgree(granted, requested);
    if granted.scheme.Some? && requested.scheme != granted.scheme {
      return false;
    }
    covers := LanguageIsSubset(requested.segments, granted.segments);
  }

  ghost predicate CoversEveryRouteAt(granted: Pattern, requested: Pattern, depth: nat) {
    forall route: Route | IsPath(route.path) && |route.path| == depth && MatchesRoute(requested, route) ::
        MatchesRoute(granted, route)
  }

  ghost predicate WithinDepthLimits(requested: seq<PatternSegment>, allowed: seq<PatternSegment>, depth: nat) {
    |requested| < MASK_BITS && |allowed| < MASK_BITS && LevelsFit(requested, allowed, depth)
  }

  /**
   The same among routes of exactly `depth` segments. Within its limits the answer is the coverage of those
   routes exactly when the schemes agree or the request can match that depth at all.
   */
  method CoversAtFixedDepth(granted: Pattern, requested: Pattern, depth: nat) returns (covers: bool)
    requires IsPattern(granted.segments) && IsPattern(requested.segments)
    ensures covers <==> && SchemesAgree(granted, requested)
                        && CoveredAtDepth(requested.segments, granted.segments, depth)
                        && WithinDepthLimits(requested.segments, granted.segments, depth)
    ensures covers ==> CoversEveryRouteAt(granted, requested, depth)
    ensures WithinDepthLimits(requested.segments, granted.segments, depth) ==>
              ((covers <==> CoversEveryRouteAt(granted, requested, depth)) <==>
               SchemesAgree(granted, requested) || CanMatch(requested.segments, depth))
  {
    hide Matches, LevelsFit, CanMatch, CoveredAtDepth, CoversEveryRouteAt;
    CoverageAtDepth(granted, requested, depth);
    if granted.scheme.Some? && requested.scheme != granted.scheme {
      return false;
    }
    covers := LanguageIsSubsetAtDepth(requested.segments, granted.segments, depth);
  }

  /**
   Covering the routes of one depth is agreement of schemes and inclusion there, or a request that has no such route.
   */
  lemma CoverageAtDepth(granted: Pattern, requested: Pattern, depth: nat)
    requires IsPattern(granted.segments) && IsPattern(requested.segments)
    ensures CoversEveryRouteAt(granted, requested, depth) <==>
            || !CanMatch(requested.segments, depth)
            || (SchemesAgree(granted, requested) && CoveredAtDepth(requested.segments, granted.segments, depth))
    ensures !CanMatch(requested.segments, depth) ==> CoveredAtDepth(requested.segments, granted.segments, depth)
  {
    hide Matches, CanMatch;
    CanMatchIsExact(requested.segments, depth);
    if CanMatch(requested.segments, depth) && CoversEveryRouteAt(granted, requested, depth) {
      var path :| IsPath(path) && |path| == depth && Matches(requested.segments, path);
      assert MatchesRoute(granted, Route(requested.scheme, path));
      forall p | IsPath(p) && |p| == depth && Matches(requested.segments, p) ensures Matches(granted.segments, p) {
        assert MatchesRoute(granted, Route(requested.scheme, p));
      }
    }
  }

  /**
   A grant and a request of different schemes that the source refuses although the request has no route of that depth.
   */
  lemma MismatchRefusedThoughCovered()
    ensures var granted, requested := Pattern(Some("kv"), [Star]), Pattern(Some("lease"), [Literal("a"), Literal("b")]);
            && IsPattern(granted.segments) && IsPattern(requested.segments)
            && CoversEveryRouteAt(granted, requested, 1) && !SchemesAgree(granted, requested)
  {
    var granted, requested := Pattern(Some("kv"), [Star]), Pattern(Some("lease"), [Literal("a"), Literal("b")]);
    CoverageAtDepth(granted, requested, 1);
  }

  lemma SchemesMustAgree(granted: Pattern, requested: Pattern)
    requires IsPattern(granted.segments) && IsPattern(requested.segments)
    ensures CoversEveryRoute(granted, requested) <==>
            SchemesAgree(granted, requested) && Covered(requested.segments, granted.segments)
  {
    if CoversEveryRoute(granted, requested) {
      var path := SomePathMatches(requested.segments);
      assert MatchesRoute(requested, Route(requested.scheme, path));
      assert MatchesRoute(granted, Route(requested.scheme, path));
      forall p | IsPath(p) && Matches(requested.segments, p) ensures Matches(granted.segments, p) {
        assert MatchesRoute(requested, Route(requested.scheme, p));
      }
    }
  }
}
