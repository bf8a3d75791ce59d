/**
 How far the coverage search of src/runtime/matcher.rs reaches before its state limit stops it: a family of
 patterns that cross the limit against themselves, and a bound read off two patterns that keeps them below it.
 */
module PatternLimits {
  import opened Basics
  import opened RouteMatcher
  import opened PatternCoverage

  // ----- counting subsets

  function Joined(s: set<nat>, x: nat): set<nat> {
    s + {x}
  }

  function AllJoined(sets: set<set<nat>>, x: nat): set<set<nat>> {
    set s | s in sets :: Joined(s, x)
  }

  /** All subsets of the n numbers from `lo` on. */
  ghost function Subsets(lo: nat, n: nat): set<set<nat>> {
    if n == 0 then {{}} else Subsets(lo, n - 1) + AllJoined(Subsets(lo, n - 1), lo + n - 1)
  }

  ghost predicate Between(s: set<nat>, lo: nat, n: nat) {
    forall j | j in s :: lo <= j < lo + n
  }

  lemma BetweenNext(s: set<nat>, lo: nat, n: nat)
    requires n > 0
    ensures Between(s, lo, n) <==> Between(s - {lo + n - 1}, lo, n - 1)
  {
    if Between(s - {lo + n - 1}, lo, n - 1) {
      forall j | j in s ensures lo <= j < lo + n {
        if j != lo + n - 1 { assert j in s - {lo + n - 1}; }
      }
    }
  }

  lemma BetweenNone(s: set<nat>, lo: nat)
    ensures Between(s, lo, 0) <==> s == {}
  {
    if s != {} {
      var j :| j in s;
      assert !(lo <= j < lo + 0);
    }
  }

  lemma TopIsNew(s: set<nat>, lo: nat, n: nat)
    requires Between(s, lo, n)
    ensures lo + n !in s
  {
  }

  lemma JoinedMeans(sets: set<set<nat>>, x: nat, s: set<nat>)
    requires forall t | t in sets :: x !in t
    ensures s in AllJoined(sets, x) <==> x in s && s - {x} in sets
  {
    forall t | t in sets ensures Joined(t, x) - {x} == t {}
    if x in s { assert s == Joined(s - {x}, x); }
  }

  lemma {:induction false} SubsetsMeans(lo: nat, n: nat, s: set<nat>)
    ensures s in Subsets(lo, n) <==> Between(s, lo, n)
    decreases n, 0
  {
    hide AllJoined, Between;
    if n == 0 {
      BetweenNone(s, lo);
    } else {
      var top, below := lo + n - 1, Subsets(lo, n - 1);
      SubsetsMeans(lo, n - 1, s);
      SubsetsMeans(lo, n - 1, s - {top});
      NoTop(lo, n - 1);
      JoinedMeans(below, top, s);
      BetweenNext(s, lo, n);
      assert top !in s ==> s - {top} == s;
      assert Between(s, lo, n - 1) ==> top !in s by { if Between(s, lo, n - 1) { TopIsNew(s, lo, n - 1); } }
    }
  }

  lemma NoTop(lo: nat, n: nat)
    ensures forall s | s in Subsets(lo, n) :: lo + n !in s
    decreases n, 1
  {
    forall s | s in Subsets(lo, n) ensures lo + n !in s {
      SubsetsMeans(lo, n, s);
      TopIsNew(s, lo, n);
    }
  }

  lemma {:induction false} JoinedCount(sets: set<set<nat>>, x: nat)
    requires forall s | s in sets :: x !in s
    ensures |AllJoined(sets, x)| == |sets|
    decreases |sets|
  {
    if sets == {} {
      assert AllJoined(sets, x) == {};
    } else {
      var one :| one in sets;
      var rest := sets - {one};
      JoinedCount(rest, x);
      assert AllJoined(sets, x) == AllJoined(rest, x) + {Joined(one, x)};
      JoinedMeans(rest, x, Joined(one, x));
      assert Joined(one, x) - {x} == one;
    }
  }

  lemma Doubled(sets: set<set<nat>>, x: nat)
    requires forall s | s in sets :: x !in s
    ensures |sets + AllJoined(sets, x)| == 2 * |sets|
  {
    JoinedCount(sets, x);
    forall s | s in sets ensures s !in AllJoined(sets, x) { JoinedMeans(sets, x, s); }
    assert sets !! AllJoined(sets, x);
  }

  lemma {:induction false} SubsetsCount(lo: nat, n: nat)
    ensures |Subsets(lo, n)| == Pow2(n)
  {
    hide AllJoined;
    if n > 0 {
      SubsetsCount(lo, n - 1);
      NoTop(lo, n - 1);
      Doubled(Subsets(lo, n - 1), lo + n - 1);
    }
  }

  // ----- a family that crosses the limit

  /** Anything, then "a", then so many single segments: `**` `a` `*` ... `*`. */
  function Tailed(stars: nat): seq<PatternSegment> {
    [DoubleStar, Literal("a")] + seq(stars, i => Star)
  }

  lemma {:induction false} TailedMatches(stars: nat, path: seq<string>)
    ensures Matches(Tailed(stars), path) <==> stars < |path| && path[|path| - 1 - stars] == "a"
    decreases stars
  {
    var n := |path| - 1;
    if stars == 0 {
      assert Tailed(0) == [DoubleStar] + [Literal("a")];
      MatchesAtEnd([DoubleStar], Literal("a"), path);
      if path != [] { OnlyDoubleStar(path[..n]); }
    } else {
      assert Tailed(stars) == Tailed(stars - 1) + [Star];
      MatchesAtEnd(Tailed(stars - 1), Star, path);
      if path != [] { TailedMatches(stars - 1, path[..n]); }
    }
  }

  /** Which positions are alive is which of the last segments are "a". */
  lemma TailedAlive(stars: nat, path: seq<string>, j: nat)
    requires j <= stars + 2
    ensures Alive(Tailed(stars), path, j) <==> j < 2 || (j - 2 < |path| && path[|path| - 1 - (j - 2)] == "a")
  {
    var pattern := Tailed(stars);
    if j < 2 {
      assert pattern[..1] == [DoubleStar];
      OnlyDoubleStar(path);
    } else {
      assert pattern[..j] == Tailed(j - 2);
      TailedMatches(j - 2, path);
    }
  }

  ghost function TailedPairs(stars: nat): set<Pair> {
    AllTwice(Subsets(2, stars + 1))
  }

  /** The pair of a pattern with itself when these of the positions from 2 on are alive. */
  function Twice(s: set<nat>): Pair {
    Pair({0, 1} + s, {0, 1} + s)
  }

  lemma TailedRun(stars: nat, path: seq<string>) returns (s: set<nat>)
    ensures s in Subsets(2, stars + 1) && Run(Tailed(stars), path) == {0, 1} + s
  {
    var run := Run(Tailed(stars), path);
    forall j: nat | j < 2 ensures j in run { TailedAlive(stars, path, j); }
    s := run - {0, 1};
    SubsetsMeans(2, stars + 1, s);
  }

  /** Every combination is reached, by a path of one segment more than there are stars. */
  lemma TailedPath(stars: nat, s: set<nat>) returns (path: seq<string>)
    requires s in Subsets(2, stars + 1)
    ensures IsPath(path) && |path| == stars + 1 && Run(Tailed(stars), path) == {0, 1} + s
  {
    SubsetsMeans(2, stars + 1, s);
    path := seq(stars + 1, m => if stars + 2 - m in s then "a" else "b");
    forall j: nat | j <= stars + 2 ensures Alive(Tailed(stars), path, j) <==> j in {0, 1} + s {
      TailedAlive(stars, path, j);
    }
  }

  lemma TailedReaches(stars: nat)
    ensures ReachablePairs(Tailed(stars), Tailed(stars)) == TailedPairs(stars)
    ensures PairsAtDepth(Tailed(stars), Tailed(stars), stars + 1) == TailedPairs(stars)
  {
    var pattern := Tailed(stars);
    forall pair | pair in TailedPairs(stars)
      ensures pair in ReachablePairs(pattern, pattern) && pair in PairsAtDepth(pattern, pattern, stars + 1)
    {
      var s :| s in Subsets(2, stars + 1) && pair == Twice(s);
      var path := TailedPath(stars, s);
      assert PairAfter(pattern, pattern, path) == pair;
      assert 0 in pair.requested && Pair(pair.requested, pair.allowed) == pair;
    }
    forall pair | pair in ReachablePairs(pattern, pattern) ensures pair in TailedPairs(stars) {
      var path :| IsPath(path) && PairAfter(pattern, pattern, path) == pair;
      var s := TailedRun(stars, path);
      assert pair == Twice(s);
    }
    DepthIsReachable(pattern, pattern, stars + 1);
  }

  lemma DepthIsReachable(requested: seq<PatternSegment>, allowed: seq<PatternSegment>, depth: nat)
    ensures PairsAtDepth(requested, allowed, depth) <= ReachablePairs(requested, allowed)
  {
    forall pair | pair in PairsAtDepth(requested, allowed, depth) ensures pair in ReachablePairs(requested, allowed) {
      assert Reached(requested, allowed, pair);
    }
  }

  ghost function AllTwice(sets: set<set<nat>>): set<Pair> {
    set s | s in sets :: Twice(s)
  }

  lemma Untwice(s: set<nat>)
    requires 0 !in s && 1 !in s
    ensures Twice(s).requested - {0, 1} == s
  {
  }

  lemma {:induction false} TwiceCount(sets: set<set<nat>>)
    requires forall s | s in sets :: 0 !in s && 1 !in s
    ensures |AllTwice(sets)| == |sets|
    decreases |sets|
  {
    hide Twice;
    if sets == {} {
      assert AllTwice(sets) == {};
    } else {
      var one :| one in sets;
      var rest := sets - {one};
      TwiceCount(rest);
      assert AllTwice(sets) == AllTwice(rest) + {Twice(one)};
      Untwice(one);
      forall s | s in rest ensures Twice(s) != Twice(one) { Untwice(s); }
    }
  }

  lemma TailedCount(stars: nat)
    ensures |TailedPairs(stars)| == Pow2(stars + 1)
  {
    var all := Subsets(2, stars + 1);
    SubsetsCount(2, stars + 1);
    forall s | s in all ensures 0 !in s && 1 !in s { SubsetsMeans(2, stars + 1, s); }
    TwiceCount(all);
  }

  /** Against itself such a pattern has 2^(stars + 1) states: thirteen stars are within the limit, fourteen are not. */
  lemma TailedLimit(stars: nat)
    ensures |ReachablePairs(Tailed(stars), Tailed(stars))| == Pow2(stars + 1)
    ensures WithinSearchLimits(Tailed(stars), Tailed(stars)) <==> stars <= 13
    ensures stars > 13 ==> !WithinDepthLimits(Tailed(stars), Tailed(stars), stars + 1)
    ensures Covered(Tailed(stars), Tailed(stars))
  {
    TailedReaches(stars);
    TailedCount(stars);
    assert Pow2(14) == 16_384;
    if stars <= 13 { Pow2Grows(stars + 1, 14); } else { Pow2Grows(15, stars + 1); }
  }

  /** So a pattern of sixteen segments is refused against itself. */
  method CoversItself(scheme: Option<string>, stars: nat) returns (covers: bool)
    ensures covers <==> stars <= 13
    ensures CoversEveryRoute(Pattern(scheme, Tailed(stars)), Pattern(scheme, Tailed(stars)))
  {
    TailedLimit(stars);
    covers := Covers(Pattern(scheme, Tailed(stars)), Pattern(scheme, Tailed(stars)));
  }

  // ----- a bound that can be read off two patterns

  /** Where the first `**` stands; the length if there is none. */
  function StarAt(pattern: seq<PatternSegment>): (f: nat)
    ensures f <= |pattern|
    ensures forall i | 0 <= i < f :: pattern[i] != DoubleStar
    ensures f < |pattern| ==> pattern[f] == DoubleStar
  {
    if pattern == [] || pattern[0] == DoubleStar then 0 else 1 + StarAt(pattern[1..])
  }

  /** How many segments there are from the first `**` on. */
  function Tail(pattern: seq<PatternSegment>): nat {
    |pattern| - StarAt(pattern)
  }

  lemma {:induction false} FixedOfConcat(a: seq<PatternSegment>, b: seq<PatternSegment>)
    ensures Fixed(a + b) == Fixed(a) + Fixed(b)
  {
    if a == [] {
      assert a + b == b;
    } else {
      FixedOfConcat(a[1..], b);
      assert (a + b)[1..] == a[1..] + b;
    }
  }

  lemma {:induction false} FixedWithoutStar(pattern: seq<PatternSegment>)
    requires DoubleStar !in pattern
    ensures Fixed(pattern) == |pattern|
  {
    if pattern != [] { FixedWithoutStar(pattern[1..]); }
  }

  /** What matches through a `**` and more already matches up to the `**`. */
  lemma {:induction false} UpToStar(before: seq<PatternSegment>, after: seq<PatternSegment>, path: seq<string>)
    requires Matches(before + [DoubleStar] + after, path)
    ensures Matches(before + [DoubleStar], path)
    decreases |after| + |path|
  {
    if after == [] {
      assert before + [DoubleStar] + after == before + [DoubleStar];
    } else {
      var n := |after| - 1;
      var shorter := before + [DoubleStar] + after[..n];
      assert before + [DoubleStar] + after == shorter + [after[n]];
      MatchesAtEnd(shorter, after[n], path);
      if Matches(shorter, path) {
        UpToStar(before, after[..n], path);
      } else {
        var init := path[..|path| - 1];
        if after[n] == DoubleStar { UpToStar(before, after, init); } else { UpToStar(before, after[..n], init); }
        MatchesAtEnd(before, DoubleStar, path);
      }
    }
  }

  /** How much of the pattern a live position has matched. */
  function Reach(pattern: seq<PatternSegment>, j: nat): (m: nat)
    requires j <= |pattern|
    ensures j <= m <= |pattern|
  {
    if j < |pattern| && pattern[j] == DoubleStar then j + 1 else j
  }

  lemma AliveBeforeStar(pattern: seq<PatternSegment>, path: seq<string>, j: nat)
    requires j < StarAt(pattern) && Alive(pattern, path, j)
    ensures j == |path|
  {
    hide Matches, Fixed, StarAt;
    var f := StarAt(pattern);
    MatchedLength(pattern[..j], path);
    FixedWithoutStar(pattern[..j]);
  }

  lemma AliveFromStar(pattern: seq<PatternSegment>, path: seq<string>, j: nat)
    requires StarAt(pattern) <= j <= |pattern| && Alive(pattern, path, j)
    ensures |path| >= StarAt(pattern)
  {
    hide Matches, Fixed, StarAt;
    var f, m := StarAt(pattern), Reach(pattern, j);
    MatchedLength(pattern[..m], path);
    FixedWithoutStar(pattern[..f]);
    FixedOfConcat(pattern[..f], pattern[f..m]);
    assert pattern[..m] == pattern[..f] + pattern[f..m];
  }

  lemma StarStaysAlive(pattern: seq<PatternSegment>, path: seq<string>, j: nat)
    requires StarAt(pattern) <= j <= |pattern| && Alive(pattern, path, j)
    ensures Alive(pattern, path, StarAt(pattern))
  {
    hide Matches, StarAt;
    var f, m := StarAt(pattern), Reach(pattern, j);
    if f < |pattern| {
      assert pattern[..m] == pattern[..f] + [DoubleStar] + pattern[f + 1..m];
      assert pattern[..f + 1] == pattern[..f] + [DoubleStar];
      UpToStar(pattern[..f], pattern[f + 1..m], path);
    }
  }

  /** The live position sets once the first `**` is reached: that position and any later ones. */
  ghost function Lasting(pattern: seq<PatternSegment>): set<set<nat>> {
    AllJoined(Subsets(StarAt(pattern) + 1, Tail(pattern)), StarAt(pattern))
  }

  /** Before the first `**` at most one position is alive, and afterwards the `**` stays alive or nothing is. */
  lemma RunShape(pattern: seq<PatternSegment>, path: seq<string>)
    ensures |path| < StarAt(pattern) ==> Run(pattern, path) == {} || Run(pattern, path) == {|path|}
    ensures |path| >= StarAt(pattern) ==> Run(pattern, path) == {} || Run(pattern, path) in Lasting(pattern)
  {
    hide Subsets, StarAt, Alive;
    var f, run := StarAt(pattern), Run(pattern, path);
    forall j | j in run
      ensures |path| < f ==> j == |path|
      ensures |path| >= f ==> f <= j <= |pattern| && f in run
    {
      if j < f {
        AliveBeforeStar(pattern, path, j);
      } else {
        AliveFromStar(pattern, path, j);
        StarStaysAlive(pattern, path, j);
      }
    }
    if |path| >= f && run != {} {
      var later := run - {f};
      SubsetsMeans(f + 1, Tail(pattern), later);
      assert run == Joined(later, f);
    }
  }

  lemma LastingCount(pattern: seq<PatternSegment>)
    ensures |Lasting(pattern)| == Pow2(Tail(pattern))
  {
    hide AllJoined, Subsets, StarAt;
    var f, rest := StarAt(pattern), Subsets(StarAt(pattern) + 1, Tail(pattern));
    SubsetsCount(f + 1, Tail(pattern));
    forall s | s in rest ensures f !in s { SubsetsMeans(f + 1, Tail(pattern), s); }
    JoinedCount(rest, f);
  }

  /** What the allowed pattern can look like after n segments. */
  ghost function After(pattern: seq<PatternSegment>, n: nat): set<set<nat>> {
    if n < StarAt(pattern) then {{}, {n}} else {{}} + Lasting(pattern)
  }

  ghost function Singles(n: nat): set<set<nat>> {
    if n == 0 then {} else Singles(n - 1) + {{n - 1}}
  }

  ghost function Anywhere(pattern: seq<PatternSegment>): set<set<nat>> {
    {{}} + Singles(StarAt(pattern)) + Lasting(pattern)
  }

  lemma {:induction false} SinglesMean(n: nat)
    ensures |Singles(n)| <= n && forall m: nat | m < n :: {m} in Singles(n)
  {
    if n > 0 { SinglesMean(n - 1); }
  }

  lemma UnionCount<T>(a: set<T>, b: set<T>)
    ensures |a + b| <= |a| + |b|
  {
    assert a + b == a + (b - a);
    SubsetCard(b - a, b);
  }

  lemma AnywhereCount(pattern: seq<PatternSegment>)
    ensures |Anywhere(pattern)| <= 1 + StarAt(pattern) + Pow2(Tail(pattern))
  {
    hide Lasting, Singles;
    SinglesMean(StarAt(pattern));
    LastingCount(pattern);
    UnionCount({{}}, Singles(StarAt(pattern)));
    UnionCount({{}} + Singles(StarAt(pattern)), Lasting(pattern));
  }

  lemma AfterCount(pattern: seq<PatternSegment>, n: nat)
    ensures |After(pattern, n)| <= Pow2(Tail(pattern)) + 1
  {
    hide Lasting;
    LastingCount(pattern);
    UnionCount({{}}, Lasting(pattern));
    Pow2Grows(0, Tail(pattern));
    UnionCount({{}}, {{n}});
    assert {{}, {n}} == {{}} + {{n}};
  }

  ghost function Product(left: set<set<nat>>, right: set<set<nat>>): set<Pair> {
    set l, r | l in left && r in right :: Pair(l, r)
  }

  lemma {:induction false} RowCount(l: set<nat>, right: set<set<nat>>)
    ensures |Product({l}, right)| <= |right|
    decreases |right|
  {
    if right == {} {
      assert Product({l}, right) == {};
    } else {
      var r :| r in right;
      RowCount(l, right - {r});
      assert Product({l}, right) == Product({l}, right - {r}) + {Pair(l, r)};
    }
  }

  lemma {:induction false} ProductCount(left: set<set<nat>>, right: set<set<nat>>)
    ensures |Product(left, right)| <= |left| * |right|
    decreases |left|
  {
    if left == {} {
      assert Product(left, right) == {};
    } else {
      var l :| l in left;
      ProductCount(left - {l}, right);
      RowCount(l, right);
      assert Product(left, right) == Product(left - {l}, right) + Product({l}, right);
      UnionCount(Product(left - {l}, right), Product({l}, right));
      assert (|left| - 1) * |right| + |right| == |left| * |right|;
    }
  }

  /** Pairs met while the request is still before its first `**`, after fewer than n segments. */
  ghost function Early(allowed: seq<PatternSegment>, n: nat): set<Pair> {
    if n == 0 then {} else Early(allowed, n - 1) + Product({{n - 1}}, After(allowed, n - 1))
  }

  lemma {:induction false} EarlyCount(allowed: seq<PatternSegment>, n: nat)
    ensures |Early(allowed, n)| <= n * (Pow2(Tail(allowed)) + 1)
  {
    hide After, Product;
    if n > 0 {
      EarlyCount(allowed, n - 1);
      AfterCount(allowed, n - 1);
      RowCount({n - 1}, After(allowed, n - 1));
      UnionCount(Early(allowed, n - 1), Product({{n - 1}}, After(allowed, n - 1)));
      assert (n - 1) * (Pow2(Tail(allowed)) + 1) + (Pow2(Tail(allowed)) + 1) == n * (Pow2(Tail(allowed)) + 1);
    }
  }

  lemma {:induction false} EarlyHolds(allowed: seq<PatternSegment>, n: nat, m: nat, a: set<nat>)
    requires m < n && a in After(allowed, m)
    ensures Pair({m}, a) in Early(allowed, n)
    decreases n
  {
    if m < n - 1 { EarlyHolds(allowed, n - 1, m, a); }
  }

  /** The number of states is at most this: few segments from the first `**` on keep it small. */
  function SearchBound(requested: seq<PatternSegment>, allowed: seq<PatternSegment>): nat {
    StarAt(requested) * (Pow2(Tail(allowed)) + 1) + Pow2(Tail(requested)) * (1 + StarAt(allowed) + Pow2(Tail(allowed)))
  }

  lemma PairPlace(requested: seq<PatternSegment>, allowed: seq<PatternSegment>, path: seq<string>)
    requires Run(requested, path) != {}
    ensures PairAfter(requested, allowed, path) in
              Early(allowed, StarAt(requested)) + Product(Lasting(requested), Anywhere(allowed))
  {
    hide Run, Lasting, Early;
    var n := |path|;
    RunShape(requested, path);
    RunShape(allowed, path);
    SinglesMean(StarAt(allowed));
    if n < StarAt(requested) { EarlyHolds(allowed, StarAt(requested), n, Run(allowed, path)); }
  }

  lemma ReachablePlaces(requested: seq<PatternSegment>, allowed: seq<PatternSegment>)
    ensures ReachablePairs(requested, allowed) <=
            Early(allowed, StarAt(requested)) + Product(Lasting(requested), Anywhere(allowed))
  {
    hide Early, Product, Lasting, Anywhere, Run;
    forall pair | pair in ReachablePairs(requested, allowed)
      ensures pair in Early(allowed, StarAt(requested)) + Product(Lasting(requested), Anywhere(allowed))
    {
      var path :| IsPath(path) && PairAfter(requested, allowed, path) == pair;
      PairPlace(requested, allowed, path);
    }
  }

  lemma ReachableBound(requested: seq<PatternSegment>, allowed: seq<PatternSegment>)
    ensures |ReachablePairs(requested, allowed)| <= SearchBound(requested, allowed)
  {
    hide ReachablePairs, Early, Product, Lasting, Anywhere, StarAt, Pow2;
    var early, late := Early(allowed, StarAt(requested)), Product(Lasting(requested), Anywhere(allowed));
    ReachablePlaces(requested, allowed);
    SubsetCard(ReachablePairs(requested, allowed), early + late);
    UnionCount(early, late);
    EarlyCount(allowed, StarAt(requested));
    ProductCount(Lasting(requested), Anywhere(allowed));
    LastingCount(requested);
    AnywhereCount(allowed);
    Multiplied(Pow2(Tail(requested)), |Anywhere(allowed)|, 1 + StarAt(allowed) + Pow2(Tail(allowed)));
  }

  lemma Multiplied(a: nat, b: nat, c: nat)
    requires b <= c
    ensures a * b <= a * c
  {
  }

  /** Two patterns whose bound is within the limit are decided exactly, at any depth too. */
  lemma SmallSearchesFit(requested: seq<PatternSegment>, allowed: seq<PatternSegment>, depth: nat)
    requires |requested| < MASK_BITS && |allowed| < MASK_BITS
             && SearchBound(requested, allowed) <= MAX_PATTERN_COVERAGE_STATES
    ensures WithinSearchLimits(requested, allowed) && WithinDepthLimits(requested, allowed, depth)
  {
    hide ReachablePairs, PairsAtDepth, SearchBound;
    ReachableBound(requested, allowed);
    forall d: nat | d <= depth ensures |PairsAtDepth(requested, allowed, d)| <= MAX_PATTERN_COVERAGE_STATES {
      DepthIsReachable(requested, allowed, d);
      SubsetCard(PairsAtDepth(requested, allowed, d), ReachablePairs(requested, allowed));
    }
  }

  lemma Powers(tail: nat)
    ensures (tail == 0 ==> Pow2(tail) == 1) && (tail <= 6 ==> Pow2(tail) <= 64)
  {
    if tail <= 6 { Pow2Grows(tail, 6); }
  }

  lemma BoundIsSmall(requested: seq<PatternSegment>, allowed: seq<PatternSegment>)
    requires || (Pow2(Tail(requested)) == 1 && Pow2(Tail(allowed)) == 1
                 && |requested| < MASK_BITS && |allowed| < MASK_BITS)
             || (|requested| <= 64 && |allowed| <= 64 && Pow2(Tail(requested)) <= 64 && Pow2(Tail(allowed)) <= 64)
    ensures SearchBound(requested, allowed) <= MAX_PATTERN_COVERAGE_STATES
  {
    hide Pow2, StarAt, Tail;
    BoundInNumbers(StarAt(requested), StarAt(allowed), Pow2(Tail(requested)), Pow2(Tail(allowed)));
  }

  lemma BoundInNumbers(f: nat, g: nat, t: nat, u: nat)
    requires (t == 1 && u == 1 && f < MASK_BITS && g < MASK_BITS) || (f <= 64 && g <= 64 && t <= 64 && u <= 64)
    ensures f * (u + 1) + t * (1 + g + u) <= MAX_PATTERN_COVERAGE_STATES
  {
    if t != 1 || u != 1 {
      BothSmaller(f, u + 1, 64, 65);
      BothSmaller(t, 1 + g + u, 64, 129);
    }
  }

  lemma BothSmaller(a: nat, b: nat, c: nat, d: nat)
    requires a <= c && b <= d
    ensures a * b <= c * d
  {
    Multiplied(a, b, d);
    Multiplied(d, a, c);
  }

  /**
   So patterns without `**`, and routes of up to 64 segments with at most six from the first `**` on, are always
   decided.
   */
  lemma ShortTailsFit(requested: seq<PatternSegment>, allowed: seq<PatternSegment>, depth: nat)
    requires |requested| < MASK_BITS && |allowed| < MASK_BITS
    requires || (Tail(requested) == 0 && Tail(allowed) == 0)
             || (|requested| <= 64 && |allowed| <= 64 && Tail(requested) <= 6 && Tail(allowed) <= 6)
    ensures WithinSearchLimits(requested, allowed) && WithinDepthLimits(requested, allowed, depth)
  {
    hide *;
    Powers(Tail(requested));
    Powers(Tail(allowed));
    BoundIsSmall(requested, allowed);
    SmallSearchesFit(requested, allowed, depth);
  }

  // ----- a pattern against itself

  ghost function Diagonal(sets: set<set<nat>>): set<Pair> {
    set s | s in sets :: Pair(s, s)
  }

  lemma {:induction false} DiagonalCount(sets: set<set<nat>>)
    ensures |Diagonal(sets)| <= |sets|
  {
    if sets == {} {
      assert Diagonal(sets) == {};
    } else {
      var one :| one in sets;
      DiagonalCount(sets - {one});
      assert Diagonal(sets) == Diagonal(sets - {one}) + {Pair(one, one)};
    }
  }

  lemma RunIsAnywhere(pattern: seq<PatternSegment>, path: seq<string>)
    ensures Run(pattern, path) in Anywhere(pattern)
  {
    hide Run, Lasting;
    RunShape(pattern, path);
    SinglesMean(StarAt(pattern));
  }

  /** Both sides of a pattern searched against itself move alike, so the states are no more than one side has. */
  lemma SelfSearchBound(pattern: seq<PatternSegment>)
    ensures |ReachablePairs(pattern, pattern)| <= 1 + StarAt(pattern) + Pow2(Tail(pattern))
  {
    hide Anywhere, Run, StarAt, Pow2;
    forall pair | pair in ReachablePairs(pattern, pattern) ensures pair in Diagonal(Anywhere(pattern)) {
      var path :| IsPath(path) && PairAfter(pattern, pattern, path) == pair;
      RunIsAnywhere(pattern, path);
    }
    SubsetCard(ReachablePairs(pattern, pattern), Diagonal(Anywhere(pattern)));
    DiagonalCount(Anywhere(pattern));
    AnywhereCount(pattern);
  }

  /** So a pattern with at most thirteen segments from its first `**` on is always found to cover itself. */
  lemma SelfSearchFits(pattern: seq<PatternSegment>, depth: nat)
    requires |pattern| < MASK_BITS && Tail(pattern) <= 13
    ensures WithinSearchLimits(pattern, pattern) && WithinDepthLimits(pattern, pattern, depth)
  {
    hide ReachablePairs, PairsAtDepth;
    SelfSearchBound(pattern);
    Pow2Grows(Tail(pattern), 13);
    assert Pow2(13) == 8_192;
    forall d: nat | d <= depth ensures |PairsAtDepth(pattern, pattern, d)| <= MAX_PATTERN_COVERAGE_STATES {
      DepthIsReachable(pattern, pattern, d);
      SubsetCard(PairsAtDepth(pattern, pattern, d), ReachablePairs(pattern, pattern));
    }
  }
}
