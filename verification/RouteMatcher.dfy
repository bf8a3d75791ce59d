/** Wildcard route patterns and what they match (src/runtime/matcher.rs). */
module RouteMatcher {

  datatype PatternSegment = Literal(text: string) | Star | DoubleStar

  /** Path segments come from splitting on '/' and dropping the empty pieces. */
  predicate IsSegment(s: string) {
    s != "" && '/' !in s
  }

  predicate IsPath(path: seq<string>) {
    forall i | 0 <= i < |path| :: IsSegment(path[i])
  }

  predicate IsPattern(pattern: seq<PatternSegment>) {
    forall i | 0 <= i < |pattern| :: pattern[i].Literal? ==> IsSegment(pattern[i].text)
  }

  /** The matching rule: `*` takes one segment, `**` takes any number, a literal takes itself. */
  predicate Matches(pattern: seq<PatternSegment>, path: seq<string>)
    decreases |pattern| + |path|
  {
    if pattern == [] then path == []
    else match pattern[0]
      case DoubleStar => Matches(pattern[1..], path) || (path != [] && Matches(pattern, path[1..]))
      case Star => path != [] && Matches(pattern[1..], path[1..])
      case Literal(text) => path != [] && path[0] == text && Matches(pattern[1..], path[1..])
  }

  /** One segment of the path is consumed by one non-recursive pattern segment. */
  predicate Takes(segment: PatternSegment, part: string) {
    segment == Star || segment == Literal(part)
  }

  /** The same rule read from the right-hand end, which is the direction both automata run in. */
  lemma {:induction false} MatchesAtEnd(pattern: seq<PatternSegment>, last: PatternSegment, path: seq<string>)
    ensures Matches(pattern + [last], path) <==>
            if last == DoubleStar
            then Matches(pattern, path) || (path != [] && Matches(pattern + [last], path[..|path| - 1]))
            else path != [] && Takes(last, path[|path| - 1]) && Matches(pattern, path[..|path| - 1])
    decreases |pattern| + |path|
  {
    var whole := pattern + [last];
    if pattern == [] {
      assert whole == [last] && whole[1..] == [];
      assert forall rest :: Matches([], rest) <==> rest == [];
      if last == DoubleStar {
        OnlyDoubleStar(path);
        if path != [] { OnlyDoubleStar(path[..|path| - 1]); }
      } else if path != [] {
        assert path[1..] == [] <==> path[..|path| - 1] == [];
      }
    } else {
      assert whole[0] == pattern[0] && whole[1..] == pattern[1..] + [last];
      MatchesAtEnd(pattern[1..], last, path);
      if path != [] {
        var init := path[..|path| - 1];
        MatchesAtEnd(pattern, last, path[1..]);
        MatchesAtEnd(pattern[1..], last, path[1..]);
        if |path| > 1 {
          assert path[1..][..|path[1..]| - 1] == init[1..];
          assert path[1..][|path| - 2] == path[|path| - 1];
        } else {
          assert init == [] && path[1..] == [];
        }
      }
    }
  }

  lemma {:induction false} OnlyDoubleStar(path: seq<string>)
    ensures Matches([DoubleStar], path)
  {
    if path != [] { OnlyDoubleStar(path[1..]); }
  }

  /** No pattern is empty as a language: it always matches some path. */
  lemma {:induction false} SomePathMatches(pattern: seq<PatternSegment>) returns (path: seq<string>)
    requires IsPattern(pattern)
    ensures IsPath(path) && Matches(pattern, path)
  {
    if pattern == [] {
      path := [];
    } else {
      var rest := SomePathMatches(pattern[1..]);
      match pattern[0]
      case DoubleStar => path := rest;
      case Star => path := ["x"] + rest; assert path[1..] == rest;
      case Literal(text) => path := [text] + rest; assert path[1..] == rest;
    }
  }

  // ----- which lengths a pattern can match

  /** The segments that take exactly one path segment each. */
  function Fixed(pattern: seq<PatternSegment>): nat {
    if pattern == [] then 0 else (if pattern[0] == DoubleStar then 0 else 1) + Fixed(pattern[1..])
  }

  /** The registration rule: the fixed segments fill the depth, or leave room for a `**` to fill. */
  predicate CanMatch(pattern: seq<PatternSegment>, depth: nat) {
    Fixed(pattern) == depth || (Fixed(pattern) < depth && DoubleStar in pattern)
  }

  lemma {:induction false} MatchedLength(pattern: seq<PatternSegment>, path: seq<string>)
    requires Matches(pattern, path)
    ensures CanMatch(pattern, |path|)
    decreases |pattern| + |path|
  {
    if pattern != [] {
      if pattern[0] != DoubleStar {
        MatchedLength(pattern[1..], path[1..]);
      } else if Matches(pattern[1..], path) {
        MatchedLength(pattern[1..], path);
      } else {
        MatchedLength(pattern, path[1..]);
      }
    }
  }

  lemma {:induction false} PathOfLength(pattern: seq<PatternSegment>, depth: nat) returns (path: seq<string>)
    requires IsPattern(pattern) && CanMatch(pattern, depth)
    ensures IsPath(path) && |path| == depth && Matches(pattern, path)
    decreases |pattern| + depth
  {
    if pattern == [] {
      path := [];
    } else if pattern[0] == DoubleStar {
      if CanMatch(pattern[1..], depth) {
        path := PathOfLength(pattern[1..], depth);
      } else {
        var rest := PathOfLength(pattern, depth - 1);
        path := ["x"] + rest;
        assert path[1..] == rest;
      }
    } else {
      var rest := PathOfLength(pattern[1..], depth - 1);
      path := [if pattern[0] == Star then "x" else pattern[0].text] + rest;
      assert path[1..] == rest;
    }
  }

  /** The rule is exact: a registration passes it just when some path of that length matches. */
  lemma CanMatchIsExact(pattern: seq<PatternSegment>, depth: nat)
    requires IsPattern(pattern)
    ensures CanMatch(pattern, depth) <==> exists path :: IsPath(path) && |path| == depth && Matches(pattern, path)
  {
    if CanMatch(pattern, depth) { var path := PathOfLength(pattern, depth); }
    forall path | IsPath(path) && |path| == depth && Matches(pattern, path) ensures CanMatch(pattern, depth) {
      MatchedLength(pattern, path);
    }
  }

  /** The dynamic program behind every match: one row of flags per pattern segment. */
  method MatchSegments(patterns: seq<PatternSegment>, route: seq<string>) returns (matched: bool)
    ensures matched <==> Matches(patterns, route)
  {
    var previous := seq(|route| + 1, i => i == 0);
    assert forall k | 0 <= k <= |route| :: previous[k] <==> Matches([], route[..k]);
    for n := 0 to |patterns|
      invariant |previous| == |route| + 1
      invariant forall k | 0 <= k <= |route| :: previous[k] <==> Matches(patterns[..n], route[..k])
    {
      previous := NextRow(patterns[..n], patterns[n], route, previous);
      assert patterns[..n + 1] == patterns[..n] + [patterns[n]];
    }
    assert patterns[..|patterns|] == patterns && route[..|route|] == route;
    matched := previous[|route|];
  }

  method NextRow(ghost done: seq<PatternSegment>, pattern: PatternSegment, route: seq<string>, previous: seq<bool>)
    returns (current: seq<bool>)
    requires |previous| == |route| + 1
    requires forall k | 0 <= k <= |route| :: previous[k] <==> Matches(done, route[..k])
    ensures |current| == |route| + 1
    ensures forall k | 0 <= k <= |route| :: current[k] <==> Matches(done + [pattern], route[..k])
  {
    MatchesAtEnd(done, pattern, []);
    assert route[..0] == [];
    current := [pattern == DoubleStar && previous[0]];
    for index := 1 to |route| + 1
      invariant |current| == index
      invariant forall k | 0 <= k < index :: current[k] <==> Matches(done + [pattern], route[..k])
    {
      MatchesAtEnd(done, pattern, route[..index]);
      assert route[..index][..index - 1] == route[..index - 1];
      match pattern
      case DoubleStar => current := current + [previous[index] || current[index - 1]];
      case Star => current := current + [previous[index - 1]];
      case Literal(text) => current := current + [previous[index - 1] && text == route[index - 1]];
    }
  }
}
