/** Which registered RPC worker serves a request: an exact-key lookup, then a scan for the most specific pattern. */
module RpcSelection {
  import opened Routes
  import opened Patterns

  datatype Option<T> = None | Some(value: T)

  datatype Score = Score(literals: nat, singles: nat, doubles: nat, segments: nat)

  /** The segments after the marker, as slicing after the marker's index yields them. */
  function PathSegments(pattern: Text): seq<Text> {
    var from := IndexOfMarker(pattern, 0) + 3;
    Split(if from <= |pattern| then pattern[from..] else [])
  }

  function Literals(segments: seq<Text>): nat {
    if segments == [] then 0
    else (if segments[0] != SINGLE && segments[0] != DOUBLE then 1 else 0) + Literals(segments[1..])
  }

  function Singles(segments: seq<Text>): nat {
    if segments == [] then 0 else (if segments[0] == SINGLE then 1 else 0) + Singles(segments[1..])
  }

  function DoubleCount(segments: seq<Text>): nat {
    if segments == [] then 0 else (if segments[0] == DOUBLE then 1 else 0) + DoubleCount(segments[1..])
  }

  function ScoreOf(segments: seq<Text>): Score {
    Score(Literals(segments), Singles(segments), DoubleCount(segments), |segments|)
  }

  function Specificity(pattern: Text): Score {
    ScoreOf(PathSegments(pattern))
  }

  method RpcPatternSpecificity(pattern: Text) returns (score: Score)
    ensures score == Specificity(pattern)
  {
    var segments := PathSegments(pattern);
    var literals, singles, doubles := 0, 0, 0;
    var i := 0;
    while i < |segments|
      invariant i <= |segments|
      invariant literals + Literals(segments[i..]) == Literals(segments)
      invariant singles + Singles(segments[i..]) == Singles(segments)
      invariant doubles + DoubleCount(segments[i..]) == DoubleCount(segments)
    {
      assert segments[i..][1..] == segments[i + 1..];
      if segments[i] == SINGLE {
        singles := singles + 1;
      } else if segments[i] == DOUBLE {
        doubles := doubles + 1;
      } else {
        literals := literals + 1;
      }
      i := i + 1;
    }
    score := Score(literals, singles, doubles, |segments|);
  }

  /** String comparison by code units. */
  predicate LessText(a: Text, b: Text) {
    b != [] && (a == [] || a[0] < b[0] || (a[0] == b[0] && LessText(a[1..], b[1..])))
  }

  predicate Outscores(a: Score, b: Score) {
    if a.literals != b.literals then a.literals > b.literals
    else if a.singles != b.singles then a.singles > b.singles
    else if a.doubles != b.doubles then a.doubles < b.doubles
    else a.segments > b.segments
  }

  predicate MoreSpecific(candidate: Text, current: Text) {
    var a, b := Specificity(candidate), Specificity(current);
    if a != b then Outscores(a, b) else LessText(candidate, current)
  }

  method IsMoreSpecificRpcPattern(candidate: Text, current: Text) returns (more: bool)
    ensures more == MoreSpecific(candidate, current)
  {
    var a := RpcPatternSpecificity(candidate);
    var b := RpcPatternSpecificity(current);
    if a.literals != b.literals {
      return a.literals > b.literals;
    }
    if a.singles != b.singles {
      return a.singles > b.singles;
    }
    if a.doubles != b.doubles {
      return a.doubles < b.doubles;
    }
    if a.segments != b.segments {
      return a.segments > b.segments;
    }
    more := LessText(candidate, current);
  }

  // ---------- The order ----------

  lemma {:induction false} LessTextTransitive(a: Text, b: Text, c: Text)
    requires LessText(a, b) && LessText(b, c)
    ensures LessText(a, c)
  {
    if a != [] && a[0] == b[0] && b[0] == c[0] {
      LessTextTransitive(a[1..], b[1..], c[1..]);
    }
  }

  lemma {:induction false} LessTextTotal(a: Text, b: Text)
    ensures a != b ==> LessText(a, b) || LessText(b, a)
    ensures !(LessText(a, b) && LessText(b, a))
  {
    if a != [] && b != [] && a[0] == b[0] {
      LessTextTotal(a[1..], b[1..]);
      assert a == [a[0]] + a[1..] && b == [b[0]] + b[1..];
    }
  }

  /** The comparison is a strict total order on distinct patterns. */
  lemma MoreSpecificIsStrictTotalOrder(a: Text, b: Text, c: Text)
    ensures !MoreSpecific(a, a)
    ensures MoreSpecific(a, b) && MoreSpecific(b, c) ==> MoreSpecific(a, c)
    ensures a != b ==> (MoreSpecific(a, b) <==> !MoreSpecific(b, a))
  {
    LessTextTotal(a, a);
    LessTextTotal(a, b);
    if LessText(a, b) && LessText(b, c) {
      LessTextTransitive(a, b, c);
    }
  }

  // ---------- What more specific means ----------

  /** How much one segment pins down: a literal one segment exactly, a single star one segment, a double star any number. */
  predicate FinerSegment(a: Text, b: Text) {
    || (b == DOUBLE && a != DOUBLE)
    || (b == SINGLE && a != SINGLE && a != DOUBLE)
  }

  predicate Wildcard(segment: Text) {
    segment == SINGLE || segment == DOUBLE
  }

  /** Segment by segment as fine, or finer. */
  ghost predicate AsFine(a: seq<Text>, b: seq<Text>) {
    |a| == |b| && forall i :: 0 <= i < |a| ==> FinerSegment(a[i], b[i]) || (a[i] == b[i]) || (!Wildcard(a[i]) && !Wildcard(b[i]))
  }

  ghost predicate Finer(a: seq<Text>, b: seq<Text>) {
    AsFine(a, b) && exists i :: 0 <= i < |a| && FinerSegment(a[i], b[i])
  }

  lemma {:induction false} AsFineScores(a: seq<Text>, b: seq<Text>)
    requires AsFine(a, b)
    ensures Literals(a) >= Literals(b)
    ensures Literals(a) == Literals(b) ==> Singles(a) >= Singles(b)
    ensures Literals(a) == Literals(b) && Singles(a) == Singles(b) ==>
              forall i :: 0 <= i < |a| ==> !FinerSegment(a[i], b[i])
  {
    if a != [] {
      assert AsFine(a[1..], b[1..]) by {
        forall i | 0 <= i < |a| - 1 ensures a[1..][i] == a[i + 1] && b[1..][i] == b[i + 1] {
        }
      }
      AsFineScores(a[1..], b[1..]);
      forall i | 0 <= i < |a| && Literals(a) == Literals(b) && Singles(a) == Singles(b) ensures !FinerSegment(a[i], b[i]) {
        if i > 0 {
          assert a[1..][i - 1] == a[i] && b[1..][i - 1] == b[i];
        }
      }
    }
  }

  /**
   A pattern that is as fine segment by segment, and finer at some place, is the more specific one: a single star
   beats a double star, and a literal beats both, wherever the rest agrees.
   */
  lemma FinerIsMoreSpecific(candidate: Text, current: Text)
    requires Finer(PathSegments(candidate), PathSegments(current))
    ensures MoreSpecific(candidate, current) && !MoreSpecific(current, candidate)
  {
    AsFineScores(PathSegments(candidate), PathSegments(current));
  }

  lemma {:induction false} CountsOfConcat(a: seq<Text>, b: seq<Text>)
    ensures Literals(a + b) == Literals(a) + Literals(b) && Singles(a + b) == Singles(a) + Singles(b)
    ensures DoubleCount(a + b) == DoubleCount(a) + DoubleCount(b)
  {
    if a == [] {
      assert a + b == b;
    } else {
      assert (a + b)[1..] == a[1..] + b;
      CountsOfConcat(a[1..], b);
    }
  }

  /** One double star less, and the rest the same, is more specific; one literal or single star more is, too. */
  lemma OneSegmentDecides(shorter: Text, longer: Text, before: seq<Text>, segment: Text, after: seq<Text>)
    requires PathSegments(shorter) == before + after && PathSegments(longer) == before + [segment] + after
    ensures segment == DOUBLE ==> MoreSpecific(shorter, longer)
    ensures segment != DOUBLE ==> MoreSpecific(longer, shorter)
  {
    CountsOfConcat(before, after);
    CountsOfConcat(before + [segment], after);
    CountsOfConcat(before, [segment]);
  }

  /** Every segment is of one of the three kinds, so the comparison of lengths never decides. */
  lemma {:induction false} LengthNeverDecides(segments: seq<Text>)
    ensures Literals(segments) + Singles(segments) + DoubleCount(segments) == |segments|
  {
    if segments != [] {
      LengthNeverDecides(segments[1..]);
    }
  }

  /** At the first difference the text is smaller, or it is a proper prefix. */
  predicate LessAt(a: Text, b: Text, i: nat) {
    i <= |a| && i < |b| && a[..i] == b[..i] && (i == |a| || a[i] < b[i])
  }

  lemma {:induction false} LessTextIff(a: Text, b: Text)
    ensures LessText(a, b) <==> exists i: nat :: LessAt(a, b, i)
  {
    if a != [] && b != [] && a[0] == b[0] {
      LessTextIff(a[1..], b[1..]);
      if i: nat :| LessAt(a[1..], b[1..], i) {
        assert a[..i + 1] == [a[0]] + a[1..][..i] && b[..i + 1] == [b[0]] + b[1..][..i];
        assert LessAt(a, b, i + 1);
      }
      if i: nat :| LessAt(a, b, i) {
        assert i > 0;
        assert a[1..][..i - 1] == a[..i][1..] && b[1..][..i - 1] == b[..i][1..];
        assert LessAt(a[1..], b[1..], i - 1);
      }
    } else if b != [] && (a == [] || a[0] < b[0]) {
      assert LessAt(a, b, 0);
    } else {
      forall i: nat ensures !LessAt(a, b, i) {
        if 0 < i <= |a| && i < |b| {
          assert a[..i][0] == a[0] && b[..i][0] == b[0];
        }
      }
    }
  }

  /**
   With as many literals and as many single stars, fewer double stars win; with as many of those too, the text that
   is smaller at the first difference.
   */
  lemma DoublesThenText(candidate: Text, current: Text)
    requires Literals(PathSegments(candidate)) == Literals(PathSegments(current))
    requires Singles(PathSegments(candidate)) == Singles(PathSegments(current))
    ensures MoreSpecific(candidate, current) <==>
            || DoubleCount(PathSegments(candidate)) < DoubleCount(PathSegments(current))
            || (&& DoubleCount(PathSegments(candidate)) == DoubleCount(PathSegments(current))
                && exists i: nat :: LessAt(candidate, current, i))
  {
    LengthNeverDecides(PathSegments(candidate));
    LengthNeverDecides(PathSegments(current));
    LessTextIff(candidate, current);
  }

  // ---------- The scan ----------

  /** p is registered and matches, and beats every other registered pattern that matches. */
  ghost predicate IsBest(keys: set<Text>, route: Text, p: Text) {
    && p in keys && RouteMatches(route, p)
    && forall q :: q in keys && RouteMatches(route, q) && q != p ==> MoreSpecific(p, q)
  }

  ghost predicate IsSelection(keys: set<Text>, route: Text, selected: Option<Text>) {
    match selected
    case Some(p) => IsBest(keys, route, p)
    case None => forall q :: q in keys ==> !RouteMatches(route, q)
  }

  /** There is at most one selection, so the order in which the map is walked does not matter. */
  lemma SelectionIsUnique(keys: set<Text>, route: Text, a: Option<Text>, b: Option<Text>)
    requires IsSelection(keys, route, a) && IsSelection(keys, route, b)
    ensures a == b
  {
    if a.Some? && b.Some? && a != b {
      MoreSpecificIsStrictTotalOrder(a.value, b.value, a.value);
    }
  }

  ghost function Keys(order: seq<Text>): set<Text> {
    set p | p in order
  }

  /** The scan over the map in the given order. */
  method ScanWorkers(order: seq<Text>, route: Text) returns (selected: Option<Text>)
    ensures IsSelection(Keys(order), route, selected)
  {
    selected := None;
    var i := 0;
    while i < |order|
      invariant i <= |order| && IsSelection(Keys(order[..i]), route, selected)
    {
      ghost var seen := Keys(order[..i]);
      assert Keys(order[..i + 1]) == seen + {order[i]};
      var matched := RouteMatchesPattern(route, order[i]);
      if matched {
        if selected == None {
          selected := Some(order[i]);
        } else {
          var better := IsMoreSpecificRpcPattern(order[i], selected.value);
          BetterOfTwo(seen, route, selected.value, order[i]);
          if better {
            selected := Some(order[i]);
          }
        }
      }
      i := i + 1;
    }
    assert order[..i] == order;
  }

  lemma BetterOfTwo(keys: set<Text>, route: Text, p: Text, q: Text)
    requires IsBest(keys, route, p) && RouteMatches(route, q)
    ensures IsBest(keys + {q}, route, if MoreSpecific(q, p) then q else p)
  {
    MoreSpecificIsStrictTotalOrder(p, q, p);
    forall k | k in keys && RouteMatches(route, k) && k != p ensures MoreSpecific(q, p) ==> MoreSpecific(q, k) {
      MoreSpecificIsStrictTotalOrder(q, p, k);
    }
  }

  /** The whole selection; the registered pattern that equals the route is taken without a scan. */
  method SelectWorker(order: seq<Text>, route: Text) returns (selected: Option<Text>)
    ensures route in order ==> selected == Some(route)
    ensures route !in order || IsConcrete(route) ==> IsSelection(Keys(order), route, selected)
    ensures selected.Some? && (route !in order || IsConcrete(route)) ==>
              forall q :: q in order && RouteMatches(route, q) ==> !Finer(PathSegments(q), PathSegments(selected.value))
  {
    if route in order {
      if IsConcrete(route) {
        ExactKeyIsBest(Keys(order), route);
        NoneFiner(Keys(order), route, route);
      }
      return Some(route);
    }
    selected := ScanWorkers(order, route);
    if selected.Some? {
      NoneFiner(Keys(order), route, selected.value);
    }
  }

  /** No registered pattern that matches is finer than the selected one. */
  lemma NoneFiner(keys: set<Text>, route: Text, p: Text)
    requires IsBest(keys, route, p)
    ensures forall q :: q in keys && RouteMatches(route, q) ==> !Finer(PathSegments(q), PathSegments(p))
  {
    forall q | q in keys && RouteMatches(route, q) && Finer(PathSegments(q), PathSegments(p)) ensures false {
      FinerIsMoreSpecific(q, p);
      assert q != p ==> MoreSpecific(p, q);
      MoreSpecificIsStrictTotalOrder(p, q, p);
    }
  }

  /** A route with a scheme and a concrete path. */
  predicate IsConcrete(route: Text) {
    && IndexOfMarker(route, 0) >= 1
    && forall i | 0 <= i < |PathSegments(route)| :: ConcreteSegment(PathSegments(route)[i])
  }

  /** A pattern has no more literals and single wildcards together than the segments it matches. */
  lemma {:induction false} MatchBoundsCounts(route: seq<Text>, pattern: seq<Text>)
    requires Matches(route, pattern)
    ensures Literals(pattern) + Singles(pattern) <= |route|
    ensures Literals(pattern) == |route| && DoubleCount(pattern) == 0 ==> pattern == route
    decreases |route| + |pattern|
  {
    if pattern != [] {
      if pattern[0] != DOUBLE {
        MatchBoundsCounts(route[1..], pattern[1..]);
        assert route == [route[0]] + route[1..] && pattern == [pattern[0]] + pattern[1..];
      } else if Matches(route, pattern[1..]) {
        MatchBoundsCounts(route, pattern[1..]);
      } else {
        MatchBoundsCounts(route[1..], pattern);
      }
    }
  }

  lemma {:induction false} ConcreteScore(segments: seq<Text>)
    requires forall i | 0 <= i < |segments| :: ConcreteSegment(segments[i])
    ensures ScoreOf(segments) == Score(|segments|, 0, 0, |segments|) && Matches(segments, segments)
  {
    if segments != [] {
      assert SINGLE[0] == ASTERISK && DOUBLE[0] == ASTERISK;
      assert ConcreteSegment(segments[0]);
      ConcreteScore(segments[1..]);
    }
  }

  /** Equal schemes and equal segments make equal strings. */
  lemma SameSegmentsSameText(a: Text, b: Text)
    requires IndexOfMarker(a, 0) >= 1 && IndexOfMarker(a, 0) == IndexOfMarker(b, 0)
    requires a[..IndexOfMarker(a, 0)] == b[..IndexOfMarker(b, 0)] && PathSegments(a) == PathSegments(b)
    ensures a == b
  {
    var k := IndexOfMarker(a, 0);
    JoinSplit(a[k + 3..]);
    JoinSplit(b[k + 3..]);
    assert a == a[..k] + a[k..k + 3] + a[k + 3..] && b == b[..k] + b[k..k + 3] + b[k + 3..];
  }

  /** For a concrete route, the pattern equal to it is what the full scan would select as well. */
  lemma ExactKeyIsBest(keys: set<Text>, route: Text)
    requires IsConcrete(route) && route in keys
    ensures IsBest(keys, route, route)
  {
    var segments := PathSegments(route);
    ConcreteScore(segments);
    assert DOUBLE !in segments by {
      assert DOUBLE[0] == ASTERISK;
    }
    GreedyIsRight(segments, segments);
    forall q | q in keys && RouteMatches(route, q) && q != route ensures MoreSpecific(route, q) {
      GreedyIsRight(segments, PathSegments(q));
      MatchBoundsCounts(segments, PathSegments(q));
      if PathSegments(q) == segments {
        SameSegmentsSameText(route, q);
      }
    }
  }
}
