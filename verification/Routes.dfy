/**
 Routes and route patterns: strings of UTF-16 code units, split at slashes into segments, and the
 glob `*` (one segment) and `**` (zero or more segments).
 */
module Routes {

  newtype CodeUnit = n: int | 0 <= n < 0x1_0000
  type Text = seq<CodeUnit>

  const SLASH: CodeUnit := 47
  const ASTERISK: CodeUnit := 42
  const MARKER: Text := [58, 47, 47]
  const SINGLE: Text := [ASTERISK]
  const DOUBLE: Text := [ASTERISK, ASTERISK]

  // ---------- Splitting ----------

  function Split(s: Text): (segments: seq<Text>)
    ensures |segments| >= 1
  {
    if s == [] then [[]]
    else
      var rest := Split(s[1..]);
      if s[0] == SLASH then [[]] + rest else [[s[0]] + rest[0]] + rest[1..]
  }

  function Join(segments: seq<Text>): Text
    requires |segments| >= 1
  {
    if |segments| == 1 then segments[0] else segments[0] + [SLASH] + Join(segments[1..])
  }

  lemma {:induction false} JoinSplit(s: Text)
    ensures Join(Split(s)) == s
  {
    if s != [] {
      JoinSplit(s[1..]);
      var rest := Split(s[1..]);
      if s[0] == SLASH {
        assert ([[]] + rest)[1..] == rest;
      } else {
        assert ([[s[0]] + rest[0]] + rest[1..])[1..] == rest[1..];
      }
    }
  }

  /** A first segment without slashes, up to the end or to a slash, is split off as it is. */
  lemma {:induction false} SplitFirst(s: Text, k: nat)
    requires k <= |s| && (forall i :: 0 <= i < k ==> s[i] != SLASH) && (k < |s| ==> s[k] == SLASH)
    ensures Split(s) == [s[..k]] + (if k == |s| then [] else Split(s[k + 1..]))
  {
    if k > 0 {
      SplitFirst(s[1..], k - 1);
      assert [s[0]] + s[1..][..k - 1] == s[..k];
      if k < |s| {
        assert s[1..][k..] == s[k + 1..];
      }
    }
  }

  lemma {:induction false} SplitJoin(segments: seq<Text>)
    requires |segments| >= 1 && forall i :: 0 <= i < |segments| ==> SLASH !in segments[i]
    ensures Split(Join(segments)) == segments
  {
    var s := Join(segments);
    var k := |segments[0]|;
    assert s[..k] == segments[0];
    SplitFirst(s, k);
    if |segments| > 1 {
      SplitJoin(segments[1..]);
      assert s[k + 1..] == Join(segments[1..]);
    }
  }

  // ---------- The glob ----------

  /** What a pattern means. */
  predicate Matches(route: seq<Text>, pattern: seq<Text>)
    decreases |route| + |pattern|
  {
    if pattern == [] then route == []
    else if pattern[0] == DOUBLE then
      Matches(route, pattern[1..]) || (route != [] && Matches(route[1..], pattern))
    else
      route != [] && (pattern[0] == SINGLE || pattern[0] == route[0]) && Matches(route[1..], pattern[1..])
  }

  /** The route from segment i on is matched by the pattern from segment j on. */
  predicate MatchesFrom(route: seq<Text>, pattern: seq<Text>, i: nat, j: nat)
    requires i <= |route| && j <= |pattern|
  {
    Matches(route[i..], pattern[j..])
  }

  lemma Unfold(route: seq<Text>, pattern: seq<Text>, i: nat, j: nat)
    requires i <= |route| && j < |pattern|
    ensures MatchesFrom(route, pattern, i, j) ==
      if pattern[j] == DOUBLE then
        MatchesFrom(route, pattern, i, j + 1) || (i < |route| && MatchesFrom(route, pattern, i + 1, j))
      else
        i < |route| && (pattern[j] == SINGLE || pattern[j] == route[i]) && MatchesFrom(route, pattern, i + 1, j + 1)
  {
    assert pattern[j..][1..] == pattern[j + 1..];
    if i < |route| {
      assert route[i..][1..] == route[i + 1..];
    }
  }

  /** What the loop returns from the given local variables. */
  function GreedyFrom(route: seq<Text>, pattern: seq<Text>, i: nat, j: nat, lastDouble: int, lastMatch: nat): bool
    requires lastMatch <= i <= |route| && -1 <= lastDouble < j <= |pattern|
    decreases |pattern| - lastDouble, |route| - lastMatch, |route| - i
  {
    if i == |route| then
      TrailingDoubles(pattern, j) == |pattern|
    else if j < |pattern| && (pattern[j] == SINGLE || pattern[j] == route[i]) then
      GreedyFrom(route, pattern, i + 1, j + 1, lastDouble, lastMatch)
    else if j < |pattern| && pattern[j] == DOUBLE then
      GreedyFrom(route, pattern, i, j + 1, j, i)
    else if lastDouble < 0 then false
    else GreedyFrom(route, pattern, lastMatch + 1, lastDouble + 1, lastDouble, lastMatch + 1)
  }

  /** The first position from j on that holds no `**`. */
  function TrailingDoubles(pattern: seq<Text>, j: nat): (k: nat)
    requires j <= |pattern|
    ensures j <= k <= |pattern|
    decreases |pattern| - j
  {
    if j < |pattern| && pattern[j] == DOUBLE then TrailingDoubles(pattern, j + 1) else j
  }

  function Greedy(route: seq<Text>, pattern: seq<Text>): bool {
    GreedyFrom(route, pattern, 0, 0, -1, 0)
  }

  /** The matching loop: one backtrack point, the last `**` seen. */
  method MatchSegments(route: seq<Text>, pattern: seq<Text>) returns (matched: bool)
    ensures matched == Greedy(route, pattern)
    ensures DOUBLE !in route ==> matched == Matches(route, pattern)
  {
    var i, j := 0, 0;
    var lastDouble, lastMatch := -1, 0;
    while i < |route|
      invariant lastMatch <= i <= |route| && -1 <= lastDouble < j <= |pattern|
      invariant Greedy(route, pattern) == GreedyFrom(route, pattern, i, j, lastDouble, lastMatch)
      decreases |pattern| - lastDouble, |route| - lastMatch, |route| - i
    {
      if j < |pattern| && (pattern[j] == SINGLE || pattern[j] == route[i]) {
        i, j := i + 1, j + 1;
      } else if j < |pattern| && pattern[j] == DOUBLE {
        lastDouble, lastMatch := j, i;
        j := j + 1;
      } else if lastDouble < 0 {
        matched := false;
        GreedyIsRight(route, pattern);
        return;
      } else {
        lastMatch := lastMatch + 1;
        i, j := lastMatch, lastDouble + 1;
      }
    }
    while j < |pattern| && pattern[j] == DOUBLE
      invariant j <= |pattern|
      invariant Greedy(route, pattern) == (TrailingDoubles(pattern, j) == |pattern|)
    {
      j := j + 1;
    }
    matched := j == |pattern|;
    GreedyIsRight(route, pattern);
  }

  /** The segments of the pattern between a and b hold no `**`. */
  ghost predicate PlainBetween(pattern: seq<Text>, a: int, b: int) {
    forall k :: 0 <= a <= k < b && k < |pattern| ==> pattern[k] != DOUBLE
  }

  /** The pattern from `next` on would do somewhere later: the `**` before it may absorb more. */
  ghost predicate Later(route: seq<Text>, pattern: seq<Text>, next: nat, lastMatch: nat)
    requires next <= |pattern|
  {
    exists k: nat :: lastMatch < k <= |route| && MatchesFrom(route, pattern, k, next)
  }

  ghost function LaterMatch(route: seq<Text>, pattern: seq<Text>, next: nat, lastMatch: nat): (k: nat)
    requires next <= |pattern| && Later(route, pattern, next, lastMatch)
    ensures lastMatch < k <= |route| && MatchesFrom(route, pattern, k, next)
  {
    var k: nat :| lastMatch < k <= |route| && MatchesFrom(route, pattern, k, next);
    k
  }

  /** Pattern segments without `**` consume one route segment each. */
  lemma {:induction false} PlainConsumes(route: seq<Text>, pattern: seq<Text>, i: nat, a: nat, b: nat)
    requires i <= |route| && a <= b <= |pattern| && PlainBetween(pattern, a, b)
    requires MatchesFrom(route, pattern, i, a)
    ensures i + (b - a) <= |route| && MatchesFrom(route, pattern, i + (b - a), b)
    decreases b - a
  {
    if a < b {
      Unfold(route, pattern, i, a);
      PlainConsumes(route, pattern, i + 1, a + 1, b);
    }
  }

  /** A `**` absorbs any number of segments before the place it is known to match from. */
  lemma {:induction false} DoubleAbsorbs(route: seq<Text>, pattern: seq<Text>, i: nat, k: nat, j: nat)
    requires i <= k <= |route| && j < |pattern| && pattern[j] == DOUBLE
    requires MatchesFrom(route, pattern, k, j)
    ensures MatchesFrom(route, pattern, i, j)
    decreases k - i
  {
    if i < k {
      DoubleAbsorbs(route, pattern, i + 1, k, j);
      Unfold(route, pattern, i, j);
    }
  }

  /** A `**` matches from i exactly when what follows it matches from i or from somewhere later. */
  lemma {:induction false} DoubleMeans(route: seq<Text>, pattern: seq<Text>, i: nat, j: nat)
    requires i <= |route| && j < |pattern| && pattern[j] == DOUBLE
    ensures MatchesFrom(route, pattern, i, j) <==>
      MatchesFrom(route, pattern, i, j + 1) || Later(route, pattern, j + 1, i)
    decreases |route| - i
  {
    Unfold(route, pattern, i, j);
    if i < |route| {
      DoubleMeans(route, pattern, i + 1, j);
      if Later(route, pattern, j + 1, i) {
        var k := LaterMatch(route, pattern, j + 1, i);
        Unfold(route, pattern, k, j);
        DoubleAbsorbs(route, pattern, i, k, j);
      }
    }
  }

  lemma {:induction false} TrailingDoublesMeans(route: seq<Text>, pattern: seq<Text>, j: nat)
    requires j <= |pattern|
    ensures MatchesFrom(route, pattern, |route|, j) <==> TrailingDoubles(pattern, j) == |pattern|
    decreases |pattern| - j
  {
    if j < |pattern| {
      Unfold(route, pattern, |route|, j);
      TrailingDoublesMeans(route, pattern, j + 1);
    }
  }

  /**
   From any local variables the loop can be in, it decides whether the rest matches or some later
   placement of the last `**` does. Forgetting earlier backtrack points loses nothing.
   */
  lemma {:induction false} GreedyFromIsRight(route: seq<Text>, pattern: seq<Text>, i: nat, j: nat, lastDouble: int, lastMatch: nat)
    requires DOUBLE !in route
    requires lastMatch <= i <= |route| && -1 <= lastDouble < j <= |pattern|
    requires lastDouble >= 0 ==> i - lastMatch == j - lastDouble - 1 && PlainBetween(pattern, lastDouble + 1, j)
    ensures GreedyFrom(route, pattern, i, j, lastDouble, lastMatch) <==>
      MatchesFrom(route, pattern, i, j) || (lastDouble >= 0 && Later(route, pattern, lastDouble + 1, lastMatch))
    decreases |pattern| - lastDouble, |route| - lastMatch, |route| - i
  {
    if j < |pattern| {
      Unfold(route, pattern, i, j);
    }
    if i == |route| {
      TrailingDoublesMeans(route, pattern, j);
      if lastDouble >= 0 && Later(route, pattern, lastDouble + 1, lastMatch) {
        PlainConsumes(route, pattern, LaterMatch(route, pattern, lastDouble + 1, lastMatch), lastDouble + 1, j);
      }
    } else if j < |pattern| && (pattern[j] == SINGLE || pattern[j] == route[i]) {
      assert pattern[j] == route[i] ==> pattern[j] in route;
      GreedyFromIsRight(route, pattern, i + 1, j + 1, lastDouble, lastMatch);
    } else if j < |pattern| && pattern[j] == DOUBLE {
      GreedyFromIsRight(route, pattern, i, j + 1, j, i);
      DoubleMeans(route, pattern, i, j);
      if lastDouble >= 0 && Later(route, pattern, lastDouble + 1, lastMatch) {
        var k := LaterMatch(route, pattern, lastDouble + 1, lastMatch);
        PlainConsumes(route, pattern, k, lastDouble + 1, j);
        DoubleAbsorbs(route, pattern, i, k + (j - lastDouble - 1), j);
      }
    } else if lastDouble >= 0 {
      GreedyFromIsRight(route, pattern, lastMatch + 1, lastDouble + 1, lastDouble, lastMatch + 1);
    }
  }

  lemma GreedyIsRight(route: seq<Text>, pattern: seq<Text>)
    ensures DOUBLE !in route ==> Greedy(route, pattern) == Matches(route, pattern)
  {
    if DOUBLE !in route {
      GreedyFromIsRight(route, pattern, 0, 0, -1, 0);
      assert route[0..] == route && pattern[0..] == pattern;
    }
  }

  /** The loop agrees with the meaning of every pattern if and only if the route has no `**` segment. */
  lemma GreedyRightIffRouteHasNoDouble(route: seq<Text>)
    ensures (forall pattern :: Greedy(route, pattern) == Matches(route, pattern)) <==> DOUBLE !in route
  {
    if DOUBLE !in route {
      forall pattern ensures Greedy(route, pattern) == Matches(route, pattern) {
        GreedyIsRight(route, pattern);
      }
    } else {
      var k := FirstDouble(route);
      var pattern := route[..k] + [DOUBLE] + (if k + 1 == |route| then [SINGLE] else []);
      GreedyStepsThrough(route, pattern, k);
      LiteralPrefix(route, pattern, k);
      Unfold(route, pattern, k, k);
      if k + 1 == |route| {
        Unfold(route, pattern, k, k + 1);
        assert MatchesFrom(route, pattern, k + 1, k + 2);
        assert MatchesFrom(route, pattern, k, k + 1);
      } else {
        assert MatchesFrom(route, pattern, |route|, k + 1);
        Unfold(route, pattern, |route|, k);
        DoubleAbsorbs(route, pattern, k, |route|, k);
      }
      assert MatchesFrom(route, pattern, 0, 0);
      assert route[0..] == route && pattern[0..] == pattern;
      assert Greedy(route, pattern) != Matches(route, pattern);
    }
  }

  function FirstDouble(route: seq<Text>): (k: nat)
    requires DOUBLE in route
    ensures k < |route| && route[k] == DOUBLE && DOUBLE !in route[..k]
  {
    if route[0] == DOUBLE then 0
    else
      var k := FirstDouble(route[1..]) + 1;
      assert route[..k] == [route[0]] + route[1..][..k - 1];
      k
  }

  /** Taking the pattern's literal copy of the route, the loop walks past the `**` as if it were a literal. */
  lemma {:induction false} GreedyStepsThrough(route: seq<Text>, pattern: seq<Text>, k: nat)
    requires k < |route| && k < |pattern| && route[..k] == pattern[..k] && route[k] == pattern[k]
    ensures Greedy(route, pattern) == GreedyFrom(route, pattern, k + 1, k + 1, -1, 0)
  {
    if k > 0 {
      assert route[..k][..k - 1] == route[..k - 1];
      assert route[k - 1] == route[..k][k - 1] == pattern[k - 1];
      GreedyStepsThrough(route, pattern, k - 1);
    }
  }

  lemma {:induction false} LiteralPrefix(route: seq<Text>, pattern: seq<Text>, k: nat)
    requires k <= |route| && k <= |pattern| && route[..k] == pattern[..k] && DOUBLE !in route[..k]
    ensures MatchesFrom(route, pattern, k, k) ==> MatchesFrom(route, pattern, 0, 0)
  {
    if k > 0 && MatchesFrom(route, pattern, k, k) {
      assert route[k - 1] == route[..k][k - 1] == pattern[k - 1];
      Unfold(route, pattern, k - 1, k - 1);
      assert route[..k][..k - 1] == route[..k - 1];
      LiteralPrefix(route, pattern, k - 1);
    }
  }
}
