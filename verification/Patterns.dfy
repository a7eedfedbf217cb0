/** Validation of routes and registration patterns, and matching of whole route strings. */
module Patterns {
  import opened Routes

  const MAX_WIRE_BYTES: nat := 65_535

  // ---------- Size on the wire ----------

  /** The length of a string in UTF-8; a lone surrogate counts as the replacement character. */
  function Utf8Bytes(s: Text): (bytes: nat)
    ensures bytes >= |s|
  {
    if s == [] then 0
    else if s[0] < 0x80 then 1 + Utf8Bytes(s[1..])
    else if s[0] < 0x800 then 2 + Utf8Bytes(s[1..])
    else if PairAt(s, 0) then 4 + Utf8Bytes(s[2..])
    else 3 + Utf8Bytes(s[1..])
  }

  predicate PairAt(s: Text, i: nat) {
    i + 1 < |s| && 0xd800 <= s[i] <= 0xdbff && 0xdc00 <= s[i + 1] <= 0xdfff
  }

  /** The code points of a string of UTF-16 units: pairs joined, lone surrogates replaced. */
  function CodePoints(s: Text): seq<int> {
    if s == [] then []
    else if PairAt(s, 0) then [0x10000 + (s[0] as int - 0xd800) * 0x400 + (s[1] as int - 0xdc00)] + CodePoints(s[2..])
    else [if 0xd800 <= s[0] <= 0xdfff then 0xfffd else s[0] as int] + CodePoints(s[1..])
  }

  /** The bytes UTF-8 takes for code points: 7, 11, 16 or 21 bits. */
  function Widths(points: seq<int>): nat {
    if points == [] then 0
    else (if points[0] < 0x80 then 1 else if points[0] < 0x800 then 2 else if points[0] < 0x10000 then 3 else 4)
         + Widths(points[1..])
  }

  /** The size of a string of UTF-16 units is the size of its code points in UTF-8. */
  lemma {:induction false} Utf8BytesAreWidths(s: Text)
    ensures Utf8Bytes(s) == Widths(CodePoints(s))
  {
    if s != [] {
      if PairAt(s, 0) {
        Utf8BytesAreWidths(s[2..]);
        assert CodePoints(s)[1..] == CodePoints(s[2..]);
      } else {
        Utf8BytesAreWidths(s[1..]);
        assert CodePoints(s)[1..] == CodePoints(s[1..]);
      }
    }
  }

  method WireSizeIsValid(route: Text) returns (valid: bool)
    ensures valid <==> Utf8Bytes(route) <= MAX_WIRE_BYTES
  {
    if |route| > MAX_WIRE_BYTES {
      return false;
    }
    var bytes := |route|;
    var index := 0;
    while index < |route|
      invariant index <= |route|
      invariant Utf8Bytes(route) == bytes - (|route| - index) + Utf8Bytes(route[index..])
      invariant bytes <= MAX_WIRE_BYTES
    {
      var code := route[index];
      assert route[index..][1..] == route[index + 1..];
      if code >= 0x80 {
        if code < 0x800 {
          bytes := bytes + 1;
        } else if PairAt(route, index) {
          assert route[index..][2..] == route[index + 2..];
          bytes := bytes + 2;
          index := index + 1;
        } else {
          bytes := bytes + 2;
        }
        if bytes > MAX_WIRE_BYTES {
          return false;
        }
      }
      index := index + 1;
    }
    return true;
  }

  // ---------- Where the path begins ----------

  predicate MarkerAt(s: Text, i: nat) {
    i + 3 <= |s| && s[i..i + 3] == MARKER
  }

  /** The first position of the marker `://` at or after i, or -1. */
  function IndexOfMarker(s: Text, i: nat): (r: int)
    requires i <= |s|
    ensures r == -1 || (i <= r && MarkerAt(s, r))
    ensures forall k :: i <= k <= |s| && MarkerAt(s, k) ==> i <= r <= k
    decreases |s| - i
  {
    if MarkerAt(s, i) then i else if i == |s| then -1 else IndexOfMarker(s, i + 1)
  }

  function PathStart(route: Text, scheme: Text, allowBare: bool): (start: int)
    ensures -1 <= start <= |route|
  {
    if Utf8Bytes(route) > MAX_WIRE_BYTES then -1
    else if |route| > |scheme| + 3 && scheme <= route && MarkerAt(route, |scheme|) then |scheme| + 3
    else if allowBare && IndexOfMarker(route, 0) == -1 && |route| > 0 then 0
    else -1
  }

  method FindPathStart(route: Text, scheme: Text, allowBare: bool) returns (start: int)
    ensures start == PathStart(route, scheme, allowBare)
  {
    var valid := WireSizeIsValid(route);
    if !valid {
      return -1;
    }
    if |route| > |scheme| + 3 && scheme <= route && MarkerAt(route, |scheme|) {
      return |scheme| + 3;
    }
    return if allowBare && IndexOfMarker(route, 0) == -1 && |route| > 0 then 0 else -1;
  }

  /** Where the path begins: after the scheme and the marker if anything follows, or, where allowed, at once without a marker. */
  lemma PathStartIff(route: Text, scheme: Text, allowBare: bool, start: nat)
    requires |scheme| > 0
    ensures PathStart(route, scheme, allowBare) == start <==>
            && Utf8Bytes(route) <= MAX_WIRE_BYTES && start < |route|
            && (|| route[..start] == scheme + MARKER
                || (start == 0 && allowBare && forall k :: 0 <= k <= |route| ==> !MarkerAt(route, k)))
  {
    var prefix := scheme + MARKER;
    if |route| > |prefix| {
      assert route[..|prefix|] == route[..|scheme|] + route[|scheme|..|scheme| + 3];
      assert scheme <= route && MarkerAt(route, |scheme|) <==> route[..|prefix|] == prefix by {
        if route[..|prefix|] == prefix {
          assert route[..|scheme|] == route[..|prefix|][..|scheme|];
          assert route[|scheme|..|scheme| + 3] == route[..|prefix|][|scheme|..];
        }
      }
    }
  }

  // ---------- Shapes ----------

  /** Not empty, and asterisks only as a whole wildcard segment. */
  predicate SegmentOk(segment: Text) {
    segment != [] && (segment == SINGLE || segment == DOUBLE || ASTERISK !in segment)
  }

  predicate DoublePairAt(segments: seq<Text>, i: int) {
    0 < i < |segments| && segments[i - 1] == DOUBLE && segments[i] == DOUBLE
  }

  ghost predicate NoAdjacentDoubles(segments: seq<Text>) {
    forall i :: !DoublePairAt(segments, i)
  }

  ghost predicate WellShaped(segments: seq<Text>) {
    (forall i :: 0 <= i < |segments| ==> SegmentOk(segments[i])) && NoAdjacentDoubles(segments)
  }

  function Doubles(segments: seq<Text>): nat {
    multiset(segments)[DOUBLE]
  }

  /** The count test of the validator; a requirement of 0 stands for any length. */
  predicate CountOk(segments: seq<Text>, required: int) {
    required == 0 ||
    if Doubles(segments) == 0 then |segments| == required else |segments| - Doubles(segments) <= required
  }

  predicate ConcreteSegment(segment: Text) {
    segment != [] && ASTERISK !in segment
  }

  ghost predicate Concrete(segments: seq<Text>) {
    forall i :: 0 <= i < |segments| ==> ConcreteSegment(segments[i])
  }

  method ContainsAsterisk(route: Text, start: nat, end: nat) returns (found: bool)
    requires start <= end <= |route|
    ensures found <==> ASTERISK in route[start..end]
  {
    var index := start;
    while index < end
      invariant start <= index <= end && ASTERISK !in route[start..index]
    {
      if route[index] == ASTERISK {
        assert route[start..end][index - start] == ASTERISK;
        return true;
      }
      assert route[start..index + 1] == route[start..index] + [route[index]];
      index := index + 1;
    }
    return false;
  }

  /** After its first `count` segments have been scanned, the rest are those from `segmentStart` on. */
  ghost predicate Scanned(route: Text, segments: seq<Text>, count: nat, segmentStart: nat)
    requires segmentStart <= |route| + 1
  {
    if count == 0 then segments == if segmentStart <= |route| then Split(route[segmentStart..]) else []
    else segments != [] && Scanned(route, segments[1..], count - 1, segmentStart)
  }

  ghost predicate NoSlashBetween(route: Text, start: nat, end: nat) {
    forall k :: start <= k < end && k < |route| ==> route[k] != SLASH
  }

  lemma SplitStretch(route: Text, start: nat, end: nat)
    requires start <= end <= |route| && NoSlashBetween(route, start, end) && (end < |route| ==> route[end] == SLASH)
    ensures Split(route[start..]) ==
            [route[start..end]] + (if end < |route| then Split(route[end + 1..]) else [])
  {
    var s, k := route[start..], end - start;
    assert s[..k] == route[start..end];
    SplitFirst(s, k);
    if end < |route| {
      assert s[k + 1..] == route[end + 1..];
    }
  }

  /** At a slash or at the end, the stretch since `segmentStart` is the next segment. */
  lemma {:induction false} ScanSegment(route: Text, segments: seq<Text>, count: nat, segmentStart: nat, index: nat)
    requires segmentStart <= index <= |route| && Scanned(route, segments, count, segmentStart)
    requires NoSlashBetween(route, segmentStart, index) && (index < |route| ==> route[index] == SLASH)
    ensures count < |segments| && segments[count] == route[segmentStart..index]
    ensures Scanned(route, segments, count + 1, index + 1)
    decreases count
  {
    if count == 0 {
      SplitStretch(route, segmentStart, index);
      assert Scanned(route, segments[1..], 0, index + 1);
    } else {
      ScanSegment(route, segments[1..], count - 1, segmentStart, index);
    }
  }

  lemma {:induction false} ScanEnds(route: Text, segments: seq<Text>, count: nat)
    requires Scanned(route, segments, count, |route| + 1)
    ensures count == |segments|
  {
    if count > 0 {
      ScanEnds(route, segments[1..], count - 1);
    }
  }

  /** The first k segments pass the tests of the scan. */
  predicate ShapedUpTo(segments: seq<Text>, k: nat)
    requires k <= |segments|
  {
    k == 0 || (ShapedUpTo(segments, k - 1) && SegmentOk(segments[k - 1]) && !DoublePairAt(segments, k - 1))
  }

  function DoublesUpTo(segments: seq<Text>, k: nat): nat
    requires k <= |segments|
  {
    if k == 0 then 0 else DoublesUpTo(segments, k - 1) + (if segments[k - 1] == DOUBLE then 1 else 0)
  }

  lemma {:induction false} UpToMeans(segments: seq<Text>, k: nat)
    requires k <= |segments|
    ensures ShapedUpTo(segments, k) <==> forall i :: 0 <= i < k ==> SegmentOk(segments[i]) && !DoublePairAt(segments, i)
    ensures DoublesUpTo(segments, k) == Doubles(segments[..k])
  {
    if k > 0 {
      UpToMeans(segments, k - 1);
      assert segments[..k] == segments[..k - 1] + [segments[k - 1]];
    }
  }

  lemma ScannedMeans(segments: seq<Text>, k: nat)
    requires k <= |segments|
    ensures WellShaped(segments) ==> ShapedUpTo(segments, k)
    ensures ShapedUpTo(segments, |segments|) ==> WellShaped(segments)
    ensures DoublesUpTo(segments, |segments|) == Doubles(segments)
  {
    UpToMeans(segments, k);
    UpToMeans(segments, |segments|);
    assert segments[..|segments|] == segments;
  }

  /** The tests on one segment, made on the string in place. */
  method InspectSegment(route: Text, start: nat, end: nat, ghost segment: Text) returns (ok: bool, double: bool)
    requires start <= end <= |route| && segment == route[start..end]
    ensures ok == SegmentOk(segment) && double == (segment == DOUBLE)
  {
    var length := end - start;
    if length == 0 {
      return false, false;
    }
    var single := length == 1 && route[start] == ASTERISK;
    double := length == 2 && route[start] == ASTERISK && route[start + 1] == ASTERISK;
    if single || double {
      return true, double;
    }
    var found := ContainsAsterisk(route, start, end);
    ok := !found;
  }

  /** What the character scan accepts. */
  ghost predicate Accepted(route: Text, scheme: Text, requiredSegments: int) {
    && requiredSegments >= 0 && PathStart(route, scheme, false) >= 0
    && WellShaped(Split(route[PathStart(route, scheme, false)..]))
    && CountOk(Split(route[PathStart(route, scheme, false)..]), requiredSegments)
  }

  /** The character scan that accepts registration patterns. */
  method IsRegistrationPatternShape(route: Text, scheme: Text, requiredSegments: int) returns (accepted: bool)
    ensures accepted <==> Accepted(route, scheme, requiredSegments)
  {
    var start := FindPathStart(route, scheme, false);
    if start < 0 || requiredSegments < 0 {
      return false;
    }
    var shaped, segmentCount, doubleWildcardCount := ScanPattern(route, start);
    if !shaped {
      return false;
    }
    if requiredSegments == 0 {
      return true;
    }
    if doubleWildcardCount == 0 {
      return segmentCount == requiredSegments;
    }
    return segmentCount - doubleWildcardCount <= requiredSegments;
  }

  /** Its loop: one pass over the characters, leaving at the first segment that is not allowed. */
  method ScanPattern(route: Text, start: nat) returns (shaped: bool, segmentCount: nat, doubleWildcardCount: nat)
    requires start <= |route|
    ensures shaped == WellShaped(Split(route[start..]))
    ensures shaped ==> segmentCount == |Split(route[start..])| && doubleWildcardCount == Doubles(Split(route[start..]))
  {
    segmentCount, doubleWildcardCount := 0, 0;
    var segmentStart, previousWasDouble := start, false;
    ghost var segments := Split(route[start..]);
    var index := start;
    while index <= |route|
      invariant start <= segmentStart <= index <= |route| + 1
      invariant index == |route| + 1 ==> segmentStart == index
      invariant segmentStart <= |route| ==> NoSlashBetween(route, segmentStart, index)
      invariant segmentCount <= |segments| && Scanned(route, segments, segmentCount, segmentStart)
      invariant ShapedUpTo(segments, segmentCount) && doubleWildcardCount == DoublesUpTo(segments, segmentCount)
      invariant previousWasDouble == (segmentCount > 0 && segments[segmentCount - 1] == DOUBLE)
    {
      if index == |route| || route[index] == SLASH {
        ScanSegment(route, segments, segmentCount, segmentStart, index);
        var ok, double := InspectSegment(route, segmentStart, index, segments[segmentCount]);
        assert DoublePairAt(segments, segmentCount) == (double && previousWasDouble);
        segmentCount := segmentCount + 1;
        if !ok || (double && previousWasDouble) {
          ScannedMeans(segments, segmentCount);
          return false, segmentCount, doubleWildcardCount;
        }
        if double {
          doubleWildcardCount := doubleWildcardCount + 1;
        }
        previousWasDouble := double;
        segmentStart := index + 1;
      }
      index := index + 1;
    }
    ScanEnds(route, segments, segmentCount);
    ScannedMeans(segments, segmentCount);
    shaped := true;
  }

  /** The character scan that accepts concrete paths; 0 expected segments stands for any number. */
  method ScanConcrete(route: Text, start: nat, expectedSegments: nat) returns (ok: bool)
    requires start <= |route|
    ensures ok <==>
      && Concrete(Split(route[start..]))
      && (expectedSegments == 0 || |Split(route[start..])| == expectedSegments)
  {
    var count, segmentStart, index := 0, start, start;
    ghost var segments := Split(route[start..]);
    while index <= |route|
      invariant start <= segmentStart <= index <= |route| + 1
      invariant index == |route| + 1 ==> segmentStart == index
      invariant segmentStart <= |route| ==> NoSlashBetween(route, segmentStart, index)
      invariant count <= |segments| && Scanned(route, segments, count, segmentStart)
      invariant forall i :: 0 <= i < count ==> ConcreteSegment(segments[i])
    {
      if index == |route| || route[index] == SLASH {
        ScanSegment(route, segments, count, segmentStart, index);
        var found := ContainsAsterisk(route, segmentStart, index);
        if index == segmentStart || found {
          assert !ConcreteSegment(segments[count]);
          return false;
        }
        count := count + 1;
        segmentStart := index + 1;
      }
      index := index + 1;
    }
    ScanEnds(route, segments, count);
    return count > 0 && (expectedSegments == 0 || count == expectedSegments);
  }

  // ---------- What the validator means ----------

  const LETTER: Text := [97]

  /** A concrete path of n segments for a pattern whose count fits. */
  function Witness(segments: seq<Text>, n: nat): (path: seq<Text>)
    requires if Doubles(segments) == 0 then |segments| == n else |segments| - Doubles(segments) <= n
    decreases |segments| + n
  {
    if segments == [] then []
    else
      assert segments == [segments[0]] + segments[1..];
      if segments[0] != DOUBLE then
        [if segments[0] == SINGLE then LETTER else segments[0]] + Witness(segments[1..], n - 1)
      else if |segments| - Doubles(segments) < n then
        [LETTER] + Witness(segments, n - 1)
      else
        Witness(segments[1..], n)
  }

  lemma {:induction false} WitnessWorks(segments: seq<Text>, n: nat)
    requires if Doubles(segments) == 0 then |segments| == n else |segments| - Doubles(segments) <= n
    requires forall i :: 0 <= i < |segments| ==> SegmentOk(segments[i]) && SLASH !in segments[i]
    ensures var path := Witness(segments, n);
      |path| == n && Concrete(path) && Matches(path, segments) && forall i :: 0 <= i < n ==> SLASH !in path[i]
    decreases |segments| + n
  {
    if segments != [] {
      assert segments == [segments[0]] + segments[1..];
      var path := Witness(segments, n);
      if segments[0] != DOUBLE {
        WitnessWorks(segments[1..], n - 1);
        assert path[1..] == Witness(segments[1..], n - 1);
      } else if |segments| - Doubles(segments) < n {
        WitnessWorks(segments, n - 1);
        assert path[1..] == Witness(segments, n - 1);
      } else {
        WitnessWorks(segments[1..], n);
      }
    }
  }

  lemma {:induction false} MatchFixesCount(path: seq<Text>, segments: seq<Text>)
    requires Matches(path, segments)
    ensures if Doubles(segments) == 0 then |segments| == |path| else |segments| - Doubles(segments) <= |path|
    decreases |path| + |segments|
  {
    if segments != [] {
      assert segments == [segments[0]] + segments[1..];
      if segments[0] == DOUBLE {
        if Matches(path, segments[1..]) {
          MatchFixesCount(path, segments[1..]);
        } else {
          MatchFixesCount(path[1..], segments);
        }
      } else {
        MatchFixesCount(path[1..], segments[1..]);
      }
    }
  }

  /** The count test holds exactly when the pattern matches some concrete path of the required length. */
  lemma {:induction false} CountOkIffSomePath(segments: seq<Text>, n: nat)
    requires n > 0 && forall i :: 0 <= i < |segments| ==> SegmentOk(segments[i]) && SLASH !in segments[i]
    ensures CountOk(segments, n) <==>
      exists path: seq<Text> :: |path| == n && Concrete(path) && Matches(path, segments)
  {
    if CountOk(segments, n) {
      WitnessWorks(segments, n);
    } else {
      forall path: seq<Text> | |path| == n && Matches(path, segments) ensures false {
        MatchFixesCount(path, segments);
      }
    }
  }

  // ---------- Whole strings ----------

  /** What matching a route string against a pattern string returns. */
  function RouteMatches(route: Text, pattern: Text): bool {
    var r, p := IndexOfMarker(route, 0), IndexOfMarker(pattern, 0);
    if r < 1 || p < 1 || route[..r] != pattern[..p] then false
    else Greedy(Split(route[r + 3..]), Split(pattern[p + 3..]))
  }

  method RouteMatchesPattern(route: Text, pattern: Text) returns (matched: bool)
    ensures matched == RouteMatches(route, pattern)
  {
    var r, p := IndexOfMarker(route, 0), IndexOfMarker(pattern, 0);
    if r < 1 || p < 1 || route[..r] != pattern[..p] {
      return false;
    }
    matched := MatchSegments(Split(route[r + 3..]), Split(pattern[p + 3..]));
  }

  lemma {:induction false} SplitHasNoSlash(s: Text)
    ensures forall i :: 0 <= i < |Split(s)| ==> SLASH !in Split(s)[i]
  {
    if s != [] {
      SplitHasNoSlash(s[1..]);
    }
  }

  /** In a string that begins with a colon-free scheme and the marker, the marker is right after the scheme. */
  lemma MarkerAfterScheme(scheme: Text, rest: Text)
    requires 58 !in scheme
    ensures IndexOfMarker(scheme + MARKER + rest, 0) == |scheme|
  {
    var s := scheme + MARKER + rest;
    assert s[|scheme|..|scheme| + 3] == MARKER;
    assert MarkerAt(s, |scheme|);
    forall k | 0 <= k < |scheme| ensures !MarkerAt(s, k) {
      assert k + 3 <= |s| ==> s[k..k + 3][0] == scheme[k];
      assert scheme[k] in scheme;
    }
  }

  /** A concrete route of n segments under the scheme. */
  ghost predicate IsConcreteRoute(route: Text, scheme: Text, n: nat) {
    && scheme + MARKER <= route
    && Concrete(Split(route[|scheme| + 3..])) && |Split(route[|scheme| + 3..])| == n
  }

  /** The string begins with this scheme: the first marker is right behind it. */
  ghost predicate HasScheme(s: Text, scheme: Text) {
    scheme != [] && scheme + MARKER <= s && forall k :: 0 <= k < |scheme| ==> !MarkerAt(s, k)
  }

  lemma SchemeIs(s: Text, scheme: Text)
    ensures HasScheme(s, scheme) <==> IndexOfMarker(s, 0) == |scheme| > 0 && s[..|scheme|] == scheme
  {
    if scheme + MARKER <= s {
      assert s[..|scheme|] == (scheme + MARKER)[..|scheme|] == scheme;
      assert s[|scheme|..|scheme| + 3] == (scheme + MARKER)[|scheme|..] == MARKER;
      assert MarkerAt(s, |scheme|);
    }
    if IndexOfMarker(s, 0) == |scheme| && s[..|scheme|] == scheme {
      assert s[..|scheme| + 3] == s[..|scheme|] + s[|scheme|..|scheme| + 3];
    }
  }

  /** Any two strings match exactly when both have the same scheme and the code's glob holds of what follows. */
  lemma RouteMatchesIff(route: Text, pattern: Text)
    ensures RouteMatches(route, pattern) <==>
            exists scheme :: HasScheme(route, scheme) && HasScheme(pattern, scheme)
                             && Greedy(Split(route[|scheme| + 3..]), Split(pattern[|scheme| + 3..]))
  {
    var r := IndexOfMarker(route, 0);
    if r >= 1 {
      SchemeIs(route, route[..r]);
      SchemeIs(pattern, route[..r]);
    }
    forall scheme | HasScheme(route, scheme) ensures r == |scheme| && route[..r] == scheme {
      SchemeIs(route, scheme);
    }
  }

  /** A route matches a pattern of the same scheme exactly when the glob over their segments does. */
  lemma RouteMatchesMeans(route: Text, pattern: Text, scheme: Text)
    requires |scheme| > 0 && 58 !in scheme && scheme + MARKER <= route && scheme + MARKER <= pattern
    requires Concrete(Split(route[|scheme| + 3..]))
    ensures RouteMatches(route, pattern) <==> Matches(Split(route[|scheme| + 3..]), Split(pattern[|scheme| + 3..]))
  {
    var r, p := route[|scheme| + 3..], pattern[|scheme| + 3..];
    assert route == scheme + MARKER + r && pattern == scheme + MARKER + p;
    MarkerAfterScheme(scheme, r);
    MarkerAfterScheme(scheme, p);
    GreedyIsRight(Split(r), Split(p));
    assert !ConcreteSegment(DOUBLE) by {
      assert DOUBLE[0] == ASTERISK;
    }
  }

  /** Among well shaped patterns of the scheme, the count test keeps those that match some concrete route of n segments. */
  lemma CountIsExact(pattern: Text, scheme: Text, n: nat)
    requires n > 0 && |scheme| > 0 && 58 !in scheme && scheme + MARKER <= pattern
    requires WellShaped(Split(pattern[|scheme| + 3..]))
    ensures CountOk(Split(pattern[|scheme| + 3..]), n) <==>
            exists route :: IsConcreteRoute(route, scheme, n) && RouteMatches(route, pattern)
  {
    var segments := Split(pattern[|scheme| + 3..]);
    SplitHasNoSlash(pattern[|scheme| + 3..]);
    CountOkIffSomePath(segments, n);
    if CountOk(segments, n) {
      WitnessWorks(segments, n);
      var path := Witness(segments, n);
      var route := scheme + MARKER + Join(path);
      SplitJoin(path);
      assert route[|scheme| + 3..] == Join(path);
      RouteMatchesMeans(route, pattern, scheme);
      assert IsConcreteRoute(route, scheme, n) && RouteMatches(route, pattern);
    } else {
      forall route | IsConcreteRoute(route, scheme, n) ensures !RouteMatches(route, pattern) {
        RouteMatchesMeans(route, pattern, scheme);
      }
    }
  }

  /** A scheme, the marker and a path that is not empty. */
  predicate UnderScheme(pattern: Text, scheme: Text) {
    scheme + MARKER < pattern
  }

  lemma StartsUnderScheme(pattern: Text, scheme: Text)
    requires |scheme| > 0
    ensures PathStart(pattern, scheme, false) >= 0 <==> Utf8Bytes(pattern) <= MAX_WIRE_BYTES && UnderScheme(pattern, scheme)
    ensures PathStart(pattern, scheme, false) >= 0 ==> PathStart(pattern, scheme, false) == |scheme| + 3
  {
    PathStartIff(pattern, scheme, false, |scheme| + 3);
    if PathStart(pattern, scheme, false) >= 0 {
      PathStartIff(pattern, scheme, false, PathStart(pattern, scheme, false));
      assert |scheme + MARKER| == |scheme| + 3;
    }
    if UnderScheme(pattern, scheme) {
      assert pattern[..|scheme| + 3] == scheme + MARKER;
    }
  }

  /**
   The validator, on every string and every n > 0: it accepts exactly the patterns of the scheme that fit on the wire,
   whose segments are non-empty, whose wildcards are whole segments, that have no two adjacent `**`, and that match
   some concrete route of n segments.
   */
  lemma ValidatorIsExact(pattern: Text, scheme: Text, n: nat)
    requires n > 0 && |scheme| > 0 && 58 !in scheme
    ensures Accepted(pattern, scheme, n) <==>
            && Utf8Bytes(pattern) <= MAX_WIRE_BYTES && UnderScheme(pattern, scheme)
            && WellShaped(Split(pattern[|scheme| + 3..]))
            && exists route :: IsConcreteRoute(route, scheme, n) && RouteMatches(route, pattern)
  {
    StartsUnderScheme(pattern, scheme);
    if UnderScheme(pattern, scheme) && WellShaped(Split(pattern[|scheme| + 3..])) {
      CountIsExact(pattern, scheme, n);
    }
  }

  /** Without a number of segments the count test is not made, and a negative number accepts nothing. */
  lemma ValidatorWithoutCount(pattern: Text, scheme: Text, n: int)
    requires n <= 0 && |scheme| > 0
    ensures Accepted(pattern, scheme, n) <==>
            && n == 0 && Utf8Bytes(pattern) <= MAX_WIRE_BYTES && UnderScheme(pattern, scheme)
            && WellShaped(Split(pattern[|scheme| + 3..]))
  {
    StartsUnderScheme(pattern, scheme);
  }
}
