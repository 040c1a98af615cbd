/** The plan validator, and what a plan without blocking failures guarantees at match time. */
module RouteValidation {
  import opened Sequences
  import opened Text
  import opened RoutePaths
  import opened RouteTable

  // ----- reserved paths

  datatype Reserved = Reserved(exactPaths: set<string>, prefixPaths: set<string>)

  /** The path is in reserved space. */
  predicate Covers(reserved: Reserved, path: string) {
    path in reserved.exactPaths ||
    exists prefix :: prefix in reserved.prefixPaths && PathHasPrefix(path, prefix)
  }

  predicate Conflicts(reserved: Reserved, publicPath: string) {
    Covers(reserved, NormalizePublicPath(publicPath))
  }

  class ReservedRouteSet {
    var exactPaths: set<string>
    var prefixPaths: set<string>

    constructor ()
      ensures View() == Reserved({}, {})
    {
      exactPaths, prefixPaths := {}, {};
    }

    function View(): Reserved
      reads this
    {
      Reserved(exactPaths, prefixPaths)
    }

    /** Exactly the paths with the same normal form become reserved. */
    method InsertExact(path: string)
      modifies this
      ensures View() == old(View()).(exactPaths := old(exactPaths) + {NormalizePublicPath(path)})
      ensures forall p :: Conflicts(View(), p) <==>
                old(Conflicts(View(), p)) || NormalizePublicPath(p) == NormalizePublicPath(path)
    {
      exactPaths := exactPaths + {NormalizePublicPath(path)};
    }

    /** Exactly the paths under the normalized prefix become reserved. */
    method InsertPrefix(path: string)
      modifies this
      ensures View() == old(View()).(prefixPaths := old(prefixPaths) + {NormalizePublicPath(path)})
      ensures forall p :: Conflicts(View(), p) <==>
                old(Conflicts(View(), p)) || PathHasPrefix(NormalizePublicPath(p), NormalizePublicPath(path))
    {
      prefixPaths := prefixPaths + {NormalizePublicPath(path)};
    }
  }

  /** A reserved prefix conflicts exactly with the canonical paths whose segments it starts. */
  lemma ConflictsOnCanonicalPaths(reserved: Reserved, path: string)
    requires Canonical(path) && !IsWhitespace(path[|path| - 1])
    requires forall p :: p in reserved.prefixPaths ==> Canonical(p)
    ensures Conflicts(reserved, path) <==>
            path in reserved.exactPaths
            || exists p :: p in reserved.prefixPaths && RequestSegments(p) <= RequestSegments(path)
  {
    NormalizeCanonical(path);
    forall p | p in reserved.prefixPaths
      ensures PathHasPrefix(path, p) <==> RequestSegments(p) <= RequestSegments(path)
    {
      PrefixTestsAgree(path, p);
    }
  }

  // ----- the validator

  datatype Problem =
    | ReservedPath(routeId: string, publicPath: string)
    | DuplicatePath(routeId: string, publicPath: string, existing: string)
    | OverlappingPaths(leftId: string, leftPath: string, rightId: string, rightPath: string)

  /** The route that last claimed a path among the first `n`. */
  function LastClaim(routes: seq<Route>, n: nat, path: string): Option<string>
    requires n <= |routes|
  {
    if n == 0 then None
    else if routes[n - 1].publicPath == path then Some(routes[n - 1].routeId)
    else LastClaim(routes, n - 1, path)
  }

  function ConflictTest(reserved: Reserved): Route -> bool { (r: Route) => Conflicts(reserved, r.publicPath) }

  function OverlapTest(): (Route, Route) -> bool {
    (a: Route, b: Route) => PathsOverlap(a.publicPath, b.publicPath)
  }

  function ClaimProblems(routes: seq<Route>, n: nat, conflicts: Route -> bool): seq<Problem>
    requires n < |routes|
  {
    var r := routes[n];
    var claim := LastClaim(routes, n, r.publicPath);
    (if conflicts(r) then [ReservedPath(r.routeId, r.publicPath)] else [])
    + (if claim.Some? then [DuplicatePath(r.routeId, r.publicPath, claim.value)] else [])
  }

  function FirstPass(routes: seq<Route>, n: nat, conflicts: Route -> bool): seq<Problem>
    requires n <= |routes|
  {
    if n == 0 then [] else FirstPass(routes, n - 1, conflicts) + ClaimProblems(routes, n - 1, conflicts)
  }

  function PairProblem(left: Route, right: Route, overlaps: (Route, Route) -> bool): seq<Problem> {
    if overlaps(left, right)
    then [OverlappingPaths(left.routeId, left.publicPath, right.routeId, right.publicPath)]
    else []
  }

  /** The problems of route `i` with the routes after it and before `m`. */
  function Row(routes: seq<Route>, i: nat, m: nat, overlaps: (Route, Route) -> bool): seq<Problem>
    requires i < m <= |routes|
    decreases m
  {
    if m == i + 1 then []
    else Row(routes, i, m - 1, overlaps) + PairProblem(routes[i], routes[m - 1], overlaps)
  }

  function SecondPass(routes: seq<Route>, n: nat, overlaps: (Route, Route) -> bool): seq<Problem>
    requires n <= |routes|
  {
    if n == 0 then [] else SecondPass(routes, n - 1, overlaps) + Row(routes, n - 1, |routes|, overlaps)
  }

  function Problems(routes: seq<Route>, reserved: Reserved): seq<Problem> {
    FirstPass(routes, |routes|, ConflictTest(reserved)) + SecondPass(routes, |routes|, OverlapTest())
  }

  /** `seen` maps each path claimed by the first `n` routes to its last claimant. */
  ghost predicate Claims(routes: seq<Route>, n: nat, seen: map<string, string>)
    requires n <= |routes|
  {
    forall path :: LastClaim(routes, n, path) == if path in seen then Some(seen[path]) else None
  }

  lemma ClaimsStep(routes: seq<Route>, n: nat, seen: map<string, string>)
    requires n < |routes| && Claims(routes, n, seen)
    ensures Claims(routes, n + 1, seen[routes[n].publicPath := routes[n].routeId])
    ensures var path := routes[n].publicPath;
            LastClaim(routes, n, path) == if path in seen then Some(seen[path]) else None
  {
  }

  class StaticRoutePlan {
    var routes: seq<Route>
    var blockingFailures: seq<Problem>

    constructor (routes: seq<Route>, blockingFailures: seq<Problem>)
      ensures this.routes == routes && this.blockingFailures == blockingFailures
    {
      this.routes, this.blockingFailures := routes, blockingFailures;
    }

    /** Reserved and duplicate paths. */
    method CheckClaims(conflicts: Route -> bool)
      modifies this`blockingFailures
      ensures blockingFailures == old(blockingFailures) + FirstPass(routes, |routes|, conflicts)
    {
      ghost var before := blockingFailures;
      var seenPaths: map<string, string> := map[];
      for i := 0 to |routes|
        invariant blockingFailures == before + FirstPass(routes, i, conflicts)
        invariant Claims(routes, i, seenPaths)
      {
        var route := routes[i];
        ghost var soFar := blockingFailures;
        ClaimsStep(routes, i, seenPaths);
        if conflicts(route) {
          blockingFailures := blockingFailures + [ReservedPath(route.routeId, route.publicPath)];
        }
        if route.publicPath in seenPaths {
          blockingFailures := blockingFailures
            + [DuplicatePath(route.routeId, route.publicPath, seenPaths[route.publicPath])];
        }
        assert blockingFailures == soFar + ClaimProblems(routes, i, conflicts);
        ConcatAssociative(before, FirstPass(routes, i, conflicts), ClaimProblems(routes, i, conflicts));
        seenPaths := seenPaths[route.publicPath := route.routeId];
      }
    }

    /** Route `i` against the routes after it. */
    method CheckRow(i: nat, overlaps: (Route, Route) -> bool)
      requires i < |routes|
      modifies this`blockingFailures
      ensures blockingFailures == old(blockingFailures) + Row(routes, i, |routes|, overlaps)
    {
      ghost var before := blockingFailures;
      for j := i + 1 to |routes|
        invariant blockingFailures == before + Row(routes, i, j, overlaps)
      {
        var left, right := routes[i], routes[j];
        assert (before + Row(routes, i, j, overlaps)) + PairProblem(left, right, overlaps)
            == before + Row(routes, i, j + 1, overlaps);
        if overlaps(left, right) {
          blockingFailures := blockingFailures
            + [OverlappingPaths(left.routeId, left.publicPath, right.routeId, right.publicPath)];
        }
      }
    }

    /** Overlapping pairs. */
    method CheckOverlaps(overlaps: (Route, Route) -> bool)
      modifies this`blockingFailures
      ensures blockingFailures == old(blockingFailures) + SecondPass(routes, |routes|, overlaps)
    {
      ghost var before := blockingFailures;
      for i := 0 to |routes|
        invariant blockingFailures == before + SecondPass(routes, i, overlaps)
      {
        assert (before + SecondPass(routes, i, overlaps)) + Row(routes, i, |routes|, overlaps)
            == before + SecondPass(routes, i + 1, overlaps);
        CheckRow(i, overlaps);
      }
    }

    method ValidatePlan(reservedRoutes: ReservedRouteSet)
      modifies this`blockingFailures
      ensures blockingFailures == old(blockingFailures) + Problems(routes, reservedRoutes.View())
    {
      var conflicts, overlaps := ConflictTest(reservedRoutes.View()), OverlapTest();
      ghost var before := blockingFailures;
      CheckClaims(conflicts);
      CheckOverlaps(overlaps);
      ConcatAssociative(
        before, FirstPass(routes, |routes|, conflicts), SecondPass(routes, |routes|, overlaps));
    }
  }

  // ----- what a clean validation means

  ghost predicate NoOverlaps(routes: seq<Route>) {
    NoPair(routes, OverlapTest())
  }

  ghost predicate NoPair(routes: seq<Route>, overlaps: (Route, Route) -> bool) {
    forall i, j :: 0 <= i < j < |routes| ==> !overlaps(routes[i], routes[j])
  }

  lemma {:induction false} LastClaimNone(routes: seq<Route>, n: nat, path: string)
    requires n <= |routes|
    ensures LastClaim(routes, n, path).None? <==> forall j :: 0 <= j < n ==> routes[j].publicPath != path
  {
    if n > 0 {
      LastClaimNone(routes, n - 1, path);
    }
  }

  lemma {:induction false} FirstPassClean(routes: seq<Route>, n: nat, conflicts: Route -> bool)
    requires n <= |routes|
    ensures |FirstPass(routes, n, conflicts)| == 0 <==>
            (forall i :: 0 <= i < n ==> !conflicts(routes[i])) && DistinctPaths(routes[..n])
  {
    if n > 0 {
      FirstPassClean(routes, n - 1, conflicts);
      LastClaimNone(routes, n - 1, routes[n - 1].publicPath);
      assert |FirstPass(routes, n, conflicts)|
          == |FirstPass(routes, n - 1, conflicts)| + |ClaimProblems(routes, n - 1, conflicts)|;
      assert routes[..n] == routes[..n - 1] + [routes[n - 1]];
    }
  }

  /** Route `i` overlaps none of the routes after it and before `m`. */
  ghost predicate RowFree(routes: seq<Route>, i: nat, m: nat, overlaps: (Route, Route) -> bool)
    requires i < m <= |routes|
  {
    forall j :: i < j < m ==> !overlaps(routes[i], routes[j])
  }

  lemma {:induction false} RowClean(routes: seq<Route>, i: nat, m: nat, overlaps: (Route, Route) -> bool)
    requires i < m <= |routes|
    ensures |Row(routes, i, m, overlaps)| == 0 <==> RowFree(routes, i, m, overlaps)
    decreases m
  {
    if m > i + 1 {
      RowClean(routes, i, m - 1, overlaps);
      assert |Row(routes, i, m, overlaps)|
          == |Row(routes, i, m - 1, overlaps)| + |PairProblem(routes[i], routes[m - 1], overlaps)|;
    }
  }

  lemma {:induction false} SecondPassClean(routes: seq<Route>, n: nat, overlaps: (Route, Route) -> bool)
    requires n <= |routes|
    ensures |SecondPass(routes, n, overlaps)| == 0 <==>
            forall i :: 0 <= i < n ==> |Row(routes, i, |routes|, overlaps)| == 0
  {
    if n > 0 {
      SecondPassClean(routes, n - 1, overlaps);
      assert |SecondPass(routes, n, overlaps)|
          == |SecondPass(routes, n - 1, overlaps)| + |Row(routes, n - 1, |routes|, overlaps)|;
    }
  }

  lemma NoPairIff(routes: seq<Route>, overlaps: (Route, Route) -> bool)
    ensures |SecondPass(routes, |routes|, overlaps)| == 0 <==> NoPair(routes, overlaps)
  {
    SecondPassClean(routes, |routes|, overlaps);
    if |SecondPass(routes, |routes|, overlaps)| == 0 {
      forall i, j | 0 <= i < j < |routes| ensures !overlaps(routes[i], routes[j]) {
        RowClean(routes, i, |routes|, overlaps);
      }
    } else {
      var i :| 0 <= i < |routes| && |Row(routes, i, |routes|, overlaps)| > 0;
      RowClean(routes, i, |routes|, overlaps);
    }
  }

  /** The validator reports nothing exactly when no route is reserved and no two paths overlap. */
  lemma ValidationCleanIff(routes: seq<Route>, reserved: Reserved)
    ensures Problems(routes, reserved) == [] <==>
            (forall i :: 0 <= i < |routes| ==> !Conflicts(reserved, routes[i].publicPath)) && NoOverlaps(routes)
  {
    var first := FirstPass(routes, |routes|, ConflictTest(reserved));
    var second := SecondPass(routes, |routes|, OverlapTest());
    NoPairIff(routes, OverlapTest());
    FirstPassClean(routes, |routes|, ConflictTest(reserved));
    assert routes[..|routes|] == routes;
    if NoOverlaps(routes) {
      NoOverlapsDistinct(routes);
    }
    assert |Problems(routes, reserved)| == |first| + |second|;
  }

  lemma NoOverlapsDistinct(routes: seq<Route>)
    requires NoOverlaps(routes)
    ensures DistinctPaths(routes)
  {
    forall i, j | 0 <= i < j < |routes| ensures routes[i].publicPath != routes[j].publicPath {
      assert !OverlapTest()(routes[i], routes[j]);
    }
  }

  // ----- unambiguous plans

  /** Two routes can be matched by one request: they agree wherever both have a literal. */
  ghost predicate Unifiable(a: seq<RouteSegment>, b: seq<RouteSegment>) {
    forall i :: 0 <= i < |a| && i < |b| && a[i].Literal? && b[i].Literal? ==> a[i] == b[i]
  }

  ghost predicate MatchesPath(r: Route, path: string) {
    SegmentsMatch(r.segments, RequestSegments(path))
  }

  /** Routes as discovery builds them: the segments are parsed from the public path. */
  ghost predicate Parsed(r: Route) {
    ParseRouteSegments(r.publicPath) == RoutePaths.Segments(r.segments)
  }

  /** Every segment, placeholders standing for themselves, is one a request can carry. */
  ghost predicate Carriable(r: Route) { Words(RenderEach(r.segments), SLASH) }

  lemma ParsedIsCarriable(r: Route)
    requires Parsed(r)
    ensures Carriable(r)
  {
    ParsedAreWords(r.publicPath);
  }

  /** A request both routes match, when there is one. */
  function Witness(a: seq<RouteSegment>, b: seq<RouteSegment>): (r: seq<string>)
    ensures |r| == if |a| < |b| then |b| else |a|
  {
    seq(if |a| < |b| then |b| else |a|, i requires 0 <= i < (if |a| < |b| then |b| else |a|) =>
      if i < |a| && (i >= |b| || a[i].Literal?) then RenderSegment(a[i])
      else RenderSegment(b[i]))
  }

  /** Exactly the unifiable pairs of routes are matched by a common request. */
  lemma CommonRequestIff(a: Route, b: Route)
    requires Carriable(a) && Carriable(b)
    ensures (exists path :: MatchesPath(a, path) && MatchesPath(b, path)) <==> Unifiable(a.segments, b.segments)
  {
    if Unifiable(a.segments, b.segments) {
      var w := Witness(a.segments, b.segments);
      forall i | 0 <= i < |w| ensures IsWord(w[i], SLASH) {
        assert i < |a.segments| ==> IsWord(RenderEach(a.segments)[i], SLASH);
        assert i < |b.segments| ==> IsWord(RenderEach(b.segments)[i], SLASH);
      }
      RenderSegments(w);
      assert MatchesPath(a, Render(w)) && MatchesPath(b, Render(w));
    }
    if path :| MatchesPath(a, path) && MatchesPath(b, path) {
      var request := RequestSegments(path);
      forall i | 0 <= i < |a.segments| && i < |b.segments| && a.segments[i].Literal? && b.segments[i].Literal?
        ensures a.segments[i] == b.segments[i]
      {
        assert SegmentMatches(a.segments[i], request[i]) && SegmentMatches(b.segments[i], request[i]);
      }
    }
  }

  /** At most one route of the plan matches any request. */
  ghost predicate Unambiguous(routes: seq<Route>) {
    forall i, j, path :: 0 <= i < j < |routes| ==> !(MatchesPath(routes[i], path) && MatchesPath(routes[j], path))
  }

  ghost predicate NoneUnifiable(routes: seq<Route>) {
    forall i, j :: 0 <= i < j < |routes| ==> !Unifiable(routes[i].segments, routes[j].segments)
  }

  /** A plan is unambiguous exactly when no two of its routes are unifiable. */
  lemma UnambiguousIff(routes: seq<Route>)
    requires forall i :: 0 <= i < |routes| ==> Parsed(routes[i])
    ensures Unambiguous(routes) <==> NoneUnifiable(routes)
  {
    forall i, j | 0 <= i < j < |routes|
      ensures (exists path :: MatchesPath(routes[i], path) && MatchesPath(routes[j], path))
              <==> Unifiable(routes[i].segments, routes[j].segments)
    {
      ParsedIsCarriable(routes[i]);
      ParsedIsCarriable(routes[j]);
      CommonRequestIff(routes[i], routes[j]);
    }
  }

  ghost predicate LiteralOnly(r: Route) {
    forall i :: 0 <= i < |r.segments| ==> r.segments[i].Literal?
  }

  lemma LiteralsUnifiableIff(a: seq<RouteSegment>, b: seq<RouteSegment>)
    requires forall i :: 0 <= i < |a| ==> a[i].Literal?
    requires forall i :: 0 <= i < |b| ==> b[i].Literal?
    ensures Unifiable(a, b) <==> RenderEach(a) <= RenderEach(b) || RenderEach(b) <= RenderEach(a)
  {
    var x, y := RenderEach(a), RenderEach(b);
    if Unifiable(a, b) {
      assert forall i :: 0 <= i < |x| && i < |y| ==> x[i] == y[i];
    }
    if x <= y || y <= x {
      forall i | 0 <= i < |a| && i < |b| ensures a[i] == b[i] {
        assert x[i] == y[i] && x[i] == a[i].text && y[i] == b[i].text;
      }
    }
  }

  /** For literal routes on canonical paths the validator's textual overlap is unifiability. */
  lemma LiteralOverlapIff(a: Route, b: Route)
    requires Parsed(a) && Parsed(b) && Canonical(a.publicPath) && Canonical(b.publicPath)
    requires LiteralOnly(a) && LiteralOnly(b)
    ensures PathsOverlap(a.publicPath, b.publicPath) <==> Unifiable(a.segments, b.segments)
  {
    ParsedRenders(a.publicPath);
    ParsedRenders(b.publicPath);
    PrefixTestsAgree(a.publicPath, b.publicPath);
    PrefixTestsAgree(b.publicPath, a.publicPath);
    LiteralsUnifiableIff(a.segments, b.segments);
  }

  /** A plan of literal routes on canonical paths is unambiguous exactly when no two paths overlap;
      so when the validator reports nothing, at most one route matches any request. */
  lemma LiteralPlanUnambiguousIff(routes: seq<Route>)
    requires forall i :: 0 <= i < |routes| ==>
               Parsed(routes[i]) && Canonical(routes[i].publicPath) && LiteralOnly(routes[i])
    ensures Unambiguous(routes) <==> NoOverlaps(routes)
  {
    UnambiguousIff(routes);
    forall i, j | 0 <= i < j < |routes|
      ensures OverlapTest()(routes[i], routes[j]) <==> Unifiable(routes[i].segments, routes[j].segments)
    {
      LiteralOverlapIff(routes[i], routes[j]);
    }
  }

  /** For any plan the validator passes, the served route depends neither on ties nor on plan order. */
  lemma ValidatedTableIgnoresPlanOrder(a: seq<Route>, b: seq<Route>, reserved: Reserved)
    requires Problems(a, reserved) == [] && multiset(a) == multiset(b)
    ensures Table(a) == Table(b)
  {
    ValidationCleanIff(a, reserved);
    NoOverlapsDistinct(a);
    TableIgnoresPlanOrder(a, b);
  }

  // ----- where the textual check falls short

  function RouteAt(path: string, segments: seq<RouteSegment>): Route {
    Route(path, path, segments, None, None, None)
  }

  /** Two routes given by the segments of their paths, neither a prefix of the other, that match a
      common request. */
  lemma PairEscapes(a: Route, b: Route, partsA: seq<string>, partsB: seq<string>)
    requires a.publicPath == Render(partsA) && b.publicPath == Render(partsB)
    requires IsParseOf(partsA, a.segments) && IsParseOf(partsB, b.segments)
    requires !(partsA <= partsB) && !(partsB <= partsA)
    requires SegmentsMatch(a.segments, partsB) && SegmentsMatch(b.segments, partsB)
    ensures Parsed(a) && Parsed(b) && NoOverlaps([a, b]) && !Unambiguous([a, b])
  {
    ParseRendered(partsA, a.segments);
    ParseRendered(partsB, b.segments);
    RenderSegments(partsA);
    RenderSegments(partsB);
    PrefixTestsAgree(a.publicPath, b.publicPath);
    PrefixTestsAgree(b.publicPath, a.publicPath);
    assert !OverlapTest()(a, b);
    assert MatchesPath([a, b][0], b.publicPath) && MatchesPath([a, b][1], b.publicPath);
  }

  /** Placeholders: "/a/{tenant}" and "/a/b" pass the overlap check, yet one request matches both. */
  lemma PlaceholdersEscapeTheOverlapCheck(a: Route, b: Route)
    requires a == RouteAt("/a/{tenant}", [Literal("a"), Tenant]) && b == RouteAt("/a/b", [Literal("a"), Literal("b")])
    ensures Parsed(a) && Parsed(b)
    ensures NoOverlaps([a, b]) && !Unambiguous([a, b])
  {
    var partsA, partsB := ["a", "{tenant}"], ["a", "b"];
    assert partsA[1..] == ["{tenant}"] && partsB[1..] == ["b"];
    assert Words(partsA, SLASH) && Words(partsB, SLASH) && partsA[1] != partsB[1];
    PairEscapes(a, b, partsA, partsB);
  }

  lemma DoubleSlashIsDropped(a: string, b: string)
    ensures RequestSegments(a + "/" + ("/" + b)) == RequestSegments(a + "/" + b)
  {
    RequestSegmentsArePieces(a + "/" + ("/" + b));
    RequestSegmentsArePieces(a + "/" + b);
    PiecesAtSeparator(a, '/', "/" + b, SLASH);
    PiecesAtSeparator(a, '/', b, SLASH);
    PiecesAfterLeading('/', b, SLASH);
  }

  /** Empty segments: "/a//b" and "/a/b" pass the overlap check, yet have the same segments. */
  lemma EmptySegmentsEscapeTheOverlapCheck()
    ensures !PathsOverlap("/a//b", "/a/b")
    ensures ParseRouteSegments("/a//b") == ParseRouteSegments("/a/b")
  {
    var x, y := "/a//b", "/a/b";
    assert x[3] == '/' && y[3] == 'b';
    assert TrimEnd(x, SLASH) == x && TrimEnd(y, SLASH) == y;
    assert RequestSegments(x) == RequestSegments(y) by {
      assert x == "/a" + "/" + ("/" + "b") && y == "/a" + "/" + "b";
      DoubleSlashIsDropped("/a", "b");
    }
  }

  // ----- reserved space at match time

  /** A path as a route of literals only. */
  function Literals(parts: seq<string>): seq<RouteSegment> {
    seq(|parts|, i requires 0 <= i < |parts| => Literal(parts[i]))
  }

  /** A path under `prefix` whose segments are those of `prefix`, followed by `more`. */
  function Beneath(prefix: string, more: seq<string>): string {
    if more == [] then prefix else TrimEnd(prefix, SLASH) + "/" + Join(more, '/')
  }

  lemma BeneathMeaning(prefix: string, more: seq<string>)
    requires Words(more, SLASH)
    ensures PathHasPrefix(Beneath(prefix, more), prefix)
    ensures RequestSegments(Beneath(prefix, more)) == RequestSegments(prefix) + more
  {
    if more != [] {
      var path, front, back := Beneath(prefix, more), TrimEnd(prefix, SLASH), Join(more, '/');
      assert front <= path && path[|front|] == '/';
      RequestSegmentsArePieces(prefix);
      RequestSegmentsArePieces(path);
      PiecesAtSeparator(front, '/', back, SLASH);
      PiecesOfTrimEnd(prefix, SLASH);
      PiecesOfJoin(more, '/', SLASH);
    }
  }

  lemma BeneathCanonical(prefix: string, more: seq<string>)
    requires Words(more, SLASH) && Canonical(prefix)
    ensures Canonical(Beneath(prefix, more))
  {
    var path := Beneath(prefix, more);
    BeneathMeaning(prefix, more);
    CanonicalIff(prefix);
    assert RequestSegments(path) != [];
    if more != [] {
      assert TrimEnd(prefix, SLASH) == prefix;
      JoinConcat(RequestSegments(prefix), more, '/');
      RenderConcat(RequestSegments(prefix), more);
    }
  }

  lemma {:induction false} RenderConcat(front: seq<string>, more: seq<string>)
    requires front != [] && more != []
    ensures Render(front + more) == Render(front) + "/" + Join(more, '/')
  {
    JoinConcat(front, more, '/');
    var f, m := Join(front, '/'), Join(more, '/');
    assert "/" + (f + "/" + m) == ("/" + f) + "/" + m;
  }

  /** The route agrees with the path wherever both have a literal. */
  ghost predicate AgreesWith(r: Route, path: string) {
    Unifiable(r.segments, Literals(RequestSegments(path)))
  }

  /** A request under the prefix that the route serves. */
  ghost predicate IsServedUnder(r: Route, prefix: string, path: string) {
    PathHasPrefix(path, prefix) && MatchesPath(r, path)
  }

  lemma ServedUnderAgrees(r: Route, prefix: string, path: string)
    requires IsServedUnder(r, prefix, path)
    ensures AgreesWith(r, prefix)
  {
    TextPrefixIsSegmentPrefix(path, prefix);
    var request, reserved := RequestSegments(path), RequestSegments(prefix);
    forall i | 0 <= i < |r.segments| && i < |reserved| && r.segments[i].Literal?
      ensures r.segments[i] == Literals(reserved)[i]
    {
      assert SegmentMatches(r.segments[i], request[i]) && request[i] == reserved[i];
    }
  }

  /** What a route asks for beyond the first `n` segments. */
  function Beyond(r: Route, n: nat): seq<string> {
    if |r.segments| <= n then [] else RenderEach(r.segments)[n..]
  }

  lemma BeyondAreWords(r: Route, n: nat)
    requires Carriable(r)
    ensures Words(Beyond(r, n), SLASH)
  {
    var rendered := RenderEach(r.segments);
    forall i | 0 <= i < |Beyond(r, n)| ensures IsWord(Beyond(r, n)[i], SLASH) {
      assert IsWord(rendered[n + i], SLASH);
    }
  }

  lemma AgreeingMatches(r: Route, reserved: seq<string>)
    requires Unifiable(r.segments, Literals(reserved))
    ensures SegmentsMatch(r.segments, reserved + Beyond(r, |reserved|))
  {
    var request := reserved + Beyond(r, |reserved|);
    forall i | 0 <= i < |r.segments| ensures SegmentMatches(r.segments[i], request[i]) {
      if i < |reserved| {
        assert Literals(reserved)[i] == Literal(request[i]);
      } else {
        assert request[i] == RenderEach(r.segments)[i];
      }
    }
  }

  lemma AgreeingIsServedUnder(r: Route, prefix: string) returns (path: string)
    requires Carriable(r) && AgreesWith(r, prefix)
    ensures IsServedUnder(r, prefix, path)
    ensures Canonical(prefix) ==> Canonical(path)
  {
    var reserved := RequestSegments(prefix);
    var more := Beyond(r, |reserved|);
    path := Beneath(prefix, more);
    BeyondAreWords(r, |reserved|);
    AgreeingMatches(r, reserved);
    BeneathMeaning(prefix, more);
    if Canonical(prefix) {
      BeneathCanonical(prefix, more);
    }
  }

  /** Whatever the route (parsed ones are all carriable): it serves some request under a reserved prefix
      exactly when it agrees with the prefix wherever both have a literal, and the request can then be chosen
      canonical if the prefix is. */
  lemma RouteReachesReservedIff(r: Route, prefix: string)
    requires Carriable(r)
    ensures (exists path :: IsServedUnder(r, prefix, path)) <==> AgreesWith(r, prefix)
    ensures Canonical(prefix) && AgreesWith(r, prefix) ==>
              exists path :: Canonical(path) && IsServedUnder(r, prefix, path)
  {
    if AgreesWith(r, prefix) {
      var path := AgreeingIsServedUnder(r, prefix);
    }
    if path :| IsServedUnder(r, prefix, path) {
      ServedUnderAgrees(r, prefix, path);
    }
  }

  /** An exact reserved path is served exactly by the routes that agree with it and are no longer. */
  lemma RouteServesExactIff(r: Route, path: string)
    ensures MatchesPath(r, path) <==> |r.segments| <= |RequestSegments(path)| && AgreesWith(r, path)
  {
    var request := RequestSegments(path);
    if MatchesPath(r, path) {
      assert IsServedUnder(r, path, path);
      ServedUnderAgrees(r, path, path);
    } else if |r.segments| <= |request| {
      var i :| 0 <= i < |r.segments| && !SegmentMatches(r.segments[i], request[i]);
      assert Literals(request)[i] == Literal(request[i]);
    }
  }

  ghost predicate ReachesExact(r: Route, path: string) {
    |r.segments| <= |RequestSegments(path)| && AgreesWith(r, path)
  }

  /** The route agrees with some reserved path: what a reserved check on segments would look at. */
  ghost predicate Reaches(r: Route, reserved: Reserved) {
    (exists p :: p in reserved.exactPaths && ReachesExact(r, p)) ||
    (exists p :: p in reserved.prefixPaths && AgreesWith(r, p))
  }

  /** A request in reserved space that the route serves. */
  ghost predicate IsServedReserved(r: Route, reserved: Reserved, path: string) {
    Covers(reserved, path) && MatchesPath(r, path)
  }

  lemma RouteReachesIff(r: Route, reserved: Reserved)
    requires Carriable(r)
    ensures (exists path :: IsServedReserved(r, reserved, path)) <==> Reaches(r, reserved)
  {
    if path :| IsServedReserved(r, reserved, path) {
      if path in reserved.exactPaths {
        RouteServesExactIff(r, path);
      } else {
        var prefix :| prefix in reserved.prefixPaths && PathHasPrefix(path, prefix);
        ServedUnderAgrees(r, prefix, path);
      }
    }
    if p :| p in reserved.exactPaths && ReachesExact(r, p) {
      RouteServesExactIff(r, p);
      assert IsServedReserved(r, reserved, p);
    } else if p :| p in reserved.prefixPaths && AgreesWith(r, p) {
      var path := AgreeingIsServedUnder(r, p);
      assert IsServedReserved(r, reserved, path);
    }
  }

  /** No request in reserved space is ever answered from the plan's table, under any scope. */
  ghost predicate NeverServesReserved(routes: seq<Route>, reserved: Reserved) {
    forall path, scope :: Covers(reserved, path) ==> Match(Table(routes), path, InScope(scope)).None?
  }

  /** A plan never serves reserved space exactly when none of its routes agrees with a reserved path. */
  lemma NeverServesReservedIff(routes: seq<Route>, reserved: Reserved)
    requires forall i :: 0 <= i < |routes| ==> Parsed(routes[i])
    ensures NeverServesReserved(routes, reserved) <==> forall i :: 0 <= i < |routes| ==> !Reaches(routes[i], reserved)
  {
    if i :| 0 <= i < |routes| && Reaches(routes[i], reserved) {
      ParsedIsCarriable(routes[i]);
      RouteReachesIff(routes[i], reserved);
      var path :| IsServedReserved(routes[i], reserved, path);
      ServedIff(routes, path, routes[i].scope);
      assert Match(Table(routes), path, InScope(routes[i].scope)).Some?;
    }
    if path, scope :| Covers(reserved, path) && Match(Table(routes), path, InScope(scope)).Some? {
      ServedIff(routes, path, scope);
      var i :| 0 <= i < |routes| && routes[i].scope == scope && MatchesPath(routes[i], path);
      assert IsServedReserved(routes[i], reserved, path);
      ParsedIsCarriable(routes[i]);
      RouteReachesIff(routes[i], reserved);
    }
  }

  /** A request is answered under a scope exactly when a route of that scope matches it. */
  lemma ServedIff(routes: seq<Route>, path: string, scope: Option<RevisionScope>)
    ensures Match(Table(routes), path, InScope(scope)).Some? <==>
            exists i :: 0 <= i < |routes| && routes[i].scope == scope && MatchesPath(routes[i], path)
  {
    var serves := Serves(InScope(scope), RequestSegments(path));
    MatchServesTheBest(routes, path, InScope(scope));
    if i :| 0 <= i < |routes| && routes[i].scope == scope && MatchesPath(routes[i], path) {
      assert routes[i] in routes && serves(routes[i]);
    }
    if r :| r in routes && serves(r) {
      var i :| 0 <= i < |routes| && routes[i] == r;
      assert MatchesPath(routes[i], path);
    }
  }

  /** For a literal route on a canonical path that passes the check, agreeing with a canonical reserved
      prefix means being a proper prefix of it: the check looks one way only. */
  lemma LiteralReachesReservedIff(r: Route, prefix: string)
    requires Parsed(r) && LiteralOnly(r) && Canonical(r.publicPath) && Canonical(prefix)
    requires !PathHasPrefix(r.publicPath, prefix)
    ensures AgreesWith(r, prefix) <==> RequestSegments(r.publicPath) < RequestSegments(prefix)
  {
    ParsedRenders(r.publicPath);
    PrefixTestsAgree(r.publicPath, prefix);
    var own, reserved := RequestSegments(r.publicPath), RequestSegments(prefix);
    assert forall i :: 0 <= i < |own| ==> own[i] == r.segments[i].text;
    if Unifiable(r.segments, Literals(reserved)) {
      assert forall i :: 0 <= i < |own| && i < |reserved| ==> r.segments[i] == Literals(reserved)[i];
    }
  }

  /** Placeholders escape the reserved check: "/{tenant}" validates against the reserved prefix
      "/runtime", and serves the request "/runtime". */
  lemma PlaceholdersEscapeTheReservedCheck(r: Route, reserved: Reserved)
    requires r == RouteAt("/{tenant}", [Tenant]) && reserved == Reserved({}, {"/runtime"})
    ensures Parsed(r)
    ensures Problems([r], reserved) == [] && !NeverServesReserved([r], reserved)
  {
    TenantPathIsParsed();
    TenantPathIsFree(r.publicPath, reserved);
    ValidationCleanIff([r], reserved);
    RuntimeIsOneSegment();
    var path := "/runtime";
    assert PathHasPrefix(path, path) && Covers(reserved, path);
    assert MatchesPath([r][0], path);
    ServedIff([r], path, None);
    assert Match(Table([r]), path, InScope(None)).Some?;
  }

  lemma TenantPathIsParsed()
    ensures ParseRouteSegments("/{tenant}") == RoutePaths.Segments([Tenant])
  {
    assert Words(["{tenant}"], SLASH);
    assert Render(["{tenant}"]) == "/{tenant}";
    ParseRendered(["{tenant}"], [Tenant]);
  }

  lemma TenantPathIsFree(path: string, reserved: Reserved)
    requires path == "/{tenant}" && reserved == Reserved({}, {"/runtime"})
    ensures !Conflicts(reserved, path)
  {
    var prefix := "/runtime";
    assert TrimStart(path, WHITESPACE) == path;
    assert NormalizePublicPath(path) == path;
    assert TrimEnd(prefix, SLASH) == prefix;
    assert path[1] == '{' && prefix[1] == 'r';
  }

  lemma RuntimeIsOneSegment()
    ensures RequestSegments("/runtime") == ["runtime"]
  {
    assert Words(["runtime"], SLASH);
    RenderSegments(["runtime"]);
    assert Render(["runtime"]) == "/runtime";
  }

  // ----- plans that mix scopes

  /** At most one route of each scope matches any request. */
  ghost predicate UnambiguousInScope(routes: seq<Route>) {
    forall i, j, path :: 0 <= i < j < |routes| && routes[i].scope == routes[j].scope ==>
      !(MatchesPath(routes[i], path) && MatchesPath(routes[j], path))
  }

  /** The validator ignores scopes.  A plan without reserved routes is rejected although every scope is
      unambiguous exactly when some pair overlaps, and no unifiable pair shares a scope. */
  lemma FalselyRejectedIff(routes: seq<Route>, reserved: Reserved)
    requires forall i :: 0 <= i < |routes| ==> Parsed(routes[i]) && !Conflicts(reserved, routes[i].publicPath)
    ensures Problems(routes, reserved) != [] && UnambiguousInScope(routes) <==>
            !NoOverlaps(routes)
            && forall i, j :: 0 <= i < j < |routes| && Unifiable(routes[i].segments, routes[j].segments) ==>
                 routes[i].scope != routes[j].scope
  {
    ValidationCleanIff(routes, reserved);
    forall i, j | 0 <= i < j < |routes|
      ensures (exists path :: MatchesPath(routes[i], path) && MatchesPath(routes[j], path))
              <==> Unifiable(routes[i].segments, routes[j].segments)
    {
      ParsedIsCarriable(routes[i]);
      ParsedIsCarriable(routes[j]);
      CommonRequestIff(routes[i], routes[j]);
    }
  }

  /** One path under two revisions is rejected, although each revision is served without ambiguity. */
  lemma RevisionsShareNoPath(a: Route, b: Route)
    requires a == RouteAt("/a", [Literal("a")]).(scope := Some(RevisionScope("d", "b", "1")))
    requires b == a.(scope := Some(RevisionScope("d", "b", "2")))
    ensures Parsed(a) && Parsed(b)
    ensures Problems([a, b], Reserved({}, {})) != [] && UnambiguousInScope([a, b])
  {
    assert Words(["a"], SLASH);
    assert Render(["a"]) == "/a";
    ParseRendered(["a"], [Literal("a")]);
    assert PathsOverlap(a.publicPath, b.publicPath);
    assert OverlapTest()([a, b][0], [a, b][1]);
    ValidationCleanIff([a, b], Reserved({}, {}));
  }
}
