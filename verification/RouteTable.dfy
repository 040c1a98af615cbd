/** The active route table: sorting a plan, matching a request, and keeping revisions apart. */
module RouteTable {
  import opened Sequences
  import opened StableSort
  import opened Text
  import opened RoutePaths

  datatype RevisionScope = RevisionScope(deploymentId: string, bundleId: string, revisionId: string)

  /** A static route; `scope` is None for a legacy single-bundle route. */
  datatype Route = Route(
    routeId: string, publicPath: string, segments: seq<RouteSegment>,
    indexFile: Option<string>, spaFallback: Option<string>, scope: Option<RevisionScope>)

  datatype RouteMatch = RouteMatch(route: Route, assetPath: string, requestIsDirectory: bool)

  // ----- order and matching

  /** More segments first, then the smaller public path. */
  function RouteOrder(): (Route, Route) -> bool {
    (a: Route, b: Route) =>
      |b.segments| < |a.segments| ||
      (|b.segments| == |a.segments| && StrLe(a.publicPath, b.publicPath))
  }

  lemma RouteOrderIsTotal()
    ensures TotalPreorder(RouteOrder())
  {
    forall x: Route, y: Route ensures RouteOrder()(x, y) || RouteOrder()(y, x) {
      StrLeTotal(x.publicPath, y.publicPath);
    }
    forall x: Route, y: Route, z: Route | RouteOrder()(x, y) && RouteOrder()(y, z) ensures RouteOrder()(x, z) {
      if |x.segments| == |y.segments| == |z.segments| {
        StrLeTransitive(x.publicPath, y.publicPath, z.publicPath);
      }
    }
  }

  predicate SegmentMatches(expected: RouteSegment, actual: string) {
    expected.Literal? ==> expected.text == actual
  }

  predicate SegmentsMatch(expected: seq<RouteSegment>, request: seq<string>) {
    |expected| <= |request| && forall i :: 0 <= i < |expected| ==> SegmentMatches(expected[i], request[i])
  }

  /** The accepted routes that match a request. */
  function Serves(accept: Route -> bool, request: seq<string>): Route -> bool {
    (r: Route) => accept(r) && SegmentsMatch(r.segments, request)
  }

  function InScope(scope: Option<RevisionScope>): Route -> bool { (r: Route) => r.scope == scope }

  function MatchOf(r: Route, path: string): RouteMatch
    requires |r.segments| <= |RequestSegments(path)|
  {
    RouteMatch(r, Join(RequestSegments(path)[|r.segments|..], '/'), EndsWithChar(path, '/'))
  }

  function Match(table: seq<Route>, path: string, accept: Route -> bool): Option<RouteMatch> {
    var first := First(table, Serves(accept, RequestSegments(path)));
    if first.None? then None else Some(MatchOf(first.value, path))
  }

  function Table(plan: seq<Route>): seq<Route> { Sort(plan, RouteOrder()) }

  // ----- the implementation

  class ActiveRouteTable {
    var routes: seq<Route>

    /** The plan's routes in table order, routes that tie staying in plan order. */
    constructor FromPlan(plan: seq<Route>)
      ensures routes == Table(plan)
      ensures Sorted(routes, RouteOrder()) && multiset(routes) == multiset(plan)
      ensures forall r :: Filter(routes, TiesWith(RouteOrder(), r)) == Filter(plan, TiesWith(RouteOrder(), r))
    {
      routes := Sort(plan, RouteOrder());
      RouteOrderIsTotal();
      SortSorts(plan, RouteOrder());
      SortKeepsElements(plan, RouteOrder());
      forall r ensures Filter(Table(plan), TiesWith(RouteOrder(), r)) == Filter(plan, TiesWith(RouteOrder(), r)) {
        SortIsStable(plan, RouteOrder(), r);
      }
    }

    method MatchFirst(path: string, accept: Route -> bool) returns (found: Option<RouteMatch>)
      ensures found == Match(routes, path, accept)
    {
      var normalized := RequestSegments(path);
      var requestIsDirectory := EndsWithChar(path, '/');
      ghost var serves := Serves(accept, normalized);
      for i := 0 to |routes|
        invariant First(routes[i..], serves) == First(routes, serves)
      {
        var descriptor := routes[i];
        assert routes[i..][1..] == routes[i + 1..];
        if !accept(descriptor) {
          continue;
        }
        if |normalized| < |descriptor.segments| {
          continue;
        }
        var matched := true;
        var k := 0;
        while k < |descriptor.segments|
          invariant k <= |descriptor.segments|
          invariant matched ==> forall j :: 0 <= j < k ==> SegmentMatches(descriptor.segments[j], normalized[j])
          invariant !matched ==> !SegmentsMatch(descriptor.segments, normalized)
        {
          var segment := descriptor.segments[k];
          if segment.Literal? && segment.text != normalized[k] {
            assert !SegmentMatches(segment, normalized[k]);
            matched := false;
            break;
          }
          k := k + 1;
        }
        if !matched {
          continue;
        }
        var assetPath := Join(normalized[|descriptor.segments|..], '/');
        return Some(RouteMatch(descriptor, assetPath, requestIsDirectory));
      }
      return None;
    }

    method MatchRequest(path: string) returns (found: Option<RouteMatch>)
      ensures found == Match(routes, path, InScope(None))
    {
      found := MatchFirst(path, InScope(None));
    }

    method MatchRequestForRevision(path: string, scope: RevisionScope) returns (found: Option<RouteMatch>)
      ensures found == Match(routes, path, InScope(Some(scope)))
    {
      found := MatchFirst(path, InScope(Some(scope)));
    }
  }

  // ----- which route is served

  /** `plan[k]` is the route to serve: among the accepted routes that match it has the most segments,
      then the least public path, then the earliest place in the plan. */
  ghost predicate IsBest(plan: seq<Route>, accept: Route -> bool, request: seq<string>, k: nat) {
    IsFirstLeast(plan, RouteOrder(), Serves(accept, request), k)
  }

  /** Matching on a table built from a plan serves the best route, or nothing when nothing matches. */
  lemma MatchServesTheBest(plan: seq<Route>, path: string, accept: Route -> bool)
    ensures var found := Match(Table(plan), path, accept);
            && (found.None? <==> forall r :: r in plan ==> !Serves(accept, RequestSegments(path))(r))
            && (found.Some? ==> exists k: nat :: IsBest(plan, accept, RequestSegments(path), k)
                                            && found.value.route == plan[k])
  {
    RouteOrderIsTotal();
    var serves := Serves(accept, RequestSegments(path));
    SortKeepsElements(plan, RouteOrder());
    if First(plan, serves).Some? {
      var k := FirstOfSort(plan, RouteOrder(), serves);
      assert IsBest(plan, accept, RequestSegments(path), k);
    }
  }

  /** There is only one best route. */
  lemma BestIsUnique(plan: seq<Route>, accept: Route -> bool, request: seq<string>, j: nat, k: nat)
    requires IsBest(plan, accept, request, j) && IsBest(plan, accept, request, k)
    ensures j == k
  {
  }

  /** The matched segments followed by the segments of the asset path give the request's segments. */
  lemma AssetPathCompletesRequest(table: seq<Route>, path: string, accept: Route -> bool)
    requires Match(table, path, accept).Some?
    ensures var m := Match(table, path, accept).value;
            var request := RequestSegments(path);
            && |m.route.segments| <= |request|
            && SegmentsMatch(m.route.segments, request[..|m.route.segments|])
            && request[..|m.route.segments|] + RequestSegments(m.assetPath) == request
            && (m.assetPath == "" <==> |request| == |m.route.segments|)
  {
    var m := Match(table, path, accept).value;
    var request := RequestSegments(path);
    var rest := request[|m.route.segments|..];
    RequestSegmentsArePieces(path);
    PiecesAreWords(path, SLASH);
    PiecesOfJoin(rest, '/', SLASH);
    JoinEnds(rest, '/', SLASH);
    RequestSegmentsArePieces(m.assetPath);
  }

  // ----- revisions do not interfere

  /** Plans that agree on the accepted routes answer every request alike, whatever else they hold. */
  lemma {:induction false} OnlyAcceptedRoutesMatter(a: seq<Route>, b: seq<Route>, path: string, accept: Route -> bool)
    requires Filter(a, accept) == Filter(b, accept)
    ensures Match(Table(a), path, accept) == Match(Table(b), path, accept)
  {
    AcceptedTable(a, path, accept);
    AcceptedTable(b, path, accept);
  }

  lemma {:induction false} AcceptedTable(plan: seq<Route>, path: string, accept: Route -> bool)
    ensures First(Table(plan), Serves(accept, RequestSegments(path)))
         == First(Table(Filter(plan, accept)), Serves(accept, RequestSegments(path)))
  {
    var serves := Serves(accept, RequestSegments(path));
    RouteOrderIsTotal();
    SortCommutesWithFilter(plan, RouteOrder(), accept);
    FilterTwice(Table(plan), accept, serves, serves);
    FirstIsHeadOfFilter(Table(plan), serves);
    FirstIsHeadOfFilter(Filter(Table(plan), accept), serves);
  }

  /** Matching for one scope (a revision, or None for legacy) on the full table is matching on a table
      built from only that scope's routes. */
  lemma {:induction false} RevisionsDoNotInterfere(plan: seq<Route>, path: string, scope: Option<RevisionScope>)
    ensures Match(Table(plan), path, InScope(scope))
         == Match(Table(Filter(plan, InScope(scope))), path, InScope(scope))
    ensures var found := Match(Table(plan), path, InScope(scope));
            found.Some? ==> found.value.route in plan && found.value.route.scope == scope
  {
    FilterTwice(plan, InScope(scope), InScope(scope), InScope(scope));
    OnlyAcceptedRoutesMatter(plan, Filter(plan, InScope(scope)), path, InScope(scope));
    SortKeepsElements(plan, RouteOrder());
  }

  // ----- plan order

  ghost predicate DistinctPaths(plan: seq<Route>) {
    forall i, j :: 0 <= i < j < |plan| ==> plan[i].publicPath != plan[j].publicPath
  }

  /** With distinct public paths the table, and so every match, does not depend on the plan's order. */
  lemma TableIgnoresPlanOrder(a: seq<Route>, b: seq<Route>)
    requires DistinctPaths(a) && multiset(a) == multiset(b)
    ensures Table(a) == Table(b)
  {
    RouteOrderIsTotal();
    forall x, y | x in a && y in a && RouteOrder()(x, y) && RouteOrder()(y, x) ensures x == y {
      StrLeAntisymmetric(x.publicPath, y.publicPath);
      var i :| 0 <= i < |a| && a[i] == x;
      var j :| 0 <= j < |a| && a[j] == y;
    }
    SortIgnoresInputOrder(a, b, RouteOrder());
  }
}
