/** Public paths of static routes: as strings, as request segments, and as route segments. */
module RoutePaths {
  import opened Sequences
  import opened Text

  // ----- request segments

  /** A request path without leading slashes, split at slashes, empty segments dropped. */
  function RequestSegments(path: string): seq<string> {
    Filter(Split(TrimStart(path, SLASH), '/'), NonEmpty())
  }

  lemma RequestSegmentsArePieces(path: string)
    ensures RequestSegments(path) == Pieces(path, SLASH)
  {
    PiecesAreNonEmptyParts(TrimStart(path, SLASH), '/');
    PiecesOfTrimStart(path, SLASH);
  }

  /** The path with exactly the given segments. */
  function Render(segments: seq<string>): string { "/" + Join(segments, '/') }

  /** A path that is the rendering of its own segments, and has at least one. */
  ghost predicate Canonical(path: string) {
    RequestSegments(path) != [] && path == Render(RequestSegments(path))
  }

  lemma RenderSegments(segments: seq<string>)
    requires Words(segments, SLASH)
    ensures RequestSegments(Render(segments)) == segments
  {
    RequestSegmentsArePieces(Render(segments));
    PiecesAfterLeading('/', Join(segments, '/'), SLASH);
    PiecesOfJoin(segments, '/', SLASH);
  }

  /** Canonical paths are those with a leading slash, no trailing slash and no empty segment. */
  lemma CanonicalIff(path: string)
    ensures Canonical(path) <==> |path| > 1 && path[0] == '/' && path[|path| - 1] != '/' && Tight(path, '/')
  {
    RequestSegmentsArePieces(path);
    var parts := Pieces(path, SLASH);
    PiecesAreWords(path, SLASH);
    JoinEnds(parts, '/', SLASH);
    if |path| > 1 && path[0] == '/' && path[|path| - 1] != '/' && Tight(path, '/') {
      assert path == [path[0]] + path[1..];
      PiecesAfterLeading('/', path[1..], SLASH);
      TightIsJoin(path[1..], '/');
    }
    if Canonical(path) {
      assert path[1..] == Join(parts, '/');
      JoinIsTight(parts);
    }
  }

  lemma {:induction false} JoinIsTight(parts: seq<string>)
    requires Words(parts, SLASH)
    ensures Tight(Join(parts, '/'), '/')
  {
    if |parts| == 1 {
      var w := parts[0];
      assert IsWord(w, SLASH);
      forall i | 0 < i < |w| ensures w[i] != '/' {
        assert w[i] in w;
      }
    } else if |parts| > 1 {
      var w, rest := parts[0], Join(parts[1..], '/');
      assert IsWord(w, SLASH);
      JoinIsTight(parts[1..]);
      JoinEnds(parts[1..], '/', SLASH);
      var j := w + "/" + rest;
      forall i | 0 < i < |j| ensures j[i - 1] != '/' || j[i] != '/' {
        if i <= |w| {
          assert j[i - 1] == w[i - 1] && w[i - 1] in w;
        } else if i > |w| + 1 {
          assert j[i - 1] == rest[i - |w| - 2] && j[i] == rest[i - |w| - 1];
        }
      }
    }
  }

  // ----- the textual prefix test

  predicate PathHasPrefix(path: string, prefix: string) {
    path == prefix ||
    var p := TrimEnd(prefix, SLASH);
    p <= path && |p| < |path| && path[|p|] == '/'
  }

  predicate PathsOverlap(left: string, right: string) {
    PathHasPrefix(left, right) || PathHasPrefix(right, left)
  }

  /** On all paths a textual prefix is a segment prefix. */
  lemma TextPrefixIsSegmentPrefix(path: string, prefix: string)
    requires PathHasPrefix(path, prefix)
    ensures RequestSegments(prefix) <= RequestSegments(path)
  {
    RequestSegmentsArePieces(path);
    RequestSegmentsArePieces(prefix);
    if path != prefix {
      var p := TrimEnd(prefix, SLASH);
      assert path == p + "/" + path[|p| + 1..];
      PiecesAtSeparator(p, '/', path[|p| + 1..], SLASH);
      PiecesOfTrimEnd(prefix, SLASH);
    }
  }

  /** On canonical paths the textual prefix test is the segment prefix test. */
  lemma PrefixTestsAgree(path: string, prefix: string)
    requires Canonical(path) && Canonical(prefix)
    ensures PathHasPrefix(path, prefix) <==> RequestSegments(prefix) <= RequestSegments(path)
  {
    if PathHasPrefix(path, prefix) {
      TextPrefixIsSegmentPrefix(path, prefix);
    }
    var a, b := RequestSegments(path), RequestSegments(prefix);
    if b <= a && a != b {
      var rest := a[|b|..];
      assert a == b + rest;
      JoinConcat(b, rest, '/');
      assert path == prefix + "/" + Join(rest, '/');
      CanonicalIff(prefix);
      assert TrimEnd(prefix, SLASH) == prefix;
    }
  }

  // ----- normalization

  function WithSlash(s: string): string { if s != [] && s[0] == '/' then s else "/" + s }

  function NormalizePublicPath(path: string): string {
    var normalized := WithSlash(Trim(path, WHITESPACE));
    if |normalized| > 1 then TrimEnd(normalized, SLASH) else normalized
  }

  /** Normalization keeps the segments of the trimmed path. */
  lemma NormalizeKeepsSegments(path: string)
    ensures RequestSegments(NormalizePublicPath(path)) == RequestSegments(Trim(path, WHITESPACE))
  {
    var trimmed := Trim(path, WHITESPACE);
    RequestSegmentsArePieces(NormalizePublicPath(path));
    RequestSegmentsArePieces(trimmed);
    PiecesOfTrimEnd(WithSlash(trimmed), SLASH);
    if WithSlash(trimmed) != trimmed {
      PiecesAfterLeading('/', trimmed, SLASH);
    }
  }

  /** A canonical path without surrounding whitespace is its own normal form. */
  lemma NormalizeCanonical(path: string)
    requires Canonical(path) && !IsWhitespace(path[|path| - 1])
    ensures NormalizePublicPath(path) == path
  {
    CanonicalIff(path);
    assert TrimStart(path, WHITESPACE) == path;
  }

  /** Exactly when normalizing again changes nothing: the trimmed path is not two or more slashes,
      and no whitespace comes before its trailing slashes. */
  lemma NormalizeIdempotentIff(path: string)
    ensures var t := WithSlash(Trim(path, WHITESPACE));
            var body := TrimEnd(t, SLASH);
            NormalizePublicPath(NormalizePublicPath(path)) == NormalizePublicPath(path)
            <==> t == "/" || (body != [] && !IsWhitespace(body[|body| - 1]))
  {
    var t := WithSlash(Trim(path, WHITESPACE));
    var body := TrimEnd(t, SLASH);
    if t == "/" {
      assert TrimStart("/", WHITESPACE) == "/";
    } else {
      assert |t| > 1;
      assert NormalizePublicPath(path) == body;
      if body == [] {
        assert NormalizePublicPath("") == "/";
      } else {
        assert body[0] == '/';
        assert TrimStart(body, WHITESPACE) == body;
        var again := TrimEnd(body, WHITESPACE);
        if IsWhitespace(body[|body| - 1]) {
          ShorterTrim(body);
          assert |NormalizePublicPath(body)| <= |WithSlash(again)| < |body|;
        } else {
          assert again == body;
        }
      }
    }
  }

  /** Whitespace before the trailing slash: "/a /" is normalized to "/a ", and that to "/a". */
  lemma NormalizeCanChangeTwice(once: string, twice: string)
    requires once == "/a " && twice == "/a"
    ensures NormalizePublicPath(once + "/") == once && NormalizePublicPath(once) == twice
  {
    var path := once + "/";
    assert !WHITESPACE('/') && !WHITESPACE('a') && WHITESPACE(' ');
    assert TrimStart(path, WHITESPACE) == path && TrimStart(once, WHITESPACE) == once;
    assert TrimEnd(path, WHITESPACE) == path;
    assert path[..3] == once && TrimEnd(once, SLASH) == once;
    assert TrimEnd(path, SLASH) == TrimEnd(path[..3], SLASH);
    assert once[..2] == twice && TrimEnd(twice, WHITESPACE) == twice && TrimEnd(twice, SLASH) == twice;
    assert TrimEnd(once, WHITESPACE) == TrimEnd(once[..2], WHITESPACE);
  }

  lemma ShorterTrim(body: string)
    requires body != [] && body[0] == '/' && IsWhitespace(body[|body| - 1])
    ensures |TrimEnd(body, WHITESPACE)| < |body|
    ensures var r := TrimEnd(body, WHITESPACE); r != [] && r[0] == '/'
  {
    var r := TrimEnd(body, WHITESPACE);
    assert r == TrimEnd(body[..|body| - 1], WHITESPACE);
    assert !WHITESPACE(body[0]);
  }

  // ----- route segments

  datatype RouteSegment = Literal(text: string) | Tenant | Team

  datatype ParseError = RootPath | UnsupportedSegment(segment: string) | TeamWithoutTenant | TeamBeforeTenant

  datatype Parsed = Segments(segments: seq<RouteSegment>) | Rejected(error: ParseError)

  function ParseSegment(segment: string): Option<RouteSegment> {
    if segment == "{tenant}" then Some(Tenant)
    else if segment == "{team}" then Some(Team)
    else if '{' in segment || '}' in segment then None
    else Some(Literal(segment))
  }

  function RenderSegment(segment: RouteSegment): string {
    match segment
    case Tenant => "{tenant}"
    case Team => "{team}"
    case Literal(text) => text
  }

  function ParseEach(segments: seq<string>): Parsed {
    if segments == [] then Segments([])
    else
      match ParseSegment(segments[0])
      case None => Rejected(UnsupportedSegment(segments[0]))
      case Some(s) =>
        var rest := ParseEach(segments[1..]);
        if rest.Rejected? then rest else Segments([s] + rest.segments)
  }

  function Position(segments: seq<RouteSegment>, s: RouteSegment): Option<nat> {
    if segments == [] then None
    else if segments[0] == s then Some(0)
    else
      var rest := Position(segments[1..], s);
      if rest.None? then None else Some(rest.value + 1)
  }

  function ParseRouteSegments(path: string): Parsed {
    var segments := RequestSegments(path);
    if segments == [] then Rejected(RootPath)
    else
      var parsed := ParseEach(segments);
      if parsed.Rejected? then parsed
      else
        var team, tenant := Position(parsed.segments, Team), Position(parsed.segments, Tenant);
        if team.None? then parsed
        else if tenant.None? then Rejected(TeamWithoutTenant)
        else if team.value <= tenant.value then Rejected(TeamBeforeTenant)
        else parsed
  }

  function RenderEach(segments: seq<RouteSegment>): (r: seq<string>)
    ensures |r| == |segments|
    ensures forall i :: 0 <= i < |segments| ==> r[i] == RenderSegment(segments[i])
  {
    seq(|segments|, i requires 0 <= i < |segments| => RenderSegment(segments[i]))
  }

  lemma RenderEachCons(s: RouteSegment, rest: seq<RouteSegment>)
    ensures RenderEach([s] + rest) == [RenderSegment(s)] + RenderEach(rest)
  {
  }

  lemma ParsedSegmentRenders(segment: string)
    requires ParseSegment(segment).Some?
    ensures RenderSegment(ParseSegment(segment).value) == segment
  {
  }

  lemma {:induction false} ParseEachRenders(segments: seq<string>)
    requires ParseEach(segments).Segments?
    ensures RenderEach(ParseEach(segments).segments) == segments
  {
    if segments != [] {
      ParseEachRenders(segments[1..]);
      ParsedSegmentRenders(segments[0]);
      RenderEachCons(ParseSegment(segments[0]).value, ParseEach(segments[1..]).segments);
      assert segments == [segments[0]] + segments[1..];
    }
  }

  /** Route segments render back to the segments of the path they were parsed from. */
  lemma ParsedRenders(path: string)
    requires ParseRouteSegments(path).Segments?
    ensures RenderEach(ParseRouteSegments(path).segments) == RequestSegments(path) != []
  {
    ParseEachRenders(RequestSegments(path));
  }

  /** Parsing is injective on canonical paths, and rendering undoes it. */
  lemma ParseInjective(a: string, b: string)
    requires Canonical(a) && Canonical(b)
    requires ParseRouteSegments(a).Segments? && ParseRouteSegments(a) == ParseRouteSegments(b)
    ensures a == b == Render(RenderEach(ParseRouteSegments(a).segments))
  {
    ParsedRenders(a);
    ParsedRenders(b);
  }

  lemma {:induction false} ParseEachOf(parts: seq<string>, segments: seq<RouteSegment>)
    requires |parts| == |segments| && forall i :: 0 <= i < |parts| ==> ParseSegment(parts[i]) == Some(segments[i])
    ensures ParseEach(parts) == Segments(segments)
  {
    if parts != [] {
      ParseEachOf(parts[1..], segments[1..]);
      assert segments == [segments[0]] + segments[1..];
    }
  }

  lemma {:induction false} PositionOfNone(segments: seq<RouteSegment>, s: RouteSegment)
    requires s !in segments
    ensures Position(segments, s).None?
  {
    if segments != [] {
      PositionOfNone(segments[1..], s);
    }
  }

  /** The segments parse one by one, and there is no team placeholder. */
  ghost predicate IsParseOf(parts: seq<string>, segments: seq<RouteSegment>) {
    && parts != [] && Words(parts, SLASH) && Team !in segments
    && |parts| == |segments| && forall i :: 0 <= i < |parts| ==> ParseSegment(parts[i]) == Some(segments[i])
  }

  lemma ParseRendered(parts: seq<string>, segments: seq<RouteSegment>)
    requires IsParseOf(parts, segments)
    ensures ParseRouteSegments(Render(parts)) == Segments(segments)
  {
    RenderSegments(parts);
    ParseEachOf(parts, segments);
    PositionOfNone(segments, Team);
  }

  /** The literals of a parsed path are segments a request can carry. */
  lemma ParsedAreWords(path: string)
    requires ParseRouteSegments(path).Segments?
    ensures Words(RenderEach(ParseRouteSegments(path).segments), SLASH)
  {
    ParsedRenders(path);
    RequestSegmentsArePieces(path);
    PiecesAreWords(path, SLASH);
  }
}
