/** File-name slugs of registry references and digests. */
module Slugs {
  import opened Sequences
  import opened Text

  const NOT_ALPHANUMERIC: CharSet := c => !IsAlphanumeric(c)

  const DASH: CharSet := Is('-')

  /** The maximal runs of ASCII letters and digits, lower-cased. */
  function SlugRuns(value: string): seq<string> { MapParts(Pieces(value, NOT_ALPHANUMERIC), ToLower) }

  function RunsOrRegistry(value: string): seq<string> {
    if SlugRuns(value) == [] then ["registry"] else SlugRuns(value)
  }

  function Slug(value: string): string { Join(RunsOrRegistry(value), '-') }

  function SlugChar(c: char): char { if IsAlphanumeric(c) then ToLower(c) else '-' }

  lemma SlugRunsAreMappedPieces(value: string)
    ensures Pieces(MapChars(value, SlugChar), DASH) == SlugRuns(value)
  {
    PiecesOfMapped(value, SlugChar, NOT_ALPHANUMERIC, DASH);
    var parts := Pieces(value, NOT_ALPHANUMERIC);
    PiecesAreWords(value, NOT_ALPHANUMERIC);
    forall i | 0 <= i < |parts| ensures MapChars(parts[i], SlugChar) == MapChars(parts[i], ToLower) {
      assert IsWord(parts[i], NOT_ALPHANUMERIC);
      forall k | 0 <= k < |parts[i]| ensures SlugChar(parts[i][k]) == ToLower(parts[i][k]) {
        assert parts[i][k] in parts[i];
      }
    }
  }

  /** The slug loop computes `Slug`. */
  method MakeSlug(value: string) returns (slug: string)
    ensures slug == Slug(value)
  {
    var out: string := "";
    var prevDash := false;
    for i := 0 to |value|
      invariant out == Collapsed(MapChars(value[..i], SlugChar), '-')
      invariant prevDash == EndsWithChar(MapChars(value[..i], SlugChar), '-')
    {
      ghost var soFar := MapChars(value[..i], SlugChar);
      var ch := value[i];
      assert MapChars(value[..i + 1], SlugChar) == soFar + [SlugChar(ch)];
      assert (soFar + [SlugChar(ch)])[..|soFar|] == soFar;
      if IsAlphanumeric(ch) {
        out := out + [ToLower(ch)];
        prevDash := false;
      } else if !prevDash {
        out := out + ['-'];
        prevDash := true;
      }
    }
    assert value[..|value|] == value;
    TrimCollapsed(MapChars(value, SlugChar), '-');
    SlugRunsAreMappedPieces(value);
    PiecesAreWords(MapChars(value, SlugChar), DASH);
    JoinEnds(SlugRuns(value), '-', DASH);
    var trimmed := Trim(out, DASH);
    slug := if trimmed == "" then "registry" else trimmed;
  }

  predicate IsSlugChar(c: char) { IsLower(c) || IsDigit(c) || c == '-' }

  lemma SlugCharsAreFixed(s: string)
    requires forall c :: c in s ==> IsSlugChar(c)
    ensures MapChars(s, SlugChar) == s
  {
    forall i | 0 <= i < |s| ensures SlugChar(s[i]) == s[i] {
      assert s[i] in s;
    }
  }

  lemma RunsAreSlugChars(value: string)
    ensures Words(RunsOrRegistry(value), DASH)
    ensures forall i :: 0 <= i < |RunsOrRegistry(value)| ==> forall c :: c in RunsOrRegistry(value)[i] ==> IsSlugChar(c)
  {
    SlugRunsAreMappedPieces(value);
    PiecesAreWords(MapChars(value, SlugChar), DASH);
    var parts := Pieces(value, NOT_ALPHANUMERIC);
    PiecesAreWords(value, NOT_ALPHANUMERIC);
    forall i, k | 0 <= i < |parts| && 0 <= k < |parts[i]| ensures IsSlugChar(ToLower(parts[i][k])) {
      assert IsWord(parts[i], NOT_ALPHANUMERIC) && parts[i][k] in parts[i];
    }
  }

  lemma {:induction false} JoinedSlugChars(parts: seq<string>)
    requires forall i :: 0 <= i < |parts| ==> forall c :: c in parts[i] ==> IsSlugChar(c)
    ensures forall c :: c in Join(parts, '-') ==> IsSlugChar(c)
  {
    if |parts| > 1 {
      JoinedSlugChars(parts[1..]);
    }
  }

  /** The runs of a slug are the runs it was made from. */
  lemma RunsOfSlug(value: string)
    ensures SlugRuns(Slug(value)) == RunsOrRegistry(value)
  {
    RunsAreSlugChars(value);
    JoinedSlugChars(RunsOrRegistry(value));
    SlugCharsAreFixed(Slug(value));
    SlugRunsAreMappedPieces(Slug(value));
    PiecesOfJoin(RunsOrRegistry(value), '-', DASH);
  }

  lemma SlugIdempotent(value: string)
    ensures Slug(Slug(value)) == Slug(value)
  {
    RunsOfSlug(value);
  }

  /** Two values share a slug exactly when their lower-cased alphanumeric runs agree, no run at all
      counting as the single run "registry". */
  lemma SlugsCollideIff(a: string, b: string)
    ensures Slug(a) == Slug(b) <==> RunsOrRegistry(a) == RunsOrRegistry(b)
  {
    RunsOfSlug(a);
    RunsOfSlug(b);
  }

  /** A reference that starts with a scheme has the scheme as its first run. */
  lemma SlugStartsWithScheme(scheme: string, rest: string)
    requires IsWord(scheme, NOT_ALPHANUMERIC) && forall c :: c in scheme ==> IsSlugChar(c)
    ensures RunsOrRegistry(scheme + ":" + rest)[0] == scheme
  {
    var value := scheme + ":" + rest;
    PiecesAtSeparator(scheme, ':', rest, NOT_ALPHANUMERIC);
    PiecesOfWord(scheme, NOT_ALPHANUMERIC);
    assert Pieces(value, NOT_ALPHANUMERIC)[0] == scheme;
    forall i | 0 <= i < |scheme| ensures ToLower(scheme[i]) == scheme[i] {
      assert scheme[i] in scheme;
    }
    assert MapChars(scheme, ToLower) == scheme;
  }
}
