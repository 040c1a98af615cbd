/** Canonical secret names and key paths. */
module SecretNames {
  import opened Sequences
  import opened Text

  function NormalizeChar(ch: char): Option<char> {
    if IsUpper(ch) then Some(ToLower(ch))
    else if IsLower(ch) || IsDigit(ch) || ch == '_' then Some(ch)
    else if ch == '-' || ch == '.' || ch == ' ' || ch == '/' then Some('_')
    else None
  }

  const UNDERSCORE: CharSet := Is('_')

  /** The words of a raw name: maximal runs of letters and digits after normalization. */
  function NameWords(raw: string): seq<string> {
    Pieces(Collect(raw, NormalizeChar), UNDERSCORE)
  }

  /** The words, or a fixed one when there is none. */
  function WordsOrSecret(raw: string): seq<string> {
    if NameWords(raw) == [] then ["secret"] else NameWords(raw)
  }

  /** The words joined by single underscores. */
  function CanonicalName(raw: string): string { Join(WordsOrSecret(raw), '_') }

  /** The canonicalization loop computes `CanonicalName`. */
  method CanonicalSecretName(raw: string) returns (canonical: string)
    ensures canonical == CanonicalName(raw)
  {
    var result: string := "";
    var prevUnderscore := false;
    for i := 0 to |raw|
      invariant result == Collapsed(Collect(raw[..i], NormalizeChar), '_')
      invariant prevUnderscore == EndsWithChar(Collect(raw[..i], NormalizeChar), '_')
    {
      assert raw[..i + 1] == raw[..i] + [raw[i]];
      CollectAppend(raw[..i], raw[i], NormalizeChar);
      match NormalizeChar(raw[i]) {
        case None =>
        case Some(normalized) =>
          ghost var soFar := Collect(raw[..i], NormalizeChar);
          assert (soFar + [normalized])[..|soFar|] == soFar;
          if normalized == '_' {
            if prevUnderscore {
              continue;
            }
            prevUnderscore := true;
          } else {
            prevUnderscore := false;
          }
          result := result + [normalized];
      }
    }
    assert raw[..|raw|] == raw;
    TrimCollapsed(Collect(raw, NormalizeChar), '_');
    PiecesAreWords(Collect(raw, NormalizeChar), UNDERSCORE);
    JoinEnds(NameWords(raw), '_', UNDERSCORE);
    var trimmed := Trim(result, UNDERSCORE);
    canonical := if trimmed == "" then "secret" else trimmed;
  }

  // ----- what canonical names are made of

  predicate IsNameChar(c: char) { IsLower(c) || IsDigit(c) || c == '_' }

  lemma {:induction false} NormalizedAreNameChars(raw: string)
    ensures forall c :: c in Collect(raw, NormalizeChar) ==> IsNameChar(c)
  {
    if raw != [] {
      NormalizedAreNameChars(raw[1..]);
    }
  }

  lemma {:induction false} NameCharsAreFixed(s: string)
    requires forall c :: c in s ==> IsNameChar(c)
    ensures Collect(s, NormalizeChar) == s
  {
    if s != [] {
      NameCharsAreFixed(s[1..]);
      assert s[0] in s;
    }
  }

  lemma {:induction false} PiecesKeepChars(s: string, sep: CharSet)
    ensures forall i :: 0 <= i < |Pieces(s, sep)| ==> forall c :: c in Pieces(s, sep)[i] ==> c in s
  {
    if s != [] {
      PiecesKeepChars(s[..|s| - 1], sep);
    }
  }

  lemma {:induction false} JoinedNameChars(parts: seq<string>)
    requires forall i :: 0 <= i < |parts| ==> forall c :: c in parts[i] ==> IsNameChar(c)
    ensures forall c :: c in Join(parts, '_') ==> IsNameChar(c)
  {
    if |parts| > 1 {
      JoinedNameChars(parts[1..]);
    }
  }

  /** A canonical name is a non-empty join of words of lower-case letters and digits. */
  lemma CanonicalNameShape(raw: string)
    ensures CanonicalName(raw) != []
    ensures forall c :: c in CanonicalName(raw) ==> IsNameChar(c)
    ensures NameWords(CanonicalName(raw)) == WordsOrSecret(raw)
  {
    var mapped := Collect(raw, NormalizeChar);
    PiecesAreWords(mapped, UNDERSCORE);
    NormalizedAreNameChars(raw);
    PiecesKeepChars(mapped, UNDERSCORE);
    var words := WordsOrSecret(raw);
    assert Words(words, UNDERSCORE);
    JoinedNameChars(words);
    JoinEnds(words, '_', UNDERSCORE);
    NameCharsAreFixed(CanonicalName(raw));
    PiecesOfJoin(words, '_', UNDERSCORE);
  }

  lemma CanonicalNameIdempotent(raw: string)
    ensures CanonicalName(CanonicalName(raw)) == CanonicalName(raw)
  {
    CanonicalNameShape(raw);
  }

  /** Two raw names share a canonical name exactly when their words agree. */
  lemma CanonicalNamesCollideIff(a: string, b: string)
    ensures CanonicalName(a) == CanonicalName(b) <==> WordsOrSecret(a) == WordsOrSecret(b)
  {
    CanonicalNameShape(a);
    CanonicalNameShape(b);
  }

  // ----- key paths

  ghost predicate Blank(s: string) { forall c :: c in s ==> IsWhitespace(c) }

  predicate IsBlank(s: string)
    ensures IsBlank(s) <==> Blank(s)
  {
    s == [] || (IsWhitespace(s[0]) && IsBlank(s[1..]))
  }

  function KeySegment(): string -> Option<string> {
    segment => if IsBlank(segment) then None else Some(CanonicalName(segment))
  }

  function CanonicalKeyPath(raw: string): string {
    Join(Collect(Split(raw, '/'), KeySegment()), '/')
  }

  predicate IsCanonical(name: string) { CanonicalName(name) == name }

  ghost predicate AllCanonical(names: seq<string>) {
    forall i :: 0 <= i < |names| ==> IsCanonical(names[i])
  }

  lemma {:induction false} KeySegmentsAreCanonical(segments: seq<string>)
    ensures AllCanonical(Collect(segments, KeySegment()))
  {
    if segments != [] {
      KeySegmentsAreCanonical(segments[1..]);
      CanonicalNameIdempotent(segments[0]);
    }
  }

  lemma {:induction false} CanonicalSegmentsAreFixed(segments: seq<string>)
    requires AllCanonical(segments)
    ensures Collect(segments, KeySegment()) == segments
    ensures forall i :: 0 <= i < |segments| ==> '/' !in segments[i]
  {
    if segments != [] {
      assert IsCanonical(segments[0]);
      CanonicalNameShape(segments[0]);
      assert segments[0][0] in segments[0];
      CanonicalSegmentsAreFixed(segments[1..]);
    }
  }

  /** Canonicalizing a key path twice is canonicalizing it once. */
  lemma CanonicalKeyPathIdempotent(raw: string)
    ensures CanonicalKeyPath(CanonicalKeyPath(raw)) == CanonicalKeyPath(raw)
  {
    var segments := Collect(Split(raw, '/'), KeySegment());
    KeySegmentsAreCanonical(Split(raw, '/'));
    CanonicalSegmentsAreFixed(segments);
    if segments == [] {
      assert Split("", '/') == [""];
      assert Collect([""], KeySegment()) == [];
    } else {
      SplitOfJoin(segments, '/');
    }
  }
}
