/** The string operations the components share: pieces between separators, joining, trimming, order. */
module Text {
  import opened Sequences

  type CharSet = char -> bool

  function Is(c: char): CharSet { x => x == c }

  const SLASH: CharSet := Is('/')

  /** The parts with `c` appended to the last one. */
  function GrowLast(parts: seq<string>, c: char): (r: seq<string>)
    requires parts != []
    ensures |r| == |parts|
  {
    parts[|parts| - 1 := parts[|parts| - 1] + [c]]
  }

  lemma GrowLastConcat(left: seq<string>, right: seq<string>, c: char)
    requires right != []
    ensures GrowLast(left + right, c) == left + GrowLast(right, c)
  {
  }

  // ----- pieces: what is left of a string when it is cut at separators and empty parts are dropped

  function Pieces(s: string, sep: CharSet): (r: seq<string>)
    ensures s != [] && !sep(s[|s| - 1]) ==> r != []
  {
    if s == [] then []
    else
      var front, c := s[..|s| - 1], s[|s| - 1];
      var r := Pieces(front, sep);
      if sep(c) then r
      else if front == [] || sep(front[|front| - 1]) then r + [[c]]
      else GrowLast(r, c)
  }

  /** No separator anywhere, and no empty part: what a join can be taken apart into again. */
  ghost predicate IsWord(w: string, sep: CharSet) {
    w != [] && forall c :: c in w ==> !sep(c)
  }

  ghost predicate Words(parts: seq<string>, sep: CharSet) {
    forall i :: 0 <= i < |parts| ==> IsWord(parts[i], sep)
  }

  lemma {:induction false} PiecesAreWords(s: string, sep: CharSet)
    ensures Words(Pieces(s, sep), sep)
  {
    if s != [] {
      var front, c := s[..|s| - 1], s[|s| - 1];
      PiecesAreWords(front, sep);
      var r := Pieces(front, sep);
      if !sep(c) && front != [] && !sep(front[|front| - 1]) {
        assert IsWord(r[|r| - 1], sep);
      }
    }
  }

  lemma {:induction false} PiecesOfWord(w: string, sep: CharSet)
    requires IsWord(w, sep)
    ensures Pieces(w, sep) == [w]
  {
    var front := w[..|w| - 1];
    if front != [] {
      PiecesOfWord(front, sep);
      assert front[|front| - 1] in w && w[|w| - 1] in w;
      assert Pieces(w, sep) == GrowLast([front], w[|w| - 1]);
    }
    assert w == front + [w[|w| - 1]];
  }

  /** A separator cuts a string into independent halves. */
  lemma {:induction false} PiecesAtSeparator(a: string, x: char, b: string, sep: CharSet)
    requires sep(x)
    ensures Pieces(a + [x] + b, sep) == Pieces(a, sep) + Pieces(b, sep)
  {
    var s := a + [x] + b;
    if b == [] {
      assert s[..|s| - 1] == a;
    } else {
      var front := b[..|b| - 1];
      PiecesAtSeparator(a, x, front, sep);
      assert s[..|s| - 1] == a + [x] + front;
      var left, right := Pieces(a, sep), Pieces(front, sep);
      var c := b[|b| - 1];
      assert s[|s| - 1] == c;
      var before := a + [x] + front;
      assert before[|before| - 1] == if front == [] then x else front[|front| - 1];
      if sep(c) {
        assert Pieces(s, sep) == left + right;
      } else if front == [] || sep(front[|front| - 1]) {
        assert Pieces(s, sep) == (left + right) + [[c]] == left + (right + [[c]]);
      } else {
        GrowLastConcat(left, right, c);
        assert Pieces(s, sep) == GrowLast(left + right, c);
      }
    }
  }

  lemma PiecesAfterLeading(x: char, b: string, sep: CharSet)
    requires sep(x)
    ensures Pieces([x] + b, sep) == Pieces(b, sep)
  {
    PiecesAtSeparator([], x, b, sep);
    assert [] + [x] + b == [x] + b;
  }

  // ----- joining

  function Join(parts: seq<string>, sep: char): string {
    if parts == [] then []
    else if |parts| == 1 then parts[0]
    else parts[0] + [sep] + Join(parts[1..], sep)
  }

  /** Cutting a join gives the parts back. */
  lemma {:induction false} PiecesOfJoin(parts: seq<string>, x: char, sep: CharSet)
    requires sep(x) && Words(parts, sep)
    ensures Pieces(Join(parts, x), sep) == parts
  {
    if |parts| == 1 {
      PiecesOfWord(parts[0], sep);
    } else if |parts| > 1 {
      PiecesOfJoin(parts[1..], x, sep);
      PiecesOfWord(parts[0], sep);
      PiecesAtSeparator(parts[0], x, Join(parts[1..], x), sep);
    }
  }

  lemma {:induction false} JoinAppend(parts: seq<string>, w: string, x: char)
    ensures Join(parts + [w], x) == if parts == [] then w else Join(parts, x) + [x] + w
  {
    if parts == [] {
      assert parts + [w] == [w];
    } else {
      JoinAppend(parts[1..], w, x);
      assert (parts + [w])[1..] == parts[1..] + [w];
      if |parts| > 1 {
        var h, j := parts[0] + [x], Join(parts[1..], x);
        assert h + (j + [x] + w) == (h + j) + [x] + w;
      }
    }
  }

  lemma {:induction false} JoinConcat(a: seq<string>, b: seq<string>, x: char)
    requires a != [] && b != []
    ensures Join(a + b, x) == Join(a, x) + [x] + Join(b, x)
  {
    if |a| == 1 {
      assert (a + b)[1..] == b;
    } else {
      JoinConcat(a[1..], b, x);
      assert (a + b)[1..] == a[1..] + b;
      var h, j, k := a[0] + [x], Join(a[1..], x), Join(b, x);
      assert h + (j + [x] + k) == (h + j) + [x] + k;
    }
  }

  /** Growing the last part grows the join. */
  lemma JoinGrowLast(parts: seq<string>, c: char, x: char)
    requires parts != []
    ensures Join(GrowLast(parts, c), x) == Join(parts, x) + [c]
  {
    var front, last := parts[..|parts| - 1], parts[|parts| - 1];
    assert parts == front + [last];
    assert GrowLast(parts, c) == front + [last + [c]];
    JoinAppend(front, last, x);
    JoinAppend(front, last + [c], x);
    if front != [] {
      assert Join(front, x) + [x] + (last + [c]) == (Join(front, x) + [x] + last) + [c];
    }
  }

  /** A join of words is empty or starts and ends inside a word. */
  lemma {:induction false} JoinEnds(parts: seq<string>, x: char, sep: CharSet)
    requires sep(x) && Words(parts, sep)
    ensures var j := Join(parts, x);
            parts == [] <==> j == []
    ensures var j := Join(parts, x);
            parts != [] ==> !sep(j[0]) && !sep(j[|j| - 1])
  {
    if |parts| == 1 {
      assert parts[0][0] in parts[0] && parts[0][|parts[0]| - 1] in parts[0];
    } else if |parts| > 1 {
      JoinEnds(parts[1..], x, sep);
      assert parts[0][0] in parts[0];
    }
  }

  // ----- splitting without dropping empty parts

  function Split(s: string, x: char): (r: seq<string>)
    ensures |r| >= 1
  {
    if s == [] then [[]]
    else
      var front, c := s[..|s| - 1], s[|s| - 1];
      var r := Split(front, x);
      if c == x then r + [[]] else GrowLast(r, c)
  }

  function NonEmpty(): string -> bool { w => w != [] }

  /** Pieces are the non-empty parts of a split. */
  lemma {:induction false} PiecesAreNonEmptyParts(s: string, x: char)
    ensures Pieces(s, Is(x)) == Filter(Split(s, x), NonEmpty())
  {
    if s != [] {
      var front, c := s[..|s| - 1], s[|s| - 1];
      PiecesAreNonEmptyParts(front, x);
      var r := Split(front, x);
      var init, last := r[..|r| - 1], r[|r| - 1];
      assert r == init + [last];
      FilterAppend(init, last, NonEmpty());
      if c == x {
        FilterAppend(r, [], NonEmpty());
      } else {
        assert GrowLast(r, c) == init + [last + [c]];
        FilterAppend(init, last + [c], NonEmpty());
        var p := Pieces(front, Is(x));
        if last == [] {
          assert last + [c] == [c];
        } else {
          assert Pieces(s, Is(x)) == GrowLast(p, c) == Filter(init, NonEmpty()) + [last + [c]];
        }
      }
    }
  }

  lemma {:induction false} SplitOfWord(w: string, x: char)
    requires x !in w
    ensures Split(w, x) == [w]
  {
    if w != [] {
      SplitOfWord(w[..|w| - 1], x);
      assert w[..|w| - 1] + [w[|w| - 1]] == w;
    }
  }

  lemma {:induction false} SplitAtSeparator(a: string, x: char, b: string)
    ensures Split(a + [x] + b, x) == Split(a, x) + Split(b, x)
  {
    var s := a + [x] + b;
    if b == [] {
      assert s[..|s| - 1] == a;
    } else {
      var front, c := b[..|b| - 1], b[|b| - 1];
      SplitAtSeparator(a, x, front);
      assert s[..|s| - 1] == a + [x] + front;
      var left, right := Split(a, x), Split(front, x);
      assert s[|s| - 1] == c;
      if c == x {
        assert Split(s, x) == (left + right) + [[]] == left + (right + [[]]);
      } else {
        GrowLastConcat(left, right, c);
        assert Split(s, x) == GrowLast(left + right, c);
      }
    }
  }

  /** Splitting and joining are inverse: a join of separator-free parts splits into them. */
  lemma {:induction false} SplitOfJoin(parts: seq<string>, x: char)
    requires parts != [] && forall i :: 0 <= i < |parts| ==> x !in parts[i]
    ensures Split(Join(parts, x), x) == parts
  {
    SplitOfWord(parts[0], x);
    if |parts| > 1 {
      SplitOfJoin(parts[1..], x);
      SplitAtSeparator(parts[0], x, Join(parts[1..], x));
    }
  }

  lemma {:induction false} SplitCount(s: string, x: char)
    ensures |Split(s, x)| == 1 <==> x !in s
  {
    if s != [] {
      SplitCount(s[..|s| - 1], x);
      assert s == s[..|s| - 1] + [s[|s| - 1]];
    }
  }

  lemma {:induction false} SplitJoinCount(parts: seq<string>, x: char)
    requires parts != []
    ensures |Split(Join(parts, x), x)| >= |parts|
    ensures |Split(Join(parts, x), x)| == |parts| <==> forall i :: 0 <= i < |parts| ==> x !in parts[i]
  {
    SplitCount(parts[0], x);
    if |parts| > 1 {
      SplitJoinCount(parts[1..], x);
      SplitAtSeparator(parts[0], x, Join(parts[1..], x));
      if forall i :: 0 <= i < |parts[1..]| ==> x !in parts[1..][i] {
        assert forall i :: 1 <= i < |parts| ==> parts[i] == parts[1..][i - 1];
      } else {
        var i :| 0 <= i < |parts[1..]| && x in parts[1..][i];
        assert x in parts[i + 1];
      }
    }
  }

  // ----- trimming

  function TrimStart(s: string, cut: CharSet): (r: string)
    ensures r == [] || !cut(r[0])
  {
    if s != [] && cut(s[0]) then TrimStart(s[1..], cut) else s
  }

  function TrimEnd(s: string, cut: CharSet): (r: string)
    ensures r <= s
    ensures r == [] || !cut(r[|r| - 1])
    ensures forall i :: |r| <= i < |s| ==> cut(s[i])
  {
    if s != [] && cut(s[|s| - 1]) then TrimEnd(s[..|s| - 1], cut) else s
  }

  function Trim(s: string, cut: CharSet): string { TrimEnd(TrimStart(s, cut), cut) }

  /** Trimming separators never changes the pieces. */
  lemma {:induction false} PiecesOfTrimEnd(s: string, sep: CharSet)
    ensures Pieces(TrimEnd(s, sep), sep) == Pieces(s, sep)
  {
    if s != [] && sep(s[|s| - 1]) {
      PiecesOfTrimEnd(s[..|s| - 1], sep);
    }
  }

  lemma {:induction false} PiecesOfTrimStart(s: string, sep: CharSet)
    ensures Pieces(TrimStart(s, sep), sep) == Pieces(s, sep)
  {
    if s != [] && sep(s[0]) {
      PiecesOfTrimStart(s[1..], sep);
      PiecesAfterLeading(s[0], s[1..], sep);
      assert s == [s[0]] + s[1..];
    }
  }

  // ----- collapsing runs of separators, the loop shape of the two name normalizers

  /** What a left-to-right loop builds that pushes every character but pushes the separator `x`
      only when the previous character was not a separator. */
  function Collapsed(s: string, x: char): string {
    if s == [] then []
    else
      var front, c := s[..|s| - 1], s[|s| - 1];
      if c == x && EndsWithChar(front, x) then Collapsed(front, x) else Collapsed(front, x) + [c]
  }

  predicate EndsWithChar(s: string, x: char) { s != [] && s[|s| - 1] == x }

  /** No two separators next to each other. */
  ghost predicate Tight(s: string, x: char) {
    forall i :: 0 < i < |s| ==> s[i - 1] != x || s[i] != x
  }

  lemma {:induction false} CollapsedIsTight(s: string, x: char)
    ensures Tight(Collapsed(s, x), x)
    ensures EndsWithChar(Collapsed(s, x), x) == EndsWithChar(s, x)
    ensures Pieces(Collapsed(s, x), Is(x)) == Pieces(s, Is(x))
  {
    if s != [] {
      var front, c := s[..|s| - 1], s[|s| - 1];
      CollapsedIsTight(front, x);
      var r := Collapsed(front, x);
      assert (r + [c])[..|r|] == r;
      if front != [] && r == [] {
        CollapsedNonEmpty(front, x);
      }
    }
  }

  lemma CollapsedNonEmpty(s: string, x: char)
    ensures Collapsed(s, x) == [] <==> s == []
  {
  }

  /** A tight string that does not start with a separator is the join of its pieces. */
  lemma {:induction false} TightIsJoin(s: string, x: char)
    requires Tight(s, x) && (s != [] ==> s[0] != x)
    ensures s == Join(Pieces(s, Is(x)), x) + if EndsWithChar(s, x) then [x] else []
  {
    if s != [] {
      var front, c := s[..|s| - 1], s[|s| - 1];
      TightIsJoin(front, x);
      var parts := Pieces(front, Is(x));
      assert s == front + [c];
      if c == x {
        assert s[|s| - 2] != x;
      } else if front == [] || EndsWithChar(front, x) {
        JoinAppend(parts, [c], x);
        assert parts == [] ==> Join(parts, x) == [];
      } else {
        JoinGrowLast(parts, c, x);
      }
    }
  }

  lemma {:induction false} TrimStartIsTight(s: string, x: char)
    requires Tight(s, x)
    ensures Tight(TrimStart(s, Is(x)), x)
  {
    if s != [] && s[0] == x {
      TrimStartIsTight(s[1..], x);
    }
  }

  /** Collapsing and trimming is cutting into pieces and joining them again. */
  lemma TrimCollapsed(s: string, x: char)
    ensures Trim(Collapsed(s, x), Is(x)) == Join(Pieces(s, Is(x)), x)
  {
    var c := Collapsed(s, x);
    var t := TrimStart(c, Is(x));
    var u := TrimEnd(t, Is(x));
    CollapsedIsTight(s, x);
    TrimStartIsTight(c, x);
    PrefixIsTight(t, u, x);
    PiecesOfTrimStart(c, Is(x));
    PiecesOfTrimEnd(t, Is(x));
    assert u != [] ==> u[0] == t[0] && !Is(x)(t[0]);
    assert !EndsWithChar(u, x);
    TightIsJoin(u, x);
  }

  lemma PrefixIsTight(s: string, p: string, x: char)
    requires Tight(s, x) && p <= s
    ensures Tight(p, x)
  {
  }

  // ----- substrings

  predicate ContainsText(s: string, text: string) {
    text <= s || (s != [] && ContainsText(s[1..], text))
  }

  lemma {:induction false} ContainsAt(s: string, i: nat, text: string)
    requires i <= |s| && text <= s[i..]
    ensures ContainsText(s, text)
  {
    if i > 0 {
      assert s[1..][i - 1..] == s[i..];
      ContainsAt(s[1..], i - 1, text);
    }
  }

  // ----- character classes

  /** The Unicode White_Space property. */
  predicate IsWhitespace(c: char) {
    '\U{9}' <= c <= '\U{D}' || c == ' ' || c == '\U{85}' || c == '\U{A0}' || c == '\U{1680}'
    || '\U{2000}' <= c <= '\U{200A}' || c == '\U{2028}' || c == '\U{2029}' || c == '\U{202F}'
    || c == '\U{205F}' || c == '\U{3000}'
  }

  const WHITESPACE: CharSet := c => IsWhitespace(c)

  predicate IsUpper(c: char) { 'A' <= c <= 'Z' }

  predicate IsLower(c: char) { 'a' <= c <= 'z' }

  predicate IsDigit(c: char) { '0' <= c <= '9' }

  predicate IsAlphanumeric(c: char) { IsUpper(c) || IsLower(c) || IsDigit(c) }

  function ToLower(c: char): (r: char)
    ensures IsAlphanumeric(r) == IsAlphanumeric(c)
    ensures !IsUpper(r)
    ensures !IsUpper(c) ==> r == c
  {
    if IsUpper(c) then (c as int + 32) as char else c
  }

  function MapChars(s: string, f: char -> char): (r: string)
    ensures |r| == |s| && forall i :: 0 <= i < |s| ==> r[i] == f(s[i])
  {
    seq(|s|, i requires 0 <= i < |s| => f(s[i]))
  }

  predicate EqualIgnoringCase(a: string, b: string) { MapChars(a, ToLower) == MapChars(b, ToLower) }

  function MapParts(parts: seq<string>, f: char -> char): (r: seq<string>)
    ensures |r| == |parts| && forall i :: 0 <= i < |parts| ==> r[i] == MapChars(parts[i], f)
  {
    seq(|parts|, i requires 0 <= i < |parts| => MapChars(parts[i], f))
  }

  lemma MapPartsGrowLast(parts: seq<string>, c: char, f: char -> char)
    requires parts != []
    ensures MapParts(GrowLast(parts, c), f) == GrowLast(MapParts(parts, f), f(c))
  {
    var last := parts[|parts| - 1];
    assert MapChars(last + [c], f) == MapChars(last, f) + [f(c)];
  }

  lemma MapPartsAppendChar(parts: seq<string>, c: char, f: char -> char)
    ensures MapParts(parts + [[c]], f) == MapParts(parts, f) + [[f(c)]]
  {
    assert MapChars([c], f) == [f(c)];
  }

  /** Mapping characters maps the pieces when it maps separators to separators and words to words. */
  lemma {:induction false} PiecesOfMapped(s: string, f: char -> char, from: CharSet, to: CharSet)
    requires forall c :: c in s ==> to(f(c)) == from(c)
    ensures Pieces(MapChars(s, f), to) == MapParts(Pieces(s, from), f)
  {
    if s != [] {
      var front, c := s[..|s| - 1], s[|s| - 1];
      PiecesOfMapped(front, f, from, to);
      var mapped := MapChars(s, f);
      assert mapped[..|mapped| - 1] == MapChars(front, f);
      assert to(f(c)) == from(c);
      if front != [] {
        assert front[|front| - 1] in s;
      }
      MapPartsAppendChar(Pieces(front, from), c, f);
      if !from(c) && front != [] && !from(front[|front| - 1]) {
        MapPartsGrowLast(Pieces(front, from), c, f);
      }
    }
  }

  // ----- lexicographic order

  predicate StrLe(a: string, b: string) {
    a == [] || (b != [] && (a[0] < b[0] || (a[0] == b[0] && StrLe(a[1..], b[1..]))))
  }

  lemma {:induction false} StrLeTotal(a: string, b: string)
    ensures StrLe(a, b) || StrLe(b, a)
  {
    if a != [] && b != [] && a[0] == b[0] {
      StrLeTotal(a[1..], b[1..]);
    }
  }

  lemma {:induction false} StrLeTransitive(a: string, b: string, c: string)
    requires StrLe(a, b) && StrLe(b, c)
    ensures StrLe(a, c)
  {
    if a != [] && a[0] == b[0] && b[0] == c[0] {
      StrLeTransitive(a[1..], b[1..], c[1..]);
    }
  }

  lemma {:induction false} StrLeAntisymmetric(a: string, b: string)
    requires StrLe(a, b) && StrLe(b, a)
    ensures a == b
  {
    if a != [] {
      StrLeAntisymmetric(a[1..], b[1..]);
    }
  }
}
