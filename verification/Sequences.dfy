/** Order-preserving operations on sequences that several components share. */
module Sequences {

  datatype Option<+T> = None | Some(value: T)

  function Filter<T>(s: seq<T>, p: T -> bool): seq<T> {
    if s == [] then []
    else if p(s[0]) then [s[0]] + Filter(s[1..], p)
    else Filter(s[1..], p)
  }

  lemma {:induction false} FilterMembers<T(!new)>(s: seq<T>, p: T -> bool)
    ensures forall x :: x in Filter(s, p) <==> x in s && p(x)
    ensures |Filter(s, p)| <= |s|
  {
    if s != [] {
      FilterMembers(s[1..], p);
      assert s == [s[0]] + s[1..];
    }
  }

  lemma {:induction false} FilterConcat<T(!new)>(a: seq<T>, b: seq<T>, p: T -> bool)
    ensures Filter(a + b, p) == Filter(a, p) + Filter(b, p)
  {
    if a == [] {
      assert a + b == b;
    } else {
      FilterConcat(a[1..], b, p);
      assert (a + b)[1..] == a[1..] + b;
    }
  }

  lemma FilterAppend<T(!new)>(s: seq<T>, x: T, p: T -> bool)
    ensures Filter(s + [x], p) == if p(x) then Filter(s, p) + [x] else Filter(s, p)
  {
    FilterConcat(s, [x], p);
    assert [x][1..] == [];
    assert Filter([x], p) == if p(x) then [x] else [];
  }

  /** Filtering the first `i + 1` elements extends filtering the first `i`. */
  lemma FilterPrefixStep<T(!new)>(s: seq<T>, i: nat, p: T -> bool)
    requires i < |s|
    ensures Filter(s[..i + 1], p) == Filter(s[..i], p) + (if p(s[i]) then [s[i]] else [])
  {
    assert s[..i + 1] == s[..i] + [s[i]];
    FilterConcat(s[..i], [s[i]], p);
  }

  lemma {:induction false} FilterAll<T(!new)>(s: seq<T>, p: T -> bool)
    requires forall x :: x in s ==> p(x)
    ensures Filter(s, p) == s
  {
    if s != [] {
      FilterAll(s[1..], p);
    }
  }

  lemma {:induction false} FilterNone<T(!new)>(s: seq<T>, p: T -> bool)
    requires forall x :: x in s ==> !p(x)
    ensures Filter(s, p) == []
  {
    if s != [] {
      FilterNone(s[1..], p);
    }
  }

  /** Filtering twice is filtering by the conjunction. */
  lemma {:induction false} FilterTwice<T(!new)>(s: seq<T>, p: T -> bool, q: T -> bool, both: T -> bool)
    requires forall x :: x in s ==> both(x) == (p(x) && q(x))
    ensures Filter(Filter(s, p), q) == Filter(s, both)
  {
    if s != [] {
      FilterTwice(s[1..], p, q, both);
      if p(s[0]) {
        assert Filter(s, p)[1..] == Filter(s[1..], p);
      }
    }
  }

  lemma {:induction false} FilterCount<T(!new)>(s: seq<T>, p: T -> bool, x: T)
    ensures multiset(Filter(s, p))[x] == if p(x) then multiset(s)[x] else 0
  {
    if s != [] {
      FilterCount(s[1..], p, x);
      assert s == [s[0]] + s[1..];
      assert multiset(s) == multiset{s[0]} + multiset(s[1..]);
    }
  }

  /** The first element satisfying `p`: the library search `find`. */
  function First<T(!new)>(s: seq<T>, p: T -> bool): (r: Option<T>)
    ensures r.Some? ==> r.value in s && p(r.value)
    ensures r.None? <==> forall x :: x in s ==> !p(x)
  {
    if s == [] then None else if p(s[0]) then Some(s[0]) else First(s[1..], p)
  }

  /** A left-to-right search that found nothing before `i`. */
  lemma {:induction false} FirstAt<T(!new)>(s: seq<T>, i: nat, p: T -> bool)
    requires i < |s| && First(s[..i], p).None?
    ensures if p(s[i]) then First(s, p) == Some(s[i]) else First(s[..i + 1], p).None?
  {
    if i == 0 {
      assert s[..1][0] == s[0] && s[..1][1..] == [];
    } else {
      assert s[..i][0] == s[0] && s[..i][1..] == s[1..][..i - 1];
      assert !p(s[0]);
      FirstAt(s[1..], i - 1, p);
      assert s[..i + 1][0] == s[0] && s[..i + 1][1..] == s[1..][..i];
    }
  }

  lemma {:induction false} FirstIsHeadOfFilter<T(!new)>(s: seq<T>, p: T -> bool)
    ensures First(s, p) == if Filter(s, p) == [] then None else Some(Filter(s, p)[0])
  {
    if s != [] {
      FirstIsHeadOfFilter(s[1..], p);
    }
  }

  function RemoveAt<T>(s: seq<T>, j: nat): seq<T>
    requires j < |s|
  {
    s[..j] + s[j + 1..]
  }

  lemma RemoveAtMultiset<T>(s: seq<T>, j: nat)
    requires j < |s|
    ensures multiset(s) == multiset{s[j]} + multiset(RemoveAt(s, j))
  {
    assert s == s[..j] + ([s[j]] + s[j + 1..]);
  }

  /** The first element of `a` found in a rearrangement `b`, and what is left of both. */
  lemma MatchHead<T>(a: seq<T>, b: seq<T>) returns (j: nat)
    requires a != [] && multiset(a) == multiset(b)
    ensures j < |b| && b[j] == a[0]
    ensures multiset(a[1..]) == multiset(RemoveAt(b, j))
  {
    assert a[0] in multiset(b);
    j :| 0 <= j < |b| && b[j] == a[0];
    SameRest(a, 0, b, j);
    assert RemoveAt(a, 0) == a[1..];
  }

  /** Removing equal elements from rearrangements leaves rearrangements. */
  lemma SameRest<T>(a: seq<T>, i: nat, b: seq<T>, j: nat)
    requires multiset(a) == multiset(b) && i < |a| && j < |b| && a[i] == b[j]
    ensures multiset(RemoveAt(a, i)) == multiset(RemoveAt(b, j))
  {
    RemoveAtMultiset(a, i);
    RemoveAtMultiset(b, j);
    var head, x, y := multiset{a[i]}, multiset(RemoveAt(a, i)), multiset(RemoveAt(b, j));
    assert head + x == head + y;
    assert (head + x) - head == x && (head + y) - head == y;
  }

  /** The results `f` yields along `s`, in order. */
  function Collect<T, U>(s: seq<T>, f: T -> Option<U>): seq<U> {
    if s == [] then []
    else if f(s[0]).Some? then [f(s[0]).value] + Collect(s[1..], f)
    else Collect(s[1..], f)
  }

  lemma {:induction false} CollectConcat<T, U>(a: seq<T>, b: seq<T>, f: T -> Option<U>)
    ensures Collect(a + b, f) == Collect(a, f) + Collect(b, f)
  {
    if a == [] {
      assert a + b == b;
    } else {
      CollectConcat(a[1..], b, f);
      assert (a + b)[1..] == a[1..] + b;
      if f(a[0]).Some? {
        var h, x, y := [f(a[0]).value], Collect(a[1..], f), Collect(b, f);
        assert h + (x + y) == (h + x) + y;
      }
    }
  }

  lemma CollectAppend<T, U>(s: seq<T>, x: T, f: T -> Option<U>)
    ensures Collect(s + [x], f) == if f(x).Some? then Collect(s, f) + [f(x).value] else Collect(s, f)
  {
    CollectConcat(s, [x], f);
    assert [x][1..] == [];
    assert Collect([x], f) == if f(x).Some? then [f(x).value] else [];
  }

  /** Collecting along the first `i + 1` elements extends collecting along the first `i`. */
  lemma CollectPrefixStep<T, U>(s: seq<T>, i: nat, f: T -> Option<U>)
    requires i < |s|
    ensures Collect(s[..i + 1], f)
         == if f(s[i]).Some? then Collect(s[..i], f) + [f(s[i]).value] else Collect(s[..i], f)
  {
    assert s[..i + 1] == s[..i] + [s[i]];
    CollectAppend(s[..i], s[i], f);
  }

  lemma {:induction false} CollectMembers<T(!new), U(!new)>(s: seq<T>, f: T -> Option<U>, y: U)
    ensures y in Collect(s, f) <==> exists x :: x in s && f(x) == Some(y)
  {
    if s != [] {
      CollectMembers(s[1..], f, y);
      assert s[0] in s;
      if x :| x in s[1..] && f(x) == Some(y) {
        assert x in s;
      }
    }
  }

  /** The first result `f` yields along `s`: the library search `find_map`. */
  function FindMap<T, U>(s: seq<T>, f: T -> Option<U>): Option<U> {
    if s == [] then None else if f(s[0]).Some? then f(s[0]) else FindMap(s[1..], f)
  }

  lemma {:induction false} FindMapMeaning<T(!new), U>(s: seq<T>, f: T -> Option<U>)
    ensures FindMap(s, f).None? <==> forall x :: x in s ==> f(x).None?
    ensures FindMap(s, f).Some? ==> exists x :: x in s && f(x) == FindMap(s, f)
  {
    if s != [] && f(s[0]).None? {
      FindMapMeaning(s[1..], f);
    }
  }

  lemma {:induction false} CollectCount<T, U(!new)>(s: seq<T>, f: T -> Option<U>, j: nat, y: U)
    requires j < |s|
    ensures multiset(Collect(s, f))[y]
         == multiset(Collect(RemoveAt(s, j), f))[y] + if f(s[j]) == Some(y) then 1 else 0
  {
    if j == 0 {
      assert RemoveAt(s, 0) == s[1..];
    } else {
      CollectCount(s[1..], f, j - 1, y);
      assert RemoveAt(s, j)[0] == s[0] && RemoveAt(s, j)[1..] == RemoveAt(s[1..], j - 1);
    }
  }

  /** Collecting from a rearrangement yields a rearrangement. */
  lemma {:induction false} CollectRearranged<T, U(!new)>(a: seq<T>, b: seq<T>, f: T -> Option<U>)
    requires multiset(a) == multiset(b)
    ensures multiset(Collect(a, f)) == multiset(Collect(b, f))
  {
    if a == [] {
      assert |multiset(b)| == 0;
    } else {
      var j := MatchHead(a, b);
      CollectRearranged(a[1..], RemoveAt(b, j), f);
      forall y ensures multiset(Collect(a, f))[y] == multiset(Collect(b, f))[y] {
        CollectCount(a, f, 0, y);
        CollectCount(b, f, j, y);
        assert RemoveAt(a, 0) == a[1..];
      }
    }
  }

  /** The sequences `f` yields along `s`, one after the other. */
  function FlatMap<T, U>(s: seq<T>, f: T -> seq<U>): seq<U> {
    if s == [] then [] else f(s[0]) + FlatMap(s[1..], f)
  }

  lemma ConcatAssociative<T>(x: seq<T>, y: seq<T>, z: seq<T>)
    ensures x + (y + z) == (x + y) + z
  {
  }

  lemma {:induction false} FlatMapConcat<T, U>(a: seq<T>, b: seq<T>, f: T -> seq<U>)
    ensures FlatMap(a + b, f) == FlatMap(a, f) + FlatMap(b, f)
  {
    if a == [] {
      assert a + b == b;
    } else {
      FlatMapConcat(a[1..], b, f);
      assert (a + b)[0] == a[0] && (a + b)[1..] == a[1..] + b;
      ConcatAssociative(f(a[0]), FlatMap(a[1..], f), FlatMap(b, f));
    }
  }

  /** The flat map without its `j`-th part, and around it. */
  lemma {:induction false} FlatMapAround<T, U>(s: seq<T>, f: T -> seq<U>, j: nat)
    requires j < |s|
    ensures FlatMap(s, f) == FlatMap(s[..j], f) + (f(s[j]) + FlatMap(s[j + 1..], f))
    ensures FlatMap(RemoveAt(s, j), f) == FlatMap(s[..j], f) + FlatMap(s[j + 1..], f)
  {
    assert s == s[..j] + s[j..] && s[j..][0] == s[j] && s[j..][1..] == s[j + 1..];
    FlatMapConcat(s[..j], s[j..], f);
    FlatMapConcat(s[..j], s[j + 1..], f);
  }

  lemma {:induction false} FlatMapCommutesWith<T, U>(s: seq<T>, f: T -> seq<U>, w: seq<U>)
    requires forall i :: 0 <= i < |s| ==> f(s[i]) + w == w + f(s[i])
    ensures FlatMap(s, f) + w == w + FlatMap(s, f)
  {
    if s == [] {
      assert [] + w == w + [];
    } else {
      var x, rest := f(s[0]), FlatMap(s[1..], f);
      FlatMapCommutesWith(s[1..], f, w);
      ConcatAssociative(x, rest, w);
      ConcatAssociative(x, w, rest);
      ConcatAssociative(w, x, rest);
      assert f(s[0]) + w == w + f(s[0]);
    }
  }

  /** Parts that commute pairwise give one flat map in every order. */
  lemma {:induction false} FlatMapCommutes<T, U>(a: seq<T>, b: seq<T>, f: T -> seq<U>)
    requires multiset(a) == multiset(b)
    requires forall x, y :: x in a && y in a ==> f(x) + f(y) == f(y) + f(x)
    ensures FlatMap(a, f) == FlatMap(b, f)
  {
    if a == [] {
      assert |multiset(b)| == 0;
    } else {
      var j := MatchHead(a, b);
      var before, after, w := FlatMap(b[..j], f), FlatMap(b[j + 1..], f), f(a[0]);
      forall i | 0 <= i < j ensures f(b[..j][i]) + w == w + f(b[..j][i]) {
        assert b[i] in multiset(b);
        assert b[i] in a && a[0] in a;
      }
      FlatMapCommutesWith(b[..j], f, w);
      FlatMapAround(b, f, j);
      ConcatAssociative(before, w, after);
      ConcatAssociative(w, before, after);
      FlatMapCommutes(a[1..], RemoveAt(b, j), f);
    }
  }

  lemma {:induction false} FilterFlatMap<T, U(!new)>(s: seq<T>, f: T -> seq<U>, p: U -> bool, g: T -> seq<U>)
    requires forall x :: x in s ==> g(x) == Filter(f(x), p)
    ensures Filter(FlatMap(s, f), p) == FlatMap(s, g)
  {
    if s != [] {
      FilterFlatMap(s[1..], f, p, g);
      FilterConcat(f(s[0]), FlatMap(s[1..], f), p);
    }
  }
}
