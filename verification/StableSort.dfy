/** The library's stable `sort_by`, as a function, with the facts that pin it down. */
module StableSort {
  import opened Sequences

  ghost predicate TotalPreorder<T(!new)>(le: (T, T) -> bool) {
    && (forall x, y :: le(x, y) || le(y, x))
    && (forall x, y, z :: le(x, y) && le(y, z) ==> le(x, z))
  }

  ghost predicate Sorted<T(!new)>(s: seq<T>, le: (T, T) -> bool) {
    forall i, j :: 0 <= i < j < |s| ==> le(s[i], s[j])
  }

  /** No two distinct elements of `s` tie. */
  ghost predicate TieFree<T(!new)>(s: seq<T>, le: (T, T) -> bool) {
    forall x, y :: x in s && y in s && le(x, y) && le(y, x) ==> x == y
  }

  /** The elements that tie with `x`. */
  function TiesWith<T(!new)>(le: (T, T) -> bool, x: T): T -> bool {
    y => le(x, y) && le(y, x)
  }

  function Insert<T(!new)>(x: T, s: seq<T>, le: (T, T) -> bool): seq<T> {
    if s == [] then [x]
    else if le(x, s[0]) then [x] + s
    else [s[0]] + Insert(x, s[1..], le)
  }

  function Sort<T(!new)>(s: seq<T>, le: (T, T) -> bool): seq<T> {
    if s == [] then [] else Insert(s[0], Sort(s[1..], le), le)
  }

  lemma {:induction false} InsertKeepsElements<T(!new)>(x: T, s: seq<T>, le: (T, T) -> bool)
    ensures multiset(Insert(x, s, le)) == multiset{x} + multiset(s)
  {
    if s != [] && !le(x, s[0]) {
      InsertKeepsElements(x, s[1..], le);
      assert s == [s[0]] + s[1..];
    }
  }

  lemma {:induction false} InsertSorted<T(!new)>(x: T, s: seq<T>, le: (T, T) -> bool)
    requires TotalPreorder(le) && Sorted(s, le)
    ensures Sorted(Insert(x, s, le), le)
  {
    if s != [] && !le(x, s[0]) {
      InsertSorted(x, s[1..], le);
      var r := Insert(x, s[1..], le);
      InsertKeepsElements(x, s[1..], le);
      forall j | 0 <= j < |r| ensures le(s[0], r[j]) {
        assert r[j] in multiset(r);
        assert r[j] == x || r[j] in s[1..];
      }
    }
  }

  /** A sort loses and invents nothing. */
  lemma {:induction false} SortKeepsElements<T(!new)>(s: seq<T>, le: (T, T) -> bool)
    ensures multiset(Sort(s, le)) == multiset(s)
    ensures |Sort(s, le)| == |s|
    ensures forall x :: x in Sort(s, le) <==> x in s
  {
    if s != [] {
      SortKeepsElements(s[1..], le);
      InsertKeepsElements(s[0], Sort(s[1..], le), le);
      assert s == [s[0]] + s[1..];
    }
    assert |multiset(Sort(s, le))| == |multiset(s)|;
    forall x ensures x in Sort(s, le) <==> x in s {
      assert x in multiset(s) <==> x in s;
      assert x in multiset(Sort(s, le)) <==> x in Sort(s, le);
    }
  }

  lemma {:induction false} SortSorts<T(!new)>(s: seq<T>, le: (T, T) -> bool)
    requires TotalPreorder(le)
    ensures Sorted(Sort(s, le), le)
  {
    if s != [] {
      SortSorts(s[1..], le);
      InsertSorted(s[0], Sort(s[1..], le), le);
    }
  }

  lemma {:induction false} SortOfSorted<T(!new)>(s: seq<T>, le: (T, T) -> bool)
    requires Sorted(s, le)
    ensures Sort(s, le) == s
  {
    if s != [] {
      SortOfSorted(s[1..], le);
    }
  }

  lemma {:induction false} FilterInsert<T(!new)>(x: T, s: seq<T>, le: (T, T) -> bool, p: T -> bool)
    requires TotalPreorder(le) && Sorted(s, le)
    ensures Filter(Insert(x, s, le), p) == if p(x) then Insert(x, Filter(s, p), le) else Filter(s, p)
  {
    if s == [] {
    } else if le(x, s[0]) {
      FilterMembers(s, p);
      var kept := Filter(s, p);
      if kept != [] {
        assert kept[0] in kept;
        assert le(x, kept[0]);
      }
      assert ([x] + s)[1..] == s;
    } else {
      FilterInsert(x, s[1..], le, p);
      assert Insert(x, s, le)[1..] == Insert(x, s[1..], le);
      if p(s[0]) {
        assert Filter(s, p)[1..] == Filter(s[1..], p);
      }
    }
  }

  /** A stable sort commutes with every filter. */
  lemma {:induction false} SortCommutesWithFilter<T(!new)>(s: seq<T>, le: (T, T) -> bool, p: T -> bool)
    requires TotalPreorder(le)
    ensures Filter(Sort(s, le), p) == Sort(Filter(s, p), le)
  {
    if s != [] {
      SortCommutesWithFilter(s[1..], le, p);
      SortSorts(s[1..], le);
      FilterInsert(s[0], Sort(s[1..], le), le, p);
    }
  }

  /** Stability: elements that tie keep their original relative order. */
  lemma SortIsStable<T(!new)>(s: seq<T>, le: (T, T) -> bool, x: T)
    requires TotalPreorder(le)
    ensures Filter(Sort(s, le), TiesWith(le, x)) == Filter(s, TiesWith(le, x))
  {
    var tied := Filter(s, TiesWith(le, x));
    SortCommutesWithFilter(s, le, TiesWith(le, x));
    FilterMembers(s, TiesWith(le, x));
    forall i, j | 0 <= i < j < |tied| ensures le(tied[i], tied[j]) {
      assert tied[i] in tied && tied[j] in tied;
      assert le(tied[i], x) && le(x, tied[j]);
    }
    SortOfSorted(tied, le);
  }

  lemma {:induction false} SameTiesSameOrder<T(!new)>(a: seq<T>, b: seq<T>, le: (T, T) -> bool)
    requires TotalPreorder(le) && Sorted(a, le) && Sorted(b, le)
    requires forall x :: Filter(a, TiesWith(le, x)) == Filter(b, TiesWith(le, x))
    ensures a == b
  {
    forall x ensures x in a <==> x in b {
      FilterMembers(a, TiesWith(le, x));
      FilterMembers(b, TiesWith(le, x));
      assert TiesWith(le, x)(x);
    }
    assert |b| > 0 ==> b[0] in b;
    if a != [] {
      assert a[0] in b;
      assert le(a[0], b[0]) && le(b[0], a[0]);
      assert Filter(a, TiesWith(le, a[0]))[0] == a[0];
      assert Filter(b, TiesWith(le, a[0]))[0] == b[0];
      forall x ensures Filter(a[1..], TiesWith(le, x)) == Filter(b[1..], TiesWith(le, x)) {
        var p := TiesWith(le, x);
        assert Filter(a, p) == Filter(b, p);
        assert p(a[0]) == p(b[0]);
        if p(a[0]) {
          assert Filter(a, p)[1..] == Filter(a[1..], p);
          assert Filter(b, p)[1..] == Filter(b[1..], p);
        }
      }
      SameTiesSameOrder(a[1..], b[1..], le);
    }
  }

  /** There is only one stable sort: a sorted rearrangement that keeps every
      group of tied elements in its original order is the result of `Sort`. */
  lemma StableSortIsUnique<T(!new)>(s: seq<T>, r: seq<T>, le: (T, T) -> bool)
    requires TotalPreorder(le) && Sorted(r, le)
    requires forall x :: Filter(r, TiesWith(le, x)) == Filter(s, TiesWith(le, x))
    ensures r == Sort(s, le)
  {
    SortSorts(s, le);
    forall x ensures Filter(r, TiesWith(le, x)) == Filter(Sort(s, le), TiesWith(le, x)) {
      SortIsStable(s, le, x);
    }
    SameTiesSameOrder(r, Sort(s, le), le);
  }

  lemma SortedHeadsAgree<T(!new)>(a: seq<T>, b: seq<T>, le: (T, T) -> bool)
    requires TotalPreorder(le) && Sorted(a, le) && Sorted(b, le) && a != []
    requires multiset(a) == multiset(b) && TieFree(a, le)
    ensures b != [] && a[0] == b[0]
  {
    assert |a| == |multiset(a)| == |multiset(b)| == |b|;
    assert a[0] in multiset(b) && b[0] in multiset(a);
    var i :| 0 <= i < |b| && b[i] == a[0];
    var j :| 0 <= j < |a| && a[j] == b[0];
    assert le(b[0], b[0]) && le(a[0], a[0]);
    assert le(a[0], b[0]) && le(b[0], a[0]);
  }

  lemma {:induction false} SortedPermutationsAgree<T(!new)>(a: seq<T>, b: seq<T>, le: (T, T) -> bool)
    requires TotalPreorder(le) && Sorted(a, le) && Sorted(b, le)
    requires multiset(a) == multiset(b) && TieFree(a, le)
    ensures a == b
  {
    if a == [] {
      assert |multiset(b)| == 0;
    } else {
      SortedHeadsAgree(a, b, le);
      SameRest(a, 0, b, 0);
      assert RemoveAt(a, 0) == a[1..] && RemoveAt(b, 0) == b[1..];
      SortedPermutationsAgree(a[1..], b[1..], le);
    }
  }

  /** Without ties the sorted order does not depend on the input order. */
  lemma SortIgnoresInputOrder<T(!new)>(a: seq<T>, b: seq<T>, le: (T, T) -> bool)
    requires TotalPreorder(le) && multiset(a) == multiset(b) && TieFree(a, le)
    ensures Sort(a, le) == Sort(b, le)
  {
    SortKeepsElements(a, le);
    SortKeepsElements(b, le);
    SortSorts(a, le);
    SortSorts(b, le);
    SortedPermutationsAgree(Sort(a, le), Sort(b, le), le);
  }

  // ----- the first match in a sorted sequence

  /** `s[k]` satisfies `p`, is below every element that does, and comes before those it ties with. */
  ghost predicate IsFirstLeast<T(!new)>(s: seq<T>, le: (T, T) -> bool, p: T -> bool, k: nat) {
    && k < |s| && p(s[k])
    && (forall j :: 0 <= j < |s| && p(s[j]) ==> le(s[k], s[j]))
    && (forall j :: 0 <= j < k && p(s[j]) ==> !le(s[j], s[k]))
  }

  lemma {:induction false} FirstInsert<T(!new)>(x: T, s: seq<T>, le: (T, T) -> bool, p: T -> bool)
    requires TotalPreorder(le) && Sorted(s, le)
    ensures First(Insert(x, s, le), p)
         == if p(x) && (First(s, p).None? || le(x, First(s, p).value)) then Some(x) else First(s, p)
  {
    if s == [] {
    } else if le(x, s[0]) {
      var r := First(s, p);
      if r.Some? {
        var i :| 0 <= i < |s| && s[i] == r.value;
        assert le(x, s[i]);
      }
    } else {
      FirstInsert(x, s[1..], le, p);
    }
  }

  /** Searching the sorted sequence finds the first least element that satisfies `p`. */
  lemma {:induction false} FirstOfSort<T(!new)>(s: seq<T>, le: (T, T) -> bool, p: T -> bool) returns (k: nat)
    requires TotalPreorder(le) && First(s, p).Some?
    ensures IsFirstLeast(s, le, p, k)
    ensures First(Sort(s, le), p) == Some(s[k])
  {
    var rest := Sort(s[1..], le);
    SortSorts(s[1..], le);
    FirstInsert(s[0], rest, le, p);
    SortKeepsElements(s[1..], le);
    if First(s[1..], p).None? {
      k := 0;
      assert forall j :: 0 < j < |s| ==> s[j] == s[1..][j - 1] && s[j] in s[1..];
      assert le(s[0], s[0]);
    } else {
      k := FirstOfSort(s[1..], le, p);
      FirstLeastCons(s, le, p, k);
      k := if p(s[0]) && le(s[0], s[k + 1]) then 0 else k + 1;
    }
  }

  lemma FirstLeastCons<T(!new)>(s: seq<T>, le: (T, T) -> bool, p: T -> bool, k: nat)
    requires TotalPreorder(le) && s != [] && IsFirstLeast(s[1..], le, p, k)
    ensures if p(s[0]) && le(s[0], s[k + 1]) then IsFirstLeast(s, le, p, 0) else IsFirstLeast(s, le, p, k + 1)
  {
    forall j | 0 < j < |s| && p(s[j]) ensures le(s[k + 1], s[j]) {
      assert s[j] == s[1..][j - 1];
    }
    forall j | 0 < j < k + 1 && p(s[j]) ensures !le(s[j], s[k + 1]) {
      assert s[j] == s[1..][j - 1];
    }
    assert le(s[0], s[0]);
  }
}
