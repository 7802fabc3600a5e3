/** Stable sorting by a total preorder: what `list.sort` with a key promises. */
module StableSorting {

  ghost predicate IsPreorder<T(!new)>(le: (T, T) -> bool) {
    && (forall a, b :: le(a, b) || le(b, a))
    && (forall a, b, c :: le(a, b) && le(b, c) ==> le(a, c))
  }

  ghost predicate IsSorted<T>(s: seq<T>, le: (T, T) -> bool) {
    forall i, j :: 0 <= i < j < |s| ==> le(s[i], s[j])
  }

  /** Place `a` behind everything that does not sort after it. */
  function Insert<T>(s: seq<T>, a: T, le: (T, T) -> bool): (r: seq<T>)
    ensures |r| == |s| + 1
  {
    if |s| == 0 || le(s[|s| - 1], a) then s + [a]
    else Insert(s[..|s| - 1], a, le) + [s[|s| - 1]]
  }

  function Sort<T>(s: seq<T>, le: (T, T) -> bool): (r: seq<T>)
    ensures |r| == |s|
  {
    if |s| == 0 then [] else Insert(Sort(s[..|s| - 1], le), s[|s| - 1], le)
  }

  function Filter<T>(s: seq<T>, p: T -> bool): (r: seq<T>)
    ensures |r| <= |s|
    ensures forall x :: x in r ==> x in s && p(x)
  {
    if |s| == 0 then [] else Filter(s[..|s| - 1], p) + if p(s[|s| - 1]) then [s[|s| - 1]] else []
  }

  lemma {:induction false} InsertMembers<T>(s: seq<T>, a: T, le: (T, T) -> bool)
    ensures multiset(Insert(s, a, le)) == multiset(s) + multiset{a}
    ensures forall x :: x in Insert(s, a, le) <==> x in s || x == a
  {
    if !(|s| == 0 || le(s[|s| - 1], a)) {
      InsertMembers(s[..|s| - 1], a, le);
      assert s == s[..|s| - 1] + [s[|s| - 1]];
    }
  }

  lemma {:induction false} InsertSorted<T(!new)>(s: seq<T>, a: T, le: (T, T) -> bool)
    requires IsPreorder(le) && IsSorted(s, le)
    ensures IsSorted(Insert(s, a, le), le)
  {
    if |s| == 0 {
    } else if le(s[|s| - 1], a) {
      var last := s[|s| - 1];
      forall i | 0 <= i < |s| ensures le(s[i], a) {
        assert i < |s| - 1 ==> le(s[i], last);
      }
    } else {
      var init, last := s[..|s| - 1], s[|s| - 1];
      InsertSorted(init, a, le);
      InsertMembers(init, a, le);
      var r := Insert(init, a, le);
      forall i | 0 <= i < |r| ensures le(r[i], last) {
        assert r[i] in r;
        assert r[i] in init || r[i] == a;
      }
    }
  }

  /** Sorting orders the elements and keeps each as often as it occurs. */
  lemma {:induction false} SortSorts<T(!new)>(s: seq<T>, le: (T, T) -> bool)
    requires IsPreorder(le)
    ensures IsSorted(Sort(s, le), le)
    ensures multiset(Sort(s, le)) == multiset(s)
    ensures forall x :: x in Sort(s, le) <==> x in s
  {
    if |s| > 0 {
      var init, last := s[..|s| - 1], s[|s| - 1];
      SortSorts(init, le);
      InsertSorted(Sort(init, le), last, le);
      InsertMembers(Sort(init, le), last, le);
      assert s == init + [last];
    }
  }

  lemma InsertAtEnd<T>(s: seq<T>, a: T, le: (T, T) -> bool)
    requires |s| == 0 || le(s[|s| - 1], a)
    ensures Insert(s, a, le) == s + [a]
  {
  }

  lemma {:induction false} SortOfSorted<T(!new)>(s: seq<T>, le: (T, T) -> bool)
    requires IsSorted(s, le)
    ensures Sort(s, le) == s
  {
    if |s| > 0 {
      var init, last := s[..|s| - 1], s[|s| - 1];
      hide Insert;
      SortOfSorted(init, le);
      assert |init| > 0 ==> init[|init| - 1] == s[|s| - 2];
      InsertAtEnd(init, last, le);
      assert s == init + [last];
    }
  }

  lemma FilterStep<T>(s: seq<T>, a: T, p: T -> bool)
    ensures Filter(s + [a], p) == Filter(s, p) + if p(a) then [a] else []
  {
    assert (s + [a])[..|s|] == s;
  }

  lemma {:induction false} FilterNothing<T>(s: seq<T>, p: T -> bool)
    requires forall x :: x in s ==> !p(x)
    ensures Filter(s, p) == []
  {
    if |s| > 0 {
      FilterNothing(s[..|s| - 1], p);
    }
  }

  /** Filtering a sorted sequence from some point of the order on commutes with insertion. */
  lemma {:induction false} FilterInsert<T(!new)>(s: seq<T>, a: T, le: (T, T) -> bool, p: T -> bool)
    requires IsPreorder(le) && IsSorted(s, le)
    requires forall x, y :: p(x) && le(x, y) ==> p(y)
    ensures Filter(Insert(s, a, le), p) == if p(a) then Insert(Filter(s, p), a, le) else Filter(s, p)
  {
    hide Filter;
    if |s| == 0 {
      FilterStep(s, a, p);
    } else if le(s[|s| - 1], a) {
      FilterStep(s, a, p);
      if p(a) {
        KeptLast(s, a, le, p);
        InsertAtEnd(Filter(s, p), a, le);
      }
    } else {
      var init, last := s[..|s| - 1], s[|s| - 1];
      FilterInsert(init, a, le, p);
      FilterStep(Insert(init, a, le), last, p);
      FilterStep(init, last, p);
      assert s == init + [last];
      assert le(a, last);
      if p(a) {
        var f := Filter(init, p);
        assert (f + [last])[..|f|] == f;
      }
    }
  }

  /** What is kept of a sorted sequence does not sort after an element its last one precedes. */
  lemma KeptLast<T(!new)>(s: seq<T>, a: T, le: (T, T) -> bool, p: T -> bool)
    requires IsPreorder(le) && IsSorted(s, le) && |s| > 0 && le(s[|s| - 1], a)
    ensures var f := Filter(s, p); |f| == 0 || le(f[|f| - 1], a)
  {
    var f, last := Filter(s, p), s[|s| - 1];
    if |f| > 0 {
      var x := f[|f| - 1];
      assert x in s;
      var i :| 0 <= i < |s| && s[i] == x;
      assert i < |s| - 1 ==> le(x, last);
    }
  }

  lemma {:induction false} ClassInsert<T(!new)>(s: seq<T>, a: T, le: (T, T) -> bool, p: T -> bool)
    requires forall x, y :: p(x) && p(y) ==> le(x, y)
    ensures Filter(Insert(s, a, le), p) == Filter(s + [a], p)
  {
    hide Filter;
    FilterStep(s, a, p);
    if !(|s| == 0 || le(s[|s| - 1], a)) {
      var init, last := s[..|s| - 1], s[|s| - 1];
      ClassInsert(init, a, le, p);
      FilterStep(init, a, p);
      FilterStep(init, last, p);
      FilterStep(Insert(init, a, le), last, p);
      assert s == init + [last];
      assert !(p(last) && p(a));
    }
  }

  /** Sorting is stable: elements that the order does not separate keep their relative order. */
  lemma {:induction false} SortIsStable<T(!new)>(s: seq<T>, le: (T, T) -> bool, p: T -> bool)
    requires forall x, y :: p(x) && p(y) ==> le(x, y)
    ensures Filter(Sort(s, le), p) == Filter(s, p)
  {
    if |s| > 0 {
      var init, last := s[..|s| - 1], s[|s| - 1];
      SortIsStable(init, le, p);
      ClassInsert(Sort(init, le), last, le, p);
      FilterStep(Sort(init, le), last, p);
    }
  }
}
