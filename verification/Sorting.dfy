/** sort.SliceStable as a function, and what a stable sort by a total preorder
    guarantees: a sorted permutation that keeps equivalent elements in order. */
module Sorting {

  ghost predicate TotalPreorder<T(!new)>(le: (T, T) -> bool) {
    && (forall a, b :: le(a, b) || le(b, a))
    && (forall a, b, c :: le(a, b) && le(b, c) ==> le(a, c))
  }

  ghost predicate Sorted<T>(s: seq<T>, le: (T, T) -> bool) {
    forall i, j :: 0 <= i < j < |s| ==> le(s[i], s[j])
  }

  /** Inserts x behind every element that may stay before it. */
  function Insert<T>(s: seq<T>, x: T, le: (T, T) -> bool): seq<T> {
    if s == [] || le(s[|s| - 1], x) then s + [x]
    else Insert(s[..|s| - 1], x, le) + [s[|s| - 1]]
  }

  function StableSort<T>(s: seq<T>, le: (T, T) -> bool): seq<T> {
    if s == [] then [] else Insert(StableSort(s[..|s| - 1], le), s[|s| - 1], le)
  }

  lemma {:induction false} InsertPermutes<T>(s: seq<T>, x: T, le: (T, T) -> bool)
    ensures multiset(Insert(s, x, le)) == multiset(s) + multiset{x}
  {
    if !(s == [] || le(s[|s| - 1], x)) {
      InsertPermutes(s[..|s| - 1], x, le);
      assert s == s[..|s| - 1] + [s[|s| - 1]];
    }
  }

  lemma {:induction false} SortPermutes<T>(s: seq<T>, le: (T, T) -> bool)
    ensures multiset(StableSort(s, le)) == multiset(s)
  {
    if s != [] {
      SortPermutes(s[..|s| - 1], le);
      InsertPermutes(StableSort(s[..|s| - 1], le), s[|s| - 1], le);
      assert s == s[..|s| - 1] + [s[|s| - 1]];
    }
  }

  lemma {:induction false} InsertSorts<T(!new)>(s: seq<T>, x: T, le: (T, T) -> bool)
    requires TotalPreorder(le) && Sorted(s, le)
    ensures Sorted(Insert(s, x, le), le)
  {
    if s == [] {
    } else if le(s[|s| - 1], x) {
      forall i | 0 <= i < |s| ensures le(s[i], x) {
        assert le(s[i], s[|s| - 1]);
      }
    } else {
      var front, last := s[..|s| - 1], s[|s| - 1];
      InsertSorts(front, x, le);
      InsertPermutes(front, x, le);
      var r := Insert(front, x, le);
      forall i | 0 <= i < |r| ensures le(r[i], last) {
        assert r[i] in multiset(r);
        assert r[i] in front || r[i] == x;
      }
    }
  }

  lemma {:induction false} SortSorts<T(!new)>(s: seq<T>, le: (T, T) -> bool)
    requires TotalPreorder(le)
    ensures Sorted(StableSort(s, le), le)
  {
    if s != [] {
      SortSorts(s[..|s| - 1], le);
      InsertSorts(StableSort(s[..|s| - 1], le), s[|s| - 1], le);
    }
  }

  /** Sorting what is sorted already changes nothing. */
  lemma {:induction false} SortOfSorted<T>(s: seq<T>, le: (T, T) -> bool)
    requires Sorted(s, le)
    ensures StableSort(s, le) == s
  {
    if s != [] {
      var front, last := s[..|s| - 1], s[|s| - 1];
      assert forall i, j :: 0 <= i < j < |front| ==> le(front[i], front[j]) by {
        assert forall i :: 0 <= i < |front| ==> front[i] == s[i];
      }
      SortOfSorted(front, le);
      InsertLast(front, last, le);
      assert s == front + [last];
    }
  }

  lemma InsertLast<T>(front: seq<T>, last: T, le: (T, T) -> bool)
    requires front == [] || le(front[|front| - 1], last)
    ensures Insert(front, last, le) == front + [last]
  {}

  function Filter<T>(s: seq<T>, p: T -> bool): seq<T> {
    if s == [] then []
    else Filter(s[..|s| - 1], p) + (if p(s[|s| - 1]) then [s[|s| - 1]] else [])
  }

  lemma {:induction false} FilterMembers<T(!new)>(s: seq<T>, p: T -> bool)
    ensures forall x :: x in Filter(s, p) <==> x in s && p(x)
  {
    if s != [] {
      FilterMembers(s[..|s| - 1], p);
      assert s == s[..|s| - 1] + [s[|s| - 1]];
    }
  }

  lemma {:induction false} FilterConcat<T>(a: seq<T>, b: seq<T>, p: T -> bool)
    ensures Filter(a + b, p) == Filter(a, p) + Filter(b, p)
  {
    if b == [] {
      assert a + b == a;
    } else {
      assert (a + b)[..|a + b| - 1] == a + b[..|b| - 1];
      FilterConcat(a, b[..|b| - 1], p);
    }
  }

  lemma {:induction false} FilterCounts<T(!new)>(s: seq<T>, p: T -> bool)
    ensures forall x :: multiset(Filter(s, p))[x] == if p(x) then multiset(s)[x] else 0
  {
    if s != [] {
      FilterCounts(s[..|s| - 1], p);
      assert s == s[..|s| - 1] + [s[|s| - 1]];
    }
  }

  ghost predicate OneClass<T(!new)>(p: T -> bool, le: (T, T) -> bool) {
    forall a, b :: p(a) && p(b) ==> le(a, b)
  }

  lemma {:induction false} InsertStable<T(!new)>(s: seq<T>, x: T, le: (T, T) -> bool, p: T -> bool)
    requires OneClass(p, le)
    ensures Filter(Insert(s, x, le), p) == Filter(s, p) + Filter([x], p)
  {
    var fx := Filter([x], p);
    FilterConcat(s, [x], p);
    if !(s == [] || le(s[|s| - 1], x)) {
      var front, last := s[..|s| - 1], s[|s| - 1];
      InsertStable(front, x, le, p);
      FilterConcat(Insert(front, x, le), [last], p);
      FilterConcat(front, [last], p);
      assert s == front + [last];
      PassEachOther(Filter(front, p), fx, Filter([last], p), p(x), p(last));
    }
  }

  /** Of x and the element it passes, at most one is in the class. */
  lemma PassEachOther<T>(front: seq<T>, fx: seq<T>, fl: seq<T>, px: bool, pl: bool)
    requires (px || fx == []) && (pl || fl == []) && !(px && pl)
    ensures (front + fx) + fl == (front + fl) + fx
  {}

  /** Stability: within one class of equivalent elements nothing moves. */
  lemma {:induction false} SortStable<T(!new)>(s: seq<T>, le: (T, T) -> bool, p: T -> bool)
    requires OneClass(p, le)
    ensures Filter(StableSort(s, le), p) == Filter(s, p)
  {
    if s != [] {
      var front, last := s[..|s| - 1], s[|s| - 1];
      SortStable(front, le, p);
      InsertStable(StableSort(front, le), last, le, p);
      FilterConcat(front, [last], p);
      assert s == front + [last];
    }
  }

  /** On the elements of s, equivalent means equal. */
  ghost predicate Separates<T>(s: seq<T>, le: (T, T) -> bool) {
    forall a, b :: a in s && b in s && le(a, b) && le(b, a) ==> a == b
  }

  /** A sorted arrangement is unique when the order separates the elements. */
  lemma {:induction false} SortedUnique<T(!new)>(a: seq<T>, b: seq<T>, le: (T, T) -> bool)
    requires Sorted(a, le) && Sorted(b, le) && TotalPreorder(le)
    requires multiset(a) == multiset(b) && Separates(a, le)
    ensures a == b
  {
    assert |a| == |multiset(a)| == |multiset(b)| == |b|;
    if a != [] {
      PrefixesAgree(a, b, le);
      SortedUnique(a[..|a| - 1], b[..|b| - 1], le);
      assert a == a[..|a| - 1] + [a[|a| - 1]] && b == b[..|b| - 1] + [b[|b| - 1]];
    }
  }

  lemma PrefixesAgree<T(!new)>(a: seq<T>, b: seq<T>, le: (T, T) -> bool)
    requires Sorted(a, le) && Sorted(b, le) && TotalPreorder(le)
    requires multiset(a) == multiset(b) && Separates(a, le) && a != [] && b != []
    ensures a[|a| - 1] == b[|b| - 1] && multiset(a[..|a| - 1]) == multiset(b[..|b| - 1])
    ensures Sorted(a[..|a| - 1], le) && Sorted(b[..|b| - 1], le) && Separates(a[..|a| - 1], le)
  {
    LastsAgree(a, b, le);
    DropLast(a);
    DropLast(b);
    PrefixSorted(a, le);
    PrefixSorted(b, le);
  }

  lemma LastsAgree<T(!new)>(a: seq<T>, b: seq<T>, le: (T, T) -> bool)
    requires Sorted(a, le) && Sorted(b, le) && TotalPreorder(le)
    requires multiset(a) == multiset(b) && Separates(a, le) && a != [] && b != []
    ensures a[|a| - 1] == b[|b| - 1]
  {
    var x, y := a[|a| - 1], b[|b| - 1];
    assert x in multiset(b) && y in multiset(a);
    LastIsGreatest(a, y, le);
    LastIsGreatest(b, x, le);
  }

  lemma PrefixSorted<T>(s: seq<T>, le: (T, T) -> bool)
    requires Sorted(s, le) && s != []
    ensures Sorted(s[..|s| - 1], le)
    ensures Separates(s, le) ==> Separates(s[..|s| - 1], le)
  {}

  lemma LastIsGreatest<T(!new)>(s: seq<T>, x: T, le: (T, T) -> bool)
    requires Sorted(s, le) && TotalPreorder(le) && x in multiset(s)
    ensures |s| > 0 && x in s && le(x, s[|s| - 1])
  {
    var i :| 0 <= i < |s| && s[i] == x;
    assert le(x, x);
  }

  lemma DropLast<T>(s: seq<T>)
    requires s != []
    ensures multiset(s[..|s| - 1]) == multiset(s) - multiset{s[|s| - 1]}
  {
    assert s == s[..|s| - 1] + [s[|s| - 1]];
  }

  /** Hence the input's arrangement does not matter. */
  lemma SortPermutationInvariant<T(!new)>(a: seq<T>, b: seq<T>, le: (T, T) -> bool)
    requires TotalPreorder(le) && multiset(a) == multiset(b) && Separates(a, le)
    ensures StableSort(a, le) == StableSort(b, le)
  {
    SortSorts(a, le);
    SortSorts(b, le);
    SortPermutes(a, le);
    SortPermutes(b, le);
    forall x | x in StableSort(a, le) ensures x in a {
      assert x in multiset(StableSort(a, le));
    }
    SortedUnique(StableSort(a, le), StableSort(b, le), le);
  }

  // ---------- lists without duplicates ----------

  ghost predicate Distinct<T>(s: seq<T>) {
    forall i, j :: 0 <= i < j < |s| ==> s[i] != s[j]
  }

  lemma OccursTwice<T>(s: seq<T>, i: nat, j: nat)
    requires i < j < |s| && s[i] == s[j]
    ensures multiset(s)[s[i]] >= 2
  {
    assert s == s[..j] + s[j..];
    assert s[i] in s[..j] && s[j] in s[j..];
  }

  lemma {:induction false} OccursOnce<T>(s: seq<T>, x: T)
    requires Distinct(s)
    ensures multiset(s)[x] <= 1
  {
    if s != [] {
      var front, last := s[..|s| - 1], s[|s| - 1];
      OccursOnce(front, x);
      assert s == front + [last];
      assert last !in front;
    }
  }

  lemma DistinctPermutes<T>(a: seq<T>, b: seq<T>)
    requires multiset(a) == multiset(b) && Distinct(a)
    ensures Distinct(b)
  {
    forall i, j | 0 <= i < j < |b| ensures b[i] != b[j] {
      if b[i] == b[j] {
        OccursOnce(a, b[i]);
        OccursTwice(b, i, j);
      }
    }
  }
}
