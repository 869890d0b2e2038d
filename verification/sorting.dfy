/** `Array.prototype.sort` with a comparator: a stable sort that only looks at
    the sign of the comparator's result. Modelled as an insertion sort that
    places each new element after every earlier element it does not strictly
    precede. */
module Sorting {
  import opened Seqs

  /** The comparator behaves like a consistent ordering: its sign flips when
      the arguments are swapped, and "not after" is transitive. */
  ghost predicate TotalPreorder<T(!new)>(cmp: (T, T) -> int) {
    (forall a, b :: cmp(a, b) > 0 <==> cmp(b, a) < 0) &&
    (forall a, b, c :: cmp(a, b) <= 0 && cmp(b, c) <= 0 ==> cmp(a, c) <= 0)
  }

  /** No element is placed after one it should precede. */
  ghost predicate Sorted<T>(s: seq<T>, cmp: (T, T) -> int) {
    forall i, j :: 0 <= i < j < |s| ==> cmp(s[i], s[j]) <= 0
  }

  /** The elements the comparator cannot tell apart from `z`. */
  function TiesWith<T>(cmp: (T, T) -> int, z: T): T -> bool {
    (y: T) => cmp(z, y) == 0
  }

  /** Inserts `x` after every element of `s` that does not compare greater
      than it, scanning from the back. */
  function Insert<T>(s: seq<T>, x: T, cmp: (T, T) -> int): (r: seq<T>)
    ensures |r| == |s| + 1
    ensures multiset(r) == multiset(s) + multiset{x}
  {
    if s == [] then [x]
    else if cmp(s[|s| - 1], x) > 0 then
      assert s == s[..|s| - 1] + [s[|s| - 1]];
      Insert(s[..|s| - 1], x, cmp) + [s[|s| - 1]]
    else s + [x]
  }

  /** The sorted list: each element in turn inserted into the sorted prefix
      before it. */
  function Sort<T>(s: seq<T>, cmp: (T, T) -> int): (r: seq<T>)
    ensures |r| == |s|
    ensures multiset(r) == multiset(s)
  {
    if s == [] then []
    else
      assert s == s[..|s| - 1] + [s[|s| - 1]];
      Insert(Sort(s[..|s| - 1], cmp), s[|s| - 1], cmp)
  }

  lemma {:induction false} InsertSorted<T(!new)>(s: seq<T>, x: T, cmp: (T, T) -> int)
    requires TotalPreorder(cmp)
    requires Sorted(s, cmp)
    ensures Sorted(Insert(s, x, cmp), cmp)
    decreases |s|
  {
    if s != [] {
      var init, last := s[..|s| - 1], s[|s| - 1];
      if cmp(last, x) > 0 {
        InsertSorted(init, x, cmp);
        InsertBelow(init, x, last, cmp);
        SortedSnoc(Insert(init, x, cmp), last, cmp);
      } else {
        SortedSnocAfterLast(s, x, cmp);
      }
    }
  }

  /** Appending an element no earlier element exceeds keeps a list sorted. */
  lemma SortedSnoc<T>(s: seq<T>, x: T, cmp: (T, T) -> int)
    requires Sorted(s, cmp)
    requires forall i :: 0 <= i < |s| ==> cmp(s[i], x) <= 0
    ensures Sorted(s + [x], cmp)
  {
  }

  /** Appending an element that does not precede the last one keeps a
      sorted list sorted. */
  lemma SortedSnocAfterLast<T(!new)>(s: seq<T>, x: T, cmp: (T, T) -> int)
    requires TotalPreorder(cmp)
    requires s != [] && Sorted(s, cmp)
    requires cmp(s[|s| - 1], x) <= 0
    ensures Sorted(s + [x], cmp)
  {
    forall i | 0 <= i < |s|
      ensures cmp(s[i], x) <= 0
    {
      Reflexive(cmp, s[i]);
      assert cmp(s[i], s[|s| - 1]) <= 0;
    }
    SortedSnoc(s, x, cmp);
  }

  lemma Reflexive<T(!new)>(cmp: (T, T) -> int, a: T)
    requires TotalPreorder(cmp)
    ensures cmp(a, a) == 0
  {
  }

  /** Inserting an element below `last` into a list below `last` gives a list
      below `last`. */
  lemma InsertBelow<T(!new)>(init: seq<T>, x: T, last: T, cmp: (T, T) -> int)
    requires TotalPreorder(cmp)
    requires forall k :: 0 <= k < |init| ==> cmp(init[k], last) <= 0
    requires cmp(last, x) > 0
    ensures forall i :: 0 <= i < |Insert(init, x, cmp)| ==> cmp(Insert(init, x, cmp)[i], last) <= 0
  {
    var front := Insert(init, x, cmp);
    forall i | 0 <= i < |front|
      ensures cmp(front[i], last) <= 0
    {
      assert front[i] in multiset(front);
      if front[i] != x {
        assert front[i] in multiset(init);
        var k :| 0 <= k < |init| && init[k] == front[i];
      }
    }
  }

  /** The sort orders its result by the comparator. */
  lemma {:induction false} SortSorted<T(!new)>(s: seq<T>, cmp: (T, T) -> int)
    requires TotalPreorder(cmp)
    ensures Sorted(Sort(s, cmp), cmp)
    decreases |s|
  {
    if s != [] {
      SortSorted(s[..|s| - 1], cmp);
      InsertSorted(Sort(s[..|s| - 1], cmp), s[|s| - 1], cmp);
    }
  }

  /** Inserting `x` puts it after everything tied with it. */
  lemma {:induction false} InsertStable<T(!new)>(s: seq<T>, x: T, cmp: (T, T) -> int, z: T)
    requires TotalPreorder(cmp)
    ensures Filter(Insert(s, x, cmp), TiesWith(cmp, z))
         == Filter(s, TiesWith(cmp, z)) + Filter([x], TiesWith(cmp, z))
    decreases |s|
  {
    if s != [] {
      var init, last := s[..|s| - 1], s[|s| - 1];
      assert s == init + [last];
      if cmp(last, x) > 0 {
        InsertStable(init, x, cmp, z);
        TiesExclusive(cmp, z, x, last);
        SwapUntied(init, Insert(init, x, cmp), x, last, TiesWith(cmp, z));
        assert Insert(s, x, cmp) == Insert(init, x, cmp) + [last];
      } else {
        assert Insert(s, x, cmp) == s + [x];
        FilterConcat(s, [x], TiesWith(cmp, z));
      }
    }
  }

  /** Two elements one of which strictly precedes the other are not both
      tied with the same `z`. */
  lemma TiesExclusive<T(!new)>(cmp: (T, T) -> int, z: T, x: T, last: T)
    requires TotalPreorder(cmp)
    requires cmp(last, x) > 0
    ensures !(TiesWith(cmp, z)(x) && TiesWith(cmp, z)(last))
  {
  }

  /** The filter step of `InsertStable` when `x` moves in front of `last`. */
  lemma SwapUntied<T>(init: seq<T>, front: seq<T>, x: T, last: T, e: T -> bool)
    requires Filter(front, e) == Filter(init, e) + Filter([x], e)
    requires !(e(x) && e(last))
    ensures Filter(front + [last], e) == Filter(init + [last], e) + Filter([x], e)
  {
    FilterConcat(init, [last], e);
    FilterConcat(front, [last], e);
    if e(x) {
      assert Filter([last], e) == [];
    } else {
      assert Filter([x], e) == [];
    }
  }

  /** Stability: the elements tied with any `z` keep their input order. */
  lemma {:induction false} SortStable<T(!new)>(s: seq<T>, cmp: (T, T) -> int, z: T)
    requires TotalPreorder(cmp)
    ensures Filter(Sort(s, cmp), TiesWith(cmp, z)) == Filter(s, TiesWith(cmp, z))
    decreases |s|
  {
    if s != [] {
      var init, last := s[..|s| - 1], s[|s| - 1];
      assert s == init + [last];
      SortStable(init, cmp, z);
      InsertStable(Sort(init, cmp), last, cmp, z);
      FilterConcat(init, [last], TiesWith(cmp, z));
    }
  }

  /** A comparator that never separates anything leaves the order unchanged. */
  lemma {:induction false} SortAllTied<T>(s: seq<T>, cmp: (T, T) -> int)
    requires forall a, b :: cmp(a, b) == 0
    ensures Sort(s, cmp) == s
    decreases |s|
  {
    if s != [] {
      assert s == s[..|s| - 1] + [s[|s| - 1]];
      SortAllTied(s[..|s| - 1], cmp);
    }
  }
}
