/** The stable sort the compiled classifier relies on, by insertion. */
module Sorting {

  /** x goes after every element it does not precede. */
  function Insert<T>(s: seq<T>, x: T, less: (T, T) -> bool): (r: seq<T>)
    ensures |r| == |s| + 1
  {
    if s != [] && less(x, s[|s| - 1]) then Insert(s[..|s| - 1], x, less) + [s[|s| - 1]] else s + [x]
  }

  function SortStable<T>(s: seq<T>, less: (T, T) -> bool): (r: seq<T>)
    ensures |r| == |s|
  {
    if s == [] then [] else Insert(SortStable(s[..|s| - 1], less), s[|s| - 1], less)
  }

  ghost predicate WeakOrder<T(!new)>(less: (T, T) -> bool) {
    && (forall x, y :: less(x, y) ==> !less(y, x))
    && (forall x, y, z :: !less(y, x) && !less(z, y) ==> !less(z, x))
  }

  ghost predicate Sorted<T>(s: seq<T>, less: (T, T) -> bool) {
    forall i, j | 0 <= i < j < |s| :: !less(s[j], s[i])
  }

  lemma {:induction false} InsertSorts<T(!new)>(s: seq<T>, x: T, less: (T, T) -> bool)
    requires WeakOrder(less) && Sorted(s, less)
    ensures Sorted(Insert(s, x, less), less)
    ensures forall y :: y in Insert(s, x, less) <==> y in s || y == x
  {
    hide WeakOrder;
    if s != [] && less(x, s[|s| - 1]) {
      var n := |s| - 1;
      InsertSorts(s[..n], x, less);
      assert s == s[..n] + [s[n]];
      var r := Insert(s[..n], x, less);
      Asymmetric(less, x, s[n]);
      forall i | 0 <= i < |r| ensures !less(s[n], r[i]) {
        assert r[i] in r;
      }
    } else if s != [] {
      forall i | 0 <= i < |s| ensures !less(x, s[i]) {
        if i < |s| - 1 { Transitive(less, s[i], s[|s| - 1], x); }
      }
    }
  }

  lemma Asymmetric<T(!new)>(less: (T, T) -> bool, x: T, y: T)
    requires WeakOrder(less) && less(x, y)
    ensures !less(y, x)
  {
  }

  lemma Transitive<T(!new)>(less: (T, T) -> bool, x: T, y: T, z: T)
    requires WeakOrder(less) && !less(y, x) && !less(z, y)
    ensures !less(z, x)
  {
  }

  lemma {:induction false} SortSorts<T(!new)>(s: seq<T>, less: (T, T) -> bool)
    requires WeakOrder(less)
    ensures Sorted(SortStable(s, less), less)
    ensures forall y :: y in SortStable(s, less) <==> y in s
  {
    if s != [] {
      var n := |s| - 1;
      SortSorts(s[..n], less);
      InsertSorts(SortStable(s[..n], less), s[n], less);
      assert s == s[..n] + [s[n]];
    }
  }

  lemma {:induction false} InsertPermutes<T>(s: seq<T>, x: T, less: (T, T) -> bool)
    ensures multiset(Insert(s, x, less)) == multiset(s) + multiset{x}
  {
    if s != [] && less(x, s[|s| - 1]) {
      InsertPermutes(s[..|s| - 1], x, less);
      assert s == s[..|s| - 1] + [s[|s| - 1]];
    }
  }

  lemma {:induction false} SortPermutes<T>(s: seq<T>, less: (T, T) -> bool)
    ensures multiset(SortStable(s, less)) == multiset(s)
  {
    if s != [] {
      var init, last := s[..|s| - 1], s[|s| - 1];
      assert s == init + [last];
      SortPermutes(init, less);
      hide Insert;
      InsertPermutes(SortStable(init, less), last, less);
    }
  }
}
