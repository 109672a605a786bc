/** `sorted` on any list with an order that is total: the same elements, in order. */
module Sorting {

  ghost predicate IsTotal<T(!new)>(atMost: (T, T) -> bool) {
    && (forall a, b :: atMost(a, b) || atMost(b, a))
    && (forall a, b, c :: atMost(a, b) && atMost(b, c) ==> atMost(a, c))
  }

  predicate Sorted<T>(s: seq<T>, atMost: (T, T) -> bool) {
    forall i, j | 0 <= i < j < |s| :: atMost(s[i], s[j])
  }

  function Insert<T>(x: T, s: seq<T>, atMost: (T, T) -> bool): (r: seq<T>)
    ensures multiset(r) == multiset(s) + multiset{x}
  {
    if s == [] || atMost(x, s[0]) then [x] + s
    else
      assert s == [s[0]] + s[1..];
      [s[0]] + Insert(x, s[1..], atMost)
  }

  function Sort<T>(s: seq<T>, atMost: (T, T) -> bool): (r: seq<T>)
    ensures multiset(r) == multiset(s)
  {
    if s == [] then [] else
      assert s == [s[0]] + s[1..];
      Insert(s[0], Sort(s[1..], atMost), atMost)
  }

  lemma SameMembers<T>(a: seq<T>, b: seq<T>)
    requires multiset(a) == multiset(b)
    ensures forall x :: x in a <==> x in b
  {
    forall x ensures x in a <==> x in b {
      assert x in a <==> x in multiset(a);
      assert x in b <==> x in multiset(b);
    }
  }

  lemma {:induction false} InsertKeepsSorted<T(!new)>(x: T, s: seq<T>, atMost: (T, T) -> bool)
    requires IsTotal(atMost) && Sorted(s, atMost)
    ensures Sorted(Insert(x, s, atMost), atMost)
  {
    if s != [] && !atMost(x, s[0]) {
      var rest := Insert(x, s[1..], atMost);
      InsertKeepsSorted(x, s[1..], atMost);
      SameMembers(rest, s[1..] + [x]);
      forall j | 0 <= j < |rest| ensures atMost(s[0], rest[j]) {
        assert rest[j] in s[1..] + [x];
      }
    } else if s != [] {
      assert forall j | 0 <= j < |s| :: atMost(s[0], s[j]);
    }
  }

  lemma {:induction false} SortSorts<T(!new)>(s: seq<T>, atMost: (T, T) -> bool)
    requires IsTotal(atMost)
    ensures Sorted(Sort(s, atMost), atMost)
  {
    if s == [] {
    } else {
      SortSorts(s[1..], atMost);
      InsertKeepsSorted(s[0], Sort(s[1..], atMost), atMost);
    }
  }

  // ---------------------------------------------------------------- what order does not change

  ghost predicate IsSymmetric<T(!new)>(related: (T, T) -> bool) {
    forall a, b :: related(a, b) == related(b, a)
  }

  predicate Pairwise<T>(s: seq<T>, related: (T, T) -> bool) {
    forall i, j | 0 <= i < j < |s| :: related(s[i], s[j])
  }

  predicate WithAll<T(==)>(x: T, s: seq<T>, related: (T, T) -> bool) {
    forall y <- s :: related(x, y)
  }

  lemma PairwiseCons<T>(x: T, s: seq<T>, related: (T, T) -> bool)
    ensures Pairwise([x] + s, related) <==> Pairwise(s, related) && WithAll(x, s, related)
  {
    var all := [x] + s;
    if Pairwise(all, related) {
      forall i, j | 0 <= i < j < |s| ensures related(s[i], s[j]) {
        assert all[i + 1] == s[i] && all[j + 1] == s[j];
      }
      forall y | y in s ensures related(x, y) {
        var i :| 0 <= i < |s| && s[i] == y;
        assert all[0] == x && all[i + 1] == y;
      }
    }
    if Pairwise(s, related) && WithAll(x, s, related) {
      forall i, j | 0 <= i < j < |all| ensures related(all[i], all[j]) {
        if i > 0 { assert all[i] == s[i - 1] && all[j] == s[j - 1]; } else { assert all[j] in s; }
      }
    }
  }

  lemma WithAllCons<T>(x: T, first: T, rest: seq<T>, related: (T, T) -> bool)
    ensures WithAll(x, [first] + rest, related) <==> related(x, first) && WithAll(x, rest, related)
  {
  }

  lemma SameWithAll<T>(x: T, a: seq<T>, b: seq<T>, related: (T, T) -> bool)
    requires multiset(a) == multiset(b)
    ensures WithAll(x, a, related) <==> WithAll(x, b, related)
  {
    SameMembers(a, b);
  }

  lemma {:induction false} InsertKeepsPairwise<T(!new)>(x: T, s: seq<T>, atMost: (T, T) -> bool, related: (T,
                                                        T) -> bool)
    requires IsSymmetric(related)
    ensures Pairwise(Insert(x, s, atMost), related) <==> Pairwise([x] + s, related)
  {
    hide Pairwise, WithAll;
    if s == [] || atMost(x, s[0]) {
    } else {
      var first, tail := s[0], s[1..];
      var rest := Insert(x, tail, atMost);
      assert s == [first] + tail;
      InsertKeepsPairwise(x, tail, atMost, related);
      PairwiseCons(first, rest, related);
      PairwiseCons(x, tail, related);
      PairwiseCons(first, tail, related);
      PairwiseCons(x, s, related);
      WithAllCons(x, first, tail, related);
      SameWithAll(first, rest, [x] + tail, related);
      WithAllCons(first, x, tail, related);
    }
  }

  /** What holds of every two elements holds of every two elements of the sorted list. */
  lemma {:induction false} SortKeepsPairwise<T(!new)>(s: seq<T>, atMost: (T, T) -> bool, related: (T, T) -> bool)
    requires IsSymmetric(related)
    ensures Pairwise(Sort(s, atMost), related) <==> Pairwise(s, related)
  {
    hide Pairwise, WithAll, Insert;
    if s == [] {
    } else {
      var rest := Sort(s[1..], atMost);
      SortKeepsPairwise(s[1..], atMost, related);
      InsertKeepsPairwise(s[0], rest, atMost, related);
      PairwiseCons(s[0], s[1..], related);
      PairwiseCons(s[0], rest, related);
      SameWithAll(s[0], rest, s[1..], related);
      assert s == [s[0]] + s[1..];
    }
  }
}
