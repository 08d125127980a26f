/** Order-preserving operations on sequences shared by the models. */
module Sequences {

  ghost predicate Distinct<T>(s: seq<T>) {
    forall i, j :: 0 <= i < j < |s| ==> s[i] != s[j]
  }

  lemma NoMembers<T>(s: seq<T>)
    ensures s == [] || exists x :: x in s
  {
    if s != [] {
      assert s[0] in s;
    }
  }

  function Filter<T>(s: seq<T>, keep: T -> bool): (r: seq<T>)
    ensures |r| <= |s|
  {
    if s == [] then []
    else
      var front := Filter(s[..|s| - 1], keep);
      if keep(s[|s| - 1]) then front + [s[|s| - 1]] else front
  }

  lemma {:induction false} FilterMembers<T>(s: seq<T>, keep: T -> bool)
    ensures forall x :: x in Filter(s, keep) <==> x in s && keep(x)
  {
    if s != [] {
      FilterMembers(s[..|s| - 1], keep);
      assert s == s[..|s| - 1] + [s[|s| - 1]];
    }
  }

  lemma {:induction false} FilterDistinct<T>(s: seq<T>, keep: T -> bool)
    requires Distinct(s)
    ensures Distinct(Filter(s, keep))
  {
    if s != [] {
      FilterDistinct(s[..|s| - 1], keep);
      FilterMembers(s[..|s| - 1], keep);
    }
  }

  /** Filtering by `first` and then by `second` is one filter by anything that agrees with both. */
  lemma {:induction false} FilterTwice<T>(s: seq<T>, first: T -> bool, second: T -> bool, both: T -> bool)
    requires forall x :: x in s ==> both(x) == (first(x) && second(x))
    ensures Filter(Filter(s, first), second) == Filter(s, both)
  {
    if s != [] {
      var front, last := s[..|s| - 1], s[|s| - 1];
      FilterTwice(front, first, second, both);
      if first(last) {
        assert Filter(s, first)[..|Filter(s, first)| - 1] == Filter(front, first);
      }
    }
  }

  lemma FilterSame<T>(s: seq<T>, first: T -> bool, second: T -> bool)
    requires forall x :: x in s ==> first(x) == second(x)
    ensures Filter(s, first) == Filter(s, second)
  {
    FilterAll(s, _ => true);
    FilterTwice(s, _ => true, first, second);
  }

  lemma {:induction false} FilterAll<T>(s: seq<T>, keep: T -> bool)
    requires forall x :: x in s ==> keep(x)
    ensures Filter(s, keep) == s
  {
    if s != [] {
      FilterAll(s[..|s| - 1], keep);
      assert s == s[..|s| - 1] + [s[|s| - 1]];
    }
  }

  lemma {:induction false} FilterNone<T>(s: seq<T>, keep: T -> bool)
    requires forall x :: x in s ==> !keep(x)
    ensures Filter(s, keep) == []
  {
    if s != [] {
      FilterNone(s[..|s| - 1], keep);
    }
  }

  lemma {:induction false} FilterConcat<T>(a: seq<T>, b: seq<T>, keep: T -> bool)
    ensures Filter(a + b, keep) == Filter(a, keep) + Filter(b, keep)
  {
    if b == [] {
      assert a + b == a;
    } else {
      var front := b[..|b| - 1];
      assert (a + b)[..|a + b| - 1] == a + front;
      FilterConcat(a, front, keep);
    }
  }

  /** Two filters keep the same elements exactly when they agree on all of them. */
  lemma FilterAgree<T(!new)>(s: seq<T>, first: T -> bool, second: T -> bool)
    ensures Filter(s, first) == Filter(s, second) <==> forall x :: x in s ==> first(x) == second(x)
  {
    if Filter(s, first) == Filter(s, second) {
      FilterMembers(s, first);
      FilterMembers(s, second);
      forall x | x in s ensures first(x) == second(x) {
        assert x in Filter(s, first) <==> x in Filter(s, second);
      }
    } else if forall x :: x in s ==> first(x) == second(x) {
      FilterSame(s, first, second);
    }
  }
}
