/** Facts about finite sequences that several components share. */
module Sequences {

  ghost predicate NoDuplicates<T>(s: seq<T>) {
    forall i, j :: 0 <= i < j < |s| ==> s[i] != s[j]
  }

  ghost function Elements<T>(s: seq<T>): set<T> {
    set x | x in s
  }

  /** A sequence without repeats has as many elements as positions. */
  lemma {:induction false} DistinctSize<T>(s: seq<T>)
    requires NoDuplicates(s)
    ensures |Elements(s)| == |s|
  {
    if s != [] {
      var init, last := s[..|s| - 1], s[|s| - 1];
      DistinctSize(init);
      assert Elements(s) == Elements(init) + {last};
    }
  }

  /** Pigeonhole: a sequence without repeats is no longer than any set that holds its elements. */
  lemma {:induction false} DistinctFits<T>(s: seq<T>, bound: set<T>)
    requires NoDuplicates(s) && forall x :: x in s ==> x in bound
    ensures |s| <= |bound|
  {
    if s != [] {
      DistinctFits(s[..|s| - 1], bound - {s[|s| - 1]});
    }
  }

  /** `f` of every element, in order. */
  function Mapped<T, U>(s: seq<T>, f: T -> U): (r: seq<U>)
    ensures |r| == |s| && forall k :: 0 <= k < |s| ==> r[k] == f(s[k])
  {
    seq(|s|, (k: int) requires 0 <= k < |s| => f(s[k]))
  }

  /** The positions whose element is such. */
  ghost function Where<T>(s: seq<T>, such: T -> bool): set<nat> {
    set i: nat | i < |s| && such(s[i])
  }

  lemma WhereAppend<T>(s: seq<T>, such: T -> bool)
    requires s != []
    ensures |Where(s, such)| == |Where(s[..|s| - 1], such)| + (if such(s[|s| - 1]) then 1 else 0)
  {
    var n := |s| - 1;
    assert Where(s, such) == Where(s[..n], such) + (if such(s[n]) then {n} else {});
  }

  lemma SubsetSize<T>(a: set<T>, b: set<T>)
    requires a <= b
    ensures |a| <= |b|
  {
    assert b == a + (b - a);
  }

  ghost function Sum<T>(s: seq<T>, f: T -> real): real {
    if s == [] then 0.0 else Sum(s[..|s| - 1], f) + f(s[|s| - 1])
  }

  /** The sum of the positive values. */
  ghost function PositiveSum<T>(s: seq<T>, f: T -> real): real {
    if s == [] then 0.0
    else PositiveSum(s[..|s| - 1], f) + (if f(s[|s| - 1]) > 0.0 then f(s[|s| - 1]) else 0.0)
  }

  lemma {:induction false} SumRemove<T>(a: seq<T>, x: T, b: seq<T>, f: T -> real)
    ensures Sum(a + [x] + b, f) == Sum(a + b, f) + f(x)
  {
    if b == [] {
      assert a + [x] + b == a + [x] && a + b == a;
      assert (a + [x])[..|a|] == a;
    } else {
      var init, last := b[..|b| - 1], b[|b| - 1];
      SumRemove(a, x, init, f);
      assert (a + [x] + b)[..|a| + |b|] == a + [x] + init;
      assert (a + b)[..|a| + |b| - 1] == a + init;
    }
  }

  /** Any selection sums to at most the positive values on offer. */
  lemma {:induction false} SelectionBelowPositive<T>(choice: seq<T>, offer: seq<T>, f: T -> real)
    requires multiset(choice) <= multiset(offer)
    ensures Sum(choice, f) <= PositiveSum(offer, f)
    decreases |offer|
  {
    if offer == [] {
      assert |multiset(choice)| == |choice|;
    } else {
      var init, last := offer[..|offer| - 1], offer[|offer| - 1];
      assert offer == init + [last];
      MultisetAppend(init, last);
      if last in choice {
        var rest := TakeOut(choice, last, f);
        SelectionBelowPositive(rest, init, f);
      } else {
        assert multiset(choice)[last] == 0;
        assert multiset(choice) <= multiset(init);
        SelectionBelowPositive(choice, init, f);
      }
    }
  }

  lemma MultisetAppend<T>(s: seq<T>, x: T)
    ensures multiset(s + [x]) == multiset(s) + multiset{x}
  {
  }

  lemma AppendLast<T>(s: seq<T>, t: seq<T>, x: T)
    ensures s + (t + [x]) == (s + t) + [x]
  {
  }

  /** `s` without one occurrence of `x`. */
  lemma TakeOut<T>(s: seq<T>, x: T, f: T -> real) returns (rest: seq<T>)
    requires x in s
    ensures multiset(rest) == multiset(s) - multiset{x}
    ensures Sum(s, f) == Sum(rest, f) + f(x)
  {
    var i :| 0 <= i < |s| && s[i] == x;
    var a, b := s[..i], s[i + 1..];
    rest := a + b;
    assert s == a + [x] + b;
    SumRemove(a, x, b, f);
  }

  /** When the positive values are exactly a prefix, they sum to that prefix. */
  lemma {:induction false} PositivePrefix<T>(s: seq<T>, k: nat, f: T -> real)
    requires k <= |s|
    requires forall i :: 0 <= i < k ==> f(s[i]) >= 0.0
    requires forall i :: k <= i < |s| ==> f(s[i]) <= 0.0
    ensures PositiveSum(s, f) == Sum(s[..k], f)
  {
    if s == [] {
      assert s[..k] == [];
    } else {
      var init := s[..|s| - 1];
      if k == |s| {
        PositivePrefix(init, k - 1, f);
        assert init[..k - 1] == init && s[..k] == s;
      } else {
        PositivePrefix(init, k, f);
        assert init[..k] == s[..k];
      }
    }
  }

  /** If exactly a prefix is worth taking, no selection is worth more than that prefix. */
  lemma PrefixIsBestSelection<T>(s: seq<T>, k: nat, f: T -> real, choice: seq<T>)
    requires k <= |s| && multiset(choice) <= multiset(s)
    requires forall i :: 0 <= i < k ==> f(s[i]) >= 0.0
    requires forall i :: k <= i < |s| ==> f(s[i]) <= 0.0
    ensures Sum(choice, f) <= Sum(s[..k], f)
  {
    SelectionBelowPositive(choice, s, f);
    PositivePrefix(s, k, f);
  }
}
