/** Python's `sorted`: a stable sort, given by the relation "strictly goes before". */
module Sorting {

  /** What a key comparison always is: asymmetric, and ties are transitive. */
  ghost predicate StrictWeakOrder<T(!new)>(before: (T, T) -> bool) {
    && (forall a, b :: before(a, b) ==> !before(b, a))
    && (forall a, b, c :: !before(b, a) && !before(c, b) ==> !before(c, a))
  }

  /** No element strictly belongs before an earlier one. */
  ghost predicate Ordered<T>(s: seq<T>, before: (T, T) -> bool) {
    forall i, j :: 0 <= i < j < |s| ==> !before(s[j], s[i])
  }

  /** Puts `x` right before the first element it strictly precedes, so after all its ties. */
  function Insert<T>(s: seq<T>, x: T, before: (T, T) -> bool): seq<T> {
    if s == [] then [x]
    else if before(x, s[|s| - 1]) then Insert(s[..|s| - 1], x, before) + [s[|s| - 1]]
    else s + [x]
  }

  function Sorted<T>(s: seq<T>, before: (T, T) -> bool): seq<T> {
    if s == [] then [] else Insert(Sorted(s[..|s| - 1], before), s[|s| - 1], before)
  }

  lemma {:induction false} InsertAdds<T>(s: seq<T>, x: T, before: (T, T) -> bool)
    ensures multiset(Insert(s, x, before)) == multiset(s) + multiset{x}
  {
    if s != [] {
      var init, last := s[..|s| - 1], s[|s| - 1];
      assert s == init + [last];
      InsertAdds(init, x, before);
    }
  }

  lemma {:induction false} InsertKeepsOrder<T(!new)>(s: seq<T>, x: T, before: (T, T) -> bool)
    requires StrictWeakOrder(before) && Ordered(s, before)
    ensures Ordered(Insert(s, x, before), before)
  {
    if s != [] {
      var init, last := s[..|s| - 1], s[|s| - 1];
      if before(x, last) {
        InsertKeepsOrder(init, x, before);
        InsertAdds(init, x, before);
        var r := Insert(init, x, before);
        forall i | 0 <= i < |r| ensures !before(last, r[i]) {
          assert r[i] in multiset(r);
        }
      } else {
        forall i | 0 <= i < |s| ensures !before(x, s[i]) {
          if i < |s| - 1 {
            assert !before(last, s[i]);
          }
        }
      }
    }
  }

  lemma InsertKeeps<T(!new)>(s: seq<T>, x: T, before: (T, T) -> bool)
    requires StrictWeakOrder(before) && Ordered(s, before)
    ensures Ordered(Insert(s, x, before), before)
    ensures multiset(Insert(s, x, before)) == multiset(s) + multiset{x}
  {
    InsertKeepsOrder(s, x, before);
    InsertAdds(s, x, before);
  }

  /** The result is the same elements, in order. */
  lemma {:induction false} SortedIsOrdered<T(!new)>(s: seq<T>, before: (T, T) -> bool)
    requires StrictWeakOrder(before)
    ensures Ordered(Sorted(s, before), before)
    ensures multiset(Sorted(s, before)) == multiset(s)
    ensures |Sorted(s, before)| == |s|
  {
    if s != [] {
      var init := s[..|s| - 1];
      assert s == init + [s[|s| - 1]];
      SortedIsOrdered(init, before);
      InsertKeeps(Sorted(init, before), s[|s| - 1], before);
    }
    assert |multiset(Sorted(s, before))| == |multiset(s)|;
  }

  /** The elements tied with `x`, in their order. */
  ghost function Ties<T>(s: seq<T>, x: T, before: (T, T) -> bool): seq<T> {
    if s == [] then []
    else
      var last := s[|s| - 1];
      Ties(s[..|s| - 1], x, before) + (if !before(x, last) && !before(last, x) then [last] else [])
  }

  lemma {:induction false} TiesAppend<T>(s: seq<T>, y: T, x: T, before: (T, T) -> bool)
    ensures Ties(s + [y], x, before)
         == Ties(s, x, before) + (if !before(x, y) && !before(y, x) then [y] else [])
  {
    assert (s + [y])[..|s|] == s;
  }

  lemma {:induction false} InsertKeepsTies<T(!new)>(s: seq<T>, y: T, x: T, before: (T, T) -> bool)
    requires StrictWeakOrder(before)
    ensures Ties(Insert(s, y, before), x, before)
         == Ties(s, x, before) + (if !before(x, y) && !before(y, x) then [y] else [])
  {
    if s != [] {
      var init, last := s[..|s| - 1], s[|s| - 1];
      TiesAppend(s, y, x, before);
      if before(y, last) {
        InsertKeepsTies(init, y, x, before);
        TiesAppend(Insert(init, y, before), last, x, before);
      }
    }
  }

  /** Stability: tied elements stay in their original order. */
  lemma {:induction false} SortedIsStable<T(!new)>(s: seq<T>, x: T, before: (T, T) -> bool)
    requires StrictWeakOrder(before)
    ensures Ties(Sorted(s, before), x, before) == Ties(s, x, before)
  {
    if s != [] {
      var init := s[..|s| - 1];
      SortedIsStable(init, x, before);
      InsertKeepsTies(Sorted(init, before), s[|s| - 1], x, before);
    }
  }
}
