/** The stable sort of the program's library, by any order. */
module Sorting {

  /** Behind everything it does not come before. */
  function Insert<T>(s: seq<T>, x: T, order: (T, T) -> bool): seq<T> {
    if s == [] || !order(x, s[|s| - 1]) then s + [x] else Insert(s[..|s| - 1], x, order) + [s[|s| - 1]]
  }

  function SortBy<T>(s: seq<T>, order: (T, T) -> bool): seq<T> {
    if s == [] then [] else Insert(SortBy(s[..|s| - 1], order), s[|s| - 1], order)
  }

  ghost predicate SortedBy<T>(s: seq<T>, order: (T, T) -> bool) {
    forall i, j :: 0 <= i < j < |s| ==> !order(s[j], s[i])
  }

  /** An element does not come before itself, nor does not coming before fail to carry on. */
  ghost predicate WeakAmong<T>(a: T, b: T, c: T, order: (T, T) -> bool) {
    (order(a, b) ==> !order(b, a)) && (!order(a, b) && !order(b, c) ==> !order(a, c))
  }

  ghost predicate WeakOn<T>(s: seq<T>, order: (T, T) -> bool) {
    forall i, j, k :: 0 <= i < |s| && 0 <= j < |s| && 0 <= k < |s| ==> WeakAmong(s[i], s[j], s[k], order)
  }

  lemma WeakOnPart<T>(s: seq<T>, t: seq<T>, order: (T, T) -> bool)
    requires WeakOn(s, order) && forall i :: 0 <= i < |t| ==> t[i] in s
    ensures WeakOn(t, order)
  {
    forall i, j, k | 0 <= i < |t| && 0 <= j < |t| && 0 <= k < |t|
      ensures WeakAmong(t[i], t[j], t[k], order)
    {
      var i' :| 0 <= i' < |s| && s[i'] == t[i];
      var j' :| 0 <= j' < |s| && s[j'] == t[j];
      var k' :| 0 <= k' < |s| && s[k'] == t[k];
      assert WeakAmong(s[i'], s[j'], s[k'], order);
    }
  }

  lemma {:induction false} InsertContents<T>(s: seq<T>, x: T, order: (T, T) -> bool)
    ensures multiset(Insert(s, x, order)) == multiset(s) + multiset{x}
  {
    if s != [] && order(x, s[|s| - 1]) {
      InsertContents(s[..|s| - 1], x, order);
      assert s == s[..|s| - 1] + [s[|s| - 1]];
    }
  }

  /** Neither x nor anything of s is before by what may stand behind them. */
  lemma NotAfter<T>(s: seq<T>, t: seq<T>, x: T, last: T, order: (T, T) -> bool)
    requires multiset(t) == multiset(s) + multiset{x} && !order(last, x)
    requires forall i :: 0 <= i < |s| ==> !order(last, s[i])
    ensures forall i :: 0 <= i < |t| ==> !order(last, t[i])
  {
    forall i | 0 <= i < |t|
      ensures !order(last, t[i])
    {
      assert t[i] in multiset(t);
      assert t[i] == x || t[i] in s;
    }
  }

  lemma NotBeforeAny<T>(s: seq<T>, x: T, order: (T, T) -> bool)
    requires s != [] && SortedBy(s, order) && WeakOn(s + [x], order) && !order(x, s[|s| - 1])
    ensures forall i :: 0 <= i < |s| ==> !order(x, s[i])
  {
    var all, n := s + [x], |s|;
    forall i | 0 <= i < n
      ensures !order(x, s[i])
    {
      assert WeakAmong(all[n], all[n - 1], all[i], order);
    }
  }

  lemma {:induction false} InsertKeepsSorted<T>(s: seq<T>, x: T, order: (T, T) -> bool)
    requires SortedBy(s, order) && WeakOn(s + [x], order)
    ensures SortedBy(Insert(s, x, order), order)
  {
    if s != [] && order(x, s[|s| - 1]) {
      var before, last, all := s[..|s| - 1], s[|s| - 1], s + [x];
      assert WeakAmong(all[|s|], all[|s| - 1], all[|s|], order);
      WeakOnPart(all, before + [x], order);
      InsertKeepsSorted(before, x, order);
      InsertContents(before, x, order);
      NotAfter(before, Insert(before, x, order), x, last, order);
      assert Insert(s, x, order) == Insert(before, x, order) + [last];
      hide Insert, WeakOn;
    } else if s != [] {
      NotBeforeAny(s, x, order);
    }
  }

  /** Sorting keeps the elements and orders them. */
  lemma {:induction false} SortBySorts<T>(s: seq<T>, order: (T, T) -> bool)
    requires WeakOn(s, order)
    ensures SortedBy(SortBy(s, order), order) && multiset(SortBy(s, order)) == multiset(s)
  {
    if s != [] {
      var before, last := s[..|s| - 1], s[|s| - 1];
      assert s == before + [last];
      WeakOnPart(s, before, order);
      SortBySorts(before, order);
      var sorted := SortBy(before, order);
      SameElementsOf(sorted, before);
      WeakOnPart(s, sorted + [last], order);
      InsertKeepsSorted(sorted, last, order);
      InsertContents(sorted, last, order);
      hide Insert, WeakOn, SortedBy;
    }
  }

  lemma SameElementsOf<T>(s: seq<T>, t: seq<T>)
    requires multiset(s) == multiset(t)
    ensures forall i :: 0 <= i < |s| ==> s[i] in t
  {
    forall i | 0 <= i < |s|
      ensures s[i] in t
    {
      assert s[i] in multiset(s);
    }
  }
}
