/** Counting and filtering in sequences. */
module Sequences {

  ghost predicate NoRepeat<T>(s: seq<T>) {
    forall i, j :: 0 <= i < j < |s| ==> s[i] != s[j]
  }

  lemma NoRepeatAppend<T>(s: seq<T>, t: seq<T>)
    requires NoRepeat(s) && NoRepeat(t) && forall x :: x in t ==> x !in s
    ensures NoRepeat(s + t)
  {
    forall i, j | 0 <= i < j < |s + t|
      ensures (s + t)[i] != (s + t)[j]
    {
      if i < |s| <= j {
        assert t[j - |s|] in t && s[i] in s;
      }
    }
  }

  lemma OneElement<T>(s: seq<T>, x: T)
    requires NoRepeat(s) && x in s && forall y :: y in s ==> y == x
    ensures s == [x]
  {
    assert s[0] in s && s[|s| - 1] in s;
  }

  /** A sequence without repetition is as long as its set of elements is large. */
  lemma {:induction false} NoRepeatSize<T>(s: seq<T>)
    requires NoRepeat(s)
    ensures |set x | x in s| == |s|
  {
    if s != [] {
      var before, last := s[..|s| - 1], s[|s| - 1];
      NoRepeatSize(before);
      assert s == before + [last];
      assert (set x | x in s) == (set x | x in before) + {last};
    }
  }

  /** How many elements of the sequence satisfy the predicate. */
  function Count<T>(s: seq<T>, p: T -> bool): nat {
    if s == [] then 0 else Count(s[..|s| - 1], p) + if p(s[|s| - 1]) then 1 else 0
  }

  lemma CountSnoc<T>(s: seq<T>, x: T, p: T -> bool)
    ensures Count(s + [x], p) == Count(s, p) + if p(x) then 1 else 0
  {
    assert (s + [x])[..|s|] == s;
  }

  lemma {:induction false} CountAppend<T>(s: seq<T>, t: seq<T>, p: T -> bool)
    ensures Count(s + t, p) == Count(s, p) + Count(t, p)
  {
    if t == [] {
      assert s + t == s;
    } else {
      assert (s + t)[..|s + t| - 1] == s + t[..|t| - 1];
      CountAppend(s, t[..|t| - 1], p);
    }
  }

  lemma {:induction false} CountAll<T>(s: seq<T>, p: T -> bool)
    requires forall i :: 0 <= i < |s| ==> p(s[i])
    ensures Count(s, p) == |s|
  {
    if s != [] {
      CountAll(s[..|s| - 1], p);
    }
  }

  lemma {:induction false} CountNone<T>(s: seq<T>, p: T -> bool)
    requires forall i :: 0 <= i < |s| ==> !p(s[i])
    ensures Count(s, p) == 0
  {
    if s != [] {
      CountNone(s[..|s| - 1], p);
    }
  }

  lemma CountPrefix<T>(s: seq<T>, p: T -> bool, n: nat)
    requires n <= |s| && forall i :: 0 <= i < |s| ==> (p(s[i]) <==> i < n)
    ensures Count(s, p) == n
  {
    assert s == s[..n] + s[n..];
    CountAppend(s[..n], s[n..], p);
    CountAll(s[..n], p);
    CountNone(s[n..], p);
  }

  ghost function Positions<T>(s: seq<T>, p: T -> bool): set<int> {
    set j | 0 <= j < |s| && p(s[j])
  }

  lemma {:induction false} CountPositions<T>(s: seq<T>, p: T -> bool)
    ensures Count(s, p) == |Positions(s, p)|
  {
    if s != [] {
      var before := s[..|s| - 1];
      CountPositions(before, p);
      assert Positions(s, p) == if p(s[|s| - 1]) then Positions(before, p) + {|before|} else Positions(before, p);
    }
  }

  lemma {:induction false} CountAgrees<T>(s: seq<T>, p: T -> bool, q: T -> bool)
    requires forall i :: 0 <= i < |s| ==> (p(s[i]) <==> q(s[i]))
    ensures Count(s, p) == Count(s, q)
  {
    if s != [] {
      CountAgrees(s[..|s| - 1], p, q);
    }
  }

  lemma CountMiddle<T>(left: seq<T>, x: T, right: seq<T>, p: T -> bool)
    ensures Count(left + [x] + right, p) == Count(left + right, p) + if p(x) then 1 else 0
  {
    CountAppend(left + [x], right, p);
    CountSnoc(left, x, p);
    CountAppend(left, right, p);
    hide Count;
  }

  lemma SplitAt<T>(t: seq<T>, k: nat)
    requires k < |t|
    ensures t == t[..k] + [t[k]] + t[k + 1..]
  {
  }

  /** Counting does not depend on the order. */
  lemma {:induction false} CountPermuted<T>(s: seq<T>, t: seq<T>, p: T -> bool)
    requires multiset(s) == multiset(t)
    ensures Count(s, p) == Count(t, p)
    decreases |s|
  {
    if s == [] {
      assert |t| == |multiset(t)| == 0;
    } else {
      var before, last := s[..|s| - 1], s[|s| - 1];
      SplitAt(s, |s| - 1);
      assert s == before + [last];
      assert last in multiset(t);
      var k :| 0 <= k < |t| && t[k] == last;
      SplitAt(t, k);
      var left, right := t[..k], t[k + 1..];
      CountSnoc(before, last, p);
      CountMiddle(left, last, right, p);
      SameMultisetRest(before, left, right, last);
      CountPermuted(before, left + right, p);
      hide Count;
    }
  }

  lemma SameMultisetRest<T>(before: seq<T>, left: seq<T>, right: seq<T>, x: T)
    requires multiset(before + [x]) == multiset(left + [x] + right)
    ensures multiset(before) == multiset(left + right)
  {
    assert multiset(before) == multiset(before + [x]) - multiset{x};
    assert multiset(left + right) == multiset(left + [x] + right) - multiset{x};
  }

  lemma {:induction false} CountMembersOf<T>(s: seq<T>, p: T -> bool)
    requires NoRepeat(s)
    ensures Count(s, p) == |set x | x in s && p(x)|
  {
    if s != [] {
      var before, last := s[..|s| - 1], s[|s| - 1];
      CountMembersOf(before, p);
      MembersOfSnoc(before, last, p);
      assert s == before + [last];
    }
  }

  lemma MembersOfSnoc<T>(s: seq<T>, last: T, p: T -> bool)
    requires last !in s
    ensures |set x | x in s + [last] && p(x)| == |set x | x in s && p(x)| + if p(last) then 1 else 0
  {
    var chosen := set x | x in s && p(x);
    assert (set x | x in s + [last] && p(x)) == chosen + if p(last) then {last} else {};
  }

  function Filter<T>(s: seq<T>, p: T -> bool): seq<T> {
    if s == [] then [] else Filter(s[..|s| - 1], p) + if p(s[|s| - 1]) then [s[|s| - 1]] else []
  }

  lemma {:induction false} FilterAppend<T>(s: seq<T>, t: seq<T>, p: T -> bool)
    ensures Filter(s + t, p) == Filter(s, p) + Filter(t, p)
  {
    if t == [] {
      assert s + t == s;
    } else {
      FilterAppend(s, t[..|t| - 1], p);
      assert (s + t)[..|s + t| - 1] == s + t[..|t| - 1];
    }
  }

  lemma {:induction false} FilterContents<T>(s: seq<T>, p: T -> bool)
    ensures forall x :: x in Filter(s, p) <==> x in s && p(x)
  {
    if s != [] {
      FilterContents(s[..|s| - 1], p);
      assert s == s[..|s| - 1] + [s[|s| - 1]];
    }
  }

  lemma {:induction false} FilterNoRepeat<T>(s: seq<T>, p: T -> bool)
    requires NoRepeat(s)
    ensures NoRepeat(Filter(s, p))
  {
    if s != [] {
      var before, last := s[..|s| - 1], s[|s| - 1];
      FilterNoRepeat(before, p);
      FilterContents(before, p);
      NoRepeatAppend(Filter(before, p), [last]);
    }
  }
}
