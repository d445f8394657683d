/**
 * Placement points with ties: the field size goes to the best, everybody tied
 * gets the same, and excluded failed standings leave their positions unused.
 */
module PlacementPoints {
  import opened Sequences
  import opened Sorting

  /** What points depend on; `percentage` in hundredths. */
  datatype Result = Result(percentage: int, isFailed: bool)

  class Standing {
    var points: int
    const result: Result
  }

  predicate Eligible(r: Result, includeFails: bool) {
    includeFails || !r.isFailed
  }

  /** Strictly better than the percentage, and ranked at all. */
  function Better(percentage: int, includeFails: bool): Result -> bool {
    r => Eligible(r, includeFails) && r.percentage > percentage
  }

  /** One point per place from the field size down, a place being one past the standings strictly ahead. */
  function PointsOf(field: seq<Result>, includeFails: bool, r: Result): int {
    if Eligible(r, includeFails) then |field| - Count(field, Better(r.percentage, includeFails)) else 0
  }

  function Results(standings: seq<Standing>): (r: seq<Result>)
    ensures |r| == |standings| && forall i :: 0 <= i < |standings| ==> r[i] == standings[i].result
  {
    seq(|standings|, i requires 0 <= i < |standings| => standings[i].result)
  }

  // ----- ranking

  predicate Descending<T>(s: seq<T>, key: T -> int) {
    forall i, j :: 0 <= i < j < |s| ==> key(s[i]) >= key(s[j])
  }

  function Higher<T>(key: T -> int): (T, T) -> bool {
    (a, b) => key(a) > key(b)
  }

  /** The stable sort by descending key. */
  function Ranked<T>(s: seq<T>, key: T -> int): seq<T> {
    SortBy(s, Higher(key))
  }

  lemma RankedRanks<T>(s: seq<T>, key: T -> int)
    ensures Descending(Ranked(s, key), key)
    ensures multiset(Ranked(s, key)) == multiset(s)
  {
    var order, ranked := Higher(key), Ranked(s, key);
    assert WeakOn(s, order);
    SortBySorts(s, order);
    forall i, j | 0 <= i < j < |ranked|
      ensures key(ranked[i]) >= key(ranked[j])
    {
      assert !order(ranked[j], ranked[i]);
    }
  }

  /** Ranking the elements that satisfy `p` loses none of them. */
  lemma RankingFacts<T>(s: seq<T>, p: T -> bool, key: T -> int, ranked: seq<T>)
    requires ranked == Ranked(Filter(s, p), key)
    ensures Descending(ranked, key)
    ensures forall i :: 0 <= i < |ranked| ==> p(ranked[i]) && ranked[i] in s
    ensures forall i :: 0 <= i < |s| && p(s[i]) ==> s[i] in ranked
  {
    var chosen := Filter(s, p);
    RankedRanks(chosen, key);
    FilterContents(s, p);
    hide Ranked, Filter, Descending;
    forall i | 0 <= i < |ranked|
      ensures p(ranked[i]) && ranked[i] in s
    {
      assert ranked[i] in multiset(ranked);
    }
    forall i | 0 <= i < |s| && p(s[i])
      ensures s[i] in ranked
    {
      assert s[i] in multiset(chosen);
    }
  }

  lemma {:induction false} FilterCounts<T>(s: seq<T>, p: T -> bool, q: T -> bool)
    requires forall i :: 0 <= i < |s| && q(s[i]) ==> p(s[i])
    ensures Count(Filter(s, p), q) == Count(s, q)
  {
    if s != [] {
      var before, last := s[..|s| - 1], s[|s| - 1];
      FilterCounts(before, p, q);
      CountSnoc(Filter(before, p), last, q);
      assert Filter(before, p) + [] == Filter(before, p);
    }
  }

  lemma RankingCounts<T>(s: seq<T>, p: T -> bool, key: T -> int, ranked: seq<T>, q: T -> bool)
    requires ranked == Ranked(Filter(s, p), key)
    requires forall i :: 0 <= i < |s| && q(s[i]) ==> p(s[i])
    ensures Count(ranked, q) == Count(s, q)
  {
    RankedRanks(Filter(s, p), key);
    FilterCounts(s, p, q);
    CountPermuted(ranked, Filter(s, p), q);
    hide Ranked, Filter, Count;
  }

  function PercentageOf(s: Standing): int {
    s.result.percentage
  }

  function OnStandings(p: Result -> bool): Standing -> bool {
    (s: Standing) => p(s.result)
  }

  function Ranks(includeFails: bool): Standing -> bool {
    (s: Standing) => Eligible(s.result, includeFails)
  }

  function Ranking(standings: seq<Standing>, includeFails: bool): seq<Standing> {
    Ranked(Filter(standings, Ranks(includeFails)), PercentageOf)
  }

  lemma {:induction false} ResultsCount(s: seq<Standing>, p: Result -> bool)
    ensures Count(Results(s), p) == Count(s, OnStandings(p))
  {
    if s != [] {
      ResultsCount(s[..|s| - 1], p);
      assert Results(s)[..|s| - 1] == Results(s[..|s| - 1]);
    }
  }

  /** Where a group of ties starts in the ranking, as many standings are strictly better. */
  lemma GroupStart(standings: seq<Standing>, includeFails: bool, ranked: seq<Standing>, index: nat)
    requires ranked == Ranking(standings, includeFails) && index < |ranked|
    requires index > 0 ==> PercentageOf(ranked[index - 1]) > PercentageOf(ranked[index])
    ensures PointsOf(Results(standings), includeFails, ranked[index].result) == |standings| - index
  {
    var better := Better(PercentageOf(ranked[index]), includeFails);
    RankingFacts(standings, Ranks(includeFails), PercentageOf, ranked);
    RankingCounts(standings, Ranks(includeFails), PercentageOf, ranked, OnStandings(better));
    ResultsCount(standings, better);
    hide Ranked, Filter, Count, Results;
    forall i | 0 <= i < |ranked|
      ensures OnStandings(better)(ranked[i]) <==> i < index
    {
      assert Ranks(includeFails)(ranked[i]);
      if 0 < index && i < index {
        assert PercentageOf(ranked[i]) >= PercentageOf(ranked[index - 1]);
      } else if index < i {
        assert PercentageOf(ranked[index]) >= PercentageOf(ranked[i]);
      }
    }
    assert Ranks(includeFails)(ranked[index]);
    CountPrefix(ranked, OnStandings(better), index);
  }

  // ----- awarding

  method ResetPoints(standings: seq<Standing>)
    modifies standings
    ensures forall s :: s in standings ==> s.points == 0
  {
    for i := 0 to |standings|
      invariant forall s :: s in standings[..i] ==> s.points == 0
    {
      standings[i].points := 0;
      assert standings[..i + 1] == standings[..i] + [standings[i]];
    }
    assert standings[..|standings|] == standings;
  }

  /** The standings of the ranking up to `index` have the points of their results. */
  ghost predicate Awarded(field: seq<Result>, includeFails: bool, ranked: seq<Standing>, index: nat)
    requires index <= |ranked|
    reads ranked
  {
    forall i :: 0 <= i < index ==> ranked[i].points == PointsOf(field, includeFails, ranked[i].result)
  }

  method AwardGroup(ranked: seq<Standing>, index: nat, nextIndex: nat, points: int, ghost field: seq<Result>, ghost includeFails: bool)
    requires index < nextIndex <= |ranked| && Awarded(field, includeFails, ranked, index)
    requires forall i :: index <= i < nextIndex ==> PercentageOf(ranked[i]) == PercentageOf(ranked[index])
    requires forall i :: index <= i < nextIndex ==> Eligible(ranked[i].result, includeFails)
    requires points == PointsOf(field, includeFails, ranked[index].result)
    modifies ranked
    ensures Awarded(field, includeFails, ranked, nextIndex)
  {
    for tiedIndex := index to nextIndex
      invariant Awarded(field, includeFails, ranked, tiedIndex)
    {
      ranked[tiedIndex].points := points;
    }
  }

  /** Awards the points down the ranking, one group of ties after the other. */
  method AwardRanked(ranked: seq<Standing>, size: nat, ghost standings: seq<Standing>, ghost includeFails: bool)
    requires size == |standings| && ranked == Ranking(standings, includeFails)
    modifies ranked
    ensures Awarded(Results(standings), includeFails, ranked, |ranked|)
  {
    var points: int := size;
    var index := 0;
    RankingFacts(standings, Ranks(includeFails), PercentageOf, ranked);
    assert forall i :: 0 <= i < |ranked| ==> Ranks(includeFails)(ranked[i]);
    hide Ranking, PointsOf, Descending, Results;
    while index < |ranked|
      invariant index <= |ranked| && points == size - index
      invariant 0 < index < |ranked| ==> PercentageOf(ranked[index - 1]) > PercentageOf(ranked[index])
      invariant Awarded(Results(standings), includeFails, ranked, index)
    {
      GroupStart(standings, includeFails, ranked, index);
      var nextIndex := GroupEnd(ranked, index);
      AwardGroup(ranked, index, nextIndex, points, Results(standings), includeFails);
      points := points - (nextIndex - index);
      index := nextIndex;
    }
  }

  method GroupEnd(ranked: seq<Standing>, index: nat) returns (nextIndex: nat)
    requires index < |ranked| && Descending(ranked, PercentageOf)
    ensures index < nextIndex <= |ranked|
    ensures forall i :: index <= i < nextIndex ==> PercentageOf(ranked[i]) == PercentageOf(ranked[index])
    ensures nextIndex < |ranked| ==> PercentageOf(ranked[nextIndex - 1]) > PercentageOf(ranked[nextIndex])
  {
    var percentage := PercentageOf(ranked[index]);
    nextIndex := index + 1;
    while nextIndex < |ranked| && PercentageOf(ranked[nextIndex]) == percentage
      invariant index < nextIndex <= |ranked|
      invariant forall i :: index <= i < nextIndex ==> PercentageOf(ranked[i]) == percentage
    {
      nextIndex := nextIndex + 1;
    }
  }

  /**
   * Awards the points, whatever the order of the standings and the points they
   * had before; a standing listed twice counts as two.
   */
  method AwardPlacementPoints(standings: seq<Standing>, includeFails: bool)
    modifies standings
    ensures forall i :: 0 <= i < |standings| ==> standings[i].points == PointsOf(Results(standings), includeFails, standings[i].result)
  {
    ResetPoints(standings);
    var ranked := Ranking(standings, includeFails);
    RankingFacts(standings, Ranks(includeFails), PercentageOf, ranked);
    assert forall i :: 0 <= i < |ranked| ==> Ranks(includeFails)(ranked[i]);
    assert forall i :: 0 <= i < |standings| && Ranks(includeFails)(standings[i]) ==> standings[i] in ranked;
    hide Ranking, PointsOf, Descending, Results, Eligible;
    AwardRanked(ranked, |standings|, standings, includeFails);
    AllAwarded(standings, includeFails, ranked);
  }

  lemma AllAwarded(standings: seq<Standing>, includeFails: bool, ranked: seq<Standing>)
    requires forall i :: 0 <= i < |ranked| ==> Eligible(ranked[i].result, includeFails)
    requires forall i :: 0 <= i < |standings| && Eligible(standings[i].result, includeFails) ==> standings[i] in ranked
    requires Awarded(Results(standings), includeFails, ranked, |ranked|)
    requires forall i :: 0 <= i < |standings| && standings[i] !in ranked ==> standings[i].points == 0
    ensures forall i :: 0 <= i < |standings| ==> standings[i].points == PointsOf(Results(standings), includeFails, standings[i].result)
  {
  }

  // ----- what the points say

  /**
   * A failed standing that is left out gets nothing. Everybody else gets the size
   * of the field less the standings that are not left out and have a strictly
   * higher percentage.
   */
  lemma PointsCount(field: seq<Result>, includeFails: bool, r: Result)
    ensures r.isFailed && !includeFails ==> PointsOf(field, includeFails, r) == 0
    ensures !r.isFailed || includeFails ==>
              PointsOf(field, includeFails, r) ==
              |field| - |set j | 0 <= j < |field| && (!field[j].isFailed || includeFails) && field[j].percentage > r.percentage|
  {
    var better := Better(r.percentage, includeFails);
    CountPositions(field, better);
    assert Positions(field, better) ==
           set j | 0 <= j < |field| && (!field[j].isFailed || includeFails) && field[j].percentage > r.percentage;
  }

  /** The order of the field does not matter. */
  lemma OrderIrrelevant(field: seq<Result>, other: seq<Result>, includeFails: bool, r: Result)
    requires multiset(field) == multiset(other)
    ensures PointsOf(field, includeFails, r) == PointsOf(other, includeFails, r)
  {
    CountPermuted(field, other, Better(r.percentage, includeFails));
    assert |field| == |multiset(field)| == |multiset(other)| == |other|;
  }

  lemma {:induction false} CountMonotone(s: seq<Result>, p: Result -> bool, q: Result -> bool)
    requires forall r :: r in s && p(r) ==> q(r)
    ensures Count(s, p) <= Count(s, q)
    ensures (exists r :: r in s && q(r) && !p(r)) ==> Count(s, p) < Count(s, q)
  {
    if s != [] {
      assert s == s[..|s| - 1] + [s[|s| - 1]];
      CountMonotone(s[..|s| - 1], p, q);
    }
  }

  lemma {:induction false} CountBelow(s: seq<Result>, p: Result -> bool, r: Result)
    requires r in s && !p(r)
    ensures Count(s, p) < |s|
  {
    if s[|s| - 1] != r {
      CountBelow(s[..|s| - 1], p, r);
    } else {
      CountAtMost(s[..|s| - 1], p);
    }
  }

  lemma {:induction false} CountAtMost(s: seq<Result>, p: Result -> bool)
    ensures Count(s, p) <= |s|
  {
    if s != [] {
      CountAtMost(s[..|s| - 1], p);
    }
  }

  lemma {:induction false} CountPositive(s: seq<Result>, p: Result -> bool, r: Result)
    requires r in s && p(r)
    ensures Count(s, p) > 0
  {
    if s[|s| - 1] != r {
      CountPositive(s[..|s| - 1], p, r);
    }
  }

  lemma TopPoints(field: seq<Result>, includeFails: bool, a: Result)
    requires a in field
    ensures PointsOf(field, includeFails, a) == |field| <==>
              Eligible(a, includeFails) && forall r :: r in field && Eligible(r, includeFails) ==> r.percentage <= a.percentage
  {
    var p := Better(a.percentage, includeFails);
    if r :| r in field && p(r) {
      CountPositive(field, p, r);
    } else {
      CountNone(field, p);
    }
  }

  /** The points rank the eligible standings exactly as their percentages do, and every one of them above the excluded. */
  lemma PointsRankResults(field: seq<Result>, includeFails: bool, a: Result, b: Result)
    requires a in field && b in field
    ensures PointsOf(field, includeFails, a) > PointsOf(field, includeFails, b) <==>
              Eligible(a, includeFails) && (!Eligible(b, includeFails) || a.percentage > b.percentage)
    ensures 0 <= PointsOf(field, includeFails, a) <= |field|
    ensures PointsOf(field, includeFails, a) == |field| <==>
              Eligible(a, includeFails) && forall r :: r in field && Eligible(r, includeFails) ==> r.percentage <= a.percentage
  {
    var p, q := Better(a.percentage, includeFails), Better(b.percentage, includeFails);
    CountBelow(field, p, a);
    CountBelow(field, q, b);
    TopPoints(field, includeFails, a);
    if a.percentage >= b.percentage {
      CountMonotone(field, p, q);
    } else {
      CountMonotone(field, q, p);
    }
  }
}
