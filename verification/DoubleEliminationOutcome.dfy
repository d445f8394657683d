/**
 * The final standings of a double elimination, as the placement resolver reads
 * them from a stored bracket played to its end: the grand final places its
 * players one by one, and every losers round shares a band per finishing place.
 */
module DoubleEliminationOutcomes {
  import opened BracketPlans
  import opened Sequences
  import opened Seatings
  import opened DoubleEliminations
  import opened DoubleEliminationNetworks
  import opened AdvancementGraphs
  import opened DivisionPlacements
  import opened PlayedNetworks
  import opened PlanDivisions
  import opened PlanStandings

  // ----- how far each match is from the end

  /**
   * Wherever a generated bracket is part of a division, whatever competitions
   * and rules surround it, its matches are as far from the end as the closed form
   * says: L - i for losers round i of L = 2w, L - 2k + 2 for winners round k,
   * L + 1 for the first.
   */
  lemma DepthsOfDoubleElimination(w: nat, h: nat, b: Stored, cs: seq<Competition>, edges: seq<Edge>, g: Graph<Key>, v: Node)
    requires w >= 1 && h >= 1 && ValidNode(w, v) && b.net == NetworkOf(w, h)
    requires Contains(b, cs, edges) && IsGraph(cs, edges, g)
    ensures LoopFree(g, KeyAt(b, Id(w, v))) && Longest(g, KeyAt(b, Id(w, v)), Depth(w, v))
  {
    NetworkAt(w, h, v);
    hide Contains, NetworkOf, Depth, Id;
    MatchDepth(b, cs, edges, g, Id(w, v));
  }

  /** So the resolver measures exactly these depths. */
  lemma MeasuredDepth(w: nat, h: nat, b: Stored, cs: seq<Competition>, edges: seq<Edge>, g: Graph<Key>, v: Node, d: nat)
    requires w >= 1 && h >= 1 && ValidNode(w, v) && b.net == NetworkOf(w, h)
    requires Contains(b, cs, edges) && IsGraph(cs, edges, g) && RightDepth(g, KeyAt(b, Id(w, v)), d)
    ensures d == Depth(w, v)
  {
    NetworkAt(w, h, v);
    hide Contains, NetworkOf, Depth, Id;
    MatchDepth(b, cs, edges, g, Id(w, v));
  }

  // ----- counting round by round

  /** How many places of a match end a run ahead of a band. */
  function AheadAt(w: nat, h: nat, b: Band, v: Node): nat {
    var n := 2 * h - PassingPlaces(h, v);
    if n < 0 then 0
    else if Depth(w, v) < b.depth then n
    else if Depth(w, v) > b.depth || b.placement - 1 <= PassingPlaces(h, v) then 0
    else if b.placement - 1 - PassingPlaces(h, v) <= n then b.placement - 1 - PassingPlaces(h, v)
    else n
  }

  lemma NodeAhead(w: nat, h: nat, b: Band, v: Node)
    requires w >= 1 && h >= 1 && ValidNode(w, v)
    ensures var net, m := NetworkOf(w, h), Id(w, v); AheadIn(net, b, m, Staying(net, m)) == AheadAt(w, h, b, v)
  {
    NetworkAt(w, h, v);
    assert PassingPlaces(h, v) <= 2 * h;
    hide NetworkOf, Id, Depth, PassingPlaces;
  }

  lemma WinnersMatchEndsNobody(w: nat, h: nat, b: Band, m: nat)
    requires w >= 1 && h >= 1 && m < RoundOffset(w, w + 1)
    ensures var net := NetworkOf(w, h); AheadIn(net, b, m, Staying(net, m)) == 0
  {
    var v := WinnersNode(w, m);
    hide NetworkOf, Id, AheadIn, Staying, Depth;
    NodeAhead(w, h, b, v);
  }

  /** The winners bracket ends nobody's run. */
  lemma {:induction false} WinnersEndNobody(w: nat, h: nat, b: Band, k: nat)
    requires w >= 1 && h >= 1 && k <= RoundOffset(w, w + 1)
    ensures SumAhead(NetworkOf(w, h), b, k) == 0
  {
    hide NetworkOf, AheadIn, Staying, RoundOffset;
    if k > 0 {
      WinnersEndNobody(w, h, b, k - 1);
      WinnersMatchEndsNobody(w, h, b, k - 1);
    }
  }

  lemma WinnersNode(w: nat, m: nat) returns (v: Node)
    requires w >= 1 && m < RoundOffset(w, w + 1)
    ensures ValidNode(w, v) && Id(w, v) == m && v.W?
  {
    WinnersNodeAt(w, w + 1, m);
    v := WinnersNodes(w, w + 1)[m];
  }

  /** How many places of the winners matches and of the losers rounds before round i end a run ahead of a band. */
  ghost function AheadBefore(w: nat, h: nat, b: Band, i: nat): nat
    requires w >= 1 && h >= 1 && i <= 2 * w
  {
    SumAhead(NetworkOf(w, h), b, LosersOffset(w, i))
  }

  lemma LosersMatchAhead(w: nat, h: nat, b: Band, i: nat, m: nat)
    requires w >= 1 && h >= 1 && i < 2 * w && LosersOffset(w, i) <= m < LosersOffset(w, i) + LosersSize(w, i)
    ensures var net := NetworkOf(w, h); AheadIn(net, b, m, Staying(net, m)) == AheadAt(w, h, b, L(i, 0))
  {
    var v := L(i, m - LosersOffset(w, i));
    assert ValidNode(w, v) && Id(w, v) == m;
    assert AheadAt(w, h, b, v) == AheadAt(w, h, b, L(i, 0));
    hide NetworkOf, AheadIn, Staying, AheadAt, LosersSize, LosersOffset, Id;
    NodeAhead(w, h, b, v);
  }

  lemma LosersCountAlike(w: nat, h: nat, b: Band, i: nat)
    requires w >= 1 && h >= 1 && i < 2 * w
    ensures CountAlike(NetworkOf(w, h), b, LosersOffset(w, i), LosersSize(w, i), AheadAt(w, h, b, L(i, 0)))
  {
    var net := NetworkOf(w, h);
    hide NetworkOf, AheadIn, Staying, LosersSize, LosersOffset, AheadAt;
    forall m: nat | LosersOffset(w, i) <= m < LosersOffset(w, i) + LosersSize(w, i)
      ensures AheadIn(net, b, m, Staying(net, m)) == AheadAt(w, h, b, L(i, 0))
    {
      LosersMatchAhead(w, h, b, i, m);
    }
  }

  lemma LosersAhead(w: nat, h: nat, b: Band, i: nat, v: nat)
    requires w >= 1 && h >= 1 && i < 2 * w
    requires v == AheadAt(w, h, b, L(i, 0))
    ensures AheadBefore(w, h, b, i + 1) == AheadBefore(w, h, b, i) + Times(LosersSize(w, i), v)
  {
    assert LosersOffset(w, i + 1) == LosersOffset(w, i) + LosersSize(w, i);
    hide NetworkOf, CountAlike, SumAhead, Times, LosersSize, LosersOffset, AheadAt;
    LosersCountAlike(w, h, b, i);
    SumOfRow(NetworkOf(w, h), b, LosersOffset(w, i), LosersSize(w, i), v);
  }

  lemma StartsWithNothing(w: nat, h: nat, b: Band)
    requires w >= 1 && h >= 1
    ensures AheadBefore(w, h, b, 0) == 0
  {
    WinnersEndNobody(w, h, b, RoundOffset(w, w + 1));
  }

  /** The losers rounds before the one of a band are not ahead of it. */
  lemma {:induction false} EarlierRounds(w: nat, h: nat, b: Band, i: nat)
    requires w >= 1 && h >= 1 && i <= 2 * w && (i > 0 ==> 2 * w - (i - 1) > b.depth)
    ensures AheadBefore(w, h, b, i) == 0
  {
    hide AheadBefore, Times, LosersSize;
    if i > 0 {
      EarlierRounds(w, h, b, i - 1);
      LosersAhead(w, h, b, i - 1, 0);
      TimesNothing(LosersSize(w, i - 1));
    } else {
      StartsWithNothing(w, h, b);
    }
  }

  /** How many matches the losers rounds from i on have, two more for what the grand final counts. */
  function Remaining(w: nat, i: nat): nat
    requires i <= 2 * w
    decreases 2 * w - i
  {
    if i == 2 * w then 2 else LosersSize(w, i) + Remaining(w, i + 1)
  }

  /** After a drop round twice, after a merge round three times as many as the round itself. */
  lemma {:induction false} RemainingSizes(w: nat, i: nat)
    requires w >= 1 && i < 2 * w
    ensures Remaining(w, i + 1) == (if i % 2 == 1 then 2 else 3) * LosersSize(w, i)
    decreases 2 * w - i
  {
    LosersSizes(w, i);
    hide LosersSize;
    if i < 2 * w - 1 {
      RemainingSizes(w, i + 1);
    }
  }

  lemma RoundValue(w: nat, h: nat, i: nat, q: nat, i': nat)
    requires w >= 1 && h >= 1 && i <= i' < 2 * w && h < q <= 2 * h + 1
    ensures AheadAt(w, h, Band(2 * w - i, q), L(i', 0)) == if i' == i then q - 1 - h else h
  {
  }

  lemma FewerRemain(size: nat, remaining: nat, h: nat, before: nat, after: nat, total: nat)
    requires before + Times(size + remaining, h) == total && after == before + Times(size, h)
    ensures after + Times(remaining, h) == total
  {
    TimesAdd(size, remaining, h);
    hide Times;
  }

  /** From the round of a band on, every losers match adds those of its bottom half. */
  lemma {:induction false} LaterRounds(w: nat, h: nat, i: nat, q: nat, i': nat)
    requires w >= 1 && h >= 1 && i < i' <= 2 * w && h < q <= 2 * h + 1
    ensures AheadBefore(w, h, Band(2 * w - i, q), i') + Times(Remaining(w, i'), h) ==
            Times(LosersSize(w, i), q - 1 - h) + Times(Remaining(w, i + 1), h)
    decreases i'
  {
    hide AheadBefore, Times, LosersSize, AheadAt;
    var b := Band(2 * w - i, q);
    RoundValue(w, h, i, q, i' - 1);
    if i' == i + 1 {
      EarlierRounds(w, h, b, i);
      LosersAhead(w, h, b, i, q - 1 - h);
    } else {
      LaterRounds(w, h, i, q, i' - 1);
      LosersAhead(w, h, b, i' - 1, h);
      FewerRemain(LosersSize(w, i' - 1), Remaining(w, i'), h, AheadBefore(w, h, b, i' - 1), AheadBefore(w, h, b, i'),
        Times(LosersSize(w, i), q - 1 - h) + Times(Remaining(w, i + 1), h));
    }
  }

  lemma GrandFinalAhead(w: nat, h: nat, b: Band)
    requires w >= 1 && h >= 1
    ensures var net := NetworkOf(w, h); SumAhead(net, b, net.count) == AheadBefore(w, h, b, 2 * w) + AheadAt(w, h, b, GF)
  {
    NodeAhead(w, h, b, GF);
    assert NetworkOf(w, h).count == LosersOffset(w, 2 * w) + 1 && Id(w, GF) == LosersOffset(w, 2 * w);
    hide LosersOffset, AheadIn;
  }

  lemma DropSum(s: nat, a: nat, h: nat)
    ensures Times(s, a) + Times(2 * s, h) == Times(s, a + 2 * h)
  {
    TimesAdd(s, s, h);
    TimesSum(s, a + h, h);
    TimesSum(s, a, h);
    hide Times;
  }

  lemma MergeSum(s: nat, a: nat, h: nat)
    ensures Times(s, a) + Times(3 * s, h) == Times(s, a + 3 * h)
  {
    DropSum(s, a, h);
    TimesAdd(2 * s, s, h);
    TimesSum(s, a + 2 * h, h);
    hide Times;
  }

  /** How many places are ahead of all of a losers round, in matches of that round. */
  function AheadOfAll(h: nat, i: nat): nat {
    if i % 2 == 1 then 2 * h else 3 * h
  }

  lemma RemainingSum(w: nat, h: nat, i: nat, a: nat)
    requires w >= 1 && i < 2 * w
    ensures Times(LosersSize(w, i), a) + Times(Remaining(w, i + 1), h) == Times(LosersSize(w, i), a + AheadOfAll(h, i))
  {
    RemainingSizes(w, i);
    hide LosersSize, Remaining, Times;
    if i % 2 == 1 {
      DropSum(LosersSize(w, i), a, h);
    } else {
      MergeSum(LosersSize(w, i), a, h);
    }
  }

  /** Ahead of the q-th of losers round i: the places ahead of the whole round, and those better placed in it. */
  lemma AheadOfLosers(w: nat, h: nat, i: nat, q: nat)
    requires w >= 1 && h >= 1 && i < 2 * w && h < q <= 2 * h + 1
    ensures var net := NetworkOf(w, h);
            SumAhead(net, Band(2 * w - i, q), net.count) == Times(LosersSize(w, i), q - 1 - h + AheadOfAll(h, i))
  {
    var b, s := Band(2 * w - i, q), LosersSize(w, i);
    GrandFinalAhead(w, h, b);
    assert AheadAt(w, h, b, GF) == 2 * h;
    assert Remaining(w, 2 * w) == 2;
    hide NetworkOf, AheadBefore, SumAhead, AheadAt, Remaining, LosersSize, AheadOfAll;
    LaterRounds(w, h, i, q, 2 * w);
    TimesIsProduct(2, h);
    RemainingSum(w, h, i, q - 1 - h);
    hide Times;
  }

  /** Ahead of the q-th of the grand final end those better placed in it. */
  lemma AheadOfGrandFinal(w: nat, h: nat, q: nat)
    requires w >= 1 && h >= 1 && 1 <= q <= 2 * h + 1
    ensures var net := NetworkOf(w, h); SumAhead(net, Band(0, q), net.count) == q - 1
  {
    GrandFinalAhead(w, h, Band(0, q));
    EarlierRounds(w, h, Band(0, q), 2 * w);
    hide NetworkOf, AheadBefore, SumAhead;
  }

  // ----- the standings

  /** A stored double elimination, played out and read by the resolver. */
  ghost predicate IsFinish(w: nat, h: nat, f: Finish) {
    w >= 1 && h >= 1 && f.b.net == NetworkOf(w, h) && Answered(f)
  }

  /** The entrant finished match m of losers round i in place q, in its bottom half. */
  ghost predicate OutInLosers(w: nat, h: nat, game: Game, e: int, i: nat, m: nat, q: nat) {
    ValidNode(w, L(i, m)) && h < q <= 2 * h && Placed(game, Id(w, L(i, m)), q) == e
  }

  /** The entrant finished the grand final in place q. */
  ghost predicate OutInGrandFinal(w: nat, h: nat, game: Game, e: int, q: nat) {
    1 <= q <= 2 * h && Placed(game, Id(w, GF), q) == e
  }

  ghost predicate Out(w: nat, h: nat, game: Game, e: int) {
    || (exists q: nat :: OutInGrandFinal(w, h, game, e, q))
    || (exists i: nat, m: nat, q: nat :: OutInLosers(w, h, game, e, i, m, q))
  }

  /** The last place the q-th of losers round i share. */
  function LastPlace(w: nat, h: nat, i: nat, q: int): int
    requires i < 2 * w
  {
    (q - h + AheadOfAll(h, i)) * LosersSize(w, i)
  }

  lemma LosersPlaces(w: nat, h: nat, i: nat, q: nat)
    requires w >= 1 && h >= 1 && i < 2 * w && h < q <= 2 * h
    ensures var net, d := NetworkOf(w, h), 2 * w - i;
            && SumAhead(net, Band(d, q), net.count) == LastPlace(w, h, i, q - 1)
            && SumAhead(net, Band(d, q + 1), net.count) == LastPlace(w, h, i, q)
  {
    AheadOfLosers(w, h, i, q);
    AheadOfLosers(w, h, i, q + 1);
    hide NetworkOf, SumAhead, LosersSize, AheadOfAll;
    var a := q - h + AheadOfAll(h, i);
    TimesIsProduct(LosersSize(w, i), a - 1);
    TimesIsProduct(LosersSize(w, i), a);
    hide Times;
    Commuted(a - 1, LosersSize(w, i));
    Commuted(a, LosersSize(w, i));
  }

  lemma Commuted(a: int, b: int)
    ensures a * b == b * a
  {
  }

  lemma OutOfLosers(w: nat, h: nat, f: Finish, r: nat, i: nat, m: nat, q: nat)
    requires IsFinish(w, h, f) && r < |f.rows| && OutInLosers(w, h, f.game, f.rows[r].entrantId, i, m, q)
    ensures f.rows[r].placement == LastPlace(w, h, i, q - 1) + 1 && f.rows[r].sharedThrough == LastPlace(w, h, i, q)
  {
    hide Answered, NetworkOf, SumAhead, LosersSize, LastPlace, Id;
    NetworkAt(w, h, L(i, m));
    LosersPlaces(w, h, i, q);
    assert Depth(w, L(i, m)) == 2 * w - i && PassingPlaces(h, L(i, m)) == h;
    hide Depth, PassingPlaces;
    RowOfPlace(f, r, Id(w, L(i, m)), q);
  }

  lemma OutOfGrandFinal(w: nat, h: nat, f: Finish, r: nat, q: nat)
    requires IsFinish(w, h, f) && r < |f.rows| && OutInGrandFinal(w, h, f.game, f.rows[r].entrantId, q)
    ensures f.rows[r].placement == f.rows[r].sharedThrough == q
  {
    var net, m := NetworkOf(w, h), Id(w, GF);
    GrandFinalPlaces(w, h, q);
    hide Answered, NetworkOf, SumAhead, Id;
    RowOfPlace(f, r, m, q);
  }

  lemma GrandFinalPlaces(w: nat, h: nat, q: nat)
    requires w >= 1 && h >= 1 && 1 <= q <= 2 * h
    ensures var net, m := NetworkOf(w, h), Id(w, GF);
            && m < net.count && net.passing(m) == 0 && net.size(m) == 2 * h
            && SumAhead(net, Band(net.distance(m), q), net.count) == q - 1
            && SumAhead(net, Band(net.distance(m), q + 1), net.count) == q
  {
    NetworkAt(w, h, GF);
    assert Depth(w, GF) == 0 && PassingPlaces(h, GF) == 0;
    hide NetworkOf, SumAhead, Id, Depth, PassingPlaces;
    AheadOfGrandFinal(w, h, q);
    AheadOfGrandFinal(w, h, q + 1);
  }

  /** A place that goes nowhere is in the grand final or in the bottom half of a losers match. */
  lemma PlaceIsOut(w: nat, h: nat, game: Game, m: nat, q: nat)
    requires w >= 1 && h >= 1
    requires var net := NetworkOf(w, h); m < net.count && net.passing(m) < q <= net.size(m)
    ensures Out(w, h, game, Placed(game, m, q))
  {
    NodeIs(w, h, m);
    var v := NodeOf(w, m);
    NetworkAt(w, h, v);
    hide NetworkOf, Id, NodeOf, Placed;
    match v
    case W(k, j) =>
    case L(i, j) => assert OutInLosers(w, h, game, Placed(game, m, q), i, j, q);
    case GF => assert OutInGrandFinal(w, h, game, Placed(game, m, q), q);
  }

  lemma EverybodyGoesOut(w: nat, h: nat, f: Finish, r: nat)
    requires IsFinish(w, h, f) && r < |f.rows|
    ensures Out(w, h, f.game, f.rows[r].entrantId)
  {
    hide Answered, NetworkOf, Out, Placed;
    var m, q := PlaceOfRow(f, r);
    PlaceIsOut(w, h, f.game, m, q);
  }

  /**
   * A row as the bracket was played. The entrant went out in the grand final or
   * in the bottom half of a losers match. The q-th of the grand final is q-th
   * alone, so with matches of two the winner is first and the runner-up second.
   * The q-th of a losers round of s matches shares the places a * s + 1 to
   * (a + 1) * s, where a is q - 1 + h after a drop round, q - 1 + 2h after a merge
   * round: with matches of two third, fourth, fifth to sixth, seventh to eighth.
   */
  ghost predicate StandsAsPlayed(w: nat, h: nat, game: Game, row: Row) {
    && Out(w, h, game, row.entrantId)
    && (forall q: nat :: OutInGrandFinal(w, h, game, row.entrantId, q) ==> row.placement == row.sharedThrough == q)
    && (forall i: nat, m: nat, q: nat :: OutInLosers(w, h, game, row.entrantId, i, m, q) ==>
          && i < 2 * w
          && row.placement == LastPlace(w, h, i, q - 1) + 1 && row.sharedThrough == LastPlace(w, h, i, q))
  }

  /** The final standings: every row is as the bracket was played. */
  lemma FinalStandings(w: nat, h: nat, f: Finish, r: nat)
    requires IsFinish(w, h, f) && r < |f.rows|
    ensures StandsAsPlayed(w, h, f.game, f.rows[r])
  {
    EverybodyGoesOut(w, h, f, r);
    hide IsFinish, OutInGrandFinal, Out, LastPlace;
    forall q: nat | OutInGrandFinal(w, h, f.game, f.rows[r].entrantId, q)
      ensures f.rows[r].placement == f.rows[r].sharedThrough == q
    {
      OutOfGrandFinal(w, h, f, r, q);
    }
    forall i: nat, m: nat, q: nat | OutInLosers(w, h, f.game, f.rows[r].entrantId, i, m, q)
      ensures i < 2 * w
      ensures f.rows[r].placement == LastPlace(w, h, i, q - 1) + 1 && f.rows[r].sharedThrough == LastPlace(w, h, i, q)
    {
      OutOfLosers(w, h, f, r, i, m, q);
    }
  }

  // ----- the ending, and from the generator to the standings

  lemma {:induction false} NothingLastBefore(w: nat, h: nat, k: nat)
    requires w >= 1 && h >= 1 && k <= LosersOffset(w, 2 * w)
    ensures LastMatches(NetworkOf(w, h), k) == 0
  {
    hide NetworkOf, LosersOffset;
    if k > 0 {
      NothingLastBefore(w, h, k - 1);
      NotLast(w, h, k - 1);
    }
  }

  lemma NotLast(w: nat, h: nat, m: nat)
    requires w >= 1 && h >= 1 && m < LosersOffset(w, 2 * w)
    ensures NetworkOf(w, h).distance(m) > 0
  {
    NodeIs(w, h, m);
    var v := NodeOf(w, m);
    NetworkAt(w, h, v);
    assert Id(w, GF) == LosersOffset(w, 2 * w);
    hide NetworkOf, NodeOf, Id, LosersOffset;
  }

  /** The grand final is the one ending. */
  lemma OneEnding(w: nat, h: nat, f: Finish)
    requires IsFinish(w, h, f)
    ensures Count(DivisionPlacements.Nodes(f.cs, f.edges), EndsThere(f.g)) == 1
  {
    hide Answered, NetworkOf, LastMatches;
    Endings(f);
    LastCounted(w, h);
  }

  lemma LastCounted(w: nat, h: nat)
    requires w >= 1 && h >= 1
    ensures var net := NetworkOf(w, h); LastMatches(net, net.count) == 1
  {
    NetworkAt(w, h, GF);
    NothingLastBefore(w, h, LosersOffset(w, 2 * w));
    assert NetworkOf(w, h).count == LosersOffset(w, 2 * w) + 1 && Id(w, GF) == LosersOffset(w, 2 * w);
    hide NetworkOf, LosersOffset, Id;
  }

  /** A plan of the generator as a network. */
  function NetworkOfPlan(plan: Plan, w: nat): Network {
    Shaped(w, plan.playerPerMatch / 2, |plan.matches|, plan.routes, plan.seats)
  }

  lemma PlanIsNetwork(plan: Plan, entrantCount: int, h: nat, w: nat)
    requires IsPlan(plan, entrantCount, 2 * h, w) && entrantCount == Pow2(w) * (2 * h)
    ensures w >= 1 && h >= 1 && NetworkOfPlan(plan, w) == NetworkOf(w, h)
  {
    DescribeLength(w, DoubleEliminations.Nodes(w));
    HalfOfDouble(h);
    assert RoundSize(w, 0) == Pow2(w);
    assert plan.seats == FullRound(Pow2(w), 2 * h);
    hide Describe, PlanRoutes, FirstRoundSize, FirstWave, FullRound, DoubleEliminations.Nodes, Pow2, RoundSize;
  }

  lemma HalfOfDouble(h: nat)
    ensures (2 * h) / 2 == h
  {
  }

  /**
   * End to end: the plan the generator makes for as many entrants as its first
   * round seats, stored under any numbers and played out in any way, gives
   * everybody one row, as it was played, and one ending.
   */
  lemma GeneratedStandings(plan: Plan, h: nat, w: nat, f: Finish, r: nat)
    requires IsPlan(plan, |f.entrants|, 2 * h, w) && |f.entrants| == Pow2(w) * (2 * h)
    requires f.b.net == NetworkOfPlan(plan, w) && Answered(f) && r < |f.rows|
    ensures |f.rows| == |f.entrants| && StandsAsPlayed(w, h, f.game, f.rows[r])
    ensures Count(DivisionPlacements.Nodes(f.cs, f.edges), EndsThere(f.g)) == 1
  {
    PlanIsNetwork(plan, |f.entrants|, h, w);
    hide IsPlan, Answered, NetworkOf, NetworkOfPlan, StandsAsPlayed, Count;
    assert IsFinish(w, h, f);
    EverybodyHasARow(f);
    FinalStandings(w, h, f, r);
    OneEnding(w, h, f);
  }
}
