/**
 * The final standings of a single elimination, as the placement resolver reads
 * them from a stored bracket played to its end: whoever finishes q-th d rounds
 * before the last shares the places (q - 1) * 2^d + 1 to q * 2^d.
 */
module SingleEliminationOutcomes {
  import opened BracketPlans
  import opened Sequences
  import opened Pairings
  import opened Seatings
  import opened SingleEliminations
  import opened SingleEliminationNetworks
  import opened DivisionPlacements
  import opened PlayedNetworks
  import opened PlanStandings

  // ----- counting round by round

  /** How many places of a match of round t end a run ahead of a band. */
  function AheadInRound(w: nat, p: nat, b: Band, t: nat): nat
    requires t <= w
  {
    var passing := PassingOf(w, p, t);
    var n := if p >= passing then p - passing else 0;
    if w - t + Finals(p) < b.depth then n
    else if w - t + Finals(p) > b.depth || b.placement - 1 <= passing then 0
    else if b.placement - 1 - passing <= n then b.placement - 1 - passing
    else n
  }

  lemma MatchAhead(w: nat, p: nat, b: Band, t: nat, m: nat)
    requires Fits(w, p) && t <= w && RoundOffset(w, t) <= m < RoundOffset(w, t) + RoundSize(w, t)
    ensures AheadIn(NetworkOf(w, p), b, m, Staying(NetworkOf(w, p), m)) == AheadInRound(w, p, b, t)
  {
    hide Fits, NetworkOf, PassingOf, Finals, RoundOffset, RoundSize;
    NetworkAt(w, p, t, m - RoundOffset(w, t));
  }

  /** How many places of the rounds before round t end a run ahead of a band. */
  ghost function AheadBefore(w: nat, p: nat, b: Band, t: nat): nat
    requires Fits(w, p) && t <= w + 1
  {
    SumAhead(NetworkOf(w, p), b, RoundOffset(w, t))
  }

  lemma RoundCountsAlike(w: nat, p: nat, b: Band, t: nat)
    requires Fits(w, p) && t <= w
    ensures CountAlike(NetworkOf(w, p), b, RoundOffset(w, t), RoundSize(w, t), AheadInRound(w, p, b, t))
  {
    var net := NetworkOf(w, p);
    hide Fits, NetworkOf, RoundOffset, RoundSize, AheadIn, Staying, AheadInRound;
    forall m: nat | RoundOffset(w, t) <= m < RoundOffset(w, t) + RoundSize(w, t)
      ensures AheadIn(net, b, m, Staying(net, m)) == AheadInRound(w, p, b, t)
    {
      MatchAhead(w, p, b, t, m);
    }
  }

  lemma RoundAhead(w: nat, p: nat, b: Band, t: nat)
    requires Fits(w, p) && t <= w
    ensures AheadBefore(w, p, b, t + 1) == AheadBefore(w, p, b, t) + Times(RoundSize(w, t), AheadInRound(w, p, b, t))
  {
    assert RoundOffset(w, t + 1) == RoundOffset(w, t) + RoundSize(w, t);
    hide Fits, NetworkOf, RoundOffset, RoundSize, CountAlike, AheadInRound, SumAhead, Times;
    RoundCountsAlike(w, p, b, t);
    SumOfRow(NetworkOf(w, p), b, RoundOffset(w, t), RoundSize(w, t), AheadInRound(w, p, b, t));
  }

  lemma NotYetAhead(w: nat, p: nat, b: Band, t: nat)
    requires t <= w && w - t + Finals(p) > b.depth
    ensures AheadInRound(w, p, b, t) == 0
  {
  }

  lemma NothingBefore(w: nat, p: nat, b: Band)
    requires Fits(w, p)
    ensures AheadBefore(w, p, b, 0) == 0
  {
    assert RoundOffset(w, 0) == 0;
  }

  /** The rounds before the one of a band are not ahead of it. */
  lemma {:induction false} EarlierRounds(w: nat, p: nat, b: Band, t: nat)
    requires Fits(w, p) && t <= w + 1 && (t > 0 ==> w - (t - 1) + Finals(p) > b.depth)
    ensures AheadBefore(w, p, b, t) == 0
  {
    hide Fits, AheadBefore, RoundSize, AheadInRound, Times, Finals;
    if t > 0 {
      EarlierRounds(w, p, b, t - 1);
      RoundAhead(w, p, b, t - 1);
      NotYetAhead(w, p, b, t - 1);
      TimesNothing(RoundSize(w, t - 1));
    } else {
      NothingBefore(w, p, b);
    }
  }

  lemma EvenHalf(w: nat, p: nat)
    requires Fits(w, p)
    ensures p == 2 * (p / 2) && p / 2 >= 1 && (p > 2 || p == 2)
  {
  }

  /** The band of the q-th of round t. */
  function BandOf(w: nat, p: nat, t: nat, q: nat): Band
    requires t <= w
  {
    Band(w - t + Finals(p), q)
  }

  lemma RoundValue(w: nat, p: nat, t: nat, q: nat, t': nat)
    requires Fits(w, p) && t <= t' <= w && t < w && p / 2 < q <= p + 1
    ensures AheadInRound(w, p, BandOf(w, p, t, q), t') ==
            if t' == t then q - 1 - p / 2 else if t' < w then p / 2 else if p > 2 then 0 else 2
  {
    EvenHalf(w, p);
    hide Fits, Finals;
  }

  lemma RoundSizes(w: nat, t: nat)
    requires 0 < t <= w
    ensures RoundSize(w, t - 1) == Pow2(w - t + 1) && 2 * Pow2(w - t + 1) == Pow2(w - t + 2)
  {
  }

  lemma HalfAsMany(x: nat, h: nat, before: nat, after: nat, total: nat)
    requires before + Times(2 * x, h) == total && after == before + Times(x, h)
    ensures after + Times(x, h) == total
  {
    TimesAdd(x, x, h);
    hide Times;
  }

  lemma FirstOfBand(x: nat, h: nat, q: nat)
    requires q >= h + 1
    ensures Times(x, q - 1 - h) + Times(x, h) == Times(x, q - 1)
  {
    TimesSum(x, q - 1 - h, h);
  }

  /** From the round of a band on, every match adds those of its bottom half. */
  lemma {:induction false} LaterRounds(w: nat, p: nat, t: nat, q: nat, t': nat)
    requires Fits(w, p) && t < t' <= w && p / 2 < q <= p + 1
    ensures AheadBefore(w, p, BandOf(w, p, t, q), t') + Times(Pow2(w - t' + 1), p / 2) == Times(Pow2(w - t), q - 1)
    decreases t'
  {
    hide Fits, AheadBefore, AheadInRound, Times, Pow2, RoundSize, BandOf;
    var b, h := BandOf(w, p, t, q), p / 2;
    RoundSizes(w, t');
    RoundAhead(w, p, b, t' - 1);
    RoundValue(w, p, t, q, t' - 1);
    if t' - 1 == t {
      EarlierRoundsOfBand(w, p, t, q);
      FirstOfBand(Pow2(w - t), h, q);
    } else {
      LaterRounds(w, p, t, q, t' - 1);
      HalfAsMany(Pow2(w - t' + 1), h, AheadBefore(w, p, b, t' - 1), AheadBefore(w, p, b, t'), Times(Pow2(w - t), q - 1));
    }
  }

  lemma EarlierRoundsOfBand(w: nat, p: nat, t: nat, q: nat)
    requires Fits(w, p) && t <= w
    ensures AheadBefore(w, p, BandOf(w, p, t, q), t) == 0
  {
    EarlierRounds(w, p, BandOf(w, p, t, q), t);
  }

  /** The two finals, when there are any, come after all rounds. */
  lemma FinalsAhead(w: nat, p: nat, b: Band)
    requires Fits(w, p) && p > 2
    ensures var net := NetworkOf(w, p);
            SumAhead(net, b, net.count) == AheadBefore(w, p, b, w + 1) + 2 *
              (if b.depth > 0 then p / 2 else if b.placement <= 1 then 0 else if b.placement - 1 <= p / 2 then b.placement - 1 else p / 2)
  {
    var net := NetworkOf(w, p);
    NetworkAtFinal(w, p, 0);
    NetworkAtFinal(w, p, 1);
    assert net.count == FinalId(w, 1) + 1 && FinalId(w, 1) == FinalId(w, 0) + 1;
    hide Fits, NetworkOf, RoundOffset;
    assert SumAhead(net, b, net.count) == SumAhead(net, b, FinalId(w, 1)) + AheadIn(net, b, FinalId(w, 1), Staying(net, FinalId(w, 1)));
    assert SumAhead(net, b, FinalId(w, 1)) == SumAhead(net, b, FinalId(w, 0)) + AheadIn(net, b, FinalId(w, 0), Staying(net, FinalId(w, 0)));
  }

  lemma NoFinals(w: nat, b: Band)
    requires Fits(w, 2)
    ensures var net := NetworkOf(w, 2); SumAhead(net, b, net.count) == AheadBefore(w, 2, b, w + 1)
  {
  }

  /** Ahead of the q-th of a match d rounds before the last end (q - 1) * 2^d runs. */
  lemma AheadOfRound(w: nat, p: nat, t: nat, q: nat)
    requires Fits(w, p) && t <= w && PassingOf(w, p, t) < q <= p + 1 && (t == w ==> p == 2)
    ensures var net := NetworkOf(w, p); SumAhead(net, BandOf(w, p, t, q), net.count) == Times(Pow2(w - t), q - 1)
  {
    var b := BandOf(w, p, t, q);
    EvenHalf(w, p);
    RoundAhead(w, p, b, w);
    assert RoundSize(w, w) == 1 && Pow2(0) == 1 && Pow2(1) == 2;
    if t < w {
      LaterRounds(w, p, t, q, w);
      RoundValue(w, p, t, q, w);
    } else {
      EarlierRoundsOfBand(w, p, t, q);
    }
    if p > 2 {
      FinalsAhead(w, p, b);
    } else {
      NoFinals(w, b);
    }
    hide Fits, AheadBefore, SumAhead, NetworkOf;
    TimesIsProduct(1, AheadInRound(w, p, b, w));
    TimesIsProduct(2, p / 2);
  }

  /** Ahead of the q-th of a final end those better placed in either final. */
  lemma AheadOfFinal(w: nat, p: nat, q: nat)
    requires Fits(w, p) && p > 2 && 1 <= q <= p / 2 + 1
    ensures var net := NetworkOf(w, p); SumAhead(net, Band(0, q), net.count) == 2 * (q - 1)
  {
    EarlierRounds(w, p, Band(0, q), w + 1);
    FinalsAhead(w, p, Band(0, q));
    hide Fits, AheadBefore, SumAhead, NetworkOf;
  }

  // ----- the standings

  /** A stored single elimination, played out and read by the resolver. */
  ghost predicate IsFinish(w: nat, p: nat, f: Finish) {
    Fits(w, p) && f.b.net == NetworkOf(w, p) && Answered(f)
  }

  /** The entrant finished match j of round t in place q and went no further. */
  ghost predicate OutInRound(w: nat, p: nat, game: Game, e: int, t: nat, j: nat, q: nat) {
    && t <= w && j < RoundSize(w, t) && PassingOf(w, p, t) < q <= p && (t == w ==> p == 2)
    && Placed(game, MatchId(w, t, j), q) == e
  }

  /** The entrant finished one of the two finals in place q. */
  ghost predicate OutInFinal(w: nat, p: nat, game: Game, e: int, b: nat, q: nat) {
    p > 2 && b < 2 && 1 <= q <= p / 2 && Placed(game, FinalId(w, b), q) == e
  }

  ghost predicate Out(w: nat, p: nat, game: Game, e: int) {
    || (exists t: nat, j: nat, q: nat :: OutInRound(w, p, game, e, t, j, q))
    || (exists b: nat, q: nat :: OutInFinal(w, p, game, e, b, q))
  }

  /** The last place the q-th of matches in round t share. */
  function LastPlace(w: nat, t: nat, q: int): int
    requires t <= w
  {
    q * Pow2(w - t)
  }

  lemma RoundPlaces(w: nat, p: nat, t: nat, q: nat)
    requires Fits(w, p) && t <= w && PassingOf(w, p, t) < q <= p && (t == w ==> p == 2)
    ensures var net, d := NetworkOf(w, p), w - t + Finals(p);
            && SumAhead(net, Band(d, q), net.count) == LastPlace(w, t, q - 1)
            && SumAhead(net, Band(d, q + 1), net.count) == LastPlace(w, t, q)
  {
    AheadOfRound(w, p, t, q);
    AheadOfRound(w, p, t, q + 1);
    hide Fits, NetworkOf, SumAhead, PassingOf, Finals, Pow2;
    TimesIsProduct(Pow2(w - t), q - 1);
    TimesIsProduct(Pow2(w - t), q);
    hide Times;
    Commuted(q - 1, Pow2(w - t));
    Commuted(q, Pow2(w - t));
  }

  lemma Commuted(a: int, b: int)
    ensures a * b == b * a
  {
  }

  lemma OutOfRound(w: nat, p: nat, f: Finish, i: nat, t: nat, j: nat, q: nat)
    requires IsFinish(w, p, f) && i < |f.rows| && OutInRound(w, p, f.game, f.rows[i].entrantId, t, j, q)
    ensures t <= w && f.rows[i].placement == LastPlace(w, t, q - 1) + 1 && f.rows[i].sharedThrough == LastPlace(w, t, q)
    ensures f.rows[i].exitKind == MatchKind && f.rows[i].exitId == f.b.id(MatchId(w, t, j))
  {
    hide Answered, Fits, NetworkOf, SumAhead, LastPlace, RoundSize, PassingOf, Finals, MatchId;
    NetworkAt(w, p, t, j);
    RoundPlaces(w, p, t, q);
    RowOfPlace(f, i, MatchId(w, t, j), q);
  }

  lemma OutOfFinal(w: nat, p: nat, f: Finish, i: nat, b: nat, q: nat)
    requires IsFinish(w, p, f) && i < |f.rows| && OutInFinal(w, p, f.game, f.rows[i].entrantId, b, q)
    ensures f.rows[i].placement == 2 * (q - 1) + 1 && f.rows[i].sharedThrough == 2 * q
    ensures f.rows[i].exitKind == MatchKind && f.rows[i].exitId == f.b.id(FinalId(w, b))
  {
    NetworkAtFinal(w, p, b);
    AheadOfFinal(w, p, q);
    AheadOfFinal(w, p, q + 1);
    hide Answered, Fits, NetworkOf, SumAhead, FinalId;
    RowOfPlace(f, i, FinalId(w, b), q);
  }

  /** A place past the passing ones is one of a round or of a final. */
  lemma PlaceIsOut(w: nat, p: nat, game: Game, m: nat, q: nat)
    requires Fits(w, p)
    requires var net := NetworkOf(w, p); m < net.count && net.passing(m) < q <= net.size(m)
    ensures Out(w, p, game, Placed(game, m, q))
  {
    EvenHalf(w, p);
    var e := Placed(game, m, q);
    if m < RoundOffset(w, w + 1) {
      var j := MatchOfId(w, m, w);
      var t := RoundOf(w, m, w);
      NetworkAt(w, p, t, j);
      hide Fits, NetworkOf, RoundOffset, RoundSize, MatchId;
      assert OutInRound(w, p, game, e, t, j, q);
    } else {
      var b := m - RoundOffset(w, w + 1);
      assert p > 2 && b < 2 && m == FinalId(w, b);
      hide RoundOffset;
      NetworkAtFinal(w, p, b);
      hide Fits, NetworkOf;
      assert OutInFinal(w, p, game, e, b, q);
    }
  }

  /** Everybody with a row went out in a round or in a final. */
  lemma EverybodyGoesOut(w: nat, p: nat, f: Finish, i: nat)
    requires IsFinish(w, p, f) && i < |f.rows|
    ensures Out(w, p, f.game, f.rows[i].entrantId)
  {
    var m, q := PlaceOfRow(f, i);
    hide Answered, Fits, NetworkOf, Out, Placed;
    PlaceIsOut(w, p, f.game, m, q);
  }

  /**
   * A row as the bracket was played. The entrant went out; going out q-th of a
   * match d rounds before the last is sharing the places (q - 1) * 2^d + 1 to
   * q * 2^d, and being q-th of one of two finals the places 2q - 1 and 2q. So in
   * matches of two the winner is first, the runner-up second, the beaten
   * semi-finalists third to fourth.
   */
  ghost predicate StandsAsPlayed(w: nat, p: nat, game: Game, row: Row) {
    && Out(w, p, game, row.entrantId)
    && (forall t: nat, j: nat, q: nat :: OutInRound(w, p, game, row.entrantId, t, j, q) ==>
          t <= w && row.placement == LastPlace(w, t, q - 1) + 1 && row.sharedThrough == LastPlace(w, t, q))
    && (forall b: nat, q: nat :: OutInFinal(w, p, game, row.entrantId, b, q) ==>
          row.placement == 2 * (q - 1) + 1 && row.sharedThrough == 2 * q)
  }

  /** The final standings: every row is as the bracket was played. */
  lemma FinalStandings(w: nat, p: nat, f: Finish, i: nat)
    requires IsFinish(w, p, f) && i < |f.rows|
    ensures StandsAsPlayed(w, p, f.game, f.rows[i])
  {
    hide IsFinish, OutInRound, OutInFinal, Out, LastPlace;
    EverybodyGoesOut(w, p, f, i);
    forall t: nat, j: nat, q: nat | OutInRound(w, p, f.game, f.rows[i].entrantId, t, j, q)
      ensures t <= w && f.rows[i].placement == LastPlace(w, t, q - 1) + 1 && f.rows[i].sharedThrough == LastPlace(w, t, q)
    {
      OutOfRound(w, p, f, i, t, j, q);
    }
    forall b: nat, q: nat | OutInFinal(w, p, f.game, f.rows[i].entrantId, b, q)
      ensures f.rows[i].placement == 2 * (q - 1) + 1 && f.rows[i].sharedThrough == 2 * q
    {
      OutOfFinal(w, p, f, i, b, q);
    }
  }

  // ----- from the generator to the standings

  /** A plan of the generator as a network. */
  function NetworkOfPlan(plan: Plan, w: nat): Network {
    Shaped(w, plan.playerPerMatch, |plan.matches|, plan.routes, plan.seats)
  }

  lemma PlanLength(w: nat, p: nat)
    ensures |PlanMatches(w, p)| == RoundOffset(w, w + 1) + if p > 2 then 2 else 0
  {
    DescriptorCount(w, w + 1);
  }

  lemma PlanIsNetwork(plan: Plan, entrantCount: int, p: nat, w: nat)
    requires IsPlan(plan, entrantCount, p, w) && p % 2 == 0 && entrantCount == Pow2(w) * p
    ensures Fits(w, p) && NetworkOfPlan(plan, w) == NetworkOf(w, p)
  {
    PlanLength(w, p);
    assert plan.seats == FullRound(Pow2(w), p);
    hide PlanMatches, PlanRoutes, SlotsUpTo, AllFillable, AllBalanced, FirstRoundSize, FirstWave, RoundOffset;
  }

  /**
   * End to end. Take the plan the generator makes for as many entrants as its
   * first round seats, with matches of an even size. Store its matches under any
   * numbers, in one pool, with a rule for every route. Play it out in any way. Of
   * what the resolver answers: everybody has one row; the row of whoever went out
   * q-th of a match d rounds before the last shows (q - 1) * 2^d + 1 through
   * q * 2^d, that of the q-th of a final 2q - 1 through 2q; and the endings are
   * the last match, or the two finals.
   */
  lemma GeneratedStandings(plan: Plan, p: nat, w: nat, f: Finish, i: nat)
    requires IsPlan(plan, |f.entrants|, p, w) && p % 2 == 0 && |f.entrants| == Pow2(w) * p
    requires f.b.net == NetworkOfPlan(plan, w) && Answered(f) && i < |f.rows|
    ensures |f.rows| == |f.entrants| && StandsAsPlayed(w, p, f.game, f.rows[i])
    ensures Count(Nodes(f.cs, f.edges), EndsThere(f.g)) == if p > 2 then 2 else 1
  {
    PlanIsNetwork(plan, |f.entrants|, p, w);
    hide IsPlan, Answered, Fits, NetworkOf, NetworkOfPlan, StandsAsPlayed, Count, Nodes;
    assert IsFinish(w, p, f);
    EverybodyHasARow(f);
    FinalStandings(w, p, f, i);
    EndingsOfRounds(w, p, f);
  }

  lemma {:induction false} RoundsAreNotLast(w: nat, p: nat, k: nat)
    requires Fits(w, p) && k <= RoundOffset(w, w + 1) && (p > 2 || k <= RoundOffset(w, w))
    ensures LastMatches(NetworkOf(w, p), k) == 0
  {
    if k > 0 {
      RoundsAreNotLast(w, p, k - 1);
      var j := MatchOfId(w, k - 1, w);
      var t := RoundOf(w, k - 1, w);
      NetworkAt(w, p, t, j);
      LastRound(w);
      hide Fits, NetworkOf;
    }
  }

  /** One ending for matches of two, and the two finals otherwise. */
  lemma EndingsOfRounds(w: nat, p: nat, f: Finish)
    requires IsFinish(w, p, f)
    ensures Count(Nodes(f.cs, f.edges), EndsThere(f.g)) == if p > 2 then 2 else 1
  {
    Endings(f);
    EvenHalf(w, p);
    LastCounted(w, p);
    hide Answered, NetworkOf, Fits, LastMatches;
  }

  lemma LastCounted(w: nat, p: nat)
    requires Fits(w, p)
    ensures var net := NetworkOf(w, p); LastMatches(net, net.count) == if p > 2 then 2 else 1
  {
    var net := NetworkOf(w, p);
    EvenHalf(w, p);
    LastRound(w);
    NetworkAt(w, p, w, 0);
    assert RoundOffset(w, w + 1) == RoundOffset(w, w) + 1 && MatchId(w, w, 0) == RoundOffset(w, w);
    if p > 2 {
      RoundsAreNotLast(w, p, RoundOffset(w, w + 1));
      NetworkAtFinal(w, p, 0);
      NetworkAtFinal(w, p, 1);
      assert net.count == RoundOffset(w, w + 1) + 2;
      hide Fits, NetworkOf, RoundOffset;
      assert LastMatches(net, net.count) == LastMatches(net, net.count - 1) + 1;
      assert LastMatches(net, net.count - 1) == LastMatches(net, net.count - 2) + 1;
    } else {
      RoundsAreNotLast(w, p, RoundOffset(w, w));
      assert net.count == RoundOffset(w, w) + 1;
      hide Fits, NetworkOf, RoundOffset;
    }
  }

  // ----- who plays in a round

  /** The entrant sits in some match of the round. */
  ghost predicate InRound(w: nat, p: nat, game: Game, t: nat, e: int) {
    t <= w && exists j: nat, s: nat :: SitsIn(w, p, game, t, e, j, s)
  }

  ghost predicate SitsIn(w: nat, p: nat, game: Game, t: nat, e: int, j: nat, s: nat) {
    t <= w && j < RoundSize(w, t) && 1 <= s <= p && game.held(MatchId(w, t, j), s) == e
  }

  lemma SitsAtSpot(w: nat, p: nat, entrants: seq<Entrant>, game: Game, t: nat, e: int, j: nat, s: nat)
    requires Fits(w, p) && SitsIn(w, p, game, t, e, j, s)
    ensures var net, x := NetworkOf(w, p), Spot(MatchId(w, t, j), s);
            IsSpot(net, x) && HeldAt(game, x) == e && net.distance(x.m) == w - t + Finals(p) && (x.m < net.first <==> t == 0)
  {
    NetworkAt(w, p, t, j);
  }

  /** Whoever plays in a round played in every round before it. */
  lemma {:induction false} RoundsNest(w: nat, p: nat, entrants: seq<Entrant>, game: Game, t: nat, t': nat, e: int)
    requires Fits(w, p) && PlayedOut(NetworkOf(w, p), entrants, game) && t <= t' && InRound(w, p, game, t', e)
    ensures InRound(w, p, game, t, e)
    decreases t'
  {
    if t < t' {
      RoundBefore(w, p, entrants, game, t', e);
      hide Fits, PlayedOut, InRound;
      RoundsNest(w, p, entrants, game, t, t' - 1, e);
    }
  }

  lemma RoundBefore(w: nat, p: nat, entrants: seq<Entrant>, game: Game, t: nat, e: int)
    requires Fits(w, p) && PlayedOut(NetworkOf(w, p), entrants, game) && t > 0 && InRound(w, p, game, t, e)
    ensures InRound(w, p, game, t - 1, e)
  {
    var net := NetworkOf(w, p);
    var j: nat, s: nat :| SitsIn(w, p, game, t, e, j, s);
    SitsAtSpot(w, p, entrants, game, t, e, j, s);
    NetworkGood(w, p);
    var y := Spot(MatchId(w, t, j), s);
    var x := Before(net, entrants, game, y);
    var r := Route(x.m, PlaceOf(game, x), y.m, y.slot);
    RouteGood(w, p, r);
    assert net.distance(x.m) == w - (t - 1) + Finals(p);
    RoundOfSpot(w, p, x, t - 1);
    var j' := MatchOfId(w, x.m, w);
    hide Fits, NetworkOf, PlayedOut, WellFormed, Onward;
    assert SitsIn(w, p, game, t - 1, e, j', x.slot);
  }

  lemma RoundOfSpot(w: nat, p: nat, x: Spot, t: nat)
    requires Fits(w, p) && IsSpot(NetworkOf(w, p), x) && t < w && NetworkOf(w, p).distance(x.m) == w - t + Finals(p)
    ensures x.m < RoundOffset(w, w + 1) && RoundOf(w, x.m, w) == t && x.slot <= p
  {
  }

  lemma InNextRound(w: nat, p: nat, game: Game, t: nat, y: Spot)
    requires Fits(w, p) && t < w && IsSpot(NetworkOf(w, p), y) && NetworkOf(w, p).distance(y.m) == w - (t + 1) + Finals(p)
    requires y.m < RoundOffset(w, w + 1)
    ensures InRound(w, p, game, t + 1, HeldAt(game, y))
  {
    var j := MatchOfId(w, y.m, w);
    assert SitsIn(w, p, game, t + 1, HeldAt(game, y), j, y.slot);
  }

  /** The bottom half of a match is not in the next round; the top half is. */
  lemma LosersLeave(w: nat, p: nat, entrants: seq<Entrant>, game: Game, t: nat, j: nat, q: nat)
    requires Fits(w, p) && PlayedOut(NetworkOf(w, p), entrants, game) && t < w && j < RoundSize(w, t) && 1 <= q <= p
    ensures InRound(w, p, game, t + 1, Placed(game, MatchId(w, t, j), q)) <==> q <= p / 2
  {
    var net, m := NetworkOf(w, p), MatchId(w, t, j);
    NetworkGood(w, p);
    NetworkAt(w, p, t, j);
    MatchDecided(net, entrants, game, m);
    var x := Spot(m, game.slot(m, q));
    if q <= p / 2 {
      var y := After(net, entrants, game, x);
      RouteGood(w, p, Route(x.m, PlaceOf(game, x), y.m, y.slot));
      assert net.distance(y.m) == w - (t + 1) + Finals(p);
      NextIsRound(w, p, t, y.m);
      hide Fits, NetworkOf, PlayedOut, WellFormed, Onward, InRound;
      InNextRound(w, p, game, t, y);
    } else if InRound(w, p, game, t + 1, HeldAt(game, x)) {
      var j': nat, s: nat :| SitsIn(w, p, game, t + 1, HeldAt(game, x), j', s);
      SitsAtSpot(w, p, entrants, game, t + 1, HeldAt(game, x), j', s);
      hide Fits, NetworkOf, PlayedOut, WellFormed;
      EndIsClosest(net, entrants, game, x, Spot(MatchId(w, t + 1, j'), s));
    }
  }

  lemma NextIsRound(w: nat, p: nat, t: nat, m: nat)
    requires Fits(w, p) && t < w && NetworkOf(w, p).distance(m) == w - (t + 1) + Finals(p) && m < NetworkOf(w, p).count
    ensures m < RoundOffset(w, w + 1)
  {
  }

  lemma FinalCarried(w: nat, p: nat, entrants: seq<Entrant>, game: Game, q: nat)
    requires Fits(w, p) && p > 2 && PlayedOut(NetworkOf(w, p), entrants, game) && q < p
    ensures Carried(game, FinalRoute(w, p, q))
  {
    AllSlotsFillable(w, p);
    hide SlotsUpTo, FinalRoute, AllFillable, AllBalanced, Carried, DifferentEntrants, EntrantsSeated, Decided, RoundOffset, FullRound;
    var i := |SlotsUpTo(w, p, w)| + q;
    assert PlanRoutes(w, p)[i] == FinalRoute(w, p, q);
    assert FinalRoute(w, p, q) in NetworkOf(w, p).routes;
  }

  lemma LastIds(w: nat)
    ensures MatchId(w, w, 0) == 2 * Pow2(w) - 2 && FinalId(w, 0) == 2 * Pow2(w) - 1 && FinalId(w, 1) == 2 * Pow2(w)
  {
    RoundTotal(w, w);
    RoundTotal(w, w + 1);
  }

  /**
   * Above two players a match, the first final seats the top half of the last
   * match and the second final the rest, each in the order they finished.
   */
  lemma FinalsSeatHalves(w: nat, p: nat, entrants: seq<Entrant>, game: Game, s: nat)
    requires Fits(w, p) && p > 2 && PlayedOut(NetworkOf(w, p), entrants, game) && 1 <= s <= p / 2
    ensures var last := 2 * Pow2(w) - 2;
            && game.held(last + 1, s) == Placed(game, last, s)
            && game.held(last + 2, s) == Placed(game, last, p / 2 + s)
  {
    hide Fits, NetworkOf, PlayedOut, Pow2, MatchId, FinalId;
    LastIds(w);
    FinalCarried(w, p, entrants, game, s - 1);
    FinalCarried(w, p, entrants, game, p / 2 + s - 1);
  }
}
