/**
 * Where the matches of a single elimination stand and which one leads to which,
 * said of the finished plan: by the numbers of its descriptors and of its routes.
 */
module SingleEliminationRoutes {
  import opened BracketPlans
  import opened Pairings
  import opened SingleEliminations

  // ----- positions

  lemma {:induction false} DescriptorAt(w: nat, t: nat, id: nat) returns (k: nat)
    requires t <= w + 1 && id < RoundOffset(w, t)
    ensures |Descriptors(w, t)| == RoundOffset(w, t)
    ensures k <= w && RoundOffset(w, k) <= id < RoundOffset(w, k) + RoundSize(w, k)
    ensures Descriptors(w, t)[id] == Match(Single, k, w + 1, id - RoundOffset(w, k), RoundSize(w, k))
  {
    DescriptorCount(w, t);
    DescriptorCount(w, t - 1);
    if id < RoundOffset(w, t - 1) {
      k := DescriptorAt(w, t - 1, id);
    } else {
      k := t - 1;
    }
  }

  /** The descriptor says what the match is, and where in the plan it stands. */
  ghost predicate StandsAt(w: nat, d: Match, id: nat) {
    && d.matchIndex < d.matchCount
    && match d.kind
       case Single =>
         && d.roundCount == w + 1 && d.roundIndex <= w && d.matchCount == Pow2(w - d.roundIndex)
         && id == 2 * Pow2(w) - 2 * d.matchCount + d.matchIndex
       case Final => d.roundIndex == w + 1 && d.roundCount == w + 2 && d.matchCount == 2 && id == 2 * Pow2(w) - 1 + d.matchIndex
       case Winners => false
       case Losers => false
  }

  lemma MatchStands(w: nat, p: nat, id: nat)
    requires id < |PlanMatches(w, p)|
    ensures StandsAt(w, PlanMatches(w, p)[id], id)
    ensures id < RoundOffset(w, w + 1) <==> PlanMatches(w, p)[id].kind == Single
  {
    DescriptorCount(w, w + 1);
    RoundTotal(w, w + 1);
    if id < RoundOffset(w, w + 1) {
      var k := DescriptorAt(w, w + 1, id);
      RoundTotal(w, k);
      hide Descriptors;
    }
  }

  /**
   * The plan lists rounds of n, n/2, ..., 1 matches, and above two players a match
   * a round of two finals.
   */
  lemma EveryMatchStands(plan: Plan, entrantCount: int, p: nat, w: nat, id: nat)
    requires IsPlan(plan, entrantCount, p, w)
    ensures |plan.matches| == 2 * Pow2(w) - 1 + if p > 2 then 2 else 0
    ensures id < |plan.matches| ==> StandsAt(w, plan.matches[id], id)
  {
    RoundTotal(w, w + 1);
    DescriptorCount(w, w + 1);
    if id < |plan.matches| {
      MatchStands(w, p, id);
    }
    hide StandsAt, AllBalanced, AllFillable, PlanRoutes, SlotsUpTo, FirstRoundSize, FirstWave, Descriptors, RoundOffset;
  }

  // ----- from one round to the next

  /** How many matches in a row send finishers of one place to one match. */
  function Neighbours(p: nat): nat {
    if p == 2 then 2 else (p + 1) / 2
  }

  /**
   * First, third, ... places go to the match of the next round that stands in for
   * their group of neighbours from the front, second, fourth, ... from the back.
   */
  ghost predicate GoesOn(p: nat, r: Route, d: Match, e: Match) {
    && d.kind == Single && e.kind == Single && e.roundIndex == d.roundIndex + 1 && Neighbours(p) > 0
    && 1 <= r.placement <= (p + 1) / 2
    && e.matchIndex == if r.placement % 2 == 1 then d.matchIndex / Neighbours(p) else e.matchCount - 1 - d.matchIndex / Neighbours(p)
  }

  /** The last match sends its top half, in order, to the first final, and the others to the second. */
  ghost predicate GoesToFinal(w: nat, p: nat, r: Route, d: Match, e: Match) {
    && p > 2 && d.kind == Single && d.roundIndex == w && e.kind == Final && 1 <= r.placement <= p
    && (if r.placement <= p / 2 then e.matchIndex == 0 && r.slot == r.placement
        else e.matchIndex == 1 && r.slot == r.placement - p / 2)
  }

  lemma DescriptorOf(w: nat, p: nat, t: nat, m: nat)
    requires t <= w && m < RoundSize(w, t)
    ensures MatchId(w, t, m) < |PlanMatches(w, p)|
    ensures PlanMatches(w, p)[MatchId(w, t, m)] == Match(Single, t, w + 1, m, RoundSize(w, t))
  {
    RoundOffsetStep(w, t, w + 1);
    var k := DescriptorAt(w, w + 1, MatchId(w, t, m));
    MatchIdInjective(w, t, m, k, MatchId(w, t, m) - RoundOffset(w, k));
    hide Descriptors, RoundOffset;
  }

  lemma DealtTo(p: nat, size: nat, e: PlayerInfo, m: nat)
    requires p >= 2 && BucketOf(2 * size, Group(p), e.place, e.match_) == m && e.place < Passes(p)
    ensures Neighbours(p) > 0 && 1 <= e.place + 1 <= (p + 1) / 2
    ensures m == if (e.place + 1) % 2 == 1 then e.match_ / Neighbours(p) else size - 1 - e.match_ / Neighbours(p)
  {
  }

  lemma FillerGoesOn(w: nat, p: nat, x: Slot)
    requires p >= 2 && Fillable(w, p, x)
    ensures var r, ms := RouteInto(w, p, x), PlanMatches(w, p);
            r.source < |ms| && r.target < |ms| && GoesOn(p, r, ms[r.source], ms[r.target])
  {
    FillerInfo(w, p, x);
    RoundsHalve(w, p, x.t);
    var e := Filler(w, p, x);
    hide PlanMatches, RoundSize, RoundOffset, Bucket, MatchId, BucketOf, Group, Passes, Pow2, Neighbours;
    DealtTo(p, RoundSize(w, x.t), e, x.m);
    DescriptorOf(w, p, x.t - 1, e.match_);
    DescriptorOf(w, p, x.t, x.m);
  }

  lemma FinalGoes(w: nat, p: nat, q: nat)
    requires p > 2 && q < p
    ensures var r, ms := FinalRoute(w, p, q), PlanMatches(w, p);
            r.source < |ms| && r.target < |ms| && GoesToFinal(w, p, r, ms[r.source], ms[r.target])
  {
    LastRound(w);
    DescriptorOf(w, p, w, 0);
    DescriptorCount(w, w + 1);
    hide Descriptors, RoundOffset, RoundSize;
  }

  /** Every route goes on to the next round, or from the last match to its final. */
  lemma EveryRouteGoes(plan: Plan, entrantCount: int, p: nat, w: nat, r: Route)
    requires IsPlan(plan, entrantCount, p, w) && r in plan.routes
    ensures r.source < |plan.matches| && r.target < |plan.matches|
    ensures var d, e := plan.matches[r.source], plan.matches[r.target]; GoesOn(p, r, d, e) || GoesToFinal(w, p, r, d, e)
  {
    var j :| 0 <= j < |plan.routes| && plan.routes[j] == r;
    PlanRouteAt(w, p, j);
    var xs := SlotsUpTo(w, p, w);
    hide PlanRoutes, SlotsUpTo, PlanMatches, AllBalanced, AllFillable, FirstRoundSize, FirstWave, RouteInto, FinalRoute, GoesOn, GoesToFinal, Fillable;
    if j < |xs| {
      FillerGoesOn(w, p, xs[j]);
    } else {
      FinalGoes(w, p, j - |xs|);
    }
  }

  // ----- from the first round on

  /** How often the run finished second, fourth, and so on. */
  function Turns(run: seq<Route>): nat {
    if run == [] then 0 else Turns(run[..|run| - 1]) + if run[|run| - 1].placement % 2 == 0 then 1 else 0
  }

  /** The match stands y-th from the front or, after an odd number of turns, from the back. */
  ghost predicate StandsFromFront(turns: nat, y: nat, e: Match) {
    e.matchIndex == if turns % 2 == 0 then y else e.matchCount - 1 - y
  }

  /** After t routes from first-round match x: match x / 2^t of round t, from the front or from the back. */
  ghost predicate LandsOn(run: seq<Route>, x: nat, e: Match) {
    e.roundIndex == |run| && StandsFromFront(Turns(run), x / Pow2(|run|), e)
  }

  lemma StandsFromFrontNext(p: nat, turns: nat, y: nat, r: Route, d: Match, e: Match)
    requires 2 <= p <= 4 && StandsFromFront(turns, y, d) && GoesOn(p, r, d, e) && d.matchCount == 2 * e.matchCount
    ensures StandsFromFront(turns + if r.placement % 2 == 0 then 1 else 0, y / 2, e)
  {
    assert Neighbours(p) == 2;
    if turns % 2 == 1 {
      assert (2 * e.matchCount - 1 - y) / 2 == e.matchCount - 1 - y / 2;
    }
  }

  lemma LandsOneFurther(p: nat, before: seq<Route>, r: Route, x: nat, d: Match, e: Match)
    requires 2 <= p <= 4 && LandsOn(before, x, d) && GoesOn(p, r, d, e) && d.matchCount == 2 * e.matchCount
    ensures LandsOn(before + [r], x, e)
  {
    hide Pow2, StandsFromFront, Neighbours;
    assert (before + [r])[..|before|] == before;
    QuotientTwice(x, |before|);
    StandsFromFrontNext(p, Turns(before), x / Pow2(|before|), r, d, e);
  }

  lemma FirstLands(plan: Plan, entrantCount: int, p: nat, w: nat, x: nat)
    requires IsPlan(plan, entrantCount, p, w) && x < Pow2(w)
    ensures x < |plan.matches| && plan.matches[x].kind == Single && LandsOn([], x, plan.matches[x])
  {
    DescriptorOf(w, p, 0, x);
    assert MatchId(w, 0, x) == x && x / Pow2(0) == x && Turns([]) == 0;
    hide PlanMatches, PlanRoutes, SlotsUpTo, AllBalanced, AllFillable, FirstRoundSize, FirstWave;
  }

  lemma RoundsHalved(plan: Plan, entrantCount: int, p: nat, w: nat, id: nat, id': nat)
    requires IsPlan(plan, entrantCount, p, w) && id < |plan.matches| && id' < |plan.matches|
    requires plan.matches[id].kind == Single && plan.matches[id'].kind == Single
    requires plan.matches[id'].roundIndex == plan.matches[id].roundIndex + 1
    ensures plan.matches[id].matchCount == 2 * plan.matches[id'].matchCount && plan.matches[id].matchIndex < plan.matches[id].matchCount
  {
    EveryMatchStands(plan, entrantCount, p, w, id);
    EveryMatchStands(plan, entrantCount, p, w, id');
    hide IsPlan;
  }

  /**
   * With up to four players a match, a run from first-round match x has come after
   * t routes to match x / 2^t of round t, or to its mirror image if it finished
   * an odd number of times in an even place.
   */
  lemma {:induction false} RunLandsOn(plan: Plan, entrantCount: int, p: nat, w: nat, run: seq<Route>)
    requires IsPlan(plan, entrantCount, p, w) && p <= 4 && IsRun(plan.routes, Pow2(w), run)
    ensures run != [] && run[|run| - 1].target < |plan.matches|
    ensures var e := plan.matches[run[|run| - 1].target]; e.kind == Single ==> LandsOn(run, run[0].source, e)
  {
    hide IsRun, LandsOn, GoesOn, Pow2;
    LastOfRun(plan.routes, Pow2(w), run);
    var before, last := run[..|run| - 1], run[|run| - 1];
    EveryRouteGoes(plan, entrantCount, p, w, last);
    assert p >= 2;
    var d, e := plan.matches[last.source], plan.matches[last.target];
    if before == [] {
      FirstLands(plan, entrantCount, p, w, last.source);
    } else {
      RunLandsOn(plan, entrantCount, p, w, before);
    }
    if e.kind == Single {
      RoundAfter(p, last, d, e);
      hide IsPlan;
      RoundsHalved(plan, entrantCount, p, w, last.source, last.target);
      LandsOneFurther(p, before, last, run[0].source, d, e);
    }
  }

  lemma RoundAfter(p: nat, r: Route, d: Match, e: Match)
    requires GoesOn(p, r, d, e)
    ensures d.kind == Single && e.roundIndex == d.roundIndex + 1
  {
  }

  // ----- the order in which a match is filled

  /** Better places come first, and of one place the earlier match. */
  ghost predicate SeatedFirst(r: Route, r': Route) {
    r.placement < r'.placement || (r.placement == r'.placement && r.source < r'.source)
  }

  lemma FillersInOrder(w: nat, p: nat, x: Slot, y: Slot)
    requires p >= 2 && Fillable(w, p, x) && Fillable(w, p, y) && x.t == y.t && x.m == y.m && x.slot < y.slot
    ensures SeatedFirst(RouteInto(w, p, x), RouteInto(w, p, y))
  {
    FilledInOrder(RoundSize(w, x.t - 1), Group(p), x.m, Passes(p));
    hide RoundSize, RoundOffset, Filled;
  }

  lemma RouteInOrder(w: nat, p: nat, i: nat, j: nat)
    requires p >= 2 && AllFillable(w, p, SlotsUpTo(w, p, w)) && i < |PlanRoutes(w, p)| && j < |PlanRoutes(w, p)|
    requires PlanRoutes(w, p)[i].target == PlanRoutes(w, p)[j].target && PlanRoutes(w, p)[i].slot < PlanRoutes(w, p)[j].slot
    ensures SeatedFirst(PlanRoutes(w, p)[i], PlanRoutes(w, p)[j])
  {
    PlanRouteAt(w, p, i);
    PlanRouteAt(w, p, j);
    var xs := SlotsUpTo(w, p, w);
    hide PlanRoutes, SlotsUpTo, RoundSize, RoundOffset, Bucket, MatchId, Filler;
    if i < |xs| && j < |xs| {
      MatchIdInjective(w, xs[i].t, xs[i].m, xs[j].t, xs[j].m);
      FillersInOrder(w, p, xs[i], xs[j]);
    } else if i < |xs| {
      MatchIdInjective(w, xs[i].t, xs[i].m, xs[i].t, xs[i].m);
    } else if j < |xs| {
      MatchIdInjective(w, xs[j].t, xs[j].m, xs[j].t, xs[j].m);
    }
  }

  /** Of two routes into one match the lower slot goes to the better place, or to the earlier match if the places are alike. */
  lemma SlotsInOrder(plan: Plan, entrantCount: int, p: nat, w: nat, r: Route, r': Route)
    requires IsPlan(plan, entrantCount, p, w) && r in plan.routes && r' in plan.routes && r.target == r'.target && r.slot < r'.slot
    ensures SeatedFirst(r, r')
  {
    var i :| 0 <= i < |plan.routes| && plan.routes[i] == r;
    var j :| 0 <= j < |plan.routes| && plan.routes[j] == r';
    hide PlanRoutes, SlotsUpTo, PlanMatches, AllBalanced, FirstRoundSize, FirstWave, SeatedFirst;
    RouteInOrder(w, p, i, j);
  }

  // ----- seats and byes

  /**
   * Every entrant has a seat, the byes are the slots of the first round without
   * one, and half as many first-round matches would not have been enough.
   */
  lemma SeatsAndByes(plan: Plan, entrantCount: nat, p: nat, w: nat)
    requires IsPlan(plan, entrantCount, p, w)
    ensures |plan.seats| == plan.entrantCount == entrantCount && |plan.seats| + plan.byes == Pow2(w) * p && plan.byes >= 0
    ensures w > 0 ==> Pow2(w - 1) * p < entrantCount
  {
    hide PlanRoutes, FirstWave;
    if w > 0 {
      assert Pow2(w) == 2 * Pow2(w - 1);
      assert !(Pow2(w - 1) >= Pow2(w));
    }
  }
}
