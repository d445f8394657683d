/**
 * A generated single elimination as a network: with matches of an even size that
 * can be paired in every round, each round sends its top halves to the next, and
 * the last match ranks everybody, itself or through two finals.
 */
module SingleEliminationNetworks {
  import opened BracketPlans
  import opened Seatings
  import opened Pairings
  import opened SingleEliminations
  import opened PlayedNetworks

  /** The sizes for which nobody is lost and no pairing is missing. */
  ghost predicate Fits(w: nat, p: nat) {
    p >= 2 && p % 2 == 0 && AllBalanced(w, p)
  }

  ghost function Routes(w: nat, p: nat): seq<Route>
    requires Fits(w, p)
  {
    AllSlotsFillable(w, p);
    PlanRoutes(w, p)
  }

  // ----- rounds by identifier

  /** The round a match belongs to, looking down from round t. */
  function RoundOf(w: nat, id: nat, t: nat): (r: nat)
    requires t <= w
    ensures r <= t
  {
    if t == 0 || id >= RoundOffset(w, t) then t else RoundOf(w, id, t - 1)
  }

  lemma {:induction false} RoundOfMatch(w: nat, t: nat, j: nat, from: nat)
    requires t <= from <= w && j < RoundSize(w, t)
    ensures RoundOf(w, MatchId(w, t, j), from) == t
    decreases from
  {
    if t < from {
      RoundOffsetStep(w, t, from);
      RoundOfMatch(w, t, j, from - 1);
    }
  }

  lemma {:induction false} MatchOfId(w: nat, id: nat, t: nat) returns (j: nat)
    requires t <= w && id < RoundOffset(w, t + 1)
    ensures j < RoundSize(w, RoundOf(w, id, t)) && id == MatchId(w, RoundOf(w, id, t), j)
  {
    if t == 0 || id >= RoundOffset(w, t) {
      j := id - RoundOffset(w, t);
    } else {
      j := MatchOfId(w, id, t - 1);
    }
  }

  // ----- the network

  /** How many routes the last match of the rounds is away from the end. */
  function Finals(p: nat): nat {
    if p > 2 then 1 else 0
  }

  function SizeAt(w: nat, p: nat, m: nat): nat {
    if m < RoundOffset(w, w + 1) then p else p / 2
  }

  function PassingAt(w: nat, p: nat, m: nat): nat {
    if m < RoundOffset(w, w) then p / 2
    else if m < RoundOffset(w, w + 1) && p > 2 then p
    else 0
  }

  function DistanceAt(w: nat, p: nat, m: nat): nat {
    if m < RoundOffset(w, w + 1) then w - RoundOf(w, m, w) + Finals(p) else 0
  }

  /** Matches in rounds of 2^w, half as many, and so on, with given routes and seats. */
  function Shaped(w: nat, p: nat, count: nat, routes: seq<Route>, seats: seq<Seat>): Network {
    Network(
      count,
      RoundSize(w, 0),
      (m: nat) => SizeAt(w, p, m),
      (m: nat) => PassingAt(w, p, m),
      (m: nat) => DistanceAt(w, p, m),
      routes,
      seats)
  }

  ghost function NetworkOf(w: nat, p: nat): Network
    requires Fits(w, p)
  {
    Shaped(w, p, RoundOffset(w, w + 1) + (if p > 2 then 2 else 0), Routes(w, p), FullRound(RoundSize(w, 0), p))
  }

  /** What the network says of match j of round t. */
  lemma MatchAt(w: nat, p: nat, t: nat, j: nat)
    requires t <= w && j < RoundSize(w, t)
    ensures MatchId(w, t, j) < RoundOffset(w, w + 1)
    ensures SizeAt(w, p, MatchId(w, t, j)) == p && DistanceAt(w, p, MatchId(w, t, j)) == w - t + Finals(p)
    ensures PassingAt(w, p, MatchId(w, t, j)) == if t < w then p / 2 else if p > 2 then p else 0
    ensures MatchId(w, t, j) < RoundSize(w, 0) <==> t == 0
  {
    RoundOfMatch(w, t, j, w);
    RoundOffsetStep(w, t, w + 1);
    if t < w {
      RoundOffsetStep(w, t, w);
    }
    assert RoundOffset(w, 1) == RoundSize(w, 0);
    if t > 1 {
      RoundOffsetStep(w, 1, t);
    }
  }

  lemma FinalAt(w: nat, p: nat, b: nat)
    ensures FinalId(w, b) >= RoundOffset(w, w + 1) >= RoundSize(w, 0)
    ensures SizeAt(w, p, FinalId(w, b)) == p / 2 && PassingAt(w, p, FinalId(w, b)) == 0 && DistanceAt(w, p, FinalId(w, b)) == 0
  {
    RoundOffsetStep(w, 0, w + 1);
    RoundOffsetStep(w, w, w + 1);
  }

  function PassingOf(w: nat, p: nat, t: nat): nat {
    if t < w then p / 2 else if p > 2 then p else 0
  }

  lemma NetworkAt(w: nat, p: nat, t: nat, j: nat)
    requires Fits(w, p) && t <= w && j < RoundSize(w, t)
    ensures var net, m := NetworkOf(w, p), MatchId(w, t, j);
            && m < net.count && net.size(m) == p && net.passing(m) == PassingOf(w, p, t)
            && net.distance(m) == w - t + Finals(p) && (m < net.first <==> t == 0)
  {
    MatchAt(w, p, t, j);
    hide Fits, SizeAt, PassingAt, DistanceAt, RoundOffset, RoundSize, MatchId, Finals;
  }

  lemma NetworkAtFinal(w: nat, p: nat, b: nat)
    requires Fits(w, p) && p > 2 && b < 2
    ensures var net, m := NetworkOf(w, p), FinalId(w, b);
            net.first <= m < net.count && net.size(m) == p / 2 && net.passing(m) == 0 && net.distance(m) == 0
  {
    FinalAt(w, p, b);
    hide Fits, SizeAt, PassingAt, DistanceAt, RoundOffset, RoundSize;
  }

  ghost predicate StepsCloser(w: nat, p: nat, r: Route)
    requires Fits(w, p)
  {
    NetworkOf(w, p).distance(r.source) == NetworkOf(w, p).distance(r.target) + 1
  }

  lemma RoundRouteGood(w: nat, p: nat, x: Slot)
    requires Fits(w, p) && Fillable(w, p, x)
    ensures var r := RouteInto(w, p, x);
            GoodRoute(NetworkOf(w, p), r) && StepsCloser(w, p, r)
  {
    FillerInfo(w, p, x);
    assert Passes(p) == p / 2;
    hide Fits, Pow2, Passes, NetworkOf, Finals, RoundOffset, RoundSize, Bucket, MatchId;
    NetworkAt(w, p, x.t - 1, Filler(w, p, x).match_);
    NetworkAt(w, p, x.t, x.m);
    Later(w, x.t - 1, Filler(w, p, x).match_, x.m);
  }

  lemma FinalRouteGood(w: nat, p: nat, q: nat)
    requires Fits(w, p) && p > 2 && q < p
    ensures var r := FinalRoute(w, p, q);
            GoodRoute(NetworkOf(w, p), r) && StepsCloser(w, p, r)
  {
    LastRound(w);
    NetworkAt(w, p, w, 0);
    NetworkAtFinal(w, p, 0);
    NetworkAtFinal(w, p, 1);
    MatchIdInjective(w, w, 0, w, 0);
    hide Fits, NetworkOf, RoundOffset, RoundSize, MatchId, FinalId;
  }

  /** A route leads from a round to the next, or from the last match to a final. */
  lemma RouteGood(w: nat, p: nat, r: Route)
    requires Fits(w, p) && r in Routes(w, p)
    ensures GoodRoute(NetworkOf(w, p), r) && StepsCloser(w, p, r)
  {
    AllSlotsFillable(w, p);
    var i :| 0 <= i < |PlanRoutes(w, p)| && PlanRoutes(w, p)[i] == r;
    PlanRouteAt(w, p, i);
    var xs := SlotsUpTo(w, p, w);
    hide AllBalanced, AllFillable, PlanRoutes, SlotsUpTo, DistanceAt, Fillable, RouteInto, FinalRoute, NetworkOf;
    if i < |xs| {
      RoundRouteGood(w, p, xs[i]);
    } else {
      FinalRouteGood(w, p, i - |xs|);
    }
  }

  lemma Later(w: nat, t: nat, j: nat, j': nat)
    requires t < w && j < RoundSize(w, t)
    ensures MatchId(w, t, j) < MatchId(w, t + 1, j')
  {
    RoundOffsetStep(w, t, t + 1);
  }

  lemma RoundMatchGood(w: nat, p: nat, t: nat, j: nat)
    requires Fits(w, p) && t <= w && j < RoundSize(w, t)
    ensures GoodMatch(NetworkOf(w, p), MatchId(w, t, j))
  {
    var net, m := NetworkOf(w, p), MatchId(w, t, j);
    AllSlotsFillable(w, p);
    assert net.routes == PlanRoutes(w, p) && AllBalanced(w, p) && p % 2 == 0;
    NetworkAt(w, p, t, j);
    LastRound(w);
    hide Fits, NetworkOf, AllFillable, PlanRoutes, SlotsUpTo, RoundOffset, RoundSize, Bucket, AllBalanced, SentOnce, FedOnce, MatchId, Finals;
    forall q | 1 <= q <= net.passing(m)
      ensures SentOnce(net.routes, m, q)
    {
      if t < w {
        PlaceSentOnce(w, p, t, j, q - 1);
      } else {
        FinalsFedOnce(w, p, q - 1);
      }
    }
    forall s | t > 0 && 1 <= s <= net.size(m)
      ensures FedOnce(net.routes, m, s)
    {
      SlotFedOnce(w, p, Slot(t, j, s - 1));
    }
  }

  lemma FinalGood(w: nat, p: nat, b: nat)
    requires Fits(w, p) && p > 2 && b < 2
    ensures GoodMatch(NetworkOf(w, p), FinalId(w, b))
  {
    var net, m := NetworkOf(w, p), FinalId(w, b);
    AllSlotsFillable(w, p);
    assert net.routes == PlanRoutes(w, p) && p % 2 == 0;
    NetworkAtFinal(w, p, b);
    hide Fits, NetworkOf, AllFillable, PlanRoutes, SlotsUpTo, RoundOffset, RoundSize, Bucket, AllBalanced, FedOnce, FinalId;
    forall s | 1 <= s <= net.size(m)
      ensures FedOnce(net.routes, m, s)
    {
      FinalsFedOnce(w, p, if b == 0 then s - 1 else s - 1 + p / 2);
    }
  }

  /** A match that is not at the end sends its best one step closer. */
  lemma BestStepsCloser(w: nat, p: nat, m: nat)
    requires Fits(w, p) && GoodMatch(NetworkOf(w, p), m) && PassingAt(w, p, m) >= 1
    ensures OneStep(NetworkOf(w, p), m)
  {
    var routes := Routes(w, p);
    assert SentOnce(routes, m, 1);
    var i :| 0 <= i < |routes| && Sends(routes[i], m, 1);
    RouteGood(w, p, routes[i]);
  }

  lemma MatchGood(w: nat, p: nat, m: nat)
    requires Fits(w, p) && m < NetworkOf(w, p).count
    ensures GoodMatch(NetworkOf(w, p), m) && OneStep(NetworkOf(w, p), m)
  {
    if m < RoundOffset(w, w + 1) {
      var j := MatchOfId(w, m, w);
      var t := RoundOf(w, m, w);
      RoundMatchGood(w, p, t, j);
      MatchAt(w, p, t, j);
      if t < w || p > 2 {
        BestStepsCloser(w, p, m);
      }
    } else {
      FinalGood(w, p, m - RoundOffset(w, w + 1));
      FinalAt(w, p, m - RoundOffset(w, w + 1));
    }
  }

  lemma SeatsGood(w: nat, p: nat)
    requires Fits(w, p)
    ensures GoodSeats(NetworkOf(w, p))
  {
    var net := NetworkOf(w, p);
    assert p > 0 && net.first == RoundSize(w, 0) && net.seats == FullRound(RoundSize(w, 0), p);
    hide FullRound, Fits, NetworkOf, RoundSize;
    forall m: nat | m < RoundSize(w, 0)
      ensures HasSize(net, m, p)
    {
      NetworkAt(w, p, 0, m);
      FirstId(w, m);
    }
    FullSeats(net, RoundSize(w, 0), p);
  }

  lemma FirstId(w: nat, m: nat)
    ensures MatchId(w, 0, m) == m
  {
  }

  /** Whatever was proved of plans in general holds of these. */
  lemma NetworkGood(w: nat, p: nat)
    requires Fits(w, p)
    ensures WellFormed(NetworkOf(w, p))
  {
    hide Fits;
    var net := NetworkOf(w, p);
    SeatsGood(w, p);
    hide GoodSeats, GoodMatch, GoodRoute, OneStep, Routes, AllBalanced;
    forall r | r in net.routes
      ensures GoodRoute(net, r)
    {
      RouteGood(w, p, r);
    }
    forall m: nat | m < net.count
      ensures GoodMatch(net, m) && OneStep(net, m)
    {
      MatchGood(w, p, m);
    }
  }
}
