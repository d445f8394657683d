/**
 * Every bracket can be played with any results, and stored under any numbers: what
 * is said of brackets played to their end is not said of nothing.
 */
module BracketPlays {
  import opened Wrappers
  import opened Sequences
  import opened BracketPlans
  import opened DivisionPlacements
  import opened DivisionOrders
  import opened PlayedNetworks
  import opened PlanDivisions
  import opened PlanStandings

  /** Who sits in a slot: an entrant at first, whoever finished in the place that feeds it later. */
  ghost function Sits(net: Network, entrants: seq<Entrant>, slot: (nat, nat) -> nat, m: nat, s: nat): int {
    if i: nat :| i < |entrants| && SeatedAt(net, Spot(m, s), i) then entrants[i].entrantId
    else if r :| r in net.routes && Feeds(r, m, s) && r.source < m then Sits(net, entrants, slot, r.source, slot(r.source, r.placement))
    else 0
  }

  ghost function GameOf(net: Network, entrants: seq<Entrant>, place: (nat, nat) -> nat, slot: (nat, nat) -> nat): Game {
    Game((m: nat, s: nat) => Sits(net, entrants, slot, m, s), place, slot)
  }

  lemma SeatHeld(net: Network, entrants: seq<Entrant>, slot: (nat, nat) -> nat, i: nat)
    requires WellFormed(net) && |entrants| == |net.seats| && i < |net.seats|
    ensures Sits(net, entrants, slot, net.seats[i].match_, net.seats[i].slot) == entrants[i].entrantId
  {
    var x := Spot(net.seats[i].match_, net.seats[i].slot);
    assert SeatedAt(net, x, i);
    forall j: nat | j < |entrants| && SeatedAt(net, x, j)
      ensures j == i
    {
    }
  }

  lemma RouteCarries(net: Network, entrants: seq<Entrant>, slot: (nat, nat) -> nat, r: Route)
    requires WellFormed(net) && r in net.routes
    ensures Sits(net, entrants, slot, r.target, r.slot) == Sits(net, entrants, slot, r.source, slot(r.source, r.placement))
  {
    assert GoodRoute(net, r) && GoodMatch(net, r.target);
    assert FedOnce(net.routes, r.target, r.slot);
    assert forall i: nat :: i < |net.seats| ==> !SeatedAt(net, Spot(r.target, r.slot), i);
    forall r' | r' in net.routes && Feeds(r', r.target, r.slot)
      ensures r' == r
    {
      FedSame(net.routes, r, r');
    }
    assert Feeds(r, r.target, r.slot);
  }

  lemma FedSame(routes: seq<Route>, r: Route, r': Route)
    requires r in routes && r' in routes && FedOnce(routes, r.target, r.slot) && Feeds(r', r.target, r.slot)
    ensures r == r'
  {
    var i :| 0 <= i < |routes| && routes[i] == r;
    var j :| 0 <= j < |routes| && routes[j] == r';
    assert Feeds(routes[i], r.target, r.slot) && Feeds(routes[j], r.target, r.slot);
  }

  /** However the matches go, different entrants play the bracket out that way. */
  lemma EveryOutcomeIsPlayed(net: Network, entrants: seq<Entrant>, place: (nat, nat) -> nat, slot: (nat, nat) -> nat)
    requires WellFormed(net) && |entrants| == |net.seats| && DifferentEntrants(entrants)
    requires forall m: nat :: m < net.count ==> Decided(net, GameOf(net, entrants, place, slot), m)
    ensures PlayedOut(net, entrants, GameOf(net, entrants, place, slot))
  {
    var game := GameOf(net, entrants, place, slot);
    hide WellFormed, Decided, DifferentEntrants, Sits;
    forall i | 0 <= i < |net.seats|
      ensures game.held(net.seats[i].match_, net.seats[i].slot) == entrants[i].entrantId
    {
      SeatHeld(net, entrants, slot, i);
    }
    forall r | r in net.routes
      ensures Carried(game, r)
    {
      RouteCarries(net, entrants, slot, r);
    }
  }

  // ----- storing it

  function HeldIn(net: Network, game: Game, m: nat): seq<int> {
    seq(net.size(m), (i: nat) => game.held(m, i + 1))
  }

  function PlacedIn(net: Network, game: Game, m: nat): seq<Placement> {
    seq(net.size(m), (i: nat) => Placement(game.held(m, i + 1), game.place(m, i + 1)))
  }

  function StoredMatch(b: Stored, game: Game, m: nat): Competition {
    Competition(MatchKind, b.id(m), Some(b.pool), true, HeldIn(b.net, game, m), PlacedIn(b.net, game, m))
  }

  function StoredMatches(b: Stored, game: Game): seq<Competition> {
    seq(b.net.count, (m: nat) => StoredMatch(b, game, m))
  }

  function StoredRules(b: Stored): seq<Edge> {
    seq(|b.net.routes|, i requires 0 <= i < |b.net.routes| => RuleOf(b, b.net.routes[i]))
  }

  lemma {:induction false} PlacementsMapped(ps: seq<Placement>)
    requires forall i, j :: 0 <= i < j < |ps| ==> ps[i].entrantId != ps[j].entrantId
    ensures forall i :: 0 <= i < |ps| ==> ps[i].entrantId in PlacementMap(ps) && PlacementMap(ps)[ps[i].entrantId] == ps[i].placement
  {
    if ps != [] {
      PlacementsMapped(ps[..|ps| - 1]);
    }
  }

  lemma MatchStored(b: Stored, entrants: seq<Entrant>, game: Game, m: nat)
    requires WellFormed(b.net) && PlayedOut(b.net, entrants, game) && m < b.net.count
    ensures IsStoredMatch(b, game, StoredMatch(b, game, m), m)
  {
    var net, ps, held := b.net, PlacedIn(b.net, game, m), HeldIn(b.net, game, m);
    forall i, j | 0 <= i < j < |ps|
      ensures ps[i].entrantId != ps[j].entrantId
    {
      SeatsDistinct(net, entrants, game, Spot(m, i + 1), Spot(m, j + 1));
    }
    PlacementsMapped(ps);
    forall s: nat | 1 <= s <= net.size(m)
      ensures game.held(m, s) in PlacementMap(ps) && PlacementMap(ps)[game.held(m, s)] == game.place(m, s)
    {
      assert ps[s - 1] == Placement(game.held(m, s), game.place(m, s));
    }
    forall e
      ensures e in held <==> HoldsOf(net, game, m, e)
    {
      if HoldsOf(net, game, m, e) {
        var s: nat :| 1 <= s <= net.size(m) && game.held(m, s) == e;
        assert held[s - 1] == e;
      }
    }
    hide WellFormed, PlayedOut, PlacementMap;
  }

  lemma MatchesKeyed(b: Stored, game: Game)
    requires DifferentIds(b)
    ensures UniqueKeys(StoredMatches(b, game)) && NoRepeat(StoredMatches(b, game))
  {
    var cs := StoredMatches(b, game);
    forall i: nat, j: nat | i < |cs| && j < |cs| && KeyOf(cs[i]) == KeyOf(cs[j])
      ensures i == j
    {
      assert cs[i] == StoredMatch(b, game, i) && cs[j] == StoredMatch(b, game, j);
    }
  }

  /** A bracket with any route at all, played out in any way, can be stored under any numbers. */
  lemma EveryBracketIsStored(b: Stored, entrants: seq<Entrant>, game: Game)
    requires WellFormed(b.net) && PlayedOut(b.net, entrants, game) && b.net.routes != [] && DifferentIds(b)
    ensures IsPlayedDivision(b, game, StoredMatches(b, game), StoredRules(b))
  {
    var cs, edges := StoredMatches(b, game), StoredRules(b);
    MatchesKeyed(b, game);
    hide WellFormed, PlayedOut, DifferentIds, UniqueKeys, StoredMatch;
    forall m: nat | m < b.net.count
      ensures IsStoredMatch(b, game, cs[m], m) && Listed(b, cs, m)
    {
      MatchStored(b, entrants, game, m);
      assert cs[m] in cs;
    }
    forall r | r in b.net.routes
      ensures RuleOf(b, r) in edges
    {
      var i :| 0 <= i < |b.net.routes| && b.net.routes[i] == r;
      assert edges[i] == RuleOf(b, r);
    }
    forall e | e in edges
      ensures IsRule(b, e)
    {
      var i :| 0 <= i < |edges| && edges[i] == e;
      assert b.net.routes[i] in b.net.routes;
    }
    forall c | c in cs
      ensures IsStored(b, game, c)
    {
      var m :| 0 <= m < |cs| && cs[m] == c;
      assert IsStoredMatch(b, game, cs[m], m);
    }
  }
}
