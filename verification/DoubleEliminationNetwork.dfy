/**
 * A generated double elimination as a network, each match as far from the grand
 * final as the longest chain of its routes.
 */
module DoubleEliminationNetworks {
  import opened BracketPlans
  import opened Seatings
  import opened DoubleEliminations
  import opened PlayedNetworks

  /** With 2w losers rounds: a losers round is its distance from the last one, a winners round two per round. */
  function Depth(w: nat, v: Node): nat {
    match v
    case W(k, m) => if k == 0 then 2 * w + 1 else if 2 * k <= 2 * w + 2 then 2 * w + 2 - 2 * k else 0
    case L(i, m) => if i <= 2 * w then 2 * w - i else 0
    case GF => 0
  }

  /** How many places of a match go on: all, the top half, none. */
  function PassingPlaces(h: nat, v: Node): nat {
    match v
    case W(k, m) => 2 * h
    case L(i, m) => h
    case GF => 0
  }

  function NodeOf(w: nat, m: nat): Node {
    if m < |Nodes(w)| then Nodes(w)[m] else GF
  }

  /** The matches of the bracket, with given routes and seats. */
  function Shaped(w: nat, h: nat, count: nat, routes: seq<Route>, seats: seq<Seat>): Network {
    Network(
      count,
      RoundSize(w, 0),
      (m: nat) => 2 * h,
      (m: nat) => PassingPlaces(h, NodeOf(w, m)),
      (m: nat) => Depth(w, NodeOf(w, m)),
      routes,
      seats)
  }

  ghost function NetworkOf(w: nat, h: nat): Network
    requires w >= 1 && h >= 1
  {
    Shaped(w, h, |Nodes(w)|, PlanRoutes(w, h), FullRound(RoundSize(w, 0), 2 * h))
  }

  /** What the network says of one match. */
  lemma NetworkAt(w: nat, h: nat, v: Node)
    requires w >= 1 && h >= 1 && ValidNode(w, v)
    ensures var net, m := NetworkOf(w, h), Id(w, v);
            && m < net.count && net.size(m) == 2 * h && net.passing(m) == PassingPlaces(h, v) && net.distance(m) == Depth(w, v)
            && (m < net.first <==> v.W? && v.k == 0)
  {
    NodeIdInRange(w, v);
    FirstIds(w, v);
    hide Nodes, PlanRoutes, FullRound, Id, RoundSize;
  }

  /** The first round has the first identifiers. */
  lemma FirstIds(w: nat, v: Node)
    requires w >= 1 && ValidNode(w, v)
    ensures Id(w, v) < RoundSize(w, 0) <==> v.W? && v.k == 0
  {
    assert RoundOffset(w, 0) == 0 && RoundOffset(w, 1) == RoundSize(w, 0);
    if v.W? && v.k > 1 {
      RoundOffsetStep(w, 1, v.k);
    } else if !v.W? {
      RoundOffsetStep(w, 0, w + 1);
      LosersAfterWinners(w, if v.L? then v.i else 2 * w);
    }
  }

  lemma NodeIs(w: nat, h: nat, m: nat)
    requires w >= 1 && h >= 1 && m < NetworkOf(w, h).count
    ensures ValidNode(w, NodeOf(w, m)) && Id(w, NodeOf(w, m)) == m
  {
    NodeAt(w, m);
  }

  /** Whoever goes anywhere goes to a later match, closer to the grand final, and not to the first round. */
  lemma DestIsCloser(w: nat, h: nat, x: Port)
    requires w >= 1 && h >= 1 && Sender(w, h, x)
    ensures var y := Dest(w, h, x).value;
            && ValidPort(w, h, y) && Depth(w, y.node) < Depth(w, x.node)
            && DoubleEliminations.Before(x.node, y.node) && !(y.node.W? && y.node.k == 0)
            && x.index < PassingPlaces(h, x.node)
  {
    OriginOfDest(w, h, x);
    hide Origin, RoundSize, LosersSize;
  }

  lemma RouteGood(w: nat, h: nat, r: Route)
    requires w >= 1 && h >= 1 && r in PlanRoutes(w, h)
    ensures GoodRoute(NetworkOf(w, h), r)
  {
    RouteEnds(w, h, r);
    NodeAt(w, r.source);
    NodeAt(w, r.target);
    var x, y := Port(Nodes(w)[r.source], r.placement - 1), Port(Nodes(w)[r.target], r.slot - 1);
    hide Nodes, PlanRoutes, Dest, Depth, PassingPlaces, NetworkOf, Id;
    DestIsCloser(w, h, x);
    IdIncreases(w, x.node, y.node);
    NetworkAt(w, h, x.node);
    NetworkAt(w, h, y.node);
  }

  /** Every route strictly approaches the grand final. */
  lemma RoutesApproach(w: nat, h: nat, r: Route)
    requires w >= 1 && h >= 1 && r in PlanRoutes(w, h)
    ensures r.source < r.target < |Nodes(w)| && Depth(w, NodeOf(w, r.target)) < Depth(w, NodeOf(w, r.source))
  {
    RouteGood(w, h, r);
    hide Nodes, PlanRoutes, Depth;
  }

  lemma PlacesSent(w: nat, h: nat, v: Node)
    requires w >= 1 && h >= 1 && ValidNode(w, v)
    ensures GoodMatch(NetworkOf(w, h), Id(w, v))
  {
    var net, m := NetworkOf(w, h), Id(w, v);
    NetworkAt(w, h, v);
    assert net.routes == PlanRoutes(w, h);
    hide NetworkOf, PlanRoutes, Id, SentOnce, FedOnce, RoundSize, LosersSize;
    forall q | 1 <= q <= net.passing(m)
      ensures SentOnce(net.routes, m, q)
    {
      PlaceSentOnce(w, h, Port(v, q - 1));
    }
    forall s | m >= net.first && 1 <= s <= net.size(m)
      ensures FedOnce(net.routes, m, s)
    {
      SlotFedOnce(w, h, Port(v, s - 1));
    }
  }

  /** A winners match sends its bottom half, a losers match its top half, one step closer. */
  lemma OneStepCloser(w: nat, h: nat, v: Node)
    requires w >= 1 && h >= 1 && ValidNode(w, v)
    ensures OneStep(NetworkOf(w, h), Id(w, v))
  {
    NetworkAt(w, h, v);
    if !v.GF? {
      var x := Port(v, if v.W? then h else 0);
      assert Sender(w, h, x);
      DestOneStep(w, h, x);
      NetworkAt(w, h, Dest(w, h, x).value.node);
      var i :| 0 <= i < |Travellers(w, h)| && Travellers(w, h)[i] == x;
      var r := PlanRoutes(w, h)[i];
      hide Travellers, Id, Origin, Dest, Depth, PassingPlaces, Nodes;
      assert r in NetworkOf(w, h).routes;
    }
  }

  lemma DestOneStep(w: nat, h: nat, x: Port)
    requires w >= 1 && h >= 1 && ValidNode(w, x.node) && !x.node.GF? && x.index == if x.node.W? then h else 0
    ensures Sender(w, h, x) && ValidNode(w, Dest(w, h, x).value.node)
    ensures Depth(w, x.node) == Depth(w, Dest(w, h, x).value.node) + 1
  {
    OriginOfDest(w, h, x);
    hide Origin, RoundSize, LosersSize;
  }

  lemma SeatsGood(w: nat, h: nat)
    requires w >= 1 && h >= 1
    ensures GoodSeats(NetworkOf(w, h))
  {
    var net := NetworkOf(w, h);
    forall m: nat | m < RoundSize(w, 0)
      ensures HasSize(net, m, 2 * h)
    {
      NodeIdInRange(w, W(0, m));
      assert RoundOffset(w, 0) == 0;
    }
    assert net.first == RoundSize(w, 0) && net.seats == FullRound(RoundSize(w, 0), 2 * h);
    hide FullRound, Nodes, PlanRoutes, RoundSize, HasSize, NetworkOf;
    FullSeats(net, RoundSize(w, 0), 2 * h);
  }

  /** Whatever was proved of plans in general holds of these. */
  lemma NetworkGood(w: nat, h: nat)
    requires w >= 1 && h >= 1
    ensures WellFormed(NetworkOf(w, h))
  {
    var net := NetworkOf(w, h);
    assert net.routes == PlanRoutes(w, h);
    SeatsGood(w, h);
    hide GoodSeats, GoodMatch, GoodRoute, OneStep, PlanRoutes, NetworkOf, Id;
    forall r | r in net.routes
      ensures GoodRoute(net, r)
    {
      RouteGood(w, h, r);
    }
    forall m: nat | m < net.count
      ensures GoodMatch(net, m) && OneStep(net, m)
    {
      NodeIs(w, h, m);
      PlacesSent(w, h, NodeOf(w, m));
      OneStepCloser(w, h, NodeOf(w, m));
    }
  }
}
