/**
 * Playing a bracket of any shape to its end. A network says which finishing place
 * of which match goes on to which slot of which later match; whatever the results
 * of the single matches, everybody takes one way through it and leaves it in one
 * finishing place that goes nowhere.
 */
module PlayedNetworks {
  import opened Wrappers
  import opened BracketPlans
  import opened Seatings
  import opened DivisionPlacements

  /**
   * Matches are numbered from 0, the `first` ones being those entrants start in.
   * The first `passing(m)` of the `size(m)` places of match m go on, the rest end
   * a run. `distance` counts the routes to the end.
   */
  datatype Network = Network(
    count: nat,
    first: nat,
    size: nat -> nat,
    passing: nat -> nat,
    distance: nat -> nat,
    routes: seq<Route>,
    seats: seq<Seat>)

  /** A seat in a match, counting from one. */
  datatype Spot = Spot(m: nat, slot: nat)

  ghost predicate IsSpot(net: Network, x: Spot) {
    x.m < net.count && 1 <= x.slot <= net.size(x.m)
  }

  ghost predicate GoodRoute(net: Network, r: Route) {
    && r.source < r.target < net.count
    && 1 <= r.placement <= net.passing(r.source) && 1 <= r.slot <= net.size(r.target)
    && net.distance(r.target) < net.distance(r.source)
    && net.first <= r.target
  }

  /** Every slot after the first matches is fed by one route, and every passing place is sent by one. */
  ghost predicate GoodMatch(net: Network, m: nat) {
    && net.passing(m) <= net.size(m)
    && (forall q :: 1 <= q <= net.passing(m) ==> SentOnce(net.routes, m, q))
    && (m >= net.first ==> forall s :: 1 <= s <= net.size(m) ==> FedOnce(net.routes, m, s))
  }

  /** Some route of the match comes exactly one step closer, unless it is at the end. */
  ghost predicate OneStep(net: Network, m: nat) {
    net.distance(m) == 0 || exists r :: r in net.routes && r.source == m && net.distance(m) == net.distance(r.target) + 1
  }

  ghost predicate SeatedAt(net: Network, x: Spot, i: nat) {
    i < |net.seats| && net.seats[i].match_ == x.m && net.seats[i].slot == x.slot
  }

  /** The seats are the slots of the first matches, one each, in the order of the entrants. */
  ghost predicate GoodSeats(net: Network) {
    && OneEach(net.seats)
    && (forall i :: 0 <= i < |net.seats| ==> IsSpot(net, Spot(net.seats[i].match_, net.seats[i].slot)) && net.seats[i].match_ < net.first)
    && (forall x: Spot :: IsSpot(net, x) && x.m < net.first ==> exists i: nat :: SeatedAt(net, x, i))
  }

  ghost predicate HasSize(net: Network, m: nat, p: nat) {
    m < net.count && net.size(m) == p
  }

  lemma FullSeat(net: Network, n: nat, p: nat, x: Spot)
    requires p > 0 && net.first == n && net.seats == FullRound(n, p) && x.m < n && 1 <= x.slot <= p
    ensures exists i: nat :: SeatedAt(net, x, i)
  {
    var i := SeatOfSlot(n, p, x.m, x.slot);
    hide FullRound;
    assert SeatedAt(net, x, i);
  }

  /** A first round of matches of one size, every slot of it taken. */
  lemma FullSeats(net: Network, n: nat, p: nat)
    requires p > 0 && net.first == n && net.seats == FullRound(n, p)
    requires forall m: nat :: m < n ==> HasSize(net, m, p)
    ensures GoodSeats(net)
  {
    SeatsOfFirstRound(n, p);
    hide FullRound, OneEach, SeatedAt;
    forall i | 0 <= i < |net.seats|
      ensures IsSpot(net, Spot(net.seats[i].match_, net.seats[i].slot)) && net.seats[i].match_ < net.first
    {
      assert HasSize(net, net.seats[i].match_, p);
    }
    forall x: Spot | IsSpot(net, x) && x.m < net.first
      ensures exists i: nat :: SeatedAt(net, x, i)
    {
      assert HasSize(net, x.m, p);
      FullSeat(net, n, p, x);
    }
  }

  ghost predicate WellFormed(net: Network) {
    && (forall r :: r in net.routes ==> GoodRoute(net, r))
    && (forall m: nat :: m < net.count ==> GoodMatch(net, m) && OneStep(net, m))
    && GoodSeats(net)
  }

  // ----- playing it

  /**
   * Who sits in a slot of a match, the place in which that slot finishes, and the
   * slot that finishes in a place. Everything counts from one.
   */
  datatype Game = Game(held: (nat, nat) -> int, place: (nat, nat) -> nat, slot: (nat, nat) -> nat)

  /** Who finishes a match in a place. */
  function Placed(game: Game, m: nat, q: nat): int {
    game.held(m, game.slot(m, q))
  }

  /** The match is decided without ties: slots and places match up. */
  ghost predicate Decided(net: Network, game: Game, m: nat) {
    && (forall s: nat :: 1 <= s <= net.size(m) ==> 1 <= game.place(m, s) <= net.size(m) && game.slot(m, game.place(m, s)) == s)
    && (forall q: nat :: 1 <= q <= net.size(m) ==> 1 <= game.slot(m, q) <= net.size(m) && game.place(m, game.slot(m, q)) == q)
  }

  ghost predicate DifferentEntrants(entrants: seq<Entrant>) {
    forall i, j :: 0 <= i < j < |entrants| ==> entrants[i].entrantId != entrants[j].entrantId
  }

  ghost predicate Carried(game: Game, r: Route) {
    game.held(r.target, r.slot) == Placed(game, r.source, r.placement)
  }

  ghost predicate EntrantsSeated(net: Network, entrants: seq<Entrant>, game: Game) {
    |entrants| == |net.seats|
    && forall i :: 0 <= i < |net.seats| ==> game.held(net.seats[i].match_, net.seats[i].slot) == entrants[i].entrantId
  }

  /** Different entrants take their seats, every match is decided, and the routes carry the finishers on. */
  ghost predicate PlayedOut(net: Network, entrants: seq<Entrant>, game: Game) {
    && DifferentEntrants(entrants) && EntrantsSeated(net, entrants, game)
    && (forall m: nat :: m < net.count ==> Decided(net, game, m))
    && (forall r :: r in net.routes ==> Carried(game, r))
  }

  function HeldAt(game: Game, x: Spot): int {
    game.held(x.m, x.slot)
  }

  function PlaceOf(game: Game, x: Spot): nat {
    game.place(x.m, x.slot)
  }

  // ----- one step along a route

  /** Whoever sits in the one spot sits in the other next. */
  ghost predicate Onward(net: Network, game: Game, x: Spot, y: Spot) {
    Route(x.m, PlaceOf(game, x), y.m, y.slot) in net.routes
  }

  lemma OnwardGoes(net: Network, entrants: seq<Entrant>, game: Game, x: Spot, y: Spot)
    requires WellFormed(net) && PlayedOut(net, entrants, game) && IsSpot(net, x) && Onward(net, game, x, y)
    ensures IsSpot(net, y) && net.first <= y.m && x.m < y.m && net.distance(y.m) < net.distance(x.m)
    ensures PlaceOf(game, x) <= net.passing(x.m) && HeldAt(game, x) == HeldAt(game, y)
  {
    var r := Route(x.m, PlaceOf(game, x), y.m, y.slot);
    assert GoodRoute(net, r) && Carried(game, r) && Decided(net, game, x.m);
    hide WellFormed, PlayedOut;
  }

  lemma OnwardUnique(net: Network, game: Game, x: Spot, y: Spot, z: Spot)
    requires WellFormed(net) && IsSpot(net, x) && Onward(net, game, x, y) && Onward(net, game, x, z)
    ensures y == z
  {
    var r, r' := Route(x.m, PlaceOf(game, x), y.m, y.slot), Route(x.m, PlaceOf(game, x), z.m, z.slot);
    assert GoodRoute(net, r) && GoodMatch(net, x.m);
    SentSame(net.routes, r, r');
  }

  lemma SentSame(routes: seq<Route>, r: Route, r': Route)
    requires r in routes && r' in routes && SentOnce(routes, r.source, r.placement)
    requires r'.source == r.source && r'.placement == r.placement
    ensures r == r'
  {
    var i :| 0 <= i < |routes| && routes[i] == r;
    var j :| 0 <= j < |routes| && routes[j] == r';
    assert Sends(routes[i], r.source, r.placement) && Sends(routes[j], r.source, r.placement);
  }

  /** Whoever sits past the first seats was in an earlier match. */
  lemma Before(net: Network, entrants: seq<Entrant>, game: Game, y: Spot) returns (x: Spot)
    requires WellFormed(net) && PlayedOut(net, entrants, game) && IsSpot(net, y) && net.first <= y.m
    ensures IsSpot(net, x) && Onward(net, game, x, y) && x.m < y.m
    ensures net.distance(y.m) < net.distance(x.m) && HeldAt(game, x) == HeldAt(game, y)
  {
    assert GoodMatch(net, y.m) && FedOnce(net.routes, y.m, y.slot);
    var i :| 0 <= i < |net.routes| && Feeds(net.routes[i], y.m, y.slot);
    var r := net.routes[i];
    assert GoodRoute(net, r) && GoodMatch(net, r.source) && Decided(net, game, r.source);
    x := Spot(r.source, game.slot(r.source, r.placement));
    assert r == Route(x.m, PlaceOf(game, x), y.m, y.slot);
    hide WellFormed, PlayedOut;
    OnwardGoes(net, entrants, game, x, y);
  }

  /** Whoever finishes in a passing place sits down again. */
  lemma After(net: Network, entrants: seq<Entrant>, game: Game, x: Spot) returns (y: Spot)
    requires WellFormed(net) && PlayedOut(net, entrants, game) && IsSpot(net, x) && PlaceOf(game, x) <= net.passing(x.m)
    ensures IsSpot(net, y) && Onward(net, game, x, y) && x.m < y.m
    ensures net.distance(y.m) < net.distance(x.m) && HeldAt(game, x) == HeldAt(game, y)
  {
    assert GoodMatch(net, x.m) && Decided(net, game, x.m);
    assert SentOnce(net.routes, x.m, PlaceOf(game, x));
    var i :| 0 <= i < |net.routes| && Sends(net.routes[i], x.m, PlaceOf(game, x));
    var r := net.routes[i];
    y := Spot(r.target, r.slot);
    assert r == Route(x.m, PlaceOf(game, x), y.m, y.slot);
    hide WellFormed, PlayedOut;
    OnwardGoes(net, entrants, game, x, y);
  }

  // ----- one way through the network

  /** Whoever sits in the first spot goes on, and reaches the second no later than in one more step. */
  ghost predicate GoesOnTo(net: Network, game: Game, x: Spot, y: Spot) {
    exists z :: Onward(net, game, x, z) && z.m <= y.m && net.distance(y.m) <= net.distance(z.m)
  }

  lemma EnteredOnce(net: Network, entrants: seq<Entrant>, game: Game, x: Spot, y: Spot)
    requires WellFormed(net) && PlayedOut(net, entrants, game)
    requires IsSpot(net, x) && IsSpot(net, y) && x.m < net.first && y.m < net.first && HeldAt(game, x) == HeldAt(game, y)
    ensures x == y
  {
    var i: nat :| SeatedAt(net, x, i);
    var j: nat :| SeatedAt(net, y, j);
    assert entrants[i].entrantId == entrants[j].entrantId;
    assert i == j;
  }

  /** Two spots of one entrant are the same, or the entrant goes on from the earlier one towards the later one. */
  lemma {:induction false} OneWay(net: Network, entrants: seq<Entrant>, game: Game, x: Spot, y: Spot)
    requires WellFormed(net) && PlayedOut(net, entrants, game) && IsSpot(net, x) && IsSpot(net, y)
    requires HeldAt(game, x) == HeldAt(game, y) && x.m <= y.m
    ensures x == y || (x.m < y.m && GoesOnTo(net, game, x, y))
    decreases x.m + y.m, 0
  {
    hide WellFormed, PlayedOut, IsSpot, Onward;
    if y.m < net.first {
      EnteredOnce(net, entrants, game, x, y);
    } else if x.m == y.m {
      var x' := Before(net, entrants, game, x);
      var y' := Before(net, entrants, game, y);
      if x'.m <= y'.m {
        OneMatch(net, entrants, game, x, y, x', y');
      } else {
        OneMatch(net, entrants, game, y, x, y', x');
      }
    } else {
      var y' := Before(net, entrants, game, y);
      if x.m <= y'.m {
        OneWay(net, entrants, game, x, y');
        if x == y' {
          assert Onward(net, game, x, y);
        }
      } else {
        OneWay(net, entrants, game, y', x);
        var z :| Onward(net, game, y', z) && z.m <= x.m && net.distance(x.m) <= net.distance(z.m);
        OnwardUnique(net, game, y', y, z);
      }
    }
  }

  /** Nobody comes into one match from two spots. */
  lemma {:induction false} OneMatch(net: Network, entrants: seq<Entrant>, game: Game, x: Spot, y: Spot, x': Spot, y': Spot)
    requires WellFormed(net) && PlayedOut(net, entrants, game) && IsSpot(net, x') && IsSpot(net, y')
    requires HeldAt(game, x') == HeldAt(game, y') && x'.m <= y'.m < x.m == y.m
    requires Onward(net, game, x', x) && Onward(net, game, y', y)
    ensures x == y
    decreases x'.m + y'.m, 1
  {
    hide WellFormed, PlayedOut, IsSpot, Onward;
    OneWay(net, entrants, game, x', y');
    if x' == y' {
      OnwardUnique(net, game, x', x, y);
    } else {
      var z :| Onward(net, game, x', z) && z.m <= y'.m && net.distance(y'.m) <= net.distance(z.m);
      OnwardUnique(net, game, x', x, z);
      assert false;
    }
  }

  /** Nobody sits twice in a match, nor in two matches equally far from the end. */
  lemma SeatsDistinct(net: Network, entrants: seq<Entrant>, game: Game, x: Spot, y: Spot)
    requires WellFormed(net) && PlayedOut(net, entrants, game) && IsSpot(net, x) && IsSpot(net, y) && x != y
    requires x.m == y.m || net.distance(x.m) == net.distance(y.m)
    ensures HeldAt(game, x) != HeldAt(game, y)
  {
    hide WellFormed, PlayedOut, IsSpot;
    if HeldAt(game, x) == HeldAt(game, y) {
      var a, b := if x.m <= y.m then x else y, if x.m <= y.m then y else x;
      OneWay(net, entrants, game, a, b);
      var z :| Onward(net, game, a, z) && z.m <= b.m && net.distance(b.m) <= net.distance(z.m);
      OnwardGoes(net, entrants, game, a, z);
    }
  }

  // ----- where everybody ends

  /** Whoever sits there finishes in a place that goes nowhere. */
  ghost predicate Ends(net: Network, game: Game, x: Spot) {
    IsSpot(net, x) && PlaceOf(game, x) > net.passing(x.m)
  }

  /** The spot an entrant ends in is strictly closer to the end than all their others. */
  lemma EndIsClosest(net: Network, entrants: seq<Entrant>, game: Game, x: Spot, y: Spot)
    requires WellFormed(net) && PlayedOut(net, entrants, game) && Ends(net, game, x) && IsSpot(net, y)
    requires HeldAt(game, x) == HeldAt(game, y)
    ensures x == y || net.distance(x.m) < net.distance(y.m)
  {
    hide WellFormed, PlayedOut, IsSpot;
    if x.m <= y.m {
      OneWay(net, entrants, game, x, y);
      if z :| Onward(net, game, x, z) {
        OnwardGoes(net, entrants, game, x, z);
      }
    } else {
      OneWay(net, entrants, game, y, x);
      var z :| Onward(net, game, y, z) && z.m <= x.m && net.distance(x.m) <= net.distance(z.m);
      OnwardGoes(net, entrants, game, y, z);
    }
  }

  /** From every spot its holder comes to an end. */
  lemma {:induction false} ComesToEnd(net: Network, entrants: seq<Entrant>, game: Game, x: Spot) returns (end: Spot)
    requires WellFormed(net) && PlayedOut(net, entrants, game) && IsSpot(net, x)
    ensures Ends(net, game, end) && HeldAt(game, end) == HeldAt(game, x)
    decreases net.distance(x.m)
  {
    if Ends(net, game, x) {
      end := x;
    } else {
      var y := After(net, entrants, game, x);
      hide WellFormed, PlayedOut, IsSpot;
      end := ComesToEnd(net, entrants, game, y);
    }
  }

  /** Every entrant ends in exactly one spot. */
  lemma EntrantEnds(net: Network, entrants: seq<Entrant>, game: Game, i: nat) returns (end: Spot)
    requires WellFormed(net) && PlayedOut(net, entrants, game) && i < |entrants|
    ensures Ends(net, game, end) && HeldAt(game, end) == entrants[i].entrantId
    ensures forall x :: Ends(net, game, x) && HeldAt(game, x) == entrants[i].entrantId ==> x == end
  {
    var start := Spot(net.seats[i].match_, net.seats[i].slot);
    assert IsSpot(net, start) && HeldAt(game, start) == entrants[i].entrantId;
    hide WellFormed, PlayedOut, IsSpot;
    end := ComesToEnd(net, entrants, game, start);
    forall x | Ends(net, game, x) && HeldAt(game, x) == entrants[i].entrantId
      ensures x == end
    {
      EndIsClosest(net, entrants, game, x, end);
      EndIsClosest(net, entrants, game, end, x);
    }
  }

  /** Whoever sits anywhere is one of the entrants. */
  lemma {:induction false} HolderEntered(net: Network, entrants: seq<Entrant>, game: Game, x: Spot) returns (i: nat)
    requires WellFormed(net) && PlayedOut(net, entrants, game) && IsSpot(net, x)
    ensures i < |entrants| && entrants[i].entrantId == HeldAt(game, x)
    decreases x.m
  {
    if x.m < net.first {
      i :| SeatedAt(net, x, i);
    } else {
      var y := Before(net, entrants, game, x);
      hide WellFormed, PlayedOut, IsSpot;
      i := HolderEntered(net, entrants, game, y);
    }
  }
}
