/**
 * Plans as values: three sequences, of matches, routes and seats, together with
 * the arithmetic on powers of two both kinds of bracket are sized by, and a
 * builder whose methods say exactly what they append to which sequence.
 *
 * A match is identified by its position in the plan; the local identifier "m7"
 * of the program is the number 7 here.
 */
module BracketPlans {

  datatype RoundKind = Single | Winners | Losers | Final

  /** The descriptor a match is named from. */
  datatype Match = Match(kind: RoundKind, roundIndex: nat, roundCount: nat, matchIndex: nat, matchCount: nat)

  /** Placement and slot count from one. */
  datatype Route = Route(source: nat, placement: nat, target: nat, slot: nat)

  datatype Seat = Seat(match_: nat, slot: nat, seed: nat)

  datatype BracketType = SingleElimination | DoubleElimination

  datatype Plan = Plan(
    bracketType: BracketType,
    playerPerMatch: nat,
    entrantCount: int,
    byes: int,
    matches: seq<Match>,
    routes: seq<Route>,
    seats: seq<Seat>)

  datatype PlanError =
    | UnsupportedMatchSize(playerPerMatch: int)
    | MissingPairing(round: nat)  // the pairing table has no entry for a slot of the round fed by `round`

  // ----- what a set of routes does to one slot, and to one finishing place

  ghost predicate Feeds(r: Route, target: nat, slot: nat) {
    r.target == target && r.slot == slot
  }

  ghost predicate Sends(r: Route, source: nat, placement: nat) {
    r.source == source && r.placement == placement
  }

  /** Exactly one route, by position, puts somebody into the slot. */
  ghost predicate FedOnce(routes: seq<Route>, target: nat, slot: nat) {
    exists i ::
      && 0 <= i < |routes|
      && Feeds(routes[i], target, slot)
      && forall j :: 0 <= j < |routes| && Feeds(routes[j], target, slot) ==> j == i
  }

  /** Exactly one route, by position, takes the finisher of that place onwards. */
  ghost predicate SentOnce(routes: seq<Route>, source: nat, placement: nat) {
    exists i ::
      && 0 <= i < |routes|
      && Sends(routes[i], source, placement)
      && forall j :: 0 <= j < |routes| && Sends(routes[j], source, placement) ==> j == i
  }

  /** The one route out of its place is the one route into its slot. */
  ghost predicate OnlyRoute(routes: seq<Route>, r: Route) {
    exists i ::
      && 0 <= i < |routes|
      && routes[i] == r
      && forall j :: 0 <= j < |routes| && (Sends(routes[j], r.source, r.placement) || Feeds(routes[j], r.target, r.slot)) ==> j == i
  }

  ghost predicate NeverFed(routes: seq<Route>, target: nat, slot: nat) {
    forall r :: r in routes ==> !Feeds(r, target, slot)
  }

  ghost predicate NeverSent(routes: seq<Route>, source: nat, placement: nat) {
    forall r :: r in routes ==> !Sends(r, source, placement)
  }

  /** A run from one of the first matches on: each route leaves the match the one before it entered. */
  ghost predicate IsRun(routes: seq<Route>, first: nat, run: seq<Route>) {
    && run != []
    && (forall r :: r in run ==> r in routes)
    && run[0].source < first
    && forall i :: 0 < i < |run| ==> run[i].source == run[i - 1].target
  }

  lemma LastOfRun(routes: seq<Route>, first: nat, run: seq<Route>)
    requires IsRun(routes, first, run)
    ensures run != []
    ensures var before, last := run[..|run| - 1], run[|run| - 1];
            && run == before + [last] && last in routes
            && if before == [] then last.source < first
               else IsRun(routes, first, before) && before[0] == run[0] && last.source == before[|before| - 1].target
  {
    var before := run[..|run| - 1];
    assert forall r :: r in before ==> r in run;
  }

  // ----- powers of two

  function Pow2(k: nat): (r: nat)
    ensures r >= 1
  {
    if k == 0 then 1 else 2 * Pow2(k - 1)
  }

  lemma {:induction false} Pow2Monotone(a: nat, b: nat)
    requires a <= b
    ensures Pow2(a) <= Pow2(b)
    ensures a < b ==> 2 * Pow2(a) <= Pow2(b)
    decreases b - a
  {
    if a < b {
      Pow2Monotone(a + 1, b);
    }
  }

  /** The program's `Math.log2`, which is only ever applied to a power of two. */
  function Log2(n: nat): (k: nat)
    requires n >= 1
    ensures Pow2(k) <= n < Pow2(k + 1)
  {
    if n == 1 then 0 else 1 + Log2(n / 2)
  }

  lemma {:induction false} Log2OfPow2(k: nat)
    ensures Log2(Pow2(k)) == k
  {
    if k > 0 {
      Log2OfPow2(k - 1);
    }
  }

  ghost predicate IsPow2(n: nat) {
    exists k: nat :: n == Pow2(k)
  }

  /** Rounding up, as `Math.ceil(n / d)` does for every integer n. */
  function CeilDiv(n: int, d: nat): (q: int)
    requires d > 0
    ensures (q - 1) * d < n <= q * d
  {
    -((-n) / d)
  }

  /** Doubles from one until the value is reached, so no power below it would do. */
  method NextPow2(value: int) returns (power: nat)
    ensures IsPow2(power) && power >= value
    ensures forall k: nat :: Pow2(k) >= value ==> Pow2(k) >= power
  {
    power := 1;
    ghost var e: nat := 0;
    while power < value
      invariant power == Pow2(e)
      invariant forall k: nat :: Pow2(k) >= value ==> k >= e
    {
      forall k: nat | Pow2(k) >= value
        ensures k >= e + 1
      {
        assert k >= e;
      }
      power := power * 2;
      e := e + 1;
      assert power == Pow2(e);
    }
    forall k: nat | Pow2(k) >= value
      ensures Pow2(k) >= power
    {
      Pow2Monotone(e, k);
    }
  }

  // ----- rounds that halve: 2^w matches, then half as many, down to one

  function RoundSize(w: nat, k: nat): nat
    requires k <= w
  {
    Pow2(w - k)
  }

  /** How many matches the first k rounds hold together. */
  function RoundOffset(w: nat, k: nat): nat
    requires k <= w + 1
  {
    if k == 0 then 0 else RoundOffset(w, k - 1) + RoundSize(w, k - 1)
  }

  lemma {:induction false} RoundOffsetStep(w: nat, k: nat, k': nat)
    requires k < k' <= w + 1
    ensures RoundOffset(w, k) + RoundSize(w, k) <= RoundOffset(w, k')
    decreases k'
  {
    if k < k' - 1 {
      RoundOffsetStep(w, k, k' - 1);
    }
  }

  lemma {:induction false} RoundTotal(w: nat, k: nat)
    requires k <= w + 1
    ensures k <= w ==> RoundOffset(w, k) + 2 * RoundSize(w, k) == 2 * Pow2(w)
    ensures k == w + 1 ==> RoundOffset(w, k) == 2 * Pow2(w) - 1
  {
    if k > 0 {
      RoundTotal(w, k - 1);
    }
  }

  lemma EnoughMatches(entrantCount: int, playerPerMatch: nat, count: nat)
    requires playerPerMatch > 0
    ensures count >= CeilDiv(entrantCount, playerPerMatch) <==> count * playerPerMatch >= entrantCount
  {
    var q := CeilDiv(entrantCount, playerPerMatch);
    if count >= q {
      assert count * playerPerMatch >= q * playerPerMatch;
    } else {
      assert count * playerPerMatch <= (q - 1) * playerPerMatch;
    }
  }

  // ----- the builder and what it appends

  function RoundMatches(kind: RoundKind, roundIndex: nat, roundCount: nat, matchCount: nat): seq<Match> {
    seq(matchCount, (m: nat) => Match(kind, roundIndex, roundCount, m, matchCount))
  }

  /** The identifiers from `first` upwards. */
  function Ids(first: nat, count: nat): seq<nat> {
    seq(count, (m: nat) => first + m)
  }

  class BracketPlanBuilder {
    var matches: seq<Match>
    var routes: seq<Route>
    var seats: seq<Seat>

    constructor ()
      ensures matches == [] && routes == [] && seats == []
    {
      matches, routes, seats := [], [], [];
    }

    /** Appends matches 0 to matchCount - 1 of a round and returns the positions they took. */
    method AddRound(kind: RoundKind, roundIndex: nat, roundCount: nat, matchCount: nat) returns (localIds: seq<nat>)
      modifies this`matches
      ensures matches == old(matches) + RoundMatches(kind, roundIndex, roundCount, matchCount)
      ensures localIds == Ids(|old(matches)|, matchCount)
    {
      localIds := [];
      for matchIndex := 0 to matchCount
        invariant matches == old(matches) + RoundMatches(kind, roundIndex, roundCount, matchCount)[..matchIndex]
        invariant localIds == Ids(|old(matches)|, matchCount)[..matchIndex]
      {
        localIds := localIds + [|matches|];
        matches := matches + [Match(kind, roundIndex, roundCount, matchIndex, matchCount)];
      }
    }

    /** Both numbers are raised by one before they are stored. */
    method AddRoute(source: nat, placementIndex: nat, target: nat, slotIndex: nat)
      modifies this`routes
      ensures routes == old(routes) + [Route(source, placementIndex + 1, target, slotIndex + 1)]
    {
      routes := routes + [Route(source, placementIndex + 1, target, slotIndex + 1)];
    }

    /**
     * Entrant i takes slot i % playerPerMatch of match i / playerPerMatch, for
     * every i that still has a match; the remaining entrants get no seat.
     */
    method SeatFirstWave(firstRound: seq<nat>, entrantCount: int, playerPerMatch: nat)
      requires playerPerMatch > 0
      modifies this`seats
      ensures seats == old(seats) + FirstWave(firstRound, SeatedCount(|firstRound| * playerPerMatch, entrantCount), playerPerMatch)
    {
      hide FirstWave, MatchOfSeed, SlotOfSeed;
      ghost var capacity := |firstRound| * playerPerMatch;
      var seedIndex := 0;
      while seedIndex < entrantCount
        invariant if entrantCount >= 0 then 0 <= seedIndex <= entrantCount else seedIndex == 0
        invariant seats == old(seats) + FirstWave(firstRound, SeatedCount(capacity, seedIndex), playerPerMatch)
      {
        var matchIndex := MatchOfSeed(seedIndex, playerPerMatch);
        QuotientBelow(seedIndex, playerPerMatch, |firstRound|);
        if matchIndex < |firstRound| {
          FirstWaveStep(firstRound, seedIndex, playerPerMatch);
          seats := seats + [Seat(firstRound[matchIndex], SlotOfSeed(seedIndex, playerPerMatch), seedIndex)];
        }
        seedIndex := seedIndex + 1;
      }
    }
  }

  /** Entrants fill one match after another. */
  function MatchOfSeed(seed: nat, playerPerMatch: nat): nat
    requires playerPerMatch > 0
  {
    seed / playerPerMatch
  }

  function SlotOfSeed(seed: nat, playerPerMatch: nat): nat
    requires playerPerMatch > 0
  {
    seed % playerPerMatch + 1
  }

  /** How many entrants a first round of that capacity seats. */
  function SeatedCount(capacity: nat, entrantCount: int): nat {
    if entrantCount <= 0 then 0 else if entrantCount <= capacity then entrantCount else capacity
  }

  /** The seats of the first `count` entrants; past the last match there is nowhere to sit. */
  function FirstWave(firstRound: seq<nat>, count: nat, playerPerMatch: nat): (s: seq<Seat>)
    requires playerPerMatch > 0
    requires count <= |firstRound| * playerPerMatch
    ensures |s| == count
  {
    seq(count, (seed: nat) requires seed < count =>
      QuotientBelow(seed, playerPerMatch, |firstRound|);
      SeatOf(firstRound, seed, playerPerMatch))
  }

  function SeatOf(firstRound: seq<nat>, seed: nat, playerPerMatch: nat): Seat
    requires playerPerMatch > 0 && MatchOfSeed(seed, playerPerMatch) < |firstRound|
  {
    Seat(firstRound[MatchOfSeed(seed, playerPerMatch)], SlotOfSeed(seed, playerPerMatch), seed)
  }

  lemma FirstWaveStep(firstRound: seq<nat>, count: nat, playerPerMatch: nat)
    requires playerPerMatch > 0 && count < |firstRound| * playerPerMatch
    ensures MatchOfSeed(count, playerPerMatch) < |firstRound|
    ensures
      FirstWave(firstRound, count + 1, playerPerMatch) ==
      FirstWave(firstRound, count, playerPerMatch) + [SeatOf(firstRound, count, playerPerMatch)]
  {
    QuotientBelow(count, playerPerMatch, |firstRound|);
  }

  lemma Products(a: nat, b: nat, d: nat)
    requires a <= b
    ensures a * d <= b * d
  {
  }

  lemma QuotientBelow(n: nat, d: nat, q: nat)
    requires d > 0
    ensures MatchOfSeed(n, d) < q <==> n < q * d
  {
    var m := n / d;
    assert n == m * d + n % d;
    assert (m + 1) * d == m * d + d;
    if m < q {
      Products(m + 1, q, d);
    } else {
      Products(q, m, d);
    }
  }

  /** Halving a quotient by a power of two is dividing by the next. */
  lemma QuotientTwice(x: nat, k: nat)
    ensures (x / Pow2(k)) / 2 == x / Pow2(k + 1)
  {
    var d, q := Pow2(k), x / Pow2(k);
    assert x == q * d + x % d && q == 2 * (q / 2) + q % 2;
    assert (q % 2) * d <= d;
    QuotientIs(x, 2 * d, q / 2, (q % 2) * d + x % d);
  }

  lemma QuotientIs(x: nat, d: nat, q: nat, r: nat)
    requires d > 0 && x == q * d + r && r < d
    ensures x / d == q
  {
    QuotientBelow(x, d, q);
    QuotientBelow(x, d, q + 1);
    assert (q + 1) * d == q * d + d;
  }
}
