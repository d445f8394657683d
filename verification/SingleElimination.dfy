/**
 * Every route of a single elimination, counted from both of its ends, and the
 * exact sizes for which the generator can deal all of its rounds.
 *
 * Round t holds 2^(w - t) matches of p players. Slot s of match m of round t is
 * filled from entry s of row m of the table of round t - 1. If p > 2, two finals follow
 * the last round, one for the places below p / 2 and one for the others.
 */
module SingleEliminations {
  import opened Wrappers
  import opened BracketPlans
  import opened Sequences
  import opened Pairings

  /** Slot `slot` of match `m` in round t >= 1, all counting from zero. */
  datatype Slot = Slot(t: nat, m: nat, slot: nat)

  ghost predicate ValidSlot(w: nat, p: nat, x: Slot) {
    1 <= x.t <= w && x.m < RoundSize(w, x.t) && x.slot < p
  }

  /** Matches are numbered round by round; the finals, if any, come last. */
  function MatchId(w: nat, t: nat, m: nat): nat
    requires t <= w
  {
    RoundOffset(w, t) + m
  }

  function FinalId(w: nat, b: nat): nat {
    RoundOffset(w, w + 1) + b
  }

  // ----- the routes, slot by slot

  ghost predicate Fillable(w: nat, p: nat, x: Slot)
    requires p >= 2
  {
    ValidSlot(w, p, x) && x.slot < |Bucket(RoundSize(w, x.t - 1), p, x.m)|
  }

  /** The finisher who fills a slot. */
  function Filler(w: nat, p: nat, x: Slot): PlayerInfo
    requires p >= 2 && 1 <= x.t <= w && x.slot < |Bucket(RoundSize(w, x.t - 1), p, x.m)|
  {
    Bucket(RoundSize(w, x.t - 1), p, x.m)[x.slot]
  }

  function RouteInto(w: nat, p: nat, x: Slot): Route
    requires p >= 2 && 1 <= x.t <= w && x.slot < |Bucket(RoundSize(w, x.t - 1), p, x.m)|
  {
    var e := Filler(w, p, x);
    Route(MatchId(w, x.t - 1, e.match_), e.place + 1, MatchId(w, x.t, x.m), x.slot + 1)
  }

  /** The slots of the first m matches of round t, and the first s slots of the next. */
  function SlotsOfMatch(t: nat, m: nat, s: nat): seq<Slot> {
    seq(s, (i: nat) => Slot(t, m, i))
  }

  function SlotsOfRound(p: nat, t: nat, m: nat): seq<Slot> {
    if m == 0 then [] else SlotsOfRound(p, t, m - 1) + SlotsOfMatch(t, m - 1, p)
  }

  /** The slots of rounds 1 to t, in the order they are filled. */
  function SlotsUpTo(w: nat, p: nat, t: nat): seq<Slot>
    requires t <= w
  {
    if t == 0 then [] else SlotsUpTo(w, p, t - 1) + SlotsOfRound(p, t, RoundSize(w, t))
  }

  ghost predicate AllFillable(w: nat, p: nat, xs: seq<Slot>)
    requires p >= 2
  {
    forall i :: 0 <= i < |xs| ==> Fillable(w, p, xs[i])
  }

  ghost function RoutesInto(w: nat, p: nat, xs: seq<Slot>): seq<Route>
    requires p >= 2 && AllFillable(w, p, xs)
  {
    seq(|xs|, (i: nat) requires i < |xs| && Fillable(w, p, xs[i]) => RouteInto(w, p, xs[i]))
  }

  /** The last match sends its top half into the first final and the rest into the second. */
  function FinalRoute(w: nat, p: nat, q: nat): Route {
    var half := p / 2;
    if q < half then Route(MatchId(w, w, 0), q + 1, FinalId(w, 0), q + 1)
    else Route(MatchId(w, w, 0), q + 1, FinalId(w, 1), q - half + 1)
  }

  function FinalRoutes(w: nat, p: nat): seq<Route> {
    if p > 2 then seq(p, (q: nat) => FinalRoute(w, p, q)) else []
  }

  ghost function PlanRoutes(w: nat, p: nat): seq<Route>
    requires p >= 2 && AllFillable(w, p, SlotsUpTo(w, p, w))
  {
    RoutesInto(w, p, SlotsUpTo(w, p, w)) + FinalRoutes(w, p)
  }

  // ----- the slots listed are the slots there are

  lemma {:induction false} SlotsOfRoundContents(p: nat, t: nat, m: nat)
    ensures forall x :: x in SlotsOfRound(p, t, m) <==> x.t == t && x.m < m && x.slot < p
    ensures NoRepeat(SlotsOfRound(p, t, m))
  {
    if m > 0 {
      SlotsOfRoundContents(p, t, m - 1);
      forall x: Slot | x.t == t && x.m == m - 1 && x.slot < p
        ensures x in SlotsOfMatch(t, m - 1, p)
      {
        assert SlotsOfMatch(t, m - 1, p)[x.slot] == x;
      }
      NoRepeatAppend(SlotsOfRound(p, t, m - 1), SlotsOfMatch(t, m - 1, p));
    }
  }

  lemma {:induction false} SlotsUpToContents(w: nat, p: nat, t: nat)
    requires t <= w
    ensures forall x :: x in SlotsUpTo(w, p, t) <==> ValidSlot(w, p, x) && x.t <= t
    ensures NoRepeat(SlotsUpTo(w, p, t))
  {
    if t > 0 {
      SlotsUpToContents(w, p, t - 1);
      SlotsOfRoundContents(p, t, RoundSize(w, t));
      NoRepeatAppend(SlotsUpTo(w, p, t - 1), SlotsOfRound(p, t, RoundSize(w, t)));
    }
  }

  lemma RoundsHalve(w: nat, p: nat, t: nat)
    requires p >= 2 && 1 <= t <= w
    ensures RoundSize(w, t - 1) == 2 * RoundSize(w, t) == Pow2(w - t + 1)
  {
  }

  /** A pairing exists for every slot exactly when every round can be paired. */
  lemma AllSlotsFillable(w: nat, p: nat)
    requires p >= 2
    ensures AllBalanced(w, p) <==> AllFillable(w, p, SlotsUpTo(w, p, w))
  {
    SlotsUpToContents(w, p, w);
    var xs := SlotsUpTo(w, p, w);
    if AllBalanced(w, p) {
      forall i | 0 <= i < |xs|
        ensures Fillable(w, p, xs[i])
      {
        assert xs[i] in xs;
        RoundsHalve(w, p, xs[i].t);
        assert Balanced(Pow2(w - xs[i].t + 1), p);
      }
    } else {
      var e: nat :| 1 <= e <= w && !Balanced(Pow2(e), p);
      var b: nat :| b < Pow2(e) / 2 && |Bucket(Pow2(e), p, b)| < p;
      var x := Slot(w - e + 1, b, |Bucket(Pow2(e), p, b)|);
      RoundsHalve(w, p, x.t);
      assert ValidSlot(w, p, x) && x in xs;
      var i :| 0 <= i < |xs| && xs[i] == x;
      assert !Fillable(w, p, xs[i]);
    }
  }

  // ----- identifiers

  lemma MatchIdInjective(w: nat, t: nat, m: nat, t': nat, m': nat)
    requires t <= w && t' <= w && m < RoundSize(w, t) && m' < RoundSize(w, t')
    ensures MatchId(w, t, m) < FinalId(w, 0) < FinalId(w, 1)
    ensures MatchId(w, t, m) == MatchId(w, t', m') ==> t == t' && m == m'
  {
    RoundOffsetStep(w, t, if t < t' then t' else w + 1);
    RoundOffsetStep(w, t', if t' < t then t else w + 1);
    RoundOffsetStep(w, t, w + 1);
  }

  lemma FillerInfo(w: nat, p: nat, x: Slot)
    requires p >= 2 && Fillable(w, p, x)
    ensures
      var e, count := Filler(w, p, x), RoundSize(w, x.t - 1);
      e in Bucket(count, p, x.m) && e.match_ < count && e.place < Passes(p) && BucketOf(count, Group(p), e.place, e.match_) == x.m
  {
    FilledContents(RoundSize(w, x.t - 1), Group(p), x.m, Passes(p));
  }

  // ----- the routing is a bijection

  /** Two routes between rounds that leave the same place of the same match fill the same slot. */
  lemma FillersDistinct(w: nat, p: nat, x: Slot, y: Slot)
    requires p >= 2 && Fillable(w, p, x) && Fillable(w, p, y)
    requires RouteInto(w, p, x).source == RouteInto(w, p, y).source
    requires RouteInto(w, p, x).placement == RouteInto(w, p, y).placement
    ensures x == y
  {
    FillerInfo(w, p, x);
    FillerInfo(w, p, y);
    MatchIdInjective(w, x.t - 1, Filler(w, p, x).match_, y.t - 1, Filler(w, p, y).match_);
    FilledContents(RoundSize(w, x.t - 1), Group(p), x.m, Passes(p));
  }

  lemma PlanRouteAt(w: nat, p: nat, i: nat)
    requires p >= 2 && AllFillable(w, p, SlotsUpTo(w, p, w)) && i < |PlanRoutes(w, p)|
    ensures
      var xs := SlotsUpTo(w, p, w);
      if i < |xs| then Fillable(w, p, xs[i]) && PlanRoutes(w, p)[i] == RouteInto(w, p, xs[i])
      else p > 2 && i - |xs| < p && PlanRoutes(w, p)[i] == FinalRoute(w, p, i - |xs|)
  {
  }

  lemma SlotPosition(w: nat, p: nat, x: Slot) returns (i: nat)
    requires p >= 2 && ValidSlot(w, p, x) && AllFillable(w, p, SlotsUpTo(w, p, w))
    ensures i < |SlotsUpTo(w, p, w)| && SlotsUpTo(w, p, w)[i] == x && Fillable(w, p, x)
    ensures i < |PlanRoutes(w, p)| && PlanRoutes(w, p)[i] == RouteInto(w, p, x)
  {
    SlotsUpToContents(w, p, w);
    i :| 0 <= i < |SlotsUpTo(w, p, w)| && SlotsUpTo(w, p, w)[i] == x;
  }

  /** Every slot of a later round is filled by exactly one route. */
  lemma SlotFedOnce(w: nat, p: nat, x: Slot)
    requires p >= 2 && ValidSlot(w, p, x) && AllFillable(w, p, SlotsUpTo(w, p, w))
    ensures FedOnce(PlanRoutes(w, p), MatchId(w, x.t, x.m), x.slot + 1)
  {
    hide SlotsUpTo, PlanRoutes, MatchId, FinalId, Bucket, RoundSize;
    var routes, xs, id := PlanRoutes(w, p), SlotsUpTo(w, p, w), MatchId(w, x.t, x.m);
    SlotsUpToContents(w, p, w);
    var i := SlotPosition(w, p, x);
    forall j | 0 <= j < |routes| && Feeds(routes[j], id, x.slot + 1)
      ensures j == i
    {
      PlanRouteAt(w, p, j);
      if j < |xs| {
        MatchIdInjective(w, x.t, x.m, xs[j].t, xs[j].m);
      } else {
        MatchIdInjective(w, x.t, x.m, x.t, x.m);
      }
    }
    assert Feeds(routes[i], id, x.slot + 1);
  }

  /** No route leads into the first round: its slots belong to the entrants. */
  lemma FirstRoundNeverFed(w: nat, p: nat, m: nat, slot: nat)
    requires p >= 2 && m < RoundSize(w, 0) && AllFillable(w, p, SlotsUpTo(w, p, w))
    ensures NeverFed(PlanRoutes(w, p), MatchId(w, 0, m), slot)
  {
    forall r | r in PlanRoutes(w, p)
      ensures !Feeds(r, MatchId(w, 0, m), slot)
    {
      var j :| 0 <= j < |PlanRoutes(w, p)| && PlanRoutes(w, p)[j] == r;
      PlanRouteAt(w, p, j);
      var xs := SlotsUpTo(w, p, w);
      MatchIdInjective(w, 0, m, if j < |xs| then xs[j].t else 0, if j < |xs| then xs[j].m else m);
    }
  }

  lemma IntoOrOutOfFinals(w: nat, p: nat, q: nat, j: nat)
    requires p > 2 && q < p && AllFillable(w, p, SlotsUpTo(w, p, w)) && j < |PlanRoutes(w, p)|
    requires
      var r, made := FinalRoute(w, p, q), PlanRoutes(w, p)[j];
      Feeds(made, r.target, r.slot) || Sends(made, r.source, r.placement)
    ensures j == |SlotsUpTo(w, p, w)| + q
  {
    PlanRouteAt(w, p, j);
    var xs := SlotsUpTo(w, p, w);
    hide PlanRoutes, SlotsUpTo, RoundSize, RoundOffset, Bucket;
    assert RoundSize(w, w) == 1 by { LastRound(w); }
    if j < |xs| {
      FillerInfo(w, p, xs[j]);
      MatchIdInjective(w, w, 0, xs[j].t - 1, Filler(w, p, xs[j]).match_);
      MatchIdInjective(w, xs[j].t, xs[j].m, w, 0);
    }
  }

  lemma LastRound(w: nat)
    ensures RoundSize(w, w) == 1
  {
  }

  /** Only the route of a place of the last match shares its source or its target. */
  lemma FinalRouteAlone(w: nat, p: nat, q: nat, i: nat)
    requires p > 2 && q < p && AllFillable(w, p, SlotsUpTo(w, p, w)) && i == |SlotsUpTo(w, p, w)| + q
    ensures i < |PlanRoutes(w, p)| && PlanRoutes(w, p)[i] == FinalRoute(w, p, q)
    ensures var routes, r := PlanRoutes(w, p), FinalRoute(w, p, q);
            forall j :: 0 <= j < |routes| && (Feeds(routes[j], r.target, r.slot) || Sends(routes[j], r.source, r.placement)) ==> j == i
  {
    var routes, r := PlanRoutes(w, p), FinalRoute(w, p, q);
    PlanRouteAt(w, p, i);
    hide PlanRoutes, SlotsUpTo, MatchId, FinalId, AllFillable;
    forall j | 0 <= j < |routes| && (Feeds(routes[j], r.target, r.slot) || Sends(routes[j], r.source, r.placement))
      ensures j == i
    {
      IntoOrOutOfFinals(w, p, q, j);
    }
  }

  /**
   * If p > 2, the only route out of a top-half place of the last match leads to the
   * same slot of the first final, and that out of the n-th place of the other half
   * to slot n of the second; and nothing else leads there.
   */
  lemma FinalsFedOnce(w: nat, p: nat, q: nat)
    requires p > 2 && q < p && AllFillable(w, p, SlotsUpTo(w, p, w))
    ensures OnlyRoute(PlanRoutes(w, p), if q < p / 2 then Route(MatchId(w, w, 0), q + 1, FinalId(w, 0), q + 1)
                                        else Route(MatchId(w, w, 0), q + 1, FinalId(w, 1), q - p / 2 + 1))
    ensures SentOnce(PlanRoutes(w, p), MatchId(w, w, 0), q + 1)
    ensures FedOnce(PlanRoutes(w, p), FinalId(w, if q < p / 2 then 0 else 1), if q < p / 2 then q + 1 else q - p / 2 + 1)
  {
    var i := |SlotsUpTo(w, p, w)| + q;
    FinalRouteAlone(w, p, q, i);
    hide PlanRoutes, SlotsUpTo, MatchId, FinalId, AllFillable;
    assert Sends(PlanRoutes(w, p)[i], MatchId(w, w, 0), q + 1);
    assert OnlyRoute(PlanRoutes(w, p), FinalRoute(w, p, q));
  }

  /** A place of a match before the last round is sent on at most once, and only if it is dealt out. */
  lemma SentByFiller(w: nat, p: nat, t: nat, m: nat, q: nat, j: nat)
    requires p >= 2 && t < w && m < RoundSize(w, t) && AllFillable(w, p, SlotsUpTo(w, p, w))
    requires j < |PlanRoutes(w, p)| && Sends(PlanRoutes(w, p)[j], MatchId(w, t, m), q + 1)
    ensures j < |SlotsUpTo(w, p, w)|
    ensures
      var x := SlotsUpTo(w, p, w)[j];
      Fillable(w, p, x) && x.t == t + 1 && Filler(w, p, x) == PlayerInfo(m, q) && q < Passes(p)
  {
    PlanRouteAt(w, p, j);
    var xs := SlotsUpTo(w, p, w);
    if j < |xs| {
      FillerInfo(w, p, xs[j]);
      MatchIdInjective(w, t, m, xs[j].t - 1, Filler(w, p, xs[j]).match_);
    } else {
      MatchIdInjective(w, t, m, w, 0);
    }
  }

  lemma DealtSlot(w: nat, p: nat, t: nat, m: nat, q: nat) returns (b: nat, slot: nat)
    requires p >= 2 && t < w && m < RoundSize(w, t) && q < Passes(p)
    ensures b < RoundSize(w, t + 1) && slot < |Bucket(RoundSize(w, t), p, b)|
    ensures Bucket(RoundSize(w, t), p, b)[slot] == PlayerInfo(m, q)
  {
    var count := RoundSize(w, t);
    RoundsHalve(w, p, t + 1);
    BucketInRange(count, Group(p), q, m);
    b := BucketOf(count, Group(p), q, m);
    FilledContents(count, Group(p), b, Passes(p));
    assert PlayerInfo(m, q) in Bucket(count, p, b);
    slot :| 0 <= slot < |Bucket(count, p, b)| && Bucket(count, p, b)[slot] == PlayerInfo(m, q);
  }

  lemma SenderOfDealt(w: nat, p: nat, t: nat, m: nat, q: nat, b: nat, slot: nat, j: nat)
    requires p >= 2 && t < w && m < RoundSize(w, t) && AllFillable(w, p, SlotsUpTo(w, p, w))
    requires slot < |Bucket(RoundSize(w, t), p, b)| && Bucket(RoundSize(w, t), p, b)[slot] == PlayerInfo(m, q)
    requires j < |PlanRoutes(w, p)| && Sends(PlanRoutes(w, p)[j], MatchId(w, t, m), q + 1)
    ensures j < |SlotsUpTo(w, p, w)| && SlotsUpTo(w, p, w)[j] == Slot(t + 1, b, slot) && slot < p
  {
    SentByFiller(w, p, t, m, q, j);
    var x, count := SlotsUpTo(w, p, w)[j], RoundSize(w, t);
    hide PlanRoutes, RoutesInto, SlotsUpTo, RoundSize, Bucket;
    FillerInfo(w, p, x);
    BucketContents(count, p, b);
    assert PlayerInfo(m, q) in Bucket(count, p, b);
  }

  lemma BucketContents(count: nat, p: nat, b: nat)
    requires p >= 2
    ensures forall e :: e in Bucket(count, p, b) ==> BucketOf(count, Group(p), e.place, e.match_) == b
    ensures NoRepeat(Bucket(count, p, b))
  {
    FilledContents(count, Group(p), b, Passes(p));
  }

  /** A dealt place is sent on exactly once if its bucket has room for it, and never otherwise. */
  lemma SentIffRoom(w: nat, p: nat, t: nat, m: nat, q: nat, b: nat, slot: nat)
    requires p >= 2 && t < w && m < RoundSize(w, t) && AllFillable(w, p, SlotsUpTo(w, p, w))
    requires b < RoundSize(w, t + 1) && slot < |Bucket(RoundSize(w, t), p, b)|
    requires Bucket(RoundSize(w, t), p, b)[slot] == PlayerInfo(m, q)
    ensures slot < p ==> SentOnce(PlanRoutes(w, p), MatchId(w, t, m), q + 1)
    ensures slot >= p ==> NeverSent(PlanRoutes(w, p), MatchId(w, t, m), q + 1)
  {
    var routes, xs, id := PlanRoutes(w, p), SlotsUpTo(w, p, w), MatchId(w, t, m);
    if slot < p {
      var i := SlotPosition(w, p, Slot(t + 1, b, slot));
      assert Sends(routes[i], id, q + 1);
      SlotsUpToContents(w, p, w);
      hide PlanRoutes, SlotsUpTo, Bucket, RouteInto;
      forall j | 0 <= j < |routes| && Sends(routes[j], id, q + 1)
        ensures j == i
      {
        SenderOfDealt(w, p, t, m, q, b, slot, j);
      }
    } else {
      hide PlanRoutes, SlotsUpTo, Bucket;
      forall r | r in routes
        ensures !Sends(r, id, q + 1)
      {
        var j :| 0 <= j < |routes| && routes[j] == r;
        if Sends(r, id, q + 1) {
          SenderOfDealt(w, p, t, m, q, b, slot, j);
        }
      }
    }
  }

  /** With matches of an even size, the top half of every match before the last goes on exactly once and the rest not at all. */
  lemma PlaceSentOnce(w: nat, p: nat, t: nat, m: nat, q: nat)
    requires p >= 2 && p % 2 == 0 && t < w && m < RoundSize(w, t) && q < p
    requires AllBalanced(w, p) && AllFillable(w, p, SlotsUpTo(w, p, w))
    ensures q < p / 2 ==> SentOnce(PlanRoutes(w, p), MatchId(w, t, m), q + 1)
    ensures q >= p / 2 ==> NeverSent(PlanRoutes(w, p), MatchId(w, t, m), q + 1)
  {
    if q < p / 2 {
      var b, slot := DealtSlot(w, p, t, m, q);
      RoundsHalve(w, p, t + 1);
      AllBalancedIffPairable(w, p);
      PairableRound(w, p, w - t);
      SentIffRoom(w, p, t, m, q, b, slot);
    } else {
      forall r | r in PlanRoutes(w, p)
        ensures !Sends(r, MatchId(w, t, m), q + 1)
      {
        var j :| 0 <= j < |PlanRoutes(w, p)| && PlanRoutes(w, p)[j] == r;
        if Sends(r, MatchId(w, t, m), q + 1) {
          SentByFiller(w, p, t, m, q, j);
        }
      }
    }
  }

  // ----- matches of an odd size lose somebody

  lemma OneBucket(p: nat, j: nat, i: nat)
    requires p >= 2 && i < 2
    ensures BucketOf(2, Group(p), j, i) == 0
  {
  }

  /** Both matches deal a place to the one bucket there is. */
  lemma PlaceDealt(p: nat, j: nat)
    requires p >= 2
    ensures Dealt(2, Group(p), 0, j, 2) == [PlayerInfo(0, j), PlayerInfo(1, j)]
  {
    OneBucket(p, j, 0);
    OneBucket(p, j, 1);
    hide BucketOf, Group;
    assert Dealt(2, Group(p), 0, j, 0) == [];
    assert Dealt(2, Group(p), 0, j, 1) == [PlayerInfo(0, j)];
  }

  lemma {:induction false} TwoMatchesDealt(p: nat, j: nat)
    requires p >= 2
    ensures |Filled(2, Group(p), 0, j)| == 2 * j
    ensures forall q: nat :: q < j ==>
              Filled(2, Group(p), 0, j)[2 * q] == PlayerInfo(0, q) && Filled(2, Group(p), 0, j)[2 * q + 1] == PlayerInfo(1, q)
  {
    assert Group(p) > 0;
    hide Dealt, Group;
    if j > 0 {
      TwoMatchesDealt(p, j - 1);
      PlaceDealt(p, j - 1);
      var before := Filled(2, Group(p), 0, j - 1);
      assert Filled(2, Group(p), 0, j) == before + [PlayerInfo(0, j - 1), PlayerInfo(1, j - 1)];
      hide Filled;
      PairAdded(before, j - 1);
    }
  }

  lemma PairAdded(before: seq<PlayerInfo>, j: nat)
    requires |before| == 2 * j && forall q: nat :: q < j ==> before[2 * q] == PlayerInfo(0, q) && before[2 * q + 1] == PlayerInfo(1, q)
    ensures var all := before + [PlayerInfo(0, j), PlayerInfo(1, j)];
            forall q: nat :: q <= j ==> all[2 * q] == PlayerInfo(0, q) && all[2 * q + 1] == PlayerInfo(1, q)
  {
  }

  /**
   * With matches of an odd size the two semi-finals deal out one finisher more
   * than the last match holds: the middle place of the second one is dropped.
   */
  lemma MiddlePlaceDropped(w: nat, p: nat)
    requires p >= 2 && p % 2 == 1 && w >= 1 && AllFillable(w, p, SlotsUpTo(w, p, w))
    ensures RoundSize(w, w - 1) == 2
    ensures SentOnce(PlanRoutes(w, p), MatchId(w, w - 1, 0), Passes(p))
    ensures NeverSent(PlanRoutes(w, p), MatchId(w, w - 1, 1), Passes(p))
  {
    var q := Passes(p) - 1;
    MiddlePlacesDealt(p, q);
    LastTwo(w);
    hide Bucket, AllFillable, SlotsUpTo, PlanRoutes, RoundSize, RoundOffset;
    SentIffRoom(w, p, w - 1, 0, q, 0, p - 1);
    SentIffRoom(w, p, w - 1, 1, q, 0, p);
  }

  lemma LastTwo(w: nat)
    requires w >= 1
    ensures RoundSize(w, w - 1) == 2 && RoundSize(w, w) == 1
  {
  }

  /** The middle places come last, the one of the second match past the last slot. */
  lemma MiddlePlacesDealt(p: nat, q: nat)
    requires p >= 2 && p % 2 == 1 && q == Passes(p) - 1
    ensures |Bucket(2, p, 0)| == p + 1 && Bucket(2, p, 0)[p - 1] == PlayerInfo(0, q) && Bucket(2, p, 0)[p] == PlayerInfo(1, q)
  {
    TwoMatchesDealt(p, Passes(p));
    hide Filled;
    assert p - 1 == 2 * q;
  }

  ghost predicate NobodyDropped(w: nat, p: nat)
    requires p >= 2 && AllFillable(w, p, SlotsUpTo(w, p, w))
  {
    forall t: nat, m: nat, placement: nat :: t < w && m < RoundSize(w, t) && 1 <= placement <= Passes(p) ==>
      SentOnce(PlanRoutes(w, p), MatchId(w, t, m), placement)
  }

  /** Everybody who is dealt out reaches the next round exactly when matches have an even size. */
  lemma NobodyDroppedIffEven(w: nat, p: nat)
    requires p >= 2 && w >= 1 && AllBalanced(w, p) && AllFillable(w, p, SlotsUpTo(w, p, w))
    ensures NobodyDropped(w, p) <==> p % 2 == 0
  {
    if p % 2 == 0 {
      forall t: nat, m: nat, placement: nat | t < w && m < RoundSize(w, t) && 1 <= placement <= Passes(p)
        ensures SentOnce(PlanRoutes(w, p), MatchId(w, t, m), placement)
      {
        PlaceSentOnce(w, p, t, m, placement - 1);
      }
    } else {
      MiddlePlaceDropped(w, p);
      NeverIsNotOnce(PlanRoutes(w, p), MatchId(w, w - 1, 1), Passes(p));
    }
  }

  lemma NeverIsNotOnce(routes: seq<Route>, source: nat, placement: nat)
    requires NeverSent(routes, source, placement)
    ensures !SentOnce(routes, source, placement)
  {
    assert forall i :: 0 <= i < |routes| ==> routes[i] in routes;
  }

  // ----- the generator

  ghost function Descriptors(w: nat, t: nat): seq<Match>
    requires t <= w + 1
  {
    if t == 0 then [] else Descriptors(w, t - 1) + RoundMatches(Single, t - 1, w + 1, RoundSize(w, t - 1))
  }

  ghost function PlanMatches(w: nat, p: nat): seq<Match> {
    if p > 2 then Descriptors(w, w + 1) + RoundMatches(Final, w + 1, w + 2, 2) else Descriptors(w, w + 1)
  }

  lemma {:induction false} DescriptorCount(w: nat, t: nat)
    requires t <= w + 1
    ensures |Descriptors(w, t)| == RoundOffset(w, t)
  {
    if t > 0 {
      DescriptorCount(w, t - 1);
    }
  }

  lemma RoutesIntoAppend(w: nat, p: nat, xs: seq<Slot>, ys: seq<Slot>)
    requires p >= 2 && AllFillable(w, p, xs) && AllFillable(w, p, ys)
    ensures AllFillable(w, p, xs + ys) && RoutesInto(w, p, xs + ys) == RoutesInto(w, p, xs) + RoutesInto(w, p, ys)
  {
  }

  /** The routes of one row of the pairing table into one match. */
  function RowRoutes(row: seq<PlayerInfo>, currentMatches: seq<nat>, target: nat, count: nat): seq<Route>
    requires count <= |row| && forall j :: 0 <= j < |row| ==> row[j].match_ < |currentMatches|
  {
    seq(count, (j: nat) requires j < count => Route(currentMatches[row[j].match_], row[j].place + 1, target, j + 1))
  }

  /** Fills one match, stopping at the first slot its row has no entry for, where the program would throw. */
  method WireMatch(builder: BracketPlanBuilder, playerPerMatch: nat, row: seq<PlayerInfo>, currentMatches: seq<nat>, target: nat)
    returns (ok: bool)
    requires forall j :: 0 <= j < |row| ==> row[j].match_ < |currentMatches|
    modifies builder`routes
    ensures ok <==> |row| >= playerPerMatch
    ensures ok ==> builder.routes == old(builder.routes) + RowRoutes(row, currentMatches, target, playerPerMatch)
  {
    for j := 0 to playerPerMatch
      invariant j <= |row| && builder.routes == old(builder.routes) + RowRoutes(row, currentMatches, target, j)
    {
      if j >= |row| {
        return false;
      }
      var currentIndex := row[j];
      builder.AddRoute(currentMatches[currentIndex.match_], currentIndex.place, target, j);
    }
    ok := true;
  }

  lemma RowInRange(count: nat, p: nat, m: nat)
    requires p >= 2
    ensures forall j :: 0 <= j < |Bucket(count, p, m)| ==> Bucket(count, p, m)[j].match_ < count
  {
    FilledContents(count, Group(p), m, Passes(p));
    var row := Bucket(count, p, m);
    assert forall j :: 0 <= j < |row| ==> row[j] in row;
  }

  lemma RowIsBucket(w: nat, p: nat, t: nat, m: nat)
    requires p >= 2 && 1 <= t <= w && m < RoundSize(w, t)
    ensures
      var row, current := Bucket(RoundSize(w, t - 1), p, m), Ids(MatchId(w, t - 1, 0), RoundSize(w, t - 1));
      && (forall j :: 0 <= j < |row| ==> row[j].match_ < |current|)
      && (|row| >= p ==>
            && AllFillable(w, p, SlotsOfMatch(t, m, p))
            && RoutesInto(w, p, SlotsOfMatch(t, m, p)) == RowRoutes(row, current, MatchId(w, t, m), p))
  {
    RowInRange(RoundSize(w, t - 1), p, m);
    hide Bucket, RoundSize, RoundOffset;
    var row, current := Bucket(RoundSize(w, t - 1), p, m), Ids(MatchId(w, t - 1, 0), RoundSize(w, t - 1));
    if |row| >= p {
      var xs := SlotsOfMatch(t, m, p);
      assert AllFillable(w, p, xs);
      forall j: nat | j < p
        ensures RoutesInto(w, p, xs)[j] == RowRoutes(row, current, MatchId(w, t, m), p)[j]
      {
        assert xs[j] == Slot(t, m, j) && Filler(w, p, xs[j]) == row[j];
        assert current[row[j].match_] == MatchId(w, t - 1, row[j].match_);
      }
    }
  }

  lemma SlotsOfRoundStep(w: nat, p: nat, t: nat, m: nat)
    requires p >= 2 && AllFillable(w, p, SlotsOfRound(p, t, m)) && AllFillable(w, p, SlotsOfMatch(t, m, p))
    ensures AllFillable(w, p, SlotsOfRound(p, t, m + 1))
    ensures RoutesInto(w, p, SlotsOfRound(p, t, m + 1)) ==
            RoutesInto(w, p, SlotsOfRound(p, t, m)) + RoutesInto(w, p, SlotsOfMatch(t, m, p))
  {
    RoutesIntoAppend(w, p, SlotsOfRound(p, t, m), SlotsOfMatch(t, m, p));
  }

  lemma RoundTables(w: nat, p: nat, t: nat)
    requires p >= 2 && 1 <= t <= w
    ensures RoundSize(w, t - 1) / 2 == |Buckets(RoundSize(w, t - 1), p)| == |Ids(MatchId(w, t, 0), RoundSize(w, t))| == RoundSize(w, t)
    ensures forall m: nat :: m < RoundSize(w, t) ==>
              Buckets(RoundSize(w, t - 1), p)[m] == Bucket(RoundSize(w, t - 1), p, m) && Ids(MatchId(w, t, 0), RoundSize(w, t))[m] == MatchId(w, t, m)
    ensures SlotsOfRound(p, t, 0) == [] && RoutesInto(w, p, []) == []
  {
    RoundsHalve(w, p, t);
  }

  /** Wires one round into the next, which succeeds exactly when every row of the pairing table is long enough. */
  method WireRound(builder: BracketPlanBuilder, ghost w: nat, playerPerMatch: nat, ghost t: nat,
                   indexes: seq<seq<PlayerInfo>>, currentMatches: seq<nat>, nextMatches: seq<nat>)
    returns (ok: bool)
    requires playerPerMatch >= 2 && 1 <= t <= w
    requires indexes == Buckets(RoundSize(w, t - 1), playerPerMatch)
    requires currentMatches == Ids(MatchId(w, t - 1, 0), RoundSize(w, t - 1))
    requires nextMatches == Ids(MatchId(w, t, 0), RoundSize(w, t))
    modifies builder`routes
    ensures ok <==> Balanced(RoundSize(w, t - 1), playerPerMatch)
    ensures ok ==>
      var xs := SlotsOfRound(playerPerMatch, t, RoundSize(w, t));
      AllFillable(w, playerPerMatch, xs) && builder.routes == old(builder.routes) + RoutesInto(w, playerPerMatch, xs)
  {
    hide Bucket, Buckets, RoundSize, MatchId, RoutesInto, SlotsOfMatch, SlotsOfRound, RowRoutes, Ids, Fillable;
    ghost var count := RoundSize(w, t - 1);
    RoundTables(w, playerPerMatch, t);
    for i := 0 to |nextMatches|
      invariant forall b: nat :: b < i ==> |Bucket(count, playerPerMatch, b)| >= playerPerMatch
      invariant AllFillable(w, playerPerMatch, SlotsOfRound(playerPerMatch, t, i))
      invariant builder.routes == old(builder.routes) + RoutesInto(w, playerPerMatch, SlotsOfRound(playerPerMatch, t, i))
    {
      RowIsBucket(w, playerPerMatch, t, i);
      var filled := WireMatch(builder, playerPerMatch, indexes[i], currentMatches, nextMatches[i]);
      if !filled {
        return false;
      }
      SlotsOfRoundStep(w, playerPerMatch, t, i);
    }
    ok := true;
  }

  ghost predicate RoundsBalanced(w: nat, p: nat, t: nat)
    requires p >= 2 && t <= w
  {
    forall k: nat :: k < t ==> Balanced(RoundSize(w, k), p)
  }

  /** The first round whose table has too few players for some match of the next. */
  ghost predicate FirstShort(w: nat, p: nat, t: nat)
    requires p >= 2
  {
    t < w && RoundsBalanced(w, p, t) && !Balanced(RoundSize(w, t), p)
  }

  lemma RoundsAreAll(w: nat, p: nat)
    requires p >= 2
    ensures RoundsBalanced(w, p, w) <==> AllBalanced(w, p)
  {
    if RoundsBalanced(w, p, w) {
      forall e: nat | 1 <= e <= w
        ensures Balanced(Pow2(e), p)
      {
        assert Balanced(RoundSize(w, w - e), p);
      }
    } else {
      var k: nat :| k < w && !Balanced(RoundSize(w, k), p);
      assert !Balanced(Pow2(w - k), p);
    }
  }

  lemma RoutesUpToStep(w: nat, p: nat, t: nat)
    requires p >= 2 && 1 <= t <= w
    requires AllFillable(w, p, SlotsUpTo(w, p, t - 1)) && AllFillable(w, p, SlotsOfRound(p, t, RoundSize(w, t)))
    ensures AllFillable(w, p, SlotsUpTo(w, p, t))
    ensures RoutesInto(w, p, SlotsUpTo(w, p, t)) ==
            RoutesInto(w, p, SlotsUpTo(w, p, t - 1)) + RoutesInto(w, p, SlotsOfRound(p, t, RoundSize(w, t)))
  {
    RoutesIntoAppend(w, p, SlotsUpTo(w, p, t - 1), SlotsOfRound(p, t, RoundSize(w, t)));
  }

  lemma Halving(w: nat, p: nat, t: nat)
    requires p >= 2 && t <= w
    ensures RoundSize(w, t) >= 1 && (RoundSize(w, t) * p) / p == RoundSize(w, t)
    ensures t < w ==> (RoundSize(w, t) * p) / 2 == RoundSize(w, t + 1) * p && RoundSize(w, t) % 2 == 0 && RoundSize(w, t) > 1
    ensures t == w ==> RoundSize(w, t) == 1 && ((RoundSize(w, t) * p) / 2) / p == 0
    ensures (RoundSize(w, t) * p) % p == 0
  {
    var size := RoundSize(w, t);
    ProductQuotient(size, p);
    if t < w {
      RoundsHalve(w, p, t + 1);
      assert size * p == 2 * (RoundSize(w, t + 1) * p);
    } else {
      assert size * p == p;
      ProductQuotient(0, p);
      assert p / 2 < p;
    }
  }

  lemma ProductQuotient(n: nat, d: nat)
    requires d > 0
    ensures (n * d) / d == n && (n * d) % d == 0
  {
    GroupNumber(n * d, d, n);
  }

  lemma SingleRound(w: nat, p: nat)
    requires p >= 2
    ensures SlotsUpTo(w, p, 0) == [] && AllFillable(w, p, []) && RoutesInto(w, p, []) == []
    ensures Descriptors(w, 0) == [] && MatchId(w, 0, 0) == 0
  {
  }

  lemma DescriptorStep(w: nat, t: nat)
    requires t <= w
    ensures Descriptors(w, t + 1) == Descriptors(w, t) + RoundMatches(Single, t, w + 1, RoundSize(w, t))
    ensures |Descriptors(w, t)| == MatchId(w, t, 0)
  {
    DescriptorCount(w, t);
  }

  /** The rounds and the routes between them; answers the last round, or the round that could not be paired. */
  method BuildRounds(builder: BracketPlanBuilder, ghost w: nat, effectiveCount: nat, playerPerMatch: nat, roundCount: nat)
    returns (firstRound: seq<nat>, lastRound: seq<nat>, failed: Option<nat>)
    requires playerPerMatch >= 2 && effectiveCount == Pow2(w) * playerPerMatch && roundCount == w + 1
    requires builder.matches == [] && builder.routes == []
    modifies builder`matches, builder`routes
    ensures failed.None? <==> AllBalanced(w, playerPerMatch)
    ensures failed.Some? ==> FirstShort(w, playerPerMatch, failed.value)
    ensures failed.None? ==>
      && builder.matches == Descriptors(w, w + 1)
      && AllFillable(w, playerPerMatch, SlotsUpTo(w, playerPerMatch, w))
      && builder.routes == RoutesInto(w, playerPerMatch, SlotsUpTo(w, playerPerMatch, w))
      && firstRound == Ids(0, Pow2(w)) && lastRound == Ids(MatchId(w, w, 0), 1)
  {
    hide Descriptors, RoutesInto, SlotsUpTo, SlotsOfRound, MatchId, RoundOffset, Ids, Buckets, Bucket;
    var count := effectiveCount;
    var matchCount := count / playerPerMatch;
    var indexes: Option<seq<seq<PlayerInfo>>> := None;
    var currentMatches: Option<seq<nat>> := None;
    firstRound, lastRound, failed := [], [], None;
    var roundIndex := 0;
    SingleRound(w, playerPerMatch);
    Halving(w, playerPerMatch, 0);
    RoundsAreAll(w, playerPerMatch);
    while matchCount >= 1
      invariant roundIndex <= w + 1
      invariant if roundIndex <= w then matchCount == RoundSize(w, roundIndex) && count == matchCount * playerPerMatch else matchCount == 0
      invariant roundIndex == 0 ==> currentMatches.None? && builder.routes == []
      invariant roundIndex > 0 ==>
                  && currentMatches == Some(Ids(MatchId(w, roundIndex - 1, 0), RoundSize(w, roundIndex - 1)))
                  && firstRound == Ids(0, Pow2(w))
                  && (roundIndex <= w ==> indexes == Some(Buckets(RoundSize(w, roundIndex - 1), playerPerMatch)))
                  && RoundsBalanced(w, playerPerMatch, roundIndex - 1)
                  && AllFillable(w, playerPerMatch, SlotsUpTo(w, playerPerMatch, roundIndex - 1))
                  && builder.routes == RoutesInto(w, playerPerMatch, SlotsUpTo(w, playerPerMatch, roundIndex - 1))
      invariant builder.matches == Descriptors(w, roundIndex)
      decreases w + 1 - roundIndex
    {
      DescriptorStep(w, roundIndex);
      Halving(w, playerPerMatch, roundIndex);
      var nextMatches := builder.AddRound(Single, roundIndex, roundCount, matchCount);
      if roundIndex == 0 {
        firstRound := nextMatches;
      }
      if currentMatches.Some? && indexes.Some? {
        var wired := WireRound(builder, w, playerPerMatch, roundIndex, indexes.value, currentMatches.value, nextMatches);
        if !wired {
          return [], [], Some(roundIndex - 1);
        }
        RoutesUpToStep(w, playerPerMatch, roundIndex);
      }
      if matchCount > 1 {
        var table := GetIndexes(count, playerPerMatch);
        indexes := Some(table);
      }
      currentMatches := Some(nextMatches);
      count := count / 2;
      matchCount := count / playerPerMatch;
      roundIndex := roundIndex + 1;
      if roundIndex <= w {
        Halving(w, playerPerMatch, roundIndex);
      }
    }
    lastRound := currentMatches.value;
  }

  /** Two finals, fed by the top and by the bottom half of the last match. */
  method AddFinals(builder: BracketPlanBuilder, ghost w: nat, lastMatch: nat, roundIndex: nat, playerPerMatch: nat)
    requires playerPerMatch > 2 && lastMatch == MatchId(w, w, 0) && |builder.matches| == FinalId(w, 0)
    modifies builder`matches, builder`routes
    ensures builder.matches == old(builder.matches) + RoundMatches(Final, roundIndex, roundIndex + 1, 2)
    ensures builder.routes == old(builder.routes) + FinalRoutes(w, playerPerMatch)
  {
    hide RoundOffset;
    var finals := builder.AddRound(Final, roundIndex, roundIndex + 1, 2);
    var passingPlayers := playerPerMatch / 2;
    ghost var expected := FinalRoutes(w, playerPerMatch);
    for placement := 0 to passingPlayers
      invariant builder.matches == old(builder.matches) + RoundMatches(Final, roundIndex, roundIndex + 1, 2)
      invariant builder.routes == old(builder.routes) + expected[..placement]
    {
      builder.AddRoute(lastMatch, placement, finals[0], placement);
    }
    for placement := passingPlayers to playerPerMatch
      invariant builder.matches == old(builder.matches) + RoundMatches(Final, roundIndex, roundIndex + 1, 2)
      invariant builder.routes == old(builder.routes) + expected[..placement]
    {
      builder.AddRoute(lastMatch, placement, finals[1], placement - passingPlayers);
    }
  }

  /** The rounds, and the two finals if p > 2. */
  method BuildStructure(builder: BracketPlanBuilder, ghost w: nat, effectiveCount: nat, playerPerMatch: nat)
    returns (firstRound: seq<nat>, failed: Option<nat>)
    requires playerPerMatch >= 2 && effectiveCount == Pow2(w) * playerPerMatch
    requires builder.matches == [] && builder.routes == []
    modifies builder`matches, builder`routes
    ensures failed.None? <==> AllBalanced(w, playerPerMatch)
    ensures failed.Some? ==> FirstShort(w, playerPerMatch, failed.value)
    ensures failed.None? ==>
      && firstRound == Ids(0, Pow2(w)) && builder.matches == PlanMatches(w, playerPerMatch)
      && AllFillable(w, playerPerMatch, SlotsUpTo(w, playerPerMatch, w)) && builder.routes == PlanRoutes(w, playerPerMatch)
  {
    hide Descriptors, RoutesInto, SlotsUpTo, AllBalanced, AllFillable, RoundOffset, Pow2;
    ProductQuotient(Pow2(w), playerPerMatch);
    Log2OfPow2(w);
    DescriptorCount(w, w + 1);
    var roundCount := Log2(effectiveCount / playerPerMatch) + 1;
    var lastRound;
    firstRound, lastRound, failed := BuildRounds(builder, w, effectiveCount, playerPerMatch, roundCount);
    if failed.None? && playerPerMatch > 2 {
      AddFinals(builder, w, lastRound[0], roundCount, playerPerMatch);
    }
  }

  /** The smallest number of first-round matches, a power of two, that holds all entrants. */
  ghost predicate FirstRoundSize(entrantCount: int, playerPerMatch: nat, count: nat) {
    && IsPow2(count) && count * playerPerMatch >= entrantCount
    && forall k: nat :: Pow2(k) * playerPerMatch >= entrantCount ==> Pow2(k) >= count
  }

  method FirstRoundMatchCount(entrantCount: int, playerPerMatch: nat) returns (count: nat, ghost w: nat)
    requires playerPerMatch >= 2
    ensures count == Pow2(w) && FirstRoundSize(entrantCount, playerPerMatch, count)
  {
    count := NextPow2(CeilDiv(entrantCount, playerPerMatch));
    w :| count == Pow2(w);
    EnoughMatches(entrantCount, playerPerMatch, count);
    forall k: nat | Pow2(k) * playerPerMatch >= entrantCount
      ensures Pow2(k) >= count
    {
      EnoughMatches(entrantCount, playerPerMatch, Pow2(k));
    }
  }

  /** What a plan with a first round of 2^w matches consists of. */
  ghost predicate IsPlan(plan: Plan, entrantCount: int, p: nat, w: nat) {
    && p >= 2
    && plan.bracketType == SingleElimination && plan.playerPerMatch == p && plan.entrantCount == entrantCount
    && FirstRoundSize(entrantCount, p, Pow2(w)) && plan.byes == Pow2(w) * p - entrantCount
    && plan.seats == FirstWave(Ids(0, Pow2(w)), SeatedCount(Pow2(w) * p, entrantCount), p)
    && plan.matches == PlanMatches(w, p)
    && AllBalanced(w, p) && AllFillable(w, p, SlotsUpTo(w, p, w))
    && plan.routes == PlanRoutes(w, p)
  }

  /**
   * The whole plan. It is refused below two players a match, and it fails exactly
   * when the pairing tables of that match size and number of matches fall short.
   */
  method Generate(entrantCount: int, playerPerMatch: int) returns (r: Result<Plan, PlanError>, ghost w: nat)
    ensures playerPerMatch < 2 ==> r == Err(UnsupportedMatchSize(playerPerMatch))
    ensures playerPerMatch >= 2 ==> FirstRoundSize(entrantCount, playerPerMatch, Pow2(w))
    ensures playerPerMatch >= 2 ==> (r.Ok? <==> Pairable(Pow2(w), playerPerMatch))
    ensures playerPerMatch >= 2 && r.Err? ==> r.error.MissingPairing? && FirstShort(w, playerPerMatch, r.error.round)
    ensures r.Ok? ==> IsPlan(r.value, entrantCount, playerPerMatch, w)
  {
    hide PlanMatches, PlanRoutes, FirstWave, Bucket, SlotsUpTo, FirstRoundSize, FirstShort, Pairable, AllBalanced, AllFillable;
    hide Pow2, SeatedCount;
    if playerPerMatch < 2 {
      return Err(UnsupportedMatchSize(playerPerMatch)), 0;
    }
    var builder := new BracketPlanBuilder();
    var firstRoundMatchCount;
    firstRoundMatchCount, w := FirstRoundMatchCount(entrantCount, playerPerMatch);
    var effectiveCount := playerPerMatch * firstRoundMatchCount;
    var byes := effectiveCount - entrantCount;
    AllBalancedIffPairable(w, playerPerMatch);

    var firstRound, failed := BuildStructure(builder, w, effectiveCount, playerPerMatch);
    if failed.Some? {
      return Err(MissingPairing(failed.value)), w;
    }
    builder.SeatFirstWave(firstRound, entrantCount, playerPerMatch);
    r := Ok(Plan(SingleElimination, playerPerMatch, entrantCount, byes, builder.matches, builder.routes, builder.seats));
  }
}
