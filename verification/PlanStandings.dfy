/**
 * What the placement resolver answers for a division that is one bracket, played
 * to its end: everybody's run ended where their way through the bracket did, and
 * their placement counts the finishing places that are better.
 */
module PlanStandings {
  import opened Wrappers
  import opened Sequences
  import opened AdvancementGraphs
  import opened DivisionPlacements
  import opened DivisionOrders
  import opened PlayedNetworks
  import opened PlanDivisions

  /** A stored bracket, how it was played, the division that says so, and what the resolver made of it. */
  datatype Finish = Finish(
    b: Stored,
    entrants: seq<Entrant>,
    game: Game,
    cs: seq<Competition>,
    edges: seq<Edge>,
    g: Graph<Key>,
    depths: map<Key, nat>,
    rows: seq<Row>)

  ghost predicate HoldsOf(net: Network, game: Game, m: nat, e: int) {
    exists s: nat :: 1 <= s <= net.size(m) && game.held(m, s) == e
  }

  ghost predicate Scored(net: Network, game: Game, m: nat, placements: map<int, int>) {
    forall s: nat :: 1 <= s <= net.size(m) ==> game.held(m, s) in placements && placements[game.held(m, s)] == game.place(m, s)
  }

  /** The stored match holds whoever sat in it and the places they took. */
  ghost predicate IsStoredMatch(b: Stored, game: Game, c: Competition, m: nat) {
    && m < b.net.count && KeyOf(c) == KeyAt(b, m) && c.phaseGroupId == Some(b.pool)
    && (forall e :: e in c.entrantIds <==> HoldsOf(b.net, game, m, e))
    && Scored(b.net, game, m, PlacementMap(c.placements))
  }

  ghost predicate IsStored(b: Stored, game: Game, c: Competition) {
    exists m: nat :: IsStoredMatch(b, game, c, m)
  }

  /** The bracket and its pool, and no other competition. */
  ghost predicate IsPlayedDivision(b: Stored, game: Game, cs: seq<Competition>, edges: seq<Edge>) {
    && Contains(b, cs, edges) && NoRepeat(cs)
    && forall c :: c in cs ==> IsStored(b, game, c) || KeyOf(c) == PoolKey(b)
  }

  /** The bracket was played out, and these are the rows the resolver gives for it. */
  ghost predicate Answered(f: Finish) {
    && PlayedOut(f.b.net, f.entrants, f.game)
    && IsPlayedDivision(f.b, f.game, f.cs, f.edges)
    && IsResult(f.cs, f.edges, f.entrants, f.g, f.depths, f.rows)
  }

  // ----- the stops of the resolver are the spots of the game

  /** The nodes are the matches: the pool only contains them. */
  lemma NodesAreMatches(b: Stored, game: Game, cs: seq<Competition>, edges: seq<Edge>)
    requires IsPlayedDivision(b, game, cs, edges)
    ensures forall c :: c in Nodes(cs, edges) <==> c in cs && IsStored(b, game, c)
  {
    PoolIsBracket(b, cs, edges);
    NodesContents(cs, edges);
    hide Contains, BracketPools;
    forall c
      ensures c in Nodes(cs, edges) <==> c in cs && IsStored(b, game, c)
    {
      if IsStored(b, game, c) {
        var m: nat :| IsStoredMatch(b, game, c, m);
      }
    }
  }

  lemma StoredAt(b: Stored, game: Game, cs: seq<Competition>, edges: seq<Edge>, m: nat) returns (c: Competition)
    requires IsPlayedDivision(b, game, cs, edges) && m < b.net.count
    ensures c in Nodes(cs, edges) && IsStoredMatch(b, game, c, m)
  {
    NodesAreMatches(b, game, cs, edges);
    assert Listed(b, cs, m);
    c :| c in cs && KeyOf(c) == KeyAt(b, m) && c.phaseGroupId == Some(b.pool);
    var m': nat :| IsStoredMatch(b, game, c, m');
    SameMatch(b, cs, edges, m, m');
  }

  lemma DepthAt(f: Finish, c: Competition, m: nat)
    requires Answered(f) && c in Nodes(f.cs, f.edges) && IsStoredMatch(f.b, f.game, c, m)
    ensures DepthOf(f.depths, c) == f.b.net.distance(m)
  {
    assert KeyOf(c) in NodeKeys(f.cs, f.edges);
    hide PlayedOut, Nodes, NodeKeys;
    MatchDepth(f.b, f.cs, f.edges, f.g, m);
    assert RightDepth(f.g, KeyAt(f.b, m), f.depths[KeyOf(c)]);
  }

  ghost predicate StopsAt(f: Finish, s: Stop, x: Spot) {
    && s.depth == f.b.net.distance(x.m) && s.placement == PlaceOf(f.game, x) && KeyOf(s.node) == KeyAt(f.b, x.m)
  }

  lemma StopInMatch(f: Finish, c: Competition, x: Spot)
    requires Answered(f) && c in Nodes(f.cs, f.edges) && IsSpot(f.b.net, x) && IsStoredMatch(f.b, f.game, c, x.m)
    ensures StopsAt(f, StopIn(c, DepthOf(f.depths, c), HeldAt(f.game, x)), x) && HeldAt(f.game, x) in c.entrantIds
  {
    DepthAt(f, c, x.m);
    hide Answered, DepthOf;
    assert HoldsOf(f.b.net, f.game, x.m, HeldAt(f.game, x));
  }

  /** Wherever somebody sat, the resolver finds a stop of theirs. */
  lemma StopOfSpot(f: Finish, x: Spot) returns (s: Stop)
    requires Answered(f) && IsSpot(f.b.net, x)
    ensures s in StopsOf(Nodes(f.cs, f.edges), f.depths, HeldAt(f.game, x)) && StopsAt(f, s, x)
  {
    var c := StoredAt(f.b, f.game, f.cs, f.edges, x.m);
    StopInMatch(f, c, x);
    StopsContents(Nodes(f.cs, f.edges), f.depths, HeldAt(f.game, x));
    hide Answered, StopIn, Nodes;
    s := StopIn(c, DepthOf(f.depths, c), HeldAt(f.game, x));
    assert s.node == c by { StopInNode(c, DepthOf(f.depths, c), HeldAt(f.game, x)); }
  }

  lemma StopInNode(c: Competition, depth: nat, id: int)
    ensures StopIn(c, depth, id).node == c
  {
  }

  /** And wherever it finds one, they sat. */
  lemma SpotOfStop(f: Finish, e: int, s: Stop) returns (x: Spot)
    requires Answered(f) && s in StopsOf(Nodes(f.cs, f.edges), f.depths, e)
    ensures IsSpot(f.b.net, x) && HeldAt(f.game, x) == e && StopsAt(f, s, x)
  {
    StopsContents(Nodes(f.cs, f.edges), f.depths, e);
    NodesAreMatches(f.b, f.game, f.cs, f.edges);
    var c := s.node;
    var m: nat :| IsStoredMatch(f.b, f.game, c, m);
    var n: nat :| 1 <= n <= f.b.net.size(m) && f.game.held(m, n) == e;
    x := Spot(m, n);
    StopInMatch(f, c, x);
  }

  /** The resolver finds everybody's run to end where it did. */
  lemma ExitIsEnd(f: Finish, x: Spot)
    requires Answered(f) && Ends(f.b.net, f.game, x)
    ensures var stops := StopsOf(Nodes(f.cs, f.edges), f.depths, HeldAt(f.game, x));
            stops != [] && StopsAt(f, Closest(stops), x)
  {
    var e := HeldAt(f.game, x);
    var stops := StopsOf(Nodes(f.cs, f.edges), f.depths, e);
    var s := StopOfSpot(f, x);
    ClosestIsLeast(stops);
    var y := SpotOfStop(f, e, Closest(stops));
    EndIsClosest(f.b.net, f.entrants, f.game, x, y);
    hide Answered, Ends, StopsOf, Closest, HeldAt;
    assert !IsCloserToTheEnd(s, Closest(stops));
  }

  ghost function BandAt(f: Finish, x: Spot): Band {
    Band(f.b.net.distance(x.m), PlaceOf(f.game, x))
  }

  ghost function Reached(f: Finish): int -> Option<Band> {
    BandReached(Nodes(f.cs, f.edges), f.depths)
  }

  lemma ReachedEnd(f: Finish, x: Spot)
    requires Answered(f) && Ends(f.b.net, f.game, x)
    ensures Reached(f)(HeldAt(f.game, x)) == Some(BandAt(f, x))
  {
    ExitIsEnd(f, x);
    hide Answered, Ends, StopsOf, Closest, HeldAt, Nodes;
  }

  // ----- counting the ends

  /** The spots whose holders finish match m in its first n places that end a run. */
  function EndsOf(net: Network, game: Game, m: nat, n: nat): (s: seq<Spot>)
    ensures |s| == n
  {
    if n == 0 then [] else EndsOf(net, game, m, n - 1) + [Spot(m, game.slot(m, net.passing(m) + n))]
  }

  function Staying(net: Network, m: nat): nat {
    if net.size(m) >= net.passing(m) then net.size(m) - net.passing(m) else 0
  }

  function EndsUpTo(net: Network, game: Game, k: nat): seq<Spot> {
    if k == 0 then [] else EndsUpTo(net, game, k - 1) + EndsOf(net, game, k - 1, Staying(net, k - 1))
  }

  lemma {:induction false} EndsOfContents(net: Network, game: Game, m: nat, n: nat)
    requires m < net.count && Decided(net, game, m) && net.passing(m) + n <= net.size(m)
    ensures forall x :: x in EndsOf(net, game, m, n) <==>
              IsSpot(net, x) && x.m == m && net.passing(m) < PlaceOf(game, x) <= net.passing(m) + n
    ensures NoRepeat(EndsOf(net, game, m, n))
  {
    if n > 0 {
      EndsOfContents(net, game, m, n - 1);
      NoRepeatAppend(EndsOf(net, game, m, n - 1), [Spot(m, game.slot(m, net.passing(m) + n))]);
    }
  }

  lemma {:induction false} EndsUpToContents(net: Network, entrants: seq<Entrant>, game: Game, k: nat)
    requires WellFormed(net) && PlayedOut(net, entrants, game) && k <= net.count
    ensures forall x :: x in EndsUpTo(net, game, k) <==> Ends(net, game, x) && x.m < k
    ensures NoRepeat(EndsUpTo(net, game, k))
  {
    hide WellFormed, PlayedOut, Decided, EndsOf;
    if k > 0 {
      EndsUpToContents(net, entrants, game, k - 1);
      MatchDecided(net, entrants, game, k - 1);
      EndsOfContents(net, game, k - 1, Staying(net, k - 1));
      EndsInMatch(net, game, k - 1);
      hide Ends, IsSpot, PlaceOf, NoRepeat;
      EndsJoined(net, game, k - 1);
      NoRepeatAppend(EndsUpTo(net, game, k - 1), EndsOf(net, game, k - 1, Staying(net, k - 1)));
    }
  }

  lemma EndsJoined(net: Network, game: Game, m: nat)
    ensures EndsUpTo(net, game, m + 1) == EndsUpTo(net, game, m) + EndsOf(net, game, m, Staying(net, m))
  {
  }

  lemma MatchDecided(net: Network, entrants: seq<Entrant>, game: Game, m: nat)
    requires WellFormed(net) && PlayedOut(net, entrants, game) && m < net.count
    ensures Decided(net, game, m) && net.passing(m) <= net.size(m)
  {
    assert GoodMatch(net, m);
  }

  lemma EndsInMatch(net: Network, game: Game, m: nat)
    requires m < net.count && net.passing(m) <= net.size(m) && Decided(net, game, m)
    ensures forall x :: Ends(net, game, x) && x.m == m <==>
              IsSpot(net, x) && x.m == m && net.passing(m) < PlaceOf(game, x) <= net.passing(m) + Staying(net, m)
  {
  }

  /** How many of the first n places of match m that end a run are ahead of a band. */
  function AheadIn(net: Network, b: Band, m: nat, n: nat): nat {
    if net.distance(m) < b.depth then n
    else if net.distance(m) > b.depth || b.placement - 1 <= net.passing(m) then 0
    else if b.placement - 1 - net.passing(m) <= n then b.placement - 1 - net.passing(m)
    else n
  }

  /** How many finishing places of the first k matches end a run ahead of a band. */
  function SumAhead(net: Network, b: Band, k: nat): nat {
    if k == 0 then 0 else SumAhead(net, b, k - 1) + AheadIn(net, b, k - 1, Staying(net, k - 1))
  }

  /** v, c times over. */
  function Times(c: nat, v: nat): nat {
    if c == 0 then 0 else Times(c - 1, v) + v
  }

  lemma {:induction false} TimesIsProduct(c: nat, v: nat)
    ensures Times(c, v) == c * v
  {
    if c > 0 {
      TimesIsProduct(c - 1, v);
      assert c * v == (c - 1) * v + v;
    }
  }

  lemma {:induction false} TimesNothing(c: nat)
    ensures Times(c, 0) == 0
  {
    if c > 0 {
      TimesNothing(c - 1);
    }
  }

  lemma {:induction false} TimesAdd(c: nat, c': nat, v: nat)
    ensures Times(c + c', v) == Times(c, v) + Times(c', v)
  {
    if c' > 0 {
      TimesAdd(c, c' - 1, v);
    }
  }

  lemma {:induction false} TimesSum(c: nat, v: nat, v': nat)
    ensures Times(c, v + v') == Times(c, v) + Times(c, v')
  {
    if c > 0 {
      TimesSum(c - 1, v, v');
    }
  }

  /** The c matches from a on each have v places that end a run ahead of a band. */
  ghost predicate CountAlike(net: Network, b: Band, a: nat, c: nat, v: nat) {
    forall m: nat :: a <= m < a + c ==> AheadIn(net, b, m, Staying(net, m)) == v
  }

  /** Matches that count alike, one after the other. */
  lemma {:induction false} SumOfRow(net: Network, b: Band, a: nat, c: nat, v: nat)
    requires CountAlike(net, b, a, c, v)
    ensures SumAhead(net, b, a + c) == SumAhead(net, b, a) + Times(c, v)
  {
    if c > 0 {
      SumOfRow(net, b, a, c - 1, v);
      hide AheadIn, Staying;
      assert SumAhead(net, b, a + c) == SumAhead(net, b, a + c - 1) + AheadIn(net, b, a + c - 1, Staying(net, a + c - 1));
    }
  }

  ghost function SpotAhead(net: Network, game: Game, b: Band): Spot -> bool {
    (x: Spot) => BandAhead(Band(net.distance(x.m), PlaceOf(game, x)), b)
  }

  lemma {:induction false} CountEndsOf(net: Network, game: Game, b: Band, m: nat, n: nat)
    requires m < net.count && Decided(net, game, m) && net.passing(m) + n <= net.size(m)
    ensures Count(EndsOf(net, game, m, n), SpotAhead(net, game, b)) == AheadIn(net, b, m, n)
  {
    if n > 0 {
      CountEndsOf(net, game, b, m, n - 1);
      CountSnoc(EndsOf(net, game, m, n - 1), Spot(m, game.slot(m, net.passing(m) + n)), SpotAhead(net, game, b));
      hide Count, EndsOf;
      assert EndsOf(net, game, m, n) == EndsOf(net, game, m, n - 1) + [Spot(m, game.slot(m, net.passing(m) + n))] by {
        EndsOfOneMore(net, game, m, n);
      }
      hide Decided;
    }
  }

  lemma EndsOfOneMore(net: Network, game: Game, m: nat, n: nat)
    requires n > 0
    ensures EndsOf(net, game, m, n) == EndsOf(net, game, m, n - 1) + [Spot(m, game.slot(m, net.passing(m) + n))]
  {
  }

  lemma {:induction false} CountEnds(net: Network, entrants: seq<Entrant>, game: Game, b: Band, k: nat)
    requires WellFormed(net) && PlayedOut(net, entrants, game) && k <= net.count
    ensures Count(EndsUpTo(net, game, k), SpotAhead(net, game, b)) == SumAhead(net, b, k)
  {
    hide WellFormed, PlayedOut, Decided, EndsOf, SpotAhead, AheadIn, Count;
    if k > 0 {
      CountEnds(net, entrants, game, b, k - 1);
      MatchDecided(net, entrants, game, k - 1);
      CountEndsOf(net, game, b, k - 1, Staying(net, k - 1));
      EndsJoined(net, game, k - 1);
      CountAppend(EndsUpTo(net, game, k - 1), EndsOf(net, game, k - 1, Staying(net, k - 1)), SpotAhead(net, game, b));
    } else {
      assert EndsUpTo(net, game, 0) == [];
      NothingCounted(SpotAhead(net, game, b));
    }
  }

  lemma NothingCounted<T>(p: T -> bool)
    ensures Count([], p) == 0
  {
  }

  // ----- an entrant for every end

  function Holders(game: Game, xs: seq<Spot>): seq<int> {
    seq(|xs|, i requires 0 <= i < |xs| => HeldAt(game, xs[i]))
  }

  function Numbers(entrants: seq<Entrant>): seq<int> {
    seq(|entrants|, i requires 0 <= i < |entrants| => entrants[i].entrantId)
  }

  /** Those who end somewhere are the entrants, once each. */
  lemma EndersAreEntrants(net: Network, entrants: seq<Entrant>, game: Game)
    requires WellFormed(net) && PlayedOut(net, entrants, game)
    ensures var enders := Holders(game, EndsUpTo(net, game, net.count));
            && NoRepeat(enders) && NoRepeat(Numbers(entrants))
            && forall e :: e in enders <==> e in Numbers(entrants)
  {
    var ends := EndsUpTo(net, game, net.count);
    var enders := Holders(game, ends);
    EndsUpToContents(net, entrants, game, net.count);
    assert NoRepeat(Numbers(entrants));
    hide WellFormed, PlayedOut, EndsUpTo, Ends;
    forall i, j | 0 <= i < j < |enders|
      ensures enders[i] != enders[j]
    {
      assert ends[i] in ends && ends[j] in ends && ends[i] != ends[j];
      EndsDiffer(net, entrants, game, ends[i], ends[j]);
    }
    forall e
      ensures e in enders <==> e in Numbers(entrants)
    {
      if e in enders {
        var i :| 0 <= i < |enders| && enders[i] == e;
        assert ends[i] in ends;
        EndIsSpot(net, game, ends[i]);
        var n := HolderEntered(net, entrants, game, ends[i]);
        assert Numbers(entrants)[n] == e;
      }
      if e in Numbers(entrants) {
        var n :| 0 <= n < |entrants| && Numbers(entrants)[n] == e;
        var x := EntrantEnds(net, entrants, game, n);
        EndIsSpot(net, game, x);
        assert x in ends;
        var i :| 0 <= i < |ends| && ends[i] == x;
        assert enders[i] == e;
      }
    }
  }

  lemma EndIsSpot(net: Network, game: Game, x: Spot)
    requires Ends(net, game, x)
    ensures IsSpot(net, x) && x.m < net.count
  {
  }

  lemma EndsDiffer(net: Network, entrants: seq<Entrant>, game: Game, x: Spot, y: Spot)
    requires WellFormed(net) && PlayedOut(net, entrants, game) && Ends(net, game, x) && Ends(net, game, y) && x != y
    ensures HeldAt(game, x) != HeldAt(game, y)
  {
    if HeldAt(game, x) == HeldAt(game, y) {
      EndIsSpot(net, game, x);
      EndIsSpot(net, game, y);
      hide WellFormed, PlayedOut, Ends;
      EndIsClosest(net, entrants, game, x, y);
      EndIsClosest(net, entrants, game, y, x);
      assert false;
    }
  }

  lemma {:induction false} CountMapped<A, B>(s: seq<A>, t: seq<B>, p: A -> bool, q: B -> bool)
    requires |s| == |t| && forall i :: 0 <= i < |s| ==> (p(s[i]) <==> q(t[i]))
    ensures Count(s, p) == Count(t, q)
  {
    if s != [] {
      CountMapped(s[..|s| - 1], t[..|s| - 1], p, q);
    }
  }

  lemma CountSameMembers<T>(s: seq<T>, t: seq<T>, p: T -> bool)
    requires NoRepeat(s) && NoRepeat(t) && forall x :: x in s <==> x in t
    ensures Count(s, p) == Count(t, p)
  {
    CountMembersOf(s, p);
    CountMembersOf(t, p);
    assert (set x | x in s && p(x)) == (set x | x in t && p(x));
  }

  ghost function ReachedAhead(f: Finish, b: Band): int -> bool {
    (e: int) => Reached(f)(e).Some? && BandAhead(Reached(f)(e).value, b)
  }

  /** As many entrants got ahead of a band as finishing places end a run ahead of it. */
  lemma AheadOfBand(f: Finish, b: Band)
    requires Answered(f)
    ensures Count(f.entrants, EntrantAhead(Reached(f), b)) == SumAhead(f.b.net, b, f.b.net.count)
  {
    var net, game := f.b.net, f.game;
    var ends := EndsUpTo(net, game, net.count);
    var enders := Holders(game, ends);
    EndersAreEntrants(net, f.entrants, game);
    EndsUpToContents(net, f.entrants, game, net.count);
    CountEnds(net, f.entrants, game, b, net.count);
    hide Answered, Count, EndsUpTo, SumAhead, NoRepeat, Reached, BandAhead, Ends;
    forall i | 0 <= i < |ends|
      ensures SpotAhead(net, game, b)(ends[i]) <==> ReachedAhead(f, b)(enders[i])
    {
      assert ends[i] in ends;
      ReachedEnd(f, ends[i]);
    }
    CountMapped(ends, enders, SpotAhead(net, game, b), ReachedAhead(f, b));
    CountSameMembers(enders, Numbers(f.entrants), ReachedAhead(f, b));
    CountMapped(f.entrants, Numbers(f.entrants), EntrantAhead(Reached(f), b), ReachedAhead(f, b));
  }

  /** Not being behind a band is being ahead of the band one place further. */
  lemma NotBehindBand(f: Finish, b: Band)
    requires Answered(f)
    ensures Count(f.entrants, EntrantNotBehind(Reached(f), b)) == SumAhead(f.b.net, Band(b.depth, b.placement + 1), f.b.net.count)
  {
    var next := Band(b.depth, b.placement + 1);
    AheadOfBand(f, next);
    CountAgrees(f.entrants, EntrantNotBehind(Reached(f), b), EntrantAhead(Reached(f), next));
  }

  // ----- the rows

  /**
   * Every row is of an entrant whose run ended in a finishing place that leads
   * nowhere, and counts the finishing places that end a run further on.
   */
  lemma RowIsEnd(f: Finish, i: nat) returns (x: Spot)
    requires Answered(f) && i < |f.rows|
    ensures Ends(f.b.net, f.game, x) && HeldAt(f.game, x) == f.rows[i].entrantId
    ensures RowCounts(f, f.rows[i], x)
  {
    hide Ends, Nodes, StopsOf, Closest, SumAhead, Count, EntrantAhead, EntrantNotBehind, BandReached;
    var nodes := Nodes(f.cs, f.edges);
    assert AreRows(f.entrants, nodes, f.depths, f.rows);
    hide Answered, AreRows, IsResult, PlayedOut;
    SameExit(f.entrants, nodes, f.depths, f.rows, i);
    RowRanksEntrants(f.entrants, nodes, f.depths, f.rows, i);
    var n := RowOfEntrant(f.entrants, nodes, f.depths, f.rows, i);
    x := EntrantEnds(f.b.net, f.entrants, f.game, n);
    ExitIsEnd(f, x);
    ReachedEnd(f, x);
    AheadOfBand(f, BandAt(f, x));
    NotBehindBand(f, BandAt(f, x));
  }

  ghost predicate RowCounts(f: Finish, row: Row, x: Spot) {
    && Key(row.exitKind, row.exitId) == KeyAt(f.b, x.m)
    && row.placement == 1 + SumAhead(f.b.net, BandAt(f, x), f.b.net.count)
    && row.sharedThrough == SumAhead(f.b.net, Band(BandAt(f, x).depth, BandAt(f, x).placement + 1), f.b.net.count)
  }

  /** Wherever a run ended, the row of its entrant says so. */
  lemma EndHasRow(f: Finish, i: nat, x: Spot)
    requires Answered(f) && i < |f.rows| && Ends(f.b.net, f.game, x) && HeldAt(f.game, x) == f.rows[i].entrantId
    ensures RowCounts(f, f.rows[i], x)
  {
    var y := RowIsEnd(f, i);
    hide RowCounts;
    if x != y {
      EndsDiffer(f.b.net, f.entrants, f.game, x, y);
    }
  }

  /** The spot of whoever finished a match in a place past the passing ones. */
  lemma PlaceEnds(f: Finish, m: nat, q: nat) returns (x: Spot)
    requires Answered(f) && m < f.b.net.count && f.b.net.passing(m) < q <= f.b.net.size(m)
    ensures x.m == m && Ends(f.b.net, f.game, x) && PlaceOf(f.game, x) == q && HeldAt(f.game, x) == Placed(f.game, m, q)
  {
    MatchDecided(f.b.net, f.entrants, f.game, m);
    x := Spot(m, f.game.slot(m, q));
  }

  /** The row of whoever finished a match in a place past the passing ones. */
  lemma RowOfPlace(f: Finish, i: nat, m: nat, q: nat)
    requires Answered(f) && i < |f.rows| && m < f.b.net.count && f.b.net.passing(m) < q <= f.b.net.size(m)
    requires Placed(f.game, m, q) == f.rows[i].entrantId
    ensures Key(f.rows[i].exitKind, f.rows[i].exitId) == KeyAt(f.b, m)
    ensures f.rows[i].placement == 1 + SumAhead(f.b.net, Band(f.b.net.distance(m), q), f.b.net.count)
    ensures f.rows[i].sharedThrough == SumAhead(f.b.net, Band(f.b.net.distance(m), q + 1), f.b.net.count)
  {
    hide Answered, Ends, SumAhead, Placed, HeldAt, PlaceOf, KeyAt, RowCounts;
    var x := PlaceEnds(f, m, q);
    EndHasRow(f, i, x);
    CountedRow(f, f.rows[i], x, m, q);
  }

  lemma CountedRow(f: Finish, row: Row, x: Spot, m: nat, q: nat)
    requires RowCounts(f, row, x) && x.m == m && PlaceOf(f.game, x) == q
    ensures Key(row.exitKind, row.exitId) == KeyAt(f.b, m)
    ensures row.placement == 1 + SumAhead(f.b.net, Band(f.b.net.distance(m), q), f.b.net.count)
    ensures row.sharedThrough == SumAhead(f.b.net, Band(f.b.net.distance(m), q + 1), f.b.net.count)
  {
  }

  /** Every row is of somebody who did. */
  lemma PlaceOfRow(f: Finish, i: nat) returns (m: nat, q: nat)
    requires Answered(f) && i < |f.rows|
    ensures m < f.b.net.count && f.b.net.passing(m) < q <= f.b.net.size(m)
    ensures Placed(f.game, m, q) == f.rows[i].entrantId
  {
    var x := RowIsEnd(f, i);
    m, q := x.m, PlaceOf(f.game, x);
    MatchDecided(f.b.net, f.entrants, f.game, m);
    hide Answered, RowCounts;
  }

  lemma {:induction false} AllHeldAllListed(entrants: seq<Entrant>, nodes: seq<Competition>, depths: map<Key, nat>)
    requires forall i :: 0 <= i < |entrants| ==> StopsOf(nodes, depths, entrants[i].entrantId) != []
    ensures |ExitsOf(entrants, nodes, depths)| == |entrants|
    ensures forall i :: 0 <= i < |entrants| ==> ExitsOf(entrants, nodes, depths)[i].entrant == entrants[i]
  {
    if entrants != [] {
      AllHeldAllListed(entrants[..|entrants| - 1], nodes, depths);
    }
  }

  lemma {:induction false} NoRepeatOnce<T>(s: seq<T>, x: T)
    requires NoRepeat(s)
    ensures multiset(s)[x] <= 1
  {
    if s != [] {
      var before, last := s[..|s| - 1], s[|s| - 1];
      assert s == before + [last];
      NoRepeatOnce(before, x);
      assert last == x ==> x !in before;
    }
  }

  lemma NoRepeatPermuted<T>(s: seq<T>, t: seq<T>)
    requires NoRepeat(s) && multiset(s) == multiset(t)
    ensures NoRepeat(t)
  {
    forall i, j | 0 <= i < j < |t|
      ensures t[i] != t[j]
    {
      NoRepeatOnce(s, t[i]);
      assert t == t[..j] + t[j..];
      assert t[i] in t[..j] && t[j] in t[j..];
    }
  }

  lemma EverybodyHeld(f: Finish, i: nat)
    requires Answered(f) && i < |f.entrants|
    ensures StopsOf(Nodes(f.cs, f.edges), f.depths, f.entrants[i].entrantId) != []
  {
    var x := EntrantEnds(f.b.net, f.entrants, f.game, i);
    ExitIsEnd(f, x);
  }

  /** Different entrants have different exits, in their order. */
  lemma EverybodyExits(f: Finish)
    requires Answered(f)
    ensures var exits := ExitsOf(f.entrants, Nodes(f.cs, f.edges), f.depths);
            && NoRepeat(exits) && |exits| == |f.entrants|
            && forall i :: 0 <= i < |f.entrants| ==> exits[i].entrant == f.entrants[i]
  {
    var nodes := Nodes(f.cs, f.edges);
    assert DifferentEntrants(f.entrants);
    forall i | 0 <= i < |f.entrants|
      ensures StopsOf(nodes, f.depths, f.entrants[i].entrantId) != []
    {
      EverybodyHeld(f, i);
    }
    hide Answered, StopsOf, ExitsOf;
    AllHeldAllListed(f.entrants, nodes, f.depths);
  }

  /** Every entrant has exactly one row, and there are no others. */
  lemma EverybodyHasARow(f: Finish)
    requires Answered(f)
    ensures |f.rows| == |f.entrants|
    ensures forall i :: 0 <= i < |f.entrants| ==> exists j :: 0 <= j < |f.rows| && f.rows[j].entrantId == f.entrants[i].entrantId
    ensures forall j, k :: 0 <= j < k < |f.rows| ==> f.rows[j].entrantId != f.rows[k].entrantId
  {
    var exits := ExitsOf(f.entrants, Nodes(f.cs, f.edges), f.depths);
    var sorted := Sort(exits);
    assert DifferentEntrants(f.entrants);
    assert |f.rows| == |sorted| && forall i :: 0 <= i < |f.rows| ==> f.rows[i].entrantId == sorted[i].entrant.entrantId;
    EverybodyExits(f);
    hide Nodes, ExitsOf, Sort, Sorted, Answered, NoRepeat, DifferentEntrants;
    SortSorts(exits);
    NoRepeatPermuted(exits, sorted);
    OneRowEach(f.entrants, exits, sorted, f.rows);
  }

  lemma OneRowEach(entrants: seq<Entrant>, exits: seq<Exit>, sorted: seq<Exit>, rows: seq<Row>)
    requires DifferentEntrants(entrants) && |exits| == |entrants| == |rows| == |sorted|
    requires forall i :: 0 <= i < |entrants| ==> exits[i].entrant == entrants[i]
    requires multiset(sorted) == multiset(exits) && NoRepeat(sorted)
    requires forall i :: 0 <= i < |rows| ==> rows[i].entrantId == sorted[i].entrant.entrantId
    ensures forall i :: 0 <= i < |entrants| ==> exists j :: 0 <= j < |rows| && rows[j].entrantId == entrants[i].entrantId
    ensures forall j, k :: 0 <= j < k < |rows| ==> rows[j].entrantId != rows[k].entrantId
  {
    forall i | 0 <= i < |entrants|
      ensures exists j :: 0 <= j < |rows| && rows[j].entrantId == entrants[i].entrantId
    {
      assert exits[i] in multiset(sorted);
      var j :| 0 <= j < |sorted| && sorted[j] == exits[i];
      assert rows[j].entrantId == entrants[i].entrantId;
    }
    forall j, k | 0 <= j < k < |rows|
      ensures rows[j].entrantId != rows[k].entrantId
    {
      assert sorted[j] in multiset(exits) && sorted[k] in multiset(exits);
      var a :| 0 <= a < |exits| && exits[a] == sorted[j];
      var b :| 0 <= b < |exits| && exits[b] == sorted[k];
    }
  }

  // ----- the endings

  /** How many of the first k matches have nothing after them. */
  function LastMatches(net: Network, k: nat): nat {
    if k == 0 then 0 else LastMatches(net, k - 1) + if net.distance(k - 1) == 0 then 1 else 0
  }

  function KeysOf(nodes: seq<Competition>): seq<Key> {
    seq(|nodes|, i requires 0 <= i < |nodes| => KeyOf(nodes[i]))
  }

  function MatchKeys(b: Stored, k: nat): seq<Key> {
    if k == 0 then [] else MatchKeys(b, k - 1) + [KeyAt(b, k - 1)]
  }

  ghost predicate KeyedBelow(b: Stored, k: nat, x: Key) {
    exists m: nat :: m < k && x == KeyAt(b, m)
  }

  lemma {:induction false} MatchKeysContents(b: Stored, k: nat)
    requires DifferentIds(b) && k <= b.net.count
    ensures forall x :: x in MatchKeys(b, k) <==> KeyedBelow(b, k, x)
    ensures NoRepeat(MatchKeys(b, k))
  {
    if k > 0 {
      MatchKeysContents(b, k - 1);
      NoRepeatAppend(MatchKeys(b, k - 1), [KeyAt(b, k - 1)]);
    }
  }

  ghost function KeyEnds(g: Graph<Key>): Key -> bool {
    (k: Key) => Next(g, k) == []
  }

  /** Nothing leaves a match exactly when it is at distance 0. */
  lemma EndsAtDistanceZero(f: Finish, m: nat)
    requires Answered(f) && m < f.b.net.count
    ensures KeyEnds(f.g)(KeyAt(f.b, m)) <==> f.b.net.distance(m) == 0
  {
    MatchIsNode(f.b, f.cs, f.edges, m);
    MatchDepth(f.b, f.cs, f.edges, f.g, m);
    assert RightDepth(f.g, KeyAt(f.b, m), f.depths[KeyAt(f.b, m)]);
  }

  lemma {:induction false} CountLast(f: Finish, k: nat)
    requires Answered(f) && k <= f.b.net.count
    ensures Count(MatchKeys(f.b, k), KeyEnds(f.g)) == LastMatches(f.b.net, k)
  {
    hide Answered, Count, KeyEnds;
    if k > 0 {
      CountLast(f, k - 1);
      EndsAtDistanceZero(f, k - 1);
      CountSnoc(MatchKeys(f.b, k - 1), KeyAt(f.b, k - 1), KeyEnds(f.g));
    } else {
      NothingCounted(KeyEnds(f.g));
    }
  }

  lemma NodesOnce(f: Finish)
    requires Answered(f)
    ensures NoRepeat(KeysOf(Nodes(f.cs, f.edges)))
  {
    var nodes := Nodes(f.cs, f.edges);
    NodesContents(f.cs, f.edges);
    assert UniqueKeys(f.cs) && NoRepeat(f.cs);
    FilterNoRepeat(f.cs, c => Places(BracketPools(f.cs, f.edges), c));
    assert NoRepeat(nodes);
    hide Answered, Nodes;
    forall i, j | 0 <= i < j < |nodes|
      ensures KeyOf(nodes[i]) != KeyOf(nodes[j])
    {
      assert nodes[i] in nodes && nodes[j] in nodes;
    }
  }

  lemma NodeKeyed(f: Finish, k: Key)
    requires Answered(f)
    ensures k in KeysOf(Nodes(f.cs, f.edges)) <==> OfBracket(f.b, k)
  {
    var nodes := Nodes(f.cs, f.edges);
    NodesAreMatches(f.b, f.game, f.cs, f.edges);
    if k in KeysOf(nodes) {
      var i :| 0 <= i < |nodes| && KeysOf(nodes)[i] == k;
      assert nodes[i] in nodes;
    }
    if OfBracket(f.b, k) {
      var m: nat :| m < f.b.net.count && k == KeyAt(f.b, m);
      var c := StoredAt(f.b, f.game, f.cs, f.edges, m);
      var i :| 0 <= i < |nodes| && nodes[i] == c;
      assert KeysOf(nodes)[i] == k;
    }
  }

  /** The endings of the division are the matches at distance 0. */
  lemma Endings(f: Finish)
    requires Answered(f)
    ensures Count(Nodes(f.cs, f.edges), EndsThere(f.g)) == LastMatches(f.b.net, f.b.net.count)
  {
    var nodes := Nodes(f.cs, f.edges);
    NodesOnce(f);
    assert DifferentIds(f.b);
    MatchKeysContents(f.b, f.b.net.count);
    hide Answered, Nodes, Count, MatchKeys;
    forall k
      ensures k in KeysOf(nodes) <==> k in MatchKeys(f.b, f.b.net.count)
    {
      NodeKeyed(f, k);
    }
    CountLast(f, f.b.net.count);
    CountMapped(nodes, KeysOf(nodes), EndsThere(f.g), KeyEnds(f.g));
    CountSameMembers(KeysOf(nodes), MatchKeys(f.b, f.b.net.count), KeyEnds(f.g));
  }
}
