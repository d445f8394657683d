/**
 * What the placement resolver makes of its input, said of the competitions and
 * rules themselves: who places people, what a rule leads from and to, where a run
 * is taken to end, and in which order the rows come.
 */
module PlacingNodes {
  import opened Wrappers
  import opened Sequences
  import opened AdvancementGraphs
  import opened DivisionPlacements
  import opened DivisionOrders

  // ----- pools

  /** The i-th competition is the last one that names a pool for the match. */
  ghost predicate NamesPool(cs: seq<Competition>, id: int, i: nat) {
    && i < |cs| && cs[i].kind == MatchKind && cs[i].id == id && cs[i].phaseGroupId.Some?
    && forall j :: i < j < |cs| ==> !(cs[j].kind == MatchKind && cs[j].id == id && cs[j].phaseGroupId.Some?)
  }

  ghost predicate InPool(cs: seq<Competition>, id: int, pool: int) {
    exists i: nat :: NamesPool(cs, id, i) && cs[i].phaseGroupId == Some(pool)
  }

  lemma NamesPoolSnoc(cs: seq<Competition>, c: Competition, id: int, i: nat)
    ensures NamesPool(cs + [c], id, i) <==>
              if c.kind == MatchKind && c.id == id && c.phaseGroupId.Some? then i == |cs| else NamesPool(cs, id, i)
  {
    var all := cs + [c];
    assert all[|cs|] == c && forall j :: 0 <= j < |cs| ==> all[j] == cs[j];
  }

  lemma {:induction false} PoolMapNames(cs: seq<Competition>, id: int, pool: int)
    ensures id in PoolMap(cs) && PoolMap(cs)[id] == pool <==> InPool(cs, id, pool)
  {
    if cs != [] {
      var before, c := cs[..|cs| - 1], cs[|cs| - 1];
      assert cs == before + [c];
      PoolMapNames(before, id, pool);
      NamedBefore(before, c, id, pool);
      hide InPool;
    }
  }

  lemma NamedBefore(cs: seq<Competition>, c: Competition, id: int, pool: int)
    ensures InPool(cs + [c], id, pool) <==>
              if c.kind == MatchKind && c.id == id && c.phaseGroupId.Some? then c.phaseGroupId == Some(pool) else InPool(cs, id, pool)
  {
    var all := cs + [c];
    forall i: nat {
      NamesPoolSnoc(cs, c, id, i);
    }
    if c.kind == MatchKind && c.id == id && c.phaseGroupId.Some? {
      assert NamesPool(all, id, |cs|);
    } else if InPool(cs, id, pool) {
      var i: nat :| NamesPool(cs, id, i) && cs[i].phaseGroupId == Some(pool);
      assert NamesPool(all, id, i) && all[i] == cs[i];
    }
  }

  /** Some rule joins two matches of the pool. */
  ghost predicate Joined(cs: seq<Competition>, edges: seq<Edge>, pool: int) {
    exists e :: e in edges && JoinedBy(cs, e, pool)
  }

  ghost predicate JoinedBy(cs: seq<Competition>, e: Edge, pool: int) {
    && e.source.kind == MatchKind && e.target.kind == MatchKind
    && InPool(cs, e.source.id, pool) && InPool(cs, e.target.id, pool)
  }

  lemma BracketPoolsJoined(cs: seq<Competition>, edges: seq<Edge>, pool: int)
    ensures pool in BracketPools(cs, edges) <==> Joined(cs, edges, pool)
  {
    forall e
      ensures Internal(PoolMap(cs), e, pool) <==> JoinedBy(cs, e, pool)
    {
      PoolMapNames(cs, e.source.id, pool);
      PoolMapNames(cs, e.target.id, pool);
    }
    hide InPool, PoolMap;
  }

  // ----- who places people

  /**
   * A match of its own places people. A match of a pool does exactly when some
   * rule joins two matches of that pool, and a pool does exactly when none joins
   * two of its own.
   */
  lemma WhoPlaces(cs: seq<Competition>, edges: seq<Edge>, c: Competition)
    requires c in cs
    ensures c.kind == MatchKind && c.phaseGroupId.None? ==> c in Nodes(cs, edges)
    ensures c.kind == MatchKind && c.phaseGroupId.Some? ==> (c in Nodes(cs, edges) <==> Joined(cs, edges, c.phaseGroupId.value))
    ensures c.kind == PoolKind ==> (c in Nodes(cs, edges) <==> !Joined(cs, edges, c.id))
  {
    NodesContents(cs, edges);
    BracketPoolsJoined(cs, edges, if c.kind == MatchKind && c.phaseGroupId.Some? then c.phaseGroupId.value else c.id);
    hide Nodes, BracketPools, Joined;
  }

  lemma NodesAmong(cs: seq<Competition>, edges: seq<Edge>)
    ensures forall c :: c in Nodes(cs, edges) ==> c in cs
    ensures NoRepeat(cs) ==> NoRepeat(Nodes(cs, edges))
  {
    NodesContents(cs, edges);
    if NoRepeat(cs) {
      FilterNoRepeat(cs, c => Places(BracketPools(cs, edges), c));
    }
  }

  /** The competition of that kind and number places people. */
  ghost predicate IsNode(cs: seq<Competition>, edges: seq<Edge>, k: Key) {
    exists c :: c in Nodes(cs, edges) && KeyOf(c) == k
  }

  // ----- what a rule leads from and to

  ghost predicate ListedIn(cs: seq<Competition>, id: int, pool: int) {
    exists c :: c in cs && c.kind == MatchKind && c.id == id && c.phaseGroupId == Some(pool)
  }

  /**
   * An end of a rule that places nobody itself stands for something else: a match
   * for its pool, a pool for every match listed in it.
   */
  ghost predicate StandsFor(cs: seq<Competition>, edges: seq<Edge>, k: Key, n: Key) {
    if IsNode(cs, edges, k) then n == k
    else if k.kind == MatchKind then n.kind == PoolKind && InPool(cs, k.id, n.id)
    else n.kind == MatchKind && ListedIn(cs, n.id, k.id)
  }

  lemma ResolvedEnds(cs: seq<Competition>, edges: seq<Edge>, k: Key, n: Key)
    ensures n in ResolveEnd(cs, edges, k) <==> StandsFor(cs, edges, k, n)
  {
    ResolveContents(cs, edges, k, n);
    MatchesOfContents(cs, k.id);
    PoolMapNames(cs, k.id, n.id);
    assert k in NodeKeys(cs, edges) <==> IsNode(cs, edges, k);
    assert MatchInPool(cs, n.id, k.id) <==> ListedIn(cs, n.id, k.id);
    hide ResolveEnd, NodeKeys, IsNode, InPool, PoolMap, MatchesOf, ListedIn, MatchInPool;
  }

  ghost predicate RuleJoins(cs: seq<Competition>, edges: seq<Edge>, e: Edge, from: Key, to: Key) {
    from != to && StandsFor(cs, edges, e.source, from) && StandsFor(cs, edges, e.target, to)
  }

  /** A step leads from one node to another exactly when the ends of some rule stand for the two. */
  lemma StepsAre(cs: seq<Competition>, edges: seq<Edge>, g: Graph<Key>, from: Key, to: Key)
    requires IsGraph(cs, edges, g)
    ensures Steps(g, from, to) <==> IsNode(cs, edges, from) && exists e :: e in edges && RuleJoins(cs, edges, e, from, to)
  {
    assert Steps(g, from, to) <==> LeadsTo(cs, edges, from, to);
    assert from in NodeKeys(cs, edges) <==> IsNode(cs, edges, from);
    forall e
      ensures RuleLeads(cs, edges, e, from, to) <==> RuleJoins(cs, edges, e, from, to)
    {
      ResolvedEnds(cs, edges, e.source, from);
      ResolvedEnds(cs, edges, e.target, to);
    }
    hide IsGraph, Steps, RuleLeads, RuleJoins, NodeKeys, IsNode;
  }

  lemma DeeperThanNext(g: Graph<Key>, from: Key, to: Key, d: nat, d': nat)
    requires Steps(g, from, to) && LoopFree(g, from) && RightDepth(g, from, d) && RightDepth(g, to, d')
    ensures d > d'
  {
    LoopFreeNext(g, from, to);
    var p :| WalkFrom(g, to, p) && |p| == d' + 1;
    PrependWalk(g, from, p);
  }

  /**
   * A rule into a pool that places nobody itself puts its source further from the
   * end than every match of that pool.
   */
  lemma WholeBracketAhead(cs: seq<Competition>, edges: seq<Edge>, g: Graph<Key>, e: Edge, id: int, d: nat, d': nat)
    requires IsGraph(cs, edges, g) && e in edges && IsNode(cs, edges, e.source) && LoopFree(g, e.source)
    requires e.target.kind == PoolKind && !IsNode(cs, edges, e.target) && ListedIn(cs, id, e.target.id) && e.source != Key(MatchKind, id)
    requires RightDepth(g, e.source, d) && RightDepth(g, Key(MatchKind, id), d')
    ensures d > d'
  {
    StepsAre(cs, edges, g, e.source, Key(MatchKind, id));
    assert RuleJoins(cs, edges, e, e.source, Key(MatchKind, id));
    hide IsGraph, IsNode, RuleJoins, LoopFree, RightDepth, Steps;
    DeeperThanNext(g, e.source, Key(MatchKind, id), d, d');
  }

  // ----- where a run is taken to end

  /** The i-th placement is the last one given to the entrant. */
  ghost predicate LastGiven(ps: seq<Placement>, id: int, i: nat) {
    i < |ps| && ps[i].entrantId == id && forall j :: i < j < |ps| ==> ps[j].entrantId != id
  }

  ghost predicate GivenPlace(ps: seq<Placement>, id: int, q: int) {
    exists i: nat :: LastGiven(ps, id, i) && ps[i].placement == q
  }

  /** The place an entrant has in a competition: the last one given, or one past its field if none was. */
  ghost predicate HasPlace(c: Competition, id: int, q: int) {
    GivenPlace(c.placements, id, q) || (q == |c.entrantIds| + 1 && forall p :: p in c.placements ==> p.entrantId != id)
  }

  lemma LastGivenSnoc(ps: seq<Placement>, p: Placement, id: int, q: int)
    ensures GivenPlace(ps + [p], id, q) <==> if p.entrantId == id then p.placement == q else GivenPlace(ps, id, q)
  {
    var all := ps + [p];
    assert all[|ps|] == p && forall j :: 0 <= j < |ps| ==> all[j] == ps[j];
    if p.entrantId == id {
      assert LastGiven(all, id, |ps|);
    } else if GivenPlace(ps, id, q) {
      var i: nat :| LastGiven(ps, id, i) && ps[i].placement == q;
      assert LastGiven(all, id, i);
    } else {
      assert forall i: nat :: i < |ps| ==> (LastGiven(all, id, i) <==> LastGiven(ps, id, i));
    }
  }

  lemma {:induction false} PlacementMapGives(ps: seq<Placement>, id: int, q: int)
    ensures id in PlacementMap(ps) && PlacementMap(ps)[id] == q <==> GivenPlace(ps, id, q)
    ensures id in PlacementMap(ps) <==> exists p :: p in ps && p.entrantId == id
  {
    if ps != [] {
      var before, p := ps[..|ps| - 1], ps[|ps| - 1];
      assert ps == before + [p];
      PlacementMapGives(before, id, q);
      LastGivenSnoc(before, p, id, q);
      hide GivenPlace;
    }
  }

  /** A stop of an entrant: a node that held them, how far it is from the end, and the place they have in it. */
  ghost predicate IsStop(nodes: seq<Competition>, depths: map<Key, nat>, id: int, s: Stop) {
    && s.node in nodes && id in s.node.entrantIds && HasPlace(s.node, id, s.placement)
    && s.depth == if KeyOf(s.node) in depths then depths[KeyOf(s.node)] else 0
  }

  lemma StopsAre(nodes: seq<Competition>, depths: map<Key, nat>, id: int, s: Stop)
    ensures s in StopsOf(nodes, depths, id) <==> IsStop(nodes, depths, id, s)
  {
    StopsContents(nodes, depths, id);
    PlacementMapGives(s.node.placements, id, s.placement);
    hide StopsOf, GivenPlace, PlacementMap;
  }

  /** Whose run ended there: no stop is closer to the end, or as close and better placed, or alike with a smaller number. */
  ghost predicate IsLeastStop(nodes: seq<Competition>, depths: map<Key, nat>, id: int, s: Stop) {
    && IsStop(nodes, depths, id, s)
    && forall x :: IsStop(nodes, depths, id, x) ==>
         s.depth < x.depth || (s.depth == x.depth && (s.placement < x.placement || (s.placement == x.placement && s.node.id <= x.node.id)))
  }

  lemma ClosestIs(nodes: seq<Competition>, depths: map<Key, nat>, id: int)
    requires StopsOf(nodes, depths, id) != []
    ensures IsLeastStop(nodes, depths, id, Closest(StopsOf(nodes, depths, id)))
  {
    var stops := StopsOf(nodes, depths, id);
    ClosestIsLeast(stops);
    StopsAre(nodes, depths, id, Closest(stops));
    forall x | IsStop(nodes, depths, id, x)
      ensures x in stops && !IsCloserToTheEnd(x, Closest(stops))
    {
      StopsAre(nodes, depths, id, x);
    }
    hide StopsOf, IsStop, Closest;
  }

  /** The entrant of a row, and the stop it is ranked by. */
  ghost predicate RankedBy(entrants: seq<Entrant>, nodes: seq<Competition>, depths: map<Key, nat>, row: Row, e: Entrant, s: Stop) {
    && e in entrants && e.entrantId == row.entrantId && IsLeastStop(nodes, depths, e.entrantId, s)
    && s.node.kind == row.exitKind && s.node.id == row.exitId
  }

  lemma RowIsRanked(entrants: seq<Entrant>, nodes: seq<Competition>, depths: map<Key, nat>, rows: seq<Row>, i: nat) returns (x: Exit)
    requires AreRows(entrants, nodes, depths, rows) && i < |rows|
    ensures RankedBy(entrants, nodes, depths, rows[i], x.entrant, x.stop)
    ensures var exits := ExitsOf(entrants, nodes, depths); i < |Sort(exits)| && x == Sort(exits)[i] && x in exits
  {
    var exits := ExitsOf(entrants, nodes, depths);
    SortSorts(exits);
    x := Sort(exits)[i];
    assert x in multiset(Sort(exits)) && x in exits;
    ExitsContents(entrants, nodes, depths);
    ClosestIs(nodes, depths, x.entrant.entrantId);
    hide IsLeastStop, Closest, StopsOf, Sort, ExitsOf, Sorted;
  }

  /** Closer to the end, then better placed, then by name, then by number. */
  ghost predicate NotAfter(e: Entrant, s: Stop, e': Entrant, s': Stop) {
    || s.depth < s'.depth
    || (s.depth == s'.depth &&
        (|| s.placement < s'.placement
         || (s.placement == s'.placement && (e.name < e'.name || (e.name == e'.name && e.entrantId <= e'.entrantId)))))
  }

  /** The rows come in the order of the stops they are ranked by, and within a band by name and number. */
  lemma RowsInOrder(entrants: seq<Entrant>, nodes: seq<Competition>, depths: map<Key, nat>, rows: seq<Row>, i: nat, j: nat)
    returns (x: Exit, y: Exit)
    requires AreRows(entrants, nodes, depths, rows) && i < j < |rows|
    ensures RankedBy(entrants, nodes, depths, rows[i], x.entrant, x.stop) && RankedBy(entrants, nodes, depths, rows[j], y.entrant, y.stop)
    ensures NotAfter(x.entrant, x.stop, y.entrant, y.stop)
  {
    x := RowIsRanked(entrants, nodes, depths, rows, i);
    y := RowIsRanked(entrants, nodes, depths, rows, j);
    SortSorts(ExitsOf(entrants, nodes, depths));
    hide RankedBy, ExitsOf, Sort, AreRows;
  }

  /** Nobody's run ends in a match of a pool that no rule joins two matches of, nor in a pool that some rule does. */
  lemma ExitsPlace(cs: seq<Competition>, edges: seq<Edge>, entrants: seq<Entrant>, depths: map<Key, nat>, rows: seq<Row>, i: nat)
    returns (c: Competition)
    requires AreRows(entrants, Nodes(cs, edges), depths, rows) && i < |rows|
    ensures c in cs && c.kind == rows[i].exitKind && c.id == rows[i].exitId
    ensures if c.kind == PoolKind then !Joined(cs, edges, c.id) else c.phaseGroupId.Some? ==> Joined(cs, edges, c.phaseGroupId.value)
  {
    var x := RowIsRanked(entrants, Nodes(cs, edges), depths, rows, i);
    c := x.stop.node;
    NodesAmong(cs, edges);
    WhoPlaces(cs, edges, c);
    hide AreRows, Nodes, Joined;
  }

  // ----- a pool that is no bracket

  /** The division is one pool and matches of it, and no rule joins two of those. */
  ghost predicate IsPoolDivision(cs: seq<Competition>, edges: seq<Edge>, pool: Competition) {
    && NoRepeat(cs) && pool in cs && pool.kind == PoolKind && !Joined(cs, edges, pool.id)
    && forall c :: c in cs ==> c == pool || (c.kind == MatchKind && c.phaseGroupId == Some(pool.id))
  }

  lemma OnlyNode(cs: seq<Competition>, edges: seq<Edge>, pool: Competition)
    requires IsPoolDivision(cs, edges, pool)
    ensures Nodes(cs, edges) == [pool]
  {
    var nodes := Nodes(cs, edges);
    NodesAmong(cs, edges);
    hide Nodes, Joined;
    WhoPlaces(cs, edges, pool);
    forall c | c in nodes
      ensures c == pool
    {
      WhoPlaces(cs, edges, c);
    }
    OneElement(nodes, pool);
  }

  lemma NothingLeavesPool(cs: seq<Competition>, edges: seq<Edge>, pool: Competition, g: Graph<Key>)
    requires IsPoolDivision(cs, edges, pool) && IsGraph(cs, edges, g)
    ensures Next(g, KeyOf(pool)) == []
  {
    OnlyNode(cs, edges, pool);
    var k := KeyOf(pool);
    forall to
      ensures !Steps(g, k, to)
    {
      StepsAre(cs, edges, g, k, to);
      if e :| e in edges && RuleJoins(cs, edges, e, k, to) {
        PoolStandsAlone(cs, edges, pool, e.target, to);
      }
    }
    hide IsPoolDivision, IsGraph;
    assert |Next(g, k)| > 0 ==> Steps(g, k, Next(g, k)[0]);
  }

  lemma PoolStandsAlone(cs: seq<Competition>, edges: seq<Edge>, pool: Competition, k: Key, n: Key)
    requires IsPoolDivision(cs, edges, pool) && Nodes(cs, edges) == [pool] && StandsFor(cs, edges, k, n)
    ensures n == KeyOf(pool)
  {
    assert pool in Nodes(cs, edges) && IsNode(cs, edges, KeyOf(pool));
    if InPool(cs, k.id, n.id) {
      NamedPool(cs, k.id, n.id);
    }
    hide InPool, Nodes;
  }

  lemma NamedPool(cs: seq<Competition>, id: int, pool: int)
    requires InPool(cs, id, pool)
    ensures ListedIn(cs, id, pool)
  {
    var i: nat :| NamesPool(cs, id, i) && cs[i].phaseGroupId == Some(pool);
    assert cs[i] in cs;
  }

  /** The entrant is held by the pool, in a place before that one. */
  function HeldBefore(pool: Competition, place: int -> int, q: int): Entrant -> bool {
    (e: Entrant) => e.entrantId in pool.entrantIds && place(e.entrantId) < q
  }

  lemma BandInPool(pool: Competition, depths: map<Key, nat>, place: int -> int, id: int)
    requires KeyOf(pool) in depths && depths[KeyOf(pool)] == 0
    requires forall e :: e in pool.entrantIds ==> HasPlace(pool, e, place(e))
    ensures BandReached([pool], depths)(id) == if id in pool.entrantIds then Some(Band(0, place(id))) else None
  {
    var stops := StopsOf([pool], depths, id);
    StopsAre([pool], depths, id, Stop(pool, 0, place(id)));
    if stops != [] {
      ClosestIs([pool], depths, id);
      OnePlace(pool, id, place(id), Closest(stops).placement);
    }
    hide StopsOf, HasPlace;
  }

  lemma OnePlace(c: Competition, id: int, q: int, q': int)
    requires id in c.entrantIds ==> HasPlace(c, id, q) && HasPlace(c, id, q')
    ensures id in c.entrantIds ==> q == q'
  {
    if id in c.entrantIds {
      PlacementMapGives(c.placements, id, q);
      PlacementMapGives(c.placements, id, q');
    }
  }

  /**
   * Such a division is ranked by the pool alone, whatever its matches say: a row
   * is at the pool, one past the entrants the pool places before, through those
   * it does not place after; and the pool is the one ending.
   */
  lemma PoolRanks(cs: seq<Competition>, edges: seq<Edge>, pool: Competition, entrants: seq<Entrant>, place: int -> int,
                  g: Graph<Key>, depths: map<Key, nat>, rows: seq<Row>, i: nat)
    requires IsPoolDivision(cs, edges, pool) && IsResult(cs, edges, entrants, g, depths, rows) && i < |rows|
    requires forall e :: e in pool.entrantIds ==> HasPlace(pool, e, place(e))
    ensures rows[i].exitKind == PoolKind && rows[i].exitId == pool.id && rows[i].entrantId in pool.entrantIds
    ensures rows[i].placement == 1 + Count(entrants, HeldBefore(pool, place, place(rows[i].entrantId)))
    ensures rows[i].sharedThrough == Count(entrants, HeldBefore(pool, place, place(rows[i].entrantId) + 1))
    ensures Count(Nodes(cs, edges), EndsThere(g)) == 1
  {
    hide IsPoolDivision, IsResult, Nodes, HasPlace, BandReached, Count, EndsThere, AreRows, HeldBefore;
    ResultOfPool(cs, edges, pool, entrants, g, depths, rows);
    RowRanksEntrants(entrants, [pool], depths, rows, i);
    RowAtPool(pool, entrants, depths, rows, i);
    CountsInPool(pool, entrants, place, depths, rows[i].entrantId);
    OneEnds(pool, g);
  }

  lemma ResultOfPool(cs: seq<Competition>, edges: seq<Edge>, pool: Competition, entrants: seq<Entrant>,
                     g: Graph<Key>, depths: map<Key, nat>, rows: seq<Row>)
    requires IsPoolDivision(cs, edges, pool) && IsResult(cs, edges, entrants, g, depths, rows)
    ensures pool.kind == PoolKind && Nodes(cs, edges) == [pool] && Next(g, KeyOf(pool)) == []
    ensures AreRows(entrants, [pool], depths, rows) && KeyOf(pool) in depths && depths[KeyOf(pool)] == 0
  {
    OnlyNode(cs, edges, pool);
    NothingLeavesPool(cs, edges, pool, g);
    assert pool in Nodes(cs, edges) && KeyOf(pool) in NodeKeys(cs, edges);
    assert RightDepth(g, KeyOf(pool), depths[KeyOf(pool)]);
  }

  lemma RowAtPool(pool: Competition, entrants: seq<Entrant>, depths: map<Key, nat>, rows: seq<Row>, i: nat)
    requires AreRows(entrants, [pool], depths, rows) && i < |rows|
    ensures rows[i].exitKind == pool.kind && rows[i].exitId == pool.id && rows[i].entrantId in pool.entrantIds
  {
    hide AreRows;
    var x := RowIsRanked(entrants, [pool], depths, rows, i);
  }

  lemma OneEnds(pool: Competition, g: Graph<Key>)
    requires Next(g, KeyOf(pool)) == []
    ensures Count([pool], EndsThere(g)) == 1
  {
    CountAll([pool], EndsThere(g));
  }

  lemma CountsInPool(pool: Competition, entrants: seq<Entrant>, place: int -> int, depths: map<Key, nat>, id: int)
    requires KeyOf(pool) in depths && depths[KeyOf(pool)] == 0
    requires forall e :: e in pool.entrantIds ==> HasPlace(pool, e, place(e))
    ensures var reached, b := BandReached([pool], depths), Band(0, place(id));
            && reached(id) == (if id in pool.entrantIds then Some(b) else None)
            && Count(entrants, EntrantAhead(reached, b)) == Count(entrants, HeldBefore(pool, place, place(id)))
            && Count(entrants, EntrantNotBehind(reached, b)) == Count(entrants, HeldBefore(pool, place, place(id) + 1))
  {
    var reached, b := BandReached([pool], depths), Band(0, place(id));
    forall e
      ensures reached(e) == if e in pool.entrantIds then Some(Band(0, place(e))) else None
    {
      BandInPool(pool, depths, place, e);
    }
    hide BandReached, HasPlace;
    CountAgrees(entrants, EntrantAhead(reached, b), HeldBefore(pool, place, place(id)));
    CountAgrees(entrants, EntrantNotBehind(reached, b), HeldBefore(pool, place, place(id) + 1));
  }
}
