/**
 * A bracket stored as a division: its matches under numbers of their own, in one
 * pool, with a rule for every route. The first half measures such a bracket
 * wherever it is part of a division; the second half reads the final order of a
 * division that consists of it.
 */
module PlanDivisions {
  import opened Wrappers
  import opened BracketPlans
  import opened AdvancementGraphs
  import opened DivisionPlacements
  import opened DivisionOrders
  import opened PlayedNetworks

  /** A bracket, the number each of its matches is stored under, and its pool. */
  datatype Stored = Stored(net: Network, id: nat -> int, pool: int)

  function KeyAt(b: Stored, m: nat): Key {
    Key(MatchKind, b.id(m))
  }

  function PoolKey(b: Stored): Key {
    Key(PoolKind, b.pool)
  }

  function RuleOf(b: Stored, r: Route): Edge {
    Edge(KeyAt(b, r.source), KeyAt(b, r.target))
  }

  ghost predicate IsRule(b: Stored, e: Edge) {
    exists r :: r in b.net.routes && e == RuleOf(b, r)
  }

  ghost predicate OfBracket(b: Stored, k: Key) {
    exists m: nat :: m < b.net.count && k == KeyAt(b, m)
  }

  ghost predicate Listed(b: Stored, cs: seq<Competition>, m: nat) {
    exists c :: c in cs && KeyOf(c) == KeyAt(b, m) && c.phaseGroupId == Some(b.pool)
  }

  ghost predicate DifferentIds(b: Stored) {
    forall m: nat, m': nat :: m < b.net.count && m' < b.net.count && b.id(m) == b.id(m') ==> m == m'
  }

  /**
   * The matches of the bracket are in the division, its routes are rules, and no
   * other rule leaves its matches or its pool. Anything else may be there too.
   */
  ghost predicate Contains(b: Stored, cs: seq<Competition>, edges: seq<Edge>) {
    && WellFormed(b.net) && b.net.routes != [] && DifferentIds(b) && UniqueKeys(cs)
    && (forall m: nat :: m < b.net.count ==> Listed(b, cs, m))
    && (forall r :: r in b.net.routes ==> RuleOf(b, r) in edges)
    && (forall e :: e in edges && (OfBracket(b, e.source) || e.source == PoolKey(b)) ==> IsRule(b, e))
  }

  lemma MatchesPooled(b: Stored, cs: seq<Competition>, edges: seq<Edge>, m: nat)
    requires Contains(b, cs, edges) && m < b.net.count
    ensures b.id(m) in PoolMap(cs) && PoolMap(cs)[b.id(m)] == b.pool
    ensures forall pool :: MatchInPool(cs, b.id(m), pool) ==> pool == b.pool
  {
    PoolMapContents(cs);
    assert Listed(b, cs, m);
    assert MatchInPool(cs, b.id(m), b.pool);
  }

  lemma RouteOfBracket(b: Stored, r: Route)
    requires WellFormed(b.net) && r in b.net.routes
    ensures r.source < r.target < b.net.count && b.net.distance(r.target) < b.net.distance(r.source)
  {
    assert GoodRoute(b.net, r);
  }

  lemma PoolIsBracket(b: Stored, cs: seq<Competition>, edges: seq<Edge>)
    requires Contains(b, cs, edges)
    ensures b.pool in BracketPools(cs, edges)
  {
    var r := b.net.routes[0];
    RouteOfBracket(b, r);
    MatchesPooled(b, cs, edges, r.source);
    MatchesPooled(b, cs, edges, r.target);
    assert RuleOf(b, r) in edges && Internal(PoolMap(cs), RuleOf(b, r), b.pool);
  }

  /** Every match of the bracket places people itself. */
  lemma MatchIsNode(b: Stored, cs: seq<Competition>, edges: seq<Edge>, m: nat)
    requires Contains(b, cs, edges) && m < b.net.count
    ensures KeyAt(b, m) in NodeKeys(cs, edges)
  {
    assert Listed(b, cs, m);
    var c :| c in cs && KeyOf(c) == KeyAt(b, m) && c.phaseGroupId == Some(b.pool);
    PoolIsBracket(b, cs, edges);
    NodesContents(cs, edges);
  }

  ghost predicate RouteTo(b: Stored, m: nat, to: Key) {
    exists r :: r in b.net.routes && r.source == m && to == KeyAt(b, r.target)
  }

  /** Out of a match of the bracket lead its routes and nothing else. */
  lemma StepsAreRoutes(b: Stored, cs: seq<Competition>, edges: seq<Edge>, m: nat, to: Key)
    requires Contains(b, cs, edges) && m < b.net.count
    ensures LeadsTo(cs, edges, KeyAt(b, m), to) <==> RouteTo(b, m, to)
  {
    var from := KeyAt(b, m);
    MatchIsNode(b, cs, edges, m);
    if LeadsTo(cs, edges, from, to) {
      var e :| e in edges && RuleLeads(cs, edges, e, from, to);
      SourceOfBracket(b, cs, edges, m, e);
      var r :| r in b.net.routes && e == RuleOf(b, r);
      RouteOfBracket(b, r);
      MatchIsNode(b, cs, edges, r.source);
      MatchIsNode(b, cs, edges, r.target);
      ResolveContents(cs, edges, e.source, from);
      ResolveContents(cs, edges, e.target, to);
      hide Contains, WellFormed, ResolveEnd, NodeKeys, PoolMap;
      assert b.id(r.source) == b.id(m);
      assert r.source == m by { SameMatch(b, cs, edges, r.source, m); }
    }
    if RouteTo(b, m, to) {
      var r :| r in b.net.routes && r.source == m && to == KeyAt(b, r.target);
      RouteOfBracket(b, r);
      MatchIsNode(b, cs, edges, r.target);
      var e := RuleOf(b, r);
      ResolveContents(cs, edges, e.source, from);
      ResolveContents(cs, edges, e.target, to);
      assert e in edges && from != to;
      assert RuleLeads(cs, edges, e, from, to);
    }
  }

  lemma SameMatch(b: Stored, cs: seq<Competition>, edges: seq<Edge>, m: nat, m': nat)
    requires Contains(b, cs, edges) && m < b.net.count && m' < b.net.count && b.id(m) == b.id(m')
    ensures m == m'
  {
  }

  /** A rule whose source stands for a match of the bracket is a rule of the bracket. */
  lemma SourceOfBracket(b: Stored, cs: seq<Competition>, edges: seq<Edge>, m: nat, e: Edge)
    requires Contains(b, cs, edges) && m < b.net.count && e in edges && KeyAt(b, m) in ResolveEnd(cs, edges, e.source)
    ensures IsRule(b, e)
  {
    ResolveContents(cs, edges, e.source, KeyAt(b, m));
    if e.source in NodeKeys(cs, edges) {
      assert OfBracket(b, e.source);
    } else {
      MatchesOfContents(cs, e.source.id);
      MatchesPooled(b, cs, edges, m);
      assert e.source == PoolKey(b);
    }
  }

  // ----- how far each match is from the end

  ghost function BracketKeys(b: Stored): set<Key> {
    set m | 0 <= m < b.net.count :: KeyAt(b, m)
  }

  ghost function DistanceOfKey(b: Stored, k: Key): nat {
    if m: nat :| m < b.net.count && k == KeyAt(b, m) then b.net.distance(m) else 0
  }

  /** The distance of a match of the bracket, by the key it is stored under. */
  ghost function DistanceOf(b: Stored): Key -> nat {
    (k: Key) => DistanceOfKey(b, k)
  }

  lemma KeyDistance(b: Stored, m: nat)
    requires DifferentIds(b) && m < b.net.count
    ensures DistanceOf(b)(KeyAt(b, m)) == b.net.distance(m)
  {
  }

  lemma StepsAreDrops(b: Stored, cs: seq<Competition>, edges: seq<Edge>, g: Graph<Key>, m: nat, u: Key)
    requires Contains(b, cs, edges) && IsGraph(cs, edges, g) && m < b.net.count && u in Next(g, KeyAt(b, m))
    ensures u in BracketKeys(b) && DistanceOf(b)(u) < DistanceOf(b)(KeyAt(b, m))
  {
    assert Steps(g, KeyAt(b, m), u);
    StepsAreRoutes(b, cs, edges, m, u);
    var r :| r in b.net.routes && r.source == m && u == KeyAt(b, r.target);
    RouteOfBracket(b, r);
    KeyDistance(b, m);
    KeyDistance(b, r.target);
  }

  lemma SomeDropIsOne(b: Stored, cs: seq<Competition>, edges: seq<Edge>, g: Graph<Key>, m: nat)
    requires Contains(b, cs, edges) && IsGraph(cs, edges, g) && m < b.net.count && b.net.distance(m) != 0
    ensures StepsDown(g, DistanceOf(b), KeyAt(b, m))
  {
    assert OneStep(b.net, m);
    var r :| r in b.net.routes && r.source == m && b.net.distance(m) == b.net.distance(r.target) + 1;
    RouteOfBracket(b, r);
    KeyDistance(b, m);
    KeyDistance(b, r.target);
    assert RouteTo(b, m, KeyAt(b, r.target));
    StepsAreRoutes(b, cs, edges, m, KeyAt(b, r.target));
    hide Contains, RouteTo, DistanceOf;
    assert Steps(g, KeyAt(b, m), KeyAt(b, r.target));
  }

  lemma RankAt(b: Stored, cs: seq<Competition>, edges: seq<Edge>, g: Graph<Key>, v: Key)
    requires Contains(b, cs, edges) && IsGraph(cs, edges, g) && v in BracketKeys(b)
    ensures forall u :: u in Next(g, v) ==> u in BracketKeys(b) && DistanceOf(b)(u) < DistanceOf(b)(v)
    ensures DistanceOf(b)(v) == 0 || StepsDown(g, DistanceOf(b), v)
  {
    var m: nat :| m < b.net.count && v == KeyAt(b, m);
    KeyDistance(b, m);
    hide Contains, IsGraph, DistanceOf, StepsDown, DifferentIds, BracketKeys, KeyAt;
    forall u | u in Next(g, v)
      ensures u in BracketKeys(b) && DistanceOf(b)(u) < DistanceOf(b)(v)
    {
      StepsAreDrops(b, cs, edges, g, m, u);
    }
    if DistanceOf(b)(v) != 0 {
      SomeDropIsOne(b, cs, edges, g, m);
    }
  }

  lemma DistanceIsRank(b: Stored, cs: seq<Competition>, edges: seq<Edge>, g: Graph<Key>)
    requires Contains(b, cs, edges) && IsGraph(cs, edges, g)
    ensures IsRank(g, BracketKeys(b), DistanceOf(b))
  {
    hide Contains, IsGraph, DistanceOf, StepsDown, BracketKeys;
    forall v | v in BracketKeys(b)
      ensures forall u :: u in Next(g, v) ==> u in BracketKeys(b) && DistanceOf(b)(u) < DistanceOf(b)(v)
      ensures DistanceOf(b)(v) == 0 || StepsDown(g, DistanceOf(b), v)
    {
      RankAt(b, cs, edges, g, v);
    }
  }

  /** Whatever else the division holds, a match is as far from the end as its routes make it. */
  lemma MatchDepth(b: Stored, cs: seq<Competition>, edges: seq<Edge>, g: Graph<Key>, m: nat)
    requires Contains(b, cs, edges) && IsGraph(cs, edges, g) && m < b.net.count
    ensures LoopFree(g, KeyAt(b, m)) && Longest(g, KeyAt(b, m), b.net.distance(m))
    ensures forall d :: RightDepth(g, KeyAt(b, m), d) ==> d == b.net.distance(m)
  {
    var k := KeyAt(b, m);
    DistanceIsRank(b, cs, edges, g);
    RankIsDepth(g, BracketKeys(b), DistanceOf(b), k);
    KeyDistance(b, m);
    hide Contains, IsGraph, IsRank;
    forall d | RightDepth(g, k, d)
      ensures d == b.net.distance(m)
    {
      LongestUnique(g, k, d, b.net.distance(m));
    }
  }
}
