/**
 * The order in which competitions, rules and entrants happen to be read does not
 * change anybody's placement, as long as no loop can be reached from a node.
 */
module DivisionOrders {
  import opened Wrappers
  import opened Sequences
  import opened AdvancementGraphs
  import opened DivisionPlacements

  ghost predicate SameElements<T(!new)>(s: seq<T>, t: seq<T>) {
    forall x :: x in s <==> x in t
  }

  /** A kind and an id name one competition. */
  ghost predicate UniqueKeys(cs: seq<Competition>) {
    forall c, d :: c in cs && d in cs && KeyOf(c) == KeyOf(d) ==> c == d
  }

  ghost predicate MatchInPool(cs: seq<Competition>, id: int, pool: int) {
    exists c :: c in cs && c.kind == MatchKind && c.id == id && c.phaseGroupId == Some(pool)
  }

  lemma {:induction false} PoolMapContents(cs: seq<Competition>)
    requires UniqueKeys(cs)
    ensures forall id, pool :: (id in PoolMap(cs) && PoolMap(cs)[id] == pool) <==> MatchInPool(cs, id, pool)
  {
    if cs != [] {
      var before, c := cs[..|cs| - 1], cs[|cs| - 1];
      assert cs == before + [c];
      PoolMapContents(before);
      forall id, pool
        ensures (id in PoolMap(cs) && PoolMap(cs)[id] == pool) <==> MatchInPool(cs, id, pool)
      {
        if MatchInPool(cs, id, pool) {
          var d :| d in cs && d.kind == MatchKind && d.id == id && d.phaseGroupId == Some(pool);
          if d != c {
            assert MatchInPool(before, id, pool);
            assert KeyOf(d) != KeyOf(c);
          }
        }
        if id in PoolMap(cs) && PoolMap(cs)[id] == pool && !(c.kind == MatchKind && c.phaseGroupId == Some(pool) && c.id == id) {
          assert MatchInPool(before, id, pool);
        }
      }
    }
  }

  lemma {:induction false} MatchesOfContents(cs: seq<Competition>, pool: int)
    ensures forall id :: id in MatchesOf(cs, pool) <==> MatchInPool(cs, id, pool)
  {
    if cs != [] {
      var before, c := cs[..|cs| - 1], cs[|cs| - 1];
      assert cs == before + [c];
      MatchesOfContents(before, pool);
      forall id
        ensures id in MatchesOf(cs, pool) <==> MatchInPool(cs, id, pool)
      {
        assert MatchInPool(cs, id, pool) <==>
          MatchInPool(before, id, pool) || (c.kind == MatchKind && c.id == id && c.phaseGroupId == Some(pool));
      }
    }
  }

  /** Two readings of the same division. */
  ghost predicate SameDivision(cs: seq<Competition>, edges: seq<Edge>, cs': seq<Competition>, edges': seq<Edge>) {
    UniqueKeys(cs) && SameElements(cs, cs') && SameElements(edges, edges')
  }

  lemma SamePools(cs: seq<Competition>, cs': seq<Competition>)
    requires UniqueKeys(cs) && SameElements(cs, cs')
    ensures PoolMap(cs) == PoolMap(cs')
    ensures forall pool, id :: id in MatchesOf(cs, pool) <==> id in MatchesOf(cs', pool)
  {
    assert UniqueKeys(cs');
    PoolMapContents(cs);
    PoolMapContents(cs');
    forall id, pool
      ensures MatchInPool(cs, id, pool) <==> MatchInPool(cs', id, pool)
    {
    }
    var m, m' := PoolMap(cs), PoolMap(cs');
    forall id
      ensures id in m <==> id in m'
      ensures id in m ==> m[id] == m'[id]
    {
      if id in m {
        assert MatchInPool(cs, id, m[id]) && MatchInPool(cs', id, m[id]);
      }
      if id in m' {
        assert MatchInPool(cs', id, m'[id]) && MatchInPool(cs, id, m'[id]);
      }
    }
    forall pool, id
      ensures id in MatchesOf(cs, pool) <==> id in MatchesOf(cs', pool)
    {
      MatchesOfContents(cs, pool);
      MatchesOfContents(cs', pool);
    }
  }

  lemma SameNodes(cs: seq<Competition>, edges: seq<Edge>, cs': seq<Competition>, edges': seq<Edge>)
    requires SameDivision(cs, edges, cs', edges')
    ensures BracketPools(cs, edges) == BracketPools(cs', edges')
    ensures SameElements(Nodes(cs, edges), Nodes(cs', edges')) && NodeKeys(cs, edges) == NodeKeys(cs', edges')
  {
    SamePools(cs, cs');
    forall pool
      ensures pool in BracketPools(cs, edges) <==> pool in BracketPools(cs', edges')
    {
      assert IsBracketPool(cs, edges, pool) <==> IsBracketPool(cs', edges', pool);
    }
    FilterContents(cs, (c: Competition) => Places(BracketPools(cs, edges), c));
    FilterContents(cs', (c: Competition) => Places(BracketPools(cs', edges'), c));
    NodesContents(cs, edges);
    NodesContents(cs', edges');
  }

  lemma NodesContents(cs: seq<Competition>, edges: seq<Edge>)
    ensures forall c :: c in Nodes(cs, edges) <==> c in cs && Places(BracketPools(cs, edges), c)
  {
    FilterContents(cs, c => Places(BracketPools(cs, edges), c));
  }

  lemma SameRules(cs: seq<Competition>, edges: seq<Edge>, cs': seq<Competition>, edges': seq<Edge>)
    requires SameDivision(cs, edges, cs', edges')
    ensures forall from, to :: LeadsTo(cs, edges, from, to) <==> LeadsTo(cs', edges', from, to)
  {
    SamePools(cs, cs');
    SameNodes(cs, edges, cs', edges');
    forall k, x
      ensures x in ResolveEnd(cs, edges, k) <==> x in ResolveEnd(cs', edges', k)
    {
      ResolveContents(cs, edges, k, x);
      ResolveContents(cs', edges', k, x);
    }
    hide ResolveEnd, NodeKeys;
    forall from, to
      ensures LeadsTo(cs, edges, from, to) <==> LeadsTo(cs', edges', from, to)
    {
      assert forall e :: RuleLeads(cs, edges, e, from, to) <==> RuleLeads(cs', edges', e, from, to);
    }
  }

  lemma ResolveContents(cs: seq<Competition>, edges: seq<Edge>, k: Key, x: Key)
    ensures x in ResolveEnd(cs, edges, k) <==>
              if k in NodeKeys(cs, edges) then x == k
              else if k.kind == MatchKind then k.id in PoolMap(cs) && x == Key(PoolKind, PoolMap(cs)[k.id])
              else x.kind == MatchKind && x.id in MatchesOf(cs, k.id)
  {
    if k !in NodeKeys(cs, edges) && k.kind == PoolKind {
      var ids := MatchesOf(cs, k.id);
      if x.kind == MatchKind && x.id in ids {
        var i :| 0 <= i < |ids| && ids[i] == x.id;
        assert ResolveEnd(cs, edges, k)[i] == x;
      }
    }
  }

  lemma SameWalks(g: Graph<Key>, g': Graph<Key>, v: Key)
    requires forall k, x :: Steps(g, k, x) <==> Steps(g', k, x)
    ensures LoopFree(g, v) <==> LoopFree(g', v)
    ensures forall d :: Longest(g, v, d) <==> Longest(g', v, d)
  {
    forall p: seq<Key>
      ensures WalkFrom(g, v, p) <==> WalkFrom(g', v, p)
    {
      assert forall i :: 0 <= i < |p| - 1 ==> (Steps(g, p[i], p[i + 1]) <==> Steps(g', p[i], p[i + 1]));
    }
  }

  /** The depths two readings measure agree wherever no loop can be reached. */
  lemma SameDepths(cs: seq<Competition>, edges: seq<Edge>, cs': seq<Competition>, edges': seq<Edge>,
                   g: Graph<Key>, g': Graph<Key>, depths: map<Key, nat>, depths': map<Key, nat>, k: Key)
    requires SameDivision(cs, edges, cs', edges') && IsGraph(cs, edges, g) && IsGraph(cs', edges', g')
    requires k in depths && k in depths' && RightDepth(g, k, depths[k]) && RightDepth(g', k, depths'[k])
    requires LoopFree(g, k)
    ensures depths[k] == depths'[k]
  {
    SameRules(cs, edges, cs', edges');
    SameWalks(g, g', k);
    LongestUnique(g, k, depths[k], depths'[k]);
  }

  /** A stop none of the others is closer than. */
  ghost predicate Least(stops: seq<Stop>, s: Stop) {
    s in stops && forall x :: x in stops ==> !IsCloserToTheEnd(x, s)
  }

  /** A match and a pool of one number, equally close to the end and equally placed there. */
  ghost predicate KindsTie(stops: seq<Stop>) {
    exists s, s' :: Least(stops, s) && Least(stops, s') && s.node.kind != s'.node.kind
  }

  /** All that distinguishes the least stops is their kind. */
  lemma SameClosest(stops: seq<Stop>, stops': seq<Stop>)
    requires SameElements(stops, stops') && stops != [] && stops' != []
    ensures Closest(stops).depth == Closest(stops').depth && Closest(stops).placement == Closest(stops').placement
    ensures Closest(stops).node.id == Closest(stops').node.id
    ensures !KindsTie(stops) ==> Closest(stops).node.kind == Closest(stops').node.kind
  {
    ClosestIsLeast(stops);
    ClosestIsLeast(stops');
    assert Closest(stops) in stops' && Closest(stops') in stops;
    assert Least(stops, Closest(stops)) && Least(stops, Closest(stops'));
  }

  // ----- two readings of one division

  /** A division as it was read, and what the resolver made of it. */
  datatype Reading = Reading(
    cs: seq<Competition>,
    edges: seq<Edge>,
    entrants: seq<Entrant>,
    g: Graph<Key>,
    depths: map<Key, nat>,
    rows: seq<Row>)

  ghost predicate IsReading(x: Reading) {
    UniqueKeys(x.cs) && IsResult(x.cs, x.edges, x.entrants, x.g, x.depths, x.rows)
  }

  /** The same competitions, rules and entrants, in another order. */
  ghost predicate Rereads(x: Reading, y: Reading) {
    SameDivision(x.cs, x.edges, y.cs, y.edges) && multiset(x.entrants) == multiset(y.entrants)
  }

  ghost predicate NoLoops(x: Reading) {
    forall k :: k in NodeKeys(x.cs, x.edges) ==> LoopFree(x.g, k)
  }

  ghost function StopsFor(x: Reading, id: int): seq<Stop> {
    StopsOf(Nodes(x.cs, x.edges), x.depths, id)
  }

  lemma SameStopsFor(x: Reading, y: Reading, id: int)
    requires IsReading(x) && IsReading(y) && Rereads(x, y) && NoLoops(x)
    ensures SameElements(StopsFor(x, id), StopsFor(y, id))
  {
    SameStops(x.cs, x.edges, y.cs, y.edges, x.g, y.g, x.depths, y.depths, id);
  }

  lemma SameReached(x: Reading, y: Reading, id: int)
    requires IsReading(x) && IsReading(y) && Rereads(x, y) && NoLoops(x)
    ensures BandReached(Nodes(x.cs, x.edges), x.depths)(id) == BandReached(Nodes(y.cs, y.edges), y.depths)(id)
  {
    SameStopsFor(x, y, id);
    SameBand(Nodes(x.cs, x.edges), Nodes(y.cs, y.edges), x.depths, y.depths, id);
  }

  /**
   * Nobody's row depends on the order in which competitions, rules and entrants
   * are read, if no node can reach a loop, but for the kind of its exit; and that
   * does not either, unless a match and a pool of one number tie for it.
   */
  lemma PlacementsIgnoreOrder(x: Reading, y: Reading, i: nat, j: nat)
    requires IsReading(x) && IsReading(y) && Rereads(x, y) && NoLoops(x)
    requires i < |x.rows| && j < |y.rows| && x.rows[i].entrantId == y.rows[j].entrantId
    ensures x.rows[i] == y.rows[j].(exitKind := x.rows[i].exitKind)
    ensures !KindsTie(StopsFor(x, x.rows[i].entrantId)) ==> x.rows[i] == y.rows[j]
  {
    var nodes, nodes', id := Nodes(x.cs, x.edges), Nodes(y.cs, y.edges), x.rows[i].entrantId;
    var reached, reached' := BandReached(nodes, x.depths), BandReached(nodes', y.depths);
    assert AreRows(x.entrants, nodes, x.depths, x.rows) && AreRows(y.entrants, nodes', y.depths, y.rows);
    RowRanksEntrants(x.entrants, nodes, x.depths, x.rows, i);
    RowRanksEntrants(y.entrants, nodes', y.depths, y.rows, j);
    SameExit(x.entrants, nodes, x.depths, x.rows, i);
    SameExit(y.entrants, nodes', y.depths, y.rows, j);
    SameStopsFor(x, y, id);
    SameClosest(StopsFor(x, id), StopsFor(y, id));
    forall e
      ensures reached(e) == reached'(e)
    {
      SameReached(x, y, e);
    }
    hide AreRows, IsReading, NoLoops, Nodes, BandReached, KindsTie, SameElements, StopsOf;
    SameCounts(x.entrants, y.entrants, reached, reached', reached(id).value);
  }

  lemma SameExit(entrants: seq<Entrant>, nodes: seq<Competition>, depths: map<Key, nat>, rows: seq<Row>, i: nat)
    requires AreRows(entrants, nodes, depths, rows) && i < |rows|
    ensures StopsOf(nodes, depths, rows[i].entrantId) != []
    ensures Key(rows[i].exitKind, rows[i].exitId) == KeyOf(Closest(StopsOf(nodes, depths, rows[i].entrantId)).node)
  {
    var exits := ExitsOf(entrants, nodes, depths);
    SortSorts(exits);
    var x := Sort(exits)[i];
    assert x in multiset(Sort(exits)) && x in exits;
    ExitsContents(entrants, nodes, depths);
  }

  lemma RowOfEntrant(entrants: seq<Entrant>, nodes: seq<Competition>, depths: map<Key, nat>, rows: seq<Row>, i: nat) returns (n: nat)
    requires AreRows(entrants, nodes, depths, rows) && i < |rows|
    ensures n < |entrants| && entrants[n].entrantId == rows[i].entrantId
  {
    var exits := ExitsOf(entrants, nodes, depths);
    SortSorts(exits);
    var x := Sort(exits)[i];
    assert x in multiset(Sort(exits)) && x in exits;
    ExitsContents(entrants, nodes, depths);
    n :| 0 <= n < |entrants| && entrants[n] == x.entrant;
  }

  lemma SameStops(cs: seq<Competition>, edges: seq<Edge>, cs': seq<Competition>, edges': seq<Edge>,
                  g: Graph<Key>, g': Graph<Key>, depths: map<Key, nat>, depths': map<Key, nat>, id: int)
    requires SameDivision(cs, edges, cs', edges') && IsGraph(cs, edges, g) && IsGraph(cs', edges', g')
    requires forall k :: k in NodeKeys(cs, edges) ==> k in depths && RightDepth(g, k, depths[k]) && LoopFree(g, k)
    requires forall k :: k in NodeKeys(cs', edges') ==> k in depths' && RightDepth(g', k, depths'[k])
    ensures SameElements(StopsOf(Nodes(cs, edges), depths, id), StopsOf(Nodes(cs', edges'), depths', id))
  {
    var nodes, nodes' := Nodes(cs, edges), Nodes(cs', edges');
    SameNodes(cs, edges, cs', edges');
    StopsContents(nodes, depths, id);
    StopsContents(nodes', depths', id);
    forall c | c in nodes
      ensures DepthOf(depths, c) == DepthOf(depths', c)
    {
      assert KeyOf(c) in NodeKeys(cs, edges);
      SameDepths(cs, edges, cs', edges', g, g', depths, depths', KeyOf(c));
    }
  }

  lemma SameBand(nodes: seq<Competition>, nodes': seq<Competition>, depths: map<Key, nat>, depths': map<Key, nat>, id: int)
    requires SameElements(StopsOf(nodes, depths, id), StopsOf(nodes', depths', id))
    ensures BandReached(nodes, depths)(id) == BandReached(nodes', depths')(id)
  {
    var stops, stops' := StopsOf(nodes, depths, id), StopsOf(nodes', depths', id);
    if stops' != [] {
      assert stops'[0] in stops;
    }
    if stops != [] {
      assert stops[0] in stops';
      SameClosest(stops, stops');
    }
  }

  lemma SameCounts(entrants: seq<Entrant>, entrants': seq<Entrant>, reached: int -> Option<Band>, reached': int -> Option<Band>, b: Band)
    requires multiset(entrants) == multiset(entrants') && forall id :: reached(id) == reached'(id)
    ensures Count(entrants, EntrantAhead(reached, b)) == Count(entrants', EntrantAhead(reached', b))
    ensures Count(entrants, EntrantNotBehind(reached, b)) == Count(entrants', EntrantNotBehind(reached', b))
  {
    CountAgrees(entrants, EntrantAhead(reached, b), EntrantAhead(reached', b));
    CountAgrees(entrants, EntrantNotBehind(reached, b), EntrantNotBehind(reached', b));
    CountPermuted(entrants, entrants', EntrantAhead(reached', b));
    CountPermuted(entrants, entrants', EntrantNotBehind(reached', b));
  }

  // ----- when the kind of an exit does depend on the order

  lemma {:induction false} FirstLeast(s: Stop, rest: seq<Stop>)
    requires forall x :: x in rest ==> !IsCloserToTheEnd(x, s)
    ensures Closest([s] + rest) == s
  {
    if rest != [] {
      var before, last := rest[..|rest| - 1], rest[|rest| - 1];
      FirstLeast(s, before);
      assert ([s] + rest)[..|rest|] == [s] + before;
      assert last in rest;
    } else {
      assert [s] + rest == [s];
    }
  }

  lemma {:induction false} StopsAppend(nodes: seq<Competition>, more: seq<Competition>, depths: map<Key, nat>, id: int)
    ensures StopsOf(nodes + more, depths, id) == StopsOf(nodes, depths, id) + StopsOf(more, depths, id)
  {
    hide StopsIn, DepthOf, StopIn;
    if more == [] {
      assert nodes + more == nodes;
    } else {
      StopsAppend(nodes, more[..|more| - 1], depths, id);
      assert (nodes + more)[..|nodes + more| - 1] == nodes + more[..|more| - 1];
    }
  }

  lemma FirstStop(node: Competition, depth: nat, id: int)
    requires id in node.entrantIds
    ensures var stops := StopsIn(node, depth, id, |node.entrantIds|); stops != [] && stops[0] == StopIn(node, depth, id)
  {
    var stops := StopsIn(node, depth, id, |node.entrantIds|);
    StopsInContents(node, depth, id, |node.entrantIds|);
    assert node.entrantIds[..|node.entrantIds|] == node.entrantIds;
    assert StopIn(node, depth, id) in stops;
    assert stops[0] in stops;
  }

  /** A competition read before all others. */
  function MovedToFront(cs: seq<Competition>, k: nat): seq<Competition>
    requires k < |cs|
  {
    [cs[k]] + (cs[..k] + cs[k + 1..])
  }

  lemma MovedIsSame(cs: seq<Competition>, k: nat)
    requires k < |cs|
    ensures multiset(MovedToFront(cs, k)) == multiset(cs) && SameElements(cs, MovedToFront(cs, k))
  {
    assert cs == cs[..k] + [cs[k]] + cs[k + 1..];
    forall c
      ensures c in cs <==> c in MovedToFront(cs, k)
    {
      assert c in multiset(cs) <==> c in multiset(MovedToFront(cs, k));
    }
  }

  lemma MovedNodes(cs: seq<Competition>, edges: seq<Edge>, k: nat) returns (rest: seq<Competition>)
    requires k < |cs| && UniqueKeys(cs) && cs[k] in Nodes(cs, edges)
    ensures Nodes(MovedToFront(cs, k), edges) == [cs[k]] + rest
  {
    var c, cs' := cs[k], MovedToFront(cs, k);
    MovedIsSame(cs, k);
    SameNodes(cs, edges, cs', edges);
    NodesContents(cs', edges);
    var p := (d: Competition) => Places(BracketPools(cs', edges), d);
    rest := Filter(cs[..k] + cs[k + 1..], p);
    assert p(c);
    hide Places, BracketPools;
    FilterAppend([c], cs[..k] + cs[k + 1..], p);
    assert Filter<Competition>([], p) == [] && [c][..0] == [];
    assert Filter([c], p) == [c];
    assert Nodes(cs', edges) == Filter(cs', p);
  }

  lemma StopsOfOne(c: Competition, depths: map<Key, nat>, id: int)
    ensures StopsOf([c], depths, id) == StopsIn(c, DepthOf(depths, c), id, |c.entrantIds|)
  {
    assert [c][..0] == [];
    assert StopsOf([], depths, id) == [];
  }

  /** The stop in a node read first is the first stop. */
  lemma ReadFirst(cs: seq<Competition>, edges: seq<Edge>, depths: map<Key, nat>, k: nat, id: int)
    requires k < |cs| && UniqueKeys(cs) && cs[k] in Nodes(cs, edges) && id in cs[k].entrantIds
    ensures var stops := StopsOf(Nodes(MovedToFront(cs, k), edges), depths, id);
            stops != [] && stops[0] == StopIn(cs[k], DepthOf(depths, cs[k]), id)
  {
    var c := cs[k];
    var rest := MovedNodes(cs, edges, k);
    hide Nodes, StopsOf, StopsIn, StopIn, DepthOf, MovedToFront, UniqueKeys;
    StopsAppend([c], rest, depths, id);
    StopsOfOne(c, depths, id);
    FirstStop(c, DepthOf(depths, c), id);
  }

  function RowsOf(entrants: seq<Entrant>, nodes: seq<Competition>, depths: map<Key, nat>): seq<Row> {
    var exits := ExitsOf(entrants, nodes, depths);
    seq(|Sort(exits)|, i requires 0 <= i < |Sort(exits)| => RowOf(exits, Sort(exits)[i]))
  }

  lemma RowsAreRows(entrants: seq<Entrant>, nodes: seq<Competition>, depths: map<Key, nat>)
    ensures AreRows(entrants, nodes, depths, RowsOf(entrants, nodes, depths))
  {
    var exits := ExitsOf(entrants, nodes, depths);
    SortSorts(exits);
    assert |Sort(exits)| == |multiset(Sort(exits))| == |exits|;
    hide RowOf, Sort, Sorted, ExitsOf;
  }

  /** The same graph and depths serve every order of the competitions. */
  ghost function RereadFrom(x: Reading, cs: seq<Competition>): Reading {
    x.(cs := cs, rows := RowsOf(x.entrants, Nodes(cs, x.edges), x.depths))
  }

  lemma RereadIsReading(x: Reading, cs: seq<Competition>)
    requires IsReading(x) && SameElements(x.cs, cs)
    ensures IsReading(RereadFrom(x, cs)) && Rereads(x, RereadFrom(x, cs))
  {
    assert UniqueKeys(cs) && SameDivision(x.cs, x.edges, cs, x.edges);
    SameNodes(x.cs, x.edges, cs, x.edges);
    SameRules(x.cs, x.edges, cs, x.edges);
    RowsAreRows(x.entrants, Nodes(cs, x.edges), x.depths);
    hide Nodes, NodeKeys, LeadsTo, AreRows, RowsOf, SameDivision, UniqueKeys, SameElements;
    assert IsGraph(cs, x.edges, x.g);
  }

  lemma RowWithStops(x: Reading, id: int, n: nat) returns (j: nat)
    requires IsReading(x) && n < |x.entrants| && x.entrants[n].entrantId == id && StopsFor(x, id) != []
    ensures j < |x.rows| && x.rows[j].entrantId == id
  {
    var nodes := Nodes(x.cs, x.edges);
    var exits := ExitsOf(x.entrants, nodes, x.depths);
    var exit := Exit(Closest(StopsFor(x, id)), x.entrants[n]);
    assert AreRows(x.entrants, nodes, x.depths, x.rows);
    hide IsReading, Nodes, StopsOf, Closest, ExitsOf, Sort, Sorted;
    ExitsContents(x.entrants, nodes, x.depths);
    assert exit in exits;
    SortSorts(exits);
    assert exit in multiset(Sort(exits));
    j :| 0 <= j < |Sort(exits)| && Sort(exits)[j] == exit;
  }

  /** Some order of reading gives an entrant's row the other kind of exit. */
  ghost predicate OtherKindRead(x: Reading, i: nat)
    requires i < |x.rows|
  {
    exists y: Reading, j: nat :: IsReading(y) && Rereads(x, y) && OtherKind(x, i, y, j)
  }

  ghost predicate OtherKind(x: Reading, i: nat, y: Reading, j: nat)
    requires i < |x.rows|
  {
    j < |y.rows| && y.rows[j].entrantId == x.rows[i].entrantId && y.rows[j].exitKind != x.rows[i].exitKind
  }

  /** A tying node of the other kind, read first, is where the run of the entrant ends. */
  lemma TieReadsOther(x: Reading, i: nat, s: Stop) returns (y: Reading, j: nat)
    requires IsReading(x) && NoLoops(x) && i < |x.rows|
    requires Least(StopsFor(x, x.rows[i].entrantId), s) && s.node.kind != x.rows[i].exitKind
    ensures IsReading(y) && Rereads(x, y) && OtherKind(x, i, y, j)
  {
    var id, nodes := x.rows[i].entrantId, Nodes(x.cs, x.edges);
    StopsContents(nodes, x.depths, id);
    NodesContents(x.cs, x.edges);
    var k :| 0 <= k < |x.cs| && x.cs[k] == s.node;
    var cs := MovedToFront(x.cs, k);
    MovedIsSame(x.cs, k);
    ReadFirst(x.cs, x.edges, x.depths, k, id);
    y := RereadFrom(x, cs);
    RereadIsReading(x, cs);
    SameStopsFor(x, y, id);
    var n := RowOfEntrant(x.entrants, nodes, x.depths, x.rows, i);
    j := RowWithStops(y, id, n);
    SameExit(y.entrants, Nodes(y.cs, y.edges), y.depths, y.rows, j);
    ClosestOfFirst(StopsFor(x, id), StopsFor(y, id), s);
  }

  lemma ClosestOfFirst(stops: seq<Stop>, stops': seq<Stop>, s: Stop)
    requires SameElements(stops, stops') && Least(stops, s) && stops' != [] && stops'[0] == s
    ensures Closest(stops') == s
  {
    var rest := stops'[1..];
    assert stops' == [s] + rest;
    assert forall x :: x in rest ==> x in stops';
    FirstLeast(s, rest);
  }

  /**
   * The exit kind of a row depends on the order of reading exactly when a match
   * and a pool of one number hold the entrant at the same least distance, in the
   * same place.
   */
  lemma ExitKindDependsOnTie(x: Reading, i: nat)
    requires IsReading(x) && NoLoops(x) && i < |x.rows|
    ensures OtherKindRead(x, i) <==> KindsTie(StopsFor(x, x.rows[i].entrantId))
  {
    var stops := StopsFor(x, x.rows[i].entrantId);
    if KindsTie(stops) {
      var s, s' :| Least(stops, s) && Least(stops, s') && s.node.kind != s'.node.kind;
      var y, j := TieReadsOther(x, i, if s.node.kind != x.rows[i].exitKind then s else s');
    } else if OtherKindRead(x, i) {
      var y: Reading, j: nat :| IsReading(y) && Rereads(x, y) && OtherKind(x, i, y, j);
      PlacementsIgnoreOrder(x, y, i, j);
    }
  }

  /** No number names both a match and a pool. */
  ghost predicate NumbersDiffer(cs: seq<Competition>) {
    forall c, d :: c in cs && d in cs && c.id == d.id ==> c.kind == d.kind
  }

  /** Numbers of their own for matches and pools are enough for a row to be read alike in any order. */
  lemma NumbersDecide(x: Reading, id: int)
    requires NumbersDiffer(x.cs)
    ensures !KindsTie(StopsFor(x, id))
  {
    var stops := StopsFor(x, id);
    StopsContents(Nodes(x.cs, x.edges), x.depths, id);
    NodesContents(x.cs, x.edges);
    forall s, s' | Least(stops, s) && Least(stops, s')
      ensures s.node.kind == s'.node.kind
    {
      assert !IsCloserToTheEnd(s, s') && !IsCloserToTheEnd(s', s);
    }
  }

  // ----- a division in which it happens

  function LoneMatch(id: int, e: int): Competition {
    Competition(MatchKind, id, None, true, [e], [Placement(e, 1)])
  }

  function LonePool(id: int, e: int): Competition {
    Competition(PoolKind, id, None, true, [e], [Placement(e, 1)])
  }

  lemma LoneNodes(c: Competition, d: Competition)
    requires c.kind == MatchKind ==> c.phaseGroupId.None?
    requires d.kind == MatchKind ==> d.phaseGroupId.None?
    ensures Nodes([c, d], []) == [c, d]
  {
    var p := (x: Competition) => Places(BracketPools([c, d], []), x);
    assert p(c) && p(d);
    assert [c, d][..1] == [c] && [c][..0] == [] && Filter<Competition>([], p) == [];
    assert Filter([c], p) == [c];
    assert Filter([c, d], p) == [c, d];
  }

  lemma LoneStops(c: Competition, d: Competition, depths: map<Key, nat>, e: int)
    requires c.entrantIds == [e] && d.entrantIds == [e] && c.placements == d.placements == [Placement(e, 1)] && c.id == d.id
    requires DepthOf(depths, c) == 0 && DepthOf(depths, d) == 0
    ensures Closest(StopsOf([c, d], depths, e)).node == c
  {
    hide DepthOf;
    StopsOfOne(c, depths, e);
    StopsOfOne(d, depths, e);
    StopsAppend([c], [d], depths, e);
    assert [c] + [d] == [c, d];
    assert StopsIn(c, 0, e, 1) == [StopIn(c, 0, e)] && StopsIn(d, 0, e, 1) == [StopIn(d, 0, e)];
    assert PlacementMap([Placement(e, 1)]) == map[e := 1] by {
      assert [Placement(e, 1)][..0] == [];
    }
    hide StopsOf;
    FirstLeast(StopIn(c, 0, e), [StopIn(d, 0, e)]);
  }

  lemma NoRulesNoDepth(x: Reading, c: Competition)
    requires IsReading(x) && x.edges == [] && c in Nodes(x.cs, x.edges)
    ensures DepthOf(x.depths, c) == 0
  {
    var k := KeyOf(c);
    assert k in NodeKeys(x.cs, x.edges);
    assert forall to :: Steps(x.g, k, to) <==> LeadsTo(x.cs, x.edges, k, to);
    if Next(x.g, k) != [] {
      assert Steps(x.g, k, Next(x.g, k)[0]);
    }
    assert RightDepth(x.g, k, x.depths[k]);
  }

  /**
   * A match and a pool of one number, with no rule between them, both won by the
   * same entrant: whichever is read first is the exit of their row.
   */
  lemma KindByReadingOrder(x: Reading, i: nat, id: int, e: int)
    requires IsReading(x) && x.edges == [] && i < |x.rows| && x.rows[i].entrantId == e
    requires x.cs == [LoneMatch(id, e), LonePool(id, e)] || x.cs == [LonePool(id, e), LoneMatch(id, e)]
    ensures x.rows[i].exitKind == x.cs[0].kind && x.rows[i].exitId == id
  {
    LoneNodes(x.cs[0], x.cs[1]);
    assert Nodes(x.cs, x.edges) == x.cs;
    NoRulesNoDepth(x, x.cs[0]);
    NoRulesNoDepth(x, x.cs[1]);
    assert AreRows(x.entrants, x.cs, x.depths, x.rows);
    hide Nodes, IsReading, StopsOf, AreRows, DepthOf;
    LoneStops(x.cs[0], x.cs[1], x.depths, e);
    SameExit(x.entrants, x.cs, x.depths, x.rows, i);
  }
}
