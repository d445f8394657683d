/**
 * The resolver of final placements, stage by stage: indexes of the competitions,
 * the graph of the placing ones, the stops of each entrant with the closest of
 * them, and the bands. Every stage is a function together with the loop that
 * computes it, and the ranking is restated in the end without either.
 */
module DivisionPlacements {
  import opened Wrappers
  import opened Sequences
  import opened Sorting
  import opened AdvancementGraphs

  datatype Kind = MatchKind | PoolKind

  datatype Key = Key(kind: Kind, id: int)

  datatype Placement = Placement(entrantId: int, placement: int)

  datatype Competition = Competition(
    kind: Kind,
    id: int,
    phaseGroupId: Option<int>,
    decided: bool,
    entrantIds: seq<int>,
    placements: seq<Placement>)

  datatype Edge = Edge(source: Key, target: Key)

  /** Names only order the rows of one band; a name stands here for its place in that order. */
  datatype Entrant = Entrant(entrantId: int, name: int)

  function KeyOf(c: Competition): Key {
    Key(c.kind, c.id)
  }

  // ----- which competitions place people

  /** The pool a match belongs to; the last competition given for a match decides. */
  function PoolMap(cs: seq<Competition>): map<int, int> {
    if cs == [] then map[]
    else
      var before, c := PoolMap(cs[..|cs| - 1]), cs[|cs| - 1];
      if c.kind == MatchKind && c.phaseGroupId.Some? then before[c.id := c.phaseGroupId.value] else before
  }

  function MatchesOf(cs: seq<Competition>, pool: int): seq<int> {
    if cs == [] then []
    else
      var before, c := MatchesOf(cs[..|cs| - 1], pool), cs[|cs| - 1];
      if c.kind == MatchKind && c.phaseGroupId == Some(pool) then before + [c.id] else before
  }

  /** A rule between two matches of the pool. */
  predicate Internal(pools: map<int, int>, e: Edge, pool: int) {
    && e.source.kind == MatchKind && e.target.kind == MatchKind
    && e.source.id in pools && e.target.id in pools
    && pools[e.source.id] == pool == pools[e.target.id]
  }

  /** Some rule joins two matches that `pools` both assign to this pool. */
  ghost predicate IsBracketPool(cs: seq<Competition>, edges: seq<Edge>, pool: int) {
    exists e :: e in edges && Internal(PoolMap(cs), e, pool)
  }

  predicate Places(bracketPools: set<int>, c: Competition) {
    if c.kind == MatchKind then c.phaseGroupId.None? || c.phaseGroupId.value in bracketPools
    else c.id !in bracketPools
  }

  ghost function BracketPools(cs: seq<Competition>, edges: seq<Edge>): (pools: set<int>)
    ensures forall pool :: pool in pools <==> IsBracketPool(cs, edges, pool)
  {
    var m := PoolMap(cs);
    set e | e in edges && e.source.id in m && Internal(m, e, m[e.source.id]) :: m[e.source.id]
  }

  ghost function Nodes(cs: seq<Competition>, edges: seq<Edge>): seq<Competition> {
    Filter(cs, c => Places(BracketPools(cs, edges), c))
  }

  ghost function NodeKeys(cs: seq<Competition>, edges: seq<Edge>): set<Key> {
    set c | c in Nodes(cs, edges) :: KeyOf(c)
  }

  /**
   * The nodes a rule's end stands for: itself, the pool that answers for a match,
   * or all the matches of a pool that decides through them.
   */
  function Resolve(nodeKeys: set<Key>, pools: map<int, int>, matches: int -> seq<int>, k: Key): seq<Key> {
    if k in nodeKeys then [k]
    else if k.kind == MatchKind then
      if k.id in pools then [Key(PoolKind, pools[k.id])] else []
    else seq(|matches(k.id)|, i requires 0 <= i < |matches(k.id)| => Key(MatchKind, matches(k.id)[i]))
  }

  ghost function ResolveEnd(cs: seq<Competition>, edges: seq<Edge>, k: Key): seq<Key> {
    Resolve(NodeKeys(cs, edges), PoolMap(cs), pool => MatchesOf(cs, pool), k)
  }

  ghost predicate RuleLeads(cs: seq<Competition>, edges: seq<Edge>, e: Edge, from: Key, to: Key) {
    from != to && from in ResolveEnd(cs, edges, e.source) && to in ResolveEnd(cs, edges, e.target)
  }

  /** Some rule leads from one node to the other. */
  ghost predicate LeadsTo(cs: seq<Competition>, edges: seq<Edge>, from: Key, to: Key) {
    from in NodeKeys(cs, edges) && exists e :: e in edges && RuleLeads(cs, edges, e, from, to)
  }

  ghost predicate IsGraph(cs: seq<Competition>, edges: seq<Edge>, g: Graph<Key>) {
    && g.Keys == NodeKeys(cs, edges)
    && forall from, to :: Steps(g, from, to) <==> LeadsTo(cs, edges, from, to)
  }

  // ----- building the graph

  method IndexPools(cs: seq<Competition>) returns (poolOfMatch: map<int, int>, matchesOfPool: map<int, seq<int>>)
    ensures poolOfMatch == PoolMap(cs)
    ensures forall pool :: (if pool in matchesOfPool then matchesOfPool[pool] else []) == MatchesOf(cs, pool)
  {
    poolOfMatch, matchesOfPool := map[], map[];
    for i := 0 to |cs|
      invariant poolOfMatch == PoolMap(cs[..i])
      invariant forall pool :: (if pool in matchesOfPool then matchesOfPool[pool] else []) == MatchesOf(cs[..i], pool)
    {
      var c := cs[i];
      assert cs[..i + 1][..i] == cs[..i];
      if c.kind == MatchKind && c.phaseGroupId.Some? {
        var pool := c.phaseGroupId.value;
        poolOfMatch := poolOfMatch[c.id := pool];
        matchesOfPool := matchesOfPool[pool := (if pool in matchesOfPool then matchesOfPool[pool] else []) + [c.id]];
      }
    }
    assert cs[..|cs|] == cs;
  }

  method FindBracketPools(cs: seq<Competition>, edges: seq<Edge>, poolOfMatch: map<int, int>) returns (pools: set<int>)
    requires poolOfMatch == PoolMap(cs)
    ensures pools == BracketPools(cs, edges)
  {
    pools := {};
    for i := 0 to |edges|
      invariant forall pool :: pool in pools <==> exists j :: 0 <= j < i && Internal(poolOfMatch, edges[j], pool)
    {
      var e := edges[i];
      if e.source.kind == MatchKind && e.target.kind == MatchKind && e.source.id in poolOfMatch && e.target.id in poolOfMatch
         && poolOfMatch[e.source.id] == poolOfMatch[e.target.id] {
        pools := pools + {poolOfMatch[e.source.id]};
      }
    }
    forall pool
      ensures pool in pools <==> pool in BracketPools(cs, edges)
    {
      if IsBracketPool(cs, edges, pool) {
        var e :| e in edges && Internal(PoolMap(cs), e, pool);
        var j :| 0 <= j < |edges| && edges[j] == e;
        assert Internal(poolOfMatch, edges[j], pool);
      }
      if pool in pools {
        var j :| 0 <= j < |edges| && Internal(poolOfMatch, edges[j], pool);
        assert edges[j] in edges;
      }
    }
  }

  ghost predicate Steps(g: Graph<Key>, from: Key, to: Key) {
    to in Next(g, from)
  }

  lemma StepsAfterInsert(g: Graph<Key>, from: Key, to: Key)
    requires from in g
    ensures forall k, x :: Steps(g[from := g[from] + [to]], k, x) <==> Steps(g, k, x) || (k == from && x == to)
  {
    var g' := g[from := g[from] + [to]];
    assert g'[from] == g[from] + [to];
    assert forall k :: k != from ==> Next(g', k) == Next(g, k);
  }

  method AddSuccessors(outgoing: Graph<Key>, from: Key, targets: seq<Key>) returns (updated: Graph<Key>)
    ensures updated.Keys == outgoing.Keys
    ensures forall k, x :: Steps(updated, k, x) <==>
              Steps(outgoing, k, x) || (k == from && k in outgoing && x in targets && x != from)
  {
    updated := outgoing;
    for i := 0 to |targets|
      invariant updated.Keys == outgoing.Keys
      invariant forall k, x :: Steps(updated, k, x) <==>
                  Steps(outgoing, k, x) || (k == from && k in outgoing && x in targets[..i] && x != from)
    {
      var to := targets[i];
      assert targets[..i + 1] == targets[..i] + [to];
      if from != to && from in updated && to !in updated[from] {
        StepsAfterInsert(updated, from, to);
        updated := updated[from := updated[from] + [to]];
      } else {
        assert from == to || from !in updated || Steps(updated, from, to);
      }
    }
    assert targets[..|targets|] == targets;
  }

  /** Adds what one rule leads to, for everything its ends stand for. */
  method AddRule(outgoing: Graph<Key>, sources: seq<Key>, targets: seq<Key>) returns (updated: Graph<Key>)
    ensures updated.Keys == outgoing.Keys
    ensures forall k, x :: Steps(updated, k, x) <==>
              Steps(outgoing, k, x) || (k in sources && k in outgoing && x in targets && x != k)
  {
    updated := outgoing;
    for s := 0 to |sources|
      invariant updated.Keys == outgoing.Keys
      invariant forall k, x :: Steps(updated, k, x) <==>
                  Steps(outgoing, k, x) || (k in sources[..s] && k in outgoing && x in targets && x != k)
    {
      assert sources[..s + 1] == sources[..s] + [sources[s]];
      updated := AddSuccessors(updated, sources[s], targets);
    }
    assert sources[..|sources|] == sources;
  }

  /** The rules among the first i of a sequence lead from one node to the other. */
  ghost predicate LeadsVia(cs: seq<Competition>, edges: seq<Edge>, i: nat, from: Key, to: Key)
    requires i <= |edges|
  {
    from in NodeKeys(cs, edges) && exists j :: 0 <= j < i && RuleLeads(cs, edges, edges[j], from, to)
  }

  lemma LeadsViaAll(cs: seq<Competition>, edges: seq<Edge>, from: Key, to: Key)
    ensures LeadsVia(cs, edges, |edges|, from, to) <==> LeadsTo(cs, edges, from, to)
  {
    assert forall e :: e in edges <==> exists j :: 0 <= j < |edges| && edges[j] == e;
  }

  lemma LeadsViaStep(cs: seq<Competition>, edges: seq<Edge>, i: nat, from: Key, to: Key)
    requires i < |edges|
    ensures LeadsVia(cs, edges, i + 1, from, to) <==>
              || LeadsVia(cs, edges, i, from, to)
              || (from in ResolveEnd(cs, edges, edges[i].source) && from in NodeKeys(cs, edges)
                  && to in ResolveEnd(cs, edges, edges[i].target) && to != from)
  {
    hide ResolveEnd, NodeKeys;
    if LeadsVia(cs, edges, i + 1, from, to) {
      var j :| 0 <= j < i + 1 && RuleLeads(cs, edges, edges[j], from, to);
      assert j == i || LeadsVia(cs, edges, i, from, to);
    } else {
      assert !RuleLeads(cs, edges, edges[i], from, to) || from !in NodeKeys(cs, edges);
    }
  }

  method LinkNodes(cs: seq<Competition>, edges: seq<Edge>, nodeKeys: set<Key>, poolOfMatch: map<int, int>, matches: int -> seq<int>)
    returns (outgoing: Graph<Key>)
    requires nodeKeys == NodeKeys(cs, edges) && poolOfMatch == PoolMap(cs)
    requires forall pool :: matches(pool) == MatchesOf(cs, pool)
    ensures IsGraph(cs, edges, outgoing)
  {
    outgoing := map k | k in nodeKeys :: [];
    for i := 0 to |edges|
      invariant outgoing.Keys == nodeKeys
      invariant forall k, x :: Steps(outgoing, k, x) <==> LeadsVia(cs, edges, i, k, x)
    {
      var sources := Resolve(nodeKeys, poolOfMatch, matches, edges[i].source);
      var targets := Resolve(nodeKeys, poolOfMatch, matches, edges[i].target);
      assert sources == ResolveEnd(cs, edges, edges[i].source) && targets == ResolveEnd(cs, edges, edges[i].target);
      outgoing := AddRule(outgoing, sources, targets);
      forall k, x
        ensures LeadsVia(cs, edges, i + 1, k, x) <==>
                  LeadsVia(cs, edges, i, k, x) || (k in sources && k in nodeKeys && x in targets && x != k)
      {
        LeadsViaStep(cs, edges, i, k, x);
        hide LeadsVia, ResolveEnd, Resolve, NodeKeys;
      }
    }
    forall k, x {
      LeadsViaAll(cs, edges, k, x);
    }
  }

  /** The nodes, the rules between them, and the depth of each. */
  method BuildGraph(cs: seq<Competition>, edges: seq<Edge>)
    returns (nodes: seq<Competition>, outgoing: Graph<Key>, depths: map<Key, nat>)
    ensures nodes == Nodes(cs, edges) && IsGraph(cs, edges, outgoing)
    ensures forall k :: k in NodeKeys(cs, edges) ==> k in depths
    ensures forall k :: k in depths ==> RightDepth(outgoing, k, depths[k])
  {
    var poolOfMatch, matchesOfPool := IndexPools(cs);
    var bracketPools := FindBracketPools(cs, edges, poolOfMatch);
    nodes := Filter(cs, c => Places(bracketPools, c));
    var keys := seq(|nodes|, i requires 0 <= i < |nodes| => KeyOf(nodes[i]));
    var nodeKeys := set c | c in nodes :: KeyOf(c);
    var matches := (pool: int) => if pool in matchesOfPool then matchesOfPool[pool] else [];
    assert nodes == Nodes(cs, edges);
    assert nodeKeys == NodeKeys(cs, edges);
    outgoing := LinkNodes(cs, edges, nodeKeys, poolOfMatch, matches);
    depths := MeasureDepths(keys, outgoing);
    forall k | k in NodeKeys(cs, edges)
      ensures k in depths
    {
      var c :| c in nodes && KeyOf(c) == k;
      var i :| 0 <= i < |nodes| && nodes[i] == c;
      assert keys[i] == k;
    }
  }

  // ----- where everybody's run ended

  datatype Stop = Stop(node: Competition, depth: nat, placement: int)

  datatype Exit = Exit(stop: Stop, entrant: Entrant)

  function PlacementMap(ps: seq<Placement>): map<int, int> {
    if ps == [] then map[] else PlacementMap(ps[..|ps| - 1])[ps[|ps| - 1].entrantId := ps[|ps| - 1].placement]
  }

  /** Without a recorded placement the place is one past the size of the field. */
  function StopIn(node: Competition, depth: nat, id: int): Stop {
    var placements := PlacementMap(node.placements);
    Stop(node, depth, if id in placements then placements[id] else |node.entrantIds| + 1)
  }

  function StopsIn(node: Competition, depth: nat, id: int, j: nat): seq<Stop>
    requires j <= |node.entrantIds|
  {
    if j == 0 then []
    else StopsIn(node, depth, id, j - 1) + if node.entrantIds[j - 1] == id then [StopIn(node, depth, id)] else []
  }

  function DepthOf(depths: map<Key, nat>, c: Competition): nat {
    if KeyOf(c) in depths then depths[KeyOf(c)] else 0
  }

  function StopsOf(nodes: seq<Competition>, depths: map<Key, nat>, id: int): seq<Stop> {
    if nodes == [] then []
    else
      var node := nodes[|nodes| - 1];
      StopsOf(nodes[..|nodes| - 1], depths, id) + StopsIn(node, DepthOf(depths, node), id, |node.entrantIds|)
  }

  predicate IsCloserToTheEnd(candidate: Stop, held: Stop) {
    || candidate.depth < held.depth
    || (candidate.depth == held.depth && candidate.placement < held.placement)
    || (candidate.depth == held.depth && candidate.placement == held.placement && candidate.node.id < held.node.id)
  }

  function Closest(stops: seq<Stop>): Stop
    requires stops != []
  {
    if |stops| == 1 then stops[0]
    else
      var held, candidate := Closest(stops[..|stops| - 1]), stops[|stops| - 1];
      if IsCloserToTheEnd(candidate, held) then candidate else held
  }

  /** The chosen stop is one of them, and none is closer to the end. */
  lemma {:induction false} ClosestIsLeast(stops: seq<Stop>)
    requires stops != []
    ensures Closest(stops) in stops
    ensures forall s :: s in stops ==> !IsCloserToTheEnd(s, Closest(stops))
  {
    if |stops| > 1 {
      ClosestIsLeast(stops[..|stops| - 1]);
      assert stops == stops[..|stops| - 1] + [stops[|stops| - 1]];
    }
  }

  /** An entrant held by no node has no exit and no row. */
  function ExitsOf(entrants: seq<Entrant>, nodes: seq<Competition>, depths: map<Key, nat>): seq<Exit> {
    if entrants == [] then []
    else
      var before, entrant := ExitsOf(entrants[..|entrants| - 1], nodes, depths), entrants[|entrants| - 1];
      var stops := StopsOf(nodes, depths, entrant.entrantId);
      if stops == [] then before else before + [Exit(Closest(stops), entrant)]
  }

  lemma {:induction false} StopsInContents(node: Competition, depth: nat, id: int, j: nat)
    requires j <= |node.entrantIds|
    ensures forall s :: s in StopsIn(node, depth, id, j) <==> id in node.entrantIds[..j] && s == StopIn(node, depth, id)
  {
    if j > 0 {
      StopsInContents(node, depth, id, j - 1);
      assert node.entrantIds[..j] == node.entrantIds[..j - 1] + [node.entrantIds[j - 1]];
    }
  }

  /** The stops of an entrant are the nodes that held them. */
  lemma {:induction false} StopsContents(nodes: seq<Competition>, depths: map<Key, nat>, id: int)
    ensures forall s :: s in StopsOf(nodes, depths, id) <==>
              s.node in nodes && id in s.node.entrantIds && s == StopIn(s.node, DepthOf(depths, s.node), id)
  {
    if nodes != [] {
      var node := nodes[|nodes| - 1];
      StopsContents(nodes[..|nodes| - 1], depths, id);
      StopsInContents(node, DepthOf(depths, node), id, |node.entrantIds|);
      assert node.entrantIds[..|node.entrantIds|] == node.entrantIds;
      assert nodes == nodes[..|nodes| - 1] + [node];
    }
  }

  lemma {:induction false} ExitsContents(entrants: seq<Entrant>, nodes: seq<Competition>, depths: map<Key, nat>)
    ensures forall x :: x in ExitsOf(entrants, nodes, depths) <==>
              && x.entrant in entrants && StopsOf(nodes, depths, x.entrant.entrantId) != []
              && x.stop == Closest(StopsOf(nodes, depths, x.entrant.entrantId))
  {
    if entrants != [] {
      ExitsContents(entrants[..|entrants| - 1], nodes, depths);
      assert entrants == entrants[..|entrants| - 1] + [entrants[|entrants| - 1]];
    }
  }

  function Held(byEntrant: map<int, seq<Stop>>, id: int): seq<Stop> {
    if id in byEntrant then byEntrant[id] else []
  }

  /** The first j entrants of a node have their stop in it recorded. */
  ghost predicate Recorded(byEntrant: map<int, seq<Stop>>, before: map<int, seq<Stop>>, node: Competition, depth: nat, j: nat)
    requires j <= |node.entrantIds|
  {
    forall id :: Held(byEntrant, id) == Held(before, id) + StopsIn(node, depth, id, j)
  }

  method CollectStopsIn(node: Competition, depth: nat, before: map<int, seq<Stop>>) returns (byEntrant: map<int, seq<Stop>>)
    ensures Recorded(byEntrant, before, node, depth, |node.entrantIds|)
  {
    hide Recorded, StopIn;
    byEntrant := before;
    NothingRecorded(before, node, depth);
    for j := 0 to |node.entrantIds|
      invariant Recorded(byEntrant, before, node, depth, j)
    {
      var entrantId := node.entrantIds[j];
      StopRecorded(byEntrant, before, node, depth, j);
      byEntrant := byEntrant[entrantId := Held(byEntrant, entrantId) + [StopIn(node, depth, entrantId)]];
    }
  }

  lemma NothingRecorded(before: map<int, seq<Stop>>, node: Competition, depth: nat)
    ensures Recorded(before, before, node, depth, 0)
  {
  }

  lemma StopRecorded(byEntrant: map<int, seq<Stop>>, before: map<int, seq<Stop>>, node: Competition, depth: nat, j: nat)
    requires j < |node.entrantIds| && Recorded(byEntrant, before, node, depth, j)
    ensures
      var entrantId := node.entrantIds[j];
      Recorded(byEntrant[entrantId := Held(byEntrant, entrantId) + [StopIn(node, depth, entrantId)]], before, node, depth, j + 1)
  {
    var entrantId := node.entrantIds[j];
    var after := byEntrant[entrantId := Held(byEntrant, entrantId) + [StopIn(node, depth, entrantId)]];
    forall id
      ensures Held(after, id) == Held(before, id) + StopsIn(node, depth, id, j + 1)
    {
      assert Held(byEntrant, id) == Held(before, id) + StopsIn(node, depth, id, j);
      hide StopIn, Recorded;
      if id == entrantId {
        AppendLast(Held(before, id), StopsIn(node, depth, id, j), StopIn(node, depth, id));
      }
    }
  }

  lemma AppendLast<T>(s: seq<T>, t: seq<T>, x: T)
    ensures s + t + [x] == s + (t + [x])
    ensures t + [] == t
  {
  }

  ghost predicate AllRecorded(byEntrant: map<int, seq<Stop>>, nodes: seq<Competition>, depths: map<Key, nat>) {
    forall id :: Held(byEntrant, id) == StopsOf(nodes, depths, id)
  }

  lemma NodeRecorded(byEntrant: map<int, seq<Stop>>, after: map<int, seq<Stop>>, nodes: seq<Competition>, node: Competition, depths: map<Key, nat>)
    requires AllRecorded(byEntrant, nodes, depths)
    requires Recorded(after, byEntrant, node, DepthOf(depths, node), |node.entrantIds|)
    ensures AllRecorded(after, nodes + [node], depths)
  {
    forall id
      ensures Held(after, id) == StopsOf(nodes + [node], depths, id)
    {
      hide StopsIn, DepthOf;
      assert (nodes + [node])[..|nodes|] == nodes;
    }
  }

  method CollectStops(nodes: seq<Competition>, depths: map<Key, nat>) returns (byEntrant: map<int, seq<Stop>>)
    ensures forall id :: Held(byEntrant, id) == StopsOf(nodes, depths, id)
  {
    byEntrant := map[];
    assert nodes[..0] == [] && AllRecorded(byEntrant, [], depths);
    for i := 0 to |nodes|
      invariant AllRecorded(byEntrant, nodes[..i], depths)
    {
      hide AllRecorded, Recorded;
      var after := CollectStopsIn(nodes[i], DepthOf(depths, nodes[i]), byEntrant);
      NodeRecorded(byEntrant, after, nodes[..i], nodes[i], depths);
      byEntrant := after;
      assert nodes[..i + 1] == nodes[..i] + [nodes[i]];
    }
    assert nodes[..|nodes|] == nodes;
  }

  method ClosestStop(stops: seq<Stop>) returns (held: Stop)
    requires stops != []
    ensures held == Closest(stops)
  {
    held := stops[0];
    assert stops[..1] == [stops[0]];
    for i := 1 to |stops|
      invariant held == Closest(stops[..i])
    {
      assert stops[..i + 1][..i] == stops[..i];
      if IsCloserToTheEnd(stops[i], held) {
        held := stops[i];
      }
    }
    assert stops[..|stops|] == stops;
  }

  method CollectExits(entrants: seq<Entrant>, nodes: seq<Competition>, depths: map<Key, nat>) returns (exits: seq<Exit>)
    ensures exits == ExitsOf(entrants, nodes, depths)
  {
    var byEntrant := CollectStops(nodes, depths);
    exits := [];
    for i := 0 to |entrants|
      invariant exits == ExitsOf(entrants[..i], nodes, depths)
    {
      assert entrants[..i + 1] == entrants[..i] + [entrants[i]];
      var stops := Held(byEntrant, entrants[i].entrantId);
      if |stops| > 0 {
        var stop := ClosestStop(stops);
        exits := exits + [Exit(stop, entrants[i])];
      }
    }
    assert entrants[..|entrants|] == entrants;
  }

  // ----- the bands

  /** Strictly closer to the end, or strictly better placed there. */
  predicate Ahead(a: Exit, b: Exit) {
    a.stop.depth < b.stop.depth || (a.stop.depth == b.stop.depth && a.stop.placement < b.stop.placement)
  }

  /** The order of the rows: by band, then by name, then by id. */
  predicate Precedes(a: Exit, b: Exit) {
    || Ahead(a, b)
    || (!Ahead(b, a) && (a.entrant.name < b.entrant.name || (a.entrant.name == b.entrant.name && a.entrant.entrantId < b.entrant.entrantId)))
  }

  /** The program's stable sort. */
  function Sort(s: seq<Exit>): seq<Exit> {
    SortBy(s, Precedes)
  }

  ghost predicate Sorted(s: seq<Exit>) {
    SortedBy(s, Precedes)
  }

  lemma PrecedesIsWeakOrder(a: Exit, b: Exit, c: Exit)
    ensures WeakAmong(a, b, c, Precedes)
  {
  }

  lemma SortSorts(s: seq<Exit>)
    ensures Sorted(Sort(s)) && multiset(Sort(s)) == multiset(s)
  {
    forall i, j, k | 0 <= i < |s| && 0 <= j < |s| && 0 <= k < |s|
      ensures WeakAmong(s[i], s[j], s[k], Precedes)
    {
      PrecedesIsWeakOrder(s[i], s[j], s[k]);
    }
    SortBySorts(s, Precedes);
  }

  datatype Row = Row(entrantId: int, placement: nat, sharedThrough: nat, exitKind: Kind, exitId: int)

  function AheadOf(x: Exit): Exit -> bool {
    e => Ahead(e, x)
  }

  function NotBehind(x: Exit): Exit -> bool {
    e => !Ahead(x, e)
  }

  /** Competition ranking: one more than the number ahead, through to the last who is not behind. */
  function RowOf(exits: seq<Exit>, x: Exit): Row {
    Row(x.entrant.entrantId, 1 + Count(exits, AheadOf(x)), Count(exits, NotBehind(x)), x.stop.node.kind, x.stop.node.id)
  }

  /** [index, end) is one whole band of a sorted sequence. */
  ghost predicate IsBand(s: seq<Exit>, index: nat, end: nat) {
    && index < end <= |s|
    && (forall i :: index <= i < end ==> !Ahead(s[index], s[i]) && !Ahead(s[i], s[index]))
    && (index > 0 ==> Ahead(s[index - 1], s[index]))
    && (end < |s| ==> Ahead(s[end - 1], s[end]))
  }

  lemma BandOrder(s: seq<Exit>, index: nat, end: nat, i: nat, j: nat)
    requires Sorted(s) && IsBand(s, index, end) && index <= i < end && j < |s|
    ensures Ahead(s[j], s[i]) <==> j < index
    ensures Ahead(s[i], s[j]) <==> j >= end
  {
    assert j < index - 1 ==> !Precedes(s[index - 1], s[j]);
    assert j > end ==> !Precedes(s[j], s[end]);
  }

  lemma BandCounts(s: seq<Exit>, index: nat, end: nat, i: nat)
    requires Sorted(s) && IsBand(s, index, end) && index <= i < end
    ensures Count(s, AheadOf(s[i])) == index && Count(s, NotBehind(s[i])) == end
  {
    forall j: nat | j < |s|
      ensures AheadOf(s[i])(s[j]) <==> j < index
      ensures NotBehind(s[i])(s[j]) <==> j < end
    {
      BandOrder(s, index, end, i, j);
    }
    hide Sorted, IsBand, Ahead, AheadOf, NotBehind;
    CountPrefix(s, AheadOf(s[i]), index);
    CountPrefix(s, NotBehind(s[i]), end);
  }

  /** The rows of one band: the first place after the bands before it, shared through its own last. */
  method BandOf(exits: seq<Exit>, ordered: seq<Exit>, index: nat, end: nat, before: seq<Row>) returns (rows: seq<Row>)
    requires Sorted(ordered) && multiset(ordered) == multiset(exits) && index < end <= |ordered| && IsBand(ordered, index, end)
    requires |before| == index && forall j :: 0 <= j < index ==> before[j] == RowOf(exits, ordered[j])
    ensures |rows| == end && forall j :: 0 <= j < end ==> rows[j] == RowOf(exits, ordered[j])
  {
    rows := before;
    hide Count, Sorted, IsBand;
    for i := index to end
      invariant |rows| == i
      invariant forall j :: 0 <= j < i ==> rows[j] == RowOf(exits, ordered[j])
    {
      var exit := ordered[i];
      BandCounts(ordered, index, end, i);
      CountPermuted(exits, ordered, AheadOf(exit));
      CountPermuted(exits, ordered, NotBehind(exit));
      rows := rows + [Row(exit.entrant.entrantId, index + 1, end, exit.stop.node.kind, exit.stop.node.id)];
    }
  }

  method BandRows(exits: seq<Exit>) returns (rows: seq<Row>)
    ensures |rows| == |exits| == |Sort(exits)|
    ensures forall i :: 0 <= i < |rows| ==> rows[i] == RowOf(exits, Sort(exits)[i])
  {
    var ordered := Sort(exits);
    SortSorts(exits);
    assert |ordered| == |multiset(ordered)| == |exits|;
    rows := [];
    var index := 0;
    hide RowOf, Sort, Sorted;
    while index < |ordered|
      invariant 0 <= index <= |ordered| && |rows| == index
      invariant 0 < index < |ordered| ==> Ahead(ordered[index - 1], ordered[index])
      invariant forall i :: 0 <= i < index ==> rows[i] == RowOf(exits, ordered[i])
    {
      var end := index + 1;
      while end < |ordered| && ordered[end].stop.depth == ordered[index].stop.depth
                            && ordered[end].stop.placement == ordered[index].stop.placement
        invariant index < end <= |ordered|
        invariant forall i :: index <= i < end ==> !Ahead(ordered[index], ordered[i]) && !Ahead(ordered[i], ordered[index])
      {
        end := end + 1;
      }
      assert end < |ordered| ==> Ahead(ordered[end - 1], ordered[end]) by {
        if end < |ordered| {
          SortedNotBehind(ordered, end - 1, end);
        }
      }
      rows := BandOf(exits, ordered, index, end, rows);
      index := end;
    }
  }

  lemma SortedNotBehind(s: seq<Exit>, i: nat, j: nat)
    requires Sorted(s) && i < j < |s|
    ensures !Ahead(s[j], s[i])
  {
    assert !Precedes(s[j], s[i]);
  }

  // ----- the whole answer

  /** The rows of the exits, in the order they are sorted into. */
  ghost predicate AreRows(entrants: seq<Entrant>, nodes: seq<Competition>, depths: map<Key, nat>, rows: seq<Row>) {
    var exits := ExitsOf(entrants, nodes, depths);
    |rows| == |exits| == |Sort(exits)| && forall i :: 0 <= i < |rows| ==> rows[i] == RowOf(exits, Sort(exits)[i])
  }

  /** The graph, the depth of every node, and the rows they give. */
  ghost predicate IsResult(cs: seq<Competition>, edges: seq<Edge>, entrants: seq<Entrant>,
                           g: Graph<Key>, depths: map<Key, nat>, rows: seq<Row>) {
    && IsGraph(cs, edges, g)
    && (forall k :: k in NodeKeys(cs, edges) ==> k in depths && RightDepth(g, k, depths[k]))
    && AreRows(entrants, Nodes(cs, edges), depths, rows)
  }

  ghost function EndsThere(g: Graph<Key>): Competition -> bool {
    c => Next(g, KeyOf(c)) == []
  }

  method CountEndings(nodes: seq<Competition>, outgoing: Graph<Key>) returns (endings: nat)
    ensures endings == Count(nodes, EndsThere(outgoing))
  {
    endings := 0;
    for i := 0 to |nodes|
      invariant endings == Count(nodes[..i], EndsThere(outgoing))
    {
      assert nodes[..i + 1][..i] == nodes[..i];
      if KeyOf(nodes[i]) !in outgoing || |outgoing[KeyOf(nodes[i])]| == 0 {
        endings := endings + 1;
      }
    }
    assert nodes[..|nodes|] == nodes;
  }

  method ResolveDivisionPlacements(cs: seq<Competition>, edges: seq<Edge>, entrants: seq<Entrant>)
    returns (complete: bool, endings: nat, rows: seq<Row>, ghost g: Graph<Key>, ghost depths: map<Key, nat>)
    ensures complete <==> (exists c :: c in cs && c.kind == MatchKind) && forall c :: c in cs && c.kind == MatchKind ==> c.decided
    ensures IsResult(cs, edges, entrants, g, depths, rows)
    ensures endings == Count(Nodes(cs, edges), EndsThere(g))
  {
    hide Nodes, NodeKeys, IsGraph, RightDepth, RowOf, Sort, EndsThere;
    var nodes, outgoing, measured := BuildGraph(cs, edges);
    g, depths := outgoing, measured;
    var exits := CollectExits(entrants, nodes, measured);
    rows := BandRows(exits);
    var matches := Filter(cs, (c: Competition) => c.kind == MatchKind);
    FilterContents(cs, (c: Competition) => c.kind == MatchKind);
    complete := |matches| > 0 && forall c :: c in matches ==> c.decided;
    assert |matches| > 0 ==> matches[0] in matches;
    endings := CountEndings(nodes, outgoing);
  }

  // ----- the bands partition the places

  /** The bands tile the places 1 to n: each starts right after the one before it ends. */
  lemma BandsTile(exits: seq<Exit>, rows: seq<Row>, i: nat)
    requires |rows| == |exits| == |Sort(exits)| && i < |rows|
    requires forall j :: 0 <= j < |rows| ==> rows[j] == RowOf(exits, Sort(exits)[j])
    ensures rows[i].placement <= i + 1 <= rows[i].sharedThrough <= |rows|
    ensures i == 0 ==> rows[i].placement == 1
    ensures i == |rows| - 1 ==> rows[i].sharedThrough == |rows|
    ensures i + 1 < |rows| ==>
      || (rows[i + 1].placement == rows[i].placement && rows[i + 1].sharedThrough == rows[i].sharedThrough)
      || rows[i + 1].placement == rows[i].sharedThrough + 1
  {
    var s := Sort(exits);
    SortSorts(exits);
    hide Sort, Sorted, Count, RowOf, Ahead;
    var index, end := BandAround(s, i);
    RowInBand(exits, s, index, end, i);
    if i + 1 < |rows| {
      if i + 1 < end {
        RowInBand(exits, s, index, end, i + 1);
      } else {
        var index', end' := BandAround(s, i + 1);
        RowInBand(exits, s, index', end', i + 1);
        BandOrder(s, index', end', i + 1, i);
      }
    }
  }

  lemma RowInBand(exits: seq<Exit>, s: seq<Exit>, index: nat, end: nat, i: nat)
    requires Sorted(s) && multiset(s) == multiset(exits) && index <= i < end <= |s| && IsBand(s, index, end)
    ensures RowOf(exits, s[i]).placement == index + 1 && RowOf(exits, s[i]).sharedThrough == end
  {
    BandCounts(s, index, end, i);
    CountPermuted(exits, s, AheadOf(s[i]));
    CountPermuted(exits, s, NotBehind(s[i]));
  }

  ghost predicate Level(a: Exit, b: Exit) {
    !Ahead(a, b) && !Ahead(b, a)
  }

  lemma BandAround(s: seq<Exit>, i: nat) returns (index: nat, end: nat)
    requires Sorted(s) && i < |s|
    ensures index <= i < end <= |s| && IsBand(s, index, end)
  {
    index, end := i, i + 1;
    while index > 0 && Level(s[index - 1], s[index])
      invariant 0 <= index <= i && forall j :: index <= j <= i ==> Level(s[index], s[j])
    {
      index := index - 1;
    }
    while end < |s| && Level(s[end - 1], s[end])
      invariant i < end <= |s| && forall j :: index <= j < end ==> Level(s[index], s[j])
    {
      end := end + 1;
    }
    if index > 0 {
      SortedNotBehind(s, index - 1, index);
    }
    if end < |s| {
      SortedNotBehind(s, end - 1, end);
    }
  }

  // ----- what a row says, without graphs or sorting

  datatype Band = Band(depth: nat, placement: int)

  predicate BandAhead(a: Band, b: Band) {
    a.depth < b.depth || (a.depth == b.depth && a.placement < b.placement)
  }

  /** The best distance and place an entrant reached, if any node held them. */
  function BandReached(nodes: seq<Competition>, depths: map<Key, nat>): int -> Option<Band> {
    (id: int) =>
      var stops := StopsOf(nodes, depths, id);
      if stops == [] then None else Some(Band(Closest(stops).depth, Closest(stops).placement))
  }

  function EntrantAhead(reached: int -> Option<Band>, b: Band): Entrant -> bool {
    (e: Entrant) => reached(e.entrantId).Some? && BandAhead(reached(e.entrantId).value, b)
  }

  function EntrantNotBehind(reached: int -> Option<Band>, b: Band): Entrant -> bool {
    (e: Entrant) => reached(e.entrantId).Some? && !BandAhead(b, reached(e.entrantId).value)
  }

  lemma {:induction false} CountExits(entrants: seq<Entrant>, nodes: seq<Competition>, depths: map<Key, nat>, x: Exit)
    ensures
      var exits, reached, b := ExitsOf(entrants, nodes, depths), BandReached(nodes, depths), Band(x.stop.depth, x.stop.placement);
      && Count(exits, AheadOf(x)) == Count(entrants, EntrantAhead(reached, b))
      && Count(exits, NotBehind(x)) == Count(entrants, EntrantNotBehind(reached, b))
  {
    if entrants != [] {
      var earlier, entrant := entrants[..|entrants| - 1], entrants[|entrants| - 1];
      CountExits(earlier, nodes, depths, x);
      var reached, b := BandReached(nodes, depths), Band(x.stop.depth, x.stop.placement);
      CountSnoc(earlier, entrant, EntrantAhead(reached, b));
      CountSnoc(earlier, entrant, EntrantNotBehind(reached, b));
      assert entrants == earlier + [entrant];
      var before, stops := ExitsOf(earlier, nodes, depths), StopsOf(nodes, depths, entrant.entrantId);
      if stops == [] {
        assert reached(entrant.entrantId) == None;
      } else {
        var exit := Exit(Closest(stops), entrant);
        assert reached(entrant.entrantId) == Some(Band(exit.stop.depth, exit.stop.placement));
        assert ExitsOf(entrants, nodes, depths) == before + [exit];
        CountSnoc(before, exit, AheadOf(x));
        CountSnoc(before, exit, NotBehind(x));
      }
      hide Count, Closest, StopsOf, ExitsOf;
    }
  }

  /**
   * Competition ranking over the entrants: a row's placement is one more than the
   * number of entrants who got strictly further, and it is shared through the
   * number who got at least as far.
   */
  lemma RowRanksEntrants(entrants: seq<Entrant>, nodes: seq<Competition>, depths: map<Key, nat>, rows: seq<Row>, i: nat)
    requires AreRows(entrants, nodes, depths, rows) && i < |rows|
    ensures
      var reached := BandReached(nodes, depths);
      && reached(rows[i].entrantId).Some?
      && rows[i].placement == 1 + Count(entrants, EntrantAhead(reached, reached(rows[i].entrantId).value))
      && rows[i].sharedThrough == Count(entrants, EntrantNotBehind(reached, reached(rows[i].entrantId).value))
  {
    var exits := ExitsOf(entrants, nodes, depths);
    SortSorts(exits);
    var x := Sort(exits)[i];
    assert x in multiset(Sort(exits)) && x in exits;
    ExitsContents(entrants, nodes, depths);
    CountExits(entrants, nodes, depths, x);
  }
}
