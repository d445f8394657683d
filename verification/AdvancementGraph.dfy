/**
 * Longest walks in a finite graph. A memoised depth-first walk measures them; it
 * ends on every graph, agrees with a functional form of itself, and is right at
 * every node from which no loop can be reached.
 *
 * A graph maps each node to a sequence of targets, and the walk tries them from
 * left to right. A target need not be a node itself; nothing leaves such a target.
 */
module AdvancementGraphs {
  import opened Sequences

  type Graph<K> = map<K, seq<K>>

  function Next<K>(g: Graph<K>, v: K): seq<K> {
    if v in g then g[v] else []
  }

  // ----- walks, and what makes a depth right

  ghost predicate IsWalk<K>(g: Graph<K>, p: seq<K>) {
    p != [] && forall i :: 0 <= i < |p| - 1 ==> p[i + 1] in Next(g, p[i])
  }

  ghost predicate WalkFrom<K>(g: Graph<K>, v: K, p: seq<K>) {
    IsWalk(g, p) && p[0] == v
  }

  /** Nothing can be met twice on the way from v. */
  ghost predicate LoopFree<K(!new)>(g: Graph<K>, v: K) {
    forall p :: WalkFrom(g, v, p) ==> NoRepeat(p)
  }

  ghost predicate Attains<K(!new)>(g: Graph<K>, v: K, d: nat) {
    exists p :: WalkFrom(g, v, p) && |p| == d + 1
  }

  /** The longest walk leaving v has d steps. */
  ghost predicate Longest<K(!new)>(g: Graph<K>, v: K, d: nat) {
    Attains(g, v, d) && forall p :: WalkFrom(g, v, p) ==> |p| <= d + 1
  }

  lemma LongestUnique<K(!new)>(g: Graph<K>, v: K, d: nat, d': nat)
    requires Longest(g, v, d) && Longest(g, v, d')
    ensures d == d'
  {
    var p :| WalkFrom(g, v, p) && |p| == d + 1;
    var p' :| WalkFrom(g, v, p') && |p'| == d' + 1;
  }

  lemma PrependWalk<K>(g: Graph<K>, v: K, p: seq<K>)
    requires IsWalk(g, p) && p[0] in Next(g, v)
    ensures WalkFrom(g, v, [v] + p)
  {
  }

  lemma TailWalk<K>(g: Graph<K>, p: seq<K>)
    requires IsWalk(g, p) && |p| >= 2
    ensures WalkFrom(g, p[1], p[1..]) && p[1] in Next(g, p[0])
  {
  }

  lemma JoinWalks<K>(g: Graph<K>, p: seq<K>, q: seq<K>)
    requires IsWalk(g, p) && IsWalk(g, q) && p[|p| - 1] == q[0]
    ensures WalkFrom(g, p[0], p + q[1..])
  {
    var r := p + q[1..];
    forall i | 0 <= i < |r| - 1
      ensures r[i + 1] in Next(g, r[i])
    {
      if i >= |p| - 1 {
        var j := i - (|p| - 1);
        assert r[i] == q[j] && r[i + 1] == q[j + 1];
      }
    }
  }

  lemma LoopFreeNext<K(!new)>(g: Graph<K>, v: K, u: K)
    requires LoopFree(g, v) && u in Next(g, v)
    ensures LoopFree(g, u)
  {
    forall p | WalkFrom(g, u, p)
      ensures NoRepeat(p)
    {
      PrependWalk(g, v, p);
      assert NoRepeat([v] + p);
      assert forall i :: 0 <= i < |p| ==> ([v] + p)[i + 1] == p[i];
    }
  }

  /** A walk that meets something twice can go round again, as often as one likes. */
  lemma {:induction false} GoRound<K(!new)>(g: Graph<K>, p: seq<K>, i: nat, j: nat, n: nat) returns (q: seq<K>)
    requires IsWalk(g, p) && i < j < |p| && p[i] == p[j]
    ensures WalkFrom(g, p[0], q) && |q| > n && q[|q| - 1] == p[j]
  {
    if n == 0 {
      q := p[..j + 1];
    } else {
      var before := GoRound(g, p, i, j, n - 1);
      var round := p[i..j + 1];
      assert IsWalk(g, round);
      JoinWalks(g, before, round);
      q := before + round[1..];
    }
  }

  /** Where a loop can be reached there is no longest walk, so no depth is right. */
  lemma NoLongestThroughLoop<K(!new)>(g: Graph<K>, v: K, d: nat)
    requires !LoopFree(g, v)
    ensures !Longest(g, v, d)
  {
    var p :| WalkFrom(g, v, p) && !NoRepeat(p);
    var i, j :| 0 <= i < j < |p| && p[i] == p[j];
    var q := GoRound(g, p, i, j, d + 1);
  }

  // ----- a rank that drops by one along some rule and never rises is the depth

  /** No rule leads out of the nodes, every rule drops the rank, and some rule by one unless it is 0. */
  ghost predicate IsRank<K(!new)>(g: Graph<K>, nodes: set<K>, rank: K -> nat) {
    && (forall v, u :: v in nodes && u in Next(g, v) ==> u in nodes && rank(u) < rank(v))
    && (forall v :: v in nodes ==> rank(v) == 0 || StepsDown(g, rank, v))
  }

  ghost predicate StepsDown<K(!new)>(g: Graph<K>, rank: K -> nat, v: K) {
    exists u :: u in Next(g, v) && rank(v) == rank(u) + 1
  }

  lemma WalkStep<K>(g: Graph<K>, p: seq<K>, i: nat)
    requires IsWalk(g, p) && i + 1 < |p|
    ensures p[i + 1] in Next(g, p[i])
  {
  }

  lemma RankStep<K(!new)>(g: Graph<K>, nodes: set<K>, rank: K -> nat, v: K, u: K)
    requires IsRank(g, nodes, rank) && v in nodes && u in Next(g, v)
    ensures u in nodes && rank(u) < rank(v)
  {
  }

  lemma {:induction false} RankDropsAlong<K(!new)>(g: Graph<K>, nodes: set<K>, rank: K -> nat, p: seq<K>, i: nat, j: nat)
    requires IsRank(g, nodes, rank) && IsWalk(g, p) && i <= j < |p| && p[i] in nodes
    ensures p[j] in nodes && rank(p[j]) + (j - i) <= rank(p[i])
    decreases j
  {
    hide IsRank, IsWalk, Next;
    if i < j {
      RankDropsAlong(g, nodes, rank, p, i, j - 1);
      WalkStep(g, p, j - 1);
      RankStep(g, nodes, rank, p[j - 1], p[j]);
    }
  }

  lemma {:induction false} RankIsAttained<K(!new)>(g: Graph<K>, nodes: set<K>, rank: K -> nat, v: K) returns (p: seq<K>)
    requires IsRank(g, nodes, rank) && v in nodes
    ensures WalkFrom(g, v, p) && |p| == rank(v) + 1
    decreases rank(v)
  {
    if rank(v) == 0 {
      p := [v];
    } else {
      assert StepsDown(g, rank, v);
      var u :| u in Next(g, v) && rank(v) == rank(u) + 1;
      var q := RankIsAttained(g, nodes, rank, u);
      PrependWalk(g, v, q);
      p := [v] + q;
    }
  }

  lemma RankIsDepth<K(!new)>(g: Graph<K>, nodes: set<K>, rank: K -> nat, v: K)
    requires IsRank(g, nodes, rank) && v in nodes
    ensures LoopFree(g, v) && Longest(g, v, rank(v))
  {
    forall p | WalkFrom(g, v, p)
      ensures NoRepeat(p) && |p| <= rank(v) + 1
    {
      RankDropsAlong(g, nodes, rank, p, 0, |p| - 1);
      forall i, j | 0 <= i < j < |p|
        ensures p[i] != p[j]
      {
        RankDropsAlong(g, nodes, rank, p, 0, i);
        RankDropsAlong(g, nodes, rank, p, i, j);
      }
    }
    var p := RankIsAttained(g, nodes, rank, v);
  }

  // ----- the walk

  /** What is claimed of one measured depth, whatever the graph looks like. */
  ghost predicate RightDepth<K(!new)>(g: Graph<K>, v: K, d: nat) {
    && (d == 0 <==> Next(g, v) == [])
    && (LoopFree(g, v) ==> Longest(g, v, d))
  }

  ghost predicate Sound<K(!new)>(g: Graph<K>, depths: map<K, nat>) {
    forall v :: v in depths ==> RightDepth(g, v, depths[v])
  }

  ghost predicate Leads<K(!new)>(g: Graph<K>, a: K, b: K) {
    exists p :: WalkFrom(g, a, p) && |p| >= 2 && p[|p| - 1] == b
  }

  lemma LeadsOn<K(!new)>(g: Graph<K>, a: K, b: K, c: K)
    requires (a == b || Leads(g, a, b)) && c in Next(g, b)
    ensures Leads(g, a, c)
  {
    if a == b {
      assert WalkFrom(g, a, [b, c]);
    } else {
      var p :| WalkFrom(g, a, p) && |p| >= 2 && p[|p| - 1] == b;
      assert IsWalk(g, [b, c]);
      JoinWalks(g, p, [b, c]);
    }
  }

  lemma LoopThroughItself<K(!new)>(g: Graph<K>, v: K)
    requires Leads(g, v, v)
    ensures !LoopFree(g, v)
  {
    var p :| WalkFrom(g, v, p) && |p| >= 2 && p[|p| - 1] == v;
    assert p[0] == p[|p| - 1];
  }

  /** Every walk whose first step is one of the first i rules has at most d steps. */
  ghost predicate BoundedVia<K(!new)>(g: Graph<K>, v: K, i: nat, d: nat)
    requires i <= |Next(g, v)|
  {
    forall p :: WalkFrom(g, v, p) && |p| >= 2 && p[1] in Next(g, v)[..i] ==> |p| <= d + 1
  }

  lemma OneMoreRule<K(!new)>(g: Graph<K>, v: K, i: nat, d: nat, below: nat)
    requires i < |Next(g, v)| && BoundedVia(g, v, i, d) && Attains(g, v, d) && Longest(g, Next(g, v)[i], below)
    ensures
      var d' := if d >= 1 + below then d else 1 + below;
      Attains(g, v, d') && BoundedVia(g, v, i + 1, d')
  {
    var u := Next(g, v)[i];
    var q :| WalkFrom(g, u, q) && |q| == below + 1;
    PrependWalk(g, v, q);
    assert WalkFrom(g, v, [v] + q) && |[v] + q| == 1 + below + 1;
    forall p | WalkFrom(g, v, p) && |p| >= 2 && p[1] in Next(g, v)[..i + 1]
      ensures |p| <= d + 1 || |p| <= 1 + below + 1
    {
      if p[1] !in Next(g, v)[..i] {
        TailWalk(g, p);
      }
    }
  }

  lemma AllRulesTaken<K(!new)>(g: Graph<K>, v: K, d: nat)
    requires Attains(g, v, d) && BoundedVia(g, v, |Next(g, v)|, d)
    ensures Longest(g, v, d)
  {
    forall p | WalkFrom(g, v, p)
      ensures |p| <= d + 1
    {
      if |p| >= 2 {
        TailWalk(g, p);
      }
    }
  }

  /** The depth of a node and all depths known after measuring it, inside of the nodes being visited. */
  function Measured<K(==)>(g: Graph<K>, key: K, visiting: set<K>, depths: map<K, nat>): (nat, map<K, nat>)
    decreases g.Keys - visiting, 0, 0
  {
    if key in depths then (depths[key], depths)
    else if key in visiting then (0, depths)
    else if Next(g, key) == [] then (0, depths[key := 0])
    else
      var (depth, measured) := MeasuredOver(g, Next(g, key), visiting + {key}, depths);
      (depth, measured[key := depth])
  }

  /** One more than the deepest of some nodes, measured in order. */
  function MeasuredOver<K(==)>(g: Graph<K>, next: seq<K>, visiting: set<K>, depths: map<K, nat>): (nat, map<K, nat>)
    decreases g.Keys - visiting, 1, |next|
  {
    if next == [] then (0, depths)
    else
      var (depth, before) := MeasuredOver(g, next[..|next| - 1], visiting, depths);
      var (below, measured) := Measured(g, next[|next| - 1], visiting, before);
      (if depth >= 1 + below then depth else 1 + below, measured)
  }

  /** The depths known after measuring some nodes in order. */
  function MeasuredAll<K(==)>(g: Graph<K>, nodes: seq<K>): map<K, nat> {
    if nodes == [] then map[]
    else Measured(g, nodes[|nodes| - 1], {}, MeasuredAll(g, nodes[..|nodes| - 1])).1
  }

  ghost predicate Keeps<K(!new)>(depths: map<K, nat>, measured: map<K, nat>) {
    forall v :: v in depths ==> v in measured && measured[v] == depths[v]
  }

  /** The nodes being visited have no depth they did not have before. */
  ghost predicate LeavesOpen<K(!new)>(visiting: set<K>, depths: map<K, nat>, measured: map<K, nat>) {
    forall v :: v in visiting && v in measured ==> v in depths
  }

  ghost predicate AllLead<K(!new)>(g: Graph<K>, visiting: set<K>, key: K) {
    forall a :: a in visiting ==> Leads(g, a, key)
  }

  /** What measuring a node should make of depths that are right so far. */
  ghost predicate Right<K(!new)>(g: Graph<K>, key: K, visiting: set<K>, depths: map<K, nat>, depth: nat, measured: map<K, nat>) {
    && Sound(g, measured) && Keeps(depths, measured) && LeavesOpen(visiting, depths, measured)
    && (key !in visiting ==> key in measured && measured[key] == depth)
    && (LoopFree(g, key) ==> Longest(g, key, depth))
  }

  /** And measuring the first i nodes the rules of another lead to. */
  ghost predicate RightOver<K(!new)>(g: Graph<K>, key: K, visiting: set<K>, i: nat, depths: map<K, nat>, depth: nat, measured: map<K, nat>)
    requires i <= |Next(g, key)|
  {
    && Sound(g, measured) && Keeps(depths, measured) && LeavesOpen(visiting + {key}, depths, measured)
    && (depth == 0 <==> i == 0)
    && (LoopFree(g, key) ==> Attains(g, key, depth) && BoundedVia(g, key, i, depth))
  }

  /** Measuring a node keeps depths right. */
  lemma {:induction false} MeasuredIsRight<K(!new)>(g: Graph<K>, key: K, visiting: set<K>, depths: map<K, nat>)
    requires Sound(g, depths) && AllLead(g, visiting, key)
    ensures var (depth, measured) := Measured(g, key, visiting, depths); Right(g, key, visiting, depths, depth, measured)
    decreases g.Keys - visiting, 0, 0
  {
    if key !in depths && key in visiting {
      LoopThroughItself(g, key);
    } else if key !in depths && Next(g, key) == [] {
      EndIsRight(g, key);
    } else if key !in depths {
      hide Sound, AllLead, Right, RightOver, MeasuredOver;
      var next := Next(g, key);
      assert next[..|next|] == next;
      MeasuredOverIsRight(g, key, visiting, |next|, depths);
      var (depth, measured) := MeasuredOver(g, next, visiting + {key}, depths);
      RightAfterAll(g, key, visiting, depths, depth, measured);
    }
  }

  lemma RightAfterAll<K(!new)>(g: Graph<K>, key: K, visiting: set<K>, depths: map<K, nat>, depth: nat, measured: map<K, nat>)
    requires key !in depths && key !in visiting && Next(g, key) != []
    requires RightOver(g, key, visiting, |Next(g, key)|, depths, depth, measured)
    ensures Right(g, key, visiting, depths, depth, measured[key := depth])
  {
    hide Sound, LoopFree, Longest, BoundedVia, Attains;
    RightOnceOver(g, key, depth);
    SoundWith(g, measured, key, depth);
  }

  lemma EndIsRight<K(!new)>(g: Graph<K>, key: K)
    requires Next(g, key) == []
    ensures RightDepth(g, key, 0) && (LoopFree(g, key) ==> Longest(g, key, 0))
  {
    assert WalkFrom(g, key, [key]);
    if LoopFree(g, key) {
      AllRulesTaken(g, key, 0);
    }
  }

  lemma RightOnceOver<K(!new)>(g: Graph<K>, key: K, d: nat)
    requires Next(g, key) != [] && d > 0
    requires LoopFree(g, key) ==> Attains(g, key, d) && BoundedVia(g, key, |Next(g, key)|, d)
    ensures RightDepth(g, key, d)
  {
    if LoopFree(g, key) {
      AllRulesTaken(g, key, d);
    }
  }

  lemma SoundWith<K(!new)>(g: Graph<K>, depths: map<K, nat>, key: K, d: nat)
    requires Sound(g, depths) && RightDepth(g, key, d)
    ensures Sound(g, depths[key := d])
  {
  }

  lemma LeadFurther<K(!new)>(g: Graph<K>, visiting: set<K>, key: K, u: K)
    requires AllLead(g, visiting, key) && u in Next(g, key)
    ensures AllLead(g, visiting + {key}, u)
  {
    forall a | a in visiting + {key}
      ensures Leads(g, a, u)
    {
      LeadsOn(g, a, key, u);
    }
  }

  /** The same for the first i of the nodes the rules of one node lead to. */
  lemma {:induction false} MeasuredOverIsRight<K(!new)>(g: Graph<K>, key: K, visiting: set<K>, i: nat, depths: map<K, nat>)
    requires Sound(g, depths) && AllLead(g, visiting, key) && key !in visiting && key in g && i <= |Next(g, key)|
    ensures var (depth, measured) := MeasuredOver(g, Next(g, key)[..i], visiting + {key}, depths);
            RightOver(g, key, visiting, i, depths, depth, measured)
    decreases g.Keys - (visiting + {key}), 1, i
  {
    var next := Next(g, key);
    if i == 0 {
      assert WalkFrom(g, key, [key]);
    } else {
      hide Sound, Leads, AllLead, LoopFree, Longest, BoundedVia, Attains, Right, RightOver, Measured, Keeps, LeavesOpen;
      assert next[..i][..i - 1] == next[..i - 1];
      MeasuredOverIsRight(g, key, visiting, i - 1, depths);
      var (depth, before) := MeasuredOver(g, next[..i - 1], visiting + {key}, depths);
      SoundBefore(g, key, visiting, i - 1, depths, depth, before);
      LeadFurther(g, visiting, key, next[i - 1]);
      MeasuredIsRight(g, next[i - 1], visiting + {key}, before);
      var (below, measured) := Measured(g, next[i - 1], visiting + {key}, before);
      RightOverOneMore(g, key, visiting, i - 1, depths, depth, before, below, measured);
      hide MeasuredOver;
    }
  }

  lemma SoundBefore<K(!new)>(g: Graph<K>, key: K, visiting: set<K>, i: nat, depths: map<K, nat>, depth: nat, before: map<K, nat>)
    requires i <= |Next(g, key)| && RightOver(g, key, visiting, i, depths, depth, before)
    ensures Sound(g, before)
  {
  }

  lemma RightOverOneMore<K(!new)>(g: Graph<K>, key: K, visiting: set<K>, i: nat, depths: map<K, nat>,
                                  depth: nat, before: map<K, nat>, below: nat, measured: map<K, nat>)
    requires i < |Next(g, key)| && RightOver(g, key, visiting, i, depths, depth, before)
    requires Right(g, Next(g, key)[i], visiting + {key}, before, below, measured)
    ensures RightOver(g, key, visiting, i + 1, depths, if depth >= 1 + below then depth else 1 + below, measured)
  {
    hide Sound, LoopFree, Longest, BoundedVia, Attains;
    if LoopFree(g, key) {
      LoopFreeNext(g, key, Next(g, key)[i]);
      OneMoreRule(g, key, i, depth, below);
    }
  }

  /**
   * Measures one node, given the nodes the walk is still inside of and what has
   * been measured so far. A node met again while it is being visited answers 0
   * and is not recorded.
   */
  method Walk<K(==, !new)>(g: Graph<K>, key: K, visiting: set<K>, depths: map<K, nat>)
    returns (depth: nat, measured: map<K, nat>)
    ensures (depth, measured) == Measured(g, key, visiting, depths)
    ensures Sound(g, depths) && AllLead(g, visiting, key) ==> Right(g, key, visiting, depths, depth, measured)
    decreases g.Keys - visiting
  {
    hide Sound, AllLead, Right;
    if Sound(g, depths) && AllLead(g, visiting, key) {
      MeasuredIsRight(g, key, visiting, depths);
    }
    if key in depths {
      return depths[key], depths;
    }
    if key in visiting {
      return 0, depths;
    }
    depth, measured := 0, depths;
    var next := Next(g, key);
    for i := 0 to |next|
      invariant (depth, measured) == MeasuredOver(g, next[..i], visiting + {key}, depths)
    {
      assert next[..i + 1][..i] == next[..i];
      var below;
      below, measured := Walk(g, next[i], visiting + {key}, measured);
      depth := if depth >= 1 + below then depth else 1 + below;
    }
    assert next[..|next|] == next;
    measured := measured[key := depth];
  }

  ghost predicate AllMeasured<K>(nodes: seq<K>, depths: map<K, nat>) {
    forall i :: 0 <= i < |nodes| ==> nodes[i] in depths
  }

  lemma OneMoreMeasured<K(!new)>(nodes: seq<K>, last: K, depths: map<K, nat>, measured: map<K, nat>)
    requires AllMeasured(nodes, depths) && Keeps(depths, measured) && last in measured
    ensures AllMeasured(nodes + [last], measured)
  {
  }

  lemma {:induction false} MeasuredAllIsRight<K(!new)>(g: Graph<K>, nodes: seq<K>)
    ensures Sound(g, MeasuredAll(g, nodes)) && AllMeasured(nodes, MeasuredAll(g, nodes))
  {
    if nodes != [] {
      var before, last := nodes[..|nodes| - 1], nodes[|nodes| - 1];
      MeasuredAllIsRight(g, before);
      hide Sound, Measured, LoopFree, Longest, AllMeasured, Keeps, LeavesOpen;
      MeasuredIsRight(g, last, {}, MeasuredAll(g, before));
      OneMoreMeasured(before, last, MeasuredAll(g, before), MeasuredAll(g, nodes));
      assert nodes == before + [last];
    }
  }

  /**
   * Measures every node. On every graph a depth is 0 exactly when nothing leaves
   * the node; where no loop can be reached it is the length of the longest walk.
   */
  method MeasureDepths<K(==, !new)>(nodes: seq<K>, g: Graph<K>) returns (depths: map<K, nat>)
    ensures depths == MeasuredAll(g, nodes)
    ensures forall i :: 0 <= i < |nodes| ==> nodes[i] in depths
    ensures forall v :: v in depths ==> RightDepth(g, v, depths[v])
  {
    depths := map[];
    for i := 0 to |nodes|
      invariant depths == MeasuredAll(g, nodes[..i])
    {
      assert nodes[..i + 1][..i] == nodes[..i];
      var _, measured := Walk(g, nodes[i], {}, depths);
      depths := measured;
    }
    assert nodes[..|nodes|] == nodes;
    MeasuredAllIsRight(g, nodes);
  }

  // ----- on a loop the order decides

  lemma {:induction false} LoopMeasured<K>(a: K, b: K)
    requires a != b
    ensures MeasuredAll(map[a := [b], b := [a]], [a, b]) == map[a := 2, b := 1]
  {
    var g: Graph<K> := map[a := [b], b := [a]];
    assert [a, b][..1] == [a] && [a][..0] == [] && [b][..0] == [];
    assert Measured(g, a, {a} + {b}, map[]) == (0, map[]);
    assert MeasuredOver(g, [a], {a} + {b}, map[]) == (1, map[]);
    assert Measured(g, b, {a}, map[]) == (1, map[b := 1]);
    assert MeasuredOver(g, [b], {a}, map[]) == (2, map[b := 1]);
    assert {} + {a} == {a};
    assert Measured(g, a, {}, map[]) == (2, map[b := 1][a := 2]);
    assert MeasuredAll(g, []) == map[];
    assert MeasuredAll(g, [a]) == map[b := 1][a := 2];
    assert Measured(g, b, {}, MeasuredAll(g, [a])).1 == MeasuredAll(g, [a]);
  }

  /** Two competitions that feed each other: whichever is measured first is the deeper one. */
  lemma LoopsDependOnOrder<K>(a: K, b: K)
    requires a != b
    ensures var g: Graph<K> := map[a := [b], b := [a]];
            && MeasuredAll(g, [a, b]) == map[a := 2, b := 1]
            && MeasuredAll(g, [b, a]) == map[a := 1, b := 2]
  {
    LoopMeasured(a, b);
    LoopMeasured(b, a);
    var g: Graph<K>, g': Graph<K> := map[a := [b], b := [a]], map[b := [a], a := [b]];
    assert g == g';
  }
}
