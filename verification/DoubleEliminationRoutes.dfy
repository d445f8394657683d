/**
 * Where the matches of a double elimination stand and which one leads to which,
 * said of the finished plan: by the numbers of its descriptors, the first-round
 * match a run started from, and the order in which a match is filled.
 */
module DoubleEliminationRoutes {
  import opened Wrappers
  import opened BracketPlans
  import opened DoubleEliminations

  // ----- positions

  lemma {:induction false} RoundStart(w: nat, k: nat)
    requires k <= w
    ensures RoundOffset(w, k) == 2 * Pow2(w) - 2 * Pow2(w - k)
  {
    RoundTotal(w, k);
  }

  lemma LosersStart(w: nat, i: nat)
    requires w >= 1 && i < 2 * w
    ensures LosersOffset(w, i) == 4 * Pow2(w) - 1 - (if i % 2 == 0 then 4 else 3) * Pow2(w - 1 - i / 2)
  {
    LosersTotal(w, i / 2);
    if i % 2 == 1 {
      assert i == 2 * (i / 2) + 1;
      assert LosersOffset(w, i) == LosersOffset(w, i - 1) + LosersSize(w, i - 1);
    }
  }

  /** The descriptor says what the match is, and where in the plan it stands. */
  ghost predicate StandsAt(w: nat, d: Match, id: nat) {
    && d.matchIndex < d.matchCount
    && match d.kind
       case Winners =>
         && d.roundCount == w + 1 && d.roundIndex <= w && d.matchCount == Pow2(w - d.roundIndex)
         && id == 2 * Pow2(w) - 2 * d.matchCount + d.matchIndex
       case Losers =>
         && d.roundCount == 2 * w && d.roundIndex < 2 * w && d.matchCount == Pow2(w - 1 - d.roundIndex / 2)
         && id == 4 * Pow2(w) - 1 - (if d.roundIndex % 2 == 0 then 4 else 3) * d.matchCount + d.matchIndex
       case Final => d.roundCount == 1 && d.roundIndex == 0 && d.matchCount == 1 && id == 4 * Pow2(w) - 3
       case Single => false
  }

  lemma NodeStands(w: nat, v: Node)
    requires w >= 1 && ValidNode(w, v)
    ensures StandsAt(w, Descriptor(w, v), Id(w, v))
  {
    hide LosersOffset, RoundOffset, Pow2;
    match v
    case W(k, m) => RoundStart(w, k);
    case L(i, m) => LosersStart(w, i);
    case GF => LosersTotal(w, w);
  }

  lemma PlanMatchAt(plan: Plan, entrantCount: int, p: nat, w: nat, id: nat)
    requires IsPlan(plan, entrantCount, p, w) && id < |plan.matches|
    ensures w >= 1 && id < |Nodes(w)| && ValidNode(w, Nodes(w)[id]) && Id(w, Nodes(w)[id]) == id
    ensures plan.matches[id] == Descriptor(w, Nodes(w)[id])
  {
    NodeAt(w, id);
    hide Nodes, Descriptor, PlanRoutes, FirstWave, FirstRoundSize, Id;
  }

  /**
   * The plan lists 4n - 2 matches: the winners rounds of n, n/2, ..., 1 matches,
   * the losers rounds of n/2, n/2, n/4, n/4, ..., 1, 1, and the grand final.
   */
  lemma EveryMatchStands(plan: Plan, entrantCount: int, p: nat, w: nat, id: nat)
    requires IsPlan(plan, entrantCount, p, w)
    ensures |plan.matches| == 4 * Pow2(w) - 2
    ensures id < |plan.matches| ==> StandsAt(w, plan.matches[id], id)
  {
    MatchCount(w);
    if id < |plan.matches| {
      PlanMatchAt(plan, entrantCount, p, w, id);
      NodeStands(w, Nodes(w)[id]);
      hide StandsAt, Descriptor, Nodes, IsPlan;
    }
  }

  // ----- from the first round on

  /** The first time a run finishes in the bottom half of a match. */
  ghost predicate LostAt(h: nat, run: seq<Route>, j: nat) {
    j < |run| && run[j].placement > h && forall i :: 0 <= i < j ==> run[i].placement <= h
  }

  /** The k-th and last losers round a run has come to is settled by when it lost. */
  ghost predicate LostInTime(h: nat, run: seq<Route>, i: nat) {
    forall j: nat :: LostAt(h, run, j) ==> i + 1 == |run| + if j == 0 then 0 else j - 1
  }

  ghost predicate Unbeaten(h: nat, run: seq<Route>) {
    forall j :: 0 <= j < |run| ==> run[j].placement <= h
  }

  /** Where a run that started in first-round match x can be. */
  ghost predicate ReachesNode(h: nat, run: seq<Route>, x: nat, v: Node) {
    match v
    case W(k, m) => k == |run| && m == x / Pow2(k) && Unbeaten(h, run)
    case L(i, m) => m == x / Pow2(i / 2 + 1) && LostInTime(h, run, i)
    case GF => true
  }

  /** One route further from a place of a node a run has come to. */
  lemma StepFurther(w: nat, h: nat, run: seq<Route>, x: nat, u: Node, last: Route, v: Node)
    requires w >= 1 && h >= 1 && ReachesNode(h, run, x, u) && (run == [] ==> u == W(0, x)) && last.placement >= 1
    requires ValidPort(w, h, Port(u, last.placement - 1)) && Dest(w, h, Port(u, last.placement - 1)).Some?
    requires Dest(w, h, Port(u, last.placement - 1)).value.node == v
    ensures ReachesNode(h, run + [last], x, v)
  {
    var all := run + [last];
    match u {
      case W(k, m) =>
        QuotientTwice(x, k);
        if v.L? && k > 0 {
          assert (2 * k - 1) / 2 + 1 == k;
        }
      case L(i, m) =>
        QuotientTwice(x, i / 2 + 1);
        assert if i % 2 == 0 then (i + 1) / 2 == i / 2 else (i + 1) / 2 == i / 2 + 1;
    }
    forall j: nat | LostAt(h, all, j)
      ensures j < |run| ==> LostAt(h, run, j)
      ensures u.L? ==> j < |run|
      ensures u.W? ==> j == |run|
    {
      assert forall i :: 0 <= i < |run| ==> all[i] == run[i];
      assert all[|run|] == last;
    }
  }

  lemma {:induction false} RunReaches(w: nat, h: nat, run: seq<Route>)
    requires w >= 1 && h >= 1 && Chain(w, h, run)
    ensures var last := run[|run| - 1]; last.target < |Nodes(w)| && ReachesNode(h, run, run[0].source, Nodes(w)[last.target])
  {
    hide PlanRoutes, Nodes, Id, ReachesNode, Dest, IsRun;
    LastOfRun(PlanRoutes(w, h), RoundSize(w, 0), run);
    var before, last := run[..|run| - 1], run[|run| - 1];
    RouteEnds(w, h, last);
    if before == [] {
      FirstRoundIds(w, last.source);
      StartsUnbeaten(h, last.source);
    } else {
      RunReaches(w, h, before);
    }
    StepFurther(w, h, before, run[0].source, Nodes(w)[last.source], last, Nodes(w)[last.target]);
  }

  lemma StartsUnbeaten(h: nat, x: nat)
    ensures ReachesNode(h, [], x, W(0, x))
  {
    assert x / Pow2(0) == x;
  }

  /** Where a run that started in first-round match x can be, by the descriptor of the match it has entered. */
  ghost predicate ReachesMatch(h: nat, run: seq<Route>, x: nat, d: Match) {
    match d.kind
    case Winners => d.roundIndex == |run| && d.matchIndex == x / Pow2(d.roundIndex) && Unbeaten(h, run)
    case Losers => d.matchIndex == x / Pow2(d.roundIndex / 2 + 1) && LostInTime(h, run, d.roundIndex)
    case Final => true
    case Single => false
  }

  /**
   * A run that started in first-round match x has come, unbeaten, to match x / 2^k
   * of winners round k after k routes. After its loss it is in match
   * x / 2^(i / 2 + 1) of losers round i; a loss in the first round leads into
   * losers round 0, one in winners round k > 0 into losers round 2k - 1, and every
   * route after that into the next.
   */
  lemma RunLandsOn(plan: Plan, entrantCount: int, p: nat, w: nat, run: seq<Route>)
    requires IsPlan(plan, entrantCount, p, w) && IsRun(plan.routes, Pow2(w), run)
    ensures var last := run[|run| - 1];
            last.target < |plan.matches| && ReachesMatch(p / 2, run, run[0].source, plan.matches[last.target])
  {
    hide IsRun, PlanRoutes, ReachesNode, ReachesMatch, StandsAt, Descriptor, Nodes, Pow2;
    PlanRuns(plan, entrantCount, p, w, run);
    var last := run[|run| - 1];
    hide IsPlan;
    RunReaches(w, p / 2, run);
    NodeAt(w, last.target);
    PlanMatchAt(plan, entrantCount, p, w, last.target);
    NodeDescribed(w, p / 2, run, run[0].source, Nodes(w)[last.target]);
  }

  lemma PlanRuns(plan: Plan, entrantCount: int, p: nat, w: nat, run: seq<Route>)
    requires IsPlan(plan, entrantCount, p, w) && IsRun(plan.routes, Pow2(w), run)
    ensures w >= 1 && p / 2 >= 1 && Chain(w, p / 2, run) && run != [] && |plan.matches| == |Nodes(w)|
  {
    hide IsRun, PlanRoutes, Nodes, FirstWave, FirstRoundSize;
    assert run != [] by { LastOfRun(plan.routes, Pow2(w), run); }
  }

  lemma NodeDescribed(w: nat, h: nat, run: seq<Route>, x: nat, v: Node)
    requires ValidNode(w, v) && ReachesNode(h, run, x, v)
    ensures ReachesMatch(h, run, x, Descriptor(w, v))
  {
    hide Unbeaten, LostInTime, Pow2;
  }

  // ----- the order in which a match is filled

  /** Whose finisher gets the lower slot of two routes into one match. */
  ghost predicate SeatedFirst(d: Match, r: Route, r': Route) {
    if r.source == r'.source then r.placement < r'.placement
    else if d.kind == Losers && d.roundIndex % 2 == 1 then r'.source < r.source
    else r.source < r'.source
  }

  lemma PortsInOrder(w: nat, h: nat, x: Port, y: Port, x': Port, y': Port)
    requires w >= 1 && h >= 1 && ValidPort(w, h, x) && ValidPort(w, h, x') && ValidPort(w, h, y) && ValidPort(w, h, y')
    requires Dest(w, h, x) == Some(y) && Dest(w, h, x') == Some(y') && y.node == y'.node && y.index < y'.index
    ensures if x.node == x'.node then x.index < x'.index
            else if y.node.L? && y.node.i % 2 == 1 then DoubleEliminations.Before(x'.node, x.node)
            else DoubleEliminations.Before(x.node, x'.node)
  {
    OriginOfDest(w, h, x);
    OriginOfDest(w, h, x');
    hide Dest, RoundSize, LosersSize, ValidNode;
    match y.node
    case W(_, _) =>
    case L(_, _) =>
    case GF =>
  }

  lemma PlanPorts(plan: Plan, entrantCount: int, p: nat, w: nat, r: Route) returns (x: Port, y: Port)
    requires IsPlan(plan, entrantCount, p, w) && r in plan.routes
    ensures w >= 1 && p / 2 >= 1 && ValidPort(w, p / 2, x) && ValidPort(w, p / 2, y) && Dest(w, p / 2, x) == Some(y)
    ensures r == Route(Id(w, x.node), x.index + 1, Id(w, y.node), y.index + 1)
    ensures r.target < |plan.matches| && plan.matches[r.target] == Descriptor(w, y.node)
  {
    hide PlanRoutes, Nodes, Id, Dest, Descriptor, FirstWave, FirstRoundSize;
    x, y := RouteOfTraveller(w, p / 2, r);
    NodeIdInRange(w, y.node);
    PlanMatchAt(plan, entrantCount, p, w, r.target);
  }

  lemma PortsSeated(w: nat, h: nat, x: Port, y: Port, x': Port, y': Port, r: Route, r': Route)
    requires w >= 1 && h >= 1 && ValidPort(w, h, x) && ValidPort(w, h, x') && ValidPort(w, h, y) && ValidPort(w, h, y')
    requires Dest(w, h, x) == Some(y) && Dest(w, h, x') == Some(y') && y.node == y'.node && y.index < y'.index
    requires r == Route(Id(w, x.node), x.index + 1, Id(w, y.node), y.index + 1)
    requires r' == Route(Id(w, x'.node), x'.index + 1, Id(w, y'.node), y'.index + 1)
    ensures SeatedFirst(Descriptor(w, y.node), r, r') && !SeatedFirst(Descriptor(w, y.node), r', r)
  {
    PortsInOrder(w, h, x, y, x', y');
    hide Dest, Id, RoundSize, LosersSize;
    if x.node != x'.node {
      if DoubleEliminations.Before(x.node, x'.node) {
        IdIncreases(w, x.node, x'.node);
      } else {
        IdIncreases(w, x'.node, x.node);
      }
    }
  }

  /**
   * Of two routes into one match the lower slot belongs to the earlier of the two
   * matches they leave, in a drop round to the one from the losers side; routes
   * that leave one match keep the order of their places.
   */
  lemma SlotsInOrder(plan: Plan, entrantCount: int, p: nat, w: nat, r: Route, r': Route)
    requires IsPlan(plan, entrantCount, p, w) && r in plan.routes && r' in plan.routes && r.target == r'.target
    ensures r.target < |plan.matches| && (r.slot < r'.slot <==> SeatedFirst(plan.matches[r.target], r, r'))
  {
    hide IsPlan, Dest, Id, Descriptor, SeatedFirst, ValidNode;
    var x, y := PlanPorts(plan, entrantCount, p, w, r);
    var x', y' := PlanPorts(plan, entrantCount, p, w, r');
    IdInjective(w, y.node, y'.node);
    if y.index < y'.index {
      PortsSeated(w, p / 2, x, y, x', y', r, r');
    } else if y'.index < y.index {
      PortsSeated(w, p / 2, x', y', x, y, r', r);
    } else {
      OriginOfDest(w, p / 2, x);
      OriginOfDest(w, p / 2, x');
      NotBeforeItself(plan.matches[r.target], r);
    }
  }

  lemma NotBeforeItself(d: Match, r: Route)
    ensures !SeatedFirst(d, r, r)
  {
  }

  // ----- seats and byes

  /**
   * Every entrant has a seat, the byes are the slots of the first round without
   * one, and half as many first-round matches would not have been enough, unless
   * there are only two.
   */
  lemma SeatsAndByes(plan: Plan, entrantCount: nat, p: nat, w: nat)
    requires IsPlan(plan, entrantCount, p, w)
    ensures |plan.seats| == plan.entrantCount == entrantCount && |plan.seats| + plan.byes == Pow2(w) * p && plan.byes >= 0
    ensures w > 1 ==> Pow2(w - 1) * p < entrantCount
  {
    hide PlanRoutes, FirstWave;
    if w > 1 {
      assert Pow2(w) == 2 * Pow2(w - 1);
      assert !(Pow2(w - 1) >= Pow2(w));
    }
  }
}
