/**
 * Every route of a double elimination, from both of its ends.
 *
 * A bracket has 2^w first-round matches of 2h players. Its matches are addressed
 * by side, round and position; `Dest` says where a finisher of a match goes and
 * `Origin` says, independently, who arrives in a slot. The generator is proved
 * to write exactly the routes of `Dest`, and the two are proved inverse.
 */
module DoubleEliminations {
  import opened Wrappers
  import opened BracketPlans
  import opened Sequences

  datatype Node =
    | W(k: nat, m: nat)  // winners round k, match m
    | L(i: nat, m: nat)  // losers round i, match m
    | GF                 // grand final

  /** A slot of a match, or a finishing place in it, counting from zero. */
  datatype Port = Port(node: Node, index: nat)

  // ----- the shape

  function LosersSize(w: nat, i: nat): nat
    requires i < 2 * w
  {
    Pow2(w - 1 - i / 2)
  }

  ghost predicate ValidNode(w: nat, v: Node) {
    match v
    case W(k, m) => k <= w && m < RoundSize(w, k)
    case L(i, m) => i < 2 * w && m < LosersSize(w, i)
    case GF => true
  }

  ghost predicate ValidPort(w: nat, h: nat, x: Port) {
    ValidNode(w, x.node) && x.index < 2 * h
  }

  function LosersOffset(w: nat, i: nat): nat
    requires i <= 2 * w
  {
    if i == 0 then RoundOffset(w, w + 1) else LosersOffset(w, i - 1) + LosersSize(w, i - 1)
  }

  /** Matches are numbered round by round: winners, then losers, then the grand final. */
  ghost function Id(w: nat, v: Node): nat
    requires ValidNode(w, v)
  {
    match v
    case W(k, m) => RoundOffset(w, k) + m
    case L(i, m) => LosersOffset(w, i) + m
    case GF => LosersOffset(w, 2 * w)
  }

  // ----- where everybody goes, and where everybody comes from

  /** Matches pair up: the even one of a pair fills the lower half of the slots, the odd one the upper half. */
  function HalfBase(h: nat, m: nat): nat {
    if m % 2 == 0 then 0 else h
  }

  lemma HalfBaseIsProduct(h: nat, m: nat)
    ensures HalfBase(h, m) == (m % 2) * h
  {
    if m % 2 == 0 {
      assert (m % 2) * h == 0 * h == 0;
    } else {
      assert (m % 2) * h == 1 * h == h;
    }
  }

  /** Where the finisher of place x.index in match x.node plays next. */
  ghost function Dest(w: nat, h: nat, x: Port): Option<Port>
    requires w >= 1 && ValidPort(w, h, x)
  {
    var q := x.index;
    match x.node
    case W(k, m) =>
      if q < h then
        if k < w then Some(Port(W(k + 1, m / 2), HalfBase(h, m) + q)) else Some(Port(GF, q))
      else
        if k == 0 then Some(Port(L(0, m / 2), HalfBase(h, m) + q - h)) else Some(Port(L(2 * k - 1, m), q))
    case L(i, m) =>
      if q >= h then None
      else if i == 2 * w - 1 then Some(Port(GF, h + q))
      else if i % 2 == 0 then Some(Port(L(i + 1, m), q))
      else Some(Port(L(i + 1, m / 2), HalfBase(h, m) + q))
    case GF => None
  }

  /** The earlier match that fills slot s of match m: the lower half of the slots comes from the even one. */
  function PairedWith(h: nat, m: nat, s: nat): nat {
    if s < h then 2 * m else 2 * m + 1
  }

  function WithinHalf(h: nat, s: nat): nat {
    if s < h then s else s - h
  }

  /** Who arrives in slot x.index of match x.node: nobody, for the first winners round. */
  ghost function Origin(w: nat, h: nat, x: Port): Option<Port>
    requires w >= 1 && h >= 1 && ValidPort(w, h, x)
  {
    var s := x.index;
    match x.node
    case W(k, m) => if k == 0 then None else Some(Port(W(k - 1, PairedWith(h, m, s)), WithinHalf(h, s)))
    case L(i, m) =>
      if i == 0 then Some(Port(W(0, PairedWith(h, m, s)), h + WithinHalf(h, s)))
      else if i % 2 == 0 then Some(Port(L(i - 1, PairedWith(h, m, s)), WithinHalf(h, s)))
      else if s < h then Some(Port(L(i - 1, m), s))
      else Some(Port(W((i + 1) / 2, m), s))
    case GF => if s < h then Some(Port(W(w, 0), s)) else Some(Port(L(2 * w - 1, 0), s - h))
  }

  /** How the sizes of neighbouring rounds relate: winners rounds halve, losers rounds halve every other time. */
  lemma WinnersSizes(w: nat, k: nat)
    requires w >= 1 && k <= w
    ensures RoundSize(w, w) == 1
    ensures k < w ==> RoundSize(w, k) == 2 * RoundSize(w, k + 1)
    ensures k > 0 ==> LosersSize(w, 2 * k - 1) == RoundSize(w, k)
    ensures 2 * LosersSize(w, 0) == RoundSize(w, 0)
  {
    if k > 0 {
      assert (2 * k - 1) / 2 == k - 1;
    }
  }

  lemma LosersSizes(w: nat, i: nat)
    requires w >= 1 && i < 2 * w
    ensures LosersSize(w, 2 * w - 1) == 1
    ensures i < 2 * w - 1 && i % 2 == 0 ==> LosersSize(w, i + 1) == LosersSize(w, i)
    ensures i < 2 * w - 1 && i % 2 == 1 ==> LosersSize(w, i) == 2 * LosersSize(w, i + 1)
  {
    assert (2 * w - 1) / 2 == w - 1;
    if i % 2 == 0 {
      assert (i + 1) / 2 == i / 2;
    } else {
      assert (i + 1) / 2 == i / 2 + 1;
    }
  }

  /** Every finisher who goes anywhere lands in a real slot, and `Origin` names them as its arrival. */
  lemma OriginOfDest(w: nat, h: nat, x: Port)
    requires w >= 1 && h >= 1 && ValidPort(w, h, x) && Dest(w, h, x).Some?
    ensures ValidPort(w, h, Dest(w, h, x).value)
    ensures Origin(w, h, Dest(w, h, x).value) == Some(x)
  {
    hide RoundSize, LosersSize;
    match x.node
    case W(k, m) => WinnersSizes(w, k);
    case L(i, m) => LosersSizes(w, i);
    case GF =>
  }

  /** Every slot with an arrival is where that finisher goes. */
  lemma DestOfOrigin(w: nat, h: nat, y: Port)
    requires w >= 1 && h >= 1 && ValidPort(w, h, y) && Origin(w, h, y).Some?
    ensures ValidPort(w, h, Origin(w, h, y).value)
    ensures Dest(w, h, Origin(w, h, y).value) == Some(y)
  {
    hide RoundSize, LosersSize;
    match y.node {
      case W(k, m) => WinnersSizes(w, k - 1);
      case L(i, m) =>
        WinnersSizes(w, (i + 1) / 2);
        if i > 0 {
          LosersSizes(w, i - 1);
        }
      case GF => WinnersSizes(w, w); LosersSizes(w, 2 * w - 1);
    }
  }

  // ----- identifiers

  lemma {:induction false} LosersOffsetStep(w: nat, i: nat, i': nat)
    requires i < i' <= 2 * w
    ensures LosersOffset(w, i) + LosersSize(w, i) <= LosersOffset(w, i')
    decreases i'
  {
    if i < i' - 1 {
      LosersOffsetStep(w, i, i' - 1);
    }
  }

  lemma {:induction false} LosersAfterWinners(w: nat, i: nat)
    requires i <= 2 * w
    ensures LosersOffset(w, i) >= RoundOffset(w, w + 1)
  {
    if i > 0 {
      LosersAfterWinners(w, i - 1);
    }
  }

  /** An earlier match of the plan has a smaller identifier. */
  ghost predicate Before(u: Node, v: Node) {
    match u
    case W(k, m) => !v.W? || k < v.k || (k == v.k && m < v.m)
    case L(i, m) => v.GF? || (v.L? && (i < v.i || (i == v.i && m < v.m)))
    case GF => false
  }

  lemma IdIncreases(w: nat, u: Node, v: Node)
    requires ValidNode(w, u) && ValidNode(w, v) && Before(u, v)
    ensures Id(w, u) < Id(w, v)
  {
    match u {
      case W(k, m) =>
        RoundOffsetStep(w, k, if v.W? && k < v.k then v.k else w + 1);
        LosersAfterWinners(w, if v.L? then v.i else 2 * w);
      case L(i, m) =>
        LosersOffsetStep(w, i, if v.L? && i < v.i then v.i else 2 * w);
    }
  }

  /** No two matches share an identifier. */
  lemma IdInjective(w: nat, u: Node, v: Node)
    requires ValidNode(w, u) && ValidNode(w, v)
    requires Id(w, u) == Id(w, v)
    ensures u == v
  {
    if Before(u, v) {
      IdIncreases(w, u, v);
    } else if Before(v, u) {
      IdIncreases(w, v, u);
    }
  }

  // ----- the plan, in the order the generator writes it

  /** The first `count` matches of a winners round. */
  function WinnersRow(k: nat, count: nat): seq<Node> {
    seq(count, (m: nat) => W(k, m))
  }

  function LosersRow(i: nat, count: nat): seq<Node> {
    seq(count, (m: nat) => L(i, m))
  }

  function WinnersNodes(w: nat, k: nat): (s: seq<Node>)
    requires k <= w + 1
    ensures |s| == RoundOffset(w, k)
  {
    if k == 0 then [] else WinnersNodes(w, k - 1) + WinnersRow(k - 1, RoundSize(w, k - 1))
  }

  /** All winners matches, and the losers matches of the first i rounds. */
  function LosersNodes(w: nat, i: nat): (s: seq<Node>)
    requires i <= 2 * w
    ensures |s| == LosersOffset(w, i)
  {
    if i == 0 then WinnersNodes(w, w + 1) else LosersNodes(w, i - 1) + LosersRow(i - 1, LosersSize(w, i - 1))
  }

  function Nodes(w: nat): seq<Node> {
    LosersNodes(w, 2 * w) + [GF]
  }

  function Descriptor(w: nat, v: Node): Match
    requires ValidNode(w, v)
  {
    match v
    case W(k, m) => Match(Winners, k, w + 1, m, RoundSize(w, k))
    case L(i, m) => Match(Losers, i, 2 * w, m, LosersSize(w, i))
    case GF => Match(Final, 0, 1, 0, 1)
  }

  lemma {:induction false} WinnersNodeAt(w: nat, k: nat, j: nat)
    requires k <= w + 1 && j < |WinnersNodes(w, k)|
    ensures WinnersNodes(w, k)[j].W? && WinnersNodes(w, k)[j].k < k
    ensures ValidNode(w, WinnersNodes(w, k)[j]) && Id(w, WinnersNodes(w, k)[j]) == j
  {
    if j < |WinnersNodes(w, k - 1)| {
      WinnersNodeAt(w, k - 1, j);
    }
  }

  lemma {:induction false} LosersNodeAt(w: nat, i: nat, j: nat)
    requires i <= 2 * w && j < |LosersNodes(w, i)|
    ensures ValidNode(w, LosersNodes(w, i)[j]) && Id(w, LosersNodes(w, i)[j]) == j
  {
    if i == 0 {
      WinnersNodeAt(w, w + 1, j);
    } else if j < |LosersNodes(w, i - 1)| {
      LosersNodeAt(w, i - 1, j);
    }
  }

  /** The j-th match of the plan is the one whose identifier is j. */
  lemma NodeAt(w: nat, j: nat)
    requires j < |Nodes(w)|
    ensures ValidNode(w, Nodes(w)[j]) && Id(w, Nodes(w)[j]) == j
  {
    if j < |Nodes(w)| - 1 {
      LosersNodeAt(w, 2 * w, j);
    }
  }

  lemma NodeIdInRange(w: nat, v: Node)
    requires ValidNode(w, v)
    ensures Id(w, v) < |Nodes(w)| && Nodes(w)[Id(w, v)] == v
  {
    match v {
      case W(k, m) => RoundOffsetStep(w, k, w + 1); LosersAfterWinners(w, 2 * w);
      case L(i, m) => LosersOffsetStep(w, i, 2 * w);
      case GF =>
    }
    NodeAt(w, Id(w, v));
    IdInjective(w, v, Nodes(w)[Id(w, v)]);
  }

  ghost function RouteOf(w: nat, h: nat, x: Port): Route
    requires w >= 1 && h >= 1 && ValidPort(w, h, x) && Dest(w, h, x).Some?
  {
    OriginOfDest(w, h, x);
    var y := Dest(w, h, x).value;
    Route(Id(w, x.node), x.index + 1, Id(w, y.node), y.index + 1)
  }

  ghost predicate Sender(w: nat, h: nat, x: Port)
    requires w >= 1
  {
    ValidPort(w, h, x) && Dest(w, h, x).Some?
  }

  /**
   * The finishing places of one match that go somewhere, in the order they are
   * written: a winners match alternates between its top and its bottom half.
   */
  ghost function Senders(h: nat, v: Node): seq<Port> {
    match v
    case W(_, _) => seq(2 * h, (j: nat) => Port(v, if j % 2 == 0 then j / 2 else h + j / 2))
    case L(_, _) => seq(h, (j: nat) => Port(v, j))
    case GF => []
  }

  ghost function AllSenders(h: nat, nodes: seq<Node>): seq<Port> {
    if nodes == [] then []
    else AllSenders(h, nodes[..|nodes| - 1]) + Senders(h, nodes[|nodes| - 1])
  }

  ghost function RoutesOf(w: nat, h: nat, xs: seq<Port>): seq<Route>
    requires w >= 1 && h >= 1 && forall i :: 0 <= i < |xs| ==> Sender(w, h, xs[i])
  {
    seq(|xs|, (i: nat) requires i < |xs| && Sender(w, h, xs[i]) => RouteOf(w, h, xs[i]))
  }

  lemma SendersOfMatch(w: nat, h: nat, v: Node, x: Port)
    requires w >= 1 && ValidNode(w, v)
    ensures x in Senders(h, v) <==> x.node == v && Sender(w, h, x)
  {
    if x.node == v && Sender(w, h, x) {
      var j := if v.L? then x.index else if x.index < h then 2 * x.index else 2 * (x.index - h) + 1;
      assert Senders(h, v)[j] == x;
    }
  }

  lemma {:induction false} SendersOfNodes(w: nat, h: nat, nodes: seq<Node>, x: Port)
    requires w >= 1 && forall v :: v in nodes ==> ValidNode(w, v)
    ensures x in AllSenders(h, nodes) <==> x.node in nodes && Sender(w, h, x)
  {
    if nodes != [] {
      var before, last := nodes[..|nodes| - 1], nodes[|nodes| - 1];
      assert nodes == before + [last];
      SendersOfNodes(w, h, before, x);
      SendersOfMatch(w, h, last, x);
    }
  }

  lemma {:induction false} SendersDistinct(w: nat, h: nat, nodes: seq<Node>)
    requires w >= 1 && NoRepeat(nodes) && forall v :: v in nodes ==> ValidNode(w, v)
    ensures NoRepeat(AllSenders(h, nodes))
  {
    if nodes != [] {
      var before, last := nodes[..|nodes| - 1], nodes[|nodes| - 1];
      SendersDistinct(w, h, before);
      forall x | x in Senders(h, last)
        ensures x !in AllSenders(h, before)
      {
        SendersOfNodes(w, h, before, x);
        SendersOfMatch(w, h, last, x);
      }
      NoRepeatAppend(AllSenders(h, before), Senders(h, last));
    }
  }

  lemma NodesAreDistinct(w: nat)
    ensures forall v :: v in Nodes(w) <==> ValidNode(w, v)
    ensures NoRepeat(Nodes(w))
  {
    forall v
      ensures v in Nodes(w) <==> ValidNode(w, v)
    {
      if v in Nodes(w) {
        var j :| 0 <= j < |Nodes(w)| && Nodes(w)[j] == v;
        NodeAt(w, j);
      } else if ValidNode(w, v) {
        NodeIdInRange(w, v);
      }
    }
    forall i, j | 0 <= i < j < |Nodes(w)|
      ensures Nodes(w)[i] != Nodes(w)[j]
    {
      NodeAt(w, i);
      NodeAt(w, j);
    }
  }

  /** Everybody who goes anywhere, once each, in the order the routes are written. */
  ghost function Travellers(w: nat, h: nat): (xs: seq<Port>)
    requires w >= 1
    ensures NoRepeat(xs)
    ensures forall x :: x in xs <==> Sender(w, h, x)
    ensures forall i :: 0 <= i < |xs| ==> Sender(w, h, xs[i])
  {
    NodesAreDistinct(w);
    SendersDistinct(w, h, Nodes(w));
    var xs := AllSenders(h, Nodes(w));
    assert forall x :: x in xs <==> Sender(w, h, x) by {
      forall x: Port
        ensures x in xs <==> Sender(w, h, x)
      {
        SendersOfNodes(w, h, Nodes(w), x);
      }
    }
    assert forall i :: 0 <= i < |xs| ==> xs[i] in xs;
    xs
  }

  ghost function PlanRoutes(w: nat, h: nat): seq<Route>
    requires w >= 1 && h >= 1
  {
    RoutesOf(w, h, Travellers(w, h))
  }

  /** Two routes that leave the same place of the same match are the same route. */
  lemma RouteSourceUnique(w: nat, h: nat, i: nat, j: nat)
    requires w >= 1 && h >= 1 && i < |PlanRoutes(w, h)| && j < |PlanRoutes(w, h)|
    requires PlanRoutes(w, h)[i].source == PlanRoutes(w, h)[j].source
    requires PlanRoutes(w, h)[i].placement == PlanRoutes(w, h)[j].placement
    ensures i == j
  {
    var x, y := Travellers(w, h)[i], Travellers(w, h)[j];
    IdInjective(w, x.node, y.node);
  }

  /** A finishing place is carried onwards exactly once, unless the bracket is over for it. */
  lemma PlaceSentOnce(w: nat, h: nat, x: Port)
    requires w >= 1 && h >= 1 && ValidPort(w, h, x)
    ensures x.node.W? || (x.node.L? && x.index < h) ==> SentOnce(PlanRoutes(w, h), Id(w, x.node), x.index + 1)
    ensures x.node.GF? || (x.node.L? && x.index >= h) ==> NeverSent(PlanRoutes(w, h), Id(w, x.node), x.index + 1)
  {
    if Dest(w, h, x).Some? {
      TravellerSentOnce(w, h, x);
    } else {
      OthersNeverSent(w, h, x);
    }
  }

  lemma TravellerSentOnce(w: nat, h: nat, x: Port)
    requires w >= 1 && h >= 1 && ValidPort(w, h, x) && Dest(w, h, x).Some?
    ensures SentOnce(PlanRoutes(w, h), Id(w, x.node), x.index + 1)
  {
    var routes, xs := PlanRoutes(w, h), Travellers(w, h);
    assert Sender(w, h, x);
    var i :| 0 <= i < |xs| && xs[i] == x;
    assert Sends(routes[i], Id(w, x.node), x.index + 1);
    forall j | 0 <= j < |routes| && Sends(routes[j], Id(w, x.node), x.index + 1)
      ensures j == i
    {
      RouteSourceUnique(w, h, i, j);
    }
  }

  lemma OthersNeverSent(w: nat, h: nat, x: Port)
    requires w >= 1 && h >= 1 && ValidPort(w, h, x) && Dest(w, h, x).None?
    ensures NeverSent(PlanRoutes(w, h), Id(w, x.node), x.index + 1)
  {
    var routes, xs := PlanRoutes(w, h), Travellers(w, h);
    forall r | r in routes
      ensures !Sends(r, Id(w, x.node), x.index + 1)
    {
      var j :| 0 <= j < |routes| && routes[j] == r;
      if Sends(r, Id(w, x.node), x.index + 1) {
        IdInjective(w, xs[j].node, x.node);
      }
    }
  }

  lemma FeederIsOrigin(w: nat, h: nat, y: Port, j: nat)
    requires w >= 1 && h >= 1 && ValidPort(w, h, y) && j < |PlanRoutes(w, h)|
    requires Feeds(PlanRoutes(w, h)[j], Id(w, y.node), y.index + 1)
    ensures Origin(w, h, y) == Some(Travellers(w, h)[j])
  {
    var x := Travellers(w, h)[j];
    OriginOfDest(w, h, x);
    IdInjective(w, Dest(w, h, x).value.node, y.node);
  }

  /** Every slot outside the first winners round is filled by exactly one route, and no slot of that round is. */
  lemma SlotFedOnce(w: nat, h: nat, y: Port)
    requires w >= 1 && h >= 1 && ValidPort(w, h, y)
    ensures !(y.node.W? && y.node.k == 0) ==> FedOnce(PlanRoutes(w, h), Id(w, y.node), y.index + 1)
    ensures y.node.W? && y.node.k == 0 ==> NeverFed(PlanRoutes(w, h), Id(w, y.node), y.index + 1)
  {
    var routes, id := PlanRoutes(w, h), Id(w, y.node);
    if Origin(w, h, y).Some? {
      var i := RouteIntoSlot(w, h, y);
      forall j | 0 <= j < |routes| && Feeds(routes[j], id, y.index + 1)
        ensures j == i
      {
        FeederIsOrigin(w, h, y, j);
      }
    } else {
      forall r | r in routes
        ensures !Feeds(r, id, y.index + 1)
      {
        var j :| 0 <= j < |routes| && routes[j] == r;
        if Feeds(r, id, y.index + 1) {
          FeederIsOrigin(w, h, y, j);
        }
      }
    }
  }

  lemma RouteIntoSlot(w: nat, h: nat, y: Port) returns (i: nat)
    requires w >= 1 && h >= 1 && ValidPort(w, h, y) && Origin(w, h, y).Some?
    ensures i < |PlanRoutes(w, h)| && Travellers(w, h)[i] == Origin(w, h, y).value
    ensures Feeds(PlanRoutes(w, h)[i], Id(w, y.node), y.index + 1)
  {
    DestOfOrigin(w, h, y);
    var x, xs := Origin(w, h, y).value, Travellers(w, h);
    assert Sender(w, h, x);
    i :| 0 <= i < |xs| && xs[i] == x;
  }

  // ----- two losses

  /** A run through the bracket. */
  ghost predicate Chain(w: nat, h: nat, run: seq<Route>)
    requires w >= 1 && h >= 1
  {
    IsRun(PlanRoutes(w, h), RoundSize(w, 0), run)
  }

  /** How often the run finished in the bottom half of a match. */
  ghost function Losses(h: nat, run: seq<Route>): nat {
    if run == [] then 0
    else Losses(h, run[..|run| - 1]) + if run[|run| - 1].placement > h then 1 else 0
  }

  /** The losses somebody has when they sit in that slot. */
  ghost function LossesAt(h: nat, y: Port): nat {
    match y.node
    case W(_, _) => 0
    case L(_, _) => 1
    case GF => if y.index < h then 0 else 1
  }

  lemma RouteEnds(w: nat, h: nat, r: Route)
    requires w >= 1 && h >= 1 && r in PlanRoutes(w, h)
    ensures r.placement >= 1 && r.slot >= 1 && r.source < |Nodes(w)| && r.target < |Nodes(w)|
    ensures
      var x, y := Port(Nodes(w)[r.source], r.placement - 1), Port(Nodes(w)[r.target], r.slot - 1);
      ValidPort(w, h, x) && ValidPort(w, h, y) && Dest(w, h, x) == Some(y)
  {
    hide PlanRoutes, Dest, Id, Nodes;
    var x, y := RouteOfTraveller(w, h, r);
    NodeIdInRange(w, x.node);
    NodeIdInRange(w, y.node);
  }

  /** The places a route joins. */
  lemma RouteOfTraveller(w: nat, h: nat, r: Route) returns (x: Port, y: Port)
    requires w >= 1 && h >= 1 && r in PlanRoutes(w, h)
    ensures ValidPort(w, h, x) && ValidPort(w, h, y) && Dest(w, h, x) == Some(y)
    ensures r == Route(Id(w, x.node), x.index + 1, Id(w, y.node), y.index + 1)
  {
    hide Dest, Origin, Id, Nodes;
    var i :| 0 <= i < |PlanRoutes(w, h)| && PlanRoutes(w, h)[i] == r;
    x := Travellers(w, h)[i];
    y := Dest(w, h, x).value;
    OriginOfDest(w, h, x);
  }

  /**
   * Double elimination means two losses: whatever way somebody took to a slot,
   * they have lost nothing in the winners bracket and the winners' half of the
   * grand final, and exactly once everywhere else.
   */
  lemma {:induction false} LossesAlongRun(w: nat, h: nat, run: seq<Route>)
    requires w >= 1 && h >= 1 && Chain(w, h, run)
    ensures
      var last := run[|run| - 1];
      && last.target < |Nodes(w)| && last.slot >= 1
      && Losses(h, run) == LossesAt(h, Port(Nodes(w)[last.target], last.slot - 1))
  {
    hide PlanRoutes, Nodes, Id;
    var last := run[|run| - 1];
    RouteEnds(w, h, last);
    if |run| == 1 {
      assert run[..0] == [];
      NodeAt(w, last.source);
      FirstRoundIds(w, last.source);
    } else {
      var before := run[..|run| - 1];
      assert forall r :: r in before ==> r in run;
      LossesAlongRun(w, h, before);
      assert last.source == before[|before| - 1].target;
    }
  }

  lemma FirstRoundIds(w: nat, id: nat)
    requires id < RoundSize(w, 0)
    ensures id < |Nodes(w)| && Nodes(w)[id] == W(0, id)
  {
    NodeIdInRange(w, W(0, id));
  }

  // ----- the generator

  ghost function Describe(w: nat, nodes: seq<Node>): seq<Match>
    requires forall i :: 0 <= i < |nodes| ==> ValidNode(w, nodes[i])
  {
    seq(|nodes|, (i: nat) requires i < |nodes| && ValidNode(w, nodes[i]) => Descriptor(w, nodes[i]))
  }

  /** The identifiers of the first k winners rounds, round by round. */
  ghost function WinnersTable(w: nat, k: nat): (t: seq<seq<nat>>)
    requires k <= w + 1
    ensures |t| == k
  {
    if k == 0 then [] else WinnersTable(w, k - 1) + [Ids(RoundOffset(w, k - 1), RoundSize(w, k - 1))]
  }

  ghost function LosersTable(w: nat, i: nat): (t: seq<seq<nat>>)
    requires i <= 2 * w
    ensures |t| == i
  {
    if i == 0 then [] else LosersTable(w, i - 1) + [Ids(LosersOffset(w, i - 1), LosersSize(w, i - 1))]
  }

  lemma {:induction false} WinnersTableAt(w: nat, k: nat, a: nat)
    requires a < k <= w + 1
    ensures WinnersTable(w, k)[a] == Ids(RoundOffset(w, a), RoundSize(w, a))
  {
    if a < k - 1 {
      WinnersTableAt(w, k - 1, a);
    }
  }

  lemma {:induction false} LosersTableAt(w: nat, i: nat, a: nat)
    requires a < i <= 2 * w
    ensures LosersTable(w, i)[a] == Ids(LosersOffset(w, a), LosersSize(w, a))
  {
    if a < i - 1 {
      LosersTableAt(w, i - 1, a);
    }
  }

  lemma SendersAppend(h: nat, nodes: seq<Node>, v: Node)
    ensures AllSenders(h, nodes + [v]) == AllSenders(h, nodes) + Senders(h, v)
  {
    assert (nodes + [v])[..|nodes|] == nodes;
  }

  ghost predicate AllValid(w: nat, nodes: seq<Node>) {
    forall i :: 0 <= i < |nodes| ==> ValidNode(w, nodes[i])
  }

  ghost predicate AllSend(w: nat, h: nat, xs: seq<Port>)
    requires w >= 1
  {
    forall i :: 0 <= i < |xs| ==> Sender(w, h, xs[i])
  }

  lemma DescribeWinnersRow(w: nat, nodes: seq<Node>, k: nat)
    requires k <= w && AllValid(w, nodes)
    ensures AllValid(w, nodes + WinnersRow(k, RoundSize(w, k)))
    ensures Describe(w, nodes + WinnersRow(k, RoundSize(w, k))) == Describe(w, nodes) + RoundMatches(Winners, k, w + 1, RoundSize(w, k))
  {
  }

  lemma DescribeLosersRow(w: nat, nodes: seq<Node>, i: nat)
    requires i < 2 * w && AllValid(w, nodes)
    ensures AllValid(w, nodes + LosersRow(i, LosersSize(w, i)))
    ensures Describe(w, nodes + LosersRow(i, LosersSize(w, i))) == Describe(w, nodes) + RoundMatches(Losers, i, 2 * w, LosersSize(w, i))
  {
  }

  /** The winners rounds, halving from the first round down to one match. */
  method AddWinnersRounds(builder: BracketPlanBuilder, ghost w: nat, firstRoundMatchCount: nat) returns (winnersRounds: seq<seq<nat>>)
    requires firstRoundMatchCount == Pow2(w) && builder.matches == []
    modifies builder`matches
    ensures winnersRounds == WinnersTable(w, w + 1)
    ensures AllValid(w, WinnersNodes(w, w + 1)) && builder.matches == Describe(w, WinnersNodes(w, w + 1))
  {
    Log2OfPow2(w);
    var winnersRoundCount := Log2(firstRoundMatchCount) + 1;
    winnersRounds := [];
    var winnersMatchCount := firstRoundMatchCount;
    for k := 0 to winnersRoundCount
      invariant winnersRounds == WinnersTable(w, k)
      invariant k <= w ==> winnersMatchCount == RoundSize(w, k)
      invariant AllValid(w, WinnersNodes(w, k)) && builder.matches == Describe(w, WinnersNodes(w, k))
    {
      DescribeWinnersRow(w, WinnersNodes(w, k), k);
      var round := builder.AddRound(Winners, k, winnersRoundCount, winnersMatchCount);
      assert round == Ids(RoundOffset(w, k), RoundSize(w, k));
      assert builder.matches == Describe(w, WinnersNodes(w, k + 1));
      winnersRounds := winnersRounds + [round];
      winnersMatchCount := winnersMatchCount / 2;
    }
  }

  /** The losers rounds, in pairs of a merge and a drop round of the same size. */
  method AddLosersRounds(builder: BracketPlanBuilder, ghost w: nat, firstRoundMatchCount: nat, losersRoundCount: nat)
    returns (losersRounds: seq<seq<nat>>)
    requires w >= 1 && firstRoundMatchCount == Pow2(w) && losersRoundCount == 2 * w
    requires AllValid(w, WinnersNodes(w, w + 1)) && builder.matches == Describe(w, WinnersNodes(w, w + 1))
    modifies builder`matches
    ensures losersRounds == LosersTable(w, 2 * w)
    ensures AllValid(w, LosersNodes(w, 2 * w)) && builder.matches == Describe(w, LosersNodes(w, 2 * w))
  {
    losersRounds := [];
    var losersMatchCount := firstRoundMatchCount / 2;
    for i := 0 to losersRoundCount
      invariant losersRounds == LosersTable(w, i)
      invariant i < 2 * w ==> losersMatchCount == LosersSize(w, i)
      invariant AllValid(w, LosersNodes(w, i)) && builder.matches == Describe(w, LosersNodes(w, i))
    {
      var isDropRound := i % 2 == 1;
      DescribeLosersRow(w, LosersNodes(w, i), i);
      LosersSizes(w, i);
      var round := builder.AddRound(Losers, i, losersRoundCount, losersMatchCount);
      assert round == Ids(LosersOffset(w, i), LosersSize(w, i));
      losersRounds := losersRounds + [round];
      if isDropRound {
        losersMatchCount := losersMatchCount / 2;
      }
    }
  }

  lemma SendersSend(w: nat, h: nat, v: Node)
    requires w >= 1 && ValidNode(w, v)
    ensures AllSend(w, h, Senders(h, v))
  {
    forall i: nat | i < |Senders(h, v)|
      ensures Sender(w, h, Senders(h, v)[i])
    {
      SendersOfMatch(w, h, v, Senders(h, v)[i]);
    }
  }

  ghost function MatchRoutes(w: nat, h: nat, v: Node): seq<Route> {
    if w >= 1 && h >= 1 && ValidNode(w, v) then
      SendersSend(w, h, v);
      RoutesOf(w, h, Senders(h, v))
    else []
  }

  /** The pieces written for each match in turn, end to end. */
  ghost function Concat(out: Node -> seq<Route>, nodes: seq<Node>): seq<Route> {
    if nodes == [] then [] else Concat(out, nodes[..|nodes| - 1]) + out(nodes[|nodes| - 1])
  }

  ghost function Outgoing(w: nat, h: nat): Node -> seq<Route> {
    v => MatchRoutes(w, h, v)
  }

  lemma NothingWritten(w: nat, h: nat)
    ensures Concat(Outgoing(w, h), WinnersNodes(w, 0)) == []
  {
  }

  lemma ConcatStep(w: nat, h: nat, nodes: seq<Node>, v: Node)
    ensures Concat(Outgoing(w, h), nodes + [v]) == Concat(Outgoing(w, h), nodes) + MatchRoutes(w, h, v)
  {
    assert (nodes + [v])[..|nodes|] == nodes;
  }

  lemma RoutesJoin(w: nat, h: nat, xs: seq<Port>, ys: seq<Port>)
    requires w >= 1 && h >= 1 && AllSend(w, h, xs) && AllSend(w, h, ys)
    ensures AllSend(w, h, xs + ys) && RoutesOf(w, h, xs + ys) == RoutesOf(w, h, xs) + RoutesOf(w, h, ys)
  {
  }

  /** Written match by match, the routes are those of the senders in order. */
  lemma {:induction false} RoutesOfSenders(w: nat, h: nat, nodes: seq<Node>)
    requires w >= 1 && h >= 1 && AllValid(w, nodes)
    ensures AllSend(w, h, AllSenders(h, nodes))
    ensures Concat(Outgoing(w, h), nodes) == RoutesOf(w, h, AllSenders(h, nodes))
  {
    if nodes != [] {
      RoutesOfSenders(w, h, nodes[..|nodes| - 1]);
      SendersSend(w, h, nodes[|nodes| - 1]);
      RoutesJoin(w, h, AllSenders(h, nodes[..|nodes| - 1]), Senders(h, nodes[|nodes| - 1]));
      hide Senders, ValidNode, RoutesOf;
    }
  }

  lemma WinnersRowStep(before: seq<Node>, k: nat, m: nat)
    ensures before + WinnersRow(k, m + 1) == before + WinnersRow(k, m) + [W(k, m)]
  {
  }

  lemma LosersRowStep(before: seq<Node>, i: nat, m: nat)
    ensures before + LosersRow(i, m + 1) == before + LosersRow(i, m) + [L(i, m)]
  {
  }

  ghost function WinnerTarget(w: nat, k: nat, m: nat): Node {
    if k < w then W(k + 1, m / 2) else GF
  }

  ghost function LoserTarget(k: nat, m: nat): Node {
    if k == 0 then L(0, m / 2) else L(2 * k - 1, m)
  }

  lemma MatchRoutesAt(w: nat, h: nat, v: Node, j: nat, x: Port)
    requires w >= 1 && h >= 1 && ValidNode(w, v) && j < |Senders(h, v)| && Senders(h, v)[j] == x
    ensures Sender(w, h, x) && |MatchRoutes(w, h, v)| == |Senders(h, v)|
    ensures MatchRoutes(w, h, v)[j] == RouteOf(w, h, x)
  {
    hide Dest, ValidNode, Senders;
    SendersSend(w, h, v);
  }

  lemma WinnersDest(w: nat, h: nat, k: nat, m: nat, p: nat)
    requires w >= 1 && h >= 1 && ValidNode(w, W(k, m)) && p < h
    ensures ValidNode(w, WinnerTarget(w, k, m)) && ValidNode(w, LoserTarget(k, m))
    ensures Dest(w, h, Port(W(k, m), p)) == Some(Port(WinnerTarget(w, k, m), HalfBase(h, m) + p))
    ensures
      Dest(w, h, Port(W(k, m), h + p)) == Some(Port(LoserTarget(k, m), (if k == 0 then HalfBase(h, m) else h) + p))
  {
    hide RoundSize, LosersSize;
    WinnersSizes(w, k);
  }

  lemma WinnersMatchRoutes(w: nat, h: nat, k: nat, m: nat, p: nat)
    requires w >= 1 && h >= 1 && ValidNode(w, W(k, m)) && p < h
    ensures ValidNode(w, WinnerTarget(w, k, m)) && ValidNode(w, LoserTarget(k, m))
    ensures |MatchRoutes(w, h, W(k, m))| == 2 * h
    ensures
      MatchRoutes(w, h, W(k, m))[2 * p] == Route(Id(w, W(k, m)), p + 1, Id(w, WinnerTarget(w, k, m)), HalfBase(h, m) + p + 1)
    ensures
      MatchRoutes(w, h, W(k, m))[2 * p + 1] ==
      Route(Id(w, W(k, m)), h + p + 1, Id(w, LoserTarget(k, m)), (if k == 0 then HalfBase(h, m) else h) + p + 1)
  {
    hide Dest, ValidNode, MatchRoutes, Id, WinnerTarget, LoserTarget, HalfBase;
    WinnersDest(w, h, k, m, p);
    MatchRoutesAt(w, h, W(k, m), 2 * p, Port(W(k, m), p));
    MatchRoutesAt(w, h, W(k, m), 2 * p + 1, Port(W(k, m), h + p));
  }

  ghost function AdvanceTarget(w: nat, i: nat, m: nat): Node {
    if i == 2 * w - 1 then GF else if i % 2 == 0 then L(i + 1, m) else L(i + 1, m / 2)
  }

  lemma LosersMatchRoutes(w: nat, h: nat, i: nat, m: nat, p: nat)
    requires w >= 1 && h >= 1 && ValidNode(w, L(i, m)) && p < h
    ensures ValidNode(w, AdvanceTarget(w, i, m)) && |MatchRoutes(w, h, L(i, m))| == h
    ensures
      MatchRoutes(w, h, L(i, m))[p] ==
      Route(Id(w, L(i, m)), p + 1, Id(w, AdvanceTarget(w, i, m)),
            (if i == 2 * w - 1 then h else if i % 2 == 0 then 0 else HalfBase(h, m)) + p + 1)
  {
    var x := Port(L(i, m), p);
    SendersSend(w, h, L(i, m));
    assert Senders(h, L(i, m))[p] == x;
    OriginOfDest(w, h, x);
  }

  /**
   * The routes of one winners match: its top half one way, its bottom half the
   * other, taken alternately.
   */
  method WireMatch(builder: BracketPlanBuilder, match_: nat, passingPlayers: nat,
                   winnerDestination: nat, winnerBaseSlot: nat, loserDestination: nat, loserBaseSlot: nat,
                   ghost expected: seq<Route>)
    requires |expected| == 2 * passingPlayers
    requires forall p: nat :: p < passingPlayers ==>
      && expected[2 * p] == Route(match_, p + 1, winnerDestination, winnerBaseSlot + p + 1)
      && expected[2 * p + 1] == Route(match_, passingPlayers + p + 1, loserDestination, loserBaseSlot + p + 1)
    modifies builder`routes
    ensures builder.routes == old(builder.routes) + expected
  {
    for p := 0 to passingPlayers
      invariant builder.routes == old(builder.routes) + expected[..2 * p]
    {
      builder.AddRoute(match_, p, winnerDestination, winnerBaseSlot + p);
      builder.AddRoute(match_, passingPlayers + p, loserDestination, loserBaseSlot + p);
    }
  }

  lemma WinnersLookup(w: nat, rounds: seq<seq<nat>>, k: nat, m: nat)
    requires rounds == WinnersTable(w, w + 1) && ValidNode(w, W(k, m))
    ensures m < |rounds[k]| && rounds[k][m] == Id(w, W(k, m))
  {
    WinnersTableAt(w, w + 1, k);
  }

  lemma LosersLookup(w: nat, rounds: seq<seq<nat>>, i: nat, m: nat)
    requires rounds == LosersTable(w, 2 * w) && ValidNode(w, L(i, m))
    ensures m < |rounds[i]| && rounds[i][m] == Id(w, L(i, m))
  {
    LosersTableAt(w, 2 * w, i);
  }

  /** The rounds the generator built hold, at the indices it uses, the matches `Dest` names. */
  lemma WinnersDestinations(w: nat, winnersRounds: seq<seq<nat>>, losersRounds: seq<seq<nat>>, k: nat, m: nat)
    requires w >= 1 && ValidNode(w, W(k, m))
    requires winnersRounds == WinnersTable(w, w + 1) && losersRounds == LosersTable(w, 2 * w)
    ensures k < |winnersRounds| == w + 1 && 2 * k - 1 < |losersRounds| == 2 * w
    ensures m < |winnersRounds[k]| && winnersRounds[k][m] == Id(w, W(k, m))
    ensures k < w ==> m / 2 < |winnersRounds[k + 1]| && ValidNode(w, W(k + 1, m / 2)) && winnersRounds[k + 1][m / 2] == Id(w, W(k + 1, m / 2))
    ensures k == 0 ==> m / 2 < |losersRounds[0]| && ValidNode(w, L(0, m / 2)) && losersRounds[0][m / 2] == Id(w, L(0, m / 2))
    ensures k > 0 ==> m < |losersRounds[2 * k - 1]| && ValidNode(w, L(2 * k - 1, m)) && losersRounds[2 * k - 1][m] == Id(w, L(2 * k - 1, m))
  {
    WinnersLookup(w, winnersRounds, k, m);
    if k < w {
      WinnersLookup(w, winnersRounds, k + 1, m / 2);
    }
    if k == 0 {
      LosersLookup(w, losersRounds, 0, m / 2);
    } else {
      assert (2 * k - 1) / 2 == k - 1;
      LosersLookup(w, losersRounds, 2 * k - 1, m);
    }
  }

  method WireWinnersMatch(builder: BracketPlanBuilder, ghost w: nat, passingPlayers: nat,
                          winnersRounds: seq<seq<nat>>, losersRounds: seq<seq<nat>>, grandFinal: nat, k: nat, m: nat)
    requires w >= 1 && passingPlayers >= 1 && ValidNode(w, W(k, m))
    requires winnersRounds == WinnersTable(w, w + 1) && losersRounds == LosersTable(w, 2 * w) && grandFinal == Id(w, GF)
    modifies builder`routes
    ensures builder.routes == old(builder.routes) + MatchRoutes(w, passingPlayers, W(k, m))
  {
    hide MatchRoutes, RoundOffset, LosersOffset, LosersTable, WinnersTable;
    WinnersDestinations(w, winnersRounds, losersRounds, k, m);
    var match_ := winnersRounds[k][m];
    var winnerDestination := if k < |winnersRounds| - 1 then winnersRounds[k + 1][m / 2] else grandFinal;
    var loserDestination := if k == 0 then losersRounds[0][m / 2] else losersRounds[2 * k - 1][m];
    var winnerBaseSlot := (m % 2) * passingPlayers;
    var loserBaseSlot := if k == 0 then (m % 2) * passingPlayers else passingPlayers;
    assert HalfBase(passingPlayers, m) == (m % 2) * passingPlayers by { HalfBaseIsProduct(passingPlayers, m); }

    WinnersMatchRoutes(w, passingPlayers, k, m, 0);
    ghost var written := MatchRoutes(w, passingPlayers, W(k, m));
    forall p: nat | p < passingPlayers
      ensures written[2 * p] == Route(match_, p + 1, winnerDestination, winnerBaseSlot + p + 1)
      ensures written[2 * p + 1] == Route(match_, passingPlayers + p + 1, loserDestination, loserBaseSlot + p + 1)
    {
      WinnersMatchRoutes(w, passingPlayers, k, m, p);
    }
    WireMatch(builder, match_, passingPlayers, winnerDestination, winnerBaseSlot, loserDestination, loserBaseSlot, written);
  }

  method WireWinnersRound(builder: BracketPlanBuilder, ghost w: nat, passingPlayers: nat,
                          winnersRounds: seq<seq<nat>>, losersRounds: seq<seq<nat>>, grandFinal: nat, k: nat)
    requires w >= 1 && passingPlayers >= 1 && k <= w
    requires winnersRounds == WinnersTable(w, w + 1) && losersRounds == LosersTable(w, 2 * w) && grandFinal == Id(w, GF)
    requires builder.routes == Concat(Outgoing(w, passingPlayers), WinnersNodes(w, k))
    modifies builder`routes
    ensures builder.routes == Concat(Outgoing(w, passingPlayers), WinnersNodes(w, k + 1))
  {
    hide Concat, Outgoing, MatchRoutes;
    ghost var before := WinnersNodes(w, k);
    assert before + WinnersRow(k, 0) == before;
    WinnersTableAt(w, w + 1, k);
    for m := 0 to |winnersRounds[k]|
      invariant builder.routes == Concat(Outgoing(w, passingPlayers), before + WinnersRow(k, m))
    {
      assert ValidNode(w, W(k, m));
      WireWinnersMatch(builder, w, passingPlayers, winnersRounds, losersRounds, grandFinal, k, m);
      ConcatStep(w, passingPlayers, before + WinnersRow(k, m), W(k, m));
      WinnersRowStep(before, k, m);
    }
  }

  method WireWinners(builder: BracketPlanBuilder, ghost w: nat, passingPlayers: nat,
                     winnersRounds: seq<seq<nat>>, losersRounds: seq<seq<nat>>, grandFinal: nat)
    requires w >= 1 && passingPlayers >= 1
    requires winnersRounds == WinnersTable(w, w + 1) && losersRounds == LosersTable(w, 2 * w) && grandFinal == Id(w, GF)
    requires builder.routes == []
    modifies builder`routes
    ensures builder.routes == Concat(Outgoing(w, passingPlayers), WinnersNodes(w, w + 1))
  {
    hide Concat, Outgoing, LosersTable, LosersOffset;
    NothingWritten(w, passingPlayers);
    for k := 0 to |winnersRounds|
      invariant builder.routes == Concat(Outgoing(w, passingPlayers), WinnersNodes(w, k))
    {
      WireWinnersRound(builder, w, passingPlayers, winnersRounds, losersRounds, grandFinal, k);
    }
  }

  lemma LosersDestinations(w: nat, losersRounds: seq<seq<nat>>, i: nat, m: nat)
    requires w >= 1 && ValidNode(w, L(i, m)) && losersRounds == LosersTable(w, 2 * w)
    ensures m < |losersRounds[i]| && losersRounds[i][m] == Id(w, L(i, m))
    ensures i < 2 * w - 1 ==>
      var v := AdvanceTarget(w, i, m);
      ValidNode(w, v) && v.L? && v.i == i + 1 && v.m < |losersRounds[v.i]| && losersRounds[v.i][v.m] == Id(w, v)
  {
    LosersLookup(w, losersRounds, i, m);
    if i < 2 * w - 1 {
      LosersMatchRoutes(w, 1, i, m, 0);
      var v := AdvanceTarget(w, i, m);
      LosersLookup(w, losersRounds, v.i, v.m);
    }
  }

  method WireLosersMatch(builder: BracketPlanBuilder, ghost w: nat, passingPlayers: nat,
                         losersRounds: seq<seq<nat>>, grandFinal: nat, i: nat, m: nat)
    requires w >= 1 && passingPlayers >= 1 && ValidNode(w, L(i, m))
    requires losersRounds == LosersTable(w, 2 * w) && grandFinal == Id(w, GF)
    modifies builder`routes
    ensures builder.routes == old(builder.routes) + MatchRoutes(w, passingPlayers, L(i, m))
  {
    hide MatchRoutes, LosersOffset, LosersTable;
    LosersDestinations(w, losersRounds, i, m);
    var match_ := losersRounds[i][m];
    var isLast := i == |losersRounds| - 1;
    var winnerDestination :=
      if isLast then grandFinal else if i % 2 == 0 then losersRounds[i + 1][m] else losersRounds[i + 1][m / 2];
    var targetBaseSlot := if isLast then passingPlayers else if i % 2 == 0 then 0 else (m % 2) * passingPlayers;
    HalfBaseIsProduct(passingPlayers, m);

    LosersMatchRoutes(w, passingPlayers, i, m, 0);
    ghost var written := MatchRoutes(w, passingPlayers, L(i, m));
    for p := 0 to passingPlayers
      invariant builder.routes == old(builder.routes) + written[..p]
    {
      LosersMatchRoutes(w, passingPlayers, i, m, p);
      builder.AddRoute(match_, p, winnerDestination, targetBaseSlot + p);
    }
    assert written[..passingPlayers] == written;
  }

  method WireLosersRound(builder: BracketPlanBuilder, ghost w: nat, passingPlayers: nat,
                         losersRounds: seq<seq<nat>>, grandFinal: nat, i: nat)
    requires w >= 1 && passingPlayers >= 1 && i < 2 * w
    requires losersRounds == LosersTable(w, 2 * w) && grandFinal == Id(w, GF)
    requires builder.routes == Concat(Outgoing(w, passingPlayers), LosersNodes(w, i))
    modifies builder`routes
    ensures builder.routes == Concat(Outgoing(w, passingPlayers), LosersNodes(w, i + 1))
  {
    hide Concat, Outgoing, MatchRoutes;
    ghost var before := LosersNodes(w, i);
    assert before + LosersRow(i, 0) == before;
    LosersTableAt(w, 2 * w, i);
    for m := 0 to |losersRounds[i]|
      invariant builder.routes == Concat(Outgoing(w, passingPlayers), before + LosersRow(i, m))
    {
      assert ValidNode(w, L(i, m));
      WireLosersMatch(builder, w, passingPlayers, losersRounds, grandFinal, i, m);
      ConcatStep(w, passingPlayers, before + LosersRow(i, m), L(i, m));
      LosersRowStep(before, i, m);
    }
  }

  method WireLosers(builder: BracketPlanBuilder, ghost w: nat, passingPlayers: nat, losersRounds: seq<seq<nat>>, grandFinal: nat)
    requires w >= 1 && passingPlayers >= 1
    requires losersRounds == LosersTable(w, 2 * w) && grandFinal == Id(w, GF)
    requires builder.routes == Concat(Outgoing(w, passingPlayers), WinnersNodes(w, w + 1))
    modifies builder`routes
    ensures builder.routes == Concat(Outgoing(w, passingPlayers), LosersNodes(w, 2 * w))
  {
    hide Concat, Outgoing, LosersTable, LosersOffset;
    for i := 0 to |losersRounds|
      invariant builder.routes == Concat(Outgoing(w, passingPlayers), LosersNodes(w, i))
    {
      WireLosersRound(builder, w, passingPlayers, losersRounds, grandFinal, i);
    }
  }

  lemma PlanRoutesByMatch(w: nat, h: nat)
    requires w >= 1 && h >= 1 && AllValid(w, LosersNodes(w, 2 * w))
    ensures PlanRoutes(w, h) == Concat(Outgoing(w, h), LosersNodes(w, 2 * w))
  {
    RoutesOfSenders(w, h, LosersNodes(w, 2 * w));
    SendersAppend(h, LosersNodes(w, 2 * w), GF);
  }

  lemma DescribeGrandFinal(w: nat)
    requires AllValid(w, LosersNodes(w, 2 * w))
    ensures AllValid(w, Nodes(w))
    ensures Describe(w, Nodes(w)) == Describe(w, LosersNodes(w, 2 * w)) + RoundMatches(Final, 0, 1, 1)
  {
    hide LosersNodes;
    assert Nodes(w)[|Nodes(w)| - 1] == GF;
  }

  /** The matches and routes of the whole bracket; answers the first winners round. */
  method BuildStructure(builder: BracketPlanBuilder, ghost w: nat, firstRoundMatchCount: nat, playerPerMatch: nat)
    returns (firstRound: seq<nat>)
    requires w >= 1 && firstRoundMatchCount == Pow2(w) && playerPerMatch >= 2
    requires builder.matches == [] && builder.routes == []
    modifies builder`matches, builder`routes
    ensures AllValid(w, Nodes(w)) && builder.matches == Describe(w, Nodes(w))
    ensures builder.routes == PlanRoutes(w, playerPerMatch / 2)
    ensures firstRound == Ids(0, firstRoundMatchCount)
  {
    hide Concat, Outgoing, PlanRoutes;
    var passingPlayers := playerPerMatch / 2;
    var winnersRounds := AddWinnersRounds(builder, w, firstRoundMatchCount);
    var losersRounds := AddLosersRounds(builder, w, firstRoundMatchCount, 2 * (|winnersRounds| - 1));
    assert |builder.matches| == Id(w, GF) by {
      DescribeLength(w, LosersNodes(w, 2 * w));
    }
    var final := builder.AddRound(Final, 0, 1, 1);
    var grandFinal := final[0];
    DescribeGrandFinal(w);

    WireWinners(builder, w, passingPlayers, winnersRounds, losersRounds, grandFinal);
    WireLosers(builder, w, passingPlayers, losersRounds, grandFinal);
    PlanRoutesByMatch(w, passingPlayers);
    WinnersTableAt(w, w + 1, 0);
    firstRound := winnersRounds[0];
  }

  lemma DescribeLength(w: nat, nodes: seq<Node>)
    requires AllValid(w, nodes)
    ensures |Describe(w, nodes)| == |nodes|
  {
  }

  /** How many first-round matches a double elimination of that size has: at least two. */
  ghost predicate FirstRoundSize(entrantCount: int, playerPerMatch: nat, count: nat)
    requires playerPerMatch > 0
  {
    && IsPow2(count) && count >= 2 && count * playerPerMatch >= entrantCount
    && forall k: nat :: k >= 1 && Pow2(k) * playerPerMatch >= entrantCount ==> Pow2(k) >= count
  }

  /** What a plan with a first round of 2^w matches consists of. */
  ghost predicate IsPlan(plan: Plan, entrantCount: int, p: nat, w: nat) {
    && p in {2, 4, 8} && w >= 1
    && plan.bracketType == DoubleElimination && plan.playerPerMatch == p && plan.entrantCount == entrantCount
    && FirstRoundSize(entrantCount, p, Pow2(w)) && plan.byes == Pow2(w) * p - entrantCount
    && plan.seats == FirstWave(Ids(0, Pow2(w)), SeatedCount(Pow2(w) * p, entrantCount), p)
    && AllValid(w, Nodes(w)) && plan.matches == Describe(w, Nodes(w))
    && plan.routes == PlanRoutes(w, p / 2)
  }

  lemma RoundOfTwoOrMore(entrantCount: int, p: nat, enough: nat) returns (w: nat)
    requires p > 0 && IsPow2(enough) && enough >= CeilDiv(entrantCount, p)
    requires forall k: nat :: Pow2(k) >= CeilDiv(entrantCount, p) ==> Pow2(k) >= enough
    ensures w >= 1 && Pow2(w) == (if enough >= 2 then enough else 2) && FirstRoundSize(entrantCount, p, Pow2(w))
  {
    hide CeilDiv;
    var e: nat :| enough == Pow2(e);
    w := if e >= 1 then e else 1;
    assert Pow2(0) == 1 && Pow2(1) == 2;
    Pow2Monotone(1, w);
    EnoughMatches(entrantCount, p, Pow2(w));
    forall k: nat | k >= 1 && Pow2(k) * p >= entrantCount
      ensures Pow2(k) >= Pow2(w)
    {
      EnoughMatches(entrantCount, p, Pow2(k));
      Pow2Monotone(1, k);
    }
  }

  /**
   * The whole plan: the smallest bracket of at least two first-round matches
   * that holds everybody, every entrant seated once, and the routes of `Dest`.
   */
  method Generate(entrantCount: int, playerPerMatch: int) returns (r: Result<Plan, PlanError>, ghost w: nat)
    ensures r.Err? <==> playerPerMatch !in {2, 4, 8}
    ensures r.Err? ==> r.error == UnsupportedMatchSize(playerPerMatch)
    ensures r.Ok? ==> IsPlan(r.value, entrantCount, playerPerMatch, w)
  {
    hide Nodes, Describe, PlanRoutes;
    if playerPerMatch != 2 && playerPerMatch != 4 && playerPerMatch != 8 {
      return Err(UnsupportedMatchSize(playerPerMatch)), 0;
    }
    var builder := new BracketPlanBuilder();
    var enough := NextPow2(CeilDiv(entrantCount, playerPerMatch));
    var firstRoundMatchCount := if enough >= 2 then enough else 2;
    var effectiveCount := playerPerMatch * firstRoundMatchCount;
    var byes := effectiveCount - entrantCount;

    w := RoundOfTwoOrMore(entrantCount, playerPerMatch, enough);
    var firstRound := BuildStructure(builder, w, firstRoundMatchCount, playerPerMatch);
    builder.SeatFirstWave(firstRound, entrantCount, playerPerMatch);
    r := Ok(Plan(DoubleElimination, playerPerMatch, entrantCount, byes, builder.matches, builder.routes, builder.seats));
  }

  lemma {:induction false} LosersTotal(w: nat, i: nat)
    requires w >= 1 && i <= w
    ensures LosersOffset(w, 2 * i) + (if i < w then 4 * Pow2(w - 1 - i) else 2) == 4 * Pow2(w) - 1
  {
    if i == 0 {
      RoundTotal(w, w + 1);
      assert Pow2(w) == 2 * Pow2(w - 1);
    } else {
      LosersTotal(w, i - 1);
      assert LosersSize(w, 2 * i - 2) == LosersSize(w, 2 * i - 1) == Pow2(w - i);
      assert LosersOffset(w, 2 * i) == LosersOffset(w, 2 * i - 2) + 2 * Pow2(w - i);
    }
  }

  /** A bracket of n first-round matches has 4n - 2 matches. */
  lemma MatchCount(w: nat)
    requires w >= 1
    ensures |Nodes(w)| == 4 * Pow2(w) - 2
  {
    LosersTotal(w, w);
  }
}
