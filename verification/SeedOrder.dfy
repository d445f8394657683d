/** Standard bracket seeding, and the rounds of a finished bracket built on it. */
module SeedOrders {
  import opened Sequences
  import opened BracketPlans

  /** Every seed is followed by the seed it adds up with to one less than the round. */
  function Fold(order: seq<int>, round: int): (r: seq<int>)
    ensures |r| == 2 * |order|
  {
    if order == [] then []
    else Fold(order[..|order| - 1], round) + [order[|order| - 1], round - 1 - order[|order| - 1]]
  }

  lemma {:induction false} FoldAt(order: seq<int>, round: int, k: nat)
    requires k < |order|
    ensures Fold(order, round)[2 * k] == order[k] && Fold(order, round)[2 * k + 1] == round - 1 - order[k]
  {
    if k < |order| - 1 {
      FoldAt(order[..|order| - 1], round, k);
    }
  }

  /** The order of 2^j seeds. */
  function Order(j: nat): (order: seq<int>)
    ensures |order| == Pow2(j)
  {
    if j == 0 then [0] else Fold(Order(j - 1), Pow2(j))
  }

  /** The seeds of the smallest power of two that holds them all, one when there is none. */
  method BracketSeedOrder(size: nat) returns (order: seq<int>)
    ensures exists j: nat :: order == Order(j) && Pow2(j) >= size && (j > 0 ==> Pow2(j - 1) < size)
  {
    order := [0];
    ghost var j: nat := 0;
    while |order| < size
      invariant order == Order(j) && (j > 0 ==> Pow2(j - 1) < size)
      decreases size - |order|
    {
      var round := |order| * 2;
      order := Fold(order, round);
      j := j + 1;
    }
  }

  lemma OrderAt(j: nat, k: nat)
    requires 0 < j && k < Pow2(j - 1)
    ensures Pow2(j) == 2 * Pow2(j - 1)
    ensures Order(j)[2 * k] == Order(j - 1)[k] && Order(j)[2 * k + 1] == Pow2(j) - 1 - Order(j - 1)[k]
  {
    FoldAt(Order(j - 1), Pow2(j), k);
  }

  lemma Halves(i: nat) returns (k: nat)
    ensures i == 2 * k || i == 2 * k + 1
  {
    k := i / 2;
  }

  // ----- every seed once

  lemma {:induction false} SeedsBelow(j: nat, i: nat)
    requires i < Pow2(j)
    ensures 0 <= Order(j)[i] < Pow2(j)
  {
    if j > 0 {
      var k := Halves(i);
      OrderAt(j, k);
      hide Order;
      SeedsBelow(j - 1, k);
    }
  }

  lemma {:induction false} SeedsDiffer(j: nat, i: nat, i': nat)
    requires i < i' < Pow2(j)
    ensures Order(j)[i] != Order(j)[i']
  {
    var k := Halves(i);
    var k' := Halves(i');
    OrderAt(j, k);
    OrderAt(j, k');
    SeedsBelow(j - 1, k);
    SeedsBelow(j - 1, k');
    if k < k' {
      SeedsDiffer(j - 1, k, k');
    }
    hide Order, Pow2;
  }

  lemma {:induction false} SeedSomewhere(j: nat, seed: nat) returns (i: nat)
    requires seed < Pow2(j)
    ensures i < Pow2(j) && Order(j)[i] == seed
  {
    if j == 0 {
      i := 0;
    } else {
      hide Order;
      var low := if seed < Pow2(j - 1) then seed else Pow2(j) - 1 - seed;
      var k := SeedSomewhere(j - 1, low);
      OrderAt(j, k);
      i := if seed == low then 2 * k else 2 * k + 1;
    }
  }

  /** The order is a permutation of the seeds 0 to 2^j - 1. */
  lemma EverySeedOnce(j: nat)
    ensures NoRepeat(Order(j))
    ensures forall seed :: seed in Order(j) <==> 0 <= seed < Pow2(j)
  {
    var order := Order(j);
    hide Order;
    forall i, k | 0 <= i < k < |order|
      ensures order[i] != order[k]
    {
      SeedsDiffer(j, i, k);
    }
    forall seed
      ensures seed in order <==> 0 <= seed < Pow2(j)
    {
      if seed in order {
        var i :| 0 <= i < |order| && order[i] == seed;
        SeedsBelow(j, i);
      }
      if 0 <= seed < Pow2(j) {
        var i := SeedSomewhere(j, seed);
      }
    }
  }

  // ----- who meets whom

  /** In the first round the best meets the worst; the better seeds of the pairs are in the order of half as many. */
  lemma FirstRound(j: nat, i: nat)
    requires j > 0 && i < Pow2(j - 1)
    ensures Order(j)[2 * i] + Order(j)[2 * i + 1] == Pow2(j) - 1
    ensures Order(j)[2 * i] < Order(j)[2 * i + 1]
    ensures Order(j)[2 * i] == Order(j - 1)[i]
  {
    OrderAt(j, i);
    SeedsBelow(j - 1, i);
    hide Order, Pow2;
  }

  /** The t-th place of the b-th of 2^k blocks. */
  function PlaceInBlock(j: nat, k: nat, b: nat, t: nat): nat
    requires k <= j
  {
    b * Pow2(j - k) + t
  }

  lemma PlaceDoubled(j: nat, k: nat, b: nat, t: nat)
    requires k < j
    ensures PlaceInBlock(j, k, b, 2 * t) == 2 * PlaceInBlock(j - 1, k, b, t)
    ensures PlaceInBlock(j, k, b, 2 * t + 1) == 2 * PlaceInBlock(j - 1, k, b, t) + 1
  {
    assert Pow2(j - k) == 2 * Pow2(j - k - 1);
    assert b * Pow2(j - k) == 2 * (b * Pow2(j - k - 1));
  }

  /**
   * Cut into 2^k blocks of one length, every block holds exactly one of the top
   * 2^k seeds, at its start, in the order of 2^k seeds.
   */
  lemma {:induction false} TopSeedsApart(j: nat, k: nat, b: nat, t: nat)
    requires k <= j && b < Pow2(k) && t < Pow2(j - k)
    ensures var i := PlaceInBlock(j, k, b, t);
            && i < Pow2(j)
            && (Order(j)[i] < Pow2(k) <==> t == 0)
            && (t == 0 ==> Order(j)[i] == Order(k)[b])
  {
    if k == j {
      SeedsBelow(j, b);
    } else {
      var t' := Halves(t);
      hide Order;
      assert Pow2(j - k) == 2 * Pow2(j - k - 1);
      TopSeedsApart(j - 1, k, b, t');
      PlaceDoubled(j, k, b, t');
      var i := PlaceInBlock(j - 1, k, b, t');
      hide PlaceInBlock;
      OrderAt(j, i);
      SeedsBelow(j - 1, i);
      Pow2Monotone(k, j - 1);
      hide Pow2;
    }
  }
}
