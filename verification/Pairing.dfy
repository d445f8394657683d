/**
 * The pairing tables of single elimination: who of a round meets whom in the next.
 *
 * A round of M matches feeds M/2 buckets of the next. Place by place, the
 * finishers of all matches are dealt out in groups: even places fill the buckets
 * from the front, odd places from the back.
 */
module Pairings {
  import opened BracketPlans
  import opened Sequences

  /** A finisher: the match of the earlier round, and the place in it counting from zero. */
  datatype PlayerInfo = PlayerInfo(match_: nat, place: nat)

  /** How many places of a match are dealt out: half of them, rounded up. */
  function Passes(playerPerMatch: nat): nat {
    (playerPerMatch + 1) / 2
  }

  /** How many finishers of one place a bucket takes before the next bucket is reached. */
  function Group(playerPerMatch: nat): nat {
    if playerPerMatch > 2 then Passes(playerPerMatch) else 2
  }

  /** The bucket the j-th place of match i is dealt to. */
  function BucketOf(matchCount: nat, group: nat, j: nat, i: nat): int
    requires group > 0
  {
    if j % 2 == 0 then i / group else matchCount / 2 - 1 - i / group
  }

  // ----- the contents of one bucket

  /** What the first i matches deal to bucket b from place j. */
  function Dealt(matchCount: nat, group: nat, b: nat, j: nat, i: nat): seq<PlayerInfo>
    requires group > 0
  {
    if i == 0 then []
    else
      Dealt(matchCount, group, b, j, i - 1) + if BucketOf(matchCount, group, j, i - 1) == b then [PlayerInfo(i - 1, j)] else []
  }

  /** Bucket b once the first j places have been dealt. */
  function Filled(matchCount: nat, group: nat, b: nat, j: nat): seq<PlayerInfo>
    requires group > 0
  {
    if j == 0 then [] else Filled(matchCount, group, b, j - 1) + Dealt(matchCount, group, b, j - 1, matchCount)
  }

  function Bucket(matchCount: nat, playerPerMatch: nat, b: nat): seq<PlayerInfo>
    requires playerPerMatch >= 2
  {
    Filled(matchCount, Group(playerPerMatch), b, Passes(playerPerMatch))
  }

  function Buckets(matchCount: nat, playerPerMatch: nat): seq<seq<PlayerInfo>>
    requires playerPerMatch >= 2
  {
    seq(matchCount / 2, (b: nat) => Bucket(matchCount, playerPerMatch, b))
  }

  // ----- every dealt finisher sits in exactly one place of exactly one bucket

  lemma {:induction false} DealtContents(matchCount: nat, group: nat, b: nat, j: nat, i: nat)
    requires group > 0
    ensures forall e :: e in Dealt(matchCount, group, b, j, i) <==>
              e.place == j && e.match_ < i && BucketOf(matchCount, group, j, e.match_) == b
    ensures NoRepeat(Dealt(matchCount, group, b, j, i))
  {
    if i > 0 {
      DealtContents(matchCount, group, b, j, i - 1);
    }
  }

  lemma {:induction false} FilledContents(matchCount: nat, group: nat, b: nat, j: nat)
    requires group > 0
    ensures forall e :: e in Filled(matchCount, group, b, j) <==>
              e.place < j && e.match_ < matchCount && BucketOf(matchCount, group, e.place, e.match_) == b
    ensures NoRepeat(Filled(matchCount, group, b, j))
  {
    if j > 0 {
      FilledContents(matchCount, group, b, j - 1);
      DealtContents(matchCount, group, b, j - 1, matchCount);
      NoRepeatAppend(Filled(matchCount, group, b, j - 1), Dealt(matchCount, group, b, j - 1, matchCount));
    }
  }

  /** The better place first, and of one place the earlier match. */
  predicate DealtFirst(e: PlayerInfo, f: PlayerInfo) {
    e.place < f.place || (e.place == f.place && e.match_ < f.match_)
  }

  lemma {:induction false} DealtInOrder(matchCount: nat, group: nat, b: nat, j: nat, i: nat)
    requires group > 0
    ensures forall x, y :: 0 <= x < y < |Dealt(matchCount, group, b, j, i)| ==>
              DealtFirst(Dealt(matchCount, group, b, j, i)[x], Dealt(matchCount, group, b, j, i)[y])
  {
    if i > 0 {
      DealtInOrder(matchCount, group, b, j, i - 1);
      DealtContents(matchCount, group, b, j, i - 1);
      hide BucketOf;
      var before := Dealt(matchCount, group, b, j, i - 1);
      assert forall x :: 0 <= x < |before| ==> before[x] in before;
    }
  }

  lemma {:induction false} FilledInOrder(matchCount: nat, group: nat, b: nat, j: nat)
    requires group > 0
    ensures forall x, y :: 0 <= x < y < |Filled(matchCount, group, b, j)| ==>
              DealtFirst(Filled(matchCount, group, b, j)[x], Filled(matchCount, group, b, j)[y])
  {
    if j > 0 {
      FilledInOrder(matchCount, group, b, j - 1);
      FilledContents(matchCount, group, b, j - 1);
      DealtInOrder(matchCount, group, b, j - 1, matchCount);
      DealtContents(matchCount, group, b, j - 1, matchCount);
      hide BucketOf, Dealt;
      var before, last := Filled(matchCount, group, b, j - 1), Dealt(matchCount, group, b, j - 1, matchCount);
      assert forall x :: 0 <= x < |before| ==> before[x] in before;
      assert forall x :: 0 <= x < |last| ==> last[x] in last;
    }
  }

  // ----- how full a bucket gets

  /** How many of the numbers below i lie in the b-th group. */
  function Overlap(i: nat, group: nat, b: int): nat
    requires group > 0
  {
    if i <= b * group then 0 else if i - b * group <= group then i - b * group else group
  }

  lemma GroupNumber(i: nat, group: nat, b: int)
    requires group > 0
    ensures i / group == b <==> b * group <= i < b * group + group
  {
    assert i == (i / group) * group + i % group;
    if i / group < b {
      assert (i / group + 1) * group <= b * group;
    } else if i / group > b {
      assert (b + 1) * group <= (i / group) * group;
    }
  }

  function Front(matchCount: nat, j: nat, b: int): int {
    if j % 2 == 0 then b else matchCount / 2 - 1 - b
  }

  lemma {:induction false} DealtLength(matchCount: nat, group: nat, b: nat, j: nat, i: nat)
    requires group > 0 && b < matchCount / 2
    ensures |Dealt(matchCount, group, b, j, i)| == Overlap(i, group, Front(matchCount, j, b))
  {
    var front := Front(matchCount, j, b);
    if i == 0 {
      assert front * group >= 0;
    } else {
      DealtLength(matchCount, group, b, j, i - 1);
      GroupNumber(i - 1, group, front);
    }
  }

  /** The sum of j terms that alternate between x and y. */
  function Alternating(j: nat, x: nat, y: nat): nat {
    if j == 0 then 0 else Alternating(j - 1, x, y) + if j % 2 == 1 then x else y
  }

  lemma {:induction false} AlternatingSum(j: nat, x: nat, y: nat)
    ensures Alternating(2 * j, x, y) == j * (x + y)
    ensures Alternating(2 * j + 1, x, y) == j * (x + y) + x
  {
    AlternatingStep(j, x, y);
    if j > 0 {
      AlternatingStep(j - 1, x, y);
      hide Alternating;
      AlternatingSum(j - 1, x, y);
      assert j * (x + y) == (j - 1) * (x + y) + (x + y);
    }
  }

  lemma AlternatingStep(j: nat, x: nat, y: nat)
    ensures Alternating(2 * j + 1, x, y) == Alternating(2 * j, x, y) + x
    ensures Alternating(2 * (j + 1), x, y) == Alternating(2 * j + 1, x, y) + y
  {
  }

  lemma AlternatingTotal(j: nat, x: nat, y: nat)
    ensures Alternating(j, x, y) == (j - j / 2) * x + (j / 2) * y
  {
    hide Alternating;
    var half := j / 2;
    AlternatingSum(half, x, y);
    assert half * (x + y) == half * x + half * y;
    if j % 2 == 0 {
      assert j == 2 * half && j - half == half;
    } else {
      assert j == 2 * half + 1 && j - half == half + 1;
      assert (half + 1) * x == half * x + x;
    }
  }

  lemma {:induction false} FilledLength(matchCount: nat, group: nat, b: nat, j: nat)
    requires group > 0 && b < matchCount / 2
    ensures |Filled(matchCount, group, b, j)| ==
            Alternating(j, Overlap(matchCount, group, b), Overlap(matchCount, group, matchCount / 2 - 1 - b))
  {
    hide Dealt, Overlap, BucketOf;
    if j > 0 {
      var front, back := Overlap(matchCount, group, b), Overlap(matchCount, group, matchCount / 2 - 1 - b);
      FilledLength(matchCount, group, b, j - 1);
      DealtLength(matchCount, group, b, j - 1, matchCount);
      assert |Dealt(matchCount, group, b, j - 1, matchCount)| == if j % 2 == 1 then front else back;
      hide Front;
    }
  }

  // ----- exactly when the table is full

  ghost predicate Balanced(matchCount: nat, playerPerMatch: nat)
    requires playerPerMatch >= 2
  {
    forall b: nat :: b < matchCount / 2 ==> |Bucket(matchCount, playerPerMatch, b)| >= playerPerMatch
  }

  /** The match sizes every round can be paired with. */
  predicate AlwaysPairs(playerPerMatch: nat) {
    playerPerMatch in {2, 3, 4, 7, 8}
  }

  /** The match sizes four matches can be paired with. */
  predicate FourPairs(playerPerMatch: nat) {
    AlwaysPairs(playerPerMatch) || playerPerMatch == 5 || Passes(playerPerMatch) % 2 == 0
  }

  /** A bucket takes its share of every even place from the front and of every odd place from the back. */
  lemma BucketLength(matchCount: nat, playerPerMatch: nat, b: nat)
    requires playerPerMatch >= 2 && b < matchCount / 2
    ensures
      var passes, group := Passes(playerPerMatch), Group(playerPerMatch);
      |Bucket(matchCount, playerPerMatch, b)| ==
      (passes - passes / 2) * Overlap(matchCount, group, b) + (passes / 2) * Overlap(matchCount, group, matchCount / 2 - 1 - b)
  {
    var passes, group := Passes(playerPerMatch), Group(playerPerMatch);
    FilledLength(matchCount, group, b, passes);
    AlternatingTotal(passes, Overlap(matchCount, group, b), Overlap(matchCount, group, matchCount / 2 - 1 - b));
    hide Filled, Overlap, Alternating;
  }

  /** Two matches: the only bucket takes everybody dealt. */
  lemma TwoMatches(playerPerMatch: nat)
    requires playerPerMatch >= 2
    ensures |Bucket(2, playerPerMatch, 0)| == 2 * Passes(playerPerMatch)
  {
    hide Bucket;
    BucketLength(2, playerPerMatch, 0);
  }

  /** A group of two or of four divides every power of two that matters: all buckets fill alike. */
  lemma SmallGroups(matchCount: nat, playerPerMatch: nat, b: nat)
    requires AlwaysPairs(playerPerMatch) && b < matchCount / 2
    requires matchCount == 2 || matchCount % 4 == 0
    ensures |Bucket(matchCount, playerPerMatch, b)| == 2 * Passes(playerPerMatch)
  {
    hide Bucket;
    BucketLength(matchCount, playerPerMatch, b);
    var group := Group(playerPerMatch);
    if group == 2 {
      assert Overlap(matchCount, 2, b) == 2 && Overlap(matchCount, 2, matchCount / 2 - 1 - b) == 2;
    } else if matchCount == 2 {
      assert Overlap(2, 4, 0) == 2;
    } else {
      assert Overlap(matchCount, 4, b) + Overlap(matchCount, 4, matchCount / 2 - 1 - b) == 4;
    }
  }

  /** Four matches: the even places fill the first bucket, the odd places the second. */
  lemma FourMatches(playerPerMatch: nat)
    requires playerPerMatch >= 2
    ensures Balanced(4, playerPerMatch) <==> FourPairs(playerPerMatch)
    ensures FourPairs(playerPerMatch) && playerPerMatch % 2 == 0 ==>
              forall b: nat :: b < 2 ==> |Bucket(4, playerPerMatch, b)| == playerPerMatch
  {
    hide Bucket;
    BucketLength(4, playerPerMatch, 0);
    BucketLength(4, playerPerMatch, 1);
    var passes, group := Passes(playerPerMatch), Group(playerPerMatch);
    assert Balanced(4, playerPerMatch) <==>
      |Bucket(4, playerPerMatch, 0)| >= playerPerMatch && |Bucket(4, playerPerMatch, 1)| >= playerPerMatch;
    if passes >= 4 {
      assert Overlap(4, group, 0) == 4 && Overlap(4, group, 1) == 0;
      assert (passes / 2) * 0 == 0 == (passes - passes / 2) * 0;
    } else {
      assert passes == 1 || passes == 2 || passes == 3;
    }
  }

  /** Eight matches pair up only for the sizes that always do. */
  lemma EightMatches(playerPerMatch: nat)
    requires playerPerMatch >= 2 && !AlwaysPairs(playerPerMatch)
    ensures !Balanced(8, playerPerMatch)
  {
    hide Bucket;
    var passes, group := Passes(playerPerMatch), Group(playerPerMatch);
    BucketLength(8, playerPerMatch, 3);
    BucketLength(8, playerPerMatch, 2);
    if passes == 3 {
      assert Overlap(8, 3, 3) == 0 && Overlap(8, 3, 0) == 3;
    } else {
      assert Overlap(8, group, 2) == 0 && Overlap(8, group, 1) == if group >= 8 then 0 else 8 - group;
      assert (passes - passes / 2) * 0 == 0 == (passes / 2) * 0;
      assert passes == 5 || passes == 6 || passes == 7 || passes >= 8;
    }
  }

  /** All the rounds of a bracket of 2^w first-round matches can be paired. */
  ghost predicate AllBalanced(w: nat, playerPerMatch: nat)
    requires playerPerMatch >= 2
  {
    forall e: nat :: 1 <= e <= w ==> Balanced(Pow2(e), playerPerMatch)
  }

  /** What a caller can check beforehand. */
  predicate Pairable(firstRoundMatchCount: nat, playerPerMatch: nat) {
    firstRoundMatchCount <= 2 || AlwaysPairs(playerPerMatch) || (firstRoundMatchCount == 4 && FourPairs(playerPerMatch))
  }

  lemma Pow2Small(e: nat)
    ensures e >= 2 ==> Pow2(e) % 4 == 0
    ensures e >= 3 ==> Pow2(e) >= 8
    ensures Pow2(1) == 2 && Pow2(2) == 4 && Pow2(3) == 8
  {
    if e >= 2 {
      assert Pow2(e) == 4 * Pow2(e - 2);
    }
    if e >= 3 {
      Pow2Monotone(3, e);
    }
  }

  lemma AllBalancedIffPairable(w: nat, playerPerMatch: nat)
    requires playerPerMatch >= 2
    ensures AllBalanced(w, playerPerMatch) <==> Pairable(Pow2(w), playerPerMatch)
  {
    Pow2Small(w);
    if Pairable(Pow2(w), playerPerMatch) {
      forall e: nat | 1 <= e <= w
        ensures Balanced(Pow2(e), playerPerMatch)
      {
        PairableRound(w, playerPerMatch, e);
      }
    } else if w == 2 {
      FourMatches(playerPerMatch);
      assert !Balanced(Pow2(2), playerPerMatch);
    } else {
      EightMatches(playerPerMatch);
      assert !Balanced(Pow2(3), playerPerMatch);
    }
  }

  /** In a pairable bracket each bucket has room for everybody, and none to spare when matches are even. */
  lemma PairableRound(w: nat, playerPerMatch: nat, e: nat)
    requires playerPerMatch >= 2 && 1 <= e <= w && Pairable(Pow2(w), playerPerMatch)
    ensures Balanced(Pow2(e), playerPerMatch)
    ensures playerPerMatch % 2 == 0 ==>
              forall b: nat :: b < Pow2(e) / 2 ==> |Bucket(Pow2(e), playerPerMatch, b)| == playerPerMatch
  {
    hide Bucket;
    Pow2Small(w);
    Pow2Small(e);
    if e == 1 {
      TwoMatches(playerPerMatch);
    } else if AlwaysPairs(playerPerMatch) {
      forall b: nat | b < Pow2(e) / 2
        ensures |Bucket(Pow2(e), playerPerMatch, b)| == 2 * Passes(playerPerMatch)
      {
        SmallGroups(Pow2(e), playerPerMatch, b);
      }
    } else {
      FourMatches(playerPerMatch);
    }
  }

  // ----- rematches

  /**
   * Finishers of one match who meet again in the next round finished it in places
   * of equal parity, so its first and second never meet there.
   */
  lemma RematchParity(matchCount: nat, playerPerMatch: nat, b: nat, e: PlayerInfo, f: PlayerInfo)
    requires playerPerMatch >= 2 && matchCount % 4 == 0
    requires e in Bucket(matchCount, playerPerMatch, b) && f in Bucket(matchCount, playerPerMatch, b)
    requires e.match_ == f.match_
    ensures e.place % 2 == f.place % 2
  {
    FilledContents(matchCount, Group(playerPerMatch), b, Passes(playerPerMatch));
  }

  /** With matches of three or four, nobody meets anybody of their own match again in the next round. */
  lemma NoRematchOfFour(matchCount: nat, playerPerMatch: nat, b: nat, e: PlayerInfo, f: PlayerInfo)
    requires playerPerMatch in {3, 4} && matchCount % 4 == 0
    requires e in Bucket(matchCount, playerPerMatch, b) && f in Bucket(matchCount, playerPerMatch, b)
    requires e.match_ == f.match_
    ensures e == f
  {
    RematchParity(matchCount, playerPerMatch, b, e, f);
    FilledContents(matchCount, Group(playerPerMatch), b, Passes(playerPerMatch));
  }

  // ----- the tables, as the program builds them

  lemma NextInGroup(group: nat, i: nat)
    requires group > 0
    ensures i % group == group - 1 ==> (i + 1) / group == i / group + 1 && (i + 1) % group == 0
    ensures i % group < group - 1 ==> (i + 1) / group == i / group && (i + 1) % group == i % group + 1
  {
    var q, r := i / group, i % group;
    assert i == q * group + r;
    if r == group - 1 {
      GroupNumber(i + 1, group, q + 1);
      assert (q + 1) * group == q * group + group;
    } else {
      GroupNumber(i + 1, group, q);
    }
    assert i + 1 == ((i + 1) / group) * group + (i + 1) % group;
  }

  /** The running bucket number moves on after every full group. */
  lemma NextBucket(matchCount: nat, group: nat, j: nat, i: nat)
    requires group > 0
    ensures BucketOf(matchCount, group, j, 0) == if j % 2 == 0 then 0 else matchCount / 2 - 1
    ensures BucketOf(matchCount, group, j, i + 1) ==
            BucketOf(matchCount, group, j, i) + if i % group < group - 1 then 0 else if j % 2 == 0 then 1 else -1
  {
    NextInGroup(group, i);
  }

  lemma DealtStep(matchCount: nat, group: nat, b: nat, j: nat, i: nat)
    requires group > 0
    ensures Dealt(matchCount, group, b, j, 0) == [] && Filled(matchCount, group, b, 0) == []
    ensures Dealt(matchCount, group, b, j, i + 1) ==
            Dealt(matchCount, group, b, j, i) + if BucketOf(matchCount, group, j, i) == b then [PlayerInfo(i, j)] else []
    ensures Filled(matchCount, group, b, j + 1) == Filled(matchCount, group, b, j) + Dealt(matchCount, group, b, j, matchCount)
  {
  }

  lemma BucketInRange(matchCount: nat, group: nat, j: nat, i: nat)
    requires group >= 2 && i < matchCount && matchCount % 2 == 0
    ensures 0 <= BucketOf(matchCount, group, j, i) < matchCount / 2
  {
    GroupNumber(i, group, i / group);
    assert (i / group) * group >= (i / group) * 2;
  }

  method EmptyBuckets(matchCount: nat) returns (final: seq<seq<PlayerInfo>>)
    ensures |final| == matchCount / 2 && forall b :: 0 <= b < |final| ==> final[b] == []
  {
    final := [];
    for i := 0 to matchCount / 2
      invariant |final| == i && forall b :: 0 <= b < i ==> final[b] == []
    {
      final := final + [[]];
    }
  }

  /**
   * The table for matches of more than two. The program counts the places left in
   * a bucket in halves when matches are odd; `counter` is twice that number.
   */
  method LeastRematchIndexes(playerCount: nat, playerPerMatch: nat) returns (final: seq<seq<PlayerInfo>>)
    requires playerPerMatch > 2 && playerCount % playerPerMatch == 0 && (playerCount / playerPerMatch) % 2 == 0
    ensures final == Buckets(playerCount / playerPerMatch, playerPerMatch)
  {
    var matchCount := playerCount / playerPerMatch;
    ghost var group := Group(playerPerMatch);
    final := EmptyBuckets(matchCount);
    forall b: nat { DealtStep(matchCount, group, b, 0, 0); }
    hide Dealt, Filled;
    var j := 0;
    while 2 * j < playerPerMatch
      invariant j <= Passes(playerPerMatch) && |final| == matchCount / 2
      invariant forall b: nat :: b < matchCount / 2 ==> final[b] == Filled(matchCount, group, b, j)
    {
      final := DealPlace(matchCount, playerPerMatch, j, final);
      j := j + 1;
    }
  }

  /** The buckets once the first i matches have dealt their finisher of place j. */
  ghost predicate DealtSoFar(matchCount: nat, group: nat, j: nat, i: nat, before: seq<seq<PlayerInfo>>, final: seq<seq<PlayerInfo>>)
    requires group > 0
  {
    && |final| == |before| == matchCount / 2
    && forall b: nat :: b < matchCount / 2 ==> final[b] == before[b] + Dealt(matchCount, group, b, j, i)
  }

  lemma DealtOneMore(matchCount: nat, group: nat, j: nat, i: nat, before: seq<seq<PlayerInfo>>, final: seq<seq<PlayerInfo>>, k: nat)
    requires group > 0 && DealtSoFar(matchCount, group, j, i, before, final)
    requires k < matchCount / 2 && k == BucketOf(matchCount, group, j, i)
    ensures DealtSoFar(matchCount, group, j, i + 1, before, final[k := final[k] + [PlayerInfo(i, j)]])
  {
    forall b: nat { DealtStep(matchCount, group, b, j, i); }
    hide Dealt, BucketOf;
  }

  lemma AllDealt(matchCount: nat, group: nat, j: nat, before: seq<seq<PlayerInfo>>, final: seq<seq<PlayerInfo>>)
    requires group > 0 && DealtSoFar(matchCount, group, j, matchCount, before, final)
    requires forall b: nat :: b < matchCount / 2 ==> before[b] == Filled(matchCount, group, b, j)
    ensures forall b: nat :: b < matchCount / 2 ==> final[b] == Filled(matchCount, group, b, j + 1)
  {
    forall b: nat { DealtStep(matchCount, group, b, j, 0); }
    hide Dealt, Filled;
  }

  /** One pass of the outer loop: every match deals its finisher of place j. */
  method DealPlace(matchCount: nat, playerPerMatch: nat, j: nat, before: seq<seq<PlayerInfo>>)
    returns (final: seq<seq<PlayerInfo>>)
    requires playerPerMatch > 2 && matchCount % 2 == 0 && |before| == matchCount / 2
    requires forall b: nat :: b < matchCount / 2 ==> before[b] == Filled(matchCount, Group(playerPerMatch), b, j)
    ensures |final| == matchCount / 2
    ensures forall b: nat :: b < matchCount / 2 ==> final[b] == Filled(matchCount, Group(playerPerMatch), b, j + 1)
  {
    final := before;
    ghost var group := Group(playerPerMatch);
    var k := if j % 2 == 0 then 0 else matchCount / 2 - 1;
    var increment := if j % 2 == 0 then 1 else -1;
    var counter: int := playerPerMatch;
    NextBucket(matchCount, group, j, 0);
    assert DealtSoFar(matchCount, group, j, 0, before, final);
    hide Dealt, Filled, BucketOf;
    for i := 0 to matchCount
      invariant |final| == matchCount / 2
      invariant k == BucketOf(matchCount, group, j, i) && counter == playerPerMatch - 2 * (i % group)
      invariant DealtSoFar(matchCount, group, j, i, before, final)
    {
      hide DealtSoFar;
      BucketInRange(matchCount, group, j, i);
      NextInGroup(group, i);
      NextBucket(matchCount, group, j, i);
      DealtOneMore(matchCount, group, j, i, before, final, k);
      final := final[k := final[k] + [PlayerInfo(i, j)]];
      counter := counter - 2;
      if counter <= 0 {
        counter := playerPerMatch;
        k := k + increment;
      }
    }
    AllDealt(matchCount, group, j, before, final);
  }

  /** The table for matches of two: the winners of neighbouring matches meet. */
  method DirectMatchIndexes(playerCount: nat, playerPerMatch: nat) returns (final: seq<seq<PlayerInfo>>)
    requires playerPerMatch == 2 && playerCount % playerPerMatch == 0 && (playerCount / playerPerMatch) % 2 == 0
    ensures final == Buckets(playerCount / playerPerMatch, playerPerMatch)
  {
    var matchCount := playerCount / playerPerMatch;
    final := EmptyBuckets(matchCount);
    var k := 0;
    var counter: int := playerPerMatch;
    for i := 0 to matchCount
      invariant |final| == matchCount / 2
      invariant k == i / 2 && counter == 2 - i % 2
      invariant forall b: nat :: b < matchCount / 2 ==> final[b] == Dealt(matchCount, 2, b, 0, i)
    {
      final := final[k := final[k] + [PlayerInfo(i, 0)]];
      counter := counter - 1;
      if counter <= 0 {
        counter := playerPerMatch;
        k := k + 1;
      }
    }
    forall b: nat | b < matchCount / 2
      ensures final[b] == Bucket(matchCount, playerPerMatch, b)
    {
      assert Filled(matchCount, 2, b, 1) == Filled(matchCount, 2, b, 0) + Dealt(matchCount, 2, b, 0, matchCount);
    }
  }

  method GetIndexes(playerCount: nat, playerPerMatch: nat) returns (indexes: seq<seq<PlayerInfo>>)
    requires playerPerMatch >= 2 && playerCount % playerPerMatch == 0 && (playerCount / playerPerMatch) % 2 == 0
    ensures indexes == Buckets(playerCount / playerPerMatch, playerPerMatch)
  {
    if playerPerMatch > 2 {
      indexes := LeastRematchIndexes(playerCount, playerPerMatch);
    } else {
      indexes := DirectMatchIndexes(playerCount, playerPerMatch);
    }
  }
}
