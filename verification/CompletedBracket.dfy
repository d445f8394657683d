/**
 * The rounds of a finished bracket: contenders play in pairs, the winners are
 * the contenders of the next round, and every rule says where a winner went.
 */
module CompletedBrackets {
  import opened BracketPlans
  import opened SeedOrders

  datatype Played<T> = Played(first: T, second: T, winner: T)

  /** The best of the match `source` goes on to a slot, 1 or 2, of the match `target`. */
  datatype Rule = Rule(source: nat, target: nat, slot: nat)

  /** Whether the second of two entrants wins a match. */
  type Outcomes<!T> = (nat, T, T) -> bool

  function Play<T>(secondWins: Outcomes<T>, m: nat, first: T, second: T): Played<T> {
    Played(first, second, if secondWins(m, first, second) then second else first)
  }

  /** Who comes in on the sides of all matches, two a match: the entrants, then the winners of the matches in turn. */
  function Incoming<T>(entrants: seq<T>, planned: seq<Played<T>>, side: nat): T
    requires side < |entrants| + |planned|
  {
    if side < |entrants| then entrants[side] else planned[side - |entrants|].winner
  }

  ghost predicate SeatedAt<T>(entrants: seq<T>, secondWins: Outcomes<T>, planned: seq<Played<T>>, m: nat)
    requires m < |planned| < |entrants|
  {
    planned[m] == Play(secondWins, m, Incoming(entrants, planned, 2 * m), Incoming(entrants, planned, 2 * m + 1))
  }

  /** Every match seats the next two of those who come in. */
  ghost predicate Seated<T>(entrants: seq<T>, secondWins: Outcomes<T>, planned: seq<Played<T>>)
    requires |planned| < |entrants|
  {
    forall m :: 0 <= m < |planned| ==> SeatedAt(entrants, secondWins, planned, m)
  }

  /** The i-th rule leads out of the i-th match, to the side its winner comes in on. */
  ghost predicate Leads(n: nat, r: Rule, i: nat) {
    r.source == i && 1 <= r.slot <= 2 && 2 * r.target + r.slot - 1 == n + i
  }

  ghost predicate AllLead(n: nat, rules: seq<Rule>) {
    forall i :: 0 <= i < |rules| ==> Leads(n, rules[i], i)
  }

  ghost predicate Numbered(ids: seq<nat>, firstId: nat) {
    forall s :: 0 <= s < |ids| ==> ids[s] == firstId + s
  }

  /** The contenders are the next to come in. */
  ghost predicate UpNext<T>(entrants: seq<T>, planned: seq<Played<T>>, contenders: seq<T>) {
    && 2 * |planned| + |contenders| <= |entrants| + |planned|
    && forall s :: 0 <= s < |contenders| ==> contenders[s] == Incoming(entrants, planned, 2 * |planned| + s)
  }

  ghost predicate RoundOf<T>(contenders: seq<T>, firstId: nat, secondWins: Outcomes<T>, round: seq<Played<T>>)
    requires 2 * |round| <= |contenders|
  {
    forall p :: 0 <= p < |round| ==> round[p] == Play(secondWins, firstId + p, contenders[2 * p], contenders[2 * p + 1])
  }

  method PlayRound<T>(contenders: seq<T>, firstId: nat, secondWins: Outcomes<T>) returns (round: seq<Played<T>>)
    requires |contenders| % 2 == 0
    ensures 2 * |round| == |contenders|
    ensures RoundOf(contenders, firstId, secondWins, round)
  {
    round := [];
    for pair := 0 to |contenders| / 2
      invariant |round| == pair
      invariant RoundOf(contenders, firstId, secondWins, round)
    {
      round := round + [Play(secondWins, firstId + pair, contenders[2 * pair], contenders[2 * pair + 1])];
    }
  }

  /** One rule for every match of the previous round, into the round that starts at `firstId`. */
  method AddRules(rules: seq<Rule>, previousRound: seq<nat>, firstId: nat, ghost n: nat) returns (all: seq<Rule>)
    requires AllLead(n, rules) && Numbered(previousRound, |rules|)
    requires previousRound != [] ==> n + |rules| == 2 * firstId
    ensures |all| == |rules| + |previousRound|
    ensures AllLead(n, all)
  {
    all := rules;
    for source := 0 to |previousRound|
      invariant |all| == |rules| + source
      invariant AllLead(n, all)
    {
      var rule := Rule(previousRound[source], firstId + source / 2, source % 2 + 1);
      assert Leads(n, rule, |all|);
      all := all + [rule];
    }
  }

  function Winners<T>(round: seq<Played<T>>): seq<T> {
    seq(|round|, i requires 0 <= i < |round| => round[i].winner)
  }

  /** Rounds already played stay as they are when another is added. */
  lemma SeatedRound<T>(entrants: seq<T>, secondWins: Outcomes<T>, planned: seq<Played<T>>, contenders: seq<T>, round: seq<Played<T>>)
    requires |planned| + 2 * |round| == |entrants| && round != [] && Seated(entrants, secondWins, planned)
    requires |contenders| == 2 * |round|
    requires UpNext(entrants, planned, contenders)
    requires RoundOf(contenders, |planned|, secondWins, round)
    ensures Seated(entrants, secondWins, planned + round)
    ensures UpNext(entrants, planned + round, Winners(round))
  {
    var all := planned + round;
    forall m | 0 <= m < |all|
      ensures SeatedAt(entrants, secondWins, all, m)
    {
      if m < |planned| {
        assert SeatedAt(entrants, secondWins, planned, m);
      } else {
        var p := m - |planned|;
        assert contenders[2 * p] == Incoming(entrants, all, 2 * m);
        assert contenders[2 * p + 1] == Incoming(entrants, all, 2 * m + 1);
      }
    }
  }

  lemma IdsNumbered(firstId: nat, count: nat)
    ensures |Ids(firstId, count)| == count && Numbered(Ids(firstId, count), firstId)
  {
  }

  /** Plays the rounds down to one winner; every rule but the ones it does not need leads a winner on. */
  method PlayRounds<T>(entrants: seq<T>, secondWins: Outcomes<T>) returns (planned: seq<Played<T>>, rules: seq<Rule>)
    requires IsPow2(|entrants|)
    ensures |planned| == |entrants| - 1 && Seated(entrants, secondWins, planned)
    ensures |rules| == (if |entrants| == 1 then 0 else |entrants| - 2)
    ensures AllLead(|entrants|, rules)
  {
    planned, rules := [], [];
    var contenders := entrants;
    var previousRound: seq<nat> := [];
    ghost var e: nat :| |entrants| == Pow2(e);
    assert UpNext(entrants, planned, contenders) && AllLead(|entrants|, rules) && Numbered(previousRound, |rules|);
    hide Seated, RoundOf, Incoming, UpNext, AllLead, Numbered, Ids;
    while |contenders| > 1
      invariant |contenders| == Pow2(e) && |planned| == |entrants| - |contenders|
      invariant Seated(entrants, secondWins, planned)
      invariant UpNext(entrants, planned, contenders)
      invariant planned == [] ==> previousRound == [] && rules == []
      invariant planned != [] ==> |previousRound| == |contenders| && |rules| == |entrants| - 2 * |contenders|
      invariant Numbered(previousRound, |rules|) && AllLead(|entrants|, rules)
      decreases |contenders|
    {
      assert Pow2(e) == 2 * Pow2(e - 1);
      var firstId := |planned|;
      var round := PlayRound(contenders, firstId, secondWins);
      rules := AddRules(rules, previousRound, firstId, |entrants|);
      SeatedRound(entrants, secondWins, planned, contenders, round);
      planned := planned + round;
      contenders := Winners(round);
      previousRound := Ids(firstId, |round|);
      IdsNumbered(firstId, |round|);
      e := e - 1;
    }
  }

  // ----- what the rules and the seeding come to

  function Seat<T>(m: Played<T>, slot: nat): T {
    if slot == 1 then m.first else m.second
  }

  /** The entrants meet two by two, then the winners in the order of their matches. */
  lemma WhoPlays<T>(entrants: seq<T>, secondWins: Outcomes<T>, planned: seq<Played<T>>, m: nat)
    requires m < |planned| < |entrants| && Seated(entrants, secondWins, planned)
    ensures planned[m].first == (if 2 * m < |entrants| then entrants[2 * m] else planned[2 * m - |entrants|].winner)
    ensures planned[m].second == (if 2 * m + 1 < |entrants| then entrants[2 * m + 1] else planned[2 * m + 1 - |entrants|].winner)
    ensures planned[m].winner == if secondWins(m, planned[m].first, planned[m].second) then planned[m].second else planned[m].first
  {
    assert SeatedAt(entrants, secondWins, planned, m);
  }

  /** Every rule leads forward, to a match that seats the winner at the slot the rule names. */
  lemma RulesFollowWinners<T>(entrants: seq<T>, secondWins: Outcomes<T>, planned: seq<Played<T>>, r: Rule)
    requires |planned| < |entrants| && Seated(entrants, secondWins, planned)
    requires r.source < |planned| - 1 && |planned| == |entrants| - 1 && Leads(|entrants|, r, r.source)
    ensures r.source < r.target < |planned| && Seat(planned[r.target], r.slot) == planned[r.source].winner
  {
    assert SeatedAt(entrants, secondWins, planned, r.target);
  }

  /** A favourite always wins. */
  function Favourites(m: nat, first: int, second: int): bool {
    second < first
  }

  lemma FavouriteWins(entrants: seq<int>, planned: seq<Played<int>>, m: nat)
    requires m < |planned| < |entrants| && Seated(entrants, Favourites, planned)
    requires Incoming(entrants, planned, 2 * m) < Incoming(entrants, planned, 2 * m + 1)
    ensures Incoming(entrants, planned, |entrants| + m) == Incoming(entrants, planned, 2 * m)
  {
    assert SeatedAt(entrants, Favourites, planned, m);
  }

  /**
   * As long as favourites win, who comes into the round of 2^k is the order of
   * 2^k seeds, so the best left always meets the worst left.
   */
  lemma {:induction false} FavouritesMeetLate(j: nat, k: nat, planned: seq<Played<int>>, s: nat)
    requires k <= j && s < Pow2(k) <= Pow2(j)
    requires |planned| == Pow2(j) - 1 && Seated(Order(j), Favourites, planned)
    ensures Incoming(Order(j), planned, 2 * (Pow2(j) - Pow2(k)) + s) == Order(k)[s]
    decreases j - k
  {
    hide Order, Seated;
    if k == j {
      assert 2 * (Pow2(j) - Pow2(k)) + s == s;
    } else {
      hide Incoming;
      Pow2Monotone(k + 1, j);
      assert Pow2(k + 1) == 2 * Pow2(k);
      var m := Pow2(j) - Pow2(k + 1) + s;
      FavouritesMeetLate(j, k + 1, planned, 2 * s);
      FavouritesMeetLate(j, k + 1, planned, 2 * s + 1);
      hide Pow2;
      FirstRound(k + 1, s);
      assert 2 * (Pow2(j) - Pow2(k + 1)) + 2 * s == 2 * m && 2 * (Pow2(j) - Pow2(k)) + s == Pow2(j) + m;
      FavouriteWins(Order(j), planned, m);
    }
  }
}
