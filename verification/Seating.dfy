/** Who sits where in the first round of a generated bracket. */
module Seatings {
  import opened BracketPlans

  lemma PlaceOfSeed(seed: nat, p: nat, m: nat, slot: nat)
    requires p > 0 && 1 <= slot <= p
    ensures MatchOfSeed(seed, p) == m && SlotOfSeed(seed, p) == slot <==> seed == m * p + slot - 1
  {
    QuotientBelow(seed, p, m);
    QuotientBelow(seed, p, m + 1);
    assert (m + 1) * p == m * p + p;
    assert seed == (seed / p) * p + seed % p;
  }

  /**
   * When the first round has room for everybody, every entrant is seated, in
   * seeding order, no two in one slot, and the slots left free are the byes:
   * those past the last entrant.
   */
  lemma EverybodySeatedOnce(n: nat, p: nat, entrantCount: int, seats: seq<Seat>, m: nat, slot: nat)
    requires p > 0 && n * p >= entrantCount && m < n && 1 <= slot <= p
    requires seats == FirstWave(Ids(0, n), SeatedCount(n * p, entrantCount), p)
    ensures |seats| == (if entrantCount < 0 then 0 else entrantCount)
    ensures forall i :: 0 <= i < |seats| ==> seats[i].seed == i && seats[i].match_ < n && 1 <= seats[i].slot <= p
    ensures forall i :: 0 <= i < |seats| ==> (seats[i].match_ == m && seats[i].slot == slot <==> i == m * p + slot - 1)
  {
    forall i | 0 <= i < |seats|
      ensures seats[i].seed == i && seats[i].match_ < n && 1 <= seats[i].slot <= p
      ensures seats[i].match_ == m && seats[i].slot == slot <==> i == m * p + slot - 1
    {
      QuotientBelow(i, p, n);
      PlaceOfSeed(i, p, m, slot);
      assert seats[i] == SeatOf(Ids(0, n), i, p);
      assert Ids(0, n)[MatchOfSeed(i, p)] == MatchOfSeed(i, p);
    }
  }

  /** The seats of a first round of n matches without byes. */
  function FullRound(n: nat, p: nat): seq<Seat>
    requires p > 0
  {
    FirstWave(Ids(0, n), n * p, p)
  }

  /** The i-th seat is that of the i-th entrant, and no two are in one slot. */
  ghost predicate OneEach(seats: seq<Seat>) {
    && (forall i :: 0 <= i < |seats| ==> seats[i].seed == i)
    && (forall i, j :: 0 <= i < j < |seats| ==> seats[i].match_ != seats[j].match_ || seats[i].slot != seats[j].slot)
  }

  /** A first round without byes seats one entrant in every slot, in order. */
  lemma SeatsOfFirstRound(n: nat, p: nat)
    requires p > 0
    ensures var seats := FullRound(n, p);
            OneEach(seats) && forall i :: 0 <= i < |seats| ==> seats[i].match_ < n && 1 <= seats[i].slot <= p
  {
    var seats := FirstWave(Ids(0, n), n * p, p);
    forall i | 0 <= i < |seats|
      ensures seats[i].seed == i && seats[i].match_ < n && 1 <= seats[i].slot <= p
      ensures i == seats[i].match_ * p + seats[i].slot - 1
    {
      QuotientBelow(i, p, n);
      assert seats[i] == SeatOf(Ids(0, n), i, p);
      assert Ids(0, n)[MatchOfSeed(i, p)] == MatchOfSeed(i, p);
      PlaceOfSeed(i, p, MatchOfSeed(i, p), SlotOfSeed(i, p));
    }
  }

  lemma SeatOfSlot(n: nat, p: nat, m: nat, slot: nat) returns (i: nat)
    requires p > 0 && m < n && 1 <= slot <= p
    ensures i < |FullRound(n, p)| && FullRound(n, p)[i].match_ == m && FullRound(n, p)[i].slot == slot
  {
    i := m * p + slot - 1;
    PlaceOfSeed(i, p, m, slot);
    QuotientBelow(i, p, n);
    assert FirstWave(Ids(0, n), n * p, p)[i] == SeatOf(Ids(0, n), i, p);
    assert Ids(0, n)[m] == m;
  }
}
