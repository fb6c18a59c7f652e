/** Three runs of one small pool from an empty record map, on which nothing is proven and the
    capacity map, or in the last even a share, moves all the same. */

module ProbeOverlap {
  import opened Options
  import opened PodPools
  import opened Scaling
  import opened Waterfill
  import opened Allocator
  import opened AllocatorLaws
  import opened Probes
  import opened ProbeRuns

  /** Two opportunistic groups in front of an unbounded one, nine replicas, a minute's heartbeat. */
  function Tiers(): PodPool {
    var sought, open := Constraints(None, None, None, true), Constraints(None, None, None, false);
    PodPool("ns", "pool", "uid", 9, [GroupSpec("a", sought), GroupSpec("b", sought), GroupSpec("c", open)], Some(60))
  }

  /** Both children found; the scheduler refused `refused` replicas of the second. */
  function Sight(askedA: int32, readyA: int32, askedB: int32, readyB: int32, refused: int32, seconds: int): (inp: Input)
    requires 0 <= askedA && 0 <= readyA && 0 <= askedB && 0 <= readyB && 0 <= refused <= 256
    requires 0 < refused ==> refused <= askedB - readyB
    ensures AllWellShaped(inp.observed)
  {
    Input(map["a" := Observation(true, false, askedA, readyA, 0),
              "b" := Observation(true, false, askedB, readyB, refused)],
          seconds * SECOND)
  }

  lemma TiersAreSchedulable()
    ensures Schedulable(Tiers()) && Heartbeat(Tiers()) == 60 * SECOND
    ensures |Tiers().groups| == 3 && Tiers().groups[1].scaling.opportunistic
  {
    assert Tiers().groups[0] in Tiers().groups;
  }

  /** The first group holds its capacity, the second its own as far as the first leaves room. */
  lemma TiersSplit(capacity: map<string, int32>)
    requires "a" in capacity && "b" in capacity && 0 <= capacity["a"] <= 9 && 0 <= capacity["b"]
    ensures var held := Split(9, Tiers().groups, capacity).held;
      held[0] == capacity["a"] && held[1] == Min(capacity["b"], 9 - capacity["a"])
  {
    hide Chased;
    var caps, st := CapacityOffers(Tiers().groups, capacity), Chased(9, Tiers().groups);
    TiersUntouched();
    assert caps[0] == UpTo(capacity["a"]) && caps[1] == UpTo(capacity["b"]);
    assert Left(caps, st, 0) == 9;
    assert Left(caps, st, 1) == 9 - capacity["a"];
    OverflowSkipsOpportunistic(9, Tiers().groups, capacity, 0);
    OverflowSkipsOpportunistic(9, Tiers().groups, capacity, 1);
  }

  lemma TiersUntouched()
    ensures Chased(9, Tiers().groups) == Start(9, 3)
  {
    var groups := Tiers().groups;
    forall i | 0 <= i < 3
      ensures FloorOffers(groups)[i] == UpTo(0) && TargetOffers(9, groups)[i] == Nothing
    {
    }
    NothingMoves(FloorOffers(groups), Start(9, 3), 3);
    assert Floored(9, groups).held == Start(9, 3).held;
    NothingMoves(TargetOffers(9, groups), Start(9, 3), 3);
    assert Chased(9, groups).held == Start(9, 3).held;
  }

  lemma {:induction false} NothingMoves(offers: seq<Offer>, st: Stage, n: nat)
    requires |offers| == |st.held| && n <= |offers|
    requires forall i :: 0 <= i < |offers| ==> st.held[i] == 0 && (offers[i] == Nothing || offers[i] == UpTo(0))
    ensures Left(offers, st, n) == st.left
    ensures forall i :: 0 <= i < n ==> After(offers, st, i) == 0
  {
    if 0 < n {
      NothingMoves(offers, st, n - 1);
    }
  }

  /** One pass of this pool, group by group. */
  lemma TiersPass(book: Book, inp: Input, a: int32, b: int32)
    requires AllWellShaped(inp.observed) && 0 <= a <= 9 && 0 <= b
    requires CapacityAt(Tiers(), book, inp, 0) == Some(a) && CapacityAt(Tiers(), book, inp, 1) == Some(b)
    ensures var shareB := Min(b, 9 - a);
      && Shares(Tiers(), book, inp).held[0] == a && Shares(Tiers(), book, inp).held[1] == shareB
      && (Record(Tiers(), NextBook(Tiers(), book, inp), 0), Verdicts(Tiers(), book, inp, 0))
         == Decide(Record(Tiers(), book, 0), 60 * SECOND, a, ObservationOf(inp.observed, "a"), inp.now)
      && (Record(Tiers(), NextBook(Tiers(), book, inp), 1), Verdicts(Tiers(), book, inp, 1))
         == Decide(Record(Tiers(), book, 1), 60 * SECOND, shareB, ObservationOf(inp.observed, "b"), inp.now)
  {
    hide Split, CapacityMap, CapacityAt, NextBook, Verdicts, Decide, Record;
    TiersAreSchedulable();
    EntryIsCapacity(Tiers(), book, inp, 0);
    EntryIsCapacity(Tiers(), book, inp, 1);
    TiersSplit(CapacityMap(Tiers(), book, inp.observed));
    PassDecidesOwn(Tiers(), book, inp, 0);
    PassDecidesOwn(Tiers(), book, inp, 1);
  }

  // ---- an older question, still open above its group's share ----

  const FIRST := Sight(3, 3, 6, 6, 0, 0)
  const LATER := Sight(4, 4, 7, 6, 0, 15)
  const THIRD := Sight(5, 4, 6, 5, 0, 30)

  function BookAfterFirst(): Book {
    NextBook(Tiers(), map[], FIRST)
  }

  lemma FirstPass()
    ensures Record(Tiers(), BookAfterFirst(), 0) == ProbeState(true, None, 0)
    ensures Record(Tiers(), BookAfterFirst(), 1) == ProbeState(true, None, 0)
  {
    hide NextBook, Shares, Verdicts;
    TiersPass(map[], FIRST, 3, 6);
  }

  /** One group proves its replica and asks on while the other's older question is open. */
  lemma LaterPass()
    ensures Verdicts(Tiers(), BookAfterFirst(), LATER, 0) == Decision(5, true, true, false)
    ensures Verdicts(Tiers(), BookAfterFirst(), LATER, 1) == Decision(6, false, true, false)
    ensures CapacityAt(Tiers(), BookAfterFirst(), LATER, 1) == Some(6)
    ensures Shares(Tiers(), BookAfterFirst(), LATER).held[1] == 5
  {
    hide NextBook, Shares, Verdicts;
    FirstPass();
    TiersPass(BookAfterFirst(), LATER, 4, 6);
  }

  lemma NothingIsProven()
    ensures Schedulable(Tiers()) && Unproven(Tiers(), BookAfterFirst(), LATER, THIRD)
  {
    hide NextBook, Shares, Verdicts, BookAfterFirst, CapacityAt;
    TiersAreSchedulable();
    LaterPass();
  }

  /** Both groups only read back their open questions; still the entry of the older question's
      group falls from six to the five its share had been cut to. */
  lemma OlderQuestionOutlivesItsShare()
    ensures Schedulable(Tiers()) && Unproven(Tiers(), BookAfterFirst(), LATER, THIRD)
    ensures Verdicts(Tiers(), BookAfterFirst(), LATER, 1).awaitVerdict
    ensures !AtCapacity(Tiers(), BookAfterFirst(), LATER, 1)
    ensures CapacityAt(Tiers(), BookAfterFirst(), LATER, 1) == Some(6)
    ensures CapacityAt(Tiers(), NextBook(Tiers(), BookAfterFirst(), LATER), THIRD, 1) == Some(5)
  {
    hide NextBook, Shares, Verdicts, BookAfterFirst, CapacityAt, Unproven;
    TiersAreSchedulable();
    NothingIsProven();
    LaterPass();
    UnprovenNextCapacity(Tiers(), BookAfterFirst(), LATER, THIRD, 1);
  }

  // ---- a squeezed neighbour, with every open question new ----

  const STARTING := Sight(3, 2, 6, 6, 0, 0)
  const REFUSED := Sight(3, 3, 7, 6, 1, 15)
  const GROWING := Sight(4, 4, 6, 6, 0, 30)
  const SQUEEZED := Sight(5, 4, 5, 5, 0, 45)

  function BookAfterStarting(): Book {
    NextBook(Tiers(), map[], STARTING)
  }

  function BookAfterRefused(): Book {
    NextBook(Tiers(), BookAfterStarting(), REFUSED)
  }

  lemma StartingPass()
    ensures Record(Tiers(), BookAfterStarting(), 0) == FRESH
    ensures Record(Tiers(), BookAfterStarting(), 1) == ProbeState(true, None, 0)
  {
    hide NextBook, Shares, Verdicts;
    TiersPass(map[], STARTING, 3, 6);
  }

  lemma RefusedPass()
    ensures Record(Tiers(), BookAfterRefused(), 0) == ProbeState(true, None, 15 * SECOND)
    ensures Record(Tiers(), BookAfterRefused(), 1) == ProbeState(false, Some(15 * SECOND), 0)
  {
    hide NextBook, Shares, Verdicts, BookAfterStarting;
    StartingPass();
    TiersPass(BookAfterStarting(), REFUSED, 3, 6);
  }

  /** The first group grows by its proven replica and asks on; the second is written down. */
  lemma GrowingPass()
    ensures Verdicts(Tiers(), BookAfterRefused(), GROWING, 0) == Decision(5, true, true, false)
    ensures Verdicts(Tiers(), BookAfterRefused(), GROWING, 1) == Decision(5, false, false, false)
    ensures !Record(Tiers(), NextBook(Tiers(), BookAfterRefused(), GROWING), 1).outstanding
    ensures CapacityAt(Tiers(), BookAfterRefused(), GROWING, 1) == Some(6)
    ensures Shares(Tiers(), BookAfterRefused(), GROWING).held[1] == 5
  {
    hide NextBook, Shares, Verdicts, BookAfterRefused;
    RefusedPass();
    TiersPass(BookAfterRefused(), GROWING, 4, 6);
  }

  lemma NothingIsProvenYet()
    ensures Schedulable(Tiers()) && Unproven(Tiers(), BookAfterRefused(), GROWING, SQUEEZED)
  {
    hide NextBook, Shares, Verdicts, BookAfterRefused, CapacityAt;
    TiersAreSchedulable();
    GrowingPass();
  }

  /** The only open question is the pass's own, put at capacity; still the neighbour's entry
      falls from six to the five it was written, when it reads them back. */
  lemma SqueezedNeighbourFollowsItsShare()
    ensures Schedulable(Tiers()) && Unproven(Tiers(), BookAfterRefused(), GROWING, SQUEEZED)
    ensures Verdicts(Tiers(), BookAfterRefused(), GROWING, 0).issued
    ensures !Verdicts(Tiers(), BookAfterRefused(), GROWING, 1).awaitVerdict
    ensures CapacityAt(Tiers(), BookAfterRefused(), GROWING, 1) == Some(6)
    ensures CapacityAt(Tiers(), NextBook(Tiers(), BookAfterRefused(), GROWING), SQUEEZED, 1) == Some(5)
  {
    hide NextBook, Shares, Verdicts, BookAfterRefused, CapacityAt, Unproven;
    TiersAreSchedulable();
    NothingIsProvenYet();
    GrowingPass();
    UnprovenNextCapacity(Tiers(), BookAfterRefused(), GROWING, SQUEEZED, 1);
  }

  // ---- a withdrawn replica read back ----

  const ASKING := Sight(3, 3, 6, 5, 0, 0)
  const GIVEN_UP := Sight(4, 3, 6, 5, 0, 120)
  const STALE := Sight(4, 3, 6, 5, 0, 121)

  function BookAfterAsking(): Book {
    NextBook(Tiers(), map[], ASKING)
  }

  function BookAfterGivenUp(): Book {
    NextBook(Tiers(), BookAfterAsking(), GIVEN_UP)
  }

  lemma AskingPass()
    ensures Record(Tiers(), BookAfterAsking(), 0) == ProbeState(true, None, 0)
    ensures Record(Tiers(), BookAfterAsking(), 1) == FRESH
  {
    hide NextBook, Shares, Verdicts;
    TiersPass(map[], ASKING, 3, 6);
  }

  lemma GivenUpPass()
    ensures Verdicts(Tiers(), BookAfterAsking(), GIVEN_UP, 0) == Decision(3, false, false, true)
    ensures !Record(Tiers(), BookAfterGivenUp(), 0).outstanding && !Record(Tiers(), BookAfterGivenUp(), 1).outstanding
    ensures Shares(Tiers(), BookAfterAsking(), GIVEN_UP).held[1] == 6
  {
    hide NextBook, Shares, Verdicts, BookAfterAsking;
    AskingPass();
    TiersPass(BookAfterAsking(), GIVEN_UP, 3, 6);
  }

  /** A question is given up after two minutes; the next pass still reads its replica, counts it
      as capacity, and cuts the neighbour's share from six to five for it. */
  lemma WithdrawnProbeIsFunded()
    ensures Schedulable(Tiers()) && Withdraws(Tiers(), BookAfterAsking(), GIVEN_UP, 0)
    ensures STALE.observed == GIVEN_UP.observed
    ensures Shares(Tiers(), BookAfterAsking(), GIVEN_UP).held[1] == 6
    ensures Shares(Tiers(), BookAfterGivenUp(), STALE).held[1] == 5
  {
    hide NextBook, Shares, Verdicts, BookAfterAsking, BookAfterGivenUp;
    TiersAreSchedulable();
    GivenUpPass();
    TiersPass(BookAfterGivenUp(), STALE, 4, 6);
  }
}
