/** The probe protocol closed over its environment: whole passes (observe, size, distribute,
    probe, write) and runs of them. */

module ProbeRuns {
  import opened Options
  import opened PodPools
  import opened Scaling
  import opened Waterfill
  import opened Allocator
  import opened AllocatorLaws
  import opened Probes

  /** What a pass reads. */
  datatype Input = Input(observed: map<string, Observation>, now: int)

  ghost predicate Schedulable(pool: PodPool) {
    0 <= pool.replicas < MAX_INT32 && DistinctNames(pool.groups)
  }

  function Shares(pool: PodPool, book: Book, inp: Input): (s: Stage)
    requires 0 <= pool.replicas < MAX_INT32 && AllWellShaped(inp.observed)
    ensures |s.held| == |pool.groups| && Probeable(pool, s.held)
  {
    SplitProbeable(pool, CapacityMap(pool, book, inp.observed));
    Split(pool.replicas, pool.groups, CapacityMap(pool, book, inp.observed))
  }

  function Verdicts(pool: PodPool, book: Book, inp: Input, i: nat): (d: Decision)
    requires 0 <= pool.replicas < MAX_INT32 && AllWellShaped(inp.observed) && i < |pool.groups|
    ensures 0 <= d.target <= MAX_INT32
  {
    DecisionAt(pool, book, Shares(pool, book, inp).held, inp.observed, inp.now, i)
  }

  /** What the pass writes into each child's spec.replicas. */
  function Written(pool: PodPool, book: Book, inp: Input): (w: seq<int>)
    requires 0 <= pool.replicas < MAX_INT32 && AllWellShaped(inp.observed)
    ensures |w| == |pool.groups|
  {
    seq(|pool.groups|, i requires 0 <= i < |pool.groups| => Verdicts(pool, book, inp, i).target)
  }

  function NextBook(pool: PodPool, book: Book, inp: Input): Book
    requires 0 <= pool.replicas < MAX_INT32 && AllWellShaped(inp.observed)
  {
    BookAfter(pool, book, Shares(pool, book, inp).held, inp.observed, inp.now, |pool.groups|)
  }

  function Record(pool: PodPool, book: Book, i: nat): ProbeState
    requires i < |pool.groups|
  {
    StateOf(book, ProbeKey(pool, pool.groups[i].name))
  }

  /** A group counts as never sized only if the cache and the API server both miss its child:
      neither a failed read nor a foreign child is mistaken for a cold start. */
  lemma ColdStartNeedsTwoMisses(cached: Read, live: Read, outstanding: bool)
    ensures var reading := ChildCounts(cached, live);
      (reading.Known? && Capacity(reading.obs, outstanding).None?) <==> cached.Missing? && live.Missing?
  {
  }

  // ---- each group's record is its own ----

  lemma {:induction false} RecordFollows(pool: PodPool, book: Book, targets: seq<int>,
                                         observed: map<string, Observation>,
                                         now: int, n: nat, i: nat)
    requires Probeable(pool, targets) && DistinctNames(pool.groups)
    requires n <= |targets| && i < |targets| && pool.groups[i].scaling.opportunistic
    ensures Record(pool, BookAfter(pool, book, targets, observed, now, n), i)
         == if i < n then DecideFor(pool, book, targets, observed, now, i).0 else Record(pool, book, i)
  {
    if 0 < n {
      RecordFollows(pool, book, targets, observed, now, n - 1, i);
      if n - 1 != i {
        assert pool.groups[n - 1].name != pool.groups[i].name;
        KeysDiffer(pool, pool.groups[n - 1].name, pool.groups[i].name);
      }
    }
  }

  /** What one pass does to one opportunistic group depends on that group's own record. */
  lemma PassDecidesOwn(pool: PodPool, book: Book, inp: Input, i: nat)
    requires Schedulable(pool) && AllWellShaped(inp.observed)
    requires i < |pool.groups| && pool.groups[i].scaling.opportunistic
    ensures (Record(pool, NextBook(pool, book, inp), i), Verdicts(pool, book, inp, i))
         == Decide(Record(pool, book, i), Heartbeat(pool), Shares(pool, book, inp).held[i],
                   ObservationOf(inp.observed, pool.groups[i].name), inp.now)
  {
    var targets := Shares(pool, book, inp).held;
    RecordFollows(pool, book, targets, inp.observed, inp.now, i, i);
    RecordFollows(pool, book, targets, inp.observed, inp.now, |targets|, i);
  }

  /** A group that is not opportunistic is written its share and no more. */
  lemma OthersAreWrittenTheirShare(pool: PodPool, book: Book, inp: Input, i: nat)
    requires Schedulable(pool) && AllWellShaped(inp.observed)
    requires i < |pool.groups| && !pool.groups[i].scaling.opportunistic
    ensures Written(pool, book, inp)[i] == Shares(pool, book, inp).held[i]
    ensures Verdicts(pool, book, inp, i) == Decision(Written(pool, book, inp)[i], false, false, false)
  {
    hide Split, CapacityMap, BookAfter;
  }

  lemma {:induction false} StrangersStand(pool: PodPool, book: Book, targets: seq<int>,
                                          observed: map<string, Observation>,
                                          now: int, n: nat, key: string)
    requires Probeable(pool, targets) && n <= |targets|
    requires forall g :: g in pool.groups && g.scaling.opportunistic ==> key != ProbeKey(pool, g.name)
    ensures var book' := BookAfter(pool, book, targets, observed, now, n);
      (key in book' <==> key in book) && (key in book ==> book'[key] == book[key])
  {
    if 0 < n {
      StrangersStand(pool, book, targets, observed, now, n - 1, key);
      assert pool.groups[n - 1] in pool.groups;
    }
  }

  /** A pass touches the records of its own pool's opportunistic groups and no other. */
  lemma OtherRecordsStand(pool: PodPool, book: Book, inp: Input, key: string)
    requires Schedulable(pool) && AllWellShaped(inp.observed)
    requires forall g :: g in pool.groups && g.scaling.opportunistic ==> key != ProbeKey(pool, g.name)
    ensures var book' := NextBook(pool, book, inp);
      (key in book' <==> key in book) && (key in book ==> book'[key] == book[key])
  {
    StrangersStand(pool, book, Shares(pool, book, inp).held, inp.observed, inp.now, |pool.groups|, key);
  }

  // ---- the probe is outside the total ----

  lemma {:induction false} WrittenSum(pool: PodPool, book: Book, inp: Input, n: nat)
    requires Schedulable(pool) && AllWellShaped(inp.observed) && n <= |pool.groups|
    ensures SumTo(Written(pool, book, inp), n)
         == SumTo(Shares(pool, book, inp).held, n)
            + Awaiting(pool, book, Shares(pool, book, inp).held, inp.observed, inp.now, n)
  {
    hide Split, CapacityMap, BookAfter, StateOf, Heartbeat, ProbeKey;
    if 0 < n {
      WrittenSum(pool, book, inp, n - 1);
    }
  }

  /** Every pass writes exactly the pool's total, less what is unplaced, plus one replica
      for each group that is awaiting a verdict. */
  lemma ProbesRideOutsideTheTotal(pool: PodPool, book: Book, inp: Input)
    requires Schedulable(pool) && AllWellShaped(inp.observed) && 0 < |pool.groups|
    ensures Sum(Written(pool, book, inp)) + Shares(pool, book, inp).left
         == pool.replicas
            + Awaiting(pool, book, Shares(pool, book, inp).held, inp.observed, inp.now, |pool.groups|)
  {
    WrittenSum(pool, book, inp, |pool.groups|);
    DistributionConserves(pool.replicas, pool.groups, CapacityMap(pool, book, inp.observed));
  }

  /** A pool scaled to zero goes on asking: each idle opportunistic group is written one
      replica, not none, exactly on the passes its heartbeat allows. */
  lemma ZeroPoolStillProbes(pool: PodPool, book: Book, inp: Input, i: nat)
    requires Schedulable(pool) && AllWellShaped(inp.observed) && pool.replicas == 0
    requires i < |pool.groups| && pool.groups[i].scaling.opportunistic
    requires var obs := ObservationOf(inp.observed, pool.groups[i].name); obs.found && obs.asked == 0
    ensures Written(pool, book, inp)[i]
         == if HeartbeatElapsed(Record(pool, book, i), Heartbeat(pool), inp.now) then 1 else 0
  {
    hide NextBook, BookAfter, DecisionAt, Heartbeat, ProbeKey, CapacityMap;
    PassDecidesOwn(pool, book, inp, i);
    ObservedIsShaped(inp.observed, pool.groups[i].name);
  }

  // ---- a probe is never funded by another group ----

  /** What observing a pool yields: an entry for each of its opportunistic groups. */
  ghost predicate Observed(pool: PodPool, observed: map<string, Observation>) {
    && AllWellShaped(observed)
    && (forall name :: name in observed <==> exists g :: g in pool.groups && g.scaling.opportunistic && g.name == name)
  }

  function CapacityAt(pool: PodPool, book: Book, inp: Input, i: nat): Option<int32>
    requires i < |pool.groups| && AllWellShaped(inp.observed)
  {
    Capacity(ObservationOf(inp.observed, pool.groups[i].name), Record(pool, book, i).outstanding)
  }

  /** The group's share is all the capacity concluded for it. */
  predicate AtCapacity(pool: PodPool, book: Book, inp: Input, i: nat)
    requires 0 <= pool.replicas < MAX_INT32 && AllWellShaped(inp.observed) && i < |pool.groups|
  {
    CapacityAt(pool, book, inp, i) == Some(Shares(pool, book, inp).held[i])
  }

  /** Group i reads back what the pass wrote, with an open question's replica not ready and
      nothing refused except, at most, that replica; nor is it short under a question that is
      on record but was not put to a child the pass could read. */
  ghost predicate LandedUnproven(pool: PodPool, book: Book, inp: Input, inp': Input, i: nat)
    requires Schedulable(pool) && AllWellShaped(inp.observed) && i < |pool.groups|
  {
    var d := Verdicts(pool, book, inp, i);
    var next := ObservationOf(inp'.observed, pool.groups[i].name);
    && next.found && next.asked == d.target
    && if d.awaitVerdict then next.ready < next.asked && next.unschedulable <= 1
       else
         var outstanding := Record(pool, NextBook(pool, book, inp), i).outstanding;
         next.unschedulable == 0 && (outstanding ==> next.asked <= next.ready)
  }

  /** An open question was given up on a child that was read: its replica is to be withdrawn. */
  predicate Withdraws(pool: PodPool, book: Book, inp: Input, i: nat)
    requires 0 <= pool.replicas < MAX_INT32 && AllWellShaped(inp.observed) && i < |pool.groups|
  {
    Verdicts(pool, book, inp, i).abandoned && ObservationOf(inp.observed, pool.groups[i].name).found
  }

  /** Between two passes no replica was proven and none but a question's was refused: each
      opportunistic group reads back what the pass wrote it, or what it read before -- though
      not with a withdrawn replica still in the count. */
  ghost predicate Unproven(pool: PodPool, book: Book, inp: Input, inp': Input)
    requires Schedulable(pool) && AllWellShaped(inp.observed)
  {
    && AllWellShaped(inp'.observed)
    && forall i :: 0 <= i < |pool.groups| && pool.groups[i].scaling.opportunistic ==>
         LandedUnproven(pool, book, inp, inp', i) || !Moves(pool, book, inp, inp', i)
  }

  /** The group reads back changed, or its question was given up. */
  predicate Moves(pool: PodPool, book: Book, inp: Input, inp': Input, i: nat)
    requires 0 <= pool.replicas < MAX_INT32 && AllWellShaped(inp.observed) && i < |pool.groups|
  {
    var name := pool.groups[i].name;
    ObservationOf(inp'.observed, name) != ObservationOf(inp.observed, name) || Withdraws(pool, book, inp, i)
  }

  /** An issuing pass always asks a group standing at its capacity. */
  lemma IssueIsAtCapacity(pool: PodPool, book: Book, inp: Input, i: nat)
    requires Schedulable(pool) && AllWellShaped(inp.observed)
    requires i < |pool.groups| && pool.groups[i].scaling.opportunistic && Verdicts(pool, book, inp, i).issued
    ensures AtCapacity(pool, book, inp, i)
  {
    hide Split, NextBook, DecisionAt, BookAfter, Heartbeat, ProbeKey;
    PassDecidesOwn(pool, book, inp, i);
    ObservedIsShaped(inp.observed, pool.groups[i].name);
  }

  /** An open question stands at its group's capacity exactly when it is new or its replica is
      the one above the group's present share. */
  lemma OpenQuestionAtCapacityExactly(pool: PodPool, book: Book, inp: Input, i: nat)
    requires Schedulable(pool) && AllWellShaped(inp.observed)
    requires i < |pool.groups| && pool.groups[i].scaling.opportunistic && Verdicts(pool, book, inp, i).awaitVerdict
    ensures AtCapacity(pool, book, inp, i)
       <==> || Verdicts(pool, book, inp, i).issued
            || ObservationOf(inp.observed, pool.groups[i].name).asked == Shares(pool, book, inp).held[i] + 1
  {
    hide Split, NextBook, DecisionAt, BookAfter, Heartbeat, ProbeKey;
    PassDecidesOwn(pool, book, inp, i);
    ObservedIsShaped(inp.observed, pool.groups[i].name);
  }

  lemma ObservedIsShaped(observed: map<string, Observation>, name: string)
    requires AllWellShaped(observed)
    ensures WellShaped(ObservationOf(observed, name))
  {
  }

  /** What the next pass concludes of one group: its share if the group moved, and otherwise
      what was concluded before. */
  lemma UnprovenNextCapacity(pool: PodPool, book: Book, inp: Input, inp': Input, i: nat)
    requires Schedulable(pool) && AllWellShaped(inp.observed) && Unproven(pool, book, inp, inp')
    requires i < |pool.groups| && pool.groups[i].scaling.opportunistic
    ensures CapacityAt(pool, NextBook(pool, book, inp), inp', i)
         == if Moves(pool, book, inp, inp', i) then Some(Shares(pool, book, inp).held[i])
            else CapacityAt(pool, book, inp, i)
  {
    hide Split, NextBook, DecisionAt, BookAfter, Heartbeat, ProbeKey;
    PassDecidesOwn(pool, book, inp, i);
    ObservedIsShaped(inp.observed, pool.groups[i].name);
    ObservedIsShaped(inp'.observed, pool.groups[i].name);
  }

  /** A group's entry in the capacity map is the capacity concluded for it. */
  lemma EntryIsCapacity(pool: PodPool, book: Book, inp: Input, i: nat)
    requires AllWellShaped(inp.observed) && i < |pool.groups|
    ensures var capacity, name := CapacityMap(pool, book, inp.observed), pool.groups[i].name;
      CapacityAt(pool, book, inp, i) == if name in capacity then Some(capacity[name]) else None
  {
  }

  /** While nothing is proven nobody's share moves, whatever is open, refused or withdrawn. */
  lemma UnprovenMovesNobody(pool: PodPool, book: Book, inp: Input, inp': Input)
    requires Schedulable(pool) && AllWellShaped(inp.observed) && Unproven(pool, book, inp, inp')
    ensures Shares(pool, NextBook(pool, book, inp), inp') == Shares(pool, book, inp)
  {
    hide Split, NextBook, DecisionAt, BookAfter, CapacityAt, CapacityMap;
    var book' := NextBook(pool, book, inp);
    var capacity, capacity' := CapacityMap(pool, book, inp.observed), CapacityMap(pool, book', inp'.observed);
    forall i | 0 <= i < |pool.groups| && pool.groups[i].scaling.opportunistic
      ensures var name := pool.groups[i].name;
        || (name in capacity' && capacity'[name] == Split(pool.replicas, pool.groups, capacity).held[i])
        || ((name in capacity <==> name in capacity') && (name in capacity ==> capacity'[name] == capacity[name]))
    {
      UnprovenNextCapacity(pool, book, inp, inp', i);
      EntryIsCapacity(pool, book, inp, i);
      EntryIsCapacity(pool, book', inp', i);
    }
    SharesAbsorbThemselves(pool.replicas, pool.groups, capacity, capacity');
  }

  // Two states in which a group reads back nothing new, or what it was written, are left out.

  /** The first funds a probe: a question that was given up on, read back with its replica still
      in the count, is taken for one replica of capacity more. */
  lemma UnwithdrawnReplicaCounts(pool: PodPool, book: Book, inp: Input, inp': Input, i: nat)
    requires Schedulable(pool) && AllWellShaped(inp.observed) && AllWellShaped(inp'.observed)
    requires i < |pool.groups| && pool.groups[i].scaling.opportunistic && Withdraws(pool, book, inp, i)
    requires ObservationOf(inp'.observed, pool.groups[i].name) == ObservationOf(inp.observed, pool.groups[i].name)
    ensures CapacityAt(pool, book, inp, i).Some?
    ensures CapacityAt(pool, NextBook(pool, book, inp), inp', i) == Some(CapacityAt(pool, book, inp, i).value + 1)
  {
    hide Split, NextBook, DecisionAt, BookAfter, Heartbeat, ProbeKey;
    PassDecidesOwn(pool, book, inp, i);
    ObservedIsShaped(inp.observed, pool.groups[i].name);
  }

  /** The second takes one away: a child that could not be read while its question was open comes
      back, as written and still starting, and is held to the question nobody asked it. */
  lemma UnreadQuestionCosts(pool: PodPool, book: Book, inp: Input, inp': Input, i: nat)
    requires Schedulable(pool) && AllWellShaped(inp.observed) && AllWellShaped(inp'.observed)
    requires i < |pool.groups| && pool.groups[i].scaling.opportunistic
    requires !Verdicts(pool, book, inp, i).awaitVerdict && Record(pool, NextBook(pool, book, inp), i).outstanding
    requires var next := ObservationOf(inp'.observed, pool.groups[i].name);
      && next.found && next.asked == Verdicts(pool, book, inp, i).target
      && next.ready < next.asked && next.unschedulable == 0
    ensures !ObservationOf(inp.observed, pool.groups[i].name).found
    ensures CapacityAt(pool, NextBook(pool, book, inp), inp', i) == Some(Shares(pool, book, inp).held[i] - 1)
  {
    hide Split, NextBook, DecisionAt, BookAfter, Heartbeat, ProbeKey;
    PassDecidesOwn(pool, book, inp, i);
    ObservedIsShaped(inp.observed, pool.groups[i].name);
    ObservedIsShaped(inp'.observed, pool.groups[i].name);
  }

  /** Two passes of one pool agree on the capacity map exactly when they agree group by group. */
  lemma SameMapExactly(pool: PodPool, book: Book, inp: Input, book': Book, inp': Input)
    requires Observed(pool, inp.observed) && Observed(pool, inp'.observed)
    ensures CapacityMap(pool, book', inp'.observed) == CapacityMap(pool, book, inp.observed)
       <==> forall i :: 0 <= i < |pool.groups| && pool.groups[i].scaling.opportunistic ==>
              CapacityAt(pool, book', inp', i) == CapacityAt(pool, book, inp, i)
  {
    hide CapacityAt, WellShaped, CapacityMap;
    var capacity, capacity' := CapacityMap(pool, book, inp.observed), CapacityMap(pool, book', inp'.observed);
    forall i | 0 <= i < |pool.groups|
      ensures var name := pool.groups[i].name;
        CapacityAt(pool, book', inp', i) == CapacityAt(pool, book, inp, i)
        <==> (name in capacity <==> name in capacity') && (name in capacity ==> capacity'[name] == capacity[name])
    {
      EntryIsCapacity(pool, book, inp, i);
      EntryIsCapacity(pool, book', inp', i);
    }
    if forall i :: 0 <= i < |pool.groups| && pool.groups[i].scaling.opportunistic ==>
      CapacityAt(pool, book', inp', i) == CapacityAt(pool, book, inp, i)
    {
      forall name
        ensures (name in capacity <==> name in capacity') && (name in capacity ==> capacity'[name] == capacity[name])
      {
        KeysAreObserved(pool, book, inp, name);
        KeysAreObserved(pool, book', inp', name);
        if name in inp.observed {
          var g :| g in pool.groups && g.scaling.opportunistic && g.name == name;
          var i :| 0 <= i < |pool.groups| && pool.groups[i] == g;
        }
      }
    }
  }

  lemma KeysAreObserved(pool: PodPool, book: Book, inp: Input, name: string)
    requires AllWellShaped(inp.observed)
    ensures name in CapacityMap(pool, book, inp.observed) ==> name in inp.observed
  {
  }

  // ---- runs ----

  ghost predicate Readable(ins: seq<Input>) {
    forall j :: 0 <= j < |ins| ==> AllWellShaped(ins[j].observed)
  }

  function BookAt(pool: PodPool, book: Book, ins: seq<Input>, n: nat): Book
    requires Schedulable(pool) && Readable(ins) && n <= |ins|
  {
    if n == 0 then book else NextBook(pool, BookAt(pool, book, ins, n - 1), ins[n - 1])
  }

  ghost predicate UnprovenRun(pool: PodPool, book: Book, ins: seq<Input>)
    requires Schedulable(pool)
  {
    Readable(ins) && forall j :: 0 <= j < |ins| - 1 ==> Unproven(pool, BookAt(pool, book, ins, j), ins[j], ins[j + 1])
  }

  /** Group i moved on some pass up to n. */
  predicate MovedBy(pool: PodPool, book: Book, ins: seq<Input>, n: nat, i: nat)
    requires Schedulable(pool) && Readable(ins) && n < |ins| && i < |pool.groups|
  {
    0 < n && (MovedBy(pool, book, ins, n - 1, i) || Moves(pool, BookAt(pool, book, ins, n - 1), ins[n - 1], ins[n], i))
  }

  /** Over any run on which nothing is proven -- questions asked, left open, refused and taken
      back, for any number of groups at once -- no group's share moves. */
  lemma {:induction false} ProbeIsNeverFundedByOthers(pool: PodPool, book: Book, ins: seq<Input>, n: nat)
    requires Schedulable(pool) && UnprovenRun(pool, book, ins) && n < |ins|
    ensures Shares(pool, BookAt(pool, book, ins, n), ins[n]) == Shares(pool, book, ins[0])
  {
    hide Shares, NextBook, Unproven;
    if 0 < n {
      ProbeIsNeverFundedByOthers(pool, book, ins, n - 1);
      assert Unproven(pool, BookAt(pool, book, ins, n - 1), ins[n - 1], ins[n - 1 + 1]);
      UnprovenMovesNobody(pool, BookAt(pool, book, ins, n - 1), ins[n - 1], ins[n]);
    }
  }

  /** On such a run a group's capacity is what it was until the group moves, and its share
      from then on. */
  lemma {:induction false} CapacityIsOldOrShare(pool: PodPool, book: Book, ins: seq<Input>, n: nat, i: nat)
    requires Schedulable(pool) && UnprovenRun(pool, book, ins) && n < |ins|
    requires i < |pool.groups| && pool.groups[i].scaling.opportunistic
    ensures CapacityAt(pool, BookAt(pool, book, ins, n), ins[n], i)
         == if MovedBy(pool, book, ins, n, i) then Some(Shares(pool, book, ins[0]).held[i])
            else CapacityAt(pool, book, ins[0], i)
  {
    hide Shares, NextBook, Unproven, CapacityAt, Moves;
    if 0 < n {
      CapacityIsOldOrShare(pool, book, ins, n - 1, i);
      ProbeIsNeverFundedByOthers(pool, book, ins, n - 1);
      assert Unproven(pool, BookAt(pool, book, ins, n - 1), ins[n - 1], ins[n - 1 + 1]);
      UnprovenNextCapacity(pool, BookAt(pool, book, ins, n - 1), ins[n - 1], ins[n], i);
    }
  }

  /** So the capacity map is the first pass's exactly when every group that moved was at its
      capacity there. */
  lemma MapStandsExactly(pool: PodPool, book: Book, ins: seq<Input>, n: nat)
    requires Schedulable(pool) && UnprovenRun(pool, book, ins) && n < |ins|
    requires Observed(pool, ins[0].observed) && Observed(pool, ins[n].observed)
    ensures CapacityMap(pool, BookAt(pool, book, ins, n), ins[n].observed) == CapacityMap(pool, book, ins[0].observed)
       <==> forall i :: 0 <= i < |pool.groups| && pool.groups[i].scaling.opportunistic ==>
              MovedBy(pool, book, ins, n, i) ==> AtCapacity(pool, book, ins[0], i)
  {
    hide Shares, CapacityMap, CapacityAt, NextBook, Unproven, BookAt, MovedBy;
    SameMapExactly(pool, book, ins[0], BookAt(pool, book, ins, n), ins[n]);
    forall i | 0 <= i < |pool.groups| && pool.groups[i].scaling.opportunistic
      ensures CapacityAt(pool, BookAt(pool, book, ins, n), ins[n], i) == CapacityAt(pool, book, ins[0], i)
         <==> (MovedBy(pool, book, ins, n, i) ==> AtCapacity(pool, book, ins[0], i))
    {
      CapacityIsOldOrShare(pool, book, ins, n, i);
    }
  }

  // ---- growth only on proof ----

  ghost predicate SizedGroup(pool: PodPool, k: nat) {
    k < |pool.groups| && CelValid(pool.groups[k].scaling) && pool.groups[k].scaling.opportunistic
  }

  /** The child of group k is read back with what the previous pass wrote. */
  ghost predicate Landed(pool: PodPool, book: Book, inp: Input, inp': Input, k: nat)
    requires Schedulable(pool) && AllWellShaped(inp.observed) && AllWellShaped(inp'.observed) && k < |pool.groups|
  {
    var name := pool.groups[k].name;
    && ObservationOf(inp.observed, name).found
    && ObservationOf(inp'.observed, name).found
    && ObservationOf(inp'.observed, name).asked == Written(pool, book, inp)[k]
  }

  /** Group k's share never exceeds its floor grant and its concluded capacity both. */
  lemma ShareWithinCapacity(pool: PodPool, book: Book, inp: Input, k: nat)
    requires Schedulable(pool) && AllWellShaped(inp.observed) && SizedGroup(pool, k)
    requires ObservationOf(inp.observed, pool.groups[k].name).found
    ensures FloorGrant(pool.replicas, pool.groups, k) <= Shares(pool, book, inp).held[k]
         <= Max(FloorGrant(pool.replicas, pool.groups, k), CapacityAt(pool, book, inp, k).value)
  {
    var capacity := CapacityMap(pool, book, inp.observed);
    var name := pool.groups[k].name;
    assert name in inp.observed && CapacityIn(pool, book, inp.observed, name) == CapacityAt(pool, book, inp, k);
    FloorsComeFirst(pool.replicas, pool.groups, capacity, k);
    ObservedCapacityHolds(pool.replicas, pool.groups, capacity, k);
  }

  /** In any environment at all, once writes land, a sized group's written count rises by at
      most one per pass, and only on a pass that read every asked replica ready. */
  lemma GrowsOnlyOnProof(pool: PodPool, book: Book, inp: Input, inp': Input, k: nat)
    requires Schedulable(pool) && SizedGroup(pool, k)
    requires AllWellShaped(inp.observed) && AllWellShaped(inp'.observed) && Landed(pool, book, inp, inp', k)
    ensures var was, now := Written(pool, book, inp)[k], Written(pool, NextBook(pool, book, inp), inp')[k];
      var obs := ObservationOf(inp'.observed, pool.groups[k].name);
      now <= was + (if obs.asked <= obs.ready then 1 else 0)
  {
    hide Split, NextBook, DecisionAt, BookAfter, Heartbeat, ProbeKey, CapacityMap, FloorGrant;
    var book' := NextBook(pool, book, inp);
    PassDecidesOwn(pool, book, inp, k);
    PassDecidesOwn(pool, book', inp', k);
    ShareWithinCapacity(pool, book, inp, k);
    ShareWithinCapacity(pool, book', inp', k);
    ObservedIsShaped(inp'.observed, pool.groups[k].name);
  }

  ghost predicate LandedRun(pool: PodPool, book: Book, ins: seq<Input>, k: nat)
    requires Schedulable(pool) && k < |pool.groups|
  {
    Readable(ins) && forall j :: 0 <= j < |ins| - 1 ==> Landed(pool, BookAt(pool, book, ins, j), ins[j], ins[j + 1], k)
  }

  /** How many of the passes in (m, n] read all that was asked as ready. */
  function Proofs(pool: PodPool, ins: seq<Input>, k: nat, m: nat, n: nat): nat
    requires m <= n < |ins| && k < |pool.groups|
  {
    if m == n then 0
    else
      var obs := ObservationOf(ins[n].observed, pool.groups[k].name);
      Proofs(pool, ins, k, m, n - 1) + if obs.asked <= obs.ready then 1 else 0
  }

  /** Over any stretch of any run, a group grows by no more than the number of passes that
      proved every replica already asked for. */
  lemma {:induction false} GrowthIsPaidForInProofs(pool: PodPool, book: Book, ins: seq<Input>, k: nat, m: nat, n: nat)
    requires Schedulable(pool) && SizedGroup(pool, k) && LandedRun(pool, book, ins, k) && m <= n < |ins|
    ensures Written(pool, BookAt(pool, book, ins, n), ins[n])[k]
         <= Written(pool, BookAt(pool, book, ins, m), ins[m])[k] + Proofs(pool, ins, k, m, n)
  {
    hide Written, Landed, NextBook, ObservationOf, AllWellShaped, Schedulable, CelValid;
    if m < n {
      GrowthIsPaidForInProofs(pool, book, ins, k, m, n - 1);
      assert Landed(pool, BookAt(pool, book, ins, n - 1), ins[n - 1], ins[n - 1 + 1], k);
      GrowsOnlyOnProof(pool, BookAt(pool, book, ins, n - 1), ins[n - 1], ins[n], k);
    }
  }
}
