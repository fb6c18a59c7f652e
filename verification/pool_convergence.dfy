/** The probe loops of all the opportunistic groups of a pool at once: each finds its room in
    turn, and the pool ends at the split it would have made knowing every room. */

module PoolConvergence {
  import opened PodPools
  import opened Scaling
  import opened Waterfill
  import opened Allocator
  import opened AllocatorLaws
  import opened Probes
  import opened ProbeRuns
  import opened Convergence

  ghost predicate AllSized(pool: PodPool) {
    && Schedulable(pool)
    && forall i :: 0 <= i < |pool.groups| && pool.groups[i].scaling.opportunistic ==> SizedGroup(pool, i)
  }

  /** How many replicas of each opportunistic group the scheduler keeps ready. */
  type Rooms = map<string, int32>

  predicate Roomy(pool: PodPool, rooms: Rooms) {
    forall i :: 0 <= i < |pool.groups| && pool.groups[i].scaling.opportunistic ==>
      pool.groups[i].name in rooms && 0 <= rooms[pool.groups[i].name]
  }

  /** What is asked of each child, and what the controller remembers. */
  datatype Loop = Loop(asked: seq<int32>, book: Book)

  predicate Fits(pool: PodPool, l: Loop) {
    |l.asked| == |pool.groups| && forall i :: 0 <= i < |l.asked| ==> 0 <= l.asked[i]
  }

  /** The first n groups' children as a pass observes them. */
  function Sight(pool: PodPool, rooms: Rooms, l: Loop, n: nat): (observed: map<string, Observation>)
    requires Roomy(pool, rooms) && Fits(pool, l) && n <= |pool.groups|
    ensures AllWellShaped(observed)
  {
    if n == 0 then map[]
    else
      var before := Sight(pool, rooms, l, n - 1);
      var g := pool.groups[n - 1];
      if g.scaling.opportunistic then before[g.name := Seen(l.asked[n - 1], rooms[g.name])] else before
  }

  function Pass(pool: PodPool, rooms: Rooms, l: Loop, now: int): (inp: Input)
    requires Roomy(pool, rooms) && Fits(pool, l)
    ensures AllWellShaped(inp.observed)
  {
    Input(Sight(pool, rooms, l, |pool.groups|), now)
  }

  function Step(pool: PodPool, rooms: Rooms, l: Loop, now: int): (l': Loop)
    requires 0 <= pool.replicas < MAX_INT32 && Roomy(pool, rooms) && Fits(pool, l)
    ensures Fits(pool, l')
  {
    var inp := Pass(pool, rooms, l, now);
    assert forall i :: 0 <= i < |pool.groups| ==>
      Written(pool, l.book, inp)[i] == Verdicts(pool, l.book, inp, i).target;
    Loop(Written(pool, l.book, inp), NextBook(pool, l.book, inp))
  }

  function LoopAt(pool: PodPool, rooms: Rooms, l: Loop, times: seq<int>, n: nat): (l': Loop)
    requires 0 <= pool.replicas < MAX_INT32 && Roomy(pool, rooms) && Fits(pool, l) && n <= |times|
    ensures Fits(pool, l')
  {
    if n == 0 then l else Step(pool, rooms, LoopAt(pool, rooms, l, times, n - 1), times[n - 1])
  }

  /** The split of a controller that knows every room. */
  function Best(pool: PodPool, rooms: Rooms): (s: Stage)
    requires 0 <= pool.replicas
    ensures |s.held| == |pool.groups|
  {
    Split(pool.replicas, pool.groups, rooms)
  }

  // ---- one group of many ----

  /** What bounds group k's share while the groups before it hold their part of the best split. */
  function Limits(pool: PodPool, rooms: Rooms, k: nat): Bounds
    requires AllSized(pool) && Roomy(pool, rooms) && k < |pool.groups| && pool.groups[k].scaling.opportunistic
  {
    LimitsFit(pool, rooms, k);
    var least := FloorGrant(pool.replicas, pool.groups, k);
    var left := Left(CapacityOffers(pool.groups, rooms), Chased(pool.replicas, pool.groups), k);
    Bounds(Heartbeat(pool), least, least + left, rooms[pool.groups[k].name])
  }

  lemma LimitsFit(pool: PodPool, rooms: Rooms, k: nat)
    requires AllSized(pool) && Roomy(pool, rooms) && k < |pool.groups| && pool.groups[k].scaling.opportunistic
    ensures 0 <= FloorGrant(pool.replicas, pool.groups, k)
    ensures var left := Left(CapacityOffers(pool.groups, rooms), Chased(pool.replicas, pool.groups), k);
      0 <= left && FloorGrant(pool.replicas, pool.groups, k) + left <= pool.replicas
  {
    hide Chased, FloorGrant, Left;
    var st := Chased(pool.replicas, pool.groups);
    ChasedIsFloorGrant(pool.replicas, pool.groups, k);
    StagesBalanced(pool.replicas, pool.groups, rooms);
    BalancedFits(pool.replicas, st, k);
    LeftShrinks(CapacityOffers(pool.groups, rooms), st, 0, k);
  }

  /** Within those bounds the group's resting place is its part of the best split. */
  lemma RestIsBest(pool: PodPool, rooms: Rooms, k: nat)
    requires AllSized(pool) && Roomy(pool, rooms) && k < |pool.groups| && pool.groups[k].scaling.opportunistic
    ensures Sound(Limits(pool, rooms, k))
    ensures 0 <= Rest(Limits(pool, rooms, k)) == Best(pool, rooms).held[k] <= pool.replicas
  {
    hide Split, Chased, FloorGrant;
    LimitsFit(pool, rooms, k);
    OpportunisticIsClamped(pool.replicas, pool.groups, rooms, k);
  }

  /** Every opportunistic group listed before k is at its part of the best split. */
  ghost predicate EarlierAtRest(pool: PodPool, rooms: Rooms, l: Loop, k: nat)
    requires AllSized(pool) && Roomy(pool, rooms) && Fits(pool, l) && k <= |pool.groups|
  {
    forall i :: 0 <= i < k && pool.groups[i].scaling.opportunistic ==> AtRest(l.asked[i], Best(pool, rooms).held[i])
  }

  lemma {:induction false} SightOf(pool: PodPool, rooms: Rooms, l: Loop, n: nat, i: nat)
    requires AllSized(pool) && Roomy(pool, rooms) && Fits(pool, l) && i < n <= |pool.groups|
    requires pool.groups[i].scaling.opportunistic
    ensures ObservationOf(Sight(pool, rooms, l, n), pool.groups[i].name) == Seen(l.asked[i], rooms[pool.groups[i].name])
  {
    hide Seen;
    if i < n - 1 {
      SightOf(pool, rooms, l, n - 1, i);
      assert pool.groups[i].name != pool.groups[n - 1].name;
    }
  }

  lemma {:induction false} SightHas(pool: PodPool, rooms: Rooms, l: Loop, n: nat, name: string)
    requires Roomy(pool, rooms) && Fits(pool, l) && n <= |pool.groups|
    ensures name in Sight(pool, rooms, l, n)
       <==> exists i :: 0 <= i < n && pool.groups[i].scaling.opportunistic && pool.groups[i].name == name
  {
    if 0 < n {
      SightHas(pool, rooms, l, n - 1, name);
    }
  }

  /** That sight is what ObserveOpportunistic promises of a world whose scheduler keeps to the
      rooms. */
  lemma SightIsObserved(pool: PodPool, rooms: Rooms, l: Loop, w: World, out: map<string, Observation>)
    requires AllSized(pool) && Roomy(pool, rooms) && Fits(pool, l)
    requires forall i :: 0 <= i < |pool.groups| && pool.groups[i].scaling.opportunistic ==>
      SchedulerKeeps(w, pool.groups[i].name, l.asked[i], rooms[pool.groups[i].name])
    requires forall name :: name in out <==> exists g :: g in pool.groups && g.scaling.opportunistic && g.name == name
    requires forall name :: name in out ==> FollowsFrom(w, name, out[name])
    ensures out == Sight(pool, rooms, l, |pool.groups|)
  {
    hide Seen, Sight, SchedulerKeeps, FollowsFrom;
    var sight := Sight(pool, rooms, l, |pool.groups|);
    forall name
      ensures (name in out <==> name in sight) && (name in out ==> out[name] == sight[name])
    {
      SightHas(pool, rooms, l, |pool.groups|, name);
      if name in out {
        var g :| g in pool.groups && g.scaling.opportunistic && g.name == name;
        var i :| 0 <= i < |pool.groups| && pool.groups[i] == g;
        SightOf(pool, rooms, l, |pool.groups|, i);
        SeenIsObserved(w, name, out[name], l.asked[i], rooms[name]);
      }
    }
  }

  function Reported(pool: PodPool, rooms: Rooms, l: Loop, now: int): map<string, int32>
    requires Roomy(pool, rooms) && Fits(pool, l)
  {
    CapacityMap(pool, l.book, Pass(pool, rooms, l, now).observed)
  }

  lemma ReportedIsConcluded(pool: PodPool, rooms: Rooms, l: Loop, now: int, i: nat)
    requires AllSized(pool) && Roomy(pool, rooms) && Fits(pool, l) && i < |pool.groups|
    requires pool.groups[i].scaling.opportunistic
    ensures var name := pool.groups[i].name;
      name in Reported(pool, rooms, l, now) && Reported(pool, rooms, l, now)[name] == Concluded(l.asked[i], rooms[name])
  {
    hide Seen, Concluded, Sight, Capacity, CapacityMap;
    var inp := Pass(pool, rooms, l, now);
    SightOf(pool, rooms, l, |pool.groups|, i);
    EntryIsCapacity(pool, l.book, inp, i);
    ConcludedIsCapacity(l.asked[i], rooms[pool.groups[i].name], Record(pool, l.book, i).outstanding);
  }

  /** A group at rest that has left before it what the best split leaves takes what it takes there. */
  lemma RestTakesTheSame(pool: PodPool, rooms: Rooms, l: Loop, now: int, i: nat)
    requires AllSized(pool) && Roomy(pool, rooms) && Fits(pool, l) && i < |pool.groups|
    requires pool.groups[i].scaling.opportunistic && AtRest(l.asked[i], Best(pool, rooms).held[i])
    requires var st := Chased(pool.replicas, pool.groups);
      Left(CapacityOffers(pool.groups, Reported(pool, rooms, l, now)), st, i)
      == Left(CapacityOffers(pool.groups, rooms), st, i)
    ensures var st := Chased(pool.replicas, pool.groups);
      After(CapacityOffers(pool.groups, Reported(pool, rooms, l, now)), st, i)
      == After(CapacityOffers(pool.groups, rooms), st, i)
  {
    hide Chased, Reported, Split, FloorGrant, Left, After, CapacityOffers;
    ReportedIsConcluded(pool, rooms, l, now, i);
    RestIsBest(pool, rooms, i);
    ShareAtRest(Limits(pool, rooms, i), l.asked[i]);
    SizedIsClamped(pool.replicas, pool.groups, Reported(pool, rooms, l, now), i);
    SizedIsClamped(pool.replicas, pool.groups, rooms, i);
  }

  lemma OthersAreSkipped(groups: seq<GroupSpec>, a: map<string, int32>, b: map<string, int32>, i: nat)
    requires i < |groups| && !groups[i].scaling.opportunistic
    ensures CapacityOffers(groups, a)[i] == CapacityOffers(groups, b)[i] == Nothing
  {
  }

  lemma LeftAfterOne(offers: seq<Offer>, offers': seq<Offer>, st: Stage, i: nat)
    requires |offers| == |offers'| == |st.held| && i < |offers| && Left(offers, st, i) == Left(offers', st, i)
    ensures offers[i] == offers'[i] ==> After(offers, st, i) == After(offers', st, i)
    ensures After(offers, st, i) == After(offers', st, i) ==> Left(offers, st, i + 1) == Left(offers', st, i + 1)
  {
  }

  /** While the groups before k are at rest, what they leave to k is what the best split leaves. */
  lemma {:induction false} RestLeavesTheSame(pool: PodPool, rooms: Rooms, l: Loop, now: int, k: nat)
    requires AllSized(pool) && Roomy(pool, rooms) && Fits(pool, l)
    requires k <= |pool.groups| && EarlierAtRest(pool, rooms, l, k)
    ensures var st := Chased(pool.replicas, pool.groups);
      && Left(CapacityOffers(pool.groups, Reported(pool, rooms, l, now)), st, k)
         == Left(CapacityOffers(pool.groups, rooms), st, k)
      && forall i :: 0 <= i < k ==>
           After(CapacityOffers(pool.groups, Reported(pool, rooms, l, now)), st, i)
           == After(CapacityOffers(pool.groups, rooms), st, i)
  {
    hide Chased, Reported, Best, After;
    if 0 < k {
      var i := k - 1;
      RestLeavesTheSame(pool, rooms, l, now, i);
      LeftAfterOne(CapacityOffers(pool.groups, Reported(pool, rooms, l, now)), CapacityOffers(pool.groups, rooms),
        Chased(pool.replicas, pool.groups), i);
      if pool.groups[i].scaling.opportunistic {
        RestTakesTheSame(pool, rooms, l, now, i);
      } else {
        OthersAreSkipped(pool.groups, Reported(pool, rooms, l, now), rooms, i);
      }
    }
  }

  function TrackOf(pool: PodPool, l: Loop, k: nat): Track
    requires Fits(pool, l) && k < |pool.groups|
  {
    Track(l.asked[k], Record(pool, l.book, k))
  }

  /** While the groups before it are at rest, a pass of the pool is a pass of group k alone. */
  lemma StepIsAdvance(pool: PodPool, rooms: Rooms, l: Loop, now: int, k: nat)
    requires AllSized(pool) && Roomy(pool, rooms) && Fits(pool, l) && k < |pool.groups|
    requires pool.groups[k].scaling.opportunistic && EarlierAtRest(pool, rooms, l, k)
    ensures Sound(Limits(pool, rooms, k))
    ensures TrackOf(pool, Step(pool, rooms, l, now), k) == Advance(Limits(pool, rooms, k), TrackOf(pool, l, k), now)
  {
    hide Split, Chased, FloorGrant, Heartbeat, NextBook, CapacityMap, Sight, Seen, Concluded, Record, Left, Decide;
    var inp := Pass(pool, rooms, l, now);
    RestIsBest(pool, rooms, k);
    SightOf(pool, rooms, l, |pool.groups|, k);
    ReportedIsConcluded(pool, rooms, l, now, k);
    RestLeavesTheSame(pool, rooms, l, now, k);
    OpportunisticIsClamped(pool.replicas, pool.groups, Reported(pool, rooms, l, now), k);
    PassDecidesOwn(pool, l.book, inp, k);
  }

  /** Over a stretch of passes with the groups before k at rest, group k runs its own course. */
  lemma {:induction false} LoopIsTrack(pool: PodPool, rooms: Rooms, l: Loop, times: seq<int>, k: nat, m: nat, n: nat)
    requires AllSized(pool) && Roomy(pool, rooms) && Fits(pool, l) && m <= n <= |times| && k < |pool.groups|
    requires pool.groups[k].scaling.opportunistic
    requires forall j :: m <= j < n ==> EarlierAtRest(pool, rooms, LoopAt(pool, rooms, l, times, j), k)
    ensures Sound(Limits(pool, rooms, k))
    ensures TrackOf(pool, LoopAt(pool, rooms, l, times, n), k)
         == TrackAt(Limits(pool, rooms, k), TrackOf(pool, LoopAt(pool, rooms, l, times, m), k), times, m, n)
  {
    hide Step, Limits, Advance, EarlierAtRest, Best;
    RestIsBest(pool, rooms, k);
    if m < n {
      LoopIsTrack(pool, rooms, l, times, k, m, n - 1);
      StepIsAdvance(pool, rooms, LoopAt(pool, rooms, l, times, n - 1), times[n - 1], k);
    }
  }

  /** The bounds of `Converges`, for a group whose predecessors are at rest from pass m on: in
      particular, from the start, for the first opportunistic group of any pool. */
  lemma GroupConverges(pool: PodPool, rooms: Rooms, l: Loop, times: seq<int>, k: nat, m: nat, e: nat, n: nat)
    requires AllSized(pool) && Roomy(pool, rooms) && Fits(pool, l) && m <= n <= |times| && NonDecreasing(times)
    requires k < |pool.groups| && pool.groups[k].scaling.opportunistic
    requires forall j :: m <= j < n ==> EarlierAtRest(pool, rooms, LoopAt(pool, rooms, l, times, j), k)
    requires var from, rest := TrackOf(pool, LoopAt(pool, rooms, l, times, m), k), Best(pool, rooms).held[k];
      && (rest < from.asked ==> from.asked - rest <= MAX_UNSCHEDULABLE_PROBE * (n - m))
      && (from.asked <= rest ==>
           m <= e < |times| && HeartbeatElapsed(from.record, Heartbeat(pool), times[e]) && rest - from.asked <= n - e)
    ensures AtRest(LoopAt(pool, rooms, l, times, n).asked[k], Best(pool, rooms).held[k])
  {
    hide LoopAt, EarlierAtRest, Best, Rest, Heartbeat, Record;
    RestIsBest(pool, rooms, k);
    LoopIsTrack(pool, rooms, l, times, k, m, n);
    Converges(Limits(pool, rooms, k), TrackOf(pool, LoopAt(pool, rooms, l, times, m), k), times, m, e, n);
  }

  // ---- all of them ----

  /** Any w passes in a row outlast the heartbeat. */
  ghost predicate Spaced(times: seq<int>, heartbeat: int, w: nat) {
    NonDecreasing(times) && forall j :: 0 <= j && j + w < |times| ==> times[j] + heartbeat <= times[j + w]
  }

  /** No failure on record lies in the future. */
  ghost predicate FailuresPast(pool: PodPool, book: Book, now: int) {
    forall i :: 0 <= i < |pool.groups| && pool.groups[i].scaling.opportunistic ==>
      Record(pool, book, i).lastFailed.None? || Record(pool, book, i).lastFailed.value <= now
  }

  lemma StepKeepsPast(pool: PodPool, rooms: Rooms, l: Loop, now: int)
    requires AllSized(pool) && Roomy(pool, rooms) && Fits(pool, l) && FailuresPast(pool, l.book, now)
    ensures FailuresPast(pool, Step(pool, rooms, l, now).book, now)
    ensures forall i :: 0 <= i < |pool.groups| && pool.groups[i].scaling.opportunistic ==>
      Step(pool, rooms, l, now).asked[i] <= pool.replicas + 1
  {
    hide Split, Heartbeat, NextBook, CapacityMap, Sight, Record;
    var inp := Pass(pool, rooms, l, now);
    forall i | 0 <= i < |pool.groups| && pool.groups[i].scaling.opportunistic
      ensures var st := Record(pool, NextBook(pool, l.book, inp), i); st.lastFailed.None? || st.lastFailed.value <= now
      ensures Verdicts(pool, l.book, inp, i).target <= pool.replicas + 1
    {
      PassDecidesOwn(pool, l.book, inp, i);
      ShareWithinTotal(pool, l.book, inp, i);
    }
  }

  lemma ShareWithinTotal(pool: PodPool, book: Book, inp: Input, i: nat)
    requires Schedulable(pool) && AllWellShaped(inp.observed) && i < |pool.groups|
    ensures Shares(pool, book, inp).held[i] <= pool.replicas
  {
    hide Split, CapacityMap;
    DistributionConserves(pool.replicas, pool.groups, CapacityMap(pool, book, inp.observed));
    EachWithinSum(Shares(pool, book, inp).held, |pool.groups|, i);
  }

  lemma {:induction false} LoopKeepsPast(pool: PodPool, rooms: Rooms, l: Loop, times: seq<int>, n: nat)
    requires AllSized(pool) && Roomy(pool, rooms) && Fits(pool, l) && n < |times| && NonDecreasing(times)
    requires FailuresPast(pool, l.book, times[0])
    ensures FailuresPast(pool, LoopAt(pool, rooms, l, times, n).book, times[n])
    ensures forall i :: 0 < n && 0 <= i < |pool.groups| && pool.groups[i].scaling.opportunistic ==>
      LoopAt(pool, rooms, l, times, n).asked[i] <= pool.replicas + 1
  {
    hide Step, Record;
    if 0 < n {
      LoopKeepsPast(pool, rooms, l, times, n - 1);
      StepKeepsPast(pool, rooms, LoopAt(pool, rooms, l, times, n - 1), times[n - 1]);
    }
  }

  /** By when the first k groups have settled: each opportunistic one takes, after those before
      it, at most a heartbeat and one pass per replica. */
  function SettledBy(pool: PodPool, w: nat, k: nat): (n: nat)
    requires k <= |pool.groups| && 0 <= pool.replicas
    ensures 0 < n
  {
    if k == 0 then 1
    else SettledBy(pool, w, k - 1) + if pool.groups[k - 1].scaling.opportunistic then w + pool.replicas + 1 else 0
  }

  /** From that pass on, and for any number of opportunistic groups, every one of the first k is
      asked for its part of the best split or for one replica more. */
  lemma {:induction false} EveryGroupConverges(pool: PodPool, rooms: Rooms, l: Loop, times: seq<int>, w: nat, k: nat,
                                               n: nat)
    requires AllSized(pool) && Roomy(pool, rooms) && Fits(pool, l)
    requires k <= |pool.groups| && SettledBy(pool, w, k) <= n <= |times|
    requires Spaced(times, Heartbeat(pool), w) && FailuresPast(pool, l.book, times[0])
    ensures EarlierAtRest(pool, rooms, LoopAt(pool, rooms, l, times, n), k)
    decreases k
  {
    hide LoopAt, Best, Heartbeat, Record;
    if 0 < k {
      var m := SettledBy(pool, w, k - 1);
      EveryGroupConverges(pool, rooms, l, times, w, k - 1, n);
      if pool.groups[k - 1].scaling.opportunistic {
        forall j | m <= j < n
          ensures EarlierAtRest(pool, rooms, LoopAt(pool, rooms, l, times, j), k - 1)
        {
          EveryGroupConverges(pool, rooms, l, times, w, k - 1, j);
        }
        SettlesNext(pool, rooms, l, times, w, k - 1, m, n);
      }
    }
  }

  lemma SettlesNext(pool: PodPool, rooms: Rooms, l: Loop, times: seq<int>, w: nat, k: nat, m: nat, n: nat)
    requires AllSized(pool) && Roomy(pool, rooms) && Fits(pool, l) && 0 < m && m + w + pool.replicas + 1 <= n <= |times|
    requires k < |pool.groups| && pool.groups[k].scaling.opportunistic
    requires Spaced(times, Heartbeat(pool), w) && FailuresPast(pool, l.book, times[0])
    requires forall j :: m <= j < n ==> EarlierAtRest(pool, rooms, LoopAt(pool, rooms, l, times, j), k)
    ensures AtRest(LoopAt(pool, rooms, l, times, n).asked[k], Best(pool, rooms).held[k])
  {
    hide LoopAt, EarlierAtRest, Best, Heartbeat, Record;
    LoopKeepsPast(pool, rooms, l, times, m);
    RestIsBest(pool, rooms, k);
    assert times[m] + Heartbeat(pool) <= times[m + w];
    GroupConverges(pool, rooms, l, times, k, m, m + w, n);
  }

  /** So the probes find every room at once: from that pass on the distribution -- the share of
      every group, opportunistic or not, and what stays unplaced -- is the one of a controller
      that knows the rooms, and the children are asked for it, give or take open questions. */
  lemma PoolFindsItsRooms(pool: PodPool, rooms: Rooms, l: Loop, times: seq<int>, w: nat, n: nat, now: int)
    requires AllSized(pool) && Roomy(pool, rooms) && Fits(pool, l)
    requires SettledBy(pool, w, |pool.groups|) <= n <= |times|
    requires Spaced(times, Heartbeat(pool), w) && FailuresPast(pool, l.book, times[0])
    ensures var found := LoopAt(pool, rooms, l, times, n);
      && EarlierAtRest(pool, rooms, found, |pool.groups|)
      && Shares(pool, found.book, Pass(pool, rooms, found, now)) == Best(pool, rooms)
  {
    hide LoopAt, Chased, CapacityMap, SettledBy, Heartbeat;
    var found := LoopAt(pool, rooms, l, times, n);
    EveryGroupConverges(pool, rooms, l, times, w, |pool.groups|, n);
    RestLeavesTheSame(pool, rooms, found, now, |pool.groups|);
    SameFill(CapacityOffers(pool.groups, Reported(pool, rooms, found, now)), CapacityOffers(pool.groups, rooms),
      Chased(pool.replicas, pool.groups));
  }

  lemma SameFill(offers: seq<Offer>, offers': seq<Offer>, st: Stage)
    requires |offers| == |offers'| == |st.held| && Left(offers, st, |offers|) == Left(offers', st, |offers|)
    requires forall i :: 0 <= i < |offers| ==> After(offers, st, i) == After(offers', st, i)
    ensures Fill(offers, st) == Fill(offers', st)
  {
    assert Fill(offers, st).held == Fill(offers', st).held;
  }
}
