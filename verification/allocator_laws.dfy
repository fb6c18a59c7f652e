/** What the distribution promises over every total, group list and capacity map. */

module AllocatorLaws {
  import opened Options
  import opened Scaling
  import opened Waterfill
  import opened Allocator

  /** Nothing is lost, nothing is invented, nobody is in debt. */
  lemma DistributionConserves(total: int32, groups: seq<GroupSpec>, observed: map<string, int32>)
    requires 0 < |groups| && 0 <= total
    ensures var d := Split(total, groups, observed);
      && 0 <= d.left
      && (forall i :: 0 <= i < |groups| ==> 0 <= d.held[i])
      && Sum(d.held) + d.left == total
  {
    if total == 0 {
      assert Split(total, groups, observed).held == Start(0, |groups|).held;
      ZerosSumToZero(|groups|, |groups|);
    } else {
      StagesBalanced(total, groups, observed);
    }
  }

  // ---- floors ----

  /** What the floors of the first n groups ask for. */
  function FloorDemand(groups: seq<GroupSpec>, n: nat): nat
    requires n <= |groups|
  {
    if n == 0 then 0 else FloorDemand(groups, n - 1) + Max(0, GroupFloor(groups[n - 1].scaling))
  }

  lemma {:induction false} FloorsDrawInOrder(total: int32, groups: seq<GroupSpec>, n: nat)
    requires n <= |groups| && 0 <= total
    ensures Left(FloorOffers(groups), Start(total, |groups|), n) == Max(0, total - FloorDemand(groups, n))
  {
    if 0 < n {
      FloorsDrawInOrder(total, groups, n - 1);
    }
  }

  /** The phase-1 grant in closed form. */
  function FloorGrant(total: int32, groups: seq<GroupSpec>, i: nat): int
    requires i < |groups|
  {
    Min(Max(0, GroupFloor(groups[i].scaling)), Max(0, total - FloorDemand(groups, i)))
  }

  lemma FlooredIsFloorGrant(total: int32, groups: seq<GroupSpec>, i: nat)
    requires i < |groups| && 0 <= total
    ensures Floored(total, groups).held[i] == FloorGrant(total, groups, i)
  {
    FloorsDrawInOrder(total, groups, i);
  }

  /** A group left short of its floor drained the phase: everyone behind it holds nothing. */
  lemma ShortFloorDrains(total: int32, groups: seq<GroupSpec>, i: nat)
    requires i < |groups| && 0 <= total && Floored(total, groups).held[i] < GroupFloor(groups[i].scaling)
    ensures Floored(total, groups).left == 0
    ensures forall j :: i < j < |groups| ==> Floored(total, groups).held[j] == 0
  {
    hide Fill;
    FlooredIsFloorGrant(total, groups, i);
    FloorsDrawInOrder(total, groups, i + 1);
    DrainedKeepsRest(FloorOffers(groups), Start(total, |groups|), i + 1);
  }

  /** Every group gets its floor as far as the earlier floors leave room, and a group
      short of its floor leaves every later group at zero. */
  lemma FloorsComeFirst(total: int32, groups: seq<GroupSpec>, observed: map<string, int32>, i: nat)
    requires i < |groups| && 0 <= total
    ensures var d := Split(total, groups, observed);
      && FloorGrant(total, groups, i) <= d.held[i]
      && (d.held[i] < GroupFloor(groups[i].scaling) ==>
           forall j :: i < j < |groups| ==> d.held[j] == 0)
  {
    hide Floored, Chased, Sized, Placed, FloorGrant;
    if 0 < total {
      StagesInRange(total, groups, observed);
      FlooredIsFloorGrant(total, groups, i);
      if Split(total, groups, observed).held[i] < GroupFloor(groups[i].scaling) {
        ShortFloorDrains(total, groups, i);
        FloorsTakeAll(total, groups, observed);
      }
    } else {
      EmptyFloorGrant(groups, i);
    }
  }

  // ---- ceilings ----

  lemma StaysBelow(offers: seq<Offer>, st: Stage, i: nat, cap: int)
    requires |offers| == |st.held| && 0 <= st.left && i < |offers| && st.held[i] <= cap
    requires offers[i].Nothing? || (offers[i].UpTo? && offers[i].limit <= cap)
    ensures Fill(offers, st).held[i] <= cap
  {
    UpToIsACeiling(offers, st, i);
  }

  lemma TargetWithinCeiling(total: int32, s: Constraints)
    requires 0 <= total && GroupCeiling(total, s).Some? && GroupTarget(total, s).Some?
    ensures GroupTarget(total, s).value <= GroupCeiling(total, s).value
  {
  }

  /** A bounded non-opportunistic group never exceeds its floor and its ceiling both. */
  lemma StaticCeilingHolds(total: int32, groups: seq<GroupSpec>, observed: map<string, int32>, i: nat)
    requires i < |groups| && 0 <= total
    requires !groups[i].scaling.opportunistic && GroupCeiling(total, groups[i].scaling).Some?
    ensures Split(total, groups, observed).held[i]
         <= Max(0, Max(GroupFloor(groups[i].scaling), GroupCeiling(total, groups[i].scaling).value))
  {
    if 0 < total {
      var s := groups[i].scaling;
      var cap := Max(0, Max(GroupFloor(s), GroupCeiling(total, s).value));
      StagesInRange(total, groups, observed);
      StaysBelow(FloorOffers(groups), Start(total, |groups|), i, cap);
      if GroupTarget(total, s).Some? {
        TargetWithinCeiling(total, s);
      }
      StaysBelow(TargetOffers(total, groups), Floored(total, groups), i, cap);
      StaysBelow(CapacityOffers(groups, observed), Chased(total, groups), i, cap);
      StaysBelow(OverflowOffers(total, groups), Sized(total, groups, observed), i, cap);
    }
  }

  /** The overflow and target phases pass an opportunistic CEL-valid group by. */
  lemma OpportunisticOnlySized(total: int32, groups: seq<GroupSpec>, observed: map<string, int32>, i: nat)
    requires i < |groups| && 0 <= total
    requires CelValid(groups[i].scaling) && groups[i].scaling.opportunistic
    ensures Chased(total, groups).held[i] == Floored(total, groups).held[i]
    ensures Placed(total, groups, observed).held[i] == Sized(total, groups, observed).held[i]
  {
    StagesInRange(total, groups, observed);
    UpToIsACeiling(TargetOffers(total, groups), Floored(total, groups), i);
    UpToIsACeiling(OverflowOffers(total, groups), Sized(total, groups, observed), i);
  }

  /** A sized opportunistic group holds its floor grant or at most its observed capacity. */
  lemma ObservedCapacityHolds(total: int32, groups: seq<GroupSpec>, observed: map<string, int32>, i: nat)
    requires i < |groups| && 0 <= total
    requires CelValid(groups[i].scaling) && groups[i].scaling.opportunistic && groups[i].name in observed
    ensures Split(total, groups, observed).held[i]
         <= Max(FloorGrant(total, groups, i), observed[groups[i].name])
    ensures FloorGrant(total, groups, i) <= Max(0, GroupFloor(groups[i].scaling))
  {
    if 0 < total {
      StagesInRange(total, groups, observed);
      FlooredIsFloorGrant(total, groups, i);
      OpportunisticOnlySized(total, groups, observed, i);
      UpToIsACeiling(CapacityOffers(groups, observed), Chased(total, groups), i);
    }
  }

  /** An UpTo offer brings its group to the limit, clamped between what the group held and
      that plus what is left at its turn. */
  lemma UpToClamps(offers: seq<Offer>, st: Stage, k: nat)
    requires |offers| == |st.held| && 0 <= st.left && k < |offers| && offers[k].UpTo?
    ensures 0 <= Left(offers, st, k)
    ensures After(offers, st, k) == Max(st.held[k], Min(offers[k].limit, st.held[k] + Left(offers, st, k)))
  {
    LeftShrinks(offers, st, 0, k);
  }

  lemma ChasedIsFloorGrant(total: int32, groups: seq<GroupSpec>, k: nat)
    requires k < |groups| && 0 <= total && CelValid(groups[k].scaling) && groups[k].scaling.opportunistic
    ensures Chased(total, groups).held[k] == FloorGrant(total, groups, k)
    ensures 0 <= Chased(total, groups).left
  {
    hide Floored, Chased, FloorGrant;
    StagesInRange(total, groups, map[]);
    FlooredIsFloorGrant(total, groups, k);
    OpportunisticOnlySized(total, groups, map[], k);
  }

  /** In the capacity phase a sized opportunistic group is brought to its entry, clamped
      between its floor grant and that plus what the groups before it have left. */
  lemma SizedIsClamped(total: int32, groups: seq<GroupSpec>, observed: map<string, int32>, k: nat)
    requires k < |groups| && 0 <= total
    requires CelValid(groups[k].scaling) && groups[k].scaling.opportunistic && groups[k].name in observed
    ensures var left := Left(CapacityOffers(groups, observed), Chased(total, groups), k);
      && 0 <= left
      && After(CapacityOffers(groups, observed), Chased(total, groups), k)
         == Max(FloorGrant(total, groups, k), Min(observed[groups[k].name], FloorGrant(total, groups, k) + left))
  {
    hide Chased, FloorGrant, After, Left;
    var caps := CapacityOffers(groups, observed);
    ChasedIsFloorGrant(total, groups, k);
    assert caps[k] == UpTo(observed[groups[k].name]);
    UpToClamps(caps, Chased(total, groups), k);
  }

  /** And that is its share. */
  lemma OpportunisticIsClamped(total: int32, groups: seq<GroupSpec>, observed: map<string, int32>, k: nat)
    requires k < |groups| && 0 <= total
    requires CelValid(groups[k].scaling) && groups[k].scaling.opportunistic && groups[k].name in observed
    ensures var left := Left(CapacityOffers(groups, observed), Chased(total, groups), k);
      && 0 <= left
      && Split(total, groups, observed).held[k]
         == Max(FloorGrant(total, groups, k), Min(observed[groups[k].name], FloorGrant(total, groups, k) + left))
  {
    hide Chased, FloorGrant, Fill, After, Placed;
    SizedIsClamped(total, groups, observed, k);
    if 0 < total {
      OverflowSkipsOpportunistic(total, groups, observed, k);
      FillAt(CapacityOffers(groups, observed), Chased(total, groups), k);
    } else {
      EmptyFloorGrant(groups, k);
      FloorsInRange(total, groups);
      LeftShrinks(CapacityOffers(groups, observed), Chased(total, groups), 0, k);
    }
  }

  /** The one sized opportunistic group of a pool holds its capacity, clamped between its
      floor grant and all that the first two phases leave. */
  lemma SoleOpportunisticIsClamped(total: int32, groups: seq<GroupSpec>, observed: map<string, int32>, k: nat)
    requires k < |groups| && 0 <= total
    requires CelValid(groups[k].scaling) && groups[k].scaling.opportunistic && groups[k].name in observed
    requires forall i :: 0 <= i < |groups| && i != k ==> !groups[i].scaling.opportunistic
    ensures Split(total, groups, observed).held[k]
         == Max(FloorGrant(total, groups, k),
                Min(observed[groups[k].name], FloorGrant(total, groups, k) + Chased(total, groups).left))
  {
    hide Split, Chased, FloorGrant;
    OpportunisticIsClamped(total, groups, observed, k);
    NothingBefore(CapacityOffers(groups, observed), Chased(total, groups), k);
  }

  /** The first opportunistic group, never sized, is raised *to* what is left, not by it: of
      the remainder it leaves the smaller of that and its floor grant behind, so everything
      is offered exactly when it has no floor grant or nothing was left. */
  lemma ColdStartRaisesToRemaining(total: int32, groups: seq<GroupSpec>, observed: map<string, int32>, k: nat)
    requires k < |groups| && 0 <= total
    requires CelValid(groups[k].scaling) && groups[k].scaling.opportunistic && groups[k].name !in observed
    requires forall i :: 0 <= i < k ==> !groups[i].scaling.opportunistic
    ensures var grant, left := FloorGrant(total, groups, k), Chased(total, groups).left;
      var behind := Left(CapacityOffers(groups, observed), Chased(total, groups), k + 1);
      && Sized(total, groups, observed).held[k] == Max(grant, left)
      && behind == Min(grant, left)
      && (behind == 0 <==> grant == 0 || left == 0)
  {
    hide Chased, Floored, FloorGrant, Fill;
    var caps, st := CapacityOffers(groups, observed), Chased(total, groups);
    StagesInRange(total, groups, observed);
    FlooredIsFloorGrant(total, groups, k);
    OpportunisticOnlySized(total, groups, observed, k);
    assert caps[k] == CapacityOffer(groups[k], observed);
    assert forall i :: 0 <= i < k ==> caps[i] == CapacityOffer(groups[i], observed);
    RemainingOffer(caps, st, k);
  }

  lemma FlooredLeaves(total: int32, groups: seq<GroupSpec>)
    requires 0 <= total
    ensures Floored(total, groups).left == Max(0, total - FloorDemand(groups, |groups|))
  {
    hide FloorDemand, After, FloorOffers;
    FloorsDrawInOrder(total, groups, |groups|);
  }

  lemma NothingChased(total: int32, groups: seq<GroupSpec>)
    requires 0 <= total && forall i :: 0 <= i < |groups| ==> GroupTarget(total, groups[i].scaling).None?
    ensures Chased(total, groups).left == Floored(total, groups).left
  {
    NothingBefore(TargetOffers(total, groups), Floored(total, groups), |groups|);
  }

  /** The difference is real: of ten replicas a never-sized group with a floor of three ends
      at seven, and three pass it by. */
  lemma ColdStartLeavesFloorBehind(group: string, sink: string)
    ensures var groups := [GroupSpec(group, Constraints(Some(3), None, None, true)),
                           GroupSpec(sink, Constraints(None, None, None, false))];
      && Sized(10, groups, map[]).held[0] == 7
      && Left(CapacityOffers(groups, map[]), Chased(10, groups), 1) == 3
  {
    hide Floored, Chased, Sized;
    var groups := [GroupSpec(group, Constraints(Some(3), None, None, true)),
                   GroupSpec(sink, Constraints(None, None, None, false))];
    NothingChased(10, groups);
    FlooredLeaves(10, groups);
    ColdStartRaisesToRemaining(10, groups, map[], 0);
  }

  lemma RemainingOffer(caps: seq<Offer>, st: Stage, k: nat)
    requires |caps| == |st.held| && k < |caps| && caps[k].UpToRemaining? && 0 <= st.held[k] && 0 <= st.left
    requires forall i :: 0 <= i < k ==> caps[i].Nothing?
    ensures Fill(caps, st).held[k] == Max(st.held[k], st.left)
    ensures Left(caps, st, k + 1) == Min(st.held[k], st.left)
  {
    NothingBefore(caps, st, k);
  }

  lemma EmptyFloorGrant(groups: seq<GroupSpec>, k: nat)
    requires k < |groups|
    ensures FloorGrant(0, groups, k) == 0
  {
  }

  lemma {:induction false} NothingBefore(offers: seq<Offer>, st: Stage, n: nat)
    requires |offers| == |st.held| && n <= |offers|
    requires forall i :: 0 <= i < n ==> offers[i].Nothing?
    ensures Left(offers, st, n) == st.left
  {
    if 0 < n {
      NothingBefore(offers, st, n - 1);
    }
  }

  // ---- phase priority ----

  /** If a phase leaves or hands out anything, some replicas were left to it. */
  lemma GivingMeansLeft(offers: seq<Offer>, st: Stage, i: nat)
    requires |offers| == |st.held| && i < |offers| && 0 <= st.left
    requires st.held[i] < Fill(offers, st).held[i]
    ensures 0 < Left(offers, st, i) <= st.left
  {
    LeftShrinks(offers, st, 0, i);
  }

  /** Whatever a later phase gives or leaves was left over by the phase in hand, whose
      bounded offers were therefore all met. */
  lemma LaterGiftMeansMet(offers: seq<Offer>, st: Stage, later: Stage, i: nat)
    requires |offers| == |st.held| && i < |offers| && 0 <= st.left
    requires later == Fill(offers, st) && 0 < later.left
    ensures offers[i].UpTo? ==> offers[i].limit <= later.held[i]
  {
    LeftShrinks(offers, st, i + 1, |offers|);
    SurplusMeansMet(offers, st, i);
  }

  lemma GiftNeedsLeft(caps: seq<Offer>, chased: Stage, sized: Stage, over: seq<Offer>, placed: Stage, j: nat)
    requires |caps| == |over| == |chased.held| && j < |caps| && 0 <= chased.left
    requires sized == Fill(caps, chased) && placed == Fill(over, sized)
    requires chased.held[j] < placed.held[j] || 0 < placed.left
    ensures 0 < chased.left
  {
    FillRaises(caps, chased);
    FillRaises(over, sized);
  }

  lemma TargetsBeforeCapacityStages(total: int32, groups: seq<GroupSpec>, observed: map<string, int32>, i: nat, j: nat)
    requires i < |groups| && j < |groups| && 0 <= total
    requires GroupTarget(total, groups[i].scaling).Some?
    requires Chased(total, groups).held[j] < Placed(total, groups, observed).held[j]
          || 0 < Placed(total, groups, observed).left
    ensures GroupTarget(total, groups[i].scaling).value <= Chased(total, groups).held[i]
    ensures 0 < Chased(total, groups).left
  {
    var chased := Chased(total, groups);
    FloorsInRange(total, groups);
    GiftNeedsLeft(CapacityOffers(groups, observed), chased, Sized(total, groups, observed),
      OverflowOffers(total, groups), Placed(total, groups, observed), j);
    LaterGiftMeansMet(TargetOffers(total, groups), Floored(total, groups), chased, i);
    assert TargetOffers(total, groups)[i] == TargetOffer(total, groups[i].scaling);
  }

  lemma FloorsInRange(total: int32, groups: seq<GroupSpec>)
    requires 0 <= total
    ensures 0 <= Floored(total, groups).left <= total
    ensures 0 <= Chased(total, groups).left <= Floored(total, groups).left
  {
    StagesInRange(total, groups, map[]);
  }

  /** Free capacity and overflow are consumed only once every readable target is met. */
  lemma TargetsBeforeCapacity(total: int32, groups: seq<GroupSpec>, observed: map<string, int32>, i: nat, j: nat)
    requires i < |groups| && j < |groups| && 0 <= total
    requires GroupTarget(total, groups[i].scaling).Some?
    requires Chased(total, groups).held[j] < Placed(total, groups, observed).held[j]
          || 0 < Placed(total, groups, observed).left
    ensures GroupTarget(total, groups[i].scaling).value <= Chased(total, groups).held[i]
         <= Split(total, groups, observed).held[i]
  {
    TargetsBeforeCapacityStages(total, groups, observed, i, j);
    StagesInRange(total, groups, observed);
  }

  lemma SurplusReachesAll(offers: seq<Offer>, st: Stage, later: Stage, k: nat, i: nat)
    requires |offers| == |st.held| && i < k < |offers| && 0 <= st.left
    requires later == Fill(offers, st) && st.held[k] < later.held[k]
    ensures offers[i] != Everything
    ensures offers[i].UpTo? ==> offers[i].limit <= later.held[i]
  {
    GivingMeansLeft(offers, st, k);
    LeftShrinks(offers, st, i + 1, k);
    SurplusMeansMet(offers, st, i);
  }

  /** A group gets overflow only if every sized opportunistic group is at its capacity and
      every earlier non-opportunistic group is bounded and at its ceiling. */
  lemma CapacityBeforeOverflow(total: int32, groups: seq<GroupSpec>, observed: map<string, int32>, k: nat, i: nat)
    requires k < |groups| && i < |groups| && 0 <= total
    requires Sized(total, groups, observed).held[k] < Placed(total, groups, observed).held[k]
    ensures groups[i].scaling.opportunistic && groups[i].name in observed ==>
      observed[groups[i].name] <= Sized(total, groups, observed).held[i]
    ensures i < k && !groups[i].scaling.opportunistic ==>
      && IsBounded(groups[i].scaling)
      && GroupCeiling(total, groups[i].scaling).value <= Placed(total, groups, observed).held[i]
  {
    var over, sized := OverflowOffers(total, groups), Sized(total, groups, observed);
    StagesInRange(total, groups, observed);
    GivingMeansLeft(over, sized, k);
    LaterGiftMeansMet(CapacityOffers(groups, observed), Chased(total, groups), sized, i);
    assert CapacityOffers(groups, observed)[i] == CapacityOffer(groups[i], observed);
    if i < k {
      SurplusReachesAll(over, sized, Placed(total, groups, observed), k, i);
      assert over[i] == OverflowOffer(total, groups[i].scaling);
    }
  }

  // ---- displacement ----

  /** Every group faces the same offer with the same holding, or an offer that is skipped,
      or a lower limit in the second run. */
  ghost predicate Eased(offers: seq<Offer>, st: Stage, offers': seq<Offer>, st': Stage) {
    && |offers| == |offers'| == |st.held| == |st'.held|
    && 0 <= st.left <= st'.left
    && forall i :: 0 <= i < |offers| ==>
         || (offers[i].Nothing? && offers'[i].Nothing?)
         || (st.held[i] == st'.held[i] && offers[i] == offers'[i])
         || (st.held[i] == st'.held[i] && offers[i].UpTo? && offers'[i].UpTo? && offers'[i].limit <= offers[i].limit)
  }

  lemma {:induction false} EasedLeavesMore(offers: seq<Offer>, st: Stage, offers': seq<Offer>, st': Stage, n: nat)
    requires Eased(offers, st, offers', st') && n <= |offers|
    ensures 0 <= Left(offers, st, n) <= Left(offers', st', n)
  {
    if 0 < n {
      EasedLeavesMore(offers, st, offers', st', n - 1);
    }
  }

  lemma EasedGivesOthersMore(offers: seq<Offer>, st: Stage, offers': seq<Offer>, st': Stage, i: nat)
    requires Eased(offers, st, offers', st') && i < |offers|
    requires st.held[i] == st'.held[i] && offers[i] == offers'[i]
    ensures After(offers, st, i) <= After(offers', st', i)
  {
    EasedLeavesMore(offers, st, offers', st', i);
  }

  /** The target of one group never rises when only its own limit is lowered. */
  lemma {:induction false} SameUntil(offers: seq<Offer>, offers': seq<Offer>, st: Stage, k: nat, n: nat)
    requires |offers| == |offers'| == |st.held| && n <= k < |offers|
    requires forall i :: 0 <= i < k ==> offers[i] == offers'[i]
    ensures Left(offers, st, n) == Left(offers', st, n)
  {
    if 0 < n {
      SameUntil(offers, offers', st, k, n - 1);
    }
  }

  /** The eased phase itself: one group's limit is lowered, the rest face the same offers. */
  lemma EasedPhase(caps: seq<Offer>, caps': seq<Offer>, st: Stage, k: nat)
    requires |caps| == |caps'| == |st.held| && k < |caps| && 0 <= st.left
    requires forall i :: 0 <= i < |caps| && i != k ==> caps[i] == caps'[i]
    requires caps[k].UpTo? && caps'[k].UpTo? && caps'[k].limit <= caps[k].limit
    ensures 0 <= Fill(caps, st).left <= Fill(caps', st).left
    ensures Fill(caps', st).held[k] <= Fill(caps, st).held[k]
    ensures forall i :: 0 <= i < |caps| && i != k ==> Fill(caps, st).held[i] <= Fill(caps', st).held[i]
    ensures forall i :: 0 <= i < |caps| && caps[i].Nothing? ==> Fill(caps, st).held[i] == Fill(caps', st).held[i]
  {
    SameUntil(caps, caps', st, k, k);
    LeftShrinks(caps, st, 0, k);
    EasedLeavesMore(caps, st, caps', st, |caps|);
    forall i | 0 <= i < |caps| && i != k
      ensures After(caps, st, i) <= After(caps', st, i)
    {
      EasedGivesOthersMore(caps, st, caps', st, i);
    }
  }

  /** The phase after it: groups it can reach hold the same, and there is more to give. */
  lemma PhaseAfterEasing(over: seq<Offer>, sized: Stage, sized': Stage, k: nat)
    requires |over| == |sized.held| == |sized'.held| && k < |over|
    requires 0 <= sized.left <= sized'.left && over[k].Nothing?
    requires forall i :: 0 <= i < |over| ==> over[i].Nothing? || sized.held[i] == sized'.held[i]
    requires forall i :: 0 <= i < |over| && i != k ==> sized.held[i] <= sized'.held[i]
    ensures Fill(over, sized).left <= Fill(over, sized').left
    ensures Fill(over, sized).held[k] == sized.held[k] && Fill(over, sized').held[k] == sized'.held[k]
    ensures forall i :: 0 <= i < |over| && i != k ==> Fill(over, sized).held[i] <= Fill(over, sized').held[i]
  {
    assert Eased(over, sized, over, sized');
    EasedLeavesMore(over, sized, over, sized', |over|);
    forall i | 0 <= i < |over| && i != k
      ensures After(over, sized, i) <= After(over, sized', i)
    {
      EasedLeavesMore(over, sized, over, sized', i);
    }
  }

  /** Lowering a sized group's entry lowers that group's offer and touches no other. */
  lemma OffersEased(groups: seq<GroupSpec>, observed: map<string, int32>, k: nat, lower: int32)
    requires k < |groups| && DistinctNames(groups)
    requires groups[k].scaling.opportunistic && groups[k].name in observed && lower <= observed[groups[k].name]
    ensures var caps := CapacityOffers(groups, observed);
      var caps' := CapacityOffers(groups, observed[groups[k].name := lower]);
      && (forall i :: 0 <= i < |groups| && i != k ==> caps[i] == caps'[i])
      && caps[k] == UpTo(observed[groups[k].name]) && caps'[k] == UpTo(lower)
  {
    forall i | 0 <= i < |groups| && i != k
      ensures groups[i].name != groups[k].name
    {
    }
  }

  /** No group is offered something by both the capacity and the overflow phase. */
  lemma PhasesDisjoint(total: int32, groups: seq<GroupSpec>, observed: map<string, int32>)
    requires 0 <= total
    ensures forall i :: 0 <= i < |groups| ==>
      CapacityOffers(groups, observed)[i].Nothing? || OverflowOffers(total, groups)[i].Nothing?
  {
  }

  lemma PlacedEases(total: int32, groups: seq<GroupSpec>, observed: map<string, int32>, k: nat, lower: int32)
    requires k < |groups| && DistinctNames(groups) && 0 <= total
    requires groups[k].scaling.opportunistic && groups[k].name in observed && lower <= observed[groups[k].name]
    ensures var p, p' := Placed(total, groups, observed), Placed(total, groups, observed[groups[k].name := lower]);
      && p.left <= p'.left && p'.held[k] <= p.held[k]
      && forall i :: 0 <= i < |groups| && i != k ==> p.held[i] <= p'.held[i]
  {
    var observed' := observed[groups[k].name := lower];
    FloorsInRange(total, groups);
    OffersEased(groups, observed, k, lower);
    PhasesDisjoint(total, groups, observed);
    EasedPhase(CapacityOffers(groups, observed), CapacityOffers(groups, observed'), Chased(total, groups), k);
    PhaseAfterEasing(OverflowOffers(total, groups), Sized(total, groups, observed), Sized(total, groups, observed'), k);
  }

  /** What everyone but group k holds, with the unplaced rest. */
  function Others(d: Stage, k: nat): int
    requires k < |d.held|
  {
    Sum(d.held) - d.held[k] + d.left
  }

  /** Lowering one opportunistic group's capacity never raises that group, never lowers any
      other group or Unplaced, and what it loses is exactly what the others gain. */
  lemma DisplacementIsMonotone(total: int32, groups: seq<GroupSpec>, observed: map<string, int32>, k: nat, lower: int32)
    requires k < |groups| && DistinctNames(groups) && 0 <= total
    requires groups[k].scaling.opportunistic && groups[k].name in observed && lower <= observed[groups[k].name]
    ensures var d := Split(total, groups, observed);
      var d' := Split(total, groups, observed[groups[k].name := lower]);
      && d'.held[k] <= d.held[k] && d.left <= d'.left
      && (forall i :: 0 <= i < |groups| && i != k ==> d.held[i] <= d'.held[i])
      && d.held[k] - d'.held[k] == Others(d', k) - Others(d, k)
  {
    DistributionConserves(total, groups, observed);
    DistributionConserves(total, groups, observed[groups[k].name := lower]);
    if 0 < total {
      PlacedEases(total, groups, observed, k, lower);
    }
  }

  // ---- the split takes its own outcome for an answer ----

  /** Nobody's entry changed, except to what the split gave that group. */
  ghost predicate EchoesShares(total: int32, groups: seq<GroupSpec>, observed: map<string, int32>,
                               observed': map<string, int32>) {
    forall i :: 0 <= i < |groups| && groups[i].scaling.opportunistic ==>
      var name := groups[i].name;
      || (name in observed' && observed'[name] == Split(total, groups, observed).held[i])
      || ((name in observed <==> name in observed') && (name in observed ==> observed'[name] == observed[name]))
  }

  lemma OverflowSkipsOpportunistic(total: int32, groups: seq<GroupSpec>, observed: map<string, int32>, i: nat)
    requires i < |groups| && 0 <= total && groups[i].scaling.opportunistic
    ensures Placed(total, groups, observed).held[i] == Sized(total, groups, observed).held[i]
  {
    hide Fill, Sized;
    StagesInRange(total, groups, observed);
    UpToIsACeiling(OverflowOffers(total, groups), Sized(total, groups, observed), i);
  }

  /** Reporting to the split, as a group's capacity, the very share it gave moves no share. */
  lemma SharesAbsorbThemselves(total: int32, groups: seq<GroupSpec>, observed: map<string, int32>,
                               observed': map<string, int32>)
    requires EchoesShares(total, groups, observed, observed')
    ensures Split(total, groups, observed') == Split(total, groups, observed)
  {
    if 0 < total && 0 < |groups| {
      hide Fill, After, Chased;
      var caps, caps', st := CapacityOffers(groups, observed), CapacityOffers(groups, observed'), Chased(total, groups);
      StagesInRange(total, groups, observed);
      forall i | 0 <= i < |groups|
        ensures caps'[i] == caps[i] || caps'[i] == UpTo(After(caps, st, i))
      {
        if groups[i].scaling.opportunistic {
          OverflowSkipsOpportunistic(total, groups, observed, i);
          FillAt(caps, st, i);
        }
      }
      RestatedFillsTheSame(caps, caps', st);
    }
  }

  lemma FillAt(offers: seq<Offer>, st: Stage, i: nat)
    requires |offers| == |st.held| && i < |offers|
    ensures Fill(offers, st).held[i] == After(offers, st, i)
  {
  }

  // ---- TargetDegraded ----

  /** The tolerance test without division. */
  lemma ViolatesExactly(total: int32, held: int, s: Constraints)
    requires 0 < total && TargetPercent(s).Some?
    ensures var pct := TargetPercent(s).value;
      Violates(total, held, s) <==>
        if s.max.None? then (2 * pct + 1) * total < 200 * held
        else 200 * held < (2 * pct - 1) * total
  {
    var pct := TargetPercent(s).value;
    ShareAgainst(held, total, 2 * (pct as int) + 1);
    ShareAgainst(held, total, 2 * (pct as int) - 1);
  }

  lemma ShareAgainst(held: int, total: int, twice: int)
    requires 0 < total
    ensures held as real / total as real * 100.0 < twice as real / 2.0 <==> 200 * held < twice * total
    ensures twice as real / 2.0 < held as real / total as real * 100.0 <==> twice * total < 200 * held
  {
    var h, t, q := held as real, total as real, twice as real / 2.0;
    var actual := h / t * 100.0;
    assert actual * t == 100.0 * h;
    assert q * t * 2.0 == (twice * total) as real;
    assert actual < q ==> actual * t < q * t;
    assert q < actual ==> q * t < actual * t;
    assert actual == q ==> actual * t == q * t;
  }

  /** A group whose own bounds, or the exhausted pool, account for a missed target. */
  ghost predicate Explains(total: int32, s: Constraints, unplaced: int)
    requires 0 <= total
  {
    && TargetPercent(s).Some?
    && var pct := TargetPercent(s).value;
       if s.max.None? then s.min.Some? && PercentOf(total, pct) < s.min.value
       else s.max.value < CeilPercentOf(total, pct) || unplaced == 0
  }

  /** An exceeded target without a max: only the floor can have pushed the group there. */
  lemma FloorExplains(total: int32, held: int, s: Constraints)
    requires 0 < total && CelValid(s) && TargetPercent(s).Some? && s.max.None?
    requires (2 * TargetPercent(s).value + 1) * total < 200 * held
    requires held <= Max(GroupFloor(s), PercentOf(total, TargetPercent(s).value))
    ensures s.min.Some? && PercentOf(total, TargetPercent(s).value) < s.min.value
  {
    SharesBracket(total, TargetPercent(s).value);
    OverTolerance(TargetPercent(s).value, total, held);
  }

  lemma OverTolerance(pct: int, total: int, held: int)
    requires 0 < total && (2 * pct + 1) * total < 200 * held
    ensures total * pct < 100 * held
  {
    assert (2 * pct + 1) * total == 2 * (total * pct) + total;
  }

  /** A missed target with a max: the max lies below it, or the pool ran out. */
  lemma MaxExplains(total: int32, held: int, s: Constraints)
    requires 0 < total && TargetPercent(s).Some? && s.max.Some?
    requires 200 * held < (2 * TargetPercent(s).value - 1) * total
    requires GroupTarget(total, s).value <= held
    ensures s.max.value < CeilPercentOf(total, TargetPercent(s).value)
  {
    SharesBracket(total, TargetPercent(s).value);
    UnderTolerance(TargetPercent(s).value, total, held);
  }

  lemma UnderTolerance(pct: int, total: int, held: int)
    requires 0 < total && 200 * held < (2 * pct - 1) * total
    ensures 100 * held < total * pct
  {
    assert (2 * pct - 1) * total == 2 * (total * pct) - total;
  }

  lemma BoundsExplain(total: int32, held: int, s: Constraints, unplaced: int)
    requires 0 < total && CelValid(s) && Violates(total, held, s)
    requires s.max.None? ==> held <= Max(GroupFloor(s), GroupCeiling(total, s).value)
    requires s.max.Some? && unplaced != 0 ==> GroupTarget(total, s).value <= held
    ensures Explains(total, s, unplaced)
  {
    hide PercentOf, CeilPercentOf;
    ViolatesExactly(total, held, s);
    if s.max.None? {
      FloorExplains(total, held, s);
    } else if unplaced != 0 {
      MaxExplains(total, held, s);
    }
  }

  lemma ViolationIsExplained(total: int32, groups: seq<GroupSpec>, observed: map<string, int32>, i: nat)
    requires 0 < total && i < |groups| && CelValid(groups[i].scaling)
    requires Violates(total, Split(total, groups, observed).held[i], groups[i].scaling)
    ensures Explains(total, groups[i].scaling, Split(total, groups, observed).left)
  {
    var s := groups[i].scaling;
    var held, left := Split(total, groups, observed).held[i], Split(total, groups, observed).left;
    DistributionConserves(total, groups, observed);
    if s.max.None? {
      StaticCeilingHolds(total, groups, observed, i);
    } else if 0 < left {
      TargetsBeforeCapacity(total, groups, observed, i, i);
    }
    BoundsExplain(total, held, s, left);
  }

  /** TargetDegraded is never raised without a group whose hard bounds explain it. */
  lemma DegradedIsExplained(total: int32, groups: seq<GroupSpec>, observed: map<string, int32>)
    requires forall g | g in groups :: CelValid(g.scaling)
    requires Degraded(total, Split(total, groups, observed).held, groups)
    ensures exists i :: 0 <= i < |groups| && Explains(total, groups[i].scaling, Split(total, groups, observed).left)
  {
    var i :| 0 <= i < |groups| && Violates(total, Split(total, groups, observed).held[i], groups[i].scaling);
    assert groups[i] in groups;
    ViolationIsExplained(total, groups, observed, i);
  }
}
