/** The admission checks that span groups, and their agreement with the allocator
    (internal/webhook/v1alpha1/podpool_webhook.go). */

module Webhook {
  import opened Scaling
  import opened Waterfill
  import opened Allocator
  import opened AllocatorLaws

  predicate Unbounded(groups: seq<GroupSpec>, i: int)
    requires 0 <= i < |groups|
  {
    !IsBounded(groups[i].scaling)
  }

  /** A field.Invalid on one group; `culprit` is the unbounded group an opportunistic one
      (`group`) would lose its displaced replicas to. */
  datatype FieldError =
    | SecondSink(group: nat, first: nat)
    | NothingAfter(group: nat)
    | SinkBefore(group: nat, culprit: nat)

  ghost predicate FirstUnbounded(groups: seq<GroupSpec>, i: int) {
    0 <= i < |groups| && Unbounded(groups, i) && forall j :: 0 <= j < i ==> !Unbounded(groups, j)
  }

  /** Reports every unbounded group after the first, naming the first. */
  method ValidateOverflowSink(groups: seq<GroupSpec>) returns (errs: seq<FieldError>)
    ensures forall e :: e in errs <==>
      e.SecondSink? && e.first < e.group < |groups| && Unbounded(groups, e.group) && FirstUnbounded(groups, e.first)
    ensures errs == [] <==> forall i, j :: 0 <= i < j < |groups| ==> !Unbounded(groups, i) || !Unbounded(groups, j)
  {
    errs := [];
    var firstUnbounded: int := -1;
    for i := 0 to |groups|
      invariant firstUnbounded == -1 ==> errs == [] && forall j :: 0 <= j < i ==> !Unbounded(groups, j)
      invariant firstUnbounded != -1 ==> 0 <= firstUnbounded < i && FirstUnbounded(groups, firstUnbounded)
      invariant forall e :: e in errs <==>
        e.SecondSink? && e.first == firstUnbounded && e.first < e.group < i && Unbounded(groups, e.group)
      invariant errs == [] ==> forall j :: 0 <= j < i && Unbounded(groups, j) ==> j == firstUnbounded
    {
      if IsBounded(groups[i].scaling) {
        continue;
      }
      if 0 <= firstUnbounded {
        errs := errs + [SecondSink(i, firstUnbounded)];
      } else {
        firstUnbounded := i;
      }
    }
    if errs != [] {
      assert errs[0] in errs;
    }
  }

  ghost predicate OpportunisticFault(groups: seq<GroupSpec>, e: FieldError) {
    match e
    case NothingAfter(i) => i == |groups| - 1 && groups[i].scaling.opportunistic
    case SinkBefore(i, j) => j < i < |groups| && groups[i].scaling.opportunistic && Unbounded(groups, j)
    case SecondSink(_, _) => false
  }

  method ValidateOpportunistic(groups: seq<GroupSpec>) returns (errs: seq<FieldError>)
    ensures forall e :: e in errs <==> OpportunisticFault(groups, e)
  {
    errs := [];
    var anyOpportunistic := false;
    for i := 0 to |groups|
      invariant anyOpportunistic <==> exists k :: 0 <= k < i && groups[k].scaling.opportunistic
    {
      if groups[i].scaling.opportunistic {
        anyOpportunistic := true;
      }
    }
    if !anyOpportunistic {
      return;
    }
    for i := 0 to |groups|
      invariant forall e :: e in errs <==> OpportunisticFault(groups, e) && e.group < i
    {
      if !groups[i].scaling.opportunistic {
        continue;
      }
      if i == |groups| - 1 {
        errs := errs + [NothingAfter(i)];
      }
      for j := 0 to i
        invariant forall e :: e in errs <==>
          OpportunisticFault(groups, e) && (e.group < i || (e.group == i && (e.SinkBefore? ==> e.culprit < j)))
      {
        if !IsBounded(groups[j].scaling) {
          errs := errs + [SinkBefore(i, j)];
        }
      }
    }
  }

  method WarnOnFullyCappedPool(groups: seq<GroupSpec>) returns (warned: bool)
    ensures warned <==> 0 < |groups| && forall i :: 0 <= i < |groups| ==> !Unbounded(groups, i)
  {
    for i := 0 to |groups|
      invariant forall j :: 0 <= j < i ==> !Unbounded(groups, j)
    {
      if !IsBounded(groups[i].scaling) {
        assert Unbounded(groups, i);
        return false;
      }
    }
    warned := |groups| != 0;
  }

  // ---- agreement ----

  /** Replicas stay unplaced only when every group is bounded and standing at its bound. */
  lemma UnplacedMeansAllFull(total: int32, groups: seq<GroupSpec>, observed: map<string, int32>, i: nat)
    requires i < |groups| && 0 <= total
    requires 0 < Split(total, groups, observed).left
    ensures IsBounded(groups[i].scaling)
    ensures !groups[i].scaling.opportunistic ==>
      GroupCeiling(total, groups[i].scaling).value <= Split(total, groups, observed).held[i]
    ensures groups[i].scaling.opportunistic && groups[i].name in observed ==>
      observed[groups[i].name] <= Split(total, groups, observed).held[i]
  {
    var caps, over := CapacityOffers(groups, observed), OverflowOffers(total, groups);
    var sized := Sized(total, groups, observed);
    StagesInRange(total, groups, observed);
    LeftShrinks(over, sized, i + 1, |over|);
    SurplusMeansMet(over, sized, i);
    LaterGiftMeansMet(caps, Chased(total, groups), sized, i);
    assert over[i] == OverflowOffer(total, groups[i].scaling);
    assert caps[i] == CapacityOffer(groups[i], observed);
  }

  /** A nonempty pool on which the fully-capped warning is silent never leaves a replica
      unplaced, for any total and any observation. */
  lemma SilentWarningMeansPlaced(total: int32, groups: seq<GroupSpec>, observed: map<string, int32>, i: nat)
    requires i < |groups| && Unbounded(groups, i) && 0 <= total
    ensures Split(total, groups, observed).left == 0
  {
    DistributionConserves(total, groups, observed);
    if 0 < Split(total, groups, observed).left {
      UnplacedMeansAllFull(total, groups, observed, i);
    }
  }

  /** A second unbounded group, which the webhook rejects, never gets more than its floor
      grant: it cannot be an overflow sink at any scale. */
  lemma SecondSinkIsDeadWeight(total: int32, groups: seq<GroupSpec>, observed: map<string, int32>, first: nat, i: nat)
    requires first < i < |groups| && Unbounded(groups, first) && Unbounded(groups, i) && 0 <= total
    ensures Split(total, groups, observed).held[i] == FloorGrant(total, groups, i)
  {
    if 0 < total {
      var over, sized := OverflowOffers(total, groups), Sized(total, groups, observed);
      StagesInRange(total, groups, observed);
      FlooredIsFloorGrant(total, groups, i);
      UpToIsACeiling(TargetOffers(total, groups), Floored(total, groups), i);
      UpToIsACeiling(CapacityOffers(groups, observed), Chased(total, groups), i);
      assert over[first] == OverflowOffer(total, groups[first].scaling);
      if sized.held[i] < Placed(total, groups, observed).held[i] {
        SurplusReachesAll(over, sized, Placed(total, groups, observed), i, first);
      }
    }
  }

  /** On an admitted pool with a sink, the replicas a shrinking opportunistic group gives up
      all find a place: nothing is unplaced before or after, what the group loses is what the
      others gain, the sink comes after it, and no bounded group is pushed past its bound. */
  lemma DisplacedReplicasMoveOn(total: int32, groups: seq<GroupSpec>, observed: map<string, int32>, k: nat,
                                lower: int32, i: nat)
    requires i < |groups| && k < |groups| && DistinctNames(groups) && 0 <= total
    requires groups[k].scaling.opportunistic && groups[k].name in observed && lower <= observed[groups[k].name]
    requires Unbounded(groups, i) && forall e :: !OpportunisticFault(groups, e)
    ensures k < i
    ensures var d := Split(total, groups, observed);
      var d' := Split(total, groups, observed[groups[k].name := lower]);
      && d.left == 0 && d'.left == 0
      && d.held[k] - d'.held[k] == (Sum(d'.held) - d'.held[k]) - (Sum(d.held) - d.held[k])
      && (forall j :: 0 <= j < |groups| && j != k ==> d.held[j] <= d'.held[j])
      && (forall j :: 0 <= j < |groups| && !groups[j].scaling.opportunistic && IsBounded(groups[j].scaling) ==>
           d'.held[j] <= Max(0, Max(GroupFloor(groups[j].scaling), GroupCeiling(total, groups[j].scaling).value)))
  {
    hide Split, GroupCeiling, GroupFloor, IsBounded;
    var observed' := observed[groups[k].name := lower];
    assert !OpportunisticFault(groups, SinkBefore(k, i));
    SinkIsNotOpportunistic(groups, i);
    SilentWarningMeansPlaced(total, groups, observed, i);
    SilentWarningMeansPlaced(total, groups, observed', i);
    DisplacementIsMonotone(total, groups, observed, k, lower);
    forall j | 0 <= j < |groups| && !groups[j].scaling.opportunistic && IsBounded(groups[j].scaling)
      ensures GroupCeiling(total, groups[j].scaling).Some?
      ensures Split(total, groups, observed').held[j]
           <= Max(0, Max(GroupFloor(groups[j].scaling), GroupCeiling(total, groups[j].scaling).value))
    {
      BoundedHasCeiling(total, groups[j].scaling);
      StaticCeilingHolds(total, groups, observed', j);
    }
  }

  lemma BoundedHasCeiling(total: int32, s: Constraints)
    requires 0 <= total && !s.opportunistic && IsBounded(s)
    ensures GroupCeiling(total, s).Some?
  {
  }

  /** An unbounded group is one with no max, no target and no capacity discovery. */
  lemma UnboundedExactly(groups: seq<GroupSpec>, i: nat)
    requires i < |groups|
    ensures var s := groups[i].scaling; Unbounded(groups, i) <==> s.max.None? && s.target.None? && !s.opportunistic
  {
  }

  lemma SinkIsNotOpportunistic(groups: seq<GroupSpec>, i: nat)
    requires i < |groups| && Unbounded(groups, i)
    ensures !groups[i].scaling.opportunistic
  {
  }
}
