/** ComputeGroupTargets: the four in-place passes, proved against four waterfill phases
    (internal/workload/algorithm.go). */

module Allocator {
  import opened Scaling
  import opened Waterfill

  datatype Distribution = Distribution(targets: seq<int32>, targetDegraded: bool, unplaced: int32)

  // ---- specification ----

  function TargetOffer(total: int32, s: Constraints): Offer
    requires 0 <= total
  {
    var t := GroupTarget(total, s);
    if t.None? then Nothing else UpTo(t.value)
  }

  /** Absence from the map means never sized: the group is raised to all that is left. */
  function CapacityOffer(g: GroupSpec, observed: map<string, int32>): Offer {
    if !g.scaling.opportunistic then Nothing
    else if g.name in observed then UpTo(observed[g.name])
    else UpToRemaining
  }

  function OverflowOffer(total: int32, s: Constraints): Offer
    requires 0 <= total
  {
    if s.opportunistic then Nothing
    else
      var limit := GroupCeiling(total, s);
      if limit.None? then Everything else UpTo(limit.value)
  }

  function FloorOffers(groups: seq<GroupSpec>): seq<Offer> {
    seq(|groups|, i requires 0 <= i < |groups| => UpTo(GroupFloor(groups[i].scaling)))
  }

  function TargetOffers(total: int32, groups: seq<GroupSpec>): seq<Offer>
    requires 0 <= total
  {
    seq(|groups|, i requires 0 <= i < |groups| => TargetOffer(total, groups[i].scaling))
  }

  function CapacityOffers(groups: seq<GroupSpec>, observed: map<string, int32>): seq<Offer> {
    seq(|groups|, i requires 0 <= i < |groups| => CapacityOffer(groups[i], observed))
  }

  function OverflowOffers(total: int32, groups: seq<GroupSpec>): seq<Offer>
    requires 0 <= total
  {
    seq(|groups|, i requires 0 <= i < |groups| => OverflowOffer(total, groups[i].scaling))
  }

  function Start(total: int, n: nat): Stage {
    Stage(seq(n, _ => 0), total)
  }

  function Floored(total: int32, groups: seq<GroupSpec>): (s: Stage)
    ensures |s.held| == |groups|
  {
    Fill(FloorOffers(groups), Start(total, |groups|))
  }

  function Chased(total: int32, groups: seq<GroupSpec>): (s: Stage)
    requires 0 <= total
    ensures |s.held| == |groups|
  {
    Fill(TargetOffers(total, groups), Floored(total, groups))
  }

  function Sized(total: int32, groups: seq<GroupSpec>, observed: map<string, int32>): (s: Stage)
    requires 0 <= total
    ensures |s.held| == |groups|
  {
    Fill(CapacityOffers(groups, observed), Chased(total, groups))
  }

  function Placed(total: int32, groups: seq<GroupSpec>, observed: map<string, int32>): (s: Stage)
    requires 0 <= total
    ensures |s.held| == |groups|
  {
    Fill(OverflowOffers(total, groups), Sized(total, groups, observed))
  }

  /** The 0.5-point tolerance, in exact arithmetic. */
  predicate Violates(total: int, held: int, s: Constraints)
    requires 0 < total
  {
    match TargetPercent(s)
    case None => false
    case Some(pct) =>
      var actual := held as real / total as real * 100.0;
      (s.max.None? && pct as real + 0.5 < actual) || (s.max.Some? && actual < pct as real - 0.5)
  }

  predicate Degraded(total: int, targets: seq<int>, groups: seq<GroupSpec>)
    requires |targets| == |groups|
  {
    0 < total && exists i :: 0 <= i < |groups| && Violates(total, targets[i], groups[i].scaling)
  }

  // ---- the code ----

  method CheckTargetDegraded(total: int32, targets: array<int32>, groups: seq<GroupSpec>) returns (degraded: bool)
    requires targets.Length == |groups|
    ensures degraded == Degraded(total, targets[..], groups)
  {
    if total <= 0 {
      return false;
    }
    for i := 0 to |groups|
      invariant forall j :: 0 <= j < i ==> !Violates(total, targets[..][j], groups[j].scaling)
    {
      if Violates(total, targets[i], groups[i].scaling) {
        assert targets[..][i] == targets[i];
        return true;
      }
    }
    return false;
  }

  /** Midway through a phase: the first i groups are final for it, the rest untouched. */
  ghost predicate Midway(offers: seq<Offer>, st: Stage, i: nat, held: seq<int>, left: int)
  {
    && |offers| == |st.held| == |held| && i <= |held|
    && left == Left(offers, st, i)
    && (forall j :: 0 <= j < i ==> held[j] == After(offers, st, j))
    && (forall j :: i <= j < |held| ==> held[j] == st.held[j])
  }

  lemma MidwayEnds(offers: seq<Offer>, st: Stage, i: nat, held: seq<int>, left: int)
    requires Midway(offers, st, i, held, left) && 0 <= st.left
    requires i == |held| || left == 0
    ensures Stage(held, left) == Fill(offers, st)
  {
    if i < |held| {
      DrainedKeepsRest(offers, st, i);
    }
    assert held == Fill(offers, st).held;
  }

  lemma MidwayAdvances(offers: seq<Offer>, st: Stage, i: nat, held: seq<int>, left: int, give: int)
    requires Midway(offers, st, i, held, left) && i < |held|
    requires give == Grant(offers[i], held[i], left)
    ensures Midway(offers, st, i + 1, held[i := held[i] + give], left - give)
  {
  }

  /** The distances the passes subtract stay in int32. Schema-valid limits and the
      non-negative capacities of CapacityFrom meet it; the code relies on it. */
  predicate NoUnderflow(total: int32, groups: seq<GroupSpec>, observed: map<string, int32>) {
    && (forall g | g in groups :: g.scaling.max.Some? ==> MIN_INT32 + total <= g.scaling.max.value)
    && (forall k | k in observed :: MIN_INT32 + total <= observed[k])
  }

  lemma StagesInRange(total: int32, groups: seq<GroupSpec>, observed: map<string, int32>)
    requires 0 <= total
    ensures 0 <= Floored(total, groups).left <= total
    ensures 0 <= Chased(total, groups).left <= Floored(total, groups).left
    ensures 0 <= Sized(total, groups, observed).left <= Chased(total, groups).left
    ensures 0 <= Placed(total, groups, observed).left <= Sized(total, groups, observed).left
    ensures forall i :: 0 <= i < |groups| ==>
      0 <= Floored(total, groups).held[i] <= Chased(total, groups).held[i]
        <= Sized(total, groups, observed).held[i] <= Placed(total, groups, observed).held[i]
  {
    FillRaises(FloorOffers(groups), Start(total, |groups|));
    FillRaises(TargetOffers(total, groups), Floored(total, groups));
    FillRaises(CapacityOffers(groups, observed), Chased(total, groups));
    FillRaises(OverflowOffers(total, groups), Sized(total, groups, observed));
  }

  lemma {:induction false} EachWithinSum(s: seq<int>, n: nat, i: nat)
    requires i < n <= |s| && forall j :: 0 <= j < |s| ==> 0 <= s[j]
    ensures 0 <= s[i] <= SumTo(s, n)
    ensures 0 <= SumTo(s, n - 1)
  {
    if i < n - 1 {
      EachWithinSum(s, n - 1, i);
    } else if 1 < n {
      EachWithinSum(s, n - 1, 0);
    }
  }

  lemma {:induction false} ZerosSumToZero(n: nat, k: nat)
    requires k <= n
    ensures SumTo(Start(0, n).held, k) == 0
  {
    if 0 < k {
      ZerosSumToZero(n, k - 1);
    }
  }

  /** Every stage accounts for the whole total. */
  lemma StagesConserve(total: int32, groups: seq<GroupSpec>, observed: map<string, int32>)
    requires 0 <= total
    ensures Sum(Floored(total, groups).held) + Floored(total, groups).left == total
    ensures Sum(Chased(total, groups).held) + Chased(total, groups).left == total
    ensures Sum(Sized(total, groups, observed).held) + Sized(total, groups, observed).left == total
    ensures Sum(Placed(total, groups, observed).held) + Placed(total, groups, observed).left == total
  {
    assert Start(total, |groups|).held == Start(0, |groups|).held;
    ZerosSumToZero(|groups|, |groups|);
    FillConserves(FloorOffers(groups), Start(total, |groups|));
    FillConserves(TargetOffers(total, groups), Floored(total, groups));
    FillConserves(CapacityOffers(groups, observed), Chased(total, groups));
    FillConserves(OverflowOffers(total, groups), Sized(total, groups, observed));
  }

  /** A stage that accounts for the whole total, with nobody in debt. */
  ghost predicate Balanced(total: int, st: Stage) {
    && 0 <= st.left
    && (forall i :: 0 <= i < |st.held| ==> 0 <= st.held[i])
    && Sum(st.held) + st.left == total
  }

  lemma BalancedFits(total: int, st: Stage, i: nat)
    requires Balanced(total, st) && i < |st.held|
    ensures st.held[i] + st.left <= total
  {
    EachWithinSum(st.held, |st.held|, i);
  }

  lemma StagesBalanced(total: int32, groups: seq<GroupSpec>, observed: map<string, int32>)
    requires 0 <= total
    ensures Balanced(total, Start(total, |groups|))
    ensures Balanced(total, Floored(total, groups))
    ensures Balanced(total, Chased(total, groups))
    ensures Balanced(total, Sized(total, groups, observed))
    ensures Balanced(total, Placed(total, groups, observed))
  {
    StagesInRange(total, groups, observed);
    StagesConserve(total, groups, observed);
    assert Start(total, |groups|).held == Start(0, |groups|).held;
    ZerosSumToZero(|groups|, |groups|);
  }

  lemma FitsInt32(total: int32, st: Stage)
    requires Balanced(total, st)
    ensures st.left <= total || |st.held| == 0
    ensures forall i :: 0 <= i < |st.held| ==> 0 <= st.held[i] <= total
  {
    forall i | 0 <= i < |st.held|
      ensures 0 <= st.held[i] <= total && st.left <= total
    {
      BalancedFits(total, st, i);
    }
  }

  /** The reference: nothing to split, or the last of the four phases. */
  function Split(total: int32, groups: seq<GroupSpec>, observed: map<string, int32>): (s: Stage)
    ensures |s.held| == |groups|
  {
    if |groups| == 0 || total <= 0 then Start(0, |groups|) else Placed(total, groups, observed)
  }

  // ---- the four passes ----

  /** How much of `remaining` closes the gap to limit, with the subtraction done in int32. */
  function Gap(limit: int32, held: int32, remaining: int32): (give: int32)
    requires 0 <= held && 0 <= remaining && MIN_INT32 + held <= limit
    ensures give == Grant(UpTo(limit), held, remaining)
  {
    var additional: int32 := limit - held;
    if additional <= 0 then 0 else Min(additional, remaining)
  }

  /** What Go's int32 subtraction yields. */
  function Wrap32(x: int): int32 {
    (x - MIN_INT32) % 0x1_0000_0000 + MIN_INT32
  }

  /** The subtraction is exact precisely within Gap's bound; past it, a limit far below zero
      would read as room to grow. */
  lemma GapIsExactWithinBound(limit: int32, held: int32)
    requires 0 <= held
    ensures Wrap32(limit - held) == limit - held <==> MIN_INT32 + held <= limit
    ensures limit < MIN_INT32 + held ==> 0 < Wrap32(limit - held)
  {
    if limit < MIN_INT32 + held {
      assert (limit - held - MIN_INT32) % 0x1_0000_0000 == limit - held - MIN_INT32 + 0x1_0000_0000;
    }
  }

  /** Hands `give` to group i, keeping every quantity inside int32. */
  method Hand(total: int32, targets: array<int32>, i: nat, remaining: int32, give: int32,
              ghost offers: seq<Offer>, ghost st: Stage)
      returns (rest: int32)
    requires Balanced(total, st) && i < targets.Length
    requires Midway(offers, st, i, targets[..], remaining)
    requires give == Grant(offers[i], targets[i], remaining)
    modifies targets
    ensures Midway(offers, st, i + 1, targets[..], rest) && 0 <= rest <= total
  {
    LeftShrinks(offers, st, 0, i);
    BalancedFits(total, st, i);
    MidwayAdvances(offers, st, i, targets[..], remaining, give);
    targets[i] := targets[i] + give;
    rest := remaining - give;
  }

  method SatisfyFloors(total: int32, groups: seq<GroupSpec>, targets: array<int32>,
                       ghost offers: seq<Offer>, ghost st: Stage)
      returns (remaining: int32)
    requires Balanced(total, st) && targets[..] == st.held && targets.Length == |groups| && st.left == total
    requires forall i :: 0 <= i < |groups| ==> targets[i] == 0
    requires offers == FloorOffers(groups)
    modifies targets
    ensures Stage(targets[..], remaining) == Fill(offers, st)
  {
    hide After, Fill, SumTo;
    remaining := total;
    for i := 0 to |groups|
      invariant Midway(offers, st, i, targets[..], remaining) && 0 <= remaining <= total
    {
      var floor := GroupFloor(groups[i].scaling);
      var t: int32 := 0;
      if 0 < floor {
        t := Min(floor, remaining);
      }
      remaining := Hand(total, targets, i, remaining, t, offers, st);
    }
    MidwayEnds(offers, st, |groups|, targets[..], remaining);
  }

  predicate TargetInRange(total: int32, s: Constraints)
    requires 0 <= total
  {
    var t := GroupTarget(total, s);
    t.Some? ==> MIN_INT32 + total <= t.value
  }

  lemma TargetsInRange(total: int32, groups: seq<GroupSpec>, observed: map<string, int32>)
    requires 0 <= total && NoUnderflow(total, groups, observed)
    ensures forall i | 0 <= i < |groups| :: TargetInRange(total, groups[i].scaling)
  {
    forall i | 0 <= i < |groups|
      ensures TargetInRange(total, groups[i].scaling)
    {
      assert groups[i] in groups;
    }
  }

  method ChaseTargets(total: int32, groups: seq<GroupSpec>, targets: array<int32>, left: int32,
                      ghost offers: seq<Offer>, ghost st: Stage)
      returns (remaining: int32)
    requires Balanced(total, st) && targets[..] == st.held && targets.Length == |groups| && st.left == left
    requires 0 < total && 0 < left && offers == TargetOffers(total, groups)
    requires forall i | 0 <= i < |groups| :: TargetInRange(total, groups[i].scaling)
    modifies targets
    ensures Stage(targets[..], remaining) == Fill(offers, st)
  {
    hide GroupTarget, After, Fill, SumTo;
    remaining := left;
    BalancedLeft(total, st);
    var i := 0;
    while i < |groups|
      invariant 0 <= i <= |groups|
      invariant Midway(offers, st, i, targets[..], remaining) && 0 <= remaining <= total
    {
      BalancedFits(total, st, i);
      var target := GroupTarget(total, groups[i].scaling);
      var give: int32 := 0;
      if target.Some? {
        give := Gap(target.value, targets[i], remaining);
      }
      assert offers[i] == TargetOffer(total, groups[i].scaling);
      remaining := Hand(total, targets, i, remaining, give, offers, st);
      i := i + 1;
      if remaining <= 0 {
        MidwayEnds(offers, st, i, targets[..], remaining);
        return;
      }
    }
    MidwayEnds(offers, st, i, targets[..], remaining);
  }

  method FillCapacity(total: int32, groups: seq<GroupSpec>, observed: map<string, int32>,
                      targets: array<int32>, left: int32, ghost offers: seq<Offer>, ghost st: Stage)
      returns (remaining: int32)
    requires Balanced(total, st) && targets[..] == st.held && targets.Length == |groups| && st.left == left
    requires 0 < total && offers == CapacityOffers(groups, observed)
    requires forall k | k in observed :: MIN_INT32 + total <= observed[k]
    modifies targets
    ensures Stage(targets[..], remaining) == Fill(offers, st)
  {
    hide After, Fill, SumTo;
    remaining := left;
    BalancedLeft(total, st);
    var i := 0;
    while i < |groups|
      invariant 0 <= i <= |groups|
      invariant Midway(offers, st, i, targets[..], remaining) && 0 <= remaining <= total
    {
      if remaining <= 0 {
        break;
      }
      BalancedFits(total, st, i);
      var give: int32 := 0;
      if groups[i].scaling.opportunistic {
        var want: int32 := remaining;
        if groups[i].name in observed {
          want := observed[groups[i].name];
        }
        give := Gap(want, targets[i], remaining);
      }
      remaining := Hand(total, targets, i, remaining, give, offers, st);
      i := i + 1;
    }
    MidwayEnds(offers, st, i, targets[..], remaining);
  }

  method PlaceOverflow(total: int32, groups: seq<GroupSpec>, targets: array<int32>, left: int32,
                       ghost offers: seq<Offer>, ghost st: Stage)
      returns (remaining: int32)
    requires Balanced(total, st) && targets[..] == st.held && targets.Length == |groups| && st.left == left
    requires 0 < total && offers == OverflowOffers(total, groups)
    requires forall g | g in groups :: g.scaling.max.Some? ==> MIN_INT32 + total <= g.scaling.max.value
    modifies targets
    ensures Stage(targets[..], remaining) == Fill(offers, st)
  {
    hide After, Fill, SumTo;
    remaining := left;
    BalancedLeft(total, st);
    var i := 0;
    while i < |groups|
      invariant 0 <= i <= |groups|
      invariant Midway(offers, st, i, targets[..], remaining) && 0 <= remaining <= total
    {
      if remaining <= 0 {
        break;
      }
      assert groups[i] in groups;
      BalancedFits(total, st, i);
      var give: int32 := 0;
      if !groups[i].scaling.opportunistic {
        var limit := GroupCeiling(total, groups[i].scaling);
        if limit.None? {
          give := remaining;
        } else {
          give := Gap(limit.value, targets[i], remaining);
        }
      }
      remaining := Hand(total, targets, i, remaining, give, offers, st);
      i := i + 1;
    }
    MidwayEnds(offers, st, i, targets[..], remaining);
  }

  lemma {:induction false} BalancedLeft(total: int, st: Stage)
    requires Balanced(total, st)
    ensures st.left <= total
  {
    if 0 < |st.held| {
      EachWithinSum(st.held, |st.held|, 0);
    }
  }

  method ComputeGroupTargets(total: int32, groups: seq<GroupSpec>, observed: map<string, int32>)
      returns (r: Distribution)
    requires NoUnderflow(total, groups, observed)
    ensures Stage(r.targets, r.unplaced) == Split(total, groups, observed)
    ensures |groups| != 0 ==> r.targetDegraded == Degraded(total, r.targets, groups)
    ensures |groups| == 0 ==> !r.targetDegraded
  {
    var n := |groups|;
    if n == 0 {
      return Distribution([], false, 0);
    }
    var targets := new int32[n](_ => 0);
    if total <= 0 {
      assert targets[..] == seq(n, _ => 0);
      return Distribution(targets[..], false, 0);
    }
    StagesBalanced(total, groups, observed);
    assert targets[..] == Start(total, n).held;
    TargetsInRange(total, groups, observed);

    var remaining := SatisfyFloors(total, groups, targets, FloorOffers(groups), Start(total, n));
    if remaining <= 0 {
      FloorsTakeAll(total, groups, observed);
    } else {
      remaining := ChaseTargets(total, groups, targets, remaining, TargetOffers(total, groups), Floored(total, groups));
      remaining := FillCapacity(total, groups, observed, targets, remaining,
        CapacityOffers(groups, observed), Chased(total, groups));
      remaining := PlaceOverflow(total, groups, targets, remaining,
        OverflowOffers(total, groups), Sized(total, groups, observed));
    }
    var degraded := CheckTargetDegraded(total, targets, groups);
    r := Distribution(targets[..], degraded, remaining);
  }

  /** Once the floors take everything the later phases are idle, so the early exit is exact. */
  lemma FloorsTakeAll(total: int32, groups: seq<GroupSpec>, observed: map<string, int32>)
    requires 0 <= total && Floored(total, groups).left <= 0
    ensures Placed(total, groups, observed) == Floored(total, groups)
  {
    StagesInRange(total, groups, observed);
    IdleWhenDrained(TargetOffers(total, groups), Floored(total, groups));
    IdleWhenDrained(CapacityOffers(groups, observed), Chased(total, groups));
    IdleWhenDrained(OverflowOffers(total, groups), Sized(total, groups, observed));
  }

  lemma IdleWhenDrained(offers: seq<Offer>, st: Stage)
    requires |offers| == |st.held| && st.left == 0
    ensures Fill(offers, st) == st
  {
    DrainedKeepsRest(offers, st, 0);
    assert Fill(offers, st).held == st.held;
  }
}
