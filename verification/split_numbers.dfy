/** The whole split read off min, max, target, the observed capacities and the total: what each
    of the four phases makes of each group (internal/workload/algorithm.go). */

module SplitNumbers {
  import opened Options
  import opened Scaling
  import opened Waterfill
  import opened Allocator
  import opened AllocatorLaws

  /** What is left when group i's turn comes in a phase that takes `before` to `after`. */
  function LeftAtTurn(total: int, before: seq<int>, after: seq<int>, i: nat): int
    requires |before| == |after| && i < |before|
  {
    total - SumTo(after, i) - (Sum(before) - SumTo(before, i))
  }

  /** Group i is raised to the limit, as far as what is left allows, and never lowered. */
  ghost predicate RaisedTo(total: int, before: seq<int>, after: seq<int>, i: nat, limit: int)
    requires |before| == |after| && i < |before|
  {
    var left := LeftAtTurn(total, before, after, i);
    after[i] == if limit <= before[i] then before[i] else if limit < before[i] + left then limit else before[i] + left
  }

  /** The largest count that is at most the share. */
  ghost predicate ShareRoundedDown(total: int, pct: int, t: int) {
    100 * t <= total * pct < 100 * (t + 1)
  }

  /** The least count that is at least the share. */
  ghost predicate ShareRoundedUp(total: int, pct: int, t: int) {
    100 * (t - 1) < total * pct <= 100 * t
  }

  /** Phase 1: every group is raised from nothing to its min. */
  ghost predicate ByFloor(total: int, s: Constraints, after: seq<int>, i: nat)
    requires i < |after|
  {
    match s.min
    case None => after[i] == 0
    case Some(min) => RaisedTo(total, seq(|after|, _ => 0), after, i, min)
  }

  /** Phase 2: a group with a readable percentage is raised to its share, rounded down without
      a max, and with one rounded up and cut at the max. */
  ghost predicate ByTarget(total: int, s: Constraints, before: seq<int>, after: seq<int>, i: nat)
    requires |before| == |after| && i < |before|
  {
    match s.target
    case None => after[i] == before[i]
    case Some(Unreadable) => after[i] == before[i]
    case Some(Percent(pct)) =>
      match s.max
      case None => exists t :: ShareRoundedDown(total, pct, t) && RaisedTo(total, before, after, i, t)
      case Some(max) =>
        exists t :: ShareRoundedUp(total, pct, t) && RaisedTo(total, before, after, i, if t < max then t else max)
  }

  /** Phase 3: an opportunistic group is raised to its observed capacity, or to all that is left. */
  ghost predicate ByCapacity(total: int, g: GroupSpec, observed: map<string, int32>, before: seq<int>, after: seq<int>,
                             i: nat)
    requires |before| == |after| && i < |before|
  {
    if !g.scaling.opportunistic then after[i] == before[i]
    else if g.name in observed then RaisedTo(total, before, after, i, observed[g.name])
    else RaisedTo(total, before, after, i, LeftAtTurn(total, before, after, i))
  }

  /** Phase 4: any other group takes all that is left, or is raised to its max, or to its share
      rounded down, or, with an unreadable target, no further. */
  ghost predicate ByOverflow(total: int, s: Constraints, before: seq<int>, after: seq<int>, i: nat)
    requires |before| == |after| && i < |before|
  {
    if s.opportunistic then after[i] == before[i]
    else
      match s.max
      case Some(max) => RaisedTo(total, before, after, i, max)
      case None =>
        match s.target
        case None => after[i] == before[i] + LeftAtTurn(total, before, after, i)
        case Some(Unreadable) => after[i] == before[i]
        case Some(Percent(pct)) => exists t :: ShareRoundedDown(total, pct, t) && RaisedTo(total, before, after, i, t)
  }

  /** The split is these four phases one after the other and what they do not place; of nothing
      it gives nothing. */
  lemma SplitByTheNumbers(total: int32, groups: seq<GroupSpec>, observed: map<string, int32>)
    ensures var d := Split(total, groups, observed);
      if 0 < total && 0 < |groups| then
        var f, t, c := Floored(total, groups).held, Chased(total, groups).held, Sized(total, groups, observed).held;
        && (forall i :: 0 <= i < |groups| ==> ByFloor(total, groups[i].scaling, f, i))
        && (forall i :: 0 <= i < |groups| ==> ByTarget(total, groups[i].scaling, f, t, i))
        && (forall i :: 0 <= i < |groups| ==> ByCapacity(total, groups[i], observed, t, c, i))
        && (forall i :: 0 <= i < |groups| ==> ByOverflow(total, groups[i].scaling, c, d.held, i))
        && d.left == total - Sum(d.held)
      else d.left == 0 && |d.held| == |groups| && forall i :: 0 <= i < |groups| ==> d.held[i] == 0
  {
    hide Floored, Chased, Sized, Placed, ByFloor, ByTarget, ByCapacity, ByOverflow;
    if 0 < total && 0 < |groups| {
      forall i | 0 <= i < |groups|
        ensures ByFloor(total, groups[i].scaling, Floored(total, groups).held, i)
        ensures ByTarget(total, groups[i].scaling, Floored(total, groups).held, Chased(total, groups).held, i)
        ensures var c := Sized(total, groups, observed).held;
          && ByCapacity(total, groups[i], observed, Chased(total, groups).held, c, i)
          && ByOverflow(total, groups[i].scaling, c, Placed(total, groups, observed).held, i)
      {
        FloorByTheNumbers(total, groups, i);
        TargetByTheNumbers(total, groups, i);
        CapacityByTheNumbers(total, groups, observed, i);
        OverflowByTheNumbers(total, groups, observed, i);
      }
      StagesConserve(total, groups, observed);
    }
  }

  /** And nothing else is: counts that go by the same rules are the split's. */
  lemma NumbersDetermineTheSplit(total: int32, groups: seq<GroupSpec>, observed: map<string, int32>,
                                 f: seq<int>, t: seq<int>, c: seq<int>, held: seq<int>)
    requires 0 < total && 0 < |groups| == |f| == |t| == |c| == |held|
    requires forall i :: 0 <= i < |groups| ==> ByFloor(total, groups[i].scaling, f, i)
    requires forall i :: 0 <= i < |groups| ==> ByTarget(total, groups[i].scaling, f, t, i)
    requires forall i :: 0 <= i < |groups| ==> ByCapacity(total, groups[i], observed, t, c, i)
    requires forall i :: 0 <= i < |groups| ==> ByOverflow(total, groups[i].scaling, c, held, i)
    ensures held == Split(total, groups, observed).held
  {
    hide Floored, Chased, Sized, Placed, ByFloor, ByTarget, ByCapacity, ByOverflow;
    SplitByTheNumbers(total, groups, observed);
    var f', t', c' := Floored(total, groups).held, Chased(total, groups).held, Sized(total, groups, observed).held;
    var held' := Placed(total, groups, observed).held;
    forall i | 0 <= i < |groups| && SumTo(f, i) == SumTo(f', i)
      ensures f[i] == f'[i]
    {
      OneFloor(total, groups[i].scaling, f, f', i);
    }
    SameCounts(f, f', |f|);
    forall i | 0 <= i < |groups| && SumTo(t, i) == SumTo(t', i)
      ensures t[i] == t'[i]
    {
      OneTarget(total, groups[i].scaling, f, t, t', i);
    }
    SameCounts(t, t', |t|);
    forall i | 0 <= i < |groups| && SumTo(c, i) == SumTo(c', i)
      ensures c[i] == c'[i]
    {
      OneCapacity(total, groups[i], observed, t, c, c', i);
    }
    SameCounts(c, c', |c|);
    forall i | 0 <= i < |groups| && SumTo(held, i) == SumTo(held', i)
      ensures held[i] == held'[i]
    {
      OneOverflow(total, groups[i].scaling, c, held, held', i);
    }
    SameCounts(held, held', |held|);
  }

  lemma {:induction false} SameCounts(a: seq<int>, b: seq<int>, n: nat)
    requires n <= |a| == |b|
    requires forall i :: 0 <= i < |a| && SumTo(a, i) == SumTo(b, i) ==> a[i] == b[i]
    ensures a[..n] == b[..n] && SumTo(a, n) == SumTo(b, n)
    ensures n == |a| ==> a == b
  {
    if 0 < n {
      SameCounts(a, b, n - 1);
      assert a[..n] == a[..n - 1] + [a[n - 1]] && b[..n] == b[..n - 1] + [b[n - 1]];
    }
    if n == |a| {
      assert a == a[..n] && b == b[..n];
    }
  }

  lemma OneFloor(total: int, s: Constraints, a: seq<int>, b: seq<int>, i: nat)
    requires i < |a| == |b| && SumTo(a, i) == SumTo(b, i) && ByFloor(total, s, a, i) && ByFloor(total, s, b, i)
    ensures a[i] == b[i]
  {
    assert seq(|a|, _ => 0) == seq(|b|, _ => 0);
  }

  lemma OneTarget(total: int, s: Constraints, before: seq<int>, a: seq<int>, b: seq<int>, i: nat)
    requires i < |a| == |b| == |before| && SumTo(a, i) == SumTo(b, i)
    requires ByTarget(total, s, before, a, i) && ByTarget(total, s, before, b, i)
    ensures a[i] == b[i]
  {
  }

  lemma OneCapacity(total: int, g: GroupSpec, observed: map<string, int32>, before: seq<int>, a: seq<int>, b: seq<int>,
                    i: nat)
    requires i < |a| == |b| == |before| && SumTo(a, i) == SumTo(b, i)
    requires ByCapacity(total, g, observed, before, a, i) && ByCapacity(total, g, observed, before, b, i)
    ensures a[i] == b[i]
  {
  }

  lemma OneOverflow(total: int, s: Constraints, before: seq<int>, a: seq<int>, b: seq<int>, i: nat)
    requires i < |a| == |b| == |before| && SumTo(a, i) == SumTo(b, i)
    requires ByOverflow(total, s, before, a, i) && ByOverflow(total, s, before, b, i)
    ensures a[i] == b[i]
  {
  }

  // ---- phase by phase ----

  /** What each kind of offer makes of a group, in the counts alone. */
  lemma OfferByTheNumbers(total: int, offers: seq<Offer>, st: Stage, after: seq<int>, i: nat)
    requires |offers| == |st.held| && i < |offers| && Balanced(total, st) && after == Fill(offers, st).held
    ensures match offers[i]
            case Nothing => after[i] == st.held[i]
            case UpTo(limit) => RaisedTo(total, st.held, after, i, limit)
            case UpToRemaining => RaisedTo(total, st.held, after, i, LeftAtTurn(total, st.held, after, i))
            case Everything => after[i] == st.held[i] + LeftAtTurn(total, st.held, after, i)
  {
    FillConservesTo(offers, st, i);
    LeftShrinks(offers, st, 0, i);
    assert Left(offers, st, i) == LeftAtTurn(total, st.held, after, i);
  }

  lemma FloorByTheNumbers(total: int32, groups: seq<GroupSpec>, i: nat)
    requires 0 < total && i < |groups|
    ensures ByFloor(total, groups[i].scaling, Floored(total, groups).held, i)
  {
    hide Fill, LeftAtTurn;
    var st := Start(total, |groups|);
    StagesBalanced(total, groups, map[]);
    assert st.held == seq(|groups|, _ => 0);
    OfferByTheNumbers(total, FloorOffers(groups), st, Floored(total, groups).held, i);
    UpToIsACeiling(FloorOffers(groups), st, i);
  }

  lemma RoundedDown(total: int32, pct: Pct)
    requires 0 <= total
    ensures ShareRoundedDown(total, pct, PercentOf(total, pct))
  {
    SharesBracket(total, pct);
  }

  lemma RoundedUp(total: int32, pct: Pct)
    requires 0 <= total
    ensures ShareRoundedUp(total, pct, CeilPercentOf(total, pct))
  {
    SharesBracket(total, pct);
  }

  lemma TargetByTheNumbers(total: int32, groups: seq<GroupSpec>, i: nat)
    requires 0 < total && i < |groups|
    ensures ByTarget(total, groups[i].scaling, Floored(total, groups).held, Chased(total, groups).held, i)
  {
    hide Fill, LeftAtTurn, Floored, PercentOf, CeilPercentOf, ShareRoundedDown, ShareRoundedUp, RaisedTo;
    var s := groups[i].scaling;
    StagesBalanced(total, groups, map[]);
    OfferByTheNumbers(total, TargetOffers(total, groups), Floored(total, groups), Chased(total, groups).held, i);
    assert TargetOffers(total, groups)[i] == TargetOffer(total, s);
    if s.target.Some? && s.target.value.Percent? {
      RoundedDown(total, s.target.value.pct);
      RoundedUp(total, s.target.value.pct);
    }
  }

  lemma CapacityByTheNumbers(total: int32, groups: seq<GroupSpec>, observed: map<string, int32>, i: nat)
    requires 0 < total && i < |groups|
    ensures ByCapacity(total, groups[i], observed, Chased(total, groups).held, Sized(total, groups, observed).held, i)
  {
    hide Fill, LeftAtTurn, Chased, RaisedTo;
    StagesBalanced(total, groups, observed);
    OfferByTheNumbers(total, CapacityOffers(groups, observed), Chased(total, groups),
      Sized(total, groups, observed).held, i);
    assert CapacityOffers(groups, observed)[i] == CapacityOffer(groups[i], observed);
  }

  lemma OverflowByTheNumbers(total: int32, groups: seq<GroupSpec>, observed: map<string, int32>, i: nat)
    requires 0 < total && i < |groups|
    ensures ByOverflow(total, groups[i].scaling, Sized(total, groups, observed).held,
                       Placed(total, groups, observed).held, i)
  {
    hide Fill, LeftAtTurn, Sized, PercentOf, ShareRoundedDown, RaisedTo;
    var s := groups[i].scaling;
    StagesInRange(total, groups, observed);
    StagesBalanced(total, groups, observed);
    OfferByTheNumbers(total, OverflowOffers(total, groups), Sized(total, groups, observed),
      Placed(total, groups, observed).held, i);
    assert OverflowOffers(total, groups)[i] == OverflowOffer(total, s);
    if s.target.Some? && s.target.value.Percent? {
      RoundedDown(total, s.target.value.pct);
    }
    if s.max.None? && s.target == Some(Unreadable) {
      UpToIsACeiling(OverflowOffers(total, groups), Sized(total, groups, observed), i);
    }
  }

  // ---- missed targets ----

  /** Degraded, from the numbers alone: some group's readable percentage is overshot by more
      than half a point without a max, or undershot by more than that with one. */
  lemma DegradedByTheNumbers(total: int32, targets: seq<int>, groups: seq<GroupSpec>)
    requires |targets| == |groups|
    ensures Degraded(total, targets, groups) <==>
      0 < total && exists i :: 0 <= i < |groups| && Missed(total, targets[i], groups[i].scaling)
  {
    if 0 < total {
      forall i | 0 <= i < |groups|
        ensures Violates(total, targets[i], groups[i].scaling) <==> Missed(total, targets[i], groups[i].scaling)
      {
        if TargetPercent(groups[i].scaling).Some? {
          ViolatesExactly(total, targets[i], groups[i].scaling);
        }
      }
    }
  }

  ghost predicate Missed(total: int, held: int, s: Constraints) {
    && s.target.Some? && s.target.value.Percent?
    && var pct := s.target.value.pct as int;
       if s.max.None? then (2 * pct + 1) * total < 200 * held else 200 * held < (2 * pct - 1) * total
  }
}
