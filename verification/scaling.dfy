/** Data model of a pool's groups, and the readers of one group's constraints
    (internal/workload/algorithm.go, api/v1alpha1/podpool_types.go). */

module Options {
  datatype Option<+T> = None | Some(value: T)
}

module Scaling {
  import opened Options

  const MAX_INT32: int := 0x7fff_ffff
  const MIN_INT32: int := -0x8000_0000

  /** A subset type, so that every assignment of an int32 is an overflow check. */
  type int32 = x: int | MIN_INT32 <= x <= MAX_INT32

  type Pct = p: int | 1 <= p <= 100 witness 1

  /** A target string either parses to a percentage or is present but unreadable. */
  datatype Target = Unreadable | Percent(pct: Pct)

  datatype Constraints = Constraints(
    min: Option<int32>,
    max: Option<int32>,
    target: Option<Target>,
    opportunistic: bool)

  datatype GroupSpec = GroupSpec(name: string, scaling: Constraints)

  function Min(a: int, b: int): int { if a < b then a else b }

  function Max(a: int, b: int): int { if a < b then b else a }

  /** total * pct / 100 rounded down; the result still fits an int32. */
  function PercentOf(total: int32, pct: Pct): (r: int32)
    requires 0 <= total
    ensures 0 <= r <= total
  {
    ShareFits(total, pct);
    total * pct / 100
  }

  /** total * pct / 100 rounded up; the int64 numerator cannot push it out of int32. */
  function CeilPercentOf(total: int32, pct: Pct): (r: int32)
    requires 0 <= total
    ensures 0 <= r <= total
  {
    ShareFits(total, pct);
    (total * pct + 99) / 100
  }

  /** The two roundings bracket the exact share, and differ only when it is not whole. */
  lemma SharesBracket(total: int32, pct: Pct)
    requires 0 <= total
    ensures 100 * PercentOf(total, pct) <= total * pct <= 100 * CeilPercentOf(total, pct)
    ensures CeilPercentOf(total, pct) == PercentOf(total, pct) + (if total * pct % 100 == 0 then 0 else 1)
  {
    var share := total * pct;
    assert share == 100 * (share / 100) + share % 100;
    assert PercentOf(total, pct) == share / 100;
    assert CeilPercentOf(total, pct) == (share + 99) / 100;
  }

  lemma ShareFits(total: int, pct: Pct)
    requires 0 <= total
    ensures 0 <= total * pct <= total * 100
  {
  }

  function GroupFloor(s: Constraints): int32 {
    if s.min.Some? then s.min.value else 0
  }

  function TargetPercent(s: Constraints): Option<Pct> {
    if s.target.Some? && s.target.value.Percent? then Some(s.target.value.pct) else None
  }

  /** With a max the share is rounded up and cut at the max; without one it is rounded down. */
  function GroupTarget(total: int32, s: Constraints): Option<int32>
    requires 0 <= total
  {
    match TargetPercent(s)
    case None => None
    case Some(pct) =>
      if s.max.Some? then Some(Min(CeilPercentOf(total, pct), s.max.value))
      else Some(PercentOf(total, pct))
  }

  predicate HasStaticCeiling(s: Constraints) {
    s.max.Some? || s.target.Some?
  }

  predicate IsBounded(s: Constraints) {
    HasStaticCeiling(s) || s.opportunistic
  }

  /** None when the group is unbounded; an unreadable target binds at zero. */
  function GroupCeiling(total: int32, s: Constraints): Option<int32>
    requires 0 <= total
  {
    if !HasStaticCeiling(s) then None
    else if s.max.Some? then s.max
    else if TargetPercent(s).None? then Some(0)
    else Some(PercentOf(total, TargetPercent(s).value))
  }

  /** What the CRD's validation rules admit for one group's constraints. */
  predicate CelValid(s: Constraints) {
    && (s.min.Some? ==> 0 <= s.min.value)
    && (s.max.Some? ==> 1 <= s.max.value)
    && (s.min.Some? && s.max.Some? ==> s.min.value <= s.max.value)
    && (s.opportunistic ==> s.max.None? && s.target.None?)
    && (s.target.Some? ==> s.target.value.Percent?)
  }

  /** spec.groups is a list map keyed by name. */
  ghost predicate DistinctNames(groups: seq<GroupSpec>) {
    forall i, j | 0 <= i < j < |groups| :: groups[i].name != groups[j].name
  }
}
