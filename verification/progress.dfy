/** Progress stamps, the stall verdict, and the requeue that makes it fire on time
    (stampAllProgress and stampGroupProgress in internal/controller/podpool_controller.go,
    evaluateStalled and deadlineAwareRequeue in internal/controller/opportunistic.go). */

module Progress {
  import opened Options
  import opened PodPools
  import opened Scaling
  import opened Probes

  datatype Gvk = Gvk(group: string, version: string, kind: string)

  datatype GroupStatus = GroupStatus(
    name: string,
    targetReplicas: int32,
    readyReplicas: int32,
    lastProgressTime: Option<int>,
    workloadRef: Option<Gvk>)

  /** Counts the API stores are never negative (Minimum=0), so the distance fits int32. */
  predicate Storable(gs: GroupStatus) {
    0 <= gs.targetReplicas && 0 <= gs.readyReplicas
  }

  function Shortfall(gs: GroupStatus): (s: nat)
    ensures Storable(gs) ==> s <= gs.targetReplicas
  {
    Max(0, gs.targetReplicas - gs.readyReplicas)
  }

  function FindGroupStatus(rows: seq<GroupStatus>, name: string): (r: Option<GroupStatus>)
    ensures r.None? <==> forall i :: 0 <= i < |rows| ==> rows[i].name != name
    ensures r.Some? ==> r.value in rows && r.value.name == name
  {
    if rows == [] then None
    else if rows[0].name == name then Some(rows[0])
    else FindGroupStatus(rows[1..], name)
  }

  // ---- stamping ----

  /** Work that is new or moving restarts the clock; standing still, or a regression, does not. */
  predicate Restarts(gs: GroupStatus, prev: Option<GroupStatus>, genChanged: bool) {
    || prev.None?
    || genChanged
    || Shortfall(prev.value) == 0
    || Shortfall(gs) < Shortfall(prev.value)
    || prev.value.targetReplicas < gs.targetReplicas
  }

  function Stamped(gs: GroupStatus, prev: Option<GroupStatus>, genChanged: bool, now: int): GroupStatus {
    gs.(lastProgressTime :=
      if Shortfall(gs) == 0 then None
      else if Restarts(gs, prev, genChanged) then Some(now)
      else prev.value.lastProgressTime)
  }

  method StampGroupProgress(statuses: array<GroupStatus>, i: nat, prev: Option<GroupStatus>, genChanged: bool, now: int)
    requires i < statuses.Length
    modifies statuses
    ensures statuses[..] == old(statuses[..])[i := Stamped(old(statuses[i]), prev, genChanged, now)]
  {
    var gs := statuses[i];
    var shortfall := Max(0, gs.targetReplicas - gs.readyReplicas);
    if shortfall == 0 {
      statuses[i] := gs.(lastProgressTime := None);
      return;
    }
    if prev.None? {
      statuses[i] := gs.(lastProgressTime := Some(now));
      return;
    }
    var prevShortfall := Max(0, prev.value.targetReplicas - prev.value.readyReplicas);
    if genChanged {
      statuses[i] := gs.(lastProgressTime := Some(now));
    } else if prevShortfall == 0 {
      statuses[i] := gs.(lastProgressTime := Some(now));
    } else if shortfall < prevShortfall {
      statuses[i] := gs.(lastProgressTime := Some(now));
    } else if prev.value.targetReplicas < gs.targetReplicas {
      statuses[i] := gs.(lastProgressTime := Some(now));
    } else {
      statuses[i] := gs.(lastProgressTime := prev.value.lastProgressTime);
    }
  }

  /** The status this pass read. */
  datatype Before = Before(groups: seq<GroupStatus>, observedGeneration: int)

  function StampedRow(gs: GroupStatus, before: Before, reconciled: set<string>, generation: int,
                      now: int): GroupStatus {
    if gs.name !in reconciled then gs
    else Stamped(gs, FindGroupStatus(before.groups, gs.name), before.observedGeneration != generation, now)
  }

  /** Stamps the freshly reconciled groups in place; failed groups keep the carried row. */
  method StampAllProgress(statuses: array<GroupStatus>, before: Before, reconciled: set<string>, generation: int,
                          now: int)
    modifies statuses
    ensures forall i :: 0 <= i < statuses.Length ==>
      statuses[i] == StampedRow(old(statuses[i]), before, reconciled, generation, now)
  {
    var genChanged := before.observedGeneration != generation;
    for i := 0 to statuses.Length
      invariant forall j :: 0 <= j < i ==>
        statuses[j] == StampedRow(old(statuses[j]), before, reconciled, generation, now)
      invariant forall j :: i <= j < statuses.Length ==> statuses[j] == old(statuses[j])
    {
      var gs := statuses[i];
      if gs.name !in reconciled {
        continue;
      }
      ghost var was := statuses[..];
      StampGroupProgress(statuses, i, FindGroupStatus(before.groups, gs.name), genChanged, now);
      assert forall j :: 0 <= j < statuses.Length ==> statuses[j] == statuses[..][j];
      assert forall j :: 0 <= j < statuses.Length && j != i ==> statuses[..][j] == was[j];
    }
  }

  // ---- one pass's rows ----

  datatype Outcome = Reconciled(ready: int32) | GroupFailed

  /** A failed group carries its previous row; one that has none gets a row without a stamp. */
  function RowFor(name: string, target: int32, outcome: Outcome, gvk: Gvk, previous: Option<GroupStatus>): GroupStatus {
    match outcome
    case Reconciled(ready) => GroupStatus(name, target, ready, None, Some(gvk))
    case GroupFailed =>
      if previous.Some? then previous.value else GroupStatus(name, target, 0, None, None)
  }

  function PassRow(name: string, target: int32, outcome: Outcome, gvk: Gvk, previous: Option<GroupStatus>,
                   genChanged: bool, now: int): GroupStatus {
    var row := RowFor(name, target, outcome, gvk, previous);
    if outcome.GroupFailed? then row else Stamped(row, previous, genChanged, now)
  }

  /** The group loop of Reconcile and the stamping that follows it. */
  method PublishRows(names: seq<string>, targets: seq<int32>, outcomes: seq<Outcome>, gvk: Gvk,
                     before: Before, generation: int, now: int)
      returns (rows: seq<GroupStatus>, reconciled: set<string>)
    requires |names| == |targets| == |outcomes|
    requires forall i, j | 0 <= i < j < |names| :: names[i] != names[j]
    ensures |rows| == |names|
    ensures forall i :: 0 <= i < |names| ==>
      rows[i] == PassRow(names[i], targets[i], outcomes[i], gvk, FindGroupStatus(before.groups, names[i]),
                         before.observedGeneration != generation, now)
    ensures forall name :: name in reconciled <==>
      exists i :: 0 <= i < |names| && names[i] == name && outcomes[i].Reconciled?
  {
    rows, reconciled := [], {};
    for i := 0 to |names|
      invariant |rows| == i
      invariant forall j :: 0 <= j < i ==>
        rows[j] == RowFor(names[j], targets[j], outcomes[j], gvk, FindGroupStatus(before.groups, names[j]))
      invariant forall name :: name in reconciled <==>
        exists j :: 0 <= j < i && names[j] == name && outcomes[j].Reconciled?
    {
      if outcomes[i].GroupFailed? {
        var previous := FindGroupStatus(before.groups, names[i]);
        if previous.Some? {
          rows := rows + [previous.value];
        } else {
          rows := rows + [GroupStatus(names[i], targets[i], 0, None, None)];
        }
        continue;
      }
      reconciled := reconciled + {names[i]};
      rows := rows + [GroupStatus(names[i], targets[i], outcomes[i].ready, None, Some(gvk))];
    }
    var statuses := new GroupStatus[|rows|](i requires 0 <= i < |rows| => rows[i]);
    StampAllProgress(statuses, before, reconciled, generation, now);
    rows := statuses[..];
  }

  // ---- the stall verdict ----

  const DEADLINE_OFF: int32 := 2147483647
  const DEFAULT_DEADLINE_SECONDS: int32 := 600
  const RECONCILE_FLOOR: int := 600 * SECOND

  function DeadlineSeconds(seconds: Option<int32>): int32 {
    if seconds.Some? then seconds.value else DEFAULT_DEADLINE_SECONDS
  }

  predicate HasProgressDeadline(seconds: Option<int32>) {
    DeadlineSeconds(seconds) < DEADLINE_OFF
  }

  function ProgressDeadline(seconds: Option<int32>): int {
    DeadlineSeconds(seconds) * SECOND
  }

  predicate OnTheClock(gs: GroupStatus) {
    0 < Shortfall(gs) && gs.lastProgressTime.Some?
  }

  predicate IsStalled(gs: GroupStatus, seconds: Option<int32>, now: int) {
    && HasProgressDeadline(seconds) && OnTheClock(gs)
    && ProgressDeadline(seconds) <= now - gs.lastProgressTime.value
  }

  /** Short, stamped, and at least the pool's deadline past the stamp, in nanoseconds: ten
      minutes unless the pool says otherwise, never if it says the largest int32. */
  ghost predicate Overdue(gs: GroupStatus, seconds: Option<int32>, now: int) {
    && gs.readyReplicas < gs.targetReplicas && gs.lastProgressTime.Some?
    && match seconds
       case None => gs.lastProgressTime.value + 600 * 1_000_000_000 <= now
       case Some(s) => s < 2147483647 && gs.lastProgressTime.value + s * 1_000_000_000 <= now
  }

  lemma StalledIsOverdue(gs: GroupStatus, seconds: Option<int32>, now: int)
    ensures IsStalled(gs, seconds, now) <==> Overdue(gs, seconds, now)
  {
  }

  /** The names come in row order: one more row adds its own name at the end, or none. */
  lemma {:induction false} StalledInOrder(groups: seq<GroupStatus>, gs: GroupStatus, seconds: Option<int32>, now: int)
    ensures StalledNames([], seconds, now) == []
    ensures StalledNames(groups + [gs], seconds, now)
         == StalledNames(groups, seconds, now) + if Overdue(gs, seconds, now) then [gs.name] else []
  {
    if groups == [] {
      assert groups + [gs] == [gs] && [gs][1..] == [];
    } else {
      StalledInOrder(groups[1..], gs, seconds, now);
      assert (groups + [gs])[1..] == groups[1..] + [gs];
    }
  }

  /** Names exactly the stalled rows, in row order. */
  method EvaluateStalled(groups: seq<GroupStatus>, seconds: Option<int32>, now: int) returns (stalled: seq<string>)
    ensures stalled == StalledNames(groups, seconds, now)
    ensures forall name :: name in stalled <==>
      exists i :: 0 <= i < |groups| && groups[i].name == name && Overdue(groups[i], seconds, now)
  {
    if !HasProgressDeadline(seconds) {
      NobodyStalls(groups, seconds, now);
      return [];
    }
    var deadline := ProgressDeadline(seconds);
    stalled := [];
    for i := 0 to |groups|
      invariant stalled + StalledNames(groups[i..], seconds, now) == StalledNames(groups, seconds, now)
    {
      assert groups[i..][1..] == groups[i + 1..];
      var gs := groups[i];
      var shortfall := Max(0, gs.targetReplicas - gs.readyReplicas);
      if 0 < shortfall && gs.lastProgressTime.Some? {
        if deadline <= now - gs.lastProgressTime.value {
          stalled := stalled + [gs.name];
        }
      }
    }
  }

  function StalledNames(groups: seq<GroupStatus>, seconds: Option<int32>, now: int): (names: seq<string>)
    ensures forall name :: name in names <==>
      exists i :: 0 <= i < |groups| && groups[i].name == name && IsStalled(groups[i], seconds, now)
  {
    if groups == [] then []
    else
      var rest := StalledNames(groups[1..], seconds, now);
      assert forall i :: 1 <= i < |groups| ==> groups[i] == groups[1..][i - 1];
      assert forall name :: name in rest ==>
        exists i :: 1 <= i < |groups| && groups[i].name == name && IsStalled(groups[i], seconds, now) by {
        forall name | name in rest
          ensures exists i :: 1 <= i < |groups| && groups[i].name == name && IsStalled(groups[i], seconds, now)
        {
          var j :| 0 <= j < |groups[1..]| && groups[1..][j].name == name && IsStalled(groups[1..][j], seconds, now);
          assert groups[j + 1] == groups[1..][j];
        }
      }
      if IsStalled(groups[0], seconds, now) then [groups[0].name] + rest else rest
  }

  lemma {:induction false} NobodyStalls(groups: seq<GroupStatus>, seconds: Option<int32>, now: int)
    requires !HasProgressDeadline(seconds)
    ensures StalledNames(groups, seconds, now) == []
  {
    if groups != [] {
      NobodyStalls(groups[1..], seconds, now);
    }
  }

  /** Short, stamped, and not yet overdue under a deadline of so many nanoseconds. */
  ghost predicate Presses(gs: GroupStatus, seconds: Option<int32>, deadline: int, now: int) {
    && seconds != Some(2147483647)
    && gs.readyReplicas < gs.targetReplicas && gs.lastProgressTime.Some?
    && now < gs.lastProgressTime.value + deadline
  }

  /** The requeue is the soonest of the jittered base and every unexpired deadline -- ten
      minutes after the stamp unless the pool says otherwise -- but never under a second. */
  ghost predicate IsSoonest(d: int, base: int, groups: seq<GroupStatus>, seconds: Option<int32>, now: int) {
    var deadline := (match seconds case None => 600 case Some(s) => s as int) * 1_000_000_000;
    && 1_000_000_000 <= d <= Max(1_000_000_000, base)
    && (forall i :: 0 <= i < |groups| && Presses(groups[i], seconds, deadline, now) ==>
          d <= Max(1_000_000_000, groups[i].lastProgressTime.value + deadline - now))
    && (|| d == base || (d == 1_000_000_000 && base < d)
        || exists i :: 0 <= i < |groups| && Presses(groups[i], seconds, deadline, now)
             && d == Max(1_000_000_000, groups[i].lastProgressTime.value + deadline - now))
  }

  /** What requeueAfter jitters: the heartbeat of a pool that has one, or else the floor. */
  function RequeueBase(pool: PodPool): (base: int)
    ensures SECOND <= base
  {
    if 0 < Heartbeat(pool) then Heartbeat(pool) else RECONCILE_FLOOR
  }

  /** A pool with an opportunistic group is looked at by its own heartbeat, or every five minutes
      if it names none; any other every ten. */
  lemma RequeueByTheNumbers(pool: PodPool)
    ensures var opportunistic := exists g :: g in pool.groups && g.scaling.opportunistic;
      RequeueBase(pool) ==
        if !opportunistic then 600 * 1_000_000_000
        else
          match pool.heartbeatSeconds
          case None => 300 * 1_000_000_000
          case Some(s) => if 0 < s then s * 1_000_000_000 else 300 * 1_000_000_000
  {
  }

  /** The jitter adds up to a tenth. */
  method DeadlineAwareRequeue(pool: PodPool, jitter: int, groups: seq<GroupStatus>, seconds: Option<int32>, now: int)
      returns (d: int)
    requires 0 <= jitter && 10 * jitter <= RequeueBase(pool)
    ensures IsSoonest(d, RequeueBase(pool) + jitter, groups, seconds, now)
    ensures SECOND <= d && 10 * d <= 11 * RequeueBase(pool)
  {
    var jittered := RequeueBase(pool) + jitter;
    d := jittered;
    if HasProgressDeadline(seconds) {
      var deadline := ProgressDeadline(seconds);
      for i := 0 to |groups|
        invariant d <= jittered
        invariant forall j :: 0 <= j < i && Presses(groups[j], seconds, deadline, now) ==>
          d <= groups[j].lastProgressTime.value + deadline - now
        invariant d == jittered
          || exists j :: 0 <= j < i && Presses(groups[j], seconds, deadline, now)
               && d == groups[j].lastProgressTime.value + deadline - now
      {
        var gs := groups[i];
        var shortfall := Max(0, gs.targetReplicas - gs.readyReplicas);
        if 0 < shortfall && gs.lastProgressTime.Some? {
          var remaining := gs.lastProgressTime.value + deadline - now;
          if 0 < remaining < d {
            assert Presses(groups[i], seconds, deadline, now);
            d := remaining;
          }
        }
      }
    }
    if d < SECOND {
      d := SECOND;
    }
  }
}
