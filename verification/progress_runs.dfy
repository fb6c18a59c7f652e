/** Progress stamps and stall verdicts over whole runs whose status writes land. */

module ProgressRuns {
  import opened Options
  import opened Scaling
  import opened Probes
  import opened Progress

  /** One pass, as one group of the pool lives through it. */
  datatype Visit =
    | Full(outcome: Outcome, target: int32, gvk: Gvk, generation: int, now: int)
    | InvalidTemplate(generation: int)  // stamps the generation, leaves the rows
    | Halted                            // paused, no watch, cache filling, unreadable child

  datatype Memory = Memory(row: Option<GroupStatus>, observedGeneration: int)

  function Live(name: string, m: Memory, v: Visit): Memory {
    match v
    case Full(outcome, target, gvk, generation, now) =>
      Memory(Some(PassRow(name, target, outcome, gvk, m.row, m.observedGeneration != generation, now)), generation)
    case InvalidTemplate(generation) => m.(observedGeneration := generation)
    case Halted => m
  }

  function MemoryAt(name: string, generation: int, vs: seq<Visit>, n: nat): Memory
    requires n <= |vs|
  {
    if n == 0 then Memory(None, generation) else Live(name, MemoryAt(name, generation, vs, n - 1), vs[n - 1])
  }

  // ---- the history, read without looking at any row ----

  predicate Succeeds(v: Visit) {
    v.Full? && v.outcome.Reconciled?
  }

  function Short(counts: (int32, int32)): nat {
    Max(0, counts.0 - counts.1)
  }

  function Counts(v: Visit): (int32, int32)
    requires Succeeds(v)
  {
    (v.target, v.outcome.ready)
  }

  /** The (target, ready) on record before visit n: the latest success, or the target the
      group failed to reach on its very first pass. */
  function OnRecord(vs: seq<Visit>, n: nat): Option<(int32, int32)>
    requires n <= |vs|
  {
    if n == 0 then None
    else if Succeeds(vs[n - 1]) then Some(Counts(vs[n - 1]))
    else if vs[n - 1].Full? && OnRecord(vs, n - 1).None? then Some((vs[n - 1].target, 0 as int32))
    else OnRecord(vs, n - 1)
  }

  /** The generation last acted on before visit n. */
  function ActedOn(generation: int, vs: seq<Visit>, n: nat): int
    requires n <= |vs|
  {
    if n == 0 then generation
    else if vs[n - 1].Halted? then ActedOn(generation, vs, n - 1)
    else vs[n - 1].generation
  }

  /** Visit i is a success where shortfall appeared or shrank, the target rose, or the
      generation was new. */
  predicate Progresses(generation: int, vs: seq<Visit>, i: nat)
    requires i < |vs|
  {
    && Succeeds(vs[i]) && 0 < Short(Counts(vs[i]))
    && (|| OnRecord(vs, i).None?
        || vs[i].generation != ActedOn(generation, vs, i)
        || Short(OnRecord(vs, i).value) == 0
        || Short(Counts(vs[i])) < Short(OnRecord(vs, i).value)
        || OnRecord(vs, i).value.0 < vs[i].target)
  }

  /** The time of the latest such visit. */
  function LatestProgress(generation: int, vs: seq<Visit>, n: nat): Option<int>
    requires n <= |vs|
  {
    if n == 0 then None
    else if Progresses(generation, vs, n - 1) then Some(vs[n - 1].now)
    else LatestProgress(generation, vs, n - 1)
  }

  ghost predicate FirstRowSucceeds(vs: seq<Visit>, n: nat)
    requires n <= |vs|
  {
    forall i :: 0 <= i < n && vs[i].Full? && OnRecord(vs, i).None? ==> Succeeds(vs[i])
  }

  /** Along every run, the published row carries the counts on record, no stamp when nothing
      is short, and otherwise the time of the latest progress -- which a group whose first
      row was a failure may not have. */
  lemma {:induction false} StampIsLatestProgress(name: string, generation: int, vs: seq<Visit>, n: nat)
    requires n <= |vs|
    ensures var m := MemoryAt(name, generation, vs, n);
      && m.observedGeneration == ActedOn(generation, vs, n)
      && (m.row.None? <==> OnRecord(vs, n).None?)
      && (m.row.Some? ==>
           && m.row.value.name == name
           && (m.row.value.targetReplicas, m.row.value.readyReplicas) == OnRecord(vs, n).value
           && m.row.value.lastProgressTime
              == if Shortfall(m.row.value) == 0 then None else LatestProgress(generation, vs, n))
    ensures OnRecord(vs, n).None? ==> LatestProgress(generation, vs, n).None?
  {
    if 0 < n {
      StampIsLatestProgress(name, generation, vs, n - 1);
    }
  }

  /** Counts the API can store. */
  ghost predicate Counted(vs: seq<Visit>) {
    forall i :: 0 <= i < |vs| && vs[i].Full? ==>
      0 <= vs[i].target && (vs[i].outcome.Reconciled? ==> 0 <= vs[i].outcome.ready)
  }

  /** Visit f wrote the group's first row, as a failure short of a positive target, and every
      success since stood exactly there: same target, nothing ready, no new generation. */
  ghost predicate NeverMovedSince(generation: int, vs: seq<Visit>, n: nat, f: nat)
    requires n <= |vs|
  {
    && f < n && vs[f].Full? && !Succeeds(vs[f]) && 0 < vs[f].target
    && (forall j :: 0 <= j < f ==> !vs[j].Full?)
    && (forall i :: f < i < n && Succeeds(vs[i]) ==>
          vs[i].target == vs[f].target && vs[i].outcome.ready == 0 && vs[i].generation == ActedOn(generation, vs, i))
  }

  ghost predicate NeverMoved(generation: int, vs: seq<Visit>, n: nat)
    requires n <= |vs|
  {
    exists f :: 0 <= f < n && NeverMovedSince(generation, vs, n, f)
  }

  lemma {:induction false} NoRowBeforeFull(vs: seq<Visit>, n: nat)
    requires n <= |vs|
    ensures OnRecord(vs, n).None? <==> forall j :: 0 <= j < n ==> !vs[j].Full?
  {
    if 0 < n {
      NoRowBeforeFull(vs, n - 1);
    }
  }

  /** A group that never moved has the failed target on record and nothing on the clock. */
  lemma {:induction false} NeverMovedHasNoClock(generation: int, vs: seq<Visit>, n: nat, f: nat)
    requires n <= |vs| && Counted(vs) && NeverMovedSince(generation, vs, n, f)
    ensures OnRecord(vs, n) == Some((vs[f].target, 0 as int32)) && LatestProgress(generation, vs, n).None?
  {
    if f == n - 1 {
      NoRowBeforeFull(vs, n - 1);
      NoRowNoProgress(generation, vs, n - 1);
    } else {
      NeverMovedHasNoClock(generation, vs, n - 1, f);
    }
  }

  lemma {:induction false} NoRowNoProgress(generation: int, vs: seq<Visit>, n: nat)
    requires n <= |vs| && OnRecord(vs, n).None?
    ensures LatestProgress(generation, vs, n).None?
  {
    if 0 < n {
      NoRowNoProgress(generation, vs, n - 1);
    }
  }

  /** And a group short without a clock never moved. */
  lemma {:induction false} NoClockNeverMoved(generation: int, vs: seq<Visit>, n: nat) returns (f: nat)
    requires n <= |vs| && Counted(vs) && LatestProgress(generation, vs, n).None?
    requires OnRecord(vs, n).Some? && 0 < Short(OnRecord(vs, n).value)
    ensures NeverMovedSince(generation, vs, n, f)
  {
    if OnRecord(vs, n - 1).None? {
      NoRowBeforeFull(vs, n - 1);
      f := n - 1;
    } else {
      f := NoClockNeverMoved(generation, vs, n - 1);
      NeverMovedHasNoClock(generation, vs, n - 1, f);
    }
  }

  /** The stamp is nil exactly when nothing is short -- except, exactly, for a group whose first
      full pass failed and whose every success since left it where that failure did. */
  lemma NilStampMeansWhole(name: string, generation: int, vs: seq<Visit>, n: nat)
    requires n <= |vs| && Counted(vs) && MemoryAt(name, generation, vs, n).row.Some?
    ensures var row := MemoryAt(name, generation, vs, n).row.value;
      && ((row.lastProgressTime.None? <==> Shortfall(row) == 0) <==> !NeverMoved(generation, vs, n))
      && (FirstRowSucceeds(vs, n) ==> !NeverMoved(generation, vs, n))
  {
    StampIsLatestProgress(name, generation, vs, n);
    if NeverMoved(generation, vs, n) {
      var f :| 0 <= f < n && NeverMovedSince(generation, vs, n, f);
      NeverMovedHasNoClock(generation, vs, n, f);
      NoRowBeforeFull(vs, f);
    } else if 0 < Short(OnRecord(vs, n).value) && LatestProgress(generation, vs, n).None? {
      var f := NoClockNeverMoved(generation, vs, n);
    }
  }

  /** The exception is real: a group that fails its first pass and then
      stands at the same shortfall is short, unstamped, and never named stalled. */
  lemma FirstFailureLeavesNoClock(name: string, gvk: Gvk, seconds: Option<int32>, later: int)
    ensures var vs := [Full(GroupFailed, 3, gvk, 1, 0), Full(Reconciled(0), 3, gvk, 1, 10)];
      var row := MemoryAt(name, 1, vs, 2).row.value;
      Shortfall(row) == 3 && row.lastProgressTime.None? && !Overdue(row, seconds, later)
  {
    var vs := [Full(GroupFailed, 3, gvk, 1, 0), Full(Reconciled(0), 3, gvk, 1, 10)];
    assert MemoryAt(name, 1, vs, 0) == Memory(None, 1);
    assert MemoryAt(name, 1, vs, 1) == Memory(Some(GroupStatus(name, 3, 0, None, None)), 1);
    assert MemoryAt(name, 1, vs, 2).row == Some(GroupStatus(name, 3, 0, None, Some(gvk)));
  }

  /** With the deadline enabled a group is named stalled exactly when it is short and the
      deadline has passed since its latest progress. */
  lemma StalledIsDeadlineSinceProgress(name: string, generation: int, vs: seq<Visit>, n: nat, seconds: Option<int32>,
                                       now: int)
    requires n <= |vs| && MemoryAt(name, generation, vs, n).row.Some? && seconds != Some(2147483647)
    ensures var row := MemoryAt(name, generation, vs, n).row.value;
      var since := LatestProgress(generation, vs, n);
      var deadline := (match seconds case None => 600 case Some(s) => s as int) * 1_000_000_000;
      IsStalled(row, seconds, now) <==>
        && OnRecord(vs, n).Some? && 0 < Short(OnRecord(vs, n).value)
        && since.Some? && since.value + deadline <= now
  {
    StampIsLatestProgress(name, generation, vs, n);
  }

  /** Rows of one pool never read each other: the row published for a name is the one the
      next pass finds under it. */
  lemma {:induction false} PublishedRowIsFound(rows: seq<GroupStatus>, i: nat)
    requires i < |rows| && forall a, b | 0 <= a < b < |rows| :: rows[a].name != rows[b].name
    ensures FindGroupStatus(rows, rows[i].name) == Some(rows[i])
  {
    if 0 < i {
      assert rows[0].name != rows[i].name;
      PublishedRowIsFound(rows[1..], i - 1);
    }
  }

  // ---- stalls fire on time ----

  /** Passes over an unchanging status, each run when the previous one asked to be. */
  ghost predicate Requeued(rows: seq<GroupStatus>, seconds: Option<int32>, bases: seq<int>, times: seq<int>) {
    && |bases| == |times|
    && forall j :: 0 <= j < |times| - 1 ==>
         IsSoonest(times[j + 1] - times[j], bases[j], rows, seconds, times[j])
  }

  lemma {:induction false} PassesAdvance(rows: seq<GroupStatus>, seconds: Option<int32>, bases: seq<int>,
                                         times: seq<int>, n: nat)
    requires Requeued(rows, seconds, bases, times) && n < |times|
    ensures times[0] + n * SECOND <= times[n]
  {
    if 0 < n {
      PassesAdvance(rows, seconds, bases, times, n - 1);
      assert IsSoonest(times[n - 1 + 1] - times[n - 1], bases[n - 1], rows, seconds, times[n - 1]);
    }
  }

  /** The pool's deadline in nanoseconds. */
  ghost predicate DeadlineIs(seconds: Option<int32>, deadline: int) {
    seconds != Some(2147483647) && deadline == (match seconds case None => 600 case Some(s) => s as int) * 1_000_000_000
  }

  /** No pass steps over a deadline by a second or more. */
  lemma DeadlineIsNotOvershot(rows: seq<GroupStatus>, seconds: Option<int32>, deadline: int, bases: seq<int>,
                              times: seq<int>,
                              i: nat, n: nat)
    requires Requeued(rows, seconds, bases, times) && n + 1 < |times| && i < |rows| && DeadlineIs(seconds, deadline)
    requires rows[i].readyReplicas < rows[i].targetReplicas && rows[i].lastProgressTime.Some?
    requires !Overdue(rows[i], seconds, times[n])
    ensures times[n + 1] < rows[i].lastProgressTime.value + deadline + 1_000_000_000
  {
    assert IsSoonest(times[n + 1] - times[n], bases[n], rows, seconds, times[n]);
    assert Presses(rows[i], seconds, deadline, times[n]);
  }

  /** Every short, stamped group is named stalled after finitely many passes -- at most one
      per second of the deadline still to run -- and less than one second late, whatever the
      jitter and whatever the other groups' deadlines. */
  lemma {:induction false} StallIsNamedOnTime(rows: seq<GroupStatus>, seconds: Option<int32>, deadline: int,
                                              bases: seq<int>,
                                              times: seq<int>, i: nat, n: nat)
      returns (at: nat)
    requires Requeued(rows, seconds, bases, times) && n < |times| && i < |rows| && DeadlineIs(seconds, deadline)
    requires rows[i].readyReplicas < rows[i].targetReplicas && rows[i].lastProgressTime.Some?
    requires !Overdue(rows[i], seconds, times[0])
    requires rows[i].lastProgressTime.value + deadline <= times[0] + n * 1_000_000_000
    ensures 0 < at <= n
    ensures rows[i].name in StalledNames(rows, seconds, times[at])
    ensures forall j :: 0 <= j < at ==> !Overdue(rows[i], seconds, times[j])
    ensures times[at] < rows[i].lastProgressTime.value + deadline + 1_000_000_000
  {
    PassesAdvance(rows, seconds, bases, times, n);
    at := 0;
    while !Overdue(rows[i], seconds, times[at])
      invariant at <= n
      invariant forall j :: 0 <= j < at ==> !Overdue(rows[i], seconds, times[j])
      invariant 0 < at ==> times[at] < rows[i].lastProgressTime.value + deadline + 1_000_000_000
      decreases n - at
    {
      DeadlineIsNotOvershot(rows, seconds, deadline, bases, times, i, at);
      at := at + 1;
    }
    StalledIsOverdue(rows[i], seconds, times[at]);
  }
}
