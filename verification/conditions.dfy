/** The status conditions and the exits of Reconcile that write them
    (internal/controller/conditions.go; Reconcile, setUpWatch, announceResume and
    conditionTupleChanged in internal/controller/podpool_controller.go). */

module Conditions {
  import opened Options
  import opened Scaling

  datatype ConditionType = Available | Progressing | TargetDegraded | GroupsReady | Ready | Foreign(name: string)

  datatype Truth = True | False | Unknown

  datatype Reason =
    | ScaledToZero | MinimumReplicasAvailable | NoReplicasAvailable | ReplicasUpdating | AllReplicasReady
    | AbsoluteConstraintOverride | CeilingsBelowDesired | TargetsSatisfied | AllGroupsReconciled
    | GroupReconcileFailed | GroupSpecInvalid | WorkloadNotOwned | ProgressDeadlineExceeded | PoolReady
    | Paused | WatchSetupFailed
    | ForeignReason(text: string)

  datatype Condition = Condition(ctype: ConditionType, status: Truth, reason: Reason, message: string, generation: int)

  const PAUSED_MESSAGE := "Reconciliation paused"
  const WATCH_MESSAGE := "No watch could be established for the workload type"

  /** The rendered messages of a full write; how they are worded is not part of this model. */
  datatype Texts = Texts(available: string, progressing: string, degraded: string, groupsReady: string, ready: string)

  datatype Inputs = Inputs(
    targetDegraded: bool,
    unplaced: int32,
    ready: int32,
    desired: int32,
    failedGroups: seq<string>,
    terminalGroups: seq<string>,
    stalledGroups: seq<string>,
    notOwnedGroups: seq<string>,
    poolInvalid: bool,
    texts: Texts)

  /** The part of PodPool.status these writers own. */
  datatype Status = Status(conditions: seq<Condition>, observedGeneration: int)

  function Find(conds: seq<Condition>, t: ConditionType): Option<Condition> {
    if conds == [] then None
    else if conds[0].ctype == t then Some(conds[0])
    else Find(conds[1..], t)
  }

  /** meta.SetStatusCondition: replace in place, or append. */
  function Upsert(conds: seq<Condition>, c: Condition): seq<Condition> {
    if conds == [] then [c]
    else if conds[0].ctype == c.ctype then [c] + conds[1..]
    else [conds[0]] + Upsert(conds[1..], c)
  }

  lemma {:induction false} UpsertFinds(conds: seq<Condition>, c: Condition, t: ConditionType)
    ensures Find(Upsert(conds, c), t) == if t == c.ctype then Some(c) else Find(conds, t)
  {
    if conds != [] && conds[0].ctype != c.ctype {
      UpsertFinds(conds[1..], c, t);
    }
  }

  // ---- what each condition says ----

  function AvailableCondition(gen: int, inp: Inputs): Condition {
    if inp.desired == 0 then Condition(Available, True, ScaledToZero, inp.texts.available, gen)
    else if 0 < inp.ready then Condition(Available, True, MinimumReplicasAvailable, inp.texts.available, gen)
    else Condition(Available, False, NoReplicasAvailable, inp.texts.available, gen)
  }

  function ProgressingCondition(gen: int, inp: Inputs): Condition {
    if 0 < inp.unplaced then Condition(Progressing, False, CeilingsBelowDesired, inp.texts.progressing, gen)
    else if 0 < |inp.stalledGroups| then
      Condition(Progressing, False, ProgressDeadlineExceeded, inp.texts.progressing, gen)
    else if inp.ready < inp.desired then Condition(Progressing, True, ReplicasUpdating, inp.texts.progressing, gen)
    else Condition(Progressing, False, AllReplicasReady, inp.texts.progressing, gen)
  }

  function DegradedCondition(gen: int, inp: Inputs): Condition {
    if 0 < inp.unplaced then Condition(TargetDegraded, True, CeilingsBelowDesired, inp.texts.degraded, gen)
    else if inp.targetDegraded then Condition(TargetDegraded, True, AbsoluteConstraintOverride, inp.texts.degraded, gen)
    else Condition(TargetDegraded, False, TargetsSatisfied, inp.texts.degraded, gen)
  }

  function GroupsReadyCondition(gen: int, inp: Inputs): Condition {
    if inp.poolInvalid then Condition(GroupsReady, False, GroupSpecInvalid, inp.texts.groupsReady, gen)
    else if |inp.failedGroups| == 0 then Condition(GroupsReady, True, AllGroupsReconciled, inp.texts.groupsReady, gen)
    else if 0 < |inp.notOwnedGroups| then Condition(GroupsReady, False, WorkloadNotOwned, inp.texts.groupsReady, gen)
    else if |inp.terminalGroups| == |inp.failedGroups| then
      Condition(GroupsReady, False, GroupSpecInvalid, inp.texts.groupsReady, gen)
    else Condition(GroupsReady, False, GroupReconcileFailed, inp.texts.groupsReady, gen)
  }

  /** The precedence table behind the one-line summary. */
  function SummaryReady(gen: int, inp: Inputs): Condition {
    var text := inp.texts.ready;
    if inp.desired == 0 then Condition(Ready, True, ScaledToZero, text, gen)
    else if 0 < |inp.terminalGroups| then Condition(Ready, False, GroupSpecInvalid, text, gen)
    else if 0 < |inp.failedGroups| then Condition(Ready, False, GroupReconcileFailed, text, gen)
    else if 0 < inp.unplaced then Condition(Ready, False, CeilingsBelowDesired, text, gen)
    else if inp.ready == 0 then Condition(Ready, False, NoReplicasAvailable, text, gen)
    else if 0 < |inp.stalledGroups| then Condition(Ready, False, ProgressDeadlineExceeded, text, gen)
    else if inp.ready < inp.desired then Condition(Ready, False, ReplicasUpdating, text, gen)
    else Condition(Ready, True, PoolReady, text, gen)
  }

  /** What Reconcile passes: counts are not negative, terminal groups are failed groups, and
      an invalid template comes with nothing observed. */
  predicate Reported(inp: Inputs) {
    && 0 <= inp.ready
    && (forall g :: g in inp.terminalGroups ==> g in inp.failedGroups)
    && (inp.poolInvalid ==> inp.ready == 0)
  }

  /** Ready is true exactly for a pool scaled to zero, or one whose detail conditions all
      agree that the spec has been met. */
  lemma ReadySummarisesTheDetails(gen: int, inp: Inputs)
    requires Reported(inp)
    ensures SummaryReady(gen, inp).status == True <==>
      || inp.desired == 0
      || (&& AvailableCondition(gen, inp).status == True
          && GroupsReadyCondition(gen, inp).status == True
          && ProgressingCondition(gen, inp).reason == AllReplicasReady)
  {
    if inp.terminalGroups != [] {
      assert inp.terminalGroups[0] in inp.failedGroups;
    }
  }

  /** Unplaced replicas are reported by two detail conditions together, and by the summary
      unless something more serious is. */
  lemma UnplacedIsReportedTogether(gen: int, inp: Inputs)
    requires Reported(inp)
    ensures 0 < inp.unplaced <==> ProgressingCondition(gen, inp).reason == CeilingsBelowDesired
    ensures 0 < inp.unplaced <==> DegradedCondition(gen, inp).reason == CeilingsBelowDesired
    ensures SummaryReady(gen, inp).reason == CeilingsBelowDesired <==>
      0 < inp.unplaced && inp.desired != 0 && inp.failedGroups == []
  {
    if inp.terminalGroups != [] {
      assert inp.terminalGroups[0] in inp.failedGroups;
    }
  }

  // ---- the writers ----

  function Halt(s: Status, reason: Reason, message: string): Status {
    var one := Upsert(s.conditions, Condition(Progressing, False, reason, message, s.observedGeneration));
    s.(conditions := Upsert(one, Condition(Ready, False, reason, message, s.observedGeneration)))
  }

  function Publish(s: Status, gen: int, inp: Inputs): Status {
    var c1 := Upsert(s.conditions, AvailableCondition(gen, inp));
    var c2 := Upsert(c1, ProgressingCondition(gen, inp));
    var c3 := Upsert(c2, DegradedCondition(gen, inp));
    var c4 := Upsert(c3, GroupsReadyCondition(gen, inp));
    Status(Upsert(c4, SummaryReady(gen, inp)), gen)
  }

  /** How far a pass got. */
  datatype Exit =
    | PausedExit
    | InvalidTemplate(texts: Texts)
    | WatchPending                   // the informer is still filling: nothing is written
    | WatchFailed
    | Unobserved                     // a child could not be read: nothing is written
    | Completed(inputs: Inputs)

  datatype Pass = Pass(generation: int, desired: int32, exit: Exit)

  datatype Announcement = PausedEvent | ResumedEvent

  /** What the pass publishes when its template cannot be read. */
  function InvalidInputs(desired: int32, texts: Texts): Inputs {
    Inputs(false, 0, 0, desired, [], [], [], [], true, texts)
  }

  function StatusAfter(s: Status, p: Pass): Status {
    match p.exit
    case PausedExit => Halt(s, Paused, PAUSED_MESSAGE)
    case InvalidTemplate(texts) => Publish(s, p.generation, InvalidInputs(p.desired, texts))
    case WatchPending => s
    case WatchFailed => Halt(s, WatchSetupFailed, WATCH_MESSAGE)
    case Unobserved => s
    case Completed(inputs) => Publish(s, p.generation, inputs)
  }

  predicate TupleChanged(before: seq<Condition>, after: seq<Condition>, t: ConditionType) {
    var p, c := Find(before, t), Find(after, t);
    if p.None? || c.None? then p != c
    else p.value.status != c.value.status || p.value.reason != c.value.reason || p.value.message != c.value.message
  }

  predicate ReadyReasonIs(conds: seq<Condition>, reason: Reason) {
    var c := Find(conds, Ready);
    c.Some? && c.value.reason == reason
  }

  function Announced(s: Status, p: Pass): seq<Announcement> {
    var changed := TupleChanged(s.conditions, StatusAfter(s, p).conditions, Ready);
    var wasPaused := ReadyReasonIs(s.conditions, Paused);
    if p.exit.PausedExit? then (if changed then [PausedEvent] else [])
    else if p.exit.WatchPending? || p.exit.Unobserved? then []
    else if wasPaused && changed then [ResumedEvent]
    else []
  }

  lemma Regroup(before: seq<Condition>, c: Condition, after: seq<Condition>)
    ensures before + ([c] + after) == (before + [c]) + after
  {
  }

  /** The search steps past an entry of another type. */
  lemma UpsertSkips(conds: seq<Condition>, c: Condition, i: nat)
    requires i < |conds| && conds[i].ctype != c.ctype
    ensures conds[..i] + Upsert(conds[i..], c) == conds[..i + 1] + Upsert(conds[i + 1..], c)
  {
    hide Upsert;
    assert conds[i..] == [conds[i]] + conds[i + 1..];
    UpsertHead(conds[i], conds[i + 1..], c);
    Regroup(conds[..i], conds[i], Upsert(conds[i + 1..], c));
    assert conds[..i + 1] == conds[..i] + [conds[i]];
  }

  /** Where the search ends the entry is replaced, or appended. */
  lemma UpsertEnds(conds: seq<Condition>, c: Condition, i: nat)
    requires i <= |conds| && (i < |conds| ==> conds[i].ctype == c.ctype)
    ensures conds[..i] + Upsert(conds[i..], c) == if i < |conds| then conds[i := c] else conds + [c]
  {
    if i < |conds| {
      assert conds[i..] == [conds[i]] + conds[i + 1..];
      UpsertHead(conds[i], conds[i + 1..], c);
    }
  }

  lemma UpsertHead(head: Condition, tail: seq<Condition>, c: Condition)
    ensures Upsert([head] + tail, c) == if head.ctype == c.ctype then [c] + tail else [head] + Upsert(tail, c)
  {
    assert ([head] + tail)[1..] == tail;
  }

  /** pool.Status during one pass, mutated in place, and the events recorded beside it. */
  class PoolStatus {
    var conditions: seq<Condition>
    var observedGeneration: int
    var recorded: seq<Announcement>

    constructor (s: Status)
      ensures Value() == s && recorded == []
    {
      conditions, observedGeneration, recorded := s.conditions, s.observedGeneration, [];
    }

    function Value(): Status
      reads this
    {
      Status(conditions, observedGeneration)
    }

    method SetStatusCondition(c: Condition)
      modifies this`conditions
      ensures conditions == Upsert(old(conditions), c)
    {
      hide Upsert;
      var i := 0;
      while i < |conditions| && conditions[i].ctype != c.ctype
        invariant 0 <= i <= |conditions| && conditions == old(conditions)
        invariant conditions[..i] + Upsert(conditions[i..], c) == Upsert(old(conditions), c)
      {
        UpsertSkips(conditions, c, i);
        i := i + 1;
      }
      UpsertEnds(conditions, c, i);
      if i < |conditions| {
        conditions := conditions[i := c];
      } else {
        conditions := conditions + [c];
      }
    }

    method HaltedConditions(reason: Reason, message: string)
      modifies this`conditions
      ensures Value() == Halt(old(Value()), reason, message)
    {
      SetStatusCondition(Condition(Progressing, False, reason, message, observedGeneration));
      SetStatusCondition(Condition(Ready, False, reason, message, observedGeneration));
    }

    method SetConditions(generation: int, inp: Inputs)
      modifies this`conditions, this`observedGeneration
      ensures Value() == Publish(old(Value()), generation, inp)
    {
      observedGeneration := generation;
      SetStatusCondition(AvailableCondition(generation, inp));
      SetStatusCondition(ProgressingCondition(generation, inp));
      SetStatusCondition(DegradedCondition(generation, inp));
      SetStatusCondition(GroupsReadyCondition(generation, inp));
      SetStatusCondition(SummaryReady(generation, inp));
    }

    method AnnounceResume(before: Status, wasPaused: bool)
      modifies this`recorded
      ensures recorded == old(recorded)
        + if wasPaused && TupleChanged(before.conditions, conditions, Ready) then [ResumedEvent] else []
    {
      if wasPaused && TupleChanged(before.conditions, conditions, Ready) {
        recorded := recorded + [ResumedEvent];
      }
    }

    /** The exits of Reconcile, in the order it takes them. */
    method Reconcile(p: Pass)
      modifies this
      ensures Value() == StatusAfter(old(Value()), p)
      ensures recorded == old(recorded) + Announced(old(Value()), p)
    {
      var before := Value();
      if p.exit.PausedExit? {
        HaltedConditions(Paused, PAUSED_MESSAGE);
        if TupleChanged(before.conditions, conditions, Ready) {
          recorded := recorded + [PausedEvent];
        }
        return;
      }
      var wasPaused := ReadyReasonIs(before.conditions, Paused);
      if p.exit.InvalidTemplate? {
        SetConditions(p.generation, InvalidInputs(p.desired, p.exit.texts));
        AnnounceResume(before, wasPaused);
        return;
      }
      if p.exit.WatchPending? {
        return;
      }
      if p.exit.WatchFailed? {
        HaltedConditions(WatchSetupFailed, WATCH_MESSAGE);
        AnnounceResume(before, wasPaused);
        return;
      }
      if p.exit.Unobserved? {
        return;
      }
      SetConditions(p.generation, p.exit.inputs);
      AnnounceResume(before, wasPaused);
    }
  }
}
