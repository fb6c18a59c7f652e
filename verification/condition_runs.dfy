/** What the conditions keep over every run whose status writes land, with other actors
    editing their own conditions between passes. */

module ConditionRuns {
  import opened Options
  import opened Conditions

  predicate Own(t: ConditionType) {
    !t.Foreign?
  }

  /** Between passes other actors may add, change, remove or reorder their own entries. */
  datatype Event = Reconciled(pass: Pass) | Edited(conditions: seq<Condition>)

  ghost predicate OwnKept(before: seq<Condition>, after: seq<Condition>) {
    forall t :: Own(t) ==> Find(after, t) == Find(before, t)
  }

  function Apply(s: Status, e: Event): Status {
    match e
    case Reconciled(pass) => StatusAfter(s, pass)
    case Edited(conditions) => s.(conditions := conditions)
  }

  function StatusAt(s: Status, es: seq<Event>, n: nat): Status
    requires n <= |es|
  {
    if n == 0 then s else Apply(StatusAt(s, es, n - 1), es[n - 1])
  }

  function EventsAt(s: Status, es: seq<Event>, n: nat): seq<Announcement>
    requires n <= |es|
  {
    if n == 0 then []
    else
      EventsAt(s, es, n - 1)
      + if es[n - 1].Reconciled? then Announced(StatusAt(s, es, n - 1), es[n - 1].pass) else []
  }

  ghost predicate Respectful(s: Status, es: seq<Event>) {
    forall j :: 0 <= j < |es| && es[j].Edited? ==> OwnKept(StatusAt(s, es, j).conditions, es[j].conditions)
  }

  // ---- one pass ----

  /** A pass rewrites its own entries and leaves every foreign one exactly as it found it. */
  lemma PassWrites(s: Status, p: Pass, t: ConditionType)
    ensures var s' := StatusAfter(s, p);
      && (!Own(t) ==> Find(s'.conditions, t) == Find(s.conditions, t))
      && (p.exit.InvalidTemplate? || p.exit.Completed? ==>
           s'.observedGeneration == p.generation
           && (Own(t) ==> Find(s'.conditions, t).Some? && Find(s'.conditions, t).value.generation == p.generation))
      && (p.exit.PausedExit? || p.exit.WatchFailed? ==>
           s'.observedGeneration == s.observedGeneration
           && if t == Progressing || t == Ready
              then Find(s'.conditions, t) == Some(Condition(t, False,
                     if p.exit.PausedExit? then Paused else WatchSetupFailed,
                     if p.exit.PausedExit? then "Reconciliation paused"
                     else "No watch could be established for the workload type",
                     s.observedGeneration))
              else Find(s'.conditions, t) == Find(s.conditions, t))
  {
    match p.exit
    case PausedExit => HaltFinds(s, Paused, PAUSED_MESSAGE, t);
    case WatchFailed => HaltFinds(s, WatchSetupFailed, WATCH_MESSAGE, t);
    case InvalidTemplate(texts) => PublishFinds(s, p.generation, InvalidInputs(p.desired, texts), t);
    case Completed(inputs) => PublishFinds(s, p.generation, inputs, t);
    case WatchPending =>
    case Unobserved =>
  }

  lemma HaltFinds(s: Status, reason: Reason, message: string, t: ConditionType)
    ensures Find(Halt(s, reason, message).conditions, t)
         == if t == Progressing || t == Ready then Some(Condition(t, False, reason, message, s.observedGeneration))
            else Find(s.conditions, t)
  {
    var c := Condition(Progressing, False, reason, message, s.observedGeneration);
    UpsertFinds(s.conditions, c, t);
    UpsertFinds(Upsert(s.conditions, c), Condition(Ready, False, reason, message, s.observedGeneration), t);
  }

  lemma ConditionTypes(gen: int, inp: Inputs)
    ensures AvailableCondition(gen, inp).ctype == Available && ProgressingCondition(gen, inp).ctype == Progressing
    ensures DegradedCondition(gen, inp).ctype == TargetDegraded && GroupsReadyCondition(gen, inp).ctype == GroupsReady
    ensures SummaryReady(gen, inp).ctype == Ready
  {
  }

  lemma PublishFinds(s: Status, gen: int, inp: Inputs, t: ConditionType)
    ensures Find(Publish(s, gen, inp).conditions, t)
         == match t
            case Available => Some(AvailableCondition(gen, inp))
            case Progressing => Some(ProgressingCondition(gen, inp))
            case TargetDegraded => Some(DegradedCondition(gen, inp))
            case GroupsReady => Some(GroupsReadyCondition(gen, inp))
            case Ready => Some(SummaryReady(gen, inp))
            case Foreign(_) => Find(s.conditions, t)
  {
    hide AvailableCondition, ProgressingCondition, DegradedCondition, GroupsReadyCondition, SummaryReady, Upsert, Find;
    ConditionTypes(gen, inp);
    var c1 := Upsert(s.conditions, AvailableCondition(gen, inp));
    var c2 := Upsert(c1, ProgressingCondition(gen, inp));
    var c3 := Upsert(c2, DegradedCondition(gen, inp));
    var c4 := Upsert(c3, GroupsReadyCondition(gen, inp));
    UpsertFinds(s.conditions, AvailableCondition(gen, inp), t);
    UpsertFinds(c1, ProgressingCondition(gen, inp), t);
    UpsertFinds(c2, DegradedCondition(gen, inp), t);
    UpsertFinds(c3, GroupsReadyCondition(gen, inp), t);
    UpsertFinds(c4, SummaryReady(gen, inp), t);
  }

  // ---- what a pass says ----

  ghost predicate Says(s: Status, t: ConditionType, status: Truth, reason: Reason) {
    var c := Find(s.conditions, t);
    c.Some? && c.value.status == status && c.value.reason == reason
  }

  /** When a completed pass says what about replicas, progress, targets and groups. */
  lemma DetailsExactly(s: Status, p: Pass, inp: Inputs)
    requires p.exit == Completed(inp)
    ensures var s' := StatusAfter(s, p);
      && (Says(s', Available, True, ScaledToZero) <==> inp.desired == 0)
      && (Says(s', Available, True, MinimumReplicasAvailable) <==> inp.desired != 0 && 0 < inp.ready)
      && (Says(s', Available, False, NoReplicasAvailable) <==> inp.desired != 0 && inp.ready <= 0)
    ensures var s' := StatusAfter(s, p);
      && (Says(s', Progressing, False, CeilingsBelowDesired) <==> 0 < inp.unplaced)
      && (Says(s', Progressing, False, ProgressDeadlineExceeded) <==> inp.unplaced <= 0 && inp.stalledGroups != [])
      && (Says(s', Progressing, True, ReplicasUpdating) <==>
           inp.unplaced <= 0 && inp.stalledGroups == [] && inp.ready < inp.desired)
      && (Says(s', Progressing, False, AllReplicasReady) <==>
           inp.unplaced <= 0 && inp.stalledGroups == [] && inp.desired <= inp.ready)
    ensures var s' := StatusAfter(s, p);
      && (Says(s', TargetDegraded, True, CeilingsBelowDesired) <==> 0 < inp.unplaced)
      && (Says(s', TargetDegraded, True, AbsoluteConstraintOverride) <==> inp.unplaced <= 0 && inp.targetDegraded)
      && (Says(s', TargetDegraded, False, TargetsSatisfied) <==> inp.unplaced <= 0 && !inp.targetDegraded)
    ensures !inp.poolInvalid ==> var s' := StatusAfter(s, p);
      && (Says(s', GroupsReady, True, AllGroupsReconciled) <==> inp.failedGroups == [])
      && (Says(s', GroupsReady, False, WorkloadNotOwned) <==> inp.failedGroups != [] && inp.notOwnedGroups != [])
      && (Says(s', GroupsReady, False, GroupSpecInvalid) <==>
           inp.failedGroups != [] && inp.notOwnedGroups == [] && |inp.terminalGroups| == |inp.failedGroups|)
      && (Says(s', GroupsReady, False, GroupReconcileFailed) <==>
           inp.failedGroups != [] && inp.notOwnedGroups == [] && |inp.terminalGroups| != |inp.failedGroups|)
  {
    hide Find, StatusAfter;
    CompletedPublishes(s, p, inp);
    PublishFinds(s, p.generation, inp, Available);
    PublishFinds(s, p.generation, inp, Progressing);
    PublishFinds(s, p.generation, inp, TargetDegraded);
    PublishFinds(s, p.generation, inp, GroupsReady);
  }

  /** And when the summary is True, or names what the most serious obstacle is. */
  lemma SummaryExactly(s: Status, p: Pass, inp: Inputs)
    requires p.exit == Completed(inp)
    ensures var s' := StatusAfter(s, p);
      var failed, terminal := inp.failedGroups != [], inp.terminalGroups != [];
      var clear := inp.desired != 0 && !failed && !terminal;
      && (Says(s', Ready, True, ScaledToZero) <==> inp.desired == 0)
      && (Says(s', Ready, False, GroupSpecInvalid) <==> inp.desired != 0 && terminal)
      && (Says(s', Ready, False, GroupReconcileFailed) <==> inp.desired != 0 && !terminal && failed)
      && (Says(s', Ready, False, CeilingsBelowDesired) <==> clear && 0 < inp.unplaced)
      && (Says(s', Ready, False, NoReplicasAvailable) <==> clear && inp.unplaced <= 0 && inp.ready == 0)
      && (Says(s', Ready, False, ProgressDeadlineExceeded) <==>
           clear && inp.unplaced <= 0 && inp.ready != 0 && inp.stalledGroups != [])
      && (Says(s', Ready, False, ReplicasUpdating) <==>
           clear && inp.unplaced <= 0 && inp.ready != 0 && inp.stalledGroups == [] && inp.ready < inp.desired)
      && (Says(s', Ready, True, PoolReady) <==>
           clear && inp.unplaced <= 0 && inp.ready != 0 && inp.stalledGroups == [] && inp.desired <= inp.ready)
  {
    hide Find, StatusAfter;
    CompletedPublishes(s, p, inp);
    PublishFinds(s, p.generation, inp, Ready);
  }

  /** Each condition carries its own text. */
  lemma TextsAreTheirOwn(s: Status, p: Pass, inp: Inputs)
    requires p.exit == Completed(inp)
    ensures var conds := StatusAfter(s, p).conditions;
      && Find(conds, Available).Some? && Find(conds, Available).value.message == inp.texts.available
      && Find(conds, Progressing).Some? && Find(conds, Progressing).value.message == inp.texts.progressing
      && Find(conds, TargetDegraded).Some? && Find(conds, TargetDegraded).value.message == inp.texts.degraded
      && Find(conds, GroupsReady).Some? && Find(conds, GroupsReady).value.message == inp.texts.groupsReady
      && Find(conds, Ready).Some? && Find(conds, Ready).value.message == inp.texts.ready
  {
    hide Find, StatusAfter;
    CompletedPublishes(s, p, inp);
    PublishFinds(s, p.generation, inp, Available);
    PublishFinds(s, p.generation, inp, Progressing);
    PublishFinds(s, p.generation, inp, TargetDegraded);
    PublishFinds(s, p.generation, inp, GroupsReady);
    PublishFinds(s, p.generation, inp, Ready);
  }

  lemma CompletedPublishes(s: Status, p: Pass, inp: Inputs)
    requires p.exit == Completed(inp)
    ensures StatusAfter(s, p) == Publish(s, p.generation, inp)
  {
  }

  /** A pass that cannot read its template knows no counts: it says that groups are not ready
      and, without having looked, that targets are satisfied; scaled to zero it is Ready. */
  lemma InvalidTemplateSays(s: Status, p: Pass)
    requires p.exit.InvalidTemplate? && 0 <= p.desired
    ensures var s' := StatusAfter(s, p);
      && Says(s', GroupsReady, False, GroupSpecInvalid)
      && Says(s', TargetDegraded, False, TargetsSatisfied)
      && if p.desired == 0 then
           && Says(s', Available, True, ScaledToZero) && Says(s', Progressing, False, AllReplicasReady)
           && Says(s', Ready, True, ScaledToZero)
         else
           && Says(s', Available, False, NoReplicasAvailable) && Says(s', Progressing, True, ReplicasUpdating)
           && Says(s', Ready, False, NoReplicasAvailable)
  {
    hide Find;
    var inp := InvalidInputs(p.desired, p.exit.texts);
    PublishFinds(s, p.generation, inp, Available);
    PublishFinds(s, p.generation, inp, Progressing);
    PublishFinds(s, p.generation, inp, TargetDegraded);
    PublishFinds(s, p.generation, inp, GroupsReady);
    PublishFinds(s, p.generation, inp, Ready);
  }

  // ---- generations ----

  ghost predicate CarriesGeneration(s: Status) {
    forall t :: Own(t) && Find(s.conditions, t).Some? ==> Find(s.conditions, t).value.generation == s.observedGeneration
  }

  /** The generation of the latest pass that was not halted. */
  function LastActed(generation: int, es: seq<Event>, n: nat): int
    requires n <= |es|
  {
    if n == 0 then generation
    else if es[n - 1].Reconciled? && (es[n - 1].pass.exit.InvalidTemplate? || es[n - 1].pass.exit.Completed?)
    then es[n - 1].pass.generation
    else LastActed(generation, es, n - 1)
  }

  lemma PassCarriesGeneration(s: Status, p: Pass)
    requires CarriesGeneration(s)
    ensures CarriesGeneration(StatusAfter(s, p))
    ensures StatusAfter(s, p).observedGeneration
         == if p.exit.InvalidTemplate? || p.exit.Completed? then p.generation else s.observedGeneration
  {
    hide StatusAfter, Find;
    PassWrites(s, p, Ready);
    forall t | Own(t) && Find(StatusAfter(s, p).conditions, t).Some?
      ensures Find(StatusAfter(s, p).conditions, t).value.generation == StatusAfter(s, p).observedGeneration
    {
      PassWrites(s, p, t);
      SilentExit(s, p);
    }
    SilentExit(s, p);
  }

  lemma SilentExit(s: Status, p: Pass)
    ensures p.exit.WatchPending? || p.exit.Unobserved? ==> StatusAfter(s, p) == s
  {
  }

  /** On every run: each own condition present carries status.observedGeneration, and that
      field is the generation of the latest pass that was not halted. */
  lemma {:induction false} GenerationsAgree(s: Status, es: seq<Event>, n: nat)
    requires n <= |es| && Respectful(s, es) && CarriesGeneration(s)
    ensures CarriesGeneration(StatusAt(s, es, n))
    ensures StatusAt(s, es, n).observedGeneration == LastActed(s.observedGeneration, es, n)
  {
    hide StatusAfter, Find;
    if 0 < n {
      GenerationsAgree(s, es, n - 1);
      if es[n - 1].Reconciled? {
        PassCarriesGeneration(StatusAt(s, es, n - 1), es[n - 1].pass);
      } else {
        assert OwnKept(StatusAt(s, es, n - 1).conditions, es[n - 1].conditions);
      }
    }
  }

  // ---- pause and resume ----

  /** The record of a pause is either absent or exactly what a paused pass writes. */
  ghost predicate PauseIsOurs(s: Status) {
    ReadyReasonIs(s.conditions, Paused) ==>
      Find(s.conditions, Ready).value.status == False && Find(s.conditions, Ready).value.message == PAUSED_MESSAGE
  }

  /** Paused and Resumed take turns; the trace ends in Paused exactly while the status does. */
  ghost predicate TakesTurns(trace: seq<Announcement>, pausedAtStart: bool, pausedNow: bool) {
    && (forall i :: 0 <= i < |trace| ==> (trace[i] == PausedEvent <==> (i % 2 == 0) != pausedAtStart))
    && (pausedNow <==> (|trace| % 2 == 0) == pausedAtStart)
  }

  lemma PassTakesTurn(s: Status, p: Pass)
    requires PauseIsOurs(s)
    ensures PauseIsOurs(StatusAfter(s, p))
    ensures var was, now := ReadyReasonIs(s.conditions, Paused), ReadyReasonIs(StatusAfter(s, p).conditions, Paused);
      Announced(s, p) == if was == now then [] else if now then [PausedEvent] else [ResumedEvent]
  {
    PassWrites(s, p, Ready);
    match p.exit
    case InvalidTemplate(texts) => PublishFinds(s, p.generation, InvalidInputs(p.desired, texts), Ready);
    case Completed(inputs) => PublishFinds(s, p.generation, inputs, Ready);
    case _ =>
  }

  lemma TurnExtends(trace: seq<Announcement>, more: seq<Announcement>, start: bool, was: bool, now: bool)
    requires TakesTurns(trace, start, was)
    requires more == if was == now then [] else if now then [PausedEvent] else [ResumedEvent]
    ensures TakesTurns(trace + more, start, now)
  {
  }

  /** Paused and Resumed events strictly alternate across every mix of paused, full,
      watch-failed, sync-pending, unreadable and invalid-template passes. */
  lemma {:induction false} PauseAndResumeAlternate(s: Status, es: seq<Event>, n: nat)
    requires n <= |es| && Respectful(s, es) && PauseIsOurs(s)
    ensures PauseIsOurs(StatusAt(s, es, n))
    ensures TakesTurns(EventsAt(s, es, n), ReadyReasonIs(s.conditions, Paused),
                       ReadyReasonIs(StatusAt(s, es, n).conditions, Paused))
  {
    hide StatusAfter, Announced;
    if 0 < n {
      PauseAndResumeAlternate(s, es, n - 1);
      var before := StatusAt(s, es, n - 1);
      if es[n - 1].Reconciled? {
        PassTakesTurn(before, es[n - 1].pass);
        TurnExtends(EventsAt(s, es, n - 1), Announced(before, es[n - 1].pass), ReadyReasonIs(s.conditions, Paused),
          ReadyReasonIs(before.conditions, Paused), ReadyReasonIs(StatusAt(s, es, n).conditions, Paused));
      } else {
        assert OwnKept(before.conditions, es[n - 1].conditions);
        assert Own(Ready);
      }
    }
  }
}
