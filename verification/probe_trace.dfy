/** What any sequence of decisions about one probe key obeys. */

module ProbeTrace {
  import opened Options
  import opened Scaling
  import opened Probes

  datatype Call = Call(heartbeat: int, target: int32, obs: Observation, now: int)

  datatype Kind = Issued | Accepted | Refused | Abandoned

  datatype Event = Event(kind: Kind, at: int, heartbeat: int)

  ghost predicate Callable(calls: seq<Call>) {
    && (forall i :: 0 <= i < |calls| ==> calls[i].target < MAX_INT32 && 0 < calls[i].heartbeat)
    && (forall i, j :: 0 <= i <= j < |calls| ==> calls[i].now <= calls[j].now)
  }

  function Next(st: ProbeState, c: Call): (ProbeState, Decision)
    requires c.target < MAX_INT32
  {
    Decide(st, c.heartbeat, c.target, c.obs, c.now)
  }

  /** What a call makes of the probe it finds outstanding, read off the observation. */
  function Verdict(st: ProbeState, c: Call): Option<Kind> {
    if !st.outstanding then None
    else if c.obs.found && c.obs.asked <= c.obs.ready then Some(Accepted)
    else if c.obs.found && 0 < c.obs.unschedulable then Some(Refused)
    else if VERDICT_TIMEOUT <= c.now - st.startedAt then Some(Abandoned)
    else None
  }

  function Events(st: ProbeState, c: Call): seq<Event>
    requires c.target < MAX_INT32
  {
    (if Verdict(st, c).Some? then [Event(Verdict(st, c).value, c.now, c.heartbeat)] else [])
    + (if Next(st, c).1.issued then [Event(Issued, c.now, c.heartbeat)] else [])
  }

  function StateAfter(calls: seq<Call>, n: nat): ProbeState
    requires Callable(calls) && n <= |calls|
  {
    if n == 0 then FRESH else Next(StateAfter(calls, n - 1), calls[n - 1]).0
  }

  function Trace(calls: seq<Call>, n: nat): seq<Event>
    requires Callable(calls) && n <= |calls|
  {
    if n == 0 then [] else Trace(calls, n - 1) + Events(StateAfter(calls, n - 1), calls[n - 1])
  }

  /** Questions and answers take turns, starting with a question. */
  ghost predicate Alternates(trace: seq<Event>) {
    forall i :: 0 <= i < |trace| ==> (trace[i].kind.Issued? <==> i % 2 == 0)
  }

  ghost predicate Failure(e: Event) {
    e.kind.Refused? || e.kind.Abandoned?
  }

  /** No question is put sooner than its heartbeat after any earlier failure. */
  ghost predicate WaitsOutFailures(trace: seq<Event>) {
    forall i, j :: 0 <= i < j < |trace| && Failure(trace[i]) && trace[j].kind.Issued?
      ==> trace[i].at + trace[j].heartbeat <= trace[j].at
  }

  /** The stored record summarises the trace. */
  ghost predicate Summarises(st: ProbeState, trace: seq<Event>, now: int) {
    && (st.outstanding <==> |trace| % 2 == 1)
    && (st.outstanding ==> st.startedAt == trace[|trace| - 1].at)
    && (forall i :: 0 <= i < |trace| ==> trace[i].at <= now)
    && (forall i :: 0 <= i < |trace| && Failure(trace[i]) ==> st.lastFailed.Some? && trace[i].at <= st.lastFailed.value)
  }

  /** What one call leaves behind, in terms of the verdict it read. */
  lemma StepFacts(st: ProbeState, c: Call)
    requires c.target < MAX_INT32
    ensures var (st', d) := Next(st, c);
      var verdict := Verdict(st, c);
      && (st'.outstanding <==> d.issued || (st.outstanding && verdict.None?))
      && st'.startedAt == (if d.issued then c.now else st.startedAt)
      && st'.lastFailed
         == (if verdict == Some(Refused) || verdict == Some(Abandoned) then Some(c.now) else st.lastFailed)
      && (d.issued ==> HeartbeatElapsed(st, c.heartbeat, c.now) && (st.outstanding ==> verdict == Some(Accepted)))
      && (verdict.Some? ==> st.outstanding && !verdict.value.Issued?)
  {
  }

  lemma StepKeepsDiscipline(st: ProbeState, trace: seq<Event>, c: Call, before: int)
    requires c.target < MAX_INT32 && 0 < c.heartbeat && before <= c.now
    requires Alternates(trace) && WaitsOutFailures(trace) && Summarises(st, trace, before)
    ensures var trace' := trace + Events(st, c);
      Alternates(trace') && WaitsOutFailures(trace') && Summarises(Next(st, c).0, trace', c.now)
  {
    hide Next, Verdict;
    StepFacts(st, c);
  }

  /** Over any call sequence with a non-decreasing clock: questions and answers alternate,
      the trace ends in a question exactly when a probe is outstanding, and after a refusal
      or an abandonment nothing is issued before the heartbeat. */
  lemma {:induction false} TraceDiscipline(calls: seq<Call>, n: nat)
    requires Callable(calls) && n <= |calls|
    ensures var trace := Trace(calls, n);
      && Alternates(trace) && WaitsOutFailures(trace)
      && Summarises(StateAfter(calls, n), trace, if n == 0 then 0 else calls[n - 1].now)
  {
    if 0 < n {
      TraceDiscipline(calls, n - 1);
      var before := if n == 1 then calls[0].now else calls[n - 2].now;
      assert Summarises(StateAfter(calls, n - 1), Trace(calls, n - 1), before);
      StepKeepsDiscipline(StateAfter(calls, n - 1), Trace(calls, n - 1), calls[n - 1], before);
    }
  }

  /** No call leaves a question open that is as old as the verdict timeout. */
  lemma OutstandingIsYoung(calls: seq<Call>, n: nat)
    requires Callable(calls) && 0 < n <= |calls|
    requires StateAfter(calls, n).outstanding
    ensures var trace := Trace(calls, n);
      && trace != [] && trace[|trace| - 1].kind.Issued?
      && calls[n - 1].now - trace[|trace| - 1].at < 120 * 1_000_000_000
  {
    TraceDiscipline(calls, n);
  }

  /** One call, from the numbers alone: what it makes of an open question, what it remembers, and
      what it writes. */
  lemma CallByTheNumbers(st: ProbeState, c: Call)
    requires c.target < MAX_INT32
    ensures var (st', d) := Next(st, c);
      var ready := c.obs.found && c.obs.asked <= c.obs.ready;
      var refused := c.obs.found && !ready && 0 < c.obs.unschedulable;
      var silent := st.outstanding && !ready && !refused;
      var late := 120 * 1_000_000_000 <= c.now - st.startedAt;
      && st'.lastFailed == (if (st.outstanding && refused) || (silent && late) then Some(c.now) else st.lastFailed)
      && (st'.outstanding <==> d.issued || (silent && !late))
      && st'.startedAt == (if d.issued then c.now else st.startedAt)
      && (d.abandoned <==> silent && late)
      && (d.awaitVerdict <==> d.issued || (silent && !late && c.obs.found))
      && d.target == c.target + (if d.awaitVerdict then 1 else 0)
  {
  }

  /** A question is put exactly to a child that was read with its share asked and all of it
      ready, unless a failure is less than a heartbeat old; whether one was open before makes
      no difference. */
  lemma IssuedExactly(st: ProbeState, c: Call)
    requires c.target < MAX_INT32
    ensures Next(st, c).1.issued <==>
      && c.obs.found && c.obs.asked == c.target && c.target <= c.obs.ready
      && (st.lastFailed.Some? ==> c.heartbeat <= c.now - st.lastFailed.value)
  {
  }

  /** A question is given up exactly when the child shows neither all replicas ready nor a
      refusal, if it was read at all, and two minutes are over. */
  lemma AbandonedExactly(st: ProbeState, c: Call)
    requires c.target < MAX_INT32
    ensures Next(st, c).1.abandoned <==>
      && st.outstanding && 120 * 1_000_000_000 <= c.now - st.startedAt
      && (c.obs.found ==> c.obs.ready < c.obs.asked && c.obs.unschedulable <= 0)
  {
  }

  /** An observation that was never read neither opens nor accepts a question. */
  lemma UnreadDecidesNothing(st: ProbeState, c: Call)
    requires c.target < MAX_INT32 && !c.obs.found
    ensures forall e :: e in Events(st, c) ==> e.kind.Abandoned?
    ensures Next(st, c).1.target == c.target
  {
  }

  /** The extra replica is asked for exactly while a question is open on a child that was read. */
  lemma ExtraReplicaIsTheQuestion(st: ProbeState, c: Call)
    requires c.target < MAX_INT32
    ensures var (st', d) := Next(st, c);
      && d.target == c.target + (if d.awaitVerdict then 1 else 0)
      && (d.awaitVerdict <==> st'.outstanding && c.obs.found)
      && (d.abandoned <==> Verdict(st, c) == Some(Abandoned))
      && (st'.outstanding <==> d.issued || (st.outstanding && Verdict(st, c).None?))
  {
  }
}
