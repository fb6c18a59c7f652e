/** The opportunistic probe protocol: what one pass reads of a child, the capacity it
    concludes, and the one extra replica it may ask for
    (internal/controller/opportunistic.go, applyProbes in podpool_controller.go). */

module Probes {
  import opened Options
  import opened PodPools
  import opened Scaling
  import opened Waterfill
  import opened Allocator

  // Time is an abstract integer clock in nanoseconds.
  const SECOND: int := 1_000_000_000
  const VERDICT_TIMEOUT: int := 120 * SECOND
  const DEFAULT_HEARTBEAT: int := 300 * SECOND
  const MAX_UNSCHEDULABLE_PROBE: int32 := 256

  datatype Observation = Observation(found: bool, foreign: bool, asked: int32, ready: int32, unschedulable: int32)

  const UNREAD := Observation(false, false, 0, 0, 0)

  /** lastFailed is None for the zero time, which is older than any heartbeat. */
  datatype ProbeState = ProbeState(outstanding: bool, lastFailed: Option<int>, startedAt: int)

  const FRESH := ProbeState(false, None, 0)

  datatype Decision = Decision(target: int32, issued: bool, awaitVerdict: bool, abandoned: bool)

  type Book = map<string, ProbeState>

  function StateOf(book: Book, key: string): ProbeState {
    if key in book then book[key] else FRESH
  }

  function ObservationOf(observed: map<string, Observation>, name: string): Observation {
    if name in observed then observed[name] else UNREAD
  }

  function PoolPrefix(namespace: string, name: string): string {
    namespace + "/" + name + "/"
  }

  function ProbeKey(pool: PodPool, group: string): string {
    PoolPrefix(pool.namespace, pool.name) + group
  }

  function Heartbeat(pool: PodPool): (h: int)
    ensures 0 <= h
    ensures (exists g :: g in pool.groups && g.scaling.opportunistic) ==> SECOND <= h
  {
    if !(exists g :: g in pool.groups && g.scaling.opportunistic) then 0
    else if pool.heartbeatSeconds.Some? && 0 < pool.heartbeatSeconds.value then pool.heartbeatSeconds.value * SECOND
    else DEFAULT_HEARTBEAT
  }

  // ---- probe keys ----

  ghost predicate NoSlash(s: string) {
    '/' !in s
  }

  /** Two slash-free heads of the same string, each followed by a slash, are equal. */
  lemma HeadsAgree(a: string, x: string, b: string, y: string)
    requires NoSlash(a) && NoSlash(b)
    requires a + "/" + x <= b + "/" + y
    ensures a == b && x <= y
  {
    var s, t := a + "/" + x, b + "/" + y;
    assert forall i {:trigger s[i]} {:trigger t[i]} :: 0 <= i < |s| ==> s[i] == t[i];
    assert forall i {:trigger s[i]} :: 0 <= i < |a| ==> s[i] == a[i] && s[i] != '/';
    assert forall i {:trigger t[i]} :: 0 <= i < |b| ==> t[i] == b[i] && t[i] != '/';
    assert s[|a|] == '/' && t[|b|] == '/';
    assert |a| == |b|;
    assert a == s[..|a|] == t[..|b|] == b;
    assert forall i :: 0 <= i < |x| ==> x[i] == s[|a| + 1 + i] == t[|a| + 1 + i] == y[i];
  }

  /** Forgetting a pool removes exactly its own keys, as names hold no slash. */
  lemma PrefixIsOwnKeys(namespace: string, name: string, pool: PodPool, group: string)
    requires NoSlash(namespace) && NoSlash(name) && NoSlash(pool.namespace) && NoSlash(pool.name)
    ensures PoolPrefix(namespace, name) <= ProbeKey(pool, group) <==> namespace == pool.namespace && name == pool.name
  {
    var prefix, key := PoolPrefix(namespace, name), ProbeKey(pool, group);
    assert prefix == namespace + "/" + (name + "/");
    assert key == pool.namespace + "/" + (pool.name + "/" + group);
    if prefix <= key {
      HeadsAgree(namespace, name + "/", pool.namespace, pool.name + "/" + group);
      assert name + "/" == name + "/" + "";
      HeadsAgree(name, "", pool.name, group);
    }
  }

  /** One pool's groups never share a key. */
  lemma KeysDiffer(pool: PodPool, a: string, b: string)
    requires a != b
    ensures ProbeKey(pool, a) != ProbeKey(pool, b)
  {
    var p := PoolPrefix(pool.namespace, pool.name);
    assert (p + a)[|p|..] == a && (p + b)[|p|..] == b;
  }

  // ---- reading a child ----

  /** The outcome of one Get of a child; counts are the raw int64 fields. */
  datatype Read = ReadFailed | Missing | Child(controlled: bool, replicas: int, readyReplicas: int)

  datatype Reading = Unknown | Known(obs: Observation)

  /** Negative counts read as 0, counts beyond int32 as its largest value. */
  function ClampCount(v: int): (r: int32)
    ensures 0 <= r
    ensures 0 <= v <= MAX_INT32 <==> r == v
    ensures v < 0 ==> r == 0
    ensures MAX_INT32 < v ==> r == MAX_INT32
  {
    if v < 0 then 0 else if MAX_INT32 < v then MAX_INT32 else v
  }

  function Observe(child: Read): Observation
    requires child.Child?
  {
    if !child.controlled then UNREAD.(foreign := true)
    else Observation(true, false, ClampCount(child.replicas), ClampCount(child.readyReplicas), 0)
  }

  /** Absence is believed only when an uncached read confirms it. */
  function ChildCounts(cached: Read, live: Read): Reading {
    match cached
    case Missing =>
      (match live
       case Missing => Known(UNREAD)
       case ReadFailed => Unknown
       case Child(_, _, _) => Known(Observe(live)))
    case ReadFailed => Unknown
    case Child(_, _, _) => Known(Observe(cached))
  }

  /** What every observation looks like: refusals are counted only for a group found short,
      and never more than the shortfall or the page of 256. */
  predicate WellShaped(obs: Observation) {
    && 0 <= obs.asked && 0 <= obs.ready && 0 <= obs.unschedulable
    && !(obs.found && obs.foreign)
    && (!obs.found ==> obs.asked == obs.ready == obs.unschedulable == 0)
    && (0 < obs.unschedulable ==> obs.unschedulable <= Min(obs.asked - obs.ready, MAX_UNSCHEDULABLE_PROBE))
  }

  predicate AllWellShaped(observed: map<string, Observation>) {
    forall name :: name in observed ==> WellShaped(observed[name])
  }

  /** The cluster as one pass sees it, per group name: the cached and live reads of the
      child, and its Pending pods in list order, each with whether the scheduler refused it
      (None: the list failed). */
  datatype World = World(cached: map<string, Read>, live: map<string, Read>, pending: map<string, Option<seq<bool>>>)

  function ReadOf(table: map<string, Read>, name: string): Read {
    if name in table then table[name] else Missing
  }

  /** The read that decides what a pass knows of a child: the live one only on a cached miss;
      a child in neither table is missing. */
  ghost predicate Decides(w: World, name: string, read: Read) {
    if name in w.cached && !w.cached[name].Missing? then read == w.cached[name]
    else if name in w.live then read == w.live[name]
    else read == Missing
  }

  function PodsOf(w: World, name: string): Option<seq<bool>> {
    if name in w.pending then w.pending[name] else Some([])
  }

  /** How many of the first n pods the scheduler refused. */
  function Refused(pods: seq<bool>, n: nat): (c: nat)
    requires n <= |pods|
    ensures c <= n
  {
    if n == 0 then 0 else Refused(pods, n - 1) + if pods[n - 1] then 1 else 0
  }

  /** That is the size of the set of refused ones. */
  lemma {:induction false} RefusedCounts(pods: seq<bool>, n: nat)
    requires n <= |pods|
    ensures Refused(pods, n) == |set k | 0 <= k < n && pods[k]|
  {
    var now := set k | 0 <= k < n && pods[k];
    if 0 < n {
      RefusedCounts(pods, n - 1);
      var before := set k | 0 <= k < n - 1 && pods[k];
      assert now == if pods[n - 1] then before + {n - 1} else before;
    }
  }

  function Page(pods: seq<bool>, limit: nat): (n: nat)
    ensures n <= |pods| && n <= limit
  {
    Min(limit, |pods|)
  }

  /** A page sees no more than there is, and misses no more than lies beyond it. */
  lemma {:induction false} PageMissesOnlyBeyond(pods: seq<bool>, n: nat)
    requires n <= |pods|
    ensures Refused(pods, |pods|) - (|pods| - n) <= Refused(pods, n) <= Refused(pods, |pods|)
    decreases |pods| - n
  {
    if n < |pods| {
      PageMissesOnlyBeyond(pods, n + 1);
    }
  }

  /** So when the scheduler has answered for every Pending pod, the count is the smaller of
      the refusals and the page. */
  lemma AllRefusedFillThePage(pods: seq<bool>, limit: nat)
    requires Refused(pods, |pods|) == |pods|
    ensures Refused(pods, Page(pods, limit)) == Min(Refused(pods, |pods|), limit)
  {
    PageMissesOnlyBeyond(pods, Page(pods, limit));
  }

  method CountUnschedulable(pods: Option<seq<bool>>, limit: int32) returns (n: Option<int32>)
    requires 0 <= limit
    ensures n.None? <==> pods.None?
    ensures n.Some? ==> n.value == Refused(pods.value, Page(pods.value, limit))
  {
    if pods.None? {
      return None;
    }
    var count: int32 := 0;
    for i := 0 to Page(pods.value, limit)
      invariant count == Refused(pods.value, i)
    {
      if pods.value[i] {
        count := count + 1;
      }
    }
    n := Some(count);
  }

  /** What a pass should count against a child: the refusals on one page of its Pending
      pods, asked for only when the child is found short. */
  function Refusals(w: World, name: string, obs: Observation): nat {
    var pods := PodsOf(w, name);
    if obs.found && obs.ready < obs.asked && pods.Some? then
      Refused(pods.value, Page(pods.value, Min(obs.asked - obs.ready, MAX_UNSCHEDULABLE_PROBE)))
    else 0
  }

  /** How an observation follows from the reads: no child, someone else's child, or a child of
      ours with its counts and, when it is short and its pods could be listed, the refused ones
      among the first 256, or the first as many as it is short of. */
  ghost predicate FollowsFrom(w: World, name: string, obs: Observation) {
    exists read :: Decides(w, name, read) &&
      match read
      case ReadFailed => false
      case Missing => obs == Observation(false, false, 0, 0, 0)
      case Child(mine, replicas, readyReplicas) =>
        if !mine then obs == Observation(false, true, 0, 0, 0)
        else
          && obs.found && !obs.foreign && obs.asked == ClampCount(replicas) && obs.ready == ClampCount(readyReplicas)
          && var pods := if name in w.pending then w.pending[name] else Some([]);
             match pods
             case None => obs.unschedulable == 0
             case Some(pods) =>
               obs.unschedulable == |set k | 0 <= k < |pods| && k < 256 && k < obs.asked - obs.ready && pods[k]|
  }

  lemma ReadingFollows(w: World, name: string, obs: Observation)
    requires ChildCounts(ReadOf(w.cached, name), ReadOf(w.live, name)) == Known(obs.(unschedulable := 0))
    requires obs.unschedulable == Refusals(w, name, obs)
    ensures FollowsFrom(w, name, obs)
  {
    var cached, live := ReadOf(w.cached, name), ReadOf(w.live, name);
    assert Decides(w, name, if cached.Missing? then live else cached);
    if obs.found && PodsOf(w, name).Some? {
      var pods := PodsOf(w, name).value;
      var counted := set k | 0 <= k < |pods| && k < 256 && k < obs.asked - obs.ready && pods[k];
      if obs.ready < obs.asked {
        var n := Page(pods, Min(obs.asked - obs.ready, MAX_UNSCHEDULABLE_PROBE));
        RefusedCounts(pods, n);
        assert counted == set k | 0 <= k < n && pods[k];
      } else {
        assert counted == {};
      }
    }
  }

  /** None when a read failed: the pass is abandoned rather than sized on partial data. */
  method ObserveOpportunistic(groups: seq<GroupSpec>, w: World) returns (out: Option<map<string, Observation>>)
    ensures out.None? <==>
      exists g :: g in groups && g.scaling.opportunistic && Decides(w, g.name, ReadFailed)
    ensures out.Some? ==> AllWellShaped(out.value)
    ensures out.Some? ==> forall name :: name in out.value <==>
      exists g :: g in groups && g.scaling.opportunistic && g.name == name
    ensures out.Some? ==> forall name :: name in out.value ==> FollowsFrom(w, name, out.value[name])
  {
    hide FollowsFrom;
    var seen: map<string, Observation> := map[];
    for i := 0 to |groups|
      invariant AllWellShaped(seen)
      invariant forall name :: name in seen <==>
        exists j :: 0 <= j < i && groups[j].scaling.opportunistic && groups[j].name == name
      invariant forall name :: name in seen ==>
        FollowsFrom(w, name, seen[name]) && !Decides(w, name, ReadFailed)
    {
      var g := groups[i];
      if !g.scaling.opportunistic {
        continue;
      }
      var reading := ChildCounts(ReadOf(w.cached, g.name), ReadOf(w.live, g.name));
      if reading.Unknown? {
        assert g in groups;
        return None;
      }
      var obs := reading.obs;
      if obs.found && obs.ready < obs.asked {
        var n := CountUnschedulable(PodsOf(w, g.name), Min(obs.asked - obs.ready, MAX_UNSCHEDULABLE_PROBE));
        if n.Some? {
          obs := obs.(unschedulable := n.value);
        }
      }
      ReadingFollows(w, g.name, obs);
      seen := seen[g.name := obs];
    }
    forall g | g in groups && g.scaling.opportunistic
      ensures g.name in seen
    {
    }
    return Some(seen);
  }

  // ---- capacity ----

  /** None for a group with no child yet: it stays out of the map, which is the cold start.
      Otherwise what was asked is capacity, refusals and at most one open question. */
  function Capacity(obs: Observation, outstanding: bool): (c: Option<int32>)
    requires WellShaped(obs)
    ensures c.None? <==> !obs.found && !obs.foreign
    ensures c.Some? ==> 0 <= c.value <= obs.asked
    ensures obs.foreign ==> c == Some(0)
    ensures obs.found ==>
      var open := outstanding && obs.ready < obs.asked && obs.unschedulable == 0;
      c.value + obs.unschedulable + (if open then 1 else 0) == obs.asked
  {
    if obs.foreign then Some(0)
    else if !obs.found then None
    else if outstanding && obs.ready < obs.asked && obs.unschedulable == 0 then Some(obs.asked - 1)
    else Some(Max(0, obs.asked - obs.unschedulable))
  }

  function CapacityIn(pool: PodPool, book: Book, observed: map<string, Observation>, name: string): Option<int32>
    requires name in observed && AllWellShaped(observed)
  {
    Capacity(observed[name], StateOf(book, ProbeKey(pool, name)).outstanding)
  }

  function CapacityMap(pool: PodPool, book: Book, observed: map<string, Observation>): map<string, int32>
    requires AllWellShaped(observed)
  {
    map name | name in observed && CapacityIn(pool, book, observed, name).Some?
      :: CapacityIn(pool, book, observed, name).value
  }

  /** A group's entry, from the reads: none without a child, zero under another owner, and for a
      child of ours what was asked less refusals and an open question's replica. */
  lemma CapacityByTheReads(pool: PodPool, book: Book, w: World, observed: map<string, Observation>, name: string)
    requires AllWellShaped(observed) && name in observed && FollowsFrom(w, name, observed[name])
    ensures var capacity, obs := CapacityMap(pool, book, observed), observed[name];
      forall read :: Decides(w, name, read) ==>
        match read
        case ReadFailed => false
        case Missing => name !in capacity
        case Child(mine, replicas, _) =>
          && name in capacity
          && if !mine then capacity[name] == 0
             else
               var outstanding := StateOf(book, ProbeKey(pool, name)).outstanding;
               var open := outstanding && obs.ready < obs.asked && obs.unschedulable == 0;
               capacity[name] == ClampCount(replicas) - obs.unschedulable - if open then 1 else 0
  {
    assert WellShaped(observed[name]);
  }

  // ---- deciding ----

  /** Resolve an outstanding probe, then decide whether to issue one. */
  function Decide(st: ProbeState, heartbeat: int, target: int32, obs: Observation, now: int): (ProbeState, Decision)
    requires target < MAX_INT32
  {
    var judged :=
      if !(st.outstanding && obs.found) then st
      else if obs.asked <= obs.ready then st.(outstanding := false)
      else if 0 < obs.unschedulable then st.(outstanding := false, lastFailed := Some(now))
      else st;
    if judged.outstanding && VERDICT_TIMEOUT <= now - judged.startedAt then
      (judged.(outstanding := false, lastFailed := Some(now)), Decision(target, false, false, true))
    else if judged.outstanding then
      if !obs.found then (judged, Decision(target, false, false, false))
      else (judged, Decision(target + 1, false, true, false))
    else if Settled(target, obs) && HeartbeatElapsed(judged, heartbeat, now) then
      (judged.(outstanding := true, startedAt := now), Decision(target + 1, true, true, false))
    else (judged, Decision(target, false, false, false))
  }

  /** Nothing is in flight: the child was asked for its share and all of it is ready. */
  predicate Settled(target: int32, obs: Observation) {
    obs.found && obs.asked == target && obs.asked <= obs.ready
  }

  predicate HeartbeatElapsed(st: ProbeState, heartbeat: int, now: int) {
    st.lastFailed.None? || heartbeat <= now - st.lastFailed.value
  }

  // ---- one pass over the groups ----

  predicate Probeable(pool: PodPool, targets: seq<int>) {
    |targets| == |pool.groups| && forall i :: 0 <= i < |targets| ==> 0 <= targets[i] < MAX_INT32
  }

  function DecideFor(pool: PodPool, book: Book, targets: seq<int>, observed: map<string, Observation>, now: int, i: nat)
      : (ProbeState, Decision)
    requires Probeable(pool, targets) && i < |targets|
  {
    var name := pool.groups[i].name;
    Decide(StateOf(book, ProbeKey(pool, name)), Heartbeat(pool), targets[i], ObservationOf(observed, name), now)
  }

  /** The records once the first n groups have been decided, in list order. */
  function BookAfter(pool: PodPool, book: Book, targets: seq<int>, observed: map<string, Observation>, now: int,
                     n: nat): Book
    requires Probeable(pool, targets) && n <= |targets|
  {
    if n == 0 then book
    else
      var before := BookAfter(pool, book, targets, observed, now, n - 1);
      if !pool.groups[n - 1].scaling.opportunistic then before
      else before[ProbeKey(pool, pool.groups[n - 1].name) := DecideFor(pool, before, targets, observed, now, n - 1).0]
  }

  function DecisionAt(pool: PodPool, book: Book, targets: seq<int>, observed: map<string, Observation>, now: int,
                      i: nat)
      : (d: Decision)
    requires Probeable(pool, targets) && i < |targets|
    ensures targets[i] <= d.target <= targets[i] + 1
  {
    if !pool.groups[i].scaling.opportunistic then Decision(targets[i], false, false, false)
    else DecideFor(pool, BookAfter(pool, book, targets, observed, now, i), targets, observed, now, i).1
  }

  /** How many of the first n groups are left awaiting a verdict. */
  function Awaiting(pool: PodPool, book: Book, targets: seq<int>, observed: map<string, Observation>, now: int,
                    n: nat): nat
    requires Probeable(pool, targets) && n <= |targets|
  {
    if n == 0 then 0
    else
      Awaiting(pool, book, targets, observed, now, n - 1)
      + if DecisionAt(pool, book, targets, observed, now, n - 1).awaitVerdict then 1 else 0
  }

  lemma {:induction false} SomeoneAwaits(pool: PodPool, book: Book, targets: seq<int>,
                                         observed: map<string, Observation>, now: int, n: nat)
    requires Probeable(pool, targets) && n <= |targets|
    ensures Awaiting(pool, book, targets, observed, now, n) != 0
       <==> exists i :: 0 <= i < n && DecisionAt(pool, book, targets, observed, now, i).awaitVerdict
  {
    if 0 < n {
      SomeoneAwaits(pool, book, targets, observed, now, n - 1);
    }
  }

  /** Exactly the entries under the prefix are gone, the others as they were. */
  ghost predicate Forgotten<V(!new)>(before: map<string, V>, after: map<string, V>, prefix: string) {
    && (forall k :: k in after <==> k in before && !(prefix <= k))
    && (forall k :: k in after ==> after[k] == before[k])
  }

  /** The reconciler's memory, updated in place. */
  class Reconciler {
    var probes: map<string, ProbeState>
    var outOfRangeEmitted: map<string, bool>

    constructor ()
      ensures probes == map[] && outOfRangeEmitted == map[]
    {
      probes, outOfRangeEmitted := map[], map[];
    }

    method ProbeOutstanding(pool: PodPool, group: string) returns (b: bool)
      ensures b == StateOf(probes, ProbeKey(pool, group)).outstanding
    {
      var key := ProbeKey(pool, group);
      b := if key in probes then probes[key].outstanding else false;
    }

    method CapacityFrom(pool: PodPool, observed: map<string, Observation>) returns (out: map<string, int32>)
      requires AllWellShaped(observed)
      ensures out == CapacityMap(pool, probes, observed)
    {
      out := map[];
      var todo := observed.Keys;
      while todo != {}
        invariant todo <= observed.Keys
        invariant forall name :: name in out <==>
          name in observed && name !in todo && CapacityIn(pool, probes, observed, name).Some?
        invariant forall name :: name in out ==> out[name] == CapacityIn(pool, probes, observed, name).value
        decreases |todo|
      {
        var name :| name in todo;
        todo := todo - {name};
        var obs := observed[name];
        if obs.foreign {
          out := out[name := 0];
          continue;
        }
        if !obs.found {
          continue;
        }
        var capacity: int32 := obs.asked - obs.unschedulable;
        var outstanding := ProbeOutstanding(pool, name);
        if outstanding && obs.ready < obs.asked && obs.unschedulable == 0 {
          capacity := obs.asked - 1;
        }
        if capacity < 0 {
          capacity := 0;
        }
        out := out[name := capacity];
      }
    }

    method DecideProbe(pool: PodPool, group: string, target: int32, obs: Observation, now: int) returns (d: Decision)
      requires target < MAX_INT32
      modifies this`probes
      ensures (StateOf(probes, ProbeKey(pool, group)), d)
           == Decide(StateOf(old(probes), ProbeKey(pool, group)), Heartbeat(pool), target, obs, now)
      ensures probes == old(probes)[ProbeKey(pool, group) := StateOf(probes, ProbeKey(pool, group))]
    {
      var key := ProbeKey(pool, group);
      var st := if key in probes then probes[key] else FRESH;
      if st.outstanding && obs.found {
        if obs.asked <= obs.ready {
          st := st.(outstanding := false);
        } else if 0 < obs.unschedulable {
          st := st.(outstanding := false, lastFailed := Some(now));
        }
      }
      if st.outstanding && VERDICT_TIMEOUT <= now - st.startedAt {
        st := st.(outstanding := false, lastFailed := Some(now));
        probes := probes[key := st];
        return Decision(target, false, false, true);
      }
      if st.outstanding {
        probes := probes[key := st];
        if !obs.found {
          return Decision(target, false, false, false);
        }
        return Decision(target + 1, false, true, false);
      }
      var settled := obs.found && obs.asked == target && obs.asked <= obs.ready;
      if settled && (st.lastFailed.None? || Heartbeat(pool) <= now - st.lastFailed.value) {
        st := st.(outstanding := true, startedAt := now);
        probes := probes[key := st];
        return Decision(target + 1, true, true, false);
      }
      probes := probes[key := st];
      return Decision(target, false, false, false);
    }

    /** Layers at most one replica per opportunistic group on top of the distribution. */
    method ApplyProbes(pool: PodPool, targets: seq<int>, observed: map<string, Observation>, now: int)
        returns (finalTargets: seq<int32>, pending: bool)
      requires Probeable(pool, targets)
      modifies this`probes
      ensures probes == BookAfter(pool, old(probes), targets, observed, now, |targets|)
      ensures |finalTargets| == |targets|
      ensures forall i :: 0 <= i < |targets| ==>
        finalTargets[i] == DecisionAt(pool, old(probes), targets, observed, now, i).target
      ensures pending <==> Awaiting(pool, old(probes), targets, observed, now, |targets|) != 0
    {
      ghost var book := probes;
      var finals := new int32[|targets|](i requires 0 <= i < |targets| => targets[i]);
      pending := false;
      for i := 0 to |targets|
        invariant probes == BookAfter(pool, book, targets, observed, now, i)
        invariant forall j :: 0 <= j < i ==> finals[j] == DecisionAt(pool, book, targets, observed, now, j).target
        invariant forall j :: i <= j < |targets| ==> finals[j] == targets[j]
        invariant pending <==> Awaiting(pool, book, targets, observed, now, i) != 0
      {
        var group := pool.groups[i];
        if !group.scaling.opportunistic {
          continue;
        }
        var d := DecideProbe(pool, group.name, targets[i], ObservationOf(observed, group.name), now);
        finals[i] := d.target;
        pending := pending || d.awaitVerdict;
      }
      finalTargets := finals[..];
    }

    /** Drops a deleted pool's records, and only those: a key survives exactly when it is
        another pool's, as names hold no slash. */
    method ForgetProbes(namespace: string, name: string)
      modifies this
      ensures Forgotten(old(probes), probes, PoolPrefix(namespace, name))
      ensures Forgotten(old(outOfRangeEmitted), outOfRangeEmitted, PoolPrefix(namespace, name))
      ensures NoSlash(namespace) && NoSlash(name) ==> forall pool: PodPool, group: string ::
        NoSlash(pool.namespace) && NoSlash(pool.name) ==>
          var mine, key := pool.namespace == namespace && pool.name == name, ProbeKey(pool, group);
          && (key in probes <==> key in old(probes) && !mine)
          && StateOf(probes, key) == if mine then FRESH else StateOf(old(probes), key)
    {
      var prefix := PoolPrefix(namespace, name);
      var todo := probes.Keys;
      while todo != {}
        invariant forall k :: k in probes <==> k in old(probes) && (k in todo || !(prefix <= k))
        invariant forall k :: k in probes ==> probes[k] == old(probes)[k]
        invariant outOfRangeEmitted == old(outOfRangeEmitted)
        decreases |todo|
      {
        var k :| k in todo;
        todo := todo - {k};
        if prefix <= k {
          probes := probes - {k};
        }
      }
      todo := outOfRangeEmitted.Keys;
      while todo != {}
        invariant Forgotten(old(probes), probes, prefix)
        invariant forall k :: k in outOfRangeEmitted <==> k in old(outOfRangeEmitted) && (k in todo || !(prefix <= k))
        invariant forall k :: k in outOfRangeEmitted ==> outOfRangeEmitted[k] == old(outOfRangeEmitted)[k]
        decreases |todo|
      {
        var k :| k in todo;
        todo := todo - {k};
        if prefix <= k {
          outOfRangeEmitted := outOfRangeEmitted - {k};
        }
      }
      forall pool: PodPool, group: string
        | NoSlash(namespace) && NoSlash(name) && NoSlash(pool.namespace) && NoSlash(pool.name)
        ensures var mine, key := pool.namespace == namespace && pool.name == name, ProbeKey(pool, group);
          && (key in probes <==> key in old(probes) && !mine)
          && StateOf(probes, key) == if mine then FRESH else StateOf(old(probes), key)
      {
        PrefixIsOwnKeys(namespace, name, pool, group);
      }
    }

    /** Capacity, distribution and probes of one pass, in the order Reconcile runs them. */
    method SizeGroups(pool: PodPool, observed: map<string, Observation>, now: int)
        returns (dist: Distribution, finalTargets: seq<int32>, pending: bool)
      requires AllWellShaped(observed) && 0 <= pool.replicas < MAX_INT32
      requires forall g | g in pool.groups :: g.scaling.max.Some? ==> 0 <= g.scaling.max.value
      modifies this`probes
      ensures Stage(dist.targets, dist.unplaced)
           == Split(pool.replicas, pool.groups, CapacityMap(pool, old(probes), observed))
      ensures Probeable(pool, dist.targets)
      ensures probes == BookAfter(pool, old(probes), dist.targets, observed, now, |dist.targets|)
      ensures |finalTargets| == |dist.targets|
      ensures forall i :: 0 <= i < |finalTargets| ==>
        finalTargets[i] == DecisionAt(pool, old(probes), dist.targets, observed, now, i).target
      ensures pending <==> exists i ::
        0 <= i < |dist.targets| && DecisionAt(pool, old(probes), dist.targets, observed, now, i).awaitVerdict
      ensures dist.targetDegraded <==> pool.groups != [] && Degraded(pool.replicas, dist.targets, pool.groups)
    {
      var capacity := CapacityFrom(pool, observed);
      dist := ComputeGroupTargets(pool.replicas, pool.groups, capacity);
      SplitProbeable(pool, capacity);
      ghost var book := probes;
      finalTargets, pending := ApplyProbes(pool, dist.targets, observed, now);
      SomeoneAwaits(pool, book, dist.targets, observed, now, |dist.targets|);
    }
  }

  lemma SplitProbeable(pool: PodPool, capacity: map<string, int32>)
    requires 0 <= pool.replicas < MAX_INT32
    ensures Probeable(pool, Split(pool.replicas, pool.groups, capacity).held)
  {
    if 0 < pool.replicas && 0 < |pool.groups| {
      StagesBalanced(pool.replicas, pool.groups, capacity);
      FitsInt32(pool.replicas, Placed(pool.replicas, pool.groups, capacity));
    }
  }
}
