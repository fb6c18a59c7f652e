/** One group's probe loop against a scheduler that keeps exactly `room` of its replicas ready
    and refuses the rest: the asked count finds the room, as far as its share can follow, and
    stays beside it. */

module Convergence {
  import opened Options
  import opened Scaling
  import opened Probes

  function Clamp(c: int, least: int, most: int): int {
    Max(least, Min(c, most))
  }

  /** The child as the scheduler leaves it: refusals beyond one page are not seen. */
  function Seen(asked: int32, room: int32): (obs: Observation)
    requires 0 <= asked && 0 <= room
    ensures WellShaped(obs)
  {
    Observation(true, false, asked, Min(asked, room),
                if asked <= room then 0 else Min(asked - room, MAX_UNSCHEDULABLE_PROBE))
  }

  /** The world in which the scheduler keeps `room` of a child's `asked` replicas ready and has
      refused every pod beyond them. */
  ghost predicate SchedulerKeeps(w: World, name: string, asked: int32, room: int32) {
    && 0 <= asked && 0 <= room
    && name in w.cached && w.cached[name] == Child(true, asked, Min(asked, room))
    && var pods := if name in w.pending then w.pending[name] else Some([]);
       && pods.Some? && |pods.value| == Max(0, asked - room)
       && forall k :: 0 <= k < |pods.value| ==> pods.value[k]
  }

  /** Observing such a child yields what is seen here: its counts, and one page of refusals. */
  lemma SeenIsObserved(w: World, name: string, obs: Observation, asked: int32, room: int32)
    requires SchedulerKeeps(w, name, asked, room) && FollowsFrom(w, name, obs)
    ensures obs == Seen(asked, room)
  {
    assert Decides(w, name, w.cached[name]);
    if room < asked {
      var pods := w.pending[name].value;
      var n := Min(asked - room, MAX_UNSCHEDULABLE_PROBE);
      EachRefused(pods, |pods|);
      AllRefusedFillThePage(pods, n);
      RefusedCounts(pods, n);
      assert (set k | 0 <= k < |pods| && k < 256 && k < obs.asked - obs.ready && pods[k])
          == set k | 0 <= k < n && pods[k];
    }
  }

  lemma {:induction false} EachRefused(pods: seq<bool>, n: nat)
    requires n <= |pods| && forall k :: 0 <= k < |pods| ==> pods[k]
    ensures Refused(pods, n) == n
  {
    if 0 < n {
      EachRefused(pods, n - 1);
    }
  }

  /** The capacity a pass concludes, whether or not a question is open: short children have
      refusals to show. */
  function Concluded(asked: int32, room: int32): (c: int32)
    requires 0 <= asked && 0 <= room
    ensures 0 <= c
  {
    if asked <= room then asked else asked - Min(asked - room, MAX_UNSCHEDULABLE_PROBE)
  }

  lemma ConcludedIsCapacity(asked: int32, room: int32, outstanding: bool)
    requires 0 <= asked && 0 <= room
    ensures Capacity(Seen(asked, room), outstanding) == Some(Concluded(asked, room))
  {
  }

  /** What fixes one group's course: its share lies between `least` and `most`. */
  datatype Bounds = Bounds(heartbeat: int, least: int, most: int, room: int32)

  predicate Sound(b: Bounds) {
    0 <= b.least <= b.most < MAX_INT32 && 0 <= b.room
  }

  /** Where the group comes to rest: the room, as far as its share can follow. */
  function Rest(b: Bounds): int {
    Clamp(b.room, b.least, b.most)
  }

  ghost predicate AtRest(asked: int, rest: int) {
    asked == rest || asked == rest + 1
  }

  /** What is asked of the child, and what the controller remembers about it. */
  datatype Track = Track(asked: int32, record: ProbeState)

  function Share(b: Bounds, asked: int32): (share: int32)
    requires Sound(b) && 0 <= asked
    ensures 0 <= share < MAX_INT32
  {
    Clamp(Concluded(asked, b.room), b.least, b.most)
  }

  function Advance(b: Bounds, t: Track, now: int): (t': Track)
    requires Sound(b) && 0 <= t.asked
    ensures 0 <= t'.asked
  {
    var (record, d) := Decide(t.record, b.heartbeat, Share(b, t.asked), Seen(t.asked, b.room), now);
    Track(d.target, record)
  }

  /** The track after the passes from m up to n. */
  function TrackAt(b: Bounds, t: Track, times: seq<int>, m: nat, n: nat): (t': Track)
    requires Sound(b) && 0 <= t.asked && m <= n <= |times|
    ensures 0 <= t'.asked
  {
    if n == m then t else Advance(b, TrackAt(b, t, times, m, n - 1), times[n - 1])
  }

  // ---- one pass ----

  /** One pass: straight down towards the room, one up when the heartbeat allows. */
  lemma AdvanceMoves(b: Bounds, t: Track, now: int)
    requires Sound(b) && 0 <= t.asked
    ensures var t' := Advance(b, t, now);
      && (Rest(b) < t.asked ==> Rest(b) <= t'.asked <= Max(Rest(b), t.asked - MAX_UNSCHEDULABLE_PROBE))
      && (b.room < t.asked <= Rest(b) ==> t'.asked == Rest(b))
      && (t.asked <= Rest(b) && t.asked <= b.room ==>
           && t'.record.lastFailed == t.record.lastFailed
           && t'.asked == Max(t.asked, b.least)
              + (if b.least <= t.asked && HeartbeatElapsed(t.record, b.heartbeat, now) then 1 else 0))
    ensures b.least <= Rest(b)
  {
  }

  /** At rest the share is the resting place itself, open question or not. */
  lemma ShareAtRest(b: Bounds, asked: int32)
    requires Sound(b) && 0 <= asked && AtRest(asked, Rest(b))
    ensures Share(b, asked) == Rest(b)
  {
  }

  // ---- whole runs ----

  /** Once beside the room, always beside the room. */
  lemma {:induction false} StaysBesideRoom(b: Bounds, t: Track, times: seq<int>, m: nat, n: nat)
    requires Sound(b) && 0 <= t.asked && m <= n <= |times| && AtRest(t.asked, Rest(b))
    ensures AtRest(TrackAt(b, t, times, m, n).asked, Rest(b))
  {
    hide Advance, Rest;
    if m < n {
      StaysBesideRoom(b, t, times, m, n - 1);
      AdvanceMoves(b, TrackAt(b, t, times, m, n - 1), times[n - 1]);
    }
  }

  /** From above, every pass hands back the whole gap, or a page of it. */
  lemma {:induction false} Descends(b: Bounds, t: Track, times: seq<int>, m: nat, n: nat)
    requires Sound(b) && m <= n <= |times| && 0 <= t.asked && Rest(b) < t.asked
    ensures Rest(b) <= TrackAt(b, t, times, m, n).asked <= Max(Rest(b) + 1, t.asked - MAX_UNSCHEDULABLE_PROBE * (n - m))
  {
    hide Advance, Rest;
    if m < n {
      Descends(b, t, times, m, n - 1);
      AdvanceMoves(b, TrackAt(b, t, times, m, n - 1), times[n - 1]);
    }
  }

  ghost predicate NonDecreasing(times: seq<int>) {
    forall i, j :: 0 <= i <= j < |times| ==> times[i] <= times[j]
  }

  /** From below, no failure is recorded before the room is reached, and every pass after
      the heartbeat adds one replica. */
  lemma {:induction false} Climbs(b: Bounds, t: Track, times: seq<int>, m: nat, e: nat, n: nat)
    requires Sound(b) && m <= n <= |times| && m <= e < |times| && 0 <= t.asked <= Rest(b)
    requires NonDecreasing(times) && HeartbeatElapsed(t.record, b.heartbeat, times[e])
    ensures var now := TrackAt(b, t, times, m, n);
      || AtRest(now.asked, Rest(b))
      || (&& now.asked < Rest(b) && t.asked + (if e < n then n - e else 0) <= now.asked
          && now.record.lastFailed == t.record.lastFailed)
  {
    hide Advance, Rest;
    if m < n {
      Climbs(b, t, times, m, e, n - 1);
      AdvanceMoves(b, TrackAt(b, t, times, m, n - 1), times[n - 1]);
    }
  }

  /** The asked count reaches the room within a bounded number of passes -- a page of 256 a
      pass from above, one replica a pass from below once the heartbeat is over -- and is
      at the room or one beyond it on every pass thereafter. */
  lemma Converges(b: Bounds, t: Track, times: seq<int>, m: nat, e: nat, n: nat)
    requires Sound(b) && 0 <= t.asked && m <= n <= |times| && NonDecreasing(times)
    requires Rest(b) < t.asked ==> t.asked - Rest(b) <= MAX_UNSCHEDULABLE_PROBE * (n - m)
    requires t.asked <= Rest(b) ==>
      m <= e < |times| && HeartbeatElapsed(t.record, b.heartbeat, times[e]) && Rest(b) - t.asked <= n - e
    ensures AtRest(TrackAt(b, t, times, m, n).asked, Rest(b))
  {
    hide Advance, Rest;
    if Rest(b) < t.asked {
      Descends(b, t, times, m, n);
    } else {
      Climbs(b, t, times, m, e, n);
    }
  }

  /** Before the heartbeat is over a sized group below its room is left alone. */
  lemma {:induction false} HoldsUntilHeartbeat(b: Bounds, t: Track, times: seq<int>, m: nat, n: nat)
    requires Sound(b) && m <= n <= |times| && 0 <= t.asked && b.least <= t.asked <= Rest(b) && t.asked <= b.room
    requires forall j :: m <= j < n ==> !HeartbeatElapsed(t.record, b.heartbeat, times[j])
    ensures var now := TrackAt(b, t, times, m, n);
      now.asked == t.asked && now.record.lastFailed == t.record.lastFailed
  {
    hide Advance, Rest;
    if m < n {
      HoldsUntilHeartbeat(b, t, times, m, n - 1);
      AdvanceMoves(b, TrackAt(b, t, times, m, n - 1), times[n - 1]);
    }
  }
}
