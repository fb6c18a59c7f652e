/** Ownership and the orphan sweep, under a stale list and with other actors moving
    between every two calls (reconcileWorkload, sweepAllOrphans, sweepOrphans, confirmOrphan
    and staleWorkloadGVKs in internal/controller/podpool_controller.go). */

module Sweep {
  import opened Options
  import opened PodPools
  import opened Progress

  /** The API server stores one object per group, kind and name; a version is a view of it. */
  datatype GroupKind = GroupKind(group: string, kind: string)

  datatype Key = Key(gk: GroupKind, name: string)

  datatype Object = Object(uid: string, controllerUid: Option<string>)

  type Store = map<Key, Object>

  function KindOf(gvk: Gvk): GroupKind {
    GroupKind(gvk.group, gvk.kind)
  }

  predicate IsControlledBy(obj: Object, pool: PodPool) {
    pool.uid != "" && obj.controllerUid == Some(pool.uid)
  }

  // ---- the apply path ----

  datatype Lookup = NotFound | Failed | Got(obj: Object)

  datatype Applied = Created | Observed(obj: Object) | NotOwned | ReadError | ApplyError

  /** Applies only over what it owns, or over an absence the API server itself confirmed. */
  method ReconcileWorkload(pool: PodPool, cached: Lookup, live: Lookup, applyFails: bool)
      returns (r: Applied, applied: bool)
    ensures applied <==>
      || (cached.Got? && IsControlledBy(cached.obj, pool))
      || (cached.NotFound? && (live.NotFound? || (live.Got? && IsControlledBy(live.obj, pool))))
    ensures r.NotOwned? <==>
      || (cached.Got? && !IsControlledBy(cached.obj, pool))
      || (cached.NotFound? && live.Got? && !IsControlledBy(live.obj, pool))
    ensures r.Created? <==> cached.NotFound? && live.NotFound? && !applyFails
    ensures r.ReadError? <==> cached.Failed? || (cached.NotFound? && live.Failed?)
    ensures r.ApplyError? <==> applied && applyFails
    ensures r.Observed? ==> IsControlledBy(r.obj, pool) && Got(r.obj) == if cached.NotFound? then live else cached
  {
    applied := false;
    if cached.NotFound? {
      var existing: Option<Object> := None;
      if live.Got? {
        if !IsControlledBy(live.obj, pool) {
          return NotOwned, applied;
        }
        existing := Some(live.obj);
      } else if !live.NotFound? {
        return ReadError, applied;
      }
      applied := true;
      if applyFails {
        return ApplyError, applied;
      }
      if existing.None? {
        return Created, applied;
      }
      return Observed(existing.value), applied;
    }
    if cached.Failed? {
      return ReadError, applied;
    }
    if !IsControlledBy(cached.obj, pool) {
      return NotOwned, applied;
    }
    applied := true;
    if applyFails {
      return ApplyError, applied;
    }
    return Observed(cached.obj), applied;
  }

  // ---- the API server and everyone else ----

  /** What happens just before one of our calls: the store may become anything at all, and
      the call itself may fail. */
  datatype Turn = Turn(change: Option<Store>, fails: bool)

  datatype Entry = Confirmed(key: Key, obj: Object) | Deleted(key: Key, uid: string)

  datatype World = World(live: Store, turns: seq<Turn>, log: seq<Entry>)

  /** Others move, then our call lands; without further turns nobody else moves. */
  function Advance(w: World): World {
    if w.turns == [] then w
    else World(if w.turns[0].change.Some? then w.turns[0].change.value else w.live, w.turns[1..], w.log)
  }

  predicate CallFails(w: World) {
    w.turns != [] && w.turns[0].fails
  }

  /** One listed candidate; the list is a snapshot of any age. */
  datatype Item = Item(name: string, obj: Object)

  /** The world after one live read of the candidate, and what the read licensed. */
  function Confirm(w: World, pool: PodPool, gk: GroupKind, keep: set<string>, name: string): (World, Option<string>) {
    var w1 := Advance(w);
    var key := Key(gk, name);
    if CallFails(w) || key !in w1.live then (w1, None)
    else
      var seen := w1.live[key];
      var w2 := w1.(log := w1.log + [Confirmed(key, seen)]);
      if !IsControlledBy(seen, pool) || name in keep then (w2, None) else (w2, Some(seen.uid))
  }

  /** A delete bound to a UID: a newcomer under the name survives it. */
  function Remove(w: World, key: Key, uid: string): World {
    var w1 := Advance(w);
    if !CallFails(w) && key in w1.live && w1.live[key].uid == uid
    then World(w1.live - {key}, w1.turns, w1.log + [Deleted(key, uid)])
    else w1
  }

  /** One candidate; false means an error that ends this sweep. */
  function SweepItem(w: World, pool: PodPool, gk: GroupKind, keep: set<string>, item: Item): (World, bool) {
    if !IsControlledBy(item.obj, pool) || item.name in keep then (w, true)
    else
      var (w1, uid) := Confirm(w, pool, gk, keep, item.name);
      if CallFails(w) then (w1, false)
      else if uid.None? then (w1, true)
      else (Remove(w1, Key(gk, item.name), uid.value), !CallFails(w1))
  }

  function SweepItems(w: World, pool: PodPool, gk: GroupKind, keep: set<string>, items: seq<Item>): (World, bool)
    decreases |items|
  {
    if items == [] then (w, true)
    else
      var (w1, ok) := SweepItem(w, pool, gk, keep, items[0]);
      if ok then SweepItems(w1, pool, gk, keep, items[1..]) else (w1, false)
  }

  /** What the readers list for each kind asked; None is a failed list. */
  type Listings = map<Gvk, Option<seq<Item>>>

  function ListOf(listings: Listings, gvk: Gvk): Option<seq<Item>> {
    if gvk in listings then listings[gvk] else Some([])
  }

  function SweepKind(w: World, pool: PodPool, gvk: Gvk, keep: set<string>, listings: Listings): (World, bool) {
    var items := ListOf(listings, gvk);
    if items.None? then (w, false) else SweepItems(w, pool, KindOf(gvk), keep, items.value)
  }

  /** Stale kinds are swept one after the other; an error in one does not stop the next. */
  function SweepStale(w: World, pool: PodPool, stale: seq<Gvk>, keep: set<string>, listings: Listings): World
    decreases |stale|
  {
    if stale == [] then w
    else SweepStale(SweepKind(w, pool, stale[0], keep, listings).0, pool, stale[1..], keep, listings)
  }

  function ChildNames(pool: PodPool, groups: set<string>): set<string> {
    set g | g in groups :: ChildName(pool.name, g)
  }

  function Active(pool: PodPool): set<string> {
    ChildNames(pool, GroupNames(pool))
  }

  /** The distinct kinds on record that are not the current one, in order of first mention. */
  function StaleKinds(prev: seq<GroupStatus>, current: Gvk): (ks: seq<Gvk>)
    ensures forall k :: k in ks <==> k != current && exists i :: 0 <= i < |prev| && prev[i].workloadRef == Some(k)
    ensures forall i, j :: 0 <= i < j < |ks| ==> ks[i] != ks[j]
  {
    if prev == [] then []
    else
      var last := prev[|prev| - 1];
      var before := StaleKinds(prev[..|prev| - 1], current);
      assert forall k :: k in before ==> exists i :: 0 <= i < |prev| && prev[i].workloadRef == Some(k) by {
        forall k | k in before ensures exists i :: 0 <= i < |prev| && prev[i].workloadRef == Some(k) {
          var i :| 0 <= i < |prev| - 1 && prev[..|prev| - 1][i].workloadRef == Some(k);
          assert prev[i].workloadRef == Some(k);
        }
      }
      assert forall i :: 0 <= i < |prev| - 1 ==> prev[i] == prev[..|prev| - 1][i];
      if last.workloadRef.Some? && last.workloadRef.value != current && last.workloadRef.value !in before
      then before + [last.workloadRef.value]
      else before
  }

  function SweepAll(w: World, pool: PodPool, current: Gvk, prev: seq<GroupStatus>, reconciled: set<string>,
                    listings: Listings): World {
    var w1 := SweepKind(w, pool, current, Active(pool), listings).0;
    SweepStale(w1, pool, StaleKinds(prev, current), Active(pool) - ChildNames(pool, reconciled), listings)
  }

  /** How many of the sweeps SweepStale runs end in an error. */
  function StaleErrs(w: World, pool: PodPool, stale: seq<Gvk>, keep: set<string>, listings: Listings): nat
    decreases |stale|
  {
    if stale == [] then 0
    else
      var (w1, ok) := SweepKind(w, pool, stale[0], keep, listings);
      (if ok then 0 else 1) + StaleErrs(w1, pool, stale[1..], keep, listings)
  }

  function SweepErrs(w: World, pool: PodPool, current: Gvk, prev: seq<GroupStatus>, reconciled: set<string>,
                     listings: Listings): nat {
    var (w1, ok) := SweepKind(w, pool, current, Active(pool), listings);
    (if ok then 0 else 1)
    + StaleErrs(w1, pool, StaleKinds(prev, current), Active(pool) - ChildNames(pool, reconciled), listings)
  }

  // ---- the code ----

  method StaleWorkloadGVKs(prev: seq<GroupStatus>, current: Gvk) returns (result: seq<Gvk>)
    ensures result == StaleKinds(prev, current)
  {
    var seen: set<Gvk> := {};
    result := [];
    for i := 0 to |prev|
      invariant result == StaleKinds(prev[..i], current)
      invariant seen == set k | k in result
    {
      assert prev[..i + 1][..i] == prev[..i];
      if prev[i].workloadRef.None? {
        continue;
      }
      var stale := prev[i].workloadRef.value;
      if stale == current || stale in seen {
        continue;
      }
      seen := seen + {stale};
      result := result + [stale];
    }
    assert prev[..|prev|] == prev;
  }

  /** The API server, with the other actors' remaining moves. */
  class ApiServer {
    var live: Store
    var turns: seq<Turn>
    var log: seq<Entry>

    constructor (w: World)
      ensures Value() == w
    {
      live, turns, log := w.live, w.turns, w.log;
    }

    function Value(): World
      reads this
    {
      World(live, turns, log)
    }

    /** Lets the others move, and says whether our own call then fails. */
    method Call() returns (fails: bool)
      modifies this`live, this`turns
      ensures Value() == Advance(old(Value())) && fails == CallFails(old(Value()))
    {
      fails := false;
      if turns != [] {
        fails := turns[0].fails;
        if turns[0].change.Some? {
          live := turns[0].change.value;
        }
        turns := turns[1..];
      }
    }

    method ConfirmOrphan(pool: PodPool, gk: GroupKind, keep: set<string>, name: string)
        returns (failed: bool, uid: Option<string>)
      modifies this
      ensures (Value(), uid) == Confirm(old(Value()), pool, gk, keep, name) && failed == CallFails(old(Value()))
    {
      uid := None;
      failed := Call();
      var key := Key(gk, name);
      if failed || key !in live {
        return;
      }
      var seen := live[key];
      log := log + [Confirmed(key, seen)];
      if !IsControlledBy(seen, pool) || name in keep {
        return;
      }
      uid := Some(seen.uid);
    }

    method Delete(key: Key, uid: string) returns (failed: bool)
      modifies this
      ensures Value() == Remove(old(Value()), key, uid) && failed == CallFails(old(Value()))
    {
      failed := Call();
      if !failed && key in live && live[key].uid == uid {
        live := live - {key};
        log := log + [Deleted(key, uid)];
      }
    }

    method SweepOrphans(pool: PodPool, gvk: Gvk, keep: set<string>, listings: Listings) returns (ok: bool)
      modifies this
      ensures (Value(), ok) == SweepKind(old(Value()), pool, gvk, keep, listings)
    {
      var list := ListOf(listings, gvk);
      if list.None? {
        return false;
      }
      var items, gk := list.value, KindOf(gvk);
      ghost var start := Value();
      for i := 0 to |items|
        invariant SweepItems(start, pool, gk, keep, items) == SweepItems(Value(), pool, gk, keep, items[i..])
      {
        var item := items[i];
        if !IsControlledBy(item.obj, pool) {
          continue;
        }
        if item.name in keep {
          continue;
        }
        var failed, uid := ConfirmOrphan(pool, gk, keep, item.name);
        if failed {
          return false;
        }
        if uid.None? {
          continue;
        }
        failed := Delete(Key(gk, item.name), uid.value);
        if failed {
          return false;
        }
      }
      return true;
    }

    method SweepAllOrphans(pool: PodPool, current: Gvk, prev: seq<GroupStatus>, reconciled: set<string>,
                           listings: Listings)
        returns (errs: nat)
      modifies this
      ensures Value() == SweepAll(old(Value()), pool, current, prev, reconciled, listings)
      ensures errs == SweepErrs(old(Value()), pool, current, prev, reconciled, listings)
    {
      errs := 0;
      var activeChildren := Active(pool);
      var reconciledChildren := ChildNames(pool, reconciled);
      var ok := SweepOrphans(pool, current, activeChildren, listings);
      if !ok {
        errs := errs + 1;
      }
      var stale := StaleWorkloadGVKs(prev, current);
      ghost var start, before := Value(), errs;
      var keep := activeChildren - reconciledChildren;
      for i := 0 to |stale|
        invariant SweepStale(start, pool, stale, keep, listings)
               == SweepStale(Value(), pool, stale[i..], keep, listings)
        invariant before + StaleErrs(start, pool, stale, keep, listings)
               == errs + StaleErrs(Value(), pool, stale[i..], keep, listings)
      {
        ok := SweepOrphans(pool, stale[i], keep, listings);
        if !ok {
          errs := errs + 1;
        }
      }
    }
  }
}
