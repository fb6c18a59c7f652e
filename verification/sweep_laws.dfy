/** Delete safety of the sweep in every interleaving, exactly when it holds for the current
    kind, and what a change of kind costs over a run. */

module SweepLaws {
  import opened Options
  import opened PodPools
  import opened Progress
  import opened ProgressRuns
  import opened Sweep

  // ---- every delete was licensed by a live read in the same pass ----

  /** Entries from `from` on: each delete directly follows the live read that found that
      very UID under that key, controlled by the pool and rejected by the keep test. */
  ghost predicate Licensed(log: seq<Entry>, start: nat, pool: PodPool, gk: GroupKind, keep: set<string>) {
    forall i :: start <= i < |log| && log[i].Deleted? ==>
      && start < i && log[i].key.gk == gk && log[i].key.name !in keep
      && log[i - 1].Confirmed? && log[i - 1].key == log[i].key
      && log[i - 1].obj.uid == log[i].uid && IsControlledBy(log[i - 1].obj, pool)
  }

  /** One candidate leaves no entry, its live read, or its live read and its delete. */
  lemma ItemLog(w: World, pool: PodPool, gk: GroupKind, keep: set<string>, item: Item) returns (more: seq<Entry>)
    ensures SweepItem(w, pool, gk, keep, item).0.log == w.log + more && |more| <= 2
    ensures 0 < |more| ==> more[0].Confirmed? && more[0].key == Key(gk, item.name)
    ensures 1 < |more| ==>
      && more[1] == Deleted(more[0].key, more[0].obj.uid)
      && IsControlledBy(more[0].obj, pool) && item.name !in keep
  {
    more := [];
    if IsControlledBy(item.obj, pool) && item.name !in keep {
      var (w1, uid) := Confirm(w, pool, gk, keep, item.name);
      var key := Key(gk, item.name);
      more := ConfirmLog(w, pool, gk, keep, item.name);
      if !CallFails(w) && uid.Some? {
        RemoveLog(w1, key, uid.value);
        if Remove(w1, key, uid.value).log != w1.log {
          more := more + [Deleted(key, uid.value)];
        }
      }
    }
  }

  lemma ConfirmLog(w: World, pool: PodPool, gk: GroupKind, keep: set<string>, name: string) returns (more: seq<Entry>)
    ensures var (w1, uid) := Confirm(w, pool, gk, keep, name);
      && w1.log == w.log + more
      && (more == [] || (|more| == 1 && more[0].Confirmed? && more[0].key == Key(gk, name)))
      && (uid.Some? ==>
           |more| == 1 && more[0].obj.uid == uid.value && IsControlledBy(more[0].obj, pool) && name !in keep)
  {
    var w1 := Advance(w);
    var key := Key(gk, name);
    more := if CallFails(w) || key !in w1.live then [] else [Confirmed(key, w1.live[key])];
  }

  lemma RemoveLog(w: World, key: Key, uid: string)
    ensures Remove(w, key, uid).log == w.log || Remove(w, key, uid).log == w.log + [Deleted(key, uid)]
  {
  }

  lemma ItemIsLicensed(w: World, pool: PodPool, gk: GroupKind, keep: set<string>, item: Item)
    ensures var w' := SweepItem(w, pool, gk, keep, item).0;
      w.log <= w'.log && Licensed(w'.log, |w.log|, pool, gk, keep)
  {
    hide SweepItem, IsControlledBy;
    var more := ItemLog(w, pool, gk, keep, item);
  }

  lemma LicensedAppends(log: seq<Entry>, mid: nat, start: nat, pool: PodPool, gk: GroupKind, keep: set<string>,
                        whole: seq<Entry>)
    requires start <= mid == |log| && log <= whole
    requires Licensed(log, start, pool, gk, keep) && Licensed(whole, mid, pool, gk, keep)
    ensures Licensed(whole, start, pool, gk, keep)
  {
    forall i | start <= i < |whole| && whole[i].Deleted?
      ensures start < i && whole[i].key.gk == gk && whole[i].key.name !in keep
      ensures whole[i - 1].Confirmed? && whole[i - 1].key == whole[i].key
      ensures whole[i - 1].obj.uid == whole[i].uid && IsControlledBy(whole[i - 1].obj, pool)
    {
      if i < mid {
        assert whole[i] == log[i];
        assert whole[i - 1] == log[i - 1];
      }
    }
  }

  lemma {:induction false} ItemsAreLicensed(w: World, pool: PodPool, gk: GroupKind, keep: set<string>, items: seq<Item>)
    ensures var w' := SweepItems(w, pool, gk, keep, items).0;
      w.log <= w'.log && Licensed(w'.log, |w.log|, pool, gk, keep)
    decreases |items|
  {
    hide SweepItem, Licensed;
    if items == [] {
      NothingIsLicensed(w.log, pool, gk, keep);
    } else {
      var (w1, ok) := SweepItem(w, pool, gk, keep, items[0]);
      ItemIsLicensed(w, pool, gk, keep, items[0]);
      if ok {
        ItemsAreLicensed(w1, pool, gk, keep, items[1..]);
        LicensedAppends(w1.log, |w1.log|, |w.log|, pool, gk, keep, SweepItems(w1, pool, gk, keep, items[1..]).0.log);
      }
    }
  }

  lemma NothingIsLicensed(log: seq<Entry>, pool: PodPool, gk: GroupKind, keep: set<string>)
    ensures Licensed(log, |log|, pool, gk, keep)
  {
  }

  lemma KindIsLicensed(w: World, pool: PodPool, gvk: Gvk, keep: set<string>, listings: Listings)
    ensures var w' := SweepKind(w, pool, gvk, keep, listings).0;
      w.log <= w'.log && Licensed(w'.log, |w.log|, pool, KindOf(gvk), keep)
  {
    hide Licensed;
    NothingIsLicensed(w.log, pool, KindOf(gvk), keep);
    if ListOf(listings, gvk).Some? {
      ItemsAreLicensed(w, pool, KindOf(gvk), keep, ListOf(listings, gvk).value);
    }
  }

  /** What licenses one delete of a whole sweep. */
  ghost predicate Justified(log: seq<Entry>, i: nat, start: nat, pool: PodPool, gks: seq<Gvk>, keep: set<string>)
    requires i < |log|
  {
    && start < i && log[i].Deleted? && log[i].key.name !in keep
    && (exists k :: k in gks && KindOf(k) == log[i].key.gk)
    && log[i - 1].Confirmed? && log[i - 1].key == log[i].key
    && log[i - 1].obj.uid == log[i].uid && IsControlledBy(log[i - 1].obj, pool)
  }

  lemma {:induction false} StaleIsJustified(w: World, pool: PodPool, stale: seq<Gvk>, keep: set<string>,
                                            listings: Listings)
    ensures var w' := SweepStale(w, pool, stale, keep, listings);
      && w.log <= w'.log
      && forall i :: |w.log| <= i < |w'.log| && w'.log[i].Deleted? ==> Justified(w'.log, i, |w.log|, pool, stale, keep)
    decreases |stale|
  {
    hide SweepKind;
    if stale != [] {
      var w1 := SweepKind(w, pool, stale[0], keep, listings).0;
      var w' := SweepStale(w1, pool, stale[1..], keep, listings);
      KindIsLicensed(w, pool, stale[0], keep, listings);
      StaleIsJustified(w1, pool, stale[1..], keep, listings);
      forall i | |w.log| <= i < |w'.log| && w'.log[i].Deleted?
        ensures Justified(w'.log, i, |w.log|, pool, stale, keep)
      {
        if i < |w1.log| {
          assert w'.log[i] == w1.log[i] && stale[0] in stale;
          assert w'.log[i - 1] == w1.log[i - 1];
        } else {
          assert Justified(w'.log, i, |w1.log|, pool, stale[1..], keep);
          var k :| k in stale[1..] && KindOf(k) == w'.log[i].key.gk;
          assert k in stale;
        }
      }
    }
  }

  /** Why one deleted child was an orphan. */
  ghost predicate Orphan(key: Key, pool: PodPool, current: Gvk, prev: seq<GroupStatus>, reconciled: set<string>) {
    || (key.gk == KindOf(current) && key.name !in Active(pool))
    || ((exists k :: k in StaleKinds(prev, current) && KindOf(k) == key.gk)
        && (key.name in Active(pool) ==> key.name in ChildNames(pool, reconciled)))
  }

  /** Whatever the lists showed and whoever moved between the calls: each object a sweep
      deletes has the UID that a live read in the same pass found under that name and kind,
      controlled by this pool, and the name is one the keep test rejects. */
  lemma DeletesAreSafe(w: World, pool: PodPool, current: Gvk, prev: seq<GroupStatus>, reconciled: set<string>,
                       listings: Listings, i: nat)
    requires |w.log| <= i < |SweepAll(w, pool, current, prev, reconciled, listings).log|
    requires SweepAll(w, pool, current, prev, reconciled, listings).log[i].Deleted?
    ensures var log := SweepAll(w, pool, current, prev, reconciled, listings).log;
      && |w.log| < i
      && log[i - 1].Confirmed? && log[i - 1].key == log[i].key && log[i - 1].obj.uid == log[i].uid
      && IsControlledBy(log[i - 1].obj, pool)
      && Orphan(log[i].key, pool, current, prev, reconciled)
  {
    hide SweepKind, StaleKinds, Active, ChildNames, IsControlledBy;
    var w1 := SweepKind(w, pool, current, Active(pool), listings).0;
    var keep := Active(pool) - ChildNames(pool, reconciled);
    var w' := SweepStale(w1, pool, StaleKinds(prev, current), keep, listings);
    KindIsLicensed(w, pool, current, Active(pool), listings);
    StaleIsJustified(w1, pool, StaleKinds(prev, current), keep, listings);
    if i < |w1.log| {
      assert w'.log[i] == w1.log[i];
      assert w'.log[i - 1] == w1.log[i - 1];
    } else {
      assert Justified(w'.log, i, |w1.log|, pool, StaleKinds(prev, current), keep);
    }
  }

  /** What one delete does to the store once the others have moved: it takes out the object under
      the key if that still has the confirmed UID and the call succeeds, and logs exactly that;
      a newcomer under the same name stays, and so does everything else. */
  lemma DeleteIsBoundToUid(w: World, key: Key, uid: string)
    ensures var w1, w' := Advance(w), Remove(w, key, uid);
      && (if (w.turns == [] || !w.turns[0].fails) && key in w1.live && w1.live[key].uid == uid
          then w'.live == w1.live - {key} && w'.log == w.log + [Deleted(key, uid)]
          else w'.live == w1.live && w'.log == w.log)
      && w1.live == (if w.turns == [] || w.turns[0].change.None? then w.live else w.turns[0].change.value)
  {
  }

  /** A live read changes nothing, and licenses the UID it found exactly when the call succeeds and
      the object is there, the pool's, and under a name the keep test rejects. */
  lemma ConfirmIsARead(w: World, pool: PodPool, gk: GroupKind, keep: set<string>, name: string)
    ensures var w1, (w', uid), key := Advance(w), Confirm(w, pool, gk, keep, name), Key(gk, name);
      && w'.live == w1.live && w'.turns == w1.turns
      && (uid.Some? <==>
           && (w.turns == [] || !w.turns[0].fails) && key in w1.live && name !in keep
           && pool.uid != "" && w1.live[key].controllerUid == Some(pool.uid))
      && (uid.Some? ==> uid.value == w1.live[key].uid)
  {
  }

  /** A candidate is passed over without a call exactly if the list shows it as someone else's or
      under a name to keep; otherwise it is read, and deleted if the read licenses it. */
  lemma CandidateExactly(w: World, pool: PodPool, gk: GroupKind, keep: set<string>, item: Item)
    ensures var (w', ok) := SweepItem(w, pool, gk, keep, item);
      var (read, uid) := Confirm(w, pool, gk, keep, item.name);
      var candidate := pool.uid != "" && item.obj.controllerUid == Some(pool.uid) && item.name !in keep;
      && (!candidate ==> w' == w && ok)
      && (candidate && w.turns != [] && w.turns[0].fails ==> w' == Advance(w) && !ok)
      && (candidate && (w.turns == [] || !w.turns[0].fails) && uid.None? ==> w' == read && ok)
      && (candidate && (w.turns == [] || !w.turns[0].fails) && uid.Some? ==>
           && w' == Remove(read, Key(gk, item.name), uid.value)
           && (ok <==> read.turns == [] || !read.turns[0].fails))
  {
  }

  /** The first failed call ends the sweep of its kind: nothing after it is read or deleted. */
  lemma FailedCallEndsTheKind(w: World, pool: PodPool, gk: GroupKind, keep: set<string>, items: seq<Item>)
    requires items != [] && IsControlledBy(items[0].obj, pool) && items[0].name !in keep
    requires w.turns != [] && w.turns[0].fails
    ensures SweepItems(w, pool, gk, keep, items) == (Advance(w), false)
  {
  }

  // ---- the current kind's children ----

  /** Some row on record names the current group and kind under another version. */
  ghost predicate VersionBump(prev: seq<GroupStatus>, current: Gvk) {
    exists k :: k in StaleKinds(prev, current) && KindOf(k) == KindOf(current)
  }

  /** No current-kind child of a group in the spec is ever deleted, whatever its labels and
      whatever the lists say -- unless the version alone changed and the group reconciled. */
  lemma CurrentChildrenSurvive(w: World, pool: PodPool, current: Gvk, prev: seq<GroupStatus>, reconciled: set<string>,
                               listings: Listings, i: nat, g: string)
    requires |w.log| <= i < |SweepAll(w, pool, current, prev, reconciled, listings).log|
    requires g in GroupNames(pool) && !(VersionBump(prev, current) && g in reconciled)
    ensures var e := SweepAll(w, pool, current, prev, reconciled, listings).log[i];
      !(e.Deleted? && e.key == Key(KindOf(current), ChildName(pool.name, g)))
  {
    hide SweepAll, StaleKinds;
    var e := SweepAll(w, pool, current, prev, reconciled, listings).log[i];
    if e.Deleted? && e.key == Key(KindOf(current), ChildName(pool.name, g)) {
      DeletesAreSafe(w, pool, current, prev, reconciled, listings, i);
      var group :| group in reconciled && ChildName(pool.name, group) == ChildName(pool.name, g);
      ChildNameInjective(pool.name, group, g);
      assert false;
    }
  }

  /** The orphans among the listed candidates, judged on the listed and on the live object. */
  ghost predicate Swept(live: Store, pool: PodPool, gk: GroupKind, keep: set<string>, items: seq<Item>, key: Key)
    requires key in live
  {
    && key.gk == gk && key.name !in keep && IsControlledBy(live[key], pool)
    && exists i :: 0 <= i < |items| && items[i].name == key.name && IsControlledBy(items[i].obj, pool)
  }

  /** With nobody else moving, a sweep succeeds and removes exactly the orphans it listed. */
  lemma {:induction false} QuietSweepIsExact(w: World, pool: PodPool, gk: GroupKind, keep: set<string>,
                                             items: seq<Item>)
    requires w.turns == []
    ensures var (w', ok) := SweepItems(w, pool, gk, keep, items);
      && ok && w'.turns == []
      && (forall key :: key in w'.live <==> key in w.live && !Swept(w.live, pool, gk, keep, items, key))
      && (forall key :: key in w'.live ==> w'.live[key] == w.live[key])
    decreases |items|
  {
    if items != [] {
      var w1 := SweepItem(w, pool, gk, keep, items[0]).0;
      QuietItem(w, pool, gk, keep, items[0]);
      QuietSweepIsExact(w1, pool, gk, keep, items[1..]);
      forall key | key in w.live
        ensures Swept(w.live, pool, gk, keep, items, key)
           <==> key !in w1.live || Swept(w1.live, pool, gk, keep, items[1..], key)
      {
        SweptSplits(w.live, pool, gk, keep, items, key);
      }
    }
  }

  lemma SweptSplits(live: Store, pool: PodPool, gk: GroupKind, keep: set<string>, items: seq<Item>, key: Key)
    requires key in live && items != []
    ensures Swept(live, pool, gk, keep, items, key)
       <==> Swept(live, pool, gk, keep, [items[0]], key) || Swept(live, pool, gk, keep, items[1..], key)
  {
    hide IsControlledBy;
    assert forall i :: 1 <= i < |items| ==> items[i] == items[1..][i - 1];
    assert [items[0]][0] == items[0];
    if Swept(live, pool, gk, keep, items[1..], key) {
      var i :| 0 <= i < |items[1..]| && items[1..][i].name == key.name && IsControlledBy(items[1..][i].obj, pool);
      assert items[i + 1] == items[1..][i];
    }
  }

  lemma QuietItem(w: World, pool: PodPool, gk: GroupKind, keep: set<string>, item: Item)
    requires w.turns == []
    ensures var (w', ok) := SweepItem(w, pool, gk, keep, item);
      && ok && w'.turns == []
      && (forall key :: key in w'.live <==> key in w.live && !Swept(w.live, pool, gk, keep, [item], key))
      && (forall key :: key in w'.live ==> w'.live[key] == w.live[key])
  {
    assert [item][0] == item;
  }

  /** The kind was listed, and the list shows a child of this name as the pool's. */
  ghost predicate Listed(listings: Listings, k: Gvk, name: string, pool: PodPool) {
    && k in listings && listings[k].Some?
    && exists i :: 0 <= i < |listings[k].value| && listings[k].value[i].name == name
         && pool.uid != "" && listings[k].value[i].obj.controllerUid == Some(pool.uid)
  }

  lemma QuietKindIsExact(w: World, pool: PodPool, k: Gvk, keep: set<string>, listings: Listings)
    requires w.turns == []
    ensures var w' := SweepKind(w, pool, k, keep, listings).0;
      && w'.turns == []
      && (forall key :: key in w'.live <==>
           key in w.live && !(key.gk == KindOf(k) && key.name !in keep && IsControlledBy(w.live[key], pool)
                              && Listed(listings, k, key.name, pool)))
      && (forall key :: key in w'.live ==> w'.live[key] == w.live[key])
  {
    if ListOf(listings, k).Some? {
      QuietSweepIsExact(w, pool, KindOf(k), keep, ListOf(listings, k).value);
      forall key | key in w.live
        ensures Swept(w.live, pool, KindOf(k), keep, ListOf(listings, k).value, key) <==>
          && key.gk == KindOf(k) && key.name !in keep
          && IsControlledBy(w.live[key], pool) && Listed(listings, k, key.name, pool)
      {
      }
    }
  }

  lemma {:induction false} QuietStaleIsExact(w: World, pool: PodPool, stale: seq<Gvk>, keep: set<string>,
                                             listings: Listings)
    requires w.turns == []
    ensures var w' := SweepStale(w, pool, stale, keep, listings);
      && (forall key :: key in w'.live <==>
           key in w.live && !(key.name !in keep && IsControlledBy(w.live[key], pool)
                              && exists k :: k in stale && KindOf(k) == key.gk && Listed(listings, k, key.name, pool)))
      && (forall key :: key in w'.live ==> w'.live[key] == w.live[key])
    decreases |stale|
  {
    hide SweepKind, Listed, IsControlledBy;
    if stale != [] {
      var w1 := SweepKind(w, pool, stale[0], keep, listings).0;
      QuietKindIsExact(w, pool, stale[0], keep, listings);
      QuietStaleIsExact(w1, pool, stale[1..], keep, listings);
      assert forall k :: k in stale <==> k == stale[0] || k in stale[1..];
    }
  }

  /** What a pass ought to remove: a child under this name that is not a group of the spec's, in
      the current kind; and in a recorded other kind one whose group, if it is in the spec at
      all, reconciled on this pass. */
  ghost predicate Due(pool: PodPool, current: Gvk, prev: seq<GroupStatus>, reconciled: set<string>, k: Gvk,
                      name: string) {
    if k == current then forall g :: g in pool.groups ==> name != pool.name + "-" + g.name
    else
      && (exists i :: 0 <= i < |prev| && prev[i].workloadRef == Some(k))
      && forall g :: g in pool.groups && name == pool.name + "-" + g.name ==> g.name in reconciled
  }

  lemma DueExactly(pool: PodPool, current: Gvk, prev: seq<GroupStatus>, reconciled: set<string>, k: Gvk, name: string)
    ensures Due(pool, current, prev, reconciled, k, name) <==>
      if k == current then name !in Active(pool)
      else k in StaleKinds(prev, current) && name !in Active(pool) - ChildNames(pool, reconciled)
  {
    if name in Active(pool) {
      var n :| n in GroupNames(pool) && name == ChildName(pool.name, n);
      var g :| g in pool.groups && g.name == n;
      assert name == pool.name + "-" + g.name;
      forall m | name == pool.name + "-" + m
        ensures m == n
      {
        ChildNameInjective(pool.name, m, n);
      }
      assert name in ChildNames(pool, reconciled) <==> n in reconciled by {
        if name in ChildNames(pool, reconciled) {
          var m :| m in reconciled && name == ChildName(pool.name, m);
          assert name == pool.name + "-" + m;
        }
      }
    } else {
      forall g | g in pool.groups
        ensures name != pool.name + "-" + g.name
      {
        assert g.name in GroupNames(pool) && ChildName(pool.name, g.name) in Active(pool);
      }
    }
  }

  /** With nobody else moving a whole pass removes exactly what is listed and due, in the
      current kind and in every recorded one, and still the pool's when read live. */
  lemma QuietPassIsExact(w: World, pool: PodPool, current: Gvk, prev: seq<GroupStatus>, reconciled: set<string>,
                         listings: Listings)
    requires w.turns == []
    ensures var w' := SweepAll(w, pool, current, prev, reconciled, listings);
      && (forall key :: key in w'.live <==>
           && key in w.live
           && !(&& pool.uid != "" && w.live[key].controllerUid == Some(pool.uid)
                && exists k: Gvk :: GroupKind(k.group, k.kind) == key.gk && Listed(listings, k, key.name, pool)
                     && Due(pool, current, prev, reconciled, k, key.name)))
      && (forall key :: key in w'.live ==> w'.live[key] == w.live[key])
  {
    hide SweepKind, SweepStale, StaleKinds, Active, ChildNames, Listed, Due;
    var keep := Active(pool) - ChildNames(pool, reconciled);
    var w1 := SweepKind(w, pool, current, Active(pool), listings).0;
    QuietKindIsExact(w, pool, current, Active(pool), listings);
    QuietStaleIsExact(w1, pool, StaleKinds(prev, current), keep, listings);
    forall k: Gvk, name: string
      ensures Due(pool, current, prev, reconciled, k, name) <==>
        if k == current then name !in Active(pool) else k in StaleKinds(prev, current) && name !in keep
    {
      DueExactly(pool, current, prev, reconciled, k, name);
    }
  }

  /** How many of the kinds have a list that failed. */
  function FailedLists(listings: Listings, kinds: seq<Gvk>): nat
    decreases |kinds|
  {
    if kinds == [] then 0
    else (if ListOf(listings, kinds[0]).None? then 1 else 0) + FailedLists(listings, kinds[1..])
  }

  lemma QuietKind(w: World, pool: PodPool, gvk: Gvk, keep: set<string>, listings: Listings)
    requires w.turns == []
    ensures var (w', ok) := SweepKind(w, pool, gvk, keep, listings);
      w'.turns == [] && (ok <==> ListOf(listings, gvk).Some?)
  {
    if ListOf(listings, gvk).Some? {
      QuietSweepIsExact(w, pool, KindOf(gvk), keep, ListOf(listings, gvk).value);
    }
  }

  lemma {:induction false} QuietStaleErrs(w: World, pool: PodPool, stale: seq<Gvk>, keep: set<string>,
                                          listings: Listings)
    requires w.turns == []
    ensures StaleErrs(w, pool, stale, keep, listings) == FailedLists(listings, stale)
    decreases |stale|
  {
    hide SweepKind;
    if stale != [] {
      QuietKind(w, pool, stale[0], keep, listings);
      QuietStaleErrs(SweepKind(w, pool, stale[0], keep, listings).0, pool, stale[1..], keep, listings);
    }
  }

  /** With nobody else moving a pass reports one error per kind it could not list, however
      many lists fail: no failure hides another. */
  lemma QuietErrorsAreFailedLists(w: World, pool: PodPool, current: Gvk, prev: seq<GroupStatus>,
                                  reconciled: set<string>, listings: Listings)
    requires w.turns == []
    ensures SweepErrs(w, pool, current, prev, reconciled, listings)
         == FailedLists(listings, [current] + StaleKinds(prev, current))
  {
    hide SweepKind, StaleKinds, Active, ChildNames;
    QuietKind(w, pool, current, Active(pool), listings);
    var w1 := SweepKind(w, pool, current, Active(pool), listings).0;
    QuietStaleErrs(w1, pool, StaleKinds(prev, current), Active(pool) - ChildNames(pool, reconciled), listings);
    assert ([current] + StaleKinds(prev, current))[1..] == StaleKinds(prev, current);
  }

  lemma OneItemIsDeleted(w: World, pool: PodPool, gk: GroupKind, keep: set<string>, name: string, obj: Object)
    requires name !in keep && IsControlledBy(obj, pool)
    requires w.turns == [] && Key(gk, name) in w.live && w.live[Key(gk, name)] == obj
    ensures SweepItems(w, pool, gk, keep, [Item(name, obj)]).0.log
         == w.log + [Confirmed(Key(gk, name), obj), Deleted(Key(gk, name), obj.uid)]
  {
    var items := [Item(name, obj)];
    var w1 := SweepItem(w, pool, gk, keep, items[0]).0;
    assert w1.log == w.log + [Confirmed(Key(gk, name), obj), Deleted(Key(gk, name), obj.uid)];
    assert SweepItems(w1, pool, gk, keep, items[1..]).0 == w1;
  }

  /** Without other actors, and when only one kind lists anything, the sweep reaches the one
      listed child and deletes it. */
  lemma {:induction false} ListedChildIsDeleted(w: World, pool: PodPool, stale: seq<Gvk>, keep: set<string>, k: Gvk,
                                                name: string, obj: Object)
    requires k in stale && name !in keep && IsControlledBy(obj, pool)
    requires w.turns == [] && Key(KindOf(k), name) in w.live && w.live[Key(KindOf(k), name)] == obj
    ensures Deleted(Key(KindOf(k), name), obj.uid)
         in SweepStale(w, pool, stale, keep, map[k := Some([Item(name, obj)])]).log
    decreases |stale|
  {
    var listings := map[k := Some([Item(name, obj)])];
    if stale[0] == k {
      var w1 := SweepKind(w, pool, k, keep, listings).0;
      OneItemIsDeleted(w, pool, KindOf(k), keep, name, obj);
      StaleIsJustified(w1, pool, stale[1..], keep, listings);
      var log := SweepStale(w1, pool, stale[1..], keep, listings).log;
      assert log[|w.log| + 1] == w1.log[|w.log| + 1];
    } else {
      assert SweepKind(w, pool, stale[0], keep, listings).0 == w;
      ListedChildIsDeleted(w, pool, stale[1..], keep, k, name, obj);
    }
  }

  /** With nobody interfering, a child of a recorded stale kind is deleted on a pass where its
      group reconciled. */
  lemma StaleChildCanGo(pool: PodPool, current: Gvk, prev: seq<GroupStatus>, reconciled: set<string>, g: string, k: Gvk)
    requires pool.uid != "" && g in GroupNames(pool) && g in reconciled && k in StaleKinds(prev, current)
    ensures exists w: World, listings: Listings ::
      w.turns == [] && w.log == []
      && Deleted(Key(KindOf(k), ChildName(pool.name, g)), "uid")
         in SweepAll(w, pool, current, prev, reconciled, listings).log
  {
    hide SweepStale, StaleKinds;
    var name := ChildName(pool.name, g);
    var obj := Object("uid", Some(pool.uid));
    var w := World(map[Key(KindOf(k), name) := obj], [], []);
    var listings: Listings := map[k := Some([Item(name, obj)])];
    assert k != current;
    assert SweepKind(w, pool, current, Active(pool), listings).0 == w;
    assert name in ChildNames(pool, reconciled);
    ListedChildIsDeleted(w, pool, StaleKinds(prev, current), Active(pool) - ChildNames(pool, reconciled), k, name, obj);
    assert Deleted(Key(KindOf(k), name), "uid") in SweepAll(w, pool, current, prev, reconciled, listings).log;
  }

  /** The exception is real: after a change of version alone, a child that has just been
      applied is deleted on the same pass even though nobody interferes. */
  lemma VersionBumpDeletesLiveChild(pool: PodPool, current: Gvk, prev: seq<GroupStatus>, reconciled: set<string>,
                                    g: string)
    requires pool.uid != "" && g in GroupNames(pool) && g in reconciled && VersionBump(prev, current)
    ensures exists w: World, listings: Listings ::
      w.turns == [] && w.log == []
      && Deleted(Key(KindOf(current), ChildName(pool.name, g)), "uid")
         in SweepAll(w, pool, current, prev, reconciled, listings).log
  {
    hide SweepAll, StaleKinds;
    var k :| k in StaleKinds(prev, current) && KindOf(k) == KindOf(current);
    StaleChildCanGo(pool, current, prev, reconciled, g, k);
  }

  /** Exactly when a pass is safe for the current-kind child of a group in the spec: in no
      world and under no list can it be deleted, if and only if the version did not change
      alone or the group did not reconcile. */
  lemma CurrentChildSafeExactly(pool: PodPool, current: Gvk, prev: seq<GroupStatus>, reconciled: set<string>, g: string)
    requires pool.uid != "" && g in GroupNames(pool)
    ensures (exists w: World, listings: Listings, uid: string ::
               w.log == [] && Deleted(Key(KindOf(current), ChildName(pool.name, g)), uid)
                 in SweepAll(w, pool, current, prev, reconciled, listings).log)
        <==> VersionBump(prev, current) && g in reconciled
  {
    hide SweepAll, StaleKinds;
    if VersionBump(prev, current) && g in reconciled {
      VersionBumpDeletesLiveChild(pool, current, prev, reconciled, g);
    } else {
      forall w: World, listings: Listings, uid: string
        ensures !(w.log == [] && Deleted(Key(KindOf(current), ChildName(pool.name, g)), uid)
                    in SweepAll(w, pool, current, prev, reconciled, listings).log)
      {
        var log := SweepAll(w, pool, current, prev, reconciled, listings).log;
        if w.log == [] && Deleted(Key(KindOf(current), ChildName(pool.name, g)), uid) in log {
          var i :| 0 <= i < |log| && log[i] == Deleted(Key(KindOf(current), ChildName(pool.name, g)), uid);
          CurrentChildrenSurvive(w, pool, current, prev, reconciled, listings, i, g);
        }
      }
    }
  }

  // ---- a change of kind over a run ----

  /** The old-kind child of a group still in the spec is deleted only on a pass where that
      group reconciled under the new kind. */
  lemma OldKindOutlivesFailure(w: World, pool: PodPool, current: Gvk, prev: seq<GroupStatus>, reconciled: set<string>,
                               listings: Listings, i: nat, g: string, gk: GroupKind)
    requires |w.log| <= i < |SweepAll(w, pool, current, prev, reconciled, listings).log|
    requires var e := SweepAll(w, pool, current, prev, reconciled, listings).log[i];
      e.Deleted? && e.key == Key(gk, ChildName(pool.name, g))
    requires g in GroupNames(pool) && gk != KindOf(current)
    ensures g in reconciled
  {
    hide SweepAll, StaleKinds;
    DeletesAreSafe(w, pool, current, prev, reconciled, listings, i);
    var group :| group in reconciled && ChildName(pool.name, group) == ChildName(pool.name, g);
    ChildNameInjective(pool.name, group, g);
  }

  /** The kind under which a group last reconciled. */
  function LatestKind(vs: seq<Visit>, n: nat): Option<Gvk>
    requires n <= |vs|
  {
    if n == 0 then None
    else if Succeeds(vs[n - 1]) then Some(vs[n - 1].gvk)
    else LatestKind(vs, n - 1)
  }

  /** Through every failing, halted and invalid pass the row keeps naming that kind. */
  lemma {:induction false} RowNamesLatestKind(name: string, generation: int, vs: seq<Visit>, n: nat)
    requires n <= |vs|
    ensures var row := MemoryAt(name, generation, vs, n).row;
      LatestKind(vs, n) == if row.None? then None else row.value.workloadRef
  {
    if 0 < n {
      RowNamesLatestKind(name, generation, vs, n - 1);
    }
  }

  /** That is the kind of the one success with none after it. */
  lemma {:induction false} LatestKindExactly(vs: seq<Visit>, n: nat, k: Gvk)
    requires n <= |vs|
    ensures LatestKind(vs, n) == Some(k) <==> exists j :: 0 <= j < n && LastSuccess(vs, n, j) && vs[j].gvk == k
  {
    if 0 < n && Succeeds(vs[n - 1]) {
      assert LastSuccess(vs, n, n - 1);
    } else if 0 < n {
      LatestKindExactly(vs, n - 1, k);
      forall j | 0 <= j < n - 1
        ensures LastSuccess(vs, n, j) <==> LastSuccess(vs, n - 1, j)
      {
      }
    }
  }

  ghost predicate LastSuccess(vs: seq<Visit>, n: nat, j: nat)
    requires j < n <= |vs|
  {
    Succeeds(vs[j]) && forall l :: j < l < n ==> !Succeeds(vs[l])
  }

  /** One pool's groups, each with its visits; all see the same passes. */
  type History = map<string, seq<Visit>>

  ghost predicate Reaches(h: History, n: nat) {
    forall g :: g in h ==> n <= |h[g]|
  }

  /** The rows before pass n are those of the groups that have one. */
  ghost predicate RowsAt(h: History, generation: int, n: nat, rows: seq<GroupStatus>)
    requires Reaches(h, n)
  {
    forall row :: row in rows <==> exists g :: g in h && MemoryAt(g, generation, h[g], n).row == Some(row)
  }

  /** Some group's replicas were last reconciled under k. */
  ghost predicate RunsUnder(h: History, n: nat, k: Gvk)
    requires Reaches(h, n)
  {
    exists g :: g in h && LatestKind(h[g], n) == Some(k)
  }

  /** A pass visits an old kind exactly when some group's latest success was under it. */
  lemma StaleKindsAreLatest(h: History, generation: int, n: nat, rows: seq<GroupStatus>, current: Gvk, k: Gvk)
    requires Reaches(h, n) && RowsAt(h, generation, n, rows)
    ensures k in StaleKinds(rows, current) <==> k != current && RunsUnder(h, n, k)
  {
    if k in StaleKinds(rows, current) {
      var i :| 0 <= i < |rows| && rows[i].workloadRef == Some(k);
      assert rows[i] in rows;
      var g :| g in h && MemoryAt(g, generation, h[g], n).row == Some(rows[i]);
      RowNamesLatestKind(g, generation, h[g], n);
    }
    if RunsUnder(h, n, k) {
      var g :| g in h && LatestKind(h[g], n) == Some(k);
      RowNamesLatestKind(g, generation, h[g], n);
      var row := MemoryAt(g, generation, h[g], n).row.value;
      assert row in rows;
      var i :| 0 <= i < |rows| && rows[i] == row;
      assert rows[i].workloadRef == Some(k);
    }
  }

  /** Some group in the history last reconciled under a version of this kind. */
  ghost predicate KindOnRecord(h: History, n: nat, gk: GroupKind)
    requires Reaches(h, n)
  {
    exists k: Gvk :: KindOf(k) == gk && RunsUnder(h, n, k)
  }

  /** Exactly when a pass can still remove the child a group in the spec left behind under
      another kind: the group reconciled under the new one, and some group's latest success
      before the pass was under the old one. */
  lemma OldChildSweptExactly(h: History, generation: int, n: nat, rows: seq<GroupStatus>, pool: PodPool, current: Gvk,
                             reconciled: set<string>, g: string, gk: GroupKind)
    requires Reaches(h, n) && RowsAt(h, generation, n, rows)
    requires pool.uid != "" && g in GroupNames(pool) && gk != KindOf(current)
    ensures (exists w: World, listings: Listings, uid: string ::
               w.log == [] && Deleted(Key(gk, ChildName(pool.name, g)), uid)
                 in SweepAll(w, pool, current, rows, reconciled, listings).log)
        <==> KindOnRecord(h, n, gk) && g in reconciled
  {
    hide SweepAll, StaleKinds, RowsAt, RunsUnder;
    if KindOnRecord(h, n, gk) && g in reconciled {
      var k :| KindOf(k) == gk && RunsUnder(h, n, k);
      StaleKindsAreLatest(h, generation, n, rows, current, k);
      StaleChildCanGo(pool, current, rows, reconciled, g, k);
    } else {
      forall w: World, listings: Listings, uid: string
        ensures !(w.log == [] && Deleted(Key(gk, ChildName(pool.name, g)), uid)
                    in SweepAll(w, pool, current, rows, reconciled, listings).log)
      {
        var log := SweepAll(w, pool, current, rows, reconciled, listings).log;
        if w.log == [] && Deleted(Key(gk, ChildName(pool.name, g)), uid) in log {
          var i :| 0 <= i < |log| && log[i] == Deleted(Key(gk, ChildName(pool.name, g)), uid);
          OldKindOutlivesFailure(w, pool, current, rows, reconciled, listings, i, g, gk);
          DeletesAreSafe(w, pool, current, rows, reconciled, listings, i);
          var k :| k in StaleKinds(rows, current) && KindOf(k) == gk;
          StaleKindsAreLatest(h, generation, n, rows, current, k);
          assert false;
        }
      }
    }
  }

  /** No success under any version of this kind from pass m up to pass n. */
  ghost predicate NeverBack(h: History, m: nat, n: nat, gk: GroupKind)
    requires Reaches(h, n)
  {
    forall g, j :: g in h && m <= j < n && Succeeds(h[g][j]) ==> KindOf(h[g][j].gvk) != gk
  }

  lemma {:induction false} ForgottenStaysForgotten(h: History, m: nat, n: nat, gk: GroupKind)
    requires m <= n && Reaches(h, m) && Reaches(h, n) && !KindOnRecord(h, m, gk) && NeverBack(h, m, n, gk)
    ensures !KindOnRecord(h, n, gk)
  {
    forall g, k: Gvk | g in h && LatestKind(h[g], n) == Some(k)
      ensures KindOf(k) != gk
    {
      LatestKindExactly(h[g], n, k);
      var j :| 0 <= j < n && LastSuccess(h[g], n, j) && h[g][j].gvk == k;
      if j < m {
        assert LastSuccess(h[g], m, j);
        LatestKindExactly(h[g], m, k);
        assert RunsUnder(h, m, k);
      }
    }
  }

  /** Every group reconciled on pass m, under another kind. */
  ghost predicate AllMoved(h: History, m: nat, gk: GroupKind)
    requires Reaches(h, m + 1)
  {
    forall g :: g in h ==> Succeeds(h[g][m]) && KindOf(h[g][m].gvk) != gk
  }

  /** The sweep has one chance: once every group has reconciled under another kind, no later
      pass, in any world and under any list, removes a child of the old kind of a group in the
      spec, unless some group goes back to it. A child whose removal failed on pass m stays. */
  lemma MissedChildIsNeverSwept(h: History, generation: int, m: nat, n: nat, rows: seq<GroupStatus>, pool: PodPool,
                                current: Gvk, reconciled: set<string>, g: string, gk: GroupKind, w: World,
                                listings: Listings, uid: string)
    requires m < n && Reaches(h, m + 1) && Reaches(h, n) && RowsAt(h, generation, n, rows)
    requires AllMoved(h, m, gk) && NeverBack(h, m + 1, n, gk)
    requires pool.uid != "" && g in GroupNames(pool) && gk != KindOf(current) && w.log == []
    ensures Deleted(Key(gk, ChildName(pool.name, g)), uid)
        !in SweepAll(w, pool, current, rows, reconciled, listings).log
  {
    hide SweepAll, StaleKinds, RowsAt;
    forall name, k: Gvk | name in h && LatestKind(h[name], m + 1) == Some(k)
      ensures KindOf(k) != gk
    {
      assert Succeeds(h[name][m]);
    }
    ForgottenStaysForgotten(h, m + 1, n, gk);
    OldChildSweptExactly(h, generation, n, rows, pool, current, reconciled, g, gk);
  }

  /** And the chance can be missed with nobody interfering: on the very pass whose rows still
      name the old kind and whose groups all reconcile, one failed list leaves the old child
      where it is. */
  lemma FailedListMissesChild(pool: PodPool, current: Gvk, k: Gvk, rows: seq<GroupStatus>, reconciled: set<string>,
                              live: Store)
    requires StaleKinds(rows, current) == [k]
    ensures var listings: Listings := map[k := None];
      && SweepAll(World(live, [], []), pool, current, rows, reconciled, listings).live == live
      && SweepErrs(World(live, [], []), pool, current, rows, reconciled, listings) == 1
  {
    hide StaleKinds, Active, ChildNames;
    var listings: Listings := map[k := None];
    var w := World(live, [], []);
    assert k in StaleKinds(rows, current);
    assert SweepKind(w, pool, current, Active(pool), listings) == (w, true);
    var keep := Active(pool) - ChildNames(pool, reconciled);
    assert SweepKind(w, pool, k, keep, listings) == (w, false);
    assert SweepStale(w, pool, [], keep, listings) == w && StaleErrs(w, pool, [], keep, listings) == 0;
    assert [k][1..] == [];
  }

  /** Such a run: a group reconciles under one kind, then under another while that pass's
      list of the old kind fails; from then on its row names the new kind only. */
  lemma OneFailedListLeaksTheChild(pool: PodPool, g: string, k: Gvk, current: Gvk, live: Store)
    requires k != current
    ensures var vs := [Full(Reconciled(3), 3, k, 1, 0), Full(Reconciled(3), 3, current, 2, 10)];
      var before, after := MemoryAt(g, 1, vs, 1).row, MemoryAt(g, 1, vs, 2).row;
      && before.Some? && after.Some?
      && SweepAll(World(live, [], []), pool, current, [before.value], {g}, map[k := None]).live == live
      && StaleKinds([after.value], current) == []
  {
    hide SweepAll;
    var vs := [Full(Reconciled(3), 3, k, 1, 0), Full(Reconciled(3), 3, current, 2, 10)];
    var before, after := GroupStatus(g, 3, 3, None, Some(k)), GroupStatus(g, 3, 3, None, Some(current));
    assert MemoryAt(g, 1, vs, 0) == Memory(None, 1);
    assert MemoryAt(g, 1, vs, 1).row == Some(before);
    assert MemoryAt(g, 1, vs, 2).row == Some(after);
    OneRowOneKind(before, k, current);
    OneRowOneKind(after, current, current);
    FailedListMissesChild(pool, current, k, [before], {g}, live);
  }

  lemma OneRowOneKind(row: GroupStatus, k: Gvk, current: Gvk)
    requires row.workloadRef == Some(k)
    ensures StaleKinds([row], current) == if k == current then [] else [k]
  {
    assert [row][..0] == [];
  }

  /** While a group keeps failing under a new kind, the kind its replicas still run under
      stays among the kinds the sweep visits. */
  lemma FailingGroupKeepsOldKindOnRecord(name: string, generation: int, vs: seq<Visit>, n: nat,
                                         prev: seq<GroupStatus>, was: Gvk, current: Gvk)
    requires n <= |vs| && LatestKind(vs, n) == Some(was)
    requires MemoryAt(name, generation, vs, n).row.Some? && MemoryAt(name, generation, vs, n).row.value in prev
    ensures was in StaleKinds(prev, current) <==> was != current
  {
    RowNamesLatestKind(name, generation, vs, n);
    var i :| 0 <= i < |prev| && prev[i] == MemoryAt(name, generation, vs, n).row.value;
    assert prev[i].workloadRef == Some(was);
  }
}
