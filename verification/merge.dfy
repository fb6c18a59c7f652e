/** Overrides merged into the template, against MergePatch of section 2 of RFC 7386
    (MergeMaps in internal/workload/render.go). */

module Merge {
  import opened JsonTrees

  /** MergePatch of section 2 of RFC 7386. */
  function MergePatch(target: Json, patch: Json): Json
    decreases patch
  {
    if !patch.Obj? then patch
    else
      var base := if target.Obj? then target.fields else map[];
      Obj(map k | k in base.Keys + patch.fields.Keys && (k in patch.fields ==> !patch.fields[k].Null?) ::
        if k !in patch.fields then base[k]
        else MergePatch(if k in base then base[k] else Null, patch.fields[k]))
  }

  /** The controller's merge: objects merge into objects, null deletes, all else replaces. */
  function Merged(base: Json, patch: Json): (r: Json)
    requires base.Obj? && patch.Obj?
    ensures r.Obj?
    decreases patch
  {
    Obj(map k | k in base.fields.Keys + patch.fields.Keys && (k in patch.fields ==> !patch.fields[k].Null?) ::
      if k !in patch.fields then base.fields[k]
      else if k in base.fields && base.fields[k].Obj? && patch.fields[k].Obj? then
        Merged(base.fields[k], patch.fields[k])
      else patch.fields[k])
  }

  /** The merge, key by key. */
  lemma MergedAt(base: Json, patch: Json, k: string)
    requires base.Obj? && patch.Obj?
    ensures var whole := Merged(base, patch).fields;
      && (k !in patch.fields ==> (k in whole <==> k in base.fields) && (k in whole ==> whole[k] == base.fields[k]))
      && (k in patch.fields ==> (k in whole <==> !patch.fields[k].Null?))
      && (k in patch.fields && k in whole ==> whole[k] == MergedValue(base, patch, k))
  {
  }

  function MergedValue(base: Json, patch: Json, k: string): Json
    requires base.Obj? && patch.Obj? && k in patch.fields
  {
    if k in base.fields && base.fields[k].Obj? && patch.fields[k].Obj? then Merged(base.fields[k], patch.fields[k])
    else patch.fields[k]
  }

  /** Visited keys are final, the others are still the base's. */
  ghost predicate MergedUpTo(result: map<string, Json>, base: map<string, Json>, whole: map<string, Json>,
                             done: set<string>) {
    && (forall k :: k in done ==> (k in result <==> k in whole) && (k in result ==> result[k] == whole[k]))
    && (forall k :: k !in done ==> (k in result <==> k in base) && (k in result ==> result[k] == base[k]))
  }

  lemma VisitOne(was: map<string, Json>, result: map<string, Json>, base: map<string, Json>, whole: map<string, Json>,
                 done: set<string>, k: string)
    requires MergedUpTo(was, base, whole, done)
    requires result - {k} == was - {k}
    requires (k in result <==> k in whole) && (k in result ==> result[k] == whole[k])
    ensures MergedUpTo(result, base, whole, done + {k})
  {
    assert forall j :: j != k ==> (j in result <==> j in result - {k}) && (j in was <==> j in was - {k});
    assert forall j :: j != k && j in result ==> result[j] == (result - {k})[j];
    assert forall j :: j != k && j in was ==> was[j] == (was - {k})[j];
  }

  // ---- on the heap ----

  /** What the key k becomes when v is merged into an object holding `was`. */
  ghost predicate KeyMerged(was: map<string, Json>, now: map<string, Json>, k: string, v: Json) {
    && now - {k} == was - {k}
    && (k in now <==> !v.Null?)
    && (k in now ==> now[k] == if k in was && was[k].Obj? && v.Obj? then Merged(was[k], v) else v)
  }

  /** Object into object, on the new object only. */
  method MergeUnder(r: Node, k: string, v: Node)
    requires r.Valid() && v.Valid() && r.Repr !! v.Repr && k in r.fields && r.fields[k].Sub?
    requires r.fields[k].node.Valid()
    modifies r
    ensures r.Valid() && fresh(r.Repr - old(r.Repr) - old(v.Repr))
    ensures r.Value().fields == old(r.Value().fields)[k := Merged(old(r.fields[k].node.Value()), old(v.Value()))]
    decreases v.Repr, 1
  {
    hide Merged, Node.Valid, Node.Value, Node.Apart, Storable, Below, SlotValue;
    ghost var beside := r.fields[k].node.Repr;
    SlotOf(r, k);
    SlotKinds(r.fields[k]);
    var inner := MergeMaps(r.fields[k].node, v);
    SlotKinds(Sub(inner));
    ApartFrom(r, k, beside, v.Repr, inner.Repr);
    r.Put(k, Sub(inner));
  }

  /** One round of the merge. */
  method MergeKey(r: Node, k: string, v: Slot)
    requires r.Valid() && Storable(v) && r.Repr !! Below(v)
    modifies r
    ensures r.Valid() && fresh(r.Repr - old(r.Repr) - old(Below(v)))
    ensures KeyMerged(old(r.Value().fields), r.Value().fields, k, old(SlotValue(v)))
    decreases Below(v), 2
  {
    hide Merged, Node.Valid, Node.Value, Node.Apart, Storable, Below, SlotValue;
    Keys(r);
    SlotKinds(v);
    if k in r.fields {
      SlotOf(r, k);
      SlotKinds(r.fields[k]);
    }
    if v == Leaf(Null) {
      r.Delete(k);
    } else if k in r.fields && r.fields[k].Sub? && v.Sub? {
      MergeUnder(r, k, v.node);
    } else {
      ApartFrom(r, k, {}, Below(v), Below(v));
      r.Put(k, v);
    }
  }

  /** The patch's slots still to come stay apart from the result as it takes in another. */
  lemma StillApart(patch: Node, todo: set<string>, k: string, was: set<Node>, now: set<Node>)
    requires patch.Valid() && todo <= patch.fields.Keys && k in todo
    requires forall j :: j in todo ==> Below(patch.fields[j]) !! was
    requires (now - was - Below(patch.fields[k])) !! patch.Repr
    ensures forall j :: j in todo - {k} ==> Below(patch.fields[j]) !! now
  {
    forall j, o | j in todo - {k} && o in Below(patch.fields[j])
      ensures o !in now
    {
      assert o in patch.Repr && o !in was && o !in Below(patch.fields[k]);
      assert o !in now - was - Below(patch.fields[k]);
    }
  }

  lemma AllApart(patch: Node, others: set<Node>)
    requires patch.Valid() && others !! patch.Repr
    ensures forall j :: j in patch.fields ==> Below(patch.fields[j]) !! others
  {
  }

  lemma NothingMerged(base: map<string, Json>, whole: map<string, Json>, keys: set<string>)
    ensures MergedUpTo(base, base, whole, keys - keys)
  {
  }

  /** One round advances the whole. */
  lemma RoundAdvances(was: map<string, Json>, now: map<string, Json>, from: Json, over: Json, todo: set<string>,
                      k: string)
    requires from.Obj? && over.Obj? && k in over.fields && k in todo
    requires MergedUpTo(was, from.fields, Merged(from, over).fields, over.fields.Keys - todo)
    requires KeyMerged(was, now, k, over.fields[k])
    ensures MergedUpTo(now, from.fields, Merged(from, over).fields, over.fields.Keys - (todo - {k}))
  {
    hide Merged;
    var done := over.fields.Keys - todo;
    MergedAt(from, over, k);
    VisitOne(was, now, from.fields, Merged(from, over).fields, done, k);
    assert over.fields.Keys - (todo - {k}) == done + {k};
  }

  /** The levels a patch reaches are built anew: neither the base nor the patch is written, so
      one template serves any number of merges. */
  method MergeMaps(base: Node, patch: Node) returns (r: Node)
    requires base.Valid() && patch.Valid() && base.Repr !! patch.Repr
    ensures r.Valid() && fresh(r) && fresh(r.Repr - base.Repr - patch.Repr)
    ensures base.Valid() && base.Value() == old(base.Value()) && patch.Valid() && patch.Value() == old(patch.Value())
    ensures r.Value() == Merged(base.Value(), patch.Value())
    decreases patch.Repr, 0
  {
    hide Merged, MergedUpTo, KeyMerged, Node.Valid, Node.Value, Storable, Below, SlotValue;
    Keys(patch);
    r := new Node.CopyOf(base);
    var todo := patch.fields.Keys;
    ghost var from, over := base.Value(), patch.Value();
    NothingMerged(from.fields, Merged(from, over).fields, over.fields.Keys);
    AllApart(patch, r.Repr);
    while todo != {}
      invariant todo <= over.fields.Keys
      invariant fresh(r) && r.Valid() && fresh(r.Repr - base.Repr - patch.Repr)
      invariant patch.Valid() && patch.Value() == over
      invariant todo <= patch.fields.Keys && forall k :: k in todo ==> Below(patch.fields[k]) !! r.Repr
      invariant MergedUpTo(r.Value().fields, from.fields, Merged(from, over).fields, over.fields.Keys - todo)
      decreases |todo|
    {
      var k :| k in todo;
      ghost var was, reached := r.Value().fields, r.Repr;
      SlotOf(patch, k);
      MergeKey(r, k, patch.fields[k]);
      StillApart(patch, todo, k, reached, r.Repr);
      RoundAdvances(was, r.Value().fields, from, over, todo, k);
      todo := todo - {k};
    }
    AllMerged(r.Value(), from, over);
  }

  lemma AllMerged(r: Json, from: Json, over: Json)
    requires r.Obj? && from.Obj? && over.Obj?
    requires MergedUpTo(r.fields, from.fields, Merged(from, over).fields, over.fields.Keys - {})
    ensures r == Merged(from, over)
  {
    hide Merged;
    assert over.fields.Keys - {} == over.fields.Keys;
    VisitedAll(r.fields, from, over);
  }

  lemma VisitedAll(result: map<string, Json>, base: Json, patch: Json)
    requires base.Obj? && patch.Obj?
    requires MergedUpTo(result, base.fields, Merged(base, patch).fields, patch.fields.Keys)
    ensures result == Merged(base, patch).fields
  {
    hide Merged;
    var whole := Merged(base, patch).fields;
    forall k
      ensures (k in result <==> k in whole) && (k in result ==> result[k] == whole[k])
    {
      MergedAt(base, patch, k);
    }
  }

  // ---- where the two merges agree ----

  /** No null is a member of an object at any object depth; arrays are opaque to a merge. */
  ghost predicate NullFree(j: Json)
    decreases j
  {
    j.Obj? ==> forall k :: k in j.fields ==> !j.fields[k].Null? && NullFree(j.fields[k])
  }

  /** Every object of the patch that lands on something other than an object holds no null. */
  ghost predicate LandsClean(base: Json, patch: Json)
    requires base.Obj? && patch.Obj?
    decreases patch
  {
    forall k :: k in patch.fields && patch.fields[k].Obj? ==>
      if k in base.fields && base.fields[k].Obj? then LandsClean(base.fields[k], patch.fields[k])
      else NullFree(patch.fields[k])
  }

  /** A patch that lands on nothing survives the standard merge exactly when it is null-free. */
  lemma {:induction false} LandingOnNothing(target: Json, patch: Json)
    requires !target.Obj?
    ensures MergePatch(target, patch) == patch <==> NullFree(patch)
    decreases patch
  {
    if patch.Obj? {
      var merged := MergePatch(target, patch).fields;
      forall k | k in patch.fields
        ensures MergePatch(Null, patch.fields[k]) == patch.fields[k] <==> NullFree(patch.fields[k])
        ensures k in merged ==> merged[k] == MergePatch(Null, patch.fields[k])
      {
        LandingOnNothing(Null, patch.fields[k]);
      }
      if NullFree(patch) {
        assert merged == patch.fields;
      } else {
        var k :| k in patch.fields && !(!patch.fields[k].Null? && NullFree(patch.fields[k]));
        assert k !in merged || merged[k] != patch.fields[k];
      }
    }
  }

  /** The controller's merge is the standard one exactly when the patch lands clean. */
  lemma {:induction false} MergeIsStandardExactly(base: Json, patch: Json)
    requires base.Obj? && patch.Obj?
    ensures Merged(base, patch) == MergePatch(base, patch) <==> LandsClean(base, patch)
    decreases patch
  {
    var ours, std := Merged(base, patch).fields, MergePatch(base, patch).fields;
    forall k | k in patch.fields && patch.fields[k].Obj?
      ensures k in ours && k in std
      ensures ours[k] == std[k] <==>
        if k in base.fields && base.fields[k].Obj? then LandsClean(base.fields[k], patch.fields[k])
        else NullFree(patch.fields[k])
    {
      if k in base.fields && base.fields[k].Obj? {
        MergeIsStandardExactly(base.fields[k], patch.fields[k]);
      } else {
        LandingOnNothing(if k in base.fields then base.fields[k] else Null, patch.fields[k]);
      }
    }
    assert forall k :: k in patch.fields && !patch.fields[k].Obj? ==>
      MergePatch(if k in base.fields then base.fields[k] else Null, patch.fields[k]) == patch.fields[k];
    if LandsClean(base, patch) {
      assert forall k :: k in ours <==> k in std;
      assert ours == std;
    }
  }

  /** Merging a null-free object onto itself changes nothing, and only then. */
  lemma {:induction false} SelfMerge(patch: Json)
    requires patch.Obj?
    ensures Merged(patch, patch) == patch <==> NullFree(patch)
    decreases patch
  {
    var merged := Merged(patch, patch).fields;
    forall k | k in patch.fields && patch.fields[k].Obj?
      ensures k in merged && (merged[k] == patch.fields[k] <==> NullFree(patch.fields[k]))
    {
      SelfMerge(patch.fields[k]);
    }
    if NullFree(patch) {
      assert merged == patch.fields;
    } else {
      var k :| k in patch.fields && !(!patch.fields[k].Null? && NullFree(patch.fields[k]));
      assert k !in merged || merged[k] != patch.fields[k];
    }
  }

  /** Applying the same overrides twice is applying them once, under the same exact condition. */
  lemma {:induction false} MergeIsIdempotentExactly(base: Json, patch: Json)
    requires base.Obj? && patch.Obj?
    ensures Merged(Merged(base, patch), patch) == Merged(base, patch) <==> LandsClean(base, patch)
    decreases patch
  {
    var once := Merged(base, patch);
    var twice := Merged(once, patch);
    forall k | k in patch.fields && patch.fields[k].Obj?
      ensures k in once.fields && k in twice.fields
      ensures once.fields[k] == twice.fields[k] <==>
        if k in base.fields && base.fields[k].Obj? then LandsClean(base.fields[k], patch.fields[k])
        else NullFree(patch.fields[k])
    {
      if k in base.fields && base.fields[k].Obj? {
        MergeIsIdempotentExactly(base.fields[k], patch.fields[k]);
      } else {
        SelfMerge(patch.fields[k]);
      }
    }
    if LandsClean(base, patch) {
      assert forall k :: k in once.fields <==> k in twice.fields;
      assert once.fields == twice.fields;
    }
  }

  /** The merge, key by key: what the patch does not name stays, a null removes, an object on an
      object merges, and anything else is placed as it is. */
  lemma MergedKeyByKey(base: Json, patch: Json, k: string)
    requires base.Obj? && patch.Obj?
    ensures var r := Merged(base, patch);
      && r.Obj?
      && (k !in patch.fields && k in base.fields ==> k in r.fields && r.fields[k] == base.fields[k])
      && (k !in patch.fields && k !in base.fields ==> k !in r.fields)
      && (k in patch.fields && patch.fields[k].Null? ==> k !in r.fields)
      && (k in patch.fields && !patch.fields[k].Null? ==>
           && k in r.fields
           && r.fields[k] == if patch.fields[k].Obj? && k in base.fields && base.fields[k].Obj?
                             then Merged(base.fields[k], patch.fields[k]) else patch.fields[k])
  {
  }

  /** The difference is real: a null under a key the template lacks stays in the merge, and a
      second merge removes it. */
  lemma NullSurvivesOnNothing()
    ensures var base, patch := Obj(map[]), Obj(map["a" := Obj(map["b" := Null])]);
      && Merged(base, patch) == patch
      && Merged(base, patch) != MergePatch(base, patch)
      && Merged(Merged(base, patch), patch) != Merged(base, patch)
  {
    var inner := Obj(map["b" := Null]);
    var base, patch := Obj(map[]), Obj(map["a" := inner]);
    assert inner.fields["b"].Null?;
    assert !NullFree(patch.fields["a"]);
    assert !LandsClean(base, patch);
    MergeIsStandardExactly(base, patch);
    MergeIsIdempotentExactly(base, patch);
    assert Merged(base, patch).fields == patch.fields;
  }
}
