/** The child built as the code builds it: by editing, in place, the overrides merged into a
    deep copy of the template (BuildChildWorkload and stripPastedMetadata in
    internal/workload/render.go), against the value `Render` gives it. */

module RenderInPlace {
  import opened Options
  import opened PodPools
  import opened JsonTrees
  import opened Merge
  import opened Render

  /** Makes sure of an object under a key: what is there, or else a new one. */
  method EnsureObject(n: Node, path: seq<string>, k: string)
    requires n.Valid() && Leads(n.Value(), path)
    modifies n.Repr
    ensures n.Valid() && fresh(n.Repr - old(n.Repr))
    ensures var was := At(old(n.Value()), path);
      n.Value() == Replaced(old(n.Value()), path, With(was, k, ObjectAt(was, k)))
  {
    hide Node.Valid, Leads, At, Replaced, Storable, Below, SlotValue;
    var c := Find(n, path);
    Keys(c);
    if k in c.fields {
      SlotOf(c, k);
      SlotKinds(c.fields[k]);
    }
    if k in c.fields && c.fields[k].Sub? {
      ReplacedBySame(n.Value(), path);
      assert c.Contents[k := c.Contents[k]] == c.Contents;
    } else {
      var made := new Node();
      SlotKinds(Sub(made));
      Write(n, path, k, Some(Sub(made)));
    }
  }

  /** Writes plain entries into the object at the end of a path. */
  method PutAll(n: Node, path: seq<string>, entries: map<string, Json>)
    requires n.Valid() && Leads(n.Value(), path) && forall k :: k in entries ==> !entries[k].Obj?
    modifies n.Repr
    ensures n.Valid() && n.Repr == old(n.Repr)
    ensures n.Value() == Replaced(old(n.Value()), path, Obj(At(old(n.Value()), path).fields + entries))
  {
    hide Node.Valid, Leads, At, Replaced, Storable, Below, SlotValue, Put;
    ghost var whole := n.Value();
    ghost var was := At(whole, path).fields;
    ghost var now := was;
    var todo := entries.Keys;
    PutNothing(was, entries);
    ReplacedBySame(whole, path);
    while todo != {}
      invariant n.Valid() && n.Repr == old(n.Repr) && todo <= entries.Keys && now == Put(was, entries, todo)
      invariant n.Value() == Replaced(whole, path, Obj(now))
      decreases |todo|
    {
      var k :| k in todo;
      ReplacedAt(whole, path, Obj(now));
      ReplacedTwice(whole, path, Obj(now), Obj(now[k := entries[k]]));
      SlotKinds(Leaf(entries[k]));
      Write(n, path, k, Some(Leaf(entries[k])));
      PutOneMore(was, entries, todo, k);
      now := now[k := entries[k]];
      todo := todo - {k};
    }
    PutEverything(was, entries);
  }

  /** The object once all entries but those in todo are written. */
  ghost function Put(was: map<string, Json>, entries: map<string, Json>, todo: set<string>): map<string, Json> {
    was + (entries - todo)
  }

  lemma PutNothing(was: map<string, Json>, entries: map<string, Json>)
    ensures Put(was, entries, entries.Keys) == was
  {
  }

  lemma PutEverything(was: map<string, Json>, entries: map<string, Json>)
    ensures Put(was, entries, {}) == was + entries
  {
    assert entries - {} == entries;
  }

  lemma PutOneMore(was: map<string, Json>, entries: map<string, Json>, todo: set<string>, k: string)
    requires k in todo && todo <= entries.Keys
    ensures Put(was, entries, todo)[k := entries[k]] == Put(was, entries, todo - {k})
  {
  }

  /** Replacing something by itself changes nothing. */
  lemma {:induction false} ReplacedBySame(j: Json, path: seq<string>)
    requires Leads(j, path)
    ensures Replaced(j, path, At(j, path)) == j
    decreases |path|
  {
    if path != [] {
      ReplacedBySame(j.fields[path[0]], path[1..]);
      assert j.fields[path[0] := j.fields[path[0]]] == j.fields;
    }
  }

  lemma WithTwice(j: Json, k: string, a: Json, b: Json)
    requires j.Obj?
    ensures With(With(j, k, a), k, b) == With(j, k, b)
  {
  }

  /** The controller's labels written into a pod template. */
  method LabelInPlace(n: Node, path: seq<string>, labels: map<string, Json>)
    requires n.Valid() && Leads(n.Value(), path) && forall k :: k in labels ==> !labels[k].Obj?
    modifies n.Repr
    ensures n.Valid() && fresh(n.Repr - old(n.Repr))
    ensures n.Value() == Replaced(old(n.Value()), path, LabelTemplate(At(old(n.Value()), path), labels))
  {
    hide Node.Valid, Leads, At, Replaced, Storable, Below, SlotValue, ObjectAt;
    ghost var whole := n.Value();
    ghost var t := At(whole, path);
    ghost var md := ObjectAt(t, METADATA);
    ghost var was := ObjectAt(md, LABELS);
    EnsureObject(n, path, METADATA);
    ReplacedWithin(whole, path, With(t, METADATA, md), METADATA, With(md, LABELS, was));
    EnsureObject(n, path + [METADATA], LABELS);
    WithTwice(t, METADATA, md, With(md, LABELS, was));
    LabelsReached(whole, path, t, md, was, Obj(was.fields + labels));
    PutAll(n, path + [METADATA] + [LABELS], labels);
  }

  lemma LabelsReached(whole: Json, path: seq<string>, t: Json, md: Json, labels: Json, labels': Json)
    requires Leads(whole, path) && t.Obj? && md.Obj? && labels.Obj? && labels'.Obj?
    ensures var j := Replaced(whole, path, With(t, METADATA, With(md, LABELS, labels)));
      && Leads(j, path + [METADATA] + [LABELS]) && At(j, path + [METADATA] + [LABELS]) == labels
      && Replaced(j, path + [METADATA] + [LABELS], labels')
         == Replaced(whole, path, With(t, METADATA, With(md, LABELS, labels')))
  {
    hide Leads, At, Replaced;
    var inner, inner' := With(md, LABELS, labels), With(md, LABELS, labels');
    var j := Replaced(whole, path, With(t, METADATA, inner));
    ReplacedWithin(whole, path, With(t, METADATA, inner), METADATA, inner');
    ReplacedBelow(j, path + [METADATA], LABELS, labels');
    assert Obj(inner.fields[LABELS := labels']) == inner';
    assert With(With(t, METADATA, inner), METADATA, inner') == With(t, METADATA, inner');
  }

  // ---- short paths ----

  lemma OneDown(j: Json, a: string, v: Json)
    requires j.Obj? && a in j.fields && j.fields[a].Obj? && v.Obj?
    ensures Leads(j, [a]) && At(j, [a]) == j.fields[a] && Replaced(j, [a], v) == With(j, a, v)
  {
    assert [] + [a] == [a];
    ReplacedBelow(j, [], a, v);
  }

  lemma TwoDown(j: Json, a: string, b: string, v: Json)
    requires j.Obj? && a in j.fields && j.fields[a].Obj? && v.Obj?
    requires b in j.fields[a].fields && j.fields[a].fields[b].Obj?
    ensures Leads(j, [a, b]) && At(j, [a, b]) == j.fields[a].fields[b]
    ensures Replaced(j, [a, b], v) == With(j, a, With(j.fields[a], b, v))
  {
    assert [a] + [b] == [a, b];
    OneDown(j, a, j.fields[a]);
    OneDown(j, a, With(j.fields[a], b, v));
    ReplacedBelow(j, [a], b, v);
  }

  // ---- stripping ----

  /** Deletes what a pasted template carries. */
  method StripInPlace(n: Node)
    requires n.Valid()
    modifies n.Repr
    ensures n.Valid() && n.Repr == old(n.Repr)
    ensures n.Value() == StripPastedMetadata(old(n.Value()))
  {
    hide Node.Valid, Leads, At, Replaced, Storable, Below, SlotValue, StripMetadata, PASTED;
    KeysDiffer();
    Keys(n);
    n.Delete(STATUS);
    ghost var bare := n.Value();
    assert bare == Without(old(n.Value()), {STATUS});
    Keys(n);
    if METADATA !in n.fields {
      return;
    }
    SlotOf(n, METADATA);
    SlotKinds(n.fields[METADATA]);
    if n.fields[METADATA].Leaf? {
      return;
    }
    StripMetadataInPlace(n, bare.fields[METADATA]);
  }

  method StripMetadataInPlace(n: Node, ghost md: Json)
    requires n.Valid() && Field(n.Value(), METADATA) == Some(md) && md.Obj?
    modifies n.Repr
    ensures n.Valid() && n.Repr == old(n.Repr)
    ensures n.Value() == With(old(n.Value()), METADATA, StripMetadata(md))
  {
    hide Node.Valid, PASTED;
    DropPasted(n, md);
    DropLastApplied(n, Without(md, PASTED));
  }

  method DropPasted(n: Node, ghost md: Json)
    requires n.Valid() && Field(n.Value(), METADATA) == Some(md) && md.Obj?
    modifies n.Repr
    ensures n.Valid() && n.Repr == old(n.Repr)
    ensures n.Value() == With(old(n.Value()), METADATA, Without(md, PASTED))
  {
    hide Node.Valid, Leads, At, Replaced, Storable, Below, SlotValue, PASTED;
    ghost var was := n.Value();
    var todo := PASTED;
    assert md.fields - (PASTED - todo) == md.fields;
    assert was.fields[METADATA := md] == was.fields;
    while todo != {}
      invariant n.Valid() && n.Repr == old(n.Repr) && todo <= PASTED
      invariant n.Value() == With(was, METADATA, Obj(md.fields - (PASTED - todo)))
      decreases |todo|
    {
      var key :| key in todo;
      OneDown(n.Value(), METADATA, Obj(md.fields - (PASTED - todo) - {key}));
      Write(n, [METADATA], key, None);
      OneFewer(md.fields, PASTED, todo, key);
      todo := todo - {key};
    }
    assert PASTED - {} == PASTED;
  }

  lemma OneFewer(fields: map<string, Json>, all: set<string>, todo: set<string>, key: string)
    requires key in todo && todo <= all
    ensures fields - (all - todo) - {key} == fields - (all - (todo - {key}))
  {
  }

  method DropLastApplied(n: Node, ghost md: Json)
    requires n.Valid() && Field(n.Value(), METADATA) == Some(md) && md.Obj?
    modifies n.Repr
    ensures n.Valid() && n.Repr == old(n.Repr)
    ensures n.Value() == With(old(n.Value()), METADATA, WithoutLastApplied(md))
  {
    hide Node.Valid, Leads, At, Replaced, Storable, Below, SlotValue;
    ghost var was := n.Value();
    assert was.fields[METADATA := md] == was.fields;
    OneDown(was, METADATA, md);
    var c := Find(n, [METADATA]);
    Keys(c);
    if ANNOTATIONS !in c.fields {
      return;
    }
    SlotOf(c, ANNOTATIONS);
    SlotKinds(c.fields[ANNOTATIONS]);
    if c.fields[ANNOTATIONS].Leaf? {
      return;
    }
    ghost var kept := Without(md.fields[ANNOTATIONS], {LAST_APPLIED});
    TwoDown(was, METADATA, ANNOTATIONS, kept);
    Write(n, [METADATA, ANNOTATIONS], LAST_APPLIED, None);
    PruneAnnotations(n, was, md, kept);
  }

  /** Removes the annotations object if it is left empty. */
  method PruneAnnotations(n: Node, ghost was: Json, ghost md: Json, ghost kept: Json)
    requires n.Valid() && was.Obj? && md.Obj? && kept.Obj?
    requires n.Value() == With(was, METADATA, With(md, ANNOTATIONS, kept))
    modifies n.Repr
    ensures n.Valid() && n.Repr == old(n.Repr)
    ensures n.Value() == With(was, METADATA,
      if kept.fields == map[] then Without(md, {ANNOTATIONS}) else With(md, ANNOTATIONS, kept))
  {
    hide Node.Valid, Leads, At, Replaced, Storable, Below, SlotValue, With, Without, Written;
    Pruned(was, md, kept);
    var annotations := Find(n, [METADATA, ANNOTATIONS]);
    Keys(annotations);
    EmptyByKeys(kept.fields, annotations.fields);
    if |annotations.fields| == 0 {
      Write(n, [METADATA], ANNOTATIONS, None);
    }
  }

  lemma Pruned(was: Json, md: Json, kept: Json)
    requires was.Obj? && md.Obj? && kept.Obj?
    ensures var j := With(was, METADATA, With(md, ANNOTATIONS, kept));
      && Leads(j, [METADATA]) && Leads(j, [METADATA, ANNOTATIONS]) && At(j, [METADATA, ANNOTATIONS]) == kept
      && Replaced(j, [METADATA], Written(At(j, [METADATA]), ANNOTATIONS, None))
         == With(was, METADATA, Without(md, {ANNOTATIONS}))
  {
    hide Leads, At, Replaced;
    var held, pruned := With(md, ANNOTATIONS, kept), Without(md, {ANNOTATIONS});
    TwoDown(With(was, METADATA, held), METADATA, ANNOTATIONS, kept);
    OneDown(With(was, METADATA, held), METADATA, pruned);
    assert held.fields - {ANNOTATIONS} == pruned.fields;
    WithTwice(was, METADATA, held, pruned);
  }

  lemma EmptyByKeys<V, W>(a: map<string, V>, b: map<string, W>)
    requires a.Keys == b.Keys
    ensures a == map[] <==> |b| == 0
  {
    assert |b.Keys| == |b|;
    if |b| == 0 {
      assert b.Keys == {};
      assert a == map[];
    }
  }

  // ---- identity ----

  lemma AtTop(j: Json)
    requires j.Obj?
    ensures Leads(j, []) && At(j, []) == j && forall v: Json :: v.Obj? ==> Replaced(j, [], v) == v
  {
  }

  /** One field of the metadata. */
  method SetMetadata(n: Node, ghost was: Json, ghost md: Json, k: string, slot: Slot)
    requires n.Valid() && was.Obj? && md.Obj? && n.Value() == With(was, METADATA, md)
    requires Storable(slot) && Below(slot) !! n.Repr
    modifies n.Repr
    ensures n.Valid() && n.Repr == old(n.Repr) + old(Below(slot))
    ensures n.Value() == With(was, METADATA, With(md, k, old(SlotValue(slot))))
  {
    hide Node.Valid, Leads, At, Replaced, Storable, Below, SlotValue;
    OneDown(n.Value(), METADATA, With(md, k, SlotValue(slot)));
    Write(n, [METADATA], k, Some(slot));
  }

  /** The labels the library reads back: none unless all of them are strings. */
  method LabelsOf(md: Node) returns (labels: map<string, Json>)
    requires md.Valid()
    ensures labels == ReadableLabels(md.Value())
    ensures forall k :: k in labels ==> !labels[k].Obj?
  {
    Keys(md);
    labels := map[];
    if LABELS in md.fields {
      SlotOf(md, LABELS);
      SlotKinds(md.fields[LABELS]);
      if md.fields[LABELS].Sub? {
        var c := md.fields[LABELS].node;
        labels := StringsOf(c);
      }
    }
  }

  method StringsOf(c: Node) returns (m: map<string, Json>)
    requires c.Valid()
    ensures m == if forall k :: k in c.Value().fields ==> c.Value().fields[k].Str? then c.Value().fields else map[]
    ensures forall k :: k in m ==> !m[k].Obj?
  {
    hide Node.Valid, Storable;
    Keys(c);
    m := map[];
    var todo := c.fields.Keys;
    while todo != {}
      invariant todo <= c.fields.Keys
      invariant forall k :: k in m <==> k in c.fields && k !in todo
      invariant forall k :: k in m ==> m[k].Str? && m[k] == c.Value().fields[k]
      decreases |todo|
    {
      var k :| k in todo;
      todo := todo - {k};
      SlotOf(c, k);
      SlotKinds(c.fields[k]);
      if !(c.fields[k].Leaf? && c.fields[k].j.Str?) {
        return map[];
      }
      m := m[k := c.fields[k].j];
    }
  }

  /** Name, namespace, labels and owner through the library's setters. */
  method IdentifyInPlace(n: Node, pool: PodPool, group: string)
    requires n.Valid()
    modifies n.Repr
    ensures n.Valid() && fresh(n.Repr - old(n.Repr))
    ensures n.Value() == Identify(old(n.Value()), pool, group)
  {
    hide Node.Valid, Leads, At, Replaced, Storable, Below, SlotValue, Owner, ControllerLabels, ReadableLabels;
    KeysDiffer();
    ghost var was := n.Value();
    Keys(n);
    if METADATA in n.fields {
      SlotOf(n, METADATA);
      SlotKinds(n.fields[METADATA]);
      if n.fields[METADATA].Leaf? {
        return;
      }
    }
    ghost var md := ObjectAt(was, METADATA);
    AtTop(was);
    EnsureObject(n, [], METADATA);
    OneDown(n.Value(), METADATA, md);
    var c := Find(n, [METADATA]);
    var labels := LabelsOf(c);
    labels := labels + ControllerLabels(pool, group);
    FlatLabels(pool, group);
    ghost var named := With(md, NAME, Str(ChildName(pool.name, group)));
    ghost var placed := With(named, NAMESPACE, Str(pool.namespace));
    SlotKinds(Leaf(Str(ChildName(pool.name, group))));
    SetMetadata(n, was, md, NAME, Leaf(Str(ChildName(pool.name, group))));
    SlotKinds(Leaf(Str(pool.namespace)));
    SetMetadata(n, was, named, NAMESPACE, Leaf(Str(pool.namespace)));
    var written := new Node.Flat(labels);
    SlotKinds(Sub(written));
    SetMetadata(n, was, placed, LABELS, Sub(written));
    SlotKinds(Leaf(Owner(pool)));
    OwnerIsFlat(pool);
    SetMetadata(n, was, With(placed, LABELS, Obj(labels)), OWNERS, Leaf(Owner(pool)));
  }

  lemma FlatLabels(pool: PodPool, group: string)
    ensures forall k :: k in ControllerLabels(pool, group) ==> !ControllerLabels(pool, group)[k].Obj?
  {
  }

  lemma OwnerIsFlat(pool: PodPool)
    ensures !Owner(pool).Obj?
  {
  }

  // ---- the child ----

  datatype Made = MadeChild(node: Node) | Refused(why: Built)

  /** The selector and the replica count, by the library's nested setters. */
  method SetScale(n: Node, ghost spec: Json, pool: PodPool, group: string, replicas: int)
    requires n.Valid() && Field(n.Value(), SPEC) == Some(spec) && spec.Obj? && Writable(spec, SELECTOR)
    modifies n.Repr
    ensures n.Valid() && fresh(n.Repr - old(n.Repr))
    ensures var chosen := With(ObjectAt(spec, SELECTOR), MATCH_LABELS, MatchLabels(pool, group));
      var selecting := With(spec, SELECTOR, chosen);
      n.Value() == With(old(n.Value()), SPEC, With(selecting, REPLICAS, Num(replicas)))
  {
    hide Node.Valid, Leads, At, Replaced, Storable, Below, SlotValue, ObjectAt;
    KeysDiffer();
    ghost var was := n.Value();
    ghost var held := ObjectAt(spec, SELECTOR);
    ghost var chosen := With(held, MATCH_LABELS, MatchLabels(pool, group));
    OneDown(was, SPEC, With(spec, SELECTOR, held));
    EnsureObject(n, [SPEC], SELECTOR);
    TwoDown(n.Value(), SPEC, SELECTOR, chosen);
    var selector := new Node.Flat(MatchLabels(pool, group).fields);
    SlotKinds(Sub(selector));
    Write(n, [SPEC, SELECTOR], MATCH_LABELS, Some(Sub(selector)));
    ghost var selecting := With(spec, SELECTOR, chosen);
    WithTwice(spec, SELECTOR, held, chosen);
    WithTwice(was, SPEC, With(spec, SELECTOR, held), selecting);
    OneDown(n.Value(), SPEC, With(selecting, REPLICAS, Num(replicas)));
    WithTwice(was, SPEC, selecting, With(selecting, REPLICAS, Num(replicas)));
    SlotKinds(Leaf(Num(replicas)));
    Write(n, [SPEC], REPLICAS, Some(Leaf(Num(replicas))));
  }

  /** Overrides as the decoder hands them over; the template and the overrides share nothing. */
  ghost predicate Decoded(tmpl: Node, overrides: Option<Slot>)
    reads tmpl, tmpl.Repr, if overrides.Some? then Below(overrides.value) else {}
    reads if overrides.Some? && overrides.value.Sub? then {overrides.value.node} else {}
  {
    tmpl.Valid() && (overrides.Some? ==> Storable(overrides.value) && Below(overrides.value) !! tmpl.Repr)
  }

  ghost function Given(overrides: Option<Slot>): Option<Json>
    reads if overrides.Some? && overrides.value.Sub? then {overrides.value.node} else {}
  {
    if overrides.Some? then Some(SlotValue(overrides.value)) else None
  }

  /** The overrides merged into a deep copy of the template; nothing that was there is written. */
  method MergedCopy(tmpl: Node, overrides: Option<Slot>) returns (ok: bool, obj: Node)
    requires Decoded(tmpl, overrides)
    ensures obj.Valid() && fresh(obj.Repr - if overrides.Some? then Below(overrides.value) else {})
    ensures Overridden(tmpl.Value(), Given(overrides)) == if ok then Some(obj.Value()) else None
  {
    hide Node.Valid, Storable, Below, SlotValue, Merged;
    obj := DeepCopy(tmpl);
    if overrides.Some? {
      SlotKinds(overrides.value);
      if overrides.value.Sub? {
        obj := MergeMaps(obj, overrides.value.node);
      } else if overrides.value != Leaf(Null) {
        return false, obj;
      }
    }
    ok := true;
  }

  /** Labels, selects, scales and names a stripped object that has a template. */
  method Complete(obj: Node, ghost spec: Json, group: string, pool: PodPool, replicas: int)
    requires obj.Valid() && Field(obj.Value(), SPEC) == Some(spec) && spec.Obj?
    requires Field(spec, TEMPLATE).Some? && Field(spec, TEMPLATE).value.Obj? && Writable(spec, SELECTOR)
    modifies obj.Repr
    ensures obj.Valid() && fresh(obj.Repr - old(obj.Repr))
    ensures obj.Value()
         == Identify(With(old(obj.Value()), SPEC, RenderedSpec(spec, group, pool, replicas)), pool, group)
  {
    hide Node.Valid, Leads, At, Replaced, LabelTemplate, ControllerLabels, MatchLabels, Identify, ObjectAt;
    KeysDiffer();
    ghost var bare := obj.Value();
    ghost var labelled := LabelTemplate(spec.fields[TEMPLATE], ControllerLabels(pool, group));
    TwoDown(bare, SPEC, TEMPLATE, labelled);
    FlatLabels(pool, group);
    LabelInPlace(obj, [SPEC, TEMPLATE], ControllerLabels(pool, group));
    ghost var spec1 := With(spec, TEMPLATE, labelled);
    SetScale(obj, spec1, pool, group, replicas);
    WithTwice(bare, SPEC, spec1, RenderedSpec(spec, group, pool, replicas));
    IdentifyInPlace(obj, pool, group);
  }

  /** Everything after the merge. */
  method Finish(obj: Node, group: string, pool: PodPool, replicas: int) returns (made: Made)
    requires obj.Valid()
    modifies obj.Repr
    ensures var built := Finished(old(obj.Value()), group, pool, replicas);
      && (made.MadeChild? ==> made.node.Valid() && built == Child(made.node.Value()))
      && (made.Refused? ==> built == made.why && !built.Child?)
    ensures made.MadeChild? ==> made.node == obj && fresh(obj.Repr - old(obj.Repr))
  {
    hide Node.Valid, Leads, At, Replaced, Storable, Below, SlotValue;
    hide StripPastedMetadata, LabelTemplate, ControllerLabels, MatchLabels, Identify;
    StripInPlace(obj);
    ghost var bare := obj.Value();
    Keys(obj);
    if SPEC !in obj.fields {
      return Refused(NoTemplate);
    }
    SlotOf(obj, SPEC);
    SlotKinds(obj.fields[SPEC]);
    if obj.fields[SPEC].Leaf? {
      return Refused(NoTemplate);
    }
    var spec := obj.fields[SPEC].node;
    Keys(spec);
    if TEMPLATE !in spec.fields {
      return Refused(NoTemplate);
    }
    SlotOf(spec, TEMPLATE);
    SlotKinds(spec.fields[TEMPLATE]);
    if spec.fields[TEMPLATE].Leaf? {
      return Refused(NoTemplate);
    }
    if SELECTOR in spec.fields {
      SlotOf(spec, SELECTOR);
      SlotKinds(spec.fields[SELECTOR]);
      if spec.fields[SELECTOR].Leaf? {
        return Refused(BadSelector);
      }
    }
    Complete(obj, bare.fields[SPEC], group, pool, replicas);
    made := MadeChild(obj);
  }

  /** Copies the template, merges, strips, labels, selects, scales and names, all in place on
      what the copy and the decoder made: the shared template is as it was, and the child is the
      one `BuildChildWorkload` describes. */
  method BuildChild(tmpl: Node, overrides: Option<Slot>, group: string, pool: PodPool, replicas: int)
      returns (made: Made)
    requires Decoded(tmpl, overrides)
    modifies if overrides.Some? then Below(overrides.value) else {}
    ensures tmpl.Valid() && tmpl.Value() == old(tmpl.Value())
    ensures made.MadeChild? ==> made.node.Repr !! tmpl.Repr
    ensures var built := BuildChildWorkload(old(tmpl.Value()), old(Given(overrides)), group, pool, replicas);
      && (made.MadeChild? ==> made.node.Valid() && built == Child(made.node.Value()))
      && (made.Refused? ==> built == made.why && !built.Child?)
  {
    hide Node.Valid, Storable, Below, SlotValue, Finished, Merged;
    Keys(tmpl);
    var ok, obj := MergedCopy(tmpl, overrides);
    if !ok {
      return Refused(BadOverrides);
    }
    made := Finish(obj, group, pool, replicas);
  }
}
