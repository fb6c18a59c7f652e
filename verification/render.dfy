/** Rendering one group's child from the shared template (BuildChildWorkload and
    stripPastedMetadata in internal/workload/render.go). */

module Render {
  import opened Options
  import opened PodPools
  import opened JsonTrees
  import opened Merge

  const METADATA := "metadata"
  const SPEC := "spec"
  const STATUS := "status"
  const TEMPLATE := "template"
  const LABELS := "labels"
  const ANNOTATIONS := "annotations"
  const SELECTOR := "selector"
  const MATCH_LABELS := "matchLabels"
  const REPLICAS := "replicas"
  const NAME := "name"
  const NAMESPACE := "namespace"
  const OWNERS := "ownerReferences"
  const LAST_APPLIED := "kubectl.kubernetes.io/last-applied-configuration"

  const LABEL_POOL := "podpools.dev/pool"
  const LABEL_GROUP := "podpools.dev/group"
  const LABEL_MANAGED_BY := "podpools.dev/managed-by"
  const MANAGER := "podpool-controller"

  /** What a template copied from a live object brings along. */
  const PASTED: set<string> := {
    "uid", "resourceVersion", "generation", "generateName", "creationTimestamp", "deletionTimestamp",
    "finalizers", "managedFields", "selfLink", "ownerReferences"}

  datatype Built = Child(obj: Json) | BadOverrides | NoTemplate | BadSelector

  function Field(j: Json, key: string): Option<Json> {
    if j.Obj? && key in j.fields then Some(j.fields[key]) else None
  }

  function With(j: Json, key: string, v: Json): (r: Json)
    requires j.Obj?
    ensures r.Obj? && Field(r, key) == Some(v)
    ensures forall k :: k != key ==> Field(r, k) == Field(j, k)
  {
    Obj(j.fields[key := v])
  }

  function Without(j: Json, keys: set<string>): (r: Json)
    requires j.Obj?
    ensures r.Obj? && forall k :: Field(r, k) == if k in keys then None else Field(j, k)
  {
    Obj(j.fields - keys)
  }

  /** The object at a key, or a new one when there is none. */
  function ObjectAt(j: Json, key: string): (r: Json)
    ensures r.Obj?
  {
    var v := Field(j, key);
    if v.Some? && v.value.Obj? then v.value else Obj(map[])
  }

  /** Whether a nested write through this key can land: absent, or an object. */
  predicate Writable(j: Json, key: string) {
    Field(j, key).None? || Field(j, key).value.Obj?
  }

  function WithoutLastApplied(md: Json): (r: Json)
    requires md.Obj?
    ensures r.Obj?
  {
    var annotations := Field(md, ANNOTATIONS);
    if annotations.None? || !annotations.value.Obj? then md
    else
      var kept := Without(annotations.value, {LAST_APPLIED});
      if kept.fields == map[] then Without(md, {ANNOTATIONS}) else With(md, ANNOTATIONS, kept)
  }

  function StripMetadata(md: Json): (r: Json)
    requires md.Obj?
    ensures r.Obj?
  {
    WithoutLastApplied(Without(md, PASTED))
  }

  function StripPastedMetadata(obj: Json): (r: Json)
    requires obj.Obj?
    ensures r.Obj?
  {
    var bare := Without(obj, {STATUS});
    var md := Field(bare, METADATA);
    if md.Some? && md.value.Obj? then With(bare, METADATA, StripMetadata(md.value)) else bare
  }

  function ControllerLabels(pool: PodPool, group: string): map<string, Json> {
    map[LABEL_POOL := Str(pool.name), LABEL_GROUP := Str(group), LABEL_MANAGED_BY := Str(MANAGER)]
  }

  function MatchLabels(pool: PodPool, group: string): Json {
    Obj(map[LABEL_POOL := Str(pool.name), LABEL_GROUP := Str(group)])
  }

  function Owner(pool: PodPool): Json {
    Arr([Obj(map["apiVersion" := Str("podpools.dev/v1alpha1"), "kind" := Str("PodPool"), NAME := Str(pool.name),
                 "uid" := Str(pool.uid), "controller" := Bool(true), "blockOwnerDeletion" := Bool(true)])])
  }

  /** The pod template with the controller's labels; anything that is not an object makes way. */
  function LabelTemplate(template: Json, labels: map<string, Json>): (r: Json)
    requires template.Obj?
    ensures r.Obj?
  {
    var md := ObjectAt(template, METADATA);
    With(template, METADATA, With(md, LABELS, Obj(ObjectAt(md, LABELS).fields + labels)))
  }

  /** The labels the client library can read: an object whose values are all strings. */
  function ReadableLabels(md: Json): map<string, Json> {
    var labels := ObjectAt(md, LABELS).fields;
    if forall k :: k in labels ==> labels[k].Str? then labels else map[]
  }

  /** Name, namespace, labels and owner. The library's setters write through metadata only
      when it is absent or an object, and say nothing otherwise. */
  function Identify(obj: Json, pool: PodPool, group: string): Json
    requires obj.Obj?
  {
    if !Writable(obj, METADATA) then obj
    else
      var md := ObjectAt(obj, METADATA);
      var named := With(With(md, NAME, Str(ChildName(pool.name, group))), NAMESPACE, Str(pool.namespace));
      var labelled := With(named, LABELS, Obj(ReadableLabels(md) + ControllerLabels(pool, group)));
      With(obj, METADATA, With(labelled, OWNERS, Owner(pool)))
  }

  /** The template with the group's overrides; null overrides change nothing. */
  function Overridden(tmpl: Json, overrides: Option<Json>): Option<Json>
    requires tmpl.Obj?
  {
    if overrides.None? || overrides.value.Null? then Some(tmpl)
    else if !overrides.value.Obj? then None
    else Some(Merged(tmpl, overrides.value))
  }

  /** The spec a rendered child carries. */
  function RenderedSpec(spec: Json, group: string, pool: PodPool, replicas: int): Json
    requires spec.Obj? && Field(spec, TEMPLATE).Some? && Field(spec, TEMPLATE).value.Obj?
  {
    var spec1 := With(spec, TEMPLATE, LabelTemplate(Field(spec, TEMPLATE).value, ControllerLabels(pool, group)));
    var spec2 := With(spec1, SELECTOR, With(ObjectAt(spec1, SELECTOR), MATCH_LABELS, MatchLabels(pool, group)));
    With(spec2, REPLICAS, Num(replicas))
  }

  function BuildChildWorkload(tmpl: Json, overrides: Option<Json>, group: string, pool: PodPool, replicas: int): Built
    requires tmpl.Obj?
  {
    var merged := Overridden(tmpl, overrides);
    if merged.None? || !merged.value.Obj? then BadOverrides else Finished(merged.value, group, pool, replicas)
  }

  /** What becomes of the merged template. */
  function Finished(merged: Json, group: string, pool: PodPool, replicas: int): Built
    requires merged.Obj?
  {
    var obj := StripPastedMetadata(merged);
    var spec := ObjectAt(obj, SPEC);
    var template := Field(spec, TEMPLATE);
    if template.None? || !template.value.Obj? then NoTemplate
    else if !Writable(spec, SELECTOR) then BadSelector
    else Child(Identify(With(obj, SPEC, RenderedSpec(spec, group, pool, replicas)), pool, group))
  }

  // ---- what a rendered child is ----

  lemma KeysDiffer()
    ensures SPEC != METADATA && SPEC != STATUS && METADATA != STATUS
    ensures TEMPLATE != SELECTOR && TEMPLATE != REPLICAS && SELECTOR != REPLICAS
    ensures NAME != NAMESPACE && NAME != LABELS && NAME != OWNERS
    ensures NAMESPACE != LABELS && NAMESPACE != OWNERS && LABELS != OWNERS
    ensures LABEL_POOL != LABEL_GROUP && LABEL_POOL != LABEL_MANAGED_BY && LABEL_GROUP != LABEL_MANAGED_BY
  {
    assert |SPEC| == 4 && |METADATA| == 8 && |STATUS| == 6 && |TEMPLATE| == 8 && |SELECTOR| == 8 && |REPLICAS| == 8;
    assert TEMPLATE[0] == 't' && SELECTOR[0] == 's' && REPLICAS[0] == 'r';
    assert |NAME| == 4 && |NAMESPACE| == 9 && |LABELS| == 6 && |OWNERS| == 15;
    assert |LABEL_POOL| == 17 && |LABEL_GROUP| == 18 && |LABEL_MANAGED_BY| == 23;
  }

  function SpecOf(j: Json): Json {
    ObjectAt(j, SPEC)
  }

  function TemplateOf(j: Json): Json {
    ObjectAt(SpecOf(j), TEMPLATE)
  }

  ghost predicate Carries(labels: Json, expected: map<string, Json>) {
    forall k :: k in expected ==> Field(labels, k) == Some(expected[k])
  }

  /** Stripping touches metadata and status only. */
  lemma StripKeeps(obj: Json, key: string)
    requires obj.Obj? && key != METADATA && key != STATUS
    ensures Field(StripPastedMetadata(obj), key) == Field(obj, key)
    ensures Field(StripPastedMetadata(obj), STATUS).None?
    ensures Writable(StripPastedMetadata(obj), METADATA) == Writable(obj, METADATA)
  {
    KeysDiffer();
  }

  lemma IdentifyKeeps(obj: Json, pool: PodPool, group: string, key: string)
    requires obj.Obj? && key != METADATA
    ensures Field(Identify(obj, pool, group), key) == Field(obj, key)
  {
  }

  lemma RenderedSpecKeeps(spec: Json, group: string, pool: PodPool, replicas: int)
    requires spec.Obj? && Field(spec, TEMPLATE).Some? && Field(spec, TEMPLATE).value.Obj?
    ensures var r := RenderedSpec(spec, group, pool, replicas);
      var template := ObjectAt(r, TEMPLATE);
      && Field(r, REPLICAS) == Some(Num(replicas))
      && Field(ObjectAt(r, SELECTOR), MATCH_LABELS) == Some(MatchLabels(pool, group))
      && (forall k :: k != TEMPLATE && k != SELECTOR && k != REPLICAS ==> Field(r, k) == Field(spec, k))
      && (forall k :: k != METADATA ==> Field(template, k) == Field(Field(spec, TEMPLATE).value, k))
      && Carries(ObjectAt(ObjectAt(template, METADATA), LABELS), ControllerLabels(pool, group))
  {
    KeysDiffer();
  }

  lemma BuiltParts(tmpl: Json, overrides: Option<Json>, group: string, pool: PodPool, replicas: int)
    requires tmpl.Obj? && BuildChildWorkload(tmpl, overrides, group, pool, replicas).Child?
    ensures Overridden(tmpl, overrides).Some?
    ensures var child := BuildChildWorkload(tmpl, overrides, group, pool, replicas).obj;
      var merged := Overridden(tmpl, overrides).value;
      && merged.Obj? && child.Obj?
      && Field(SpecOf(merged), TEMPLATE).Some? && Field(SpecOf(merged), TEMPLATE).value.Obj?
      && SpecOf(child) == RenderedSpec(SpecOf(merged), group, pool, replicas)
      && (forall k :: k != METADATA && k != STATUS && k != SPEC ==> Field(child, k) == Field(merged, k))
      && Field(child, STATUS).None?
  {
    hide LabelTemplate, ControllerLabels, MatchLabels, Identify, StripPastedMetadata, Merged;
    KeysDiffer();
    var merged := Overridden(tmpl, overrides).value;
    var obj := StripPastedMetadata(merged);
    StripKeeps(merged, SPEC);
    var child := BuildChildWorkload(tmpl, overrides, group, pool, replicas).obj;
    var unnamed := With(obj, SPEC, RenderedSpec(SpecOf(merged), group, pool, replicas));
    assert child == Identify(unnamed, pool, group);
    IdentifyKeeps(unnamed, pool, group, SPEC);
    IdentifyKeeps(unnamed, pool, group, STATUS);
    forall k | k != METADATA && k != STATUS && k != SPEC
      ensures Field(child, k) == Field(merged, k)
    {
      IdentifyKeeps(unnamed, pool, group, k);
      StripKeeps(merged, k);
    }
  }

  /** A rendered child runs exactly the merged template's pod spec, at the controller's
      replica count, behind the controller's selector and pod labels, for any overrides. */
  lemma ChildRunsTheMergedTemplate(tmpl: Json, overrides: Option<Json>, group: string, pool: PodPool, replicas: int)
    requires tmpl.Obj? && BuildChildWorkload(tmpl, overrides, group, pool, replicas).Child?
    ensures var child := BuildChildWorkload(tmpl, overrides, group, pool, replicas).obj;
      var merged := Overridden(tmpl, overrides).value;
      && Field(TemplateOf(child), SPEC) == Field(TemplateOf(merged), SPEC)
      && Field(SpecOf(child), REPLICAS) == Some(Num(replicas))
      && Field(ObjectAt(SpecOf(child), SELECTOR), MATCH_LABELS) == Some(MatchLabels(pool, group))
      && Carries(ObjectAt(ObjectAt(TemplateOf(child), METADATA), LABELS), ControllerLabels(pool, group))
      && Field(child, STATUS).None?
  {
    hide BuildChildWorkload, RenderedSpec, ControllerLabels, MatchLabels, Merged;
    KeysDiffer();
    BuiltParts(tmpl, overrides, group, pool, replicas);
    RenderedSpecKeeps(SpecOf(Overridden(tmpl, overrides).value), group, pool, replicas);
  }

  /** Its selector asks for exactly the pool's and the group's name, and the pods of its
      template carry both: it selects its own pods, and no other group's of the pool. */
  lemma ChildSelectsItsOwnPods(tmpl: Json, overrides: Option<Json>, group: string, pool: PodPool, replicas: int)
    requires tmpl.Obj? && BuildChildWorkload(tmpl, overrides, group, pool, replicas).Child?
    ensures var child := BuildChildWorkload(tmpl, overrides, group, pool, replicas).obj;
      var wanted := map["podpools.dev/pool" := Str(pool.name), "podpools.dev/group" := Str(group)];
      var labels := ObjectAt(ObjectAt(ObjectAt(ObjectAt(child, "spec"), "template"), "metadata"), "labels");
      && Field(ObjectAt(ObjectAt(child, "spec"), "selector"), "matchLabels") == Some(Obj(wanted))
      && (forall k :: k in wanted ==> Field(labels, k) == Some(wanted[k]))
      && Field(labels, "podpools.dev/managed-by") == Some(Str("podpool-controller"))
      && (forall other: string :: other != group ==> Field(labels, "podpools.dev/group") != Some(Str(other)))
  {
    hide BuildChildWorkload;
    ChildRunsTheMergedTemplate(tmpl, overrides, group, pool, replicas);
    KeysDiffer();
  }

  /** The child bears the controller's name, namespace, owner and labels. */
  ghost predicate Identified(child: Json, group: string, pool: PodPool) {
    var md := ObjectAt(child, "metadata");
    && Field(md, "name") == Some(Str(pool.name + "-" + group))
    && Field(md, "namespace") == Some(Str(pool.namespace))
    && Field(md, "ownerReferences") == Some(Arr([Obj(map[
         "apiVersion" := Str("podpools.dev/v1alpha1"), "kind" := Str("PodPool"), "name" := Str(pool.name),
         "uid" := Str(pool.uid), "controller" := Bool(true), "blockOwnerDeletion" := Bool(true)])]))
    && Field(ObjectAt(md, "labels"), "podpools.dev/pool") == Some(Str(pool.name))
    && Field(ObjectAt(md, "labels"), "podpools.dev/group") == Some(Str(group))
    && Field(ObjectAt(md, "labels"), "podpools.dev/managed-by") == Some(Str("podpool-controller"))
  }

  lemma IdentifyWorksExactly(obj: Json, pool: PodPool, group: string)
    requires obj.Obj?
    ensures Identified(Identify(obj, pool, group), group, pool) <==> Writable(obj, METADATA)
  {
    hide ReadableLabels;
    KeysDiffer();
  }

  /** Name, namespace, owner and labels are the controller's whatever the overrides hold,
      exactly when the merged metadata is absent or an object: otherwise they are lost. */
  lemma ChildIdentityExactly(tmpl: Json, overrides: Option<Json>, group: string, pool: PodPool, replicas: int)
    requires tmpl.Obj? && BuildChildWorkload(tmpl, overrides, group, pool, replicas).Child?
    ensures Identified(BuildChildWorkload(tmpl, overrides, group, pool, replicas).obj, group, pool)
       <==> Writable(Overridden(tmpl, overrides).value, METADATA)
  {
    hide LabelTemplate, ControllerLabels, MatchLabels, Identify, Identified, StripPastedMetadata, Merged, Owner;
    KeysDiffer();
    var merged := Overridden(tmpl, overrides).value;
    var obj := StripPastedMetadata(merged);
    StripKeeps(merged, SPEC);
    var unnamed := With(obj, SPEC, RenderedSpec(SpecOf(merged), group, pool, replicas));
    assert BuildChildWorkload(tmpl, overrides, group, pool, replicas).obj == Identify(unnamed, pool, group);
    IdentifyWorksExactly(unnamed, pool, group);
    assert Field(unnamed, METADATA) == Field(obj, METADATA);
  }

  /** The loss is real: a template whose metadata is null renders a child without a name. */
  lemma NullMetadataLosesIdentity(pool: PodPool, group: string, replicas: int)
    ensures var tmpl := Obj(map[METADATA := Null, SPEC := Obj(map[TEMPLATE := Obj(map[])])]);
      var built := BuildChildWorkload(tmpl, None, group, pool, replicas);
      built.Child? && Field(built.obj, METADATA) == Some(Null) && !Identified(built.obj, group, pool)
  {
    hide LabelTemplate, MatchLabels, Identified;
    KeysDiffer();
    var tmpl := Obj(map[METADATA := Null, SPEC := Obj(map[TEMPLATE := Obj(map[])])]);
    ChildIdentityExactly(tmpl, None, group, pool, replicas);
  }

  /** What stripping leaves of metadata: no field of a live object but the owners, no record of
      what was last applied, and no annotations object emptied by its removal. */
  ghost predicate Stripped(md: Json) {
    && Field(md, "uid").None? && Field(md, "resourceVersion").None? && Field(md, "generation").None?
    && Field(md, "generateName").None? && Field(md, "creationTimestamp").None? && Field(md, "deletionTimestamp").None?
    && Field(md, "finalizers").None? && Field(md, "managedFields").None? && Field(md, "selfLink").None?
    && Field(ObjectAt(md, "annotations"), "kubectl.kubernetes.io/last-applied-configuration").None?
    && Field(md, "annotations") != Some(Obj(map[]))
  }

  lemma StrippedByKeys(md: Json)
    ensures Stripped(md) <==>
      && (forall key :: key in PASTED && key != OWNERS ==> Field(md, key).None?)
      && Field(ObjectAt(md, ANNOTATIONS), LAST_APPLIED).None?
      && Field(md, ANNOTATIONS) != Some(Obj(map[]))
  {
    hide Field;
    assert |OWNERS| == 15 && |"uid"| == 3 && |"generation"| == 10 && |"generateName"| == 12 && |"finalizers"| == 10;
    assert |"managedFields"| == 13 && |"selfLink"| == 8 && |"creationTimestamp"| == 17 && |"deletionTimestamp"| == 17;
    assert OWNERS[0] == 'o' && "resourceVersion"[0] == 'r';
  }

  lemma StripMetadataStrips(md: Json)
    requires md.Obj?
    ensures Stripped(StripMetadata(md))
  {
    assert ANNOTATIONS !in PASTED by {
      if ANNOTATIONS in PASTED {
        PastedKeys(ANNOTATIONS);
        assert false;
      }
    }
    var stripped := Without(md, PASTED);
    var r := StripMetadata(md);
    forall key | key in PASTED
      ensures Field(r, key).None?
    {
      PastedKeys(key);
      assert Field(stripped, key).None?;
    }
    StrippedByKeys(r);
  }

  lemma StripStrips(obj: Json)
    requires obj.Obj?
    ensures Stripped(ObjectAt(StripPastedMetadata(obj), METADATA))
  {
    hide Stripped, StripMetadata;
    KeysDiffer();
    NothingToStrip();
    StripMetadataStrips(ObjectAt(obj, METADATA));
  }

  lemma NothingToStrip()
    ensures Stripped(Obj(map[]))
  {
  }

  lemma IdentifyAddsOnly(obj: Json, pool: PodPool, group: string, key: string)
    requires obj.Obj? && key != NAME && key != NAMESPACE && key != LABELS && key != OWNERS
    ensures Field(ObjectAt(Identify(obj, pool, group), METADATA), key) == Field(ObjectAt(obj, METADATA), key)
  {
  }

  /** Naming and labelling bring none of it back. */
  lemma IdentifyKeepsStripped(obj: Json, pool: PodPool, group: string)
    requires obj.Obj? && Stripped(ObjectAt(obj, METADATA))
    ensures Stripped(ObjectAt(Identify(obj, pool, group), METADATA))
  {
    hide Identify, Owner, Stripped;
    var md, md' := ObjectAt(obj, METADATA), ObjectAt(Identify(obj, pool, group), METADATA);
    StrippedByKeys(md);
    StrippedByKeys(md');
    AnnotationsKey();
    IdentifyAddsOnly(obj, pool, group, ANNOTATIONS);
    forall key | key in PASTED && key != OWNERS
      ensures Field(md', key).None?
    {
      PastedKeys(key);
      IdentifyAddsOnly(obj, pool, group, key);
    }
  }

  lemma AnnotationsKey()
    ensures ANNOTATIONS != NAME && ANNOTATIONS != NAMESPACE && ANNOTATIONS != LABELS && ANNOTATIONS != OWNERS
  {
    assert |NAME| == 4 && |NAMESPACE| == 9 && |LABELS| == 6 && |ANNOTATIONS| == 11 && |OWNERS| == 15;
  }

  /** No override can bring back what a pasted template carries from a live object; owner
      references are the controller's own by then. */
  lemma PastedMetadataIsGone(tmpl: Json, overrides: Option<Json>, group: string, pool: PodPool, replicas: int)
    requires tmpl.Obj? && BuildChildWorkload(tmpl, overrides, group, pool, replicas).Child?
    ensures Stripped(ObjectAt(BuildChildWorkload(tmpl, overrides, group, pool, replicas).obj, METADATA))
  {
    hide LabelTemplate, ControllerLabels, MatchLabels, Identify, StripPastedMetadata, Merged, Owner, Stripped;
    KeysDiffer();
    var merged := Overridden(tmpl, overrides).value;
    var obj := StripPastedMetadata(merged);
    StripKeeps(merged, SPEC);
    StripStrips(merged);
    var unnamed := With(obj, SPEC, RenderedSpec(SpecOf(merged), group, pool, replicas));
    assert BuildChildWorkload(tmpl, overrides, group, pool, replicas).obj == Identify(unnamed, pool, group);
    assert Field(unnamed, METADATA) == Field(obj, METADATA);
    IdentifyKeepsStripped(unnamed, pool, group);
  }

  lemma PastedKeys(key: string)
    requires key in PASTED
    ensures key != NAME && key != NAMESPACE && key != LABELS && key != ANNOTATIONS
  {
    assert |NAME| == 4 && |NAMESPACE| == 9 && |LABELS| == 6 && |ANNOTATIONS| == 11;
    assert NAME[0] == 'n' && NAMESPACE[0] == 'n' && LABELS[0] == 'l' && ANNOTATIONS[0] == 'a';
  }
  // ---- what is kept, and when nothing is built ----

  lemma StripKeepsTheRest(md: Json, key: string)
    requires md.Obj? && key !in PASTED && key != ANNOTATIONS
    ensures Field(StripMetadata(md), key) == Field(md, key)
  {
  }

  lemma StripKeepsAnnotations(md: Json, key: string)
    requires md.Obj? && key != LAST_APPLIED
    ensures Field(ObjectAt(StripMetadata(md), ANNOTATIONS), key) == Field(ObjectAt(md, ANNOTATIONS), key)
  {
    assert ANNOTATIONS !in PASTED by {
      if ANNOTATIONS in PASTED {
        PastedKeys(ANNOTATIONS);
        assert false;
      }
    }
    var stripped := Without(md, PASTED);
    assert Field(stripped, ANNOTATIONS) == Field(md, ANNOTATIONS);
  }

  lemma StrippedMetadata(merged: Json)
    requires merged.Obj?
    ensures ObjectAt(StripPastedMetadata(merged), METADATA) == StripMetadata(ObjectAt(merged, METADATA))
  {
    KeysDiffer();
    assert Obj(map[]).fields - PASTED == map[];
  }

  lemma IdentifyKeepsLabels(obj: Json, pool: PodPool, group: string, key: string)
    requires obj.Obj? && key !in {LABEL_POOL, LABEL_GROUP, LABEL_MANAGED_BY}
    ensures var labels := ObjectAt(ObjectAt(obj, METADATA), LABELS);
      Field(ObjectAt(ObjectAt(Identify(obj, pool, group), METADATA), LABELS), key)
      == if forall k :: k in labels.fields ==> labels.fields[k].Str? then Field(labels, key) else None
  {
    hide Owner;
    KeysDiffer();
  }

  lemma LabelsNotPasted()
    ensures LABELS !in PASTED && LABELS != ANNOTATIONS
  {
    assert |LABELS| == 6 && |ANNOTATIONS| == 11;
    if LABELS in PASTED {
      PastedKeys(LABELS);
      assert false;
    }
  }

  /** Whatever is not the controller's and was not pasted comes through: every other field of the
      metadata, every other annotation, and every other label -- or none of them, if one of them is
      no string and the library cannot read them. */
  lemma ChildKeepsTheRest(tmpl: Json, overrides: Option<Json>, group: string, pool: PodPool, replicas: int, key: string)
    requires tmpl.Obj? && BuildChildWorkload(tmpl, overrides, group, pool, replicas).Child?
    ensures var md := ObjectAt(Overridden(tmpl, overrides).value, METADATA);
      var md' := ObjectAt(BuildChildWorkload(tmpl, overrides, group, pool, replicas).obj, METADATA);
      && (key !in PASTED && key != ANNOTATIONS && key != NAME && key != NAMESPACE && key != LABELS ==>
           Field(md', key) == Field(md, key))
      && (key != LAST_APPLIED ==> Field(ObjectAt(md', ANNOTATIONS), key) == Field(ObjectAt(md, ANNOTATIONS), key))
      && (key !in {LABEL_POOL, LABEL_GROUP, LABEL_MANAGED_BY} ==>
           var labels := ObjectAt(md, LABELS);
           Field(ObjectAt(md', LABELS), key)
           == if forall k :: k in labels.fields ==> labels.fields[k].Str? then Field(labels, key) else None)
  {
    hide LabelTemplate, ControllerLabels, MatchLabels, Identify, StripPastedMetadata, StripMetadata;
    hide Merged, Owner, PASTED;
    KeysDiffer();
    var merged := Overridden(tmpl, overrides).value;
    var md := ObjectAt(merged, METADATA);
    StripKeeps(merged, SPEC);
    StrippedMetadata(merged);
    var unnamed := With(StripPastedMetadata(merged), SPEC, RenderedSpec(SpecOf(merged), group, pool, replicas));
    assert ObjectAt(unnamed, METADATA) == StripMetadata(md);
    RestIsKept(unnamed, md, group, pool, key);
    LabelsAreKept(unnamed, md, group, pool, key);
  }

  lemma RestIsKept(unnamed: Json, md: Json, group: string, pool: PodPool, key: string)
    requires unnamed.Obj? && md.Obj? && ObjectAt(unnamed, METADATA) == StripMetadata(md)
    ensures var md' := ObjectAt(Identify(unnamed, pool, group), METADATA);
      && (key !in PASTED && key != ANNOTATIONS && key != NAME && key != NAMESPACE && key != LABELS ==>
           Field(md', key) == Field(md, key))
      && (key != LAST_APPLIED ==> Field(ObjectAt(md', ANNOTATIONS), key) == Field(ObjectAt(md, ANNOTATIONS), key))
  {
    hide Identify, StripMetadata, PASTED;
    AnnotationsKey();
    OwnersPasted();
    IdentifyAddsOnly(unnamed, pool, group, ANNOTATIONS);
    if key !in PASTED && key != ANNOTATIONS && key != NAME && key != NAMESPACE && key != LABELS {
      StripKeepsTheRest(md, key);
      IdentifyAddsOnly(unnamed, pool, group, key);
    }
    if key != LAST_APPLIED {
      StripKeepsAnnotations(md, key);
    }
  }

  lemma LabelsAreKept(unnamed: Json, md: Json, group: string, pool: PodPool, key: string)
    requires unnamed.Obj? && md.Obj? && ObjectAt(unnamed, METADATA) == StripMetadata(md)
    ensures var labels := ObjectAt(md, LABELS);
      key !in {LABEL_POOL, LABEL_GROUP, LABEL_MANAGED_BY} ==>
        Field(ObjectAt(ObjectAt(Identify(unnamed, pool, group), METADATA), LABELS), key)
        == if forall k :: k in labels.fields ==> labels.fields[k].Str? then Field(labels, key) else None
  {
    hide Identify, StripMetadata, PASTED;
    var labels := ObjectAt(md, LABELS);
    LabelsNotPasted();
    StripKeepsTheRest(md, LABELS);
    assert ObjectAt(ObjectAt(unnamed, METADATA), LABELS) == labels;
    if key !in {LABEL_POOL, LABEL_GROUP, LABEL_MANAGED_BY} {
      IdentifyKeepsLabels(unnamed, pool, group, key);
    }
  }

  /** So does the rest of the object, of its spec, of the selector, and of the pod template with
      its metadata and labels. */
  lemma ChildKeepsTheRestOfSpec(tmpl: Json, overrides: Option<Json>, group: string, pool: PodPool, replicas: int,
                                key: string)
    requires tmpl.Obj? && BuildChildWorkload(tmpl, overrides, group, pool, replicas).Child?
    ensures var child := BuildChildWorkload(tmpl, overrides, group, pool, replicas).obj;
      var merged := Overridden(tmpl, overrides).value;
      var pod, pod' := TemplateOf(merged), TemplateOf(child);
      && (key != METADATA && key != STATUS && key != SPEC ==> Field(child, key) == Field(merged, key))
      && (key != TEMPLATE && key != SELECTOR && key != REPLICAS ==>
           Field(SpecOf(child), key) == Field(SpecOf(merged), key))
      && (key != MATCH_LABELS ==>
           Field(ObjectAt(SpecOf(child), SELECTOR), key) == Field(ObjectAt(SpecOf(merged), SELECTOR), key))
      && (key != METADATA ==> Field(pod', key) == Field(pod, key))
      && (key != LABELS ==> Field(ObjectAt(pod', METADATA), key) == Field(ObjectAt(pod, METADATA), key))
      && (key !in {LABEL_POOL, LABEL_GROUP, LABEL_MANAGED_BY} ==>
           Field(ObjectAt(ObjectAt(pod', METADATA), LABELS), key)
           == Field(ObjectAt(ObjectAt(pod, METADATA), LABELS), key))
  {
    hide BuildChildWorkload, RenderedSpec, Merged;
    KeysDiffer();
    BuiltParts(tmpl, overrides, group, pool, replicas);
    var merged := Overridden(tmpl, overrides).value;
    SpecKeepsTheRest(SpecOf(merged), group, pool, replicas, key);
  }

  lemma SpecKeepsTheRest(spec: Json, group: string, pool: PodPool, replicas: int, key: string)
    requires spec.Obj? && Field(spec, TEMPLATE).Some? && Field(spec, TEMPLATE).value.Obj?
    ensures var spec' := RenderedSpec(spec, group, pool, replicas);
      var pod, pod' := ObjectAt(spec, TEMPLATE), ObjectAt(spec', TEMPLATE);
      && (key != TEMPLATE && key != SELECTOR && key != REPLICAS ==> Field(spec', key) == Field(spec, key))
      && (key != MATCH_LABELS ==> Field(ObjectAt(spec', SELECTOR), key) == Field(ObjectAt(spec, SELECTOR), key))
      && (key != METADATA ==> Field(pod', key) == Field(pod, key))
      && (key != LABELS ==> Field(ObjectAt(pod', METADATA), key) == Field(ObjectAt(pod, METADATA), key))
      && (key !in {LABEL_POOL, LABEL_GROUP, LABEL_MANAGED_BY} ==>
           Field(ObjectAt(ObjectAt(pod', METADATA), LABELS), key)
           == Field(ObjectAt(ObjectAt(pod, METADATA), LABELS), key))
  {
    hide LabelTemplate, ControllerLabels, MatchLabels;
    KeysDiffer();
    TemplateKeepsTheRest(ObjectAt(spec, TEMPLATE), pool, group, key);
  }

  lemma TemplateKeepsTheRest(template: Json, pool: PodPool, group: string, key: string)
    requires template.Obj?
    ensures var pod' := LabelTemplate(template, ControllerLabels(pool, group));
      && (key != METADATA ==> Field(pod', key) == Field(template, key))
      && (key != LABELS ==> Field(ObjectAt(pod', METADATA), key) == Field(ObjectAt(template, METADATA), key))
      && (key !in {LABEL_POOL, LABEL_GROUP, LABEL_MANAGED_BY} ==>
           Field(ObjectAt(ObjectAt(pod', METADATA), LABELS), key)
           == Field(ObjectAt(ObjectAt(template, METADATA), LABELS), key))
  {
  }

  lemma OwnersPasted()
    ensures OWNERS in PASTED
  {
  }

  /** When nothing is built, and why: the overrides are neither absent, null nor an object; the
      merged object has no object for a pod template; or its selector is there and is none. */
  lemma BuiltExactly(tmpl: Json, overrides: Option<Json>, group: string, pool: PodPool, replicas: int)
    requires tmpl.Obj?
    ensures var built := BuildChildWorkload(tmpl, overrides, group, pool, replicas);
      var readable := overrides.None? || overrides.value.Null? || overrides.value.Obj?;
      var merged := if overrides.Some? && overrides.value.Obj? then Merged(tmpl, overrides.value) else tmpl;
      var spec := ObjectAt(merged, "spec");
      var template := Field(spec, "template");
      var selector := Field(spec, "selector");
      var templated := template.Some? && template.value.Obj?;
      var selectable := selector.None? || selector.value.Obj?;
      && (built == BadOverrides <==> !readable)
      && (built == NoTemplate <==> readable && !templated)
      && (built == BadSelector <==> readable && templated && !selectable)
      && (built.Child? <==> readable && templated && selectable)
  {
    hide LabelTemplate, ControllerLabels, MatchLabels, Identify, StripMetadata, Merged, RenderedSpec;
    KeysDiffer();
    if overrides.None? || overrides.value.Null? || overrides.value.Obj? {
      StripKeeps(Overridden(tmpl, overrides).value, SPEC);
    }
  }
}
