/** The owner the controller writes into a child, read back by the test it decides ownership
    with (isControlledBy in internal/controller/errors.go). */

module Ownership {
  import opened Options
  import opened PodPools
  import opened JsonTrees
  import opened Render
  import opened Sweep

  /** The UID of the first owner reference marked as the controller. */
  function ControllerUid(child: Json): Option<string> {
    var owners := Field(ObjectAt(child, "metadata"), "ownerReferences");
    if owners.Some? && owners.value.Arr? then FirstController(owners.value.items) else None
  }

  function FirstController(owners: seq<Json>): Option<string> {
    if owners == [] then None
    else if Field(owners[0], "controller") == Some(Bool(true)) then
      var uid := Field(owners[0], "uid");
      if uid.Some? && uid.value.Str? then Some(uid.value.s) else Some("")
    else FirstController(owners[1..])
  }

  lemma OwnerIsController(pool: PodPool)
    ensures Owner(pool).Arr? && FirstController(Owner(pool).items) == Some(pool.uid)
  {
    assert |"controller"| == 10 && |"uid"| == 3 && |"kind"| == 4 && |"name"| == 4 && |"blockOwnerDeletion"| == 18;
    assert "apiVersion"[0] == 'a' && "controller"[0] == 'c';
  }

  /** Metadata that is no object is left as it is. */
  lemma UnwritableStays(merged: Json, group: string, pool: PodPool, replicas: int)
    requires merged.Obj? && !Writable(merged, METADATA) && Finished(merged, group, pool, replicas).Child?
    ensures Field(Finished(merged, group, pool, replicas).obj, METADATA) == Field(merged, METADATA)
  {
    hide LabelTemplate, ControllerLabels, MatchLabels;
    KeysDiffer();
    StripKeeps(merged, SPEC);
  }

  /** What the controller renders it recognises as its own, exactly when the merged metadata is
      absent or an object. */
  lemma RenderedChildIsOursExactly(tmpl: Json, overrides: Option<Json>, group: string, pool: PodPool, replicas: int,
                                   uid: string)
    requires tmpl.Obj? && BuildChildWorkload(tmpl, overrides, group, pool, replicas).Child? && pool.uid != ""
    ensures var child := BuildChildWorkload(tmpl, overrides, group, pool, replicas).obj;
      IsControlledBy(Object(uid, ControllerUid(child)), pool) <==> Writable(Overridden(tmpl, overrides).value, METADATA)
  {
    hide Overridden, Finished, FirstController;
    var merged := Overridden(tmpl, overrides).value;
    ChildIdentityExactly(tmpl, overrides, group, pool, replicas);
    if Writable(merged, METADATA) {
      OwnerIsController(pool);
    } else {
      UnwritableStays(merged, group, pool, replicas);
    }
  }
}
