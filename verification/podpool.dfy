/** The pool as the controller reads it (api/v1alpha1/podpool_types.go), and the one
    definition of a child's name (internal/workload/render.go). */

module PodPools {
  import opened Options
  import opened Scaling

  datatype PodPool = PodPool(
    namespace: string,
    name: string,
    uid: string,
    replicas: int32,
    groups: seq<GroupSpec>,
    heartbeatSeconds: Option<int32>)

  function GroupNames(pool: PodPool): set<string> {
    set g | g in pool.groups :: g.name
  }

  function ChildName(poolName: string, groupName: string): string {
    poolName + "-" + groupName
  }

  /** Within one pool a child's name determines its group. */
  lemma ChildNameInjective(pool: string, a: string, b: string)
    requires ChildName(pool, a) == ChildName(pool, b)
    ensures a == b
  {
    var p := pool + "-";
    assert ChildName(pool, a) == p + a && ChildName(pool, b) == p + b;
    assert (p + a)[|p|..] == a && (p + b)[|p|..] == b;
  }
}
