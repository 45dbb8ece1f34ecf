/**
 * The scheduler's view of a task and a node, reduced to what the plugin
 * reads: resource vectors keyed by resource name.
 */
module Api {

  /** `k8sFramework.MaxNodeScore`. */
  const MaxNodeScore: int := 100

  /** A resource vector (`api.Resource`); quantities are exact rationals. */
  type ResourceVector = map<string, real>

  /** `Resource.Get`: a resource the vector does not hold reads as 0. */
  function Get(v: ResourceVector, name: string): (q: real)
    ensures name !in v ==> q == 0.0
    ensures name in v ==> q == v[name]
  {
    if name in v then v[name] else 0.0
  }

  /** Every quantity is non-negative, as the scheduler keeps them. */
  predicate NonNegative(v: ResourceVector) {
    forall k :: k in v ==> v[k] >= 0.0
  }

  /**
   * `api.TaskInfo`: the requested vector `resreq`, and `resourceNames`, the
   * list `resreq.ResourceNames()` returns, in its iteration order.
   */
  datatype Task = Task(resreq: ResourceVector, resourceNames: seq<string>)

  /** `api.NodeInfo`: its capacity, allocatable and used vectors. */
  datatype Node = Node(capacity: ResourceVector, allocatable: ResourceVector, used: ResourceVector)
}
