/**
 * The shared tables a request carries: the insert-once runner table, the
 * resource array, and the per-request compatibility state that points at
 * them. Their classes are only used through the contracts below.
 */
module FallbackTables {
  import opened Wrappers
  import opened FallbackValues

  /** OpKernelRunnerTable: runners keyed by the op key the graph assigned. */
  class RunnerTable {
    var runners: map<int, Runner>

    constructor ()
      ensures runners == map[]
    {
      runners := map[];
    }

    /** Insert fails on a key that already has a runner, which is kept. */
    method Insert(key: int, runner: Runner) returns (inserted: bool)
      modifies this
      ensures inserted == (key !in old(runners))
      ensures inserted ==> runners == old(runners)[key := runner]
      ensures !inserted ==> runners == old(runners)
    {
      inserted := key !in runners;
      if inserted {
        runners := runners[key := runner];
      }
    }

    /** The runner under key, or None. */
    method Get(key: int) returns (r: Option<Runner>)
      ensures key in runners ==> r == Some(runners[key])
      ensures key !in runners ==> r == None
    {
      r := if key in runners then Some(runners[key]) else None;
    }
  }

  /** FallbackResourceArray: long-lived resources by index. Each entry is an
      async value holding an immutable tensor; readers share that cell. */
  class ResourceArray {
    var resources: map<int, AsyncValue>

    constructor ()
      ensures resources == map[]
    {
      resources := map[];
    }

    /** Stores t as an immutable tensor at index; the last write wins. */
    method SetResource(index: int, t: Tensor)
      modifies this
      ensures index in resources && fresh(resources[index])
      ensures resources[index].state == Available(Fallback(FallbackTensor(t, true)))
      ensures forall i :: i in old(resources) && i != index ==> i in resources && resources[i] == old(resources)[i]
      ensures resources.Keys == old(resources).Keys + {index}
    {
      var cell := new AsyncValue(Available(Fallback(FallbackTensor(t, true))));
      resources := resources[index := cell];
    }

    /** The cell stored at index; reading an unset index is a contract
        violation the source only debug-checks. */
    method GetResource(index: int) returns (cell: AsyncValue)
      requires index in resources
      ensures cell == resources[index]
    {
      cell := resources[index];
    }
  }

  /** KernelFallbackCompatRequestState, reduced to what the core reads: the
      runner table, the resource array, the optional custom device, and an
      opaque identity for the request-scoped parameter fields (step container,
      runner, collective executor, rendezvous, session metadata, cancellation
      manager). */
  datatype RequestState = RequestState(
    runnerTable: RunnerTable,
    resourceArray: ResourceArray,
    customDevice: Option<string>,
    handles: int)
}
