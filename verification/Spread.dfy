/** Spreading: when a resource that is done may be looked at again. Times and durations
    are integers in nanoseconds. */
module Spread {
  import opened Cluster

  const MINUTE := 60_000_000_000

  /** Half the border in whole minutes: the shortest pause. */
  function HalfMinutes(border: int): nat {
    if border < 0 then 0 else border / (2 * MINUTE)
  }

  /** A pause between half the border and the border, `jitter` being the random draw. */
  function Pause(border: int, jitter: nat): int {
    var half := HalfMinutes(border);
    (half + if half == 0 then 0 else jitter % half) * MINUTE
  }

  /** The spec changed, or the time has come. */
  predicate Due(o: Object, now: int) {
    o.generation != o.status.observedGeneration || now > o.status.nextReconcile
  }

  predicate RefreshRequested(o: Object) {
    REFRESH_LABEL in o.labels
  }

  predicate ReconcileRequired(o: Object, now: int) {
    Due(o, now) || RefreshRequested(o)
  }
}
