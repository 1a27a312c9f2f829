/** Interleavings of the steps of a fixed number of threads. */
module Schedules {

  /** The threads that take the steps, in order. */
  predicate Schedule(n: nat, schedule: seq<nat>) {
    forall k :: 0 <= k < |schedule| ==> schedule[k] < n
  }
}
