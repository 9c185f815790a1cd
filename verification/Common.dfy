/** What every component shares: absent values, thrown errors, and visiting a set in any order. */
module Common {

  datatype Option<+T> = None | Some(value: T)

  /** A thrown JavaScript error is a `Failure` that carries its message. */
  datatype Result<+T> = Success(value: T) | Failure(error: string)

  /** One element of `rest` has been visited. */
  lemma Visit<T>(all: set<T>, rest: set<T>, done: set<T>, x: T)
    requires done <= all && rest == all - done && x in rest
    ensures done + {x} <= all && rest - {x} == all - (done + {x}) && |rest - {x}| < |rest|
  {
  }

  lemma AllVisited<T>(all: set<T>, done: set<T>)
    requires done <= all && all - done == {}
    ensures done == all
  {
    forall x | x in all ensures x in done {
      assert x !in all - done;
    }
  }

  /** Counting positions: the next one is counted if it is a hit. */
  lemma OneMorePosition(before: set<nat>, next: nat, hit: bool, after: set<nat>)
    requires next !in before
    requires forall i :: i in after <==> i in before || (hit && i == next)
    ensures |after| == |before| + if hit then 1 else 0
  {
    assert after == before + if hit then {next} else {};
  }
}
