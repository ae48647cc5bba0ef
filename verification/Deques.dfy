/** Bounded deques: appending to a full one drops its oldest element. */
module Deques {

  function LastN<T>(xs: seq<T>, capacity: nat): seq<T> {
    if |xs| <= capacity then xs else xs[|xs| - capacity..]
  }

  /** Pushing one at a time keeps exactly the last `n` elements ever pushed. */
  lemma LastNAppend<T>(xs: seq<T>, x: T, n: nat)
    ensures LastN(LastN(xs, n) + [x], n) == LastN(xs + [x], n)
  {
  }
}
