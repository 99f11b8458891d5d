/** A port's write queue, as every task that posts to it finds it. */
module Queues {
  const DEPTH: nat := 9

  /** A queue after a post that does not wait: the item is dropped when there is no room. */
  function Queued<T>(q: seq<T>, item: T): (r: seq<T>)
    ensures |q| < DEPTH ==> r == q + [item]
    ensures |q| >= DEPTH ==> r == q
  {
    if |q| < DEPTH then q + [item] else q
  }
}
