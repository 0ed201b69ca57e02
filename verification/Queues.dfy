/** What the queues of the dispatcher and of the handle allocator have in common. */
module Queues {
  predicate NoDuplicates<T(==)>(q: seq<T>) {
    forall i, j :: 0 <= i < j < |q| ==> q[i] != q[j]
  }
}
