/**
 * The pieces of Ruby's Range and Enumerable that the scripts rely on,
 * written as pure functions over sequences.
 */
module Enumerable {

  /** The elements of the inclusive Ruby range `lo..hi`, in order; empty when `lo > hi`. */
  function Range(lo: int, hi: int): (r: seq<int>)
    ensures |r| == if lo <= hi then hi - lo + 1 else 0
    ensures forall i :: 0 <= i < |r| ==> r[i] == lo + i
    decreases if lo <= hi then hi - lo + 1 else 0
  {
    if lo > hi then [] else [lo] + Range(lo + 1, hi)
  }

  /** `xs.inject(init) { |acc, x| f(acc, x) }`: a left fold. */
  function Inject<A, B>(xs: seq<B>, init: A, f: (A, B) -> A): A
  {
    if xs == [] then init else Inject(xs[1..], f(init, xs[0]), f)
  }

  /** `xs.map { |x| f(x) }`. */
  function Map<A, B>(xs: seq<A>, f: A -> B): (r: seq<B>)
    ensures |r| == |xs|
    ensures forall i :: 0 <= i < |xs| ==> r[i] == f(xs[i])
  {
    if xs == [] then [] else [f(xs[0])] + Map(xs[1..], f)
  }
}
