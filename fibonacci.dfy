/**
 * The three Fibonacci strategies of class `Fib`. The class has no state,
 * so its methods become members of this module.
 */
module Fibonacci {
  import opened Enumerable

  /** The reference definition: Fib(0) = 0, Fib(1) = 1. */
  function Fib(n: nat): nat
  {
    if n < 2 then n else Fib(n - 1) + Fib(n - 2)
  }

  /** The first component of the fold's pair after j steps: 1 before any step, then Fib(j - 1). */
  function FibBefore(j: nat): nat
  {
    if j == 0 then 1 else Fib(j - 1)
  }

  // ---------------------------------------------------------------- run_procedural

  /** `run_procedural`: a pair (curr, nxt) updated `n.times`; a negative n runs no iteration. */
  method RunProcedural(n: int) returns (curr: int)
    ensures curr == if n >= 0 then Fib(n) else 0
    ensures curr == RunRecursive(n)
  {
    var nxt;
    curr, nxt := 0, 1;
    var i := 0;
    while i < n
      invariant 0 <= i <= if n >= 0 then n else 0
      invariant curr == Fib(i) && nxt == Fib(i + 1)
    {
      curr, nxt := nxt, curr + nxt;
      i := i + 1;
    }
    if n >= 0 {
      RecursiveIsFib(n);
    }
  }

  // ---------------------------------------------------------------- run_enumerative

  /** The block of the `inject`: `|(a, b), _| [b, a + b]`; the range element is ignored. */
  function FibStep(p: (int, int), x: int): (int, int)
  {
    (p.1, p.0 + p.1)
  }

  /** `run_enumerative`: `(0..n).inject([1, 0]) { ... }[0]`. */
  function RunEnumerative(n: int): int
  {
    Inject(Range(0, n), (1, 0), FibStep).0
  }

  /** Fold invariant: from the pair after k steps, |xs| more steps give the pair after k + |xs| steps. */
  lemma {:induction false} InjectFibStep(xs: seq<int>, k: nat)
    ensures Inject<(int, int), int>(xs, (FibBefore(k), Fib(k)), FibStep) == (FibBefore(k + |xs|), Fib(k + |xs|))
  {
    if xs != [] {
      assert FibStep((FibBefore(k), Fib(k)), xs[0]) == (FibBefore(k + 1), Fib(k + 1));
      InjectFibStep(xs[1..], k + 1);
    }
  }

  lemma EnumerativeIsFib(n: nat)
    ensures RunEnumerative(n) == Fib(n)
  {
    InjectFibStep(Range(0, n), 0);
  }

  // ---------------------------------------------------------------- run_recursive

  /**
   * `_run_recursive(n, res, nxt)`: accumulator recursion that stops as soon as
   * `n > 0` fails. Termination: n decreases by one per call.
   */
  function RunRecursiveAcc(n: int, res: int, nxt: int): int
    decreases if n > 0 then n else 0
  {
    if !(n > 0) then res else RunRecursiveAcc(n - 1, nxt, res + nxt)
  }

  /** `run_recursive`. */
  function RunRecursive(n: int): int
  {
    RunRecursiveAcc(n, 0, 1)
  }

  /** Generalised accumulator lemma: started from (Fib(k), Fib(k + 1)), n calls reach Fib(n + k). */
  lemma {:induction false} RecursiveShift(n: nat, k: nat)
    ensures RunRecursiveAcc(n, Fib(k), Fib(k + 1)) == Fib(n + k)
  {
    if n > 0 {
      RecursiveShift(n - 1, k + 1);
    }
  }

  lemma RecursiveIsFib(n: nat)
    ensures RunRecursive(n) == Fib(n)
  {
    RecursiveShift(n, 0);
  }

  /** The base case: with no positive count the first accumulator is returned unchanged. */
  lemma RecursiveBase(n: int, res: int, nxt: int)
    requires n <= 0
    ensures RunRecursiveAcc(n, res, nxt) == res
  {
  }

  // ---------------------------------------------------------------- comparing them

  /** For every n >= 0 the enumerative and recursive strategies compute Fib(n)
      (the procedural one does too, by its postcondition). */
  lemma StrategiesAgree(n: nat)
    ensures RunEnumerative(n) == Fib(n)
    ensures RunRecursive(n) == Fib(n)
  {
    EnumerativeIsFib(n);
    RecursiveIsFib(n);
  }

  /** For a negative n the range `0..n` is empty, so the enumerative strategy returns
      the 1 of its seed pair, while the other two return 0. */
  lemma NegativeDiverge(n: int)
    requires n < 0
    ensures RunEnumerative(n) == 1
    ensures RunRecursive(n) == 0
  {
  }

  /** The values the strategies must give at 0, 1 and 10. */
  lemma SmallValues()
    ensures RunEnumerative(0) == 0 && RunRecursive(0) == 0
    ensures RunEnumerative(1) == 1 && RunRecursive(1) == 1
    ensures RunEnumerative(10) == 55 && RunRecursive(10) == 55
  {
    StrategiesAgree(0);
    StrategiesAgree(1);
    StrategiesAgree(10);
  }
}
