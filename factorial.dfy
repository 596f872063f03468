/** `factorial_with_iterator`: an accumulator multiplied in place over the range `1..n`. */
module Factorial {
  import opened Arith

  /** The reference definition. */
  function Fact(n: nat): nat
  {
    if n == 0 then 1 else n * Fact(n - 1)
  }

  lemma FactValues()
    ensures Fact(0) == 1 && Fact(1) == 1 && Fact(5) == 120 && Fact(10) == 3628800
  {
  }

  lemma {:induction false} FactPositive(n: nat)
    ensures Fact(n) >= 1
  {
    if n > 0 {
      FactPositive(n - 1);
      assert Fact(n) == n * Fact(n - 1) >= Fact(n - 1);
    }
  }

  lemma MulPreservesDivisor(a: int, b: int, k: int)
    requires k > 0 && b % k == 0
    ensures (a * b) % k == 0
  {
    var q := b / k;
    assert b == k * q;
    assert a * b == k * (a * q);
    ModMultiple(k, a * q);
  }

  /** Every k in 1..n divides Fact(n). */
  lemma {:induction false} FactDivisible(n: nat, k: int)
    requires 1 <= k <= n
    ensures Fact(n) % k == 0
  {
    if k == n {
      assert Fact(n) == k * Fact(n - 1);
      MulPreservesDivisor(Fact(n - 1), k, k);
    } else {
      FactDivisible(n - 1, k);
      MulPreservesDivisor(n, Fact(n - 1), k);
    }
  }

  /** `(1..n).each { |time| res *= time }`, starting from `res = 1`. */
  method FactorialWithIterator(n: int) returns (res: int)
    ensures n >= 0 ==> res == Fact(n)
    ensures n < 1 ==> res == 1
    ensures res >= 1
    ensures forall k :: 1 <= k <= n ==> res % k == 0
  {
    res := 1;
    var time := 1;
    while time <= n
      invariant 1 <= time <= if n >= 1 then n + 1 else 1
      invariant res == Fact(time - 1)
    {
      res := res * time;
      time := time + 1;
    }
    FactPositive(time - 1);
    forall k | 1 <= k <= n
      ensures res % k == 0
    {
      FactDivisible(n, k);
    }
  }

  /** Running the iterator at n and at n - 1 shows factorial(n) == n * factorial(n - 1). */
  method FactorialRecurrence(n: int) returns (a: int, b: int)
    requires n >= 1
    ensures a == n * b
  {
    a := FactorialWithIterator(n);
    b := FactorialWithIterator(n - 1);
  }
}
