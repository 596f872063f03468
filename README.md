# Factorial, Fibonacci and FizzBuzz, modelled in Dafny

This project models three small Ruby scripts. Each computes one integer sequence.

- `fibonacci.rb`: class `Fib` computes the n-th Fibonacci number in three ways.
  - `run_procedural` updates a pair `(curr, nxt)` in a loop that runs `n.times`.
  - `run_enumerative` folds `(0..n).inject([1, 0])` over the range.
  - `run_recursive` uses accumulator recursion through `_run_recursive`.
- `factorial.rb`: `factorial_with_iterator` multiplies an accumulator by each `time` in `1..n`.
- `ruby_fizzbuzz.rb`: a top-level loop over `1.upto(N)` builds each `output` string ("Fizz", "Buzz", both or empty) and appends to `result`. A commented-out `map` version shows the element meant for each number.

Ruby's `Integer` is arbitrary-precision, and so is Dafny's `int`: no overflow is modelled.

Files:

- `enumerable.dfy` (module `Enumerable`): Ruby's inclusive `Range`, `inject` and `map` as functions on sequences.
- `fibonacci.dfy` (`Fibonacci`): the reference `Fib` and the three strategies. `Fib` has no state, so its methods become module members. `run_procedural` is a `method` with a `while` loop. The other two are pure and become functions.
- `factorial.dfy` (`Factorial`): the reference `Fact` and the loop as a `method`.
- `fizzbuzz.dfy` (`FizzBuzz`): `Output(k)`, the intended element `Intended(k)`, the map version `Mapped(n)` and the loop as two methods. `FizzBuzzAsWritten` is the loop as written; `FizzBuzz` appends the intended element.
- `arith.dfy` (`Arith`): two facts about `*` and `%` used in the divisibility proofs.

The `result` array can hold Ruby objects of several classes. So datatype `Value = Bool | Num | Str` models what can be appended. This keeps the as-written loop and the intended one comparable.

`_run_recursive` terminates because its `decreases` clause is the positive part of `n`. That value drops by one on each call, and the recursion stops once `n > 0` is false.

Behaviour at the edges:

- Negative inputs: `run_procedural(n)` and `run_recursive(n)` give 0, and `run_enumerative(n)` gives 1 (`Fibonacci.NegativeDiverge`). `factorial_with_iterator(n)` gives 1 for every `n < 1`.
- The FizzBuzz elements are the strings "Fizz", "Buzz" and "FizzBuzz" or the number itself. `FizzBuzz.IntendedCases` characterises each case, including the `k % 15 == 0` form.

## Model

| member | source | states |
|---|---|---|
| `Enumerable.Range` | fibonacci.rb:14 | `lo..hi` has `hi - lo + 1` elements when `lo <= hi` and none otherwise; element i is `lo + i` |
| `Enumerable.Map` | ruby_fizzbuzz.rb:3-8 | `map` keeps the length, and element i of the result is `f` applied to element i |
| `Fibonacci.RunProcedural` | fibonacci.rb:17-23 | after the `n.times` loop `curr` is `Fib(n)` for n ≥ 0 and 0 for n < 0; for every n it equals `run_recursive(n)`; loop invariant `(curr, nxt) == (Fib(i), Fib(i+1))` |
| `Fibonacci.InjectFibStep` | fibonacci.rb:14 | fold invariant: starting from the pair after k steps, `|xs|` more steps of the block give `(Fib(k+|xs|-1), Fib(k+|xs|))`, where the first component is 1 at step 0 |
| `Fibonacci.FibStep` | fibonacci.rb:14 | body only (the `inject` block `[b, a+b]`); see `InjectFibStep` |
| `Enumerable.Inject` | fibonacci.rb:14 | body only (a left fold); see `InjectFibStep` |
| `Fibonacci.RunEnumerative` | fibonacci.rb:10-15 | body only; see `StrategiesAgree`, `NegativeDiverge`, `SmallValues` |
| `Fibonacci.RunRecursiveAcc` | fibonacci.rb:34-37 | body only; its `decreases` clause proves termination; see `RecursiveShift`, `RecursiveBase` |
| `Fibonacci.RunRecursive` | fibonacci.rb:25-27 | body only; see `StrategiesAgree`, `NegativeDiverge`, `SmallValues` |
| `Fibonacci.RecursiveShift` | fibonacci.rb:34-37 | generalised accumulator lemma: `_run_recursive(n, Fib(k), Fib(k+1)) == Fib(n+k)` for all n, k ≥ 0 |
| `Fibonacci.RecursiveBase` | fibonacci.rb:35 | when `n > 0` fails, `_run_recursive` returns its `res` argument unchanged |
| `Fibonacci.StrategiesAgree` | fibonacci.rb:10-27 | for every n ≥ 0 the enumerative and recursive strategies both equal `Fib(n)`; `RunProcedural` promises the same |
| `Fibonacci.NegativeDiverge` | fibonacci.rb:14-26 | for n < 0 `run_enumerative` returns 1 (empty range, seed `[1,0]`) and `run_recursive` returns 0, so the strategies agree only for n ≥ 0 |
| `Fibonacci.SmallValues` | fibonacci.rb:10-27 | both functional strategies give 0 at n = 0, 1 at n = 1 and 55 at n = 10 |
| `Factorial.FactorialWithIterator` | factorial.rb:2-6 | the result is `Fact(n)` for n ≥ 0 and 1 for every n < 1; it is always ≥ 1; every k in `1..n` divides it; loop invariant `res == Fact(time - 1)` |
| `Factorial.FactorialRecurrence` | factorial.rb:4 | for n ≥ 1 the iterator's result at n is n times its result at n - 1 |
| `Factorial.FactPositive` | factorial.rb:3-4 | the product of `1..n`, starting from 1, is ≥ 1 |
| `Factorial.FactDivisible` | factorial.rb:4 | every k with `1 <= k <= n` divides the product of `1..n` |
| `Factorial.FactValues` | factorial.rb:2-6 | the products for n = 0, 1, 5 and 10 are 1, 1, 120 and 3628800 |
| `FizzBuzz.Output` | ruby_fizzbuzz.rb:14 | body only; see `OutputCases` |
| `FizzBuzz.Intended` | ruby_fizzbuzz.rb:5-7 | body only (`output.empty? ? n : output`); see `IntendedCases` |
| `FizzBuzz.Mapped` | ruby_fizzbuzz.rb:3-8 | body only; see `Fifteen`, `FizzBuzz.FizzBuzz` |
| `FizzBuzz.OutputCases` | ruby_fizzbuzz.rb:14 | `output` is "FizzBuzz" iff 3 and 5 divide k, "Fizz" iff only 3 does, "Buzz" iff only 5 does, and empty iff neither does |
| `FizzBuzz.IntendedCases` | ruby_fizzbuzz.rb:7 | the intended element is "FizzBuzz" iff 15 divides k, "Fizz" or "Buzz" by divisibility by 3 or 5 alone, the number k iff neither divides it, and never a boolean |
| `FizzBuzz.Fifteen` | ruby_fizzbuzz.rb:3-8 | the map version for n = 15 is 1, 2, Fizz, 4, Buzz, Fizz, 7, 8, Fizz, Buzz, 11, Fizz, 13, 14, FizzBuzz |
| `FizzBuzz.FizzBuzzAsWritten` | ruby_fizzbuzz.rb:11-17 | the loop as written makes exactly one append per k, in increasing k, so the length is N (0 for N < 1); element k-1 is the boolean `output(k) == ""`; every element differs from the map version's element |
| `FizzBuzz.FizzBuzz` | ruby_fizzbuzz.rb:11-17 | the corrected loop has length N (0 for N < 1); element k-1 is the intended element for k; the whole result equals the map version |

## Findings

| source | as written | input that shows it | evidently intended | confidence | as-written member | corrected member |
|---|---|---|---|---|---|---|
| ruby_fizzbuzz.rb:16 | `result << output.empty? ? n : output` parses as `(result << output.empty?) ? n : output`, so `result` receives `true`/`false` and the conditional's value is discarded | N = 1: `result[0]` is `true`, while the map version at ruby_fizzbuzz.rb:7 gives `1` | append `output.empty? ? n : output`, which is what the map version computes | not executed | `FizzBuzz.FizzBuzzAsWritten` | `FizzBuzz.FizzBuzz` |

## Left out

- The tail-call setting in `RubyVM::InstructionSequence.compile_option` and the `InstructionSequence.new(...).eval` wrapper (fibonacci.rb:4-7, 33, 38) are runtime configuration. `_run_recursive` is an ordinary recursive function here. Stack depth and `SystemStackError` are not modelled.
- Timing with `Time.now`, the `puts` calls and the benchmark driver (fibonacci.rb:42-67) are I/O and wall-clock measurement.
- The driver literals 1000000 (fibonacci.rb:42), 200000 (factorial.rb:8) and 10000000 (ruby_fizzbuzz.rb:12) become the parameter `n`.
- The commented-out recursive benchmark (fibonacci.rb:48-55) and memoisation sketch (fibonacci.rb:12) are not code. The commented-out FizzBuzz `map` (ruby_fizzbuzz.rb:3-8) is modelled only as `Mapped`, the statement of the intended element.
- Non-integer arguments are not modelled. Every operation takes an `int`.
- `FizzBuzz.FizzBuzzAsWritten` does not keep the discarded value of the conditional: `result` is truthy, so that value is always `n`.
