/** The CPU-bound workload the experiment's test suites exercise (`src/app.py`): an iterative
    factorial that rejects negative input. */
module Workload {
  import opened Wrappers

  /** n!, the reference definition. */
  function Factorial(n: nat): nat
    decreases n
  {
    if n == 0 then 1 else n * Factorial(n - 1)
  }

  /** The product lo * (lo + 1) * ... * hi, which is 1 when the range is empty. */
  function Product(lo: nat, hi: nat): nat
    decreases hi
  {
    if hi < lo || hi == 0 then 1 else Product(lo, hi - 1) * hi
  }

  /** A factorial is never below 1. */
  lemma {:induction false} FactorialPositive(n: nat)
    ensures Factorial(n) >= 1
  {
    if n > 0 {
      FactorialPositive(n - 1);
      assert Factorial(n) == n * Factorial(n - 1);
    }
  }

  /** n! is the product of 1..n. */
  lemma {:induction false} FactorialIsProduct(n: nat)
    ensures Factorial(n) == Product(1, n)
  {
    if n > 0 {
      FactorialIsProduct(n - 1);
    }
  }

  /** `cpu_intensive_task(n)`: `ValueError` when `n < 0`, otherwise `result` starts at 1 and is
      multiplied by every `i` in `range(1, n + 1)`. */
  method CpuIntensiveTask(n: int) returns (r: Result<nat, string>)
    ensures n < 0 <==> r.Failure?
    ensures r.Failure? ==> r.error == "ValueError"
    ensures r.Success? ==> r.value == Factorial(n) && r.value >= 1
  {
    if n < 0 {
      return Failure("ValueError");
    }
    var result: nat := 1;
    for i := 1 to n + 1
      invariant result == Factorial(i - 1)
    {
      result := result * i;
    }
    FactorialPositive(n);
    return Success(result);
  }
}
