/** The default-arguments exercise: power(base, exponent = 2), returning the
    result it prints. */
module DefaultArguments {

  function Pow(base: int, e: nat): int {
    if e == 0 then 1 else base * Pow(base, e - 1)
  }

  /** Exponents add: base^(m + n) == base^m * base^n. */
  lemma {:induction false} PowAdd(base: int, m: nat, n: nat)
    ensures Pow(base, m + n) == Pow(base, m) * Pow(base, n)
    decreases m
  {
    if m > 0 {
      PowAdd(base, m - 1, n);
      assert Pow(base, m + n) == base * Pow(base, m - 1 + n);
      assert base * (Pow(base, m - 1) * Pow(base, n)) == (base * Pow(base, m - 1)) * Pow(base, n);
    }
  }

  /** power(base, exponent): multiplies base in `exponent` times; a
      non-positive exponent gives 1. */
  method Power(base: int, exponent: int := 2) returns (result: int)
    ensures exponent <= 0 ==> result == 1
    ensures exponent >= 0 ==> result == Pow(base, exponent)
  {
    result := 1;
    var i := 1;
    while i <= exponent
      invariant 1 <= i && (exponent >= 0 ==> i <= exponent + 1) && (exponent < 1 ==> i == 1)
      invariant result == Pow(base, i - 1)
    {
      PowAdd(base, i - 1, 1);
      result := result * base;
      i := i + 1;
    }
  }

  /** The run of main, plus a call with the default exponent. */
  method Demo(b: int) returns (a: int, z: int, squared: int)
    ensures a == 16 && z == 1 && squared == b * b
  {
    a := Power(2, 4);
    z := Power(2, 0);
    squared := Power(b);
    assert Pow(b, 2) == b * Pow(b, 1) && Pow(b, 1) == b;
  }
}
