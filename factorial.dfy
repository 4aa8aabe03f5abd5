/** The factorial exercise: getFactorial's counting-down loop and the line
    printFactorial writes for each number. */
module Factorial {
  import Limits
  import Decimal

  /** n! with the convention getFactorial follows: 1 for every n <= 0. */
  function Fact(n: int): (r: int)
    ensures r >= 1
    decreases if n < 0 then 0 else n
  {
    if n <= 0 then 1 else n * Fact(n - 1)
  }

  /** The recurrence the loop unrolls. */
  lemma FactStep(n: int)
    requires n >= 1
    ensures Fact(n) == n * Fact(n - 1)
  {
  }

  /** lo * (lo + 1) * ... * hi, and 1 for an empty range. */
  function Product(lo: int, hi: int): int
    decreases hi - lo
  {
    if lo > hi then 1 else lo * Product(lo + 1, hi)
  }

  /** Extending a product by its next factor on the right. */
  lemma {:induction false} ProductExtend(lo: int, hi: int)
    requires lo <= hi + 1
    ensures Product(lo, hi + 1) == Product(lo, hi) * (hi + 1)
    decreases hi - lo
  {
    if lo <= hi {
      ProductExtend(lo + 1, hi);
    }
  }

  /** For n >= 0, Fact(n) is the product 1 * 2 * ... * n. */
  lemma {:induction false} FactIsProduct(n: int)
    requires n >= 0
    ensures Fact(n) == Product(1, n)
  {
    if n > 0 {
      FactIsProduct(n - 1);
      ProductExtend(1, n - 1);
    }
  }

  lemma {:induction false} FactMonotone(m: int, n: int)
    requires m <= n
    ensures Fact(m) <= Fact(n)
    decreases n - m
  {
    if m < n {
      FactMonotone(m, n - 1);
    }
  }

  /** Every result for n <= 12 fits in an int, and 13! no longer does. */
  lemma FactFitsInt32(n: int)
    requires n <= 12
    ensures Limits.IsInt32(Fact(n))
    ensures !Limits.IsInt32(Fact(13))
  {
    FactMonotone(n, 12);
    assert Fact(12) == 479001600;
    assert Fact(13) == 6227020800;
  }

  /** getFactorial(number) */
  method GetFactorial(number: int) returns (result: int)
    requires number <= 12
    ensures result == Fact(number)
    ensures Limits.IsInt32(result)
  {
    result := 1;
    var i := number;
    while i > 0
      invariant i <= number
      invariant i >= 0 ==> result == Product(i + 1, number)
      invariant i < 0 ==> result == 1 && i == number
    {
      assert Product(i, number) == i * Product(i + 1, number);
      result := result * i;
      i := i - 1;
    }
    if number >= 0 {
      assert i == 0;
      FactIsProduct(number);
    }
    FactFitsInt32(number);
  }

  /** "n x (n-1) x ... x 1" */
  function FactorChain(n: int): string
    requires n >= 1
  {
    if n == 1 then "1" else Decimal.IntText(n) + " x " + FactorChain(n - 1)
  }

  /** The line printFactorial(number) writes, without its end-of-line. */
  function FactorialText(number: int): string {
    Decimal.IntText(number) + "!"
    + (if number > 1 then " = " + FactorChain(number) else "")
    + " = " + Decimal.IntText(Fact(number))
  }

  /** For n <= 1 the line is "n! = result"; for n > 1 it lists the factors
      from n down to 1 between the two equals signs, the last being 1. */
  lemma FactorialTextShape(number: int)
    ensures number <= 1 ==> FactorialText(number) == Decimal.IntText(number) + "! = " + Decimal.IntText(Fact(number))
    ensures number > 1 ==> FactorialText(number) == Decimal.IntText(number) + "! = " + FactorChain(number) + " = " + Decimal.IntText(Fact(number))
    ensures number > 1 ==> FactorChain(number)[|FactorChain(number)| - 1] == '1'
  {
    var n, r := Decimal.IntText(number), Decimal.IntText(Fact(number));
    if number > 1 {
      var c := FactorChain(number);
      assert FactorialText(number) == n + "!" + (" = " + c) + " = " + r;
      assert n + "!" + (" = " + c) + " = " + r == n + "! = " + c + " = " + r;
      LastFactorIsOne(number);
    } else {
      assert FactorialText(number) == n + "!" + "" + " = " + r;
      assert n + "!" + "" + " = " + r == n + "! = " + r;
    }
  }

  lemma {:induction false} LastFactorIsOne(n: int)
    requires n >= 1
    ensures FactorChain(n)[|FactorChain(n)| - 1] == '1'
  {
    if n > 1 {
      LastFactorIsOne(n - 1);
    }
  }

  /** The line for 3 is "3! = 3 x 2 x 1 = 6". */
  lemma ThreeLine()
    ensures FactorialText(3) == "3! = 3 x 2 x 1 = 6"
  {
  }

  /** printFactorial(number), returning the line instead of printing it. */
  method PrintFactorial(number: int) returns (line: string)
    requires number <= 12
    ensures line == FactorialText(number)
  {
    line := Decimal.IntText(number) + "!";
    if number > 1 {
      line := line + " = ";
      ghost var head := line;
      var i := number;
      while i > 0
        invariant 0 <= i <= number
        invariant i >= 1 ==> line + FactorChain(i) == head + FactorChain(number)
        invariant i == 0 ==> line == head + FactorChain(number)
      {
        line := line + Decimal.IntText(i);
        if i != 1 {
          line := line + " x ";
        }
        i := i - 1;
      }
    }
    line := line + " = ";
    var result := GetFactorial(number);
    line := line + Decimal.IntText(result);
  }

  /** The run of main: the lines for 0 to 10. */
  method Demo() returns (lines: seq<string>)
    ensures |lines| == 11
    ensures forall n :: 0 <= n <= 10 ==> lines[n] == FactorialText(n)
  {
    lines := [];
    for i := 0 to 11
      invariant |lines| == i
      invariant forall n :: 0 <= n < i ==> lines[n] == FactorialText(n)
    {
      var line := PrintFactorial(i);
      lines := lines + [line];
    }
  }
}
