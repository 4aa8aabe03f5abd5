/** The Fibonacci exercise: main's two-accumulator loop, given n as a
    parameter and returning the numbers it prints. */
module Fibonacci {
  import Limits

  function Fib(k: nat): nat {
    if k < 2 then k else Fib(k - 1) + Fib(k - 2)
  }

  lemma {:induction false} FibMonotone(j: nat, k: nat)
    requires j <= k
    ensures Fib(j) <= Fib(k)
    decreases k - j
  {
    if j < k {
      FibMonotone(j, k - 1);
      if k >= 2 {
        assert Fib(k) == Fib(k - 1) + Fib(k - 2);
      }
    }
  }

  /** Every number main prints for n <= 93 fits in a long; the 94th would not. */
  lemma FibFitsInt64(k: nat)
    requires k <= 92
    ensures Limits.IsInt64(Fib(k))
    ensures !Limits.IsInt64(Fib(93))
  {
    FibMonotone(k, 92);
    FibValues();
  }

  /** Fib(92) and Fib(93), evaluated step by step from the recurrence. */
  lemma FibValues()
    ensures Fib(92) == 7540113804746346429
    ensures Fib(93) == 12200160415121876738
  {
    assert Fib(10) == 55;
    assert Fib(16) == 987;
    assert Fib(22) == 17711;
    assert Fib(28) == 317811;
    assert Fib(34) == 5702887;
    assert Fib(40) == 102334155;
    assert Fib(46) == 1836311903;
    assert Fib(52) == 32951280099;
    assert Fib(58) == 591286729879;
    assert Fib(64) == 10610209857723;
    assert Fib(70) == 190392490709135;
    assert Fib(76) == 3416454622906707;
    assert Fib(82) == 61305790721611591;
    assert Fib(88) == 1100087778366101931;
  }

  /** main's loop for a given n: the numbers it prints, in order. */
  method FibonacciNumbers(n: int) returns (printed: seq<int>)
    requires n <= 93
    ensures n <= 0 ==> printed == []
    ensures n > 0 ==> |printed| == n
    ensures forall k :: 0 <= k < |printed| ==> printed[k] == Fib(k) && Limits.IsInt64(printed[k])
    ensures |printed| >= 1 ==> printed[0] == 0
    ensures |printed| >= 2 ==> printed[1] == 1
    ensures forall k :: 2 <= k < |printed| ==> printed[k] == printed[k - 1] + printed[k - 2]
  {
    printed := [];
    if n > 0 {
      var lastNumber, penultNumber := 1, 0;
      for i := 1 to n + 1
        invariant |printed| == i - 1
        invariant forall k :: 0 <= k < i - 1 ==> printed[k] == Fib(k)
        invariant i <= 2 ==> lastNumber == 1 && penultNumber == 0
        invariant i >= 3 ==> lastNumber == Fib(i - 2) && penultNumber == Fib(i - 3)
      {
        if i == 1 {
          printed := printed + [penultNumber];
          continue;
        }
        if i == 2 {
          printed := printed + [lastNumber];
          continue;
        }
        var sum := lastNumber + penultNumber;
        penultNumber := lastNumber;
        lastNumber := sum;
        printed := printed + [sum];
      }
      forall k | 0 <= k < |printed| ensures Limits.IsInt64(printed[k]) {
        FibFitsInt64(k);
      }
    }
  }
}
