/**
 * The two computations of src/utils.py that the rest of the application
 * relies on: the human-readable byte count and the retry back-off delay.
 * The sleep itself and the file and logging helpers are not modelled.
 */
module Utils {
  import opened Strings

  /** The units `human_size` walks through; the last one is only reached after five divisions. */
  const Units: seq<string> := ["B", "KB", "MB", "GB", "TB", "PB"]

  function Pow1024(k: nat): (r: nat)
    ensures r >= 1
  {
    if k == 0 then 1 else 1024 * Pow1024(k - 1)
  }

  /** How many times the loop floor-divides `n` by 1024, out of at most `budget`. */
  function Divisions(n: int, budget: nat): (k: nat)
    ensures k <= budget
  {
    if budget == 0 || n < 1024 then 0 else 1 + Divisions(n / 1024, budget - 1)
  }

  /** `format(n, "3.1f")` and `format(n, ".1f")` of an integer: its digits, then ".0". */
  function Fixed1(n: int): string
  {
    IntToString(n) + ".0"
  }

  /** The value printed: `n` floor-divided by 1024 as many times as the loop divides it. */
  function Reduced(n: int, budget: nat): int
  {
    if budget == 0 || n < 1024 then n else Reduced(n / 1024, budget - 1)
  }

  /** What `human_size(n)` returns. */
  function HumanSizeText(n: int): string
  {
    Fixed1(Reduced(n, 5)) + " " + Units[Divisions(n, 5)]
  }

  /**
   * `human_size`: divide by 1024 while the value is at least 1024, for at
   * most five units, and print the value reached with the unit reached.
   */
  method HumanSize(numBytes: int) returns (s: string)
    ensures s == HumanSizeText(numBytes)
  {
    var n := numBytes;
    var k := 0;
    while k < 5
      invariant 0 <= k <= 5
      invariant Divisions(numBytes, 5) == k + Divisions(n, 5 - k)
      invariant Reduced(numBytes, 5) == Reduced(n, 5 - k)
    {
      if n < 1024 {
        return Fixed1(n) + " " + Units[k];
      }
      n := n / 1024;
      k := k + 1;
    }
    s := Fixed1(n) + " " + Units[5];
  }

  lemma {:induction false} Pow1024Monotone(i: nat, j: nat)
    requires i <= j
    ensures Pow1024(i) <= Pow1024(j)
    decreases j
  {
    if i < j {
      Pow1024Monotone(i, j - 1);
    }
  }

  lemma {:induction false} DivisionsRange(n: nat, budget: nat)
    ensures var k := Divisions(n, budget);
      (k == 0 || Pow1024(k) <= n) && (k == budget || n < Pow1024(k + 1))
  {
    if budget > 0 && n >= 1024 {
      var m := n / 1024;
      DivisionsRange(m, budget - 1);
      var j := Divisions(m, budget - 1);
      assert j == 0 || Pow1024(j) <= m;
      assert Pow1024(j + 1) <= n by {
        assert 1024 * m <= n;
        if j > 0 {
          assert 1024 * Pow1024(j) <= 1024 * m;
        }
      }
      if j < budget - 1 {
        assert m < Pow1024(j + 1);
        assert n < 1024 * Pow1024(j + 1) by {
          assert n < 1024 * (m + 1);
          assert m + 1 <= Pow1024(j + 1);
        }
      }
    }
  }

  /**
   * The unit is chosen by the range of the size: for a non-negative size,
   * the k-th unit is printed exactly when 1024^k <= size < 1024^(k+1), except
   * that B covers everything below 1024 and PB everything from 1024^5 on.
   */
  lemma HumanSizeUnit(n: nat, k: nat)
    requires k <= 5
    ensures Divisions(n, 5) == k <==> (k == 0 || Pow1024(k) <= n) && (k == 5 || n < Pow1024(k + 1))
  {
    var d := Divisions(n, 5);
    DivisionsRange(n, 5);
    if (k == 0 || Pow1024(k) <= n) && (k == 5 || n < Pow1024(k + 1)) && d != k {
      if d < k {
        Pow1024Monotone(d + 1, k);
      } else {
        Pow1024Monotone(k + 1, d);
      }
    }
  }

  /** The division is integer, so the fraction printed is always zero: 1536 bytes is "1.0 KB". */
  lemma HumanSizeKilobytes()
    ensures HumanSizeText(1536) == "1.0 KB"
  {
    assert Divisions(1536, 5) == 1;
    assert Pow1024(1) == 1024;
  }

  /** Below 1024 the size is printed in bytes as it is. */
  lemma HumanSizeBytes()
    ensures HumanSizeText(1023) == "1023.0 B"
  {
    assert NatToString(1023) == NatToString(102) + "3";
    assert NatToString(102) == NatToString(10) + "2";
  }

  /** From 1024^5 on the size is printed in PB, after exactly five divisions. */
  lemma HumanSizePetabytes(n: nat)
    requires n >= Pow1024(5)
    ensures HumanSizeText(n) == Fixed1(Reduced(n, 5)) + " PB"
  {
    HumanSizeUnit(n, 5);
  }

  /** Below 1024 nothing is divided; otherwise the value printed is below 1024 unless the units ran out. */
  lemma {:induction false} ReducedRange(n: int, budget: nat)
    ensures n < 1024 ==> Reduced(n, budget) == n
    ensures n >= 0 ==> 0 <= Reduced(n, budget) && (Divisions(n, budget) < budget ==> Reduced(n, budget) < 1024)
  {
    if budget > 0 && n >= 1024 {
      ReducedRange(n / 1024, budget - 1);
    }
  }

  // ---------------------------------------------------------------- back-off

  function Pow2Nat(k: nat): (r: nat)
    ensures r >= 1
  {
    if k == 0 then 1 else 2 * Pow2Nat(k - 1)
  }

  /** `2 ** i`; a negative exponent gives a fraction. */
  function Pow2(i: int): real
  {
    if i >= 0 then Pow2Nat(i) as real else 1.0 / (Pow2Nat(-i) as real)
  }

  /** The sleep of `retry_sleep(i)`: `min(60, 2 ** i)` seconds. */
  function RetryDelay(i: int): real
  {
    if Pow2(i) < 60.0 then Pow2(i) else 60.0
  }

  lemma {:induction false} Pow2NatMonotone(i: nat, j: nat)
    requires i <= j
    ensures Pow2Nat(i) <= Pow2Nat(j)
    decreases j
  {
    if i < j {
      Pow2NatMonotone(i, j - 1);
    }
  }

  lemma ReciprocalAntitone(a: real, b: real)
    requires 0.0 < a <= b
    ensures 1.0 / b <= 1.0 / a
  {
    assert 1.0 / a - 1.0 / b == (b - a) / (a * b);
  }

  lemma Pow2Monotone(i: int, j: int)
    requires i <= j
    ensures 0.0 < Pow2(i) <= Pow2(j)
  {
    if 0 <= i {
      Pow2NatMonotone(i, j);
    } else if j < 0 {
      Pow2NatMonotone(-j, -i);
      ReciprocalAntitone(Pow2Nat(-j) as real, Pow2Nat(-i) as real);
    } else {
      ReciprocalAntitone(1.0, Pow2Nat(-i) as real);
    }
  }

  /**
   * The delay is positive, never above 60 seconds, non-decreasing in the
   * back-off index, and doubles up to the cap: index 5 waits 32 seconds and
   * every index from 6 on waits 60.
   */
  lemma RetryDelayBounds(i: int, j: int)
    requires i <= j
    ensures 0.0 < RetryDelay(i) <= 60.0
    ensures RetryDelay(i) <= RetryDelay(j)
    ensures i >= 6 ==> RetryDelay(i) == 60.0
    ensures 0 <= i <= 5 ==> RetryDelay(i) == Pow2Nat(i) as real
  {
    Pow2Monotone(i, j);
    if i >= 6 {
      Pow2Monotone(6, i);
      assert Pow2(6) == 64.0;
    }
    if 0 <= i <= 5 {
      Pow2Monotone(i, 5);
      assert Pow2(5) == 32.0;
    }
  }
}
