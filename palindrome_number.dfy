/** `Solution::is_palindrome` (leetcode/src/palindrome_number.rs): a
    number is a palindrome when its decimal digits read the same
    backwards. The source reverses the digits into an `i32` accumulator
    and compares. */
module PalindromeNumber {
  import opened Common

  /** The decimal digits of n, least significant first; 0 has the one digit 0. */
  function Digits(n: nat): (ds: seq<nat>)
    ensures 1 <= |ds|
    decreases n
  {
    if n < 10 then [n] else [n % 10] + Digits(n / 10)
  }

  /** The number whose digits, least significant first, are `ds`. */
  function Value(ds: seq<nat>): nat
    decreases |ds|
  {
    if ds == [] then 0 else ds[0] + 10 * Value(ds[1..])
  }

  function Reverse(s: seq<nat>): (r: seq<nat>)
    ensures |r| == |s|
    decreases |s|
  {
    if s == [] then [] else [s[|s| - 1]] + Reverse(s[..|s| - 1])
  }

  function Pow10(k: nat): (p: nat)
    ensures 1 <= p
  {
    if k == 0 then 1 else 10 * Pow10(k - 1)
  }

  /** n with its decimal digits reversed (trailing zeros of n vanish). */
  function Reversed(n: nat): nat
  {
    Value(Reverse(Digits(n)))
  }

  /** What `is_palindrome` decides. */
  predicate IsPalindromeNumber(x: int)
  {
    x >= 0 && Reverse(Digits(x)) == Digits(x)
  }

  // ---------------------------------------------------------------------
  // Digits and values

  predicate AllDigits(ds: seq<nat>)
  {
    forall k :: 0 <= k < |ds| ==> ds[k] < 10
  }

  lemma {:induction false} DigitsAreDigits(n: nat)
    ensures AllDigits(Digits(n))
    decreases n
  {
    if n >= 10 {
      DigitsAreDigits(n / 10);
    }
  }

  /** Reversal keeps every element, so a digit sequence stays one. */
  lemma ReverseDigits(ds: seq<nat>)
    requires AllDigits(ds)
    ensures AllDigits(Reverse(ds))
  {
    ReverseIndex(ds);
  }

  lemma {:induction false} DigitsValue(n: nat)
    ensures Value(Digits(n)) == n
    decreases n
  {
    if n >= 10 {
      DigitsValue(n / 10);
      assert Digits(n)[1..] == Digits(n / 10);
    }
  }

  /** Digit sequences of the same length with the same value are equal. */
  lemma {:induction false} ValueInjective(a: seq<nat>, b: seq<nat>)
    requires |a| == |b|
    requires AllDigits(a) && AllDigits(b)
    requires Value(a) == Value(b)
    ensures a == b
    decreases |a|
  {
    if a != [] {
      assert a[0] == b[0];
      ValueInjective(a[1..], b[1..]);
      assert a == [a[0]] + a[1..] && b == [b[0]] + b[1..];
    }
  }

  lemma {:induction false} ValueBound(ds: seq<nat>)
    requires AllDigits(ds)
    ensures Value(ds) < Pow10(|ds|)
    decreases |ds|
  {
    if ds != [] {
      ValueBound(ds[1..]);
    }
  }

  lemma {:induction false} ReverseIndex(s: seq<nat>)
    ensures forall k :: 0 <= k < |s| ==> Reverse(s)[k] == s[|s| - 1 - k]
    decreases |s|
  {
    if s != [] {
      ReverseIndex(s[..|s| - 1]);
    }
  }

  lemma {:induction false} ReverseAppend(a: seq<nat>, b: seq<nat>)
    ensures Reverse(a + b) == Reverse(b) + Reverse(a)
    decreases |b|
  {
    if b == [] {
      assert a + b == a;
    } else {
      assert (a + b)[..|a + b| - 1] == a + b[..|b| - 1];
      ReverseAppend(a, b[..|b| - 1]);
    }
  }

  lemma {:induction false} ValueAppend(a: seq<nat>, b: seq<nat>)
    ensures Value(a + b) == Value(a) + Pow10(|a|) * Value(b)
    decreases |a|
  {
    if a == [] {
      assert a + b == b;
    } else {
      var t := a[1..];
      assert (a + b)[1..] == t + b;
      ValueAppend(t, b);
      assert Value(a + b) == a[0] + 10 * Value(t + b);
      Distribute(a[0], Value(t), Pow10(|t|), Value(b));
    }
  }

  lemma Distribute(d: nat, rest: nat, p: nat, v: nat)
    ensures d + 10 * (rest + p * v) == (d + 10 * rest) + (10 * p) * v
  {
  }

  lemma DropLowest(i: nat)
    ensures (i - i % 10) / 10 == i / 10
    ensures i / 10 == 0 <==> i < 10
  {
    var q, r := i / 10, i % 10;
    assert i == 10 * q + r;
    assert i - r == 10 * q;
  }

  /** What the source's loop leaves in the accumulator when it starts
      from `i` and `num`: each turn moves the lowest digit of `i` to the
      end of `num`, and the turn that leaves `i` at 0 is the last. */
  function Loop(i: nat, num: nat): nat
    decreases i
  {
    if i < 10 then num * 10 + i else Loop(i / 10, num * 10 + i % 10)
  }

  /** The accumulator only grows: the value after any turn is at most the
      final one. */
  lemma {:induction false} LoopGrows(i: nat, num: nat)
    ensures num * 10 + i % 10 <= Loop(i, num)
    decreases i
  {
    if i >= 10 {
      LoopGrows(i / 10, num * 10 + i % 10);
    }
  }

  lemma Shift(num: nat, d: nat, p: nat)
    ensures num * (10 * p) + d * p == (num * 10 + d) * p
  {
  }

  /** The loop appends the reversal of `i` to the digits already in `num`. */
  lemma {:induction false} LoopReverses(i: nat, num: nat)
    ensures Loop(i, num) == num * Pow10(|Digits(i)|) + Reversed(i)
    decreases i
  {
    if i < 10 {
      assert Digits(i) == [i] && Reverse([i]) == [i];
      assert Value([i]) == i by { assert [i][1..] == []; }
    } else {
      var d, rest := i % 10, Digits(i / 10);
      var p := Pow10(|rest|);
      LoopReverses(i / 10, num * 10 + d);
      assert Digits(i) == [d] + rest;
      ReverseAppend([d], rest);
      assert Reverse([d]) == [d];
      ValueAppend(Reverse(rest), [d]);
      assert Value([d]) == d by { assert [d][1..] == []; }
      assert Reversed(i) == Reversed(i / 10) + p * d;
      assert Pow10(|Digits(i)|) == 10 * p;
      Shift(num, d, p);
    }
  }

  /** Started as in the source, the loop computes the reversal of x. */
  lemma LoopIsReversal(x: nat)
    ensures Loop(x, 0) == Reversed(x)
  {
    LoopReverses(x, 0);
  }

  // ---------------------------------------------------------------------
  // The source's loop

  /** `is_palindrome`, with the accumulator an `i32` as in the source: it
      cannot overflow only when the reversal of x fits in an `i32`. */
  method IsPalindrome(x: int) returns (b: bool)
    requires IsI32(x)
    requires x >= 0 ==> Reversed(x) <= I32_MAX
    ensures b == IsPalindromeNumber(x)
  {
    if x < 0 {
      return false;
    }
    var i: nat := x;
    var num: nat := 0;
    while true
      invariant Loop(i, num) == Loop(x, 0)
      decreases i
    {
      var rem := i % 10;
      DropLowest(i);
      LoopGrows(i, num);
      i := (i - rem) / 10;
      assert IsI32(num * 10 + rem) by {
        LoopIsReversal(x);
      }
      num := num * 10 + rem;
      if i == 0 {
        break;
      }
    }
    LoopIsReversal(x);
    PalindromeIffReversalEqual(x);
    b := num == x;
  }

  // ---------------------------------------------------------------------
  // Properties

  /** A non-negative number equals its reversal exactly when its digit
      string reads the same backwards. */
  lemma PalindromeIffReversalEqual(x: nat)
    ensures Reversed(x) == x <==> IsPalindromeNumber(x)
  {
    DigitsValue(x);
    var ds := Digits(x);
    if Reversed(x) == x {
      DigitsAreDigits(x);
      ReverseDigits(ds);
      ValueInjective(Reverse(ds), ds);
    }
  }

  lemma NegativeIsNot(x: int)
    requires x < 0
    ensures !IsPalindromeNumber(x)
  {
  }

  /** Zero is a palindrome: the loop body runs once even for it. */
  lemma ZeroIsPalindrome()
    ensures IsPalindromeNumber(0)
  {
    assert Digits(0) == [0];
  }

  /** The cases of the unit test. */
  lemma Examples()
    ensures IsPalindromeNumber(121)
    ensures !IsPalindromeNumber(-121)
    ensures !IsPalindromeNumber(10)
  {
    assert Digits(121) == [1, 2, 1] by {
      assert Digits(12) == [2, 1];
    }
    assert Digits(10) == [0, 1];
    assert Reverse([0, 1]) == [1, 0];
  }

  // ---------------------------------------------------------------------
  // The overflow, and the accumulator widened to `i64`

  /** A digit sequence is worth at least its most significant digit times
      the place of that digit. */
  lemma {:induction false} ValueLast(s: seq<nat>)
    requires s != []
    ensures Value(s) >= s[|s| - 1] * Pow10(|s| - 1)
  {
    ValueAppend(s[..|s| - 1], [s[|s| - 1]]);
    assert s[..|s| - 1] + [s[|s| - 1]] == s;
    assert Value([s[|s| - 1]]) == s[|s| - 1] by { assert [s[|s| - 1]][1..] == []; }
  }

  lemma {:induction false} DigitsLengthAtLeast(n: nat, k: nat)
    requires Pow10(k) <= n
    ensures k < |Digits(n)|
    decreases k
  {
    if k > 0 {
      DigitsLengthAtLeast(n / 10, k - 1);
    }
  }

  /** An `i32` accepted by the source whose reversal does not fit in the
      accumulator: `num * 10 + rem` overflows on the last digit. */
  lemma ReversalOverflows()
    ensures IsI32(1000000009) && Reversed(1000000009) > I32_MAX
  {
    var x := 1000000009;
    var ds := Digits(x);
    assert Pow10(9) == 1000000000;
    DigitsLengthAtLeast(x, 9);
    DigitsLength(x, 10);
    assert Pow10(10) == 10000000000;
    assert |ds| == 10;
    assert ds[0] == 9;
    ReverseIndex(ds);
    ValueLast(Reverse(ds));
  }

  /** Every `i32` has at most ten digits, so its reversal is below 10^10
      and fits an `i64`. */
  lemma {:induction false} DigitsLength(n: nat, k: nat)
    requires 1 <= k && n < Pow10(k)
    ensures |Digits(n)| <= k
    decreases k
  {
    if n >= 10 {
      DigitsLength(n / 10, k - 1);
    }
  }

  lemma {:induction false} Pow10Monotone(j: nat, k: nat)
    requires j <= k
    ensures Pow10(j) <= Pow10(k)
    decreases k
  {
    if j < k {
      Pow10Monotone(j, k - 1);
    }
  }

  lemma ReversalFitsI64(x: nat)
    requires x <= I32_MAX
    ensures Reversed(x) <= I64_MAX
  {
    assert Pow10(10) == 10000000000;
    DigitsLength(x, 10);
    DigitsAreDigits(x);
    ReverseDigits(Digits(x));
    ValueBound(Reverse(Digits(x)));
    Pow10Monotone(|Digits(x)|, 10);
  }

  /** `is_palindrome` with an `i64` accumulator: defined on every `i32`. */
  method IsPalindromeWide(x: int) returns (b: bool)
    requires IsI32(x)
    ensures b == IsPalindromeNumber(x)
  {
    if x < 0 {
      return false;
    }
    var i: nat := x;
    var num: nat := 0;
    while true
      invariant Loop(i, num) == Loop(x, 0)
      decreases i
    {
      var rem := i % 10;
      DropLowest(i);
      LoopGrows(i, num);
      i := (i - rem) / 10;
      assert IsI64(num * 10 + rem) by {
        LoopIsReversal(x);
        ReversalFitsI64(x);
      }
      num := num * 10 + rem;
      if i == 0 {
        break;
      }
    }
    LoopIsReversal(x);
    PalindromeIffReversalEqual(x);
    b := num == x;
  }
}
