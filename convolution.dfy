/**
 * The number of ways `n` six-sided dice can total `s`, by the convolution
 * recurrence: the last die shows 1..6 and the other n - 1 dice make up the rest.
 * It is the reference the enumeration is proved against.
 */
module Convolution {

  function Ways(n: nat, s: int): nat
  {
    if n == 0 then
      (if s == 0 then 1 else 0)
    else
      Ways(n - 1, s - 1) + Ways(n - 1, s - 2) + Ways(n - 1, s - 3) +
      Ways(n - 1, s - 4) + Ways(n - 1, s - 5) + Ways(n - 1, s - 6)
  }

  /** Only totals between n and 6n can be thrown. */
  lemma {:induction false} WaysOutsideRange(n: nat, s: int)
    requires s < n || s > 6 * n
    ensures Ways(n, s) == 0
  {
    if n > 0 {
      var m := n - 1;
      forall x | x < m || x > 6 * m ensures Ways(m, x) == 0 {
        WaysOutsideRange(m, x);
      }
      assert s - 1 < m || s - 6 > 6 * m;
    }
  }

  /** Each of the six terms of the recurrence is at most the whole. */
  lemma WaysAtLeastTerm(m: nat, s: int, f: int)
    requires 1 <= f <= 6
    ensures Ways(m, s - f) <= Ways(m + 1, s)
  {
    assert f == 1 || f == 2 || f == 3 || f == 4 || f == 5 || f == 6;
  }

  /** Every total between n and 6n can be thrown. */
  lemma {:induction false} WaysInsideRange(n: nat, s: int)
    requires n <= s <= 6 * n
    ensures Ways(n, s) > 0
  {
    if n > 0 {
      // the last die shows f, the other n - 1 dice make up s - f
      var f := if s - 1 <= 6 * (n - 1) then 1 else s - 6 * (n - 1);
      WaysInsideRange(n - 1, s - f);
      WaysAtLeastTerm(n - 1, s, f);
    }
  }

  /** A total can be thrown exactly when it lies between n and 6n. */
  lemma WaysSupport(n: nat, s: int)
    ensures Ways(n, s) > 0 <==> n <= s <= 6 * n
  {
    if n <= s <= 6 * n {
      WaysInsideRange(n, s);
    } else {
      WaysOutsideRange(n, s);
    }
  }

  /** The six-term sums of the recurrence at s and at 7(m + 1) - s agree when the counts for m dice are symmetric. */
  lemma MirrorStep(m: nat, s: int)
    requires forall x :: Ways(m, x) == Ways(m, 7 * m - x)
    ensures Ways(m + 1, s) == Ways(m + 1, 7 * (m + 1) - s)
  {
    var t := 7 * (m + 1) - s;
    assert Ways(m, s - 1) == Ways(m, t - 6);
    assert Ways(m, s - 2) == Ways(m, t - 5);
    assert Ways(m, s - 3) == Ways(m, t - 4);
    assert Ways(m, s - 4) == Ways(m, t - 3);
    assert Ways(m, s - 5) == Ways(m, t - 2);
    assert Ways(m, s - 6) == Ways(m, t - 1);
  }

  /** The counts are mirrored about 7n/2, by induction on n: each of the six terms of the recurrence for s pairs with one for 7n - s. */
  lemma {:induction false} WaysSymmetric(n: nat, s: int)
    ensures Ways(n, s) == Ways(n, 7 * n - s)
  {
    if n > 0 {
      var m := n - 1;
      forall x ensures Ways(m, x) == Ways(m, 7 * m - x) {
        WaysSymmetric(m, x);
      }
      MirrorStep(m, s);
    }
  }

  /** Raising the total by one gains the ways whose last die shows 1 and loses those whose last die shows 6. */
  lemma WaysTelescope(m: nat, s: int)
    ensures Ways(m + 1, s + 1) + Ways(m, s - 6) == Ways(m + 1, s) + Ways(m, s)
  {
    var t := s + 1;
    assert Ways(m + 1, t) ==
      Ways(m, t - 1) + Ways(m, t - 2) + Ways(m, t - 3) + Ways(m, t - 4) + Ways(m, t - 5) + Ways(m, t - 6);
    assert Ways(m + 1, s) ==
      Ways(m, s - 1) + Ways(m, s - 2) + Ways(m, s - 3) + Ways(m, s - 4) + Ways(m, s - 5) + Ways(m, s - 6);
    assert t - 1 == s && t - 2 == s - 1 && t - 3 == s - 2 && t - 4 == s - 3 && t - 5 == s - 4 && t - 6 == s - 5;
  }

  /** s + 1 can be thrown in at least as many ways as s. */
  predicate RisesAt(n: nat, s: int)
  {
    Ways(n, s) <= Ways(n, s + 1)
  }

  /** Counts that rise at every total below `b` make `Ways(n, a) <= Ways(n, b)`. */
  lemma {:induction false} RisingRange(n: nat, a: int, b: int)
    requires a <= b && 2 * b <= 7 * n
    requires forall x :: 2 * x + 2 <= 7 * n ==> RisesAt(n, x)
    ensures Ways(n, a) <= Ways(n, b)
    decreases b - a
  {
    if a < b {
      RisingRange(n, a, b - 1);
      assert RisesAt(n, b - 1);
    }
  }

  /** Below the middle of m + 1 dice, m dice throw s at least as often as s - 6. */
  lemma SixBelow(m: nat, s: int)
    requires forall x :: 2 * x + 2 <= 7 * m ==> RisesAt(m, x)
    requires 2 * s + 2 <= 7 * (m + 1)
    ensures Ways(m, s - 6) <= Ways(m, s)
  {
    if s - 6 < m {
      WaysOutsideRange(m, s - 6);
    } else if 2 * s <= 7 * m {
      RisingRange(m, s - 6, s);
    } else {
      SixBelowPastMiddle(m, s);
    }
  }

  /** Past the middle of m dice, s is mirrored to 7m - s, which still lies above s - 6. */
  lemma SixBelowPastMiddle(m: nat, s: int)
    requires forall x :: 2 * x + 2 <= 7 * m ==> RisesAt(m, x)
    requires 7 * m < 2 * s <= 7 * m + 6
    ensures Ways(m, s - 6) <= Ways(m, s)
  {
    WaysSymmetric(m, s);
    RisingRange(m, s - 6, 7 * m - s);
  }

  lemma RisingStep(m: nat, s: int)
    requires forall x :: 2 * x + 2 <= 7 * m ==> RisesAt(m, x)
    requires 2 * s + 2 <= 7 * (m + 1)
    ensures RisesAt(m + 1, s)
  {
    WaysTelescope(m, s);
    SixBelow(m, s);
  }

  /** Up to the middle total 7n/2, each total can be thrown in at least as many ways as the one before. */
  lemma {:induction false} WaysRising(n: nat)
    ensures forall s :: 2 * s + 2 <= 7 * n ==> RisesAt(n, s)
  {
    if n > 0 {
      WaysRising(n - 1);
      forall s | 2 * s + 2 <= 7 * n ensures RisesAt(n, s) {
        RisingStep(n - 1, s);
      }
    }
  }

  /** The middle totals, 7n/2 rounded down and rounded up, are thrown in the most ways. */
  lemma WaysMode(n: nat, s: int, mid: int)
    requires 2 * mid <= 7 * n <= 2 * mid + 1
    ensures Ways(n, s) <= Ways(n, mid)
    ensures Ways(n, mid) == Ways(n, 7 * n - mid)
  {
    WaysRising(n);
    WaysSymmetric(n, mid);
    if s < n {
      WaysOutsideRange(n, s);
    } else if 2 * s <= 7 * n {
      RisingRange(n, s, mid);
    } else {
      WaysSymmetric(n, s);
      RisingRange(n, 7 * n - s, mid);
    }
  }
}
