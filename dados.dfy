/**
 * The exact distribution of the total shown by `n` fair six-sided dice
 * (`calcular_probabilidades` in dados.py): enumerate every throw, total each
 * one, count the totals, sort the distinct totals and divide each count by the
 * number of throws. Each probability is kept as the exact fraction
 * count / total rather than as a double.
 */
module Dados {
  import opened Wrappers
  import opened Itertools
  import opened Counters
  import opened Sorting
  import opened Convolution

  /** The faces of one die, 1 to 6. */
  const Faces: seq<int> := [1, 2, 3, 4, 5, 6]

  /** The only failure: the product of the faces cannot be taken a negative number of times. */
  datatype Error = NegativeRepeat

  /** The quotient `num / den`, kept exact. */
  datatype Fraction = Fraction(num: nat, den: nat)

  /** The two lists returned: distinct totals in ascending order, and the probability of each. */
  datatype Distribution = Distribution(sums: seq<int>, probabilities: seq<Fraction>)

  /** The total shown by one throw. */
  function SumOf(c: seq<int>): int
  {
    if c == [] then 0 else c[0] + SumOf(c[1..])
  }

  /** The total of every throw, in enumeration order. */
  function Sums(outcomes: seq<seq<int>>): seq<int>
  {
    seq(|outcomes|, i requires 0 <= i < |outcomes| => SumOf(outcomes[i]))
  }

  /** The real number a fraction stands for. */
  function Value(f: Fraction): real
    requires f.den > 0
  {
    f.num as real / f.den as real
  }

  /** For each key in turn, its count over `total`. */
  function Normalize(keys: seq<int>, c: Counter, total: nat): seq<Fraction>
  {
    seq(|keys|, i requires 0 <= i < |keys| => Fraction(Get(c, keys[i]), total))
  }

  function CalcularProbabilidades(numDados: int): (r: Result<Distribution, Error>)
    ensures r.Failure? <==> numDados < 0
    ensures r.Success? ==> |r.value.probabilities| == |r.value.sums|
  {
    if numDados < 0 then Failure(NegativeRepeat)
    else
      var combinaciones := Product(Faces, numDados);
      var sumas := Sums(combinaciones);
      var conteo := Tally(sumas);
      var totalCombinaciones := |combinaciones|;
      var sumasOrdenadas := Sort(conteo.keys);
      Success(Distribution(sumasOrdenadas, Normalize(sumasOrdenadas, conteo, totalCombinaciones)))
  }

  // ---------------------------------------------------------------------------
  // The enumeration

  /** A throw of `n` dice: `n` faces, each between 1 and 6. */
  predicate IsThrow(t: seq<int>, n: nat)
  {
    |t| == n && forall j :: 0 <= j < |t| ==> 1 <= t[j] <= 6
  }

  /** The enumeration lists 6^n tuples, and they are exactly the throws of n dice. */
  lemma OutcomesAreThrows(n: nat)
    ensures |Product(Faces, n)| == Pow(6, n)
    ensures forall t :: t in Product(Faces, n) <==> IsThrow(t, n)
  {
    ProductLength(Faces, n);
    forall t ensures t in Product(Faces, n) <==> IsThrow(t, n) {
      ProductMembers(Faces, n, t);
    }
  }

  /** A throw of n dice totals between n and 6n. */
  lemma {:induction false} ThrowTotal(t: seq<int>, n: nat)
    requires IsThrow(t, n)
    ensures n <= SumOf(t) <= 6 * n
  {
    if t != [] {
      assert IsThrow(t[1..], n - 1);
      ThrowTotal(t[1..], n - 1);
    }
  }

  // ---------------------------------------------------------------------------
  // Counting the totals of the enumeration: it agrees with the recurrence

  /** Every element of `xs` raised by `x`. */
  function Shift(x: int, xs: seq<int>): seq<int>
  {
    seq(|xs|, i requires 0 <= i < |xs| => x + xs[i])
  }

  lemma {:induction false} ShiftCount(x: int, xs: seq<int>, v: int)
    ensures multiset(Shift(x, xs))[v] == multiset(xs)[v - x]
  {
    if xs != [] {
      assert Shift(x, xs) == [x + xs[0]] + Shift(x, xs[1..]);
      assert xs == [xs[0]] + xs[1..];
      ShiftCount(x, xs[1..], v);
    }
  }

  lemma SumsPrependEach(x: int, tails: seq<seq<int>>)
    ensures Sums(PrependEach(x, tails)) == Shift(x, Sums(tails))
  {
    forall i | 0 <= i < |tails| ensures SumOf([x] + tails[i]) == x + SumOf(tails[i]) {
      assert ([x] + tails[i])[1..] == tails[i];
    }
  }

  lemma SumsConcat(a: seq<seq<int>>, b: seq<seq<int>>)
    ensures Sums(a + b) == Sums(a) + Sums(b)
  {
  }

  /** How many elements of `xs`, raised by some element of `pool`, equal `v` (counted per pool element). */
  ghost function ShiftedCount(pool: seq<int>, xs: seq<int>, v: int): nat
  {
    if pool == [] then 0 else multiset(xs)[v - pool[0]] + ShiftedCount(pool[1..], xs, v)
  }

  lemma {:induction false} ExtendCount(pool: seq<int>, tails: seq<seq<int>>, v: int)
    ensures multiset(Sums(Extend(pool, tails)))[v] == ShiftedCount(pool, Sums(tails), v)
  {
    if pool != [] {
      SumsConcat(PrependEach(pool[0], tails), Extend(pool[1..], tails));
      SumsPrependEach(pool[0], tails);
      ShiftCount(pool[0], Sums(tails), v);
      ExtendCount(pool[1..], tails, v);
    }
  }

  /** Over the six faces, the shifted count is the sum of six counts. */
  lemma ShiftedCountFaces(xs: seq<int>, s: int)
    ensures var m := multiset(xs);
      ShiftedCount(Faces, xs, s) == m[s - 1] + m[s - 2] + m[s - 3] + m[s - 4] + m[s - 5] + m[s - 6]
  {
      var m := multiset(xs);
      assert Faces[1..] == [2, 3, 4, 5, 6];
      assert ShiftedCount([6], xs, s) == m[s - 6];
      assert ShiftedCount([5, 6], xs, s) == m[s - 5] + m[s - 6] by {
        assert [5, 6][1..] == [6];
      }
      assert ShiftedCount([4, 5, 6], xs, s) == m[s - 4] + m[s - 5] + m[s - 6] by {
        assert [4, 5, 6][1..] == [5, 6];
      }
      assert ShiftedCount([3, 4, 5, 6], xs, s) == m[s - 3] + m[s - 4] + m[s - 5] + m[s - 6] by {
        assert [3, 4, 5, 6][1..] == [4, 5, 6];
      }
      assert ShiftedCount(Faces[1..], xs, s) == m[s - 2] + m[s - 3] + m[s - 4] + m[s - 5] + m[s - 6] by {
        assert [2, 3, 4, 5, 6][1..] == [3, 4, 5, 6];
      }
  }

  /** One more die: the counts for m + 1 dice follow from the counts for m dice by the recurrence. */
  lemma OutcomeStep(m: nat, s: int)
    requires forall x :: multiset(Sums(Product(Faces, m)))[x] == Ways(m, x)
    ensures multiset(Sums(Product(Faces, m + 1)))[s] == Ways(m + 1, s)
  {
    var tails := Product(Faces, m);
    assert Product(Faces, m + 1) == Extend(Faces, tails);
    ExtendCount(Faces, tails, s);
    ShiftedCountFaces(Sums(tails), s);
  }

  /** For every total, the number of enumerated throws reaching it is the recurrence's count of ways. */
  lemma {:induction false} OutcomeCount(n: nat)
    ensures forall s :: multiset(Sums(Product(Faces, n)))[s] == Ways(n, s)
  {
    if n == 0 {
      assert Sums(Product(Faces, 0)) == [0];
    } else {
      OutcomeCount(n - 1);
      forall s ensures multiset(Sums(Product(Faces, n)))[s] == Ways(n, s) {
        OutcomeStep(n - 1, s);
      }
    }
  }

  // ---------------------------------------------------------------------------
  // The returned totals

  /** The integers lo, lo + 1, ..., hi. */
  function Interval(lo: int, hi: int): seq<int>
    requires lo <= hi + 1
  {
    seq(hi - lo + 1, i requires 0 <= i < hi - lo + 1 => lo + i)
  }

  /** A strictly increasing list holding exactly the integers of [lo, hi] is that interval, in order. */
  lemma {:induction false} IncreasingCoversInterval(r: seq<int>, lo: int, hi: int)
    requires lo <= hi + 1
    requires StrictlyIncreasing(r)
    requires forall x :: x in r <==> lo <= x <= hi
    ensures r == Interval(lo, hi)
    decreases |r|
  {
    if r == [] {
      assert lo !in r;
    } else {
      assert r[0] in r;
      forall k | 0 <= k < |r| ensures r[0] <= r[k] {
        if k > 0 {
          assert r[0] < r[k];
        }
      }
      assert lo in r;
      var rest := r[1..];
      forall x ensures x in rest <==> lo + 1 <= x <= hi {
        if x in rest {
          var k :| 0 <= k < |rest| && rest[k] == x;
          assert r[k + 1] == x && r[0] < r[k + 1];
          assert x in r;
        }
        if lo + 1 <= x <= hi {
          assert x in r;
          var k :| 0 <= k < |r| && r[k] == x;
          assert k != 0;
          assert rest[k - 1] == x;
        }
      }
      IncreasingCoversInterval(rest, lo + 1, hi);
    }
  }

  /** For n >= 0 dice the returned totals are n, n + 1, ..., 6n: strictly increasing, 5n + 1 of them. */
  lemma SumsAreEveryTotal(n: nat)
    ensures CalcularProbabilidades(n).Success?
    ensures CalcularProbabilidades(n).value.sums == Interval(n, 6 * n)
    ensures StrictlyIncreasing(CalcularProbabilidades(n).value.sums)
    ensures |CalcularProbabilidades(n).value.sums| == 5 * n + 1
  {
    var xs := Sums(Product(Faces, n));
    var c := Tally(xs);
    var sorted := Sort(c.keys);
    assert CalcularProbabilidades(n).value.sums == sorted;
    TallyCounts(xs);
    SortStrict(c.keys);
    SortPermutes(c.keys);
    OutcomeCount(n);
    forall x ensures x in sorted <==> n <= x <= 6 * n {
      assert x in sorted <==> x in multiset(c.keys);
      WaysSupport(n, x);
    }
    IncreasingCoversInterval(sorted, n, 6 * n);
  }

  // ---------------------------------------------------------------------------
  // The returned probabilities

  lemma {:induction false} CountAtMostLength(xs: seq<int>, v: int)
    ensures multiset(xs)[v] <= |xs|
  {
    if xs != [] {
      assert xs == [xs[0]] + xs[1..];
      CountAtMostLength(xs[1..], v);
    }
  }

  /** `CalcularProbabilidades` for n >= 0, step by step. */
  lemma Unfold(n: nat)
    ensures var c := Tally(Sums(Product(Faces, n)));
      && |Product(Faces, n)| == Pow(6, n) > 0
      && CalcularProbabilidades(n).value.sums == Sort(c.keys)
      && CalcularProbabilidades(n).value.probabilities == Normalize(Sort(c.keys), c, |Product(Faces, n)|)
  {
    ProductLength(Faces, n);
    PowPositive(6, n);
  }

  /** The counter maps each total to its number of ways. */
  lemma CountOfTotal(n: nat, s: int)
    ensures Get(Tally(Sums(Product(Faces, n))), s) == Ways(n, s)
  {
    TallyCounts(Sums(Product(Faces, n)));
    OutcomeCount(n);
  }

  lemma NormalizeAt(keys: seq<int>, c: Counter, total: nat, i: nat)
    requires i < |keys|
    ensures |Normalize(keys, c, total)| == |keys|
    ensures Normalize(keys, c, total)[i] == Fraction(Get(c, keys[i]), total)
  {
  }

  /** Entry i of the returned lists: the total n + i, and its number of ways over 6^n. */
  lemma ProbabilityAt(n: nat, i: nat)
    requires i <= 5 * n
    ensures var d := CalcularProbabilidades(n).value;
      && |d.probabilities| == |d.sums| == 5 * n + 1
      && d.sums[i] == n + i
      && d.probabilities[i] == Fraction(Ways(n, n + i), Pow(6, n))
  {
    var c := Tally(Sums(Product(Faces, n)));
    var sorted := Sort(c.keys);
    SumsAreEveryTotal(n);
    Unfold(n);
    assert sorted[i] == n + i;
    NormalizeAt(sorted, c, |Product(Faces, n)|, i);
    CountOfTotal(n, n + i);
  }

  /**
   * The distribution the recurrence predicts for n dice: the totals n..6n, the
   * total n + i with probability Ways(n, n + i) / 6^n.
   */
  function Expected(n: nat): Distribution
  {
    Distribution(Interval(n, 6 * n),
      seq(5 * n + 1, i requires 0 <= i < 5 * n + 1 => Fraction(Ways(n, n + i), Pow(6, n))))
  }

  lemma ExpectedAt(n: nat, i: nat)
    requires i <= 5 * n
    ensures |Expected(n).probabilities| == |Expected(n).sums| == 5 * n + 1
    ensures Expected(n).sums[i] == n + i
    ensures Expected(n).probabilities[i] == Fraction(Ways(n, n + i), Pow(6, n))
  {
  }

  /** Two distributions with the same totals and the same probability at every position are equal. */
  lemma SameDistribution(d: Distribution, e: Distribution)
    requires d.sums == e.sums && |d.probabilities| == |e.probabilities|
    requires forall i :: 0 <= i < |d.probabilities| ==> d.probabilities[i] == e.probabilities[i]
    ensures d == e
  {
    assert d.probabilities == e.probabilities;
  }

  /** For n >= 0 dice the enumeration returns exactly the distribution the recurrence predicts. */
  lemma MatchesRecurrence(n: nat)
    ensures CalcularProbabilidades(n) == Success(Expected(n))
  {
    var d := CalcularProbabilidades(n).value;
    var e := Expected(n);
    SumsAreEveryTotal(n);
    ProbabilityAt(n, 0);
    forall i | 0 <= i < |d.probabilities| ensures d.probabilities[i] == e.probabilities[i] {
      ProbabilityAt(n, i);
      ExpectedAt(n, i);
    }
    SameDistribution(d, e);
  }

  /** No total can be thrown in more ways than there are throws. */
  lemma WaysAtMostThrows(n: nat, s: int)
    ensures Ways(n, s) <= Pow(6, n)
  {
    OutcomeCount(n);
    ProductLength(Faces, n);
    CountAtMostLength(Sums(Product(Faces, n)), s);
  }

  lemma FractionBounds(f: Fraction)
    requires 0 < f.num <= f.den
    ensures 0.0 < Value(f) <= 1.0
  {
    var a, b := f.num as real, f.den as real;
    assert (a / b) * b == a;
  }

  lemma ExpectedBounds(n: nat, i: nat)
    requires i <= 5 * n
    ensures var f := Expected(n).probabilities[i];
      1 <= f.num <= f.den == Pow(6, n) && 0.0 < Value(f) <= 1.0
  {
    WaysSupport(n, n + i);
    WaysAtMostThrows(n, n + i);
    FractionBounds(Expected(n).probabilities[i]);
  }

  /** Every returned total is thrown at least once, so its probability lies in (0, 1]. */
  lemma ProbabilityOfSum(n: nat, i: nat)
    requires i <= 5 * n
    ensures var d := CalcularProbabilidades(n).value;
      && |d.probabilities| == |d.sums| == 5 * n + 1
      && d.sums[i] == n + i
      && 1 <= d.probabilities[i].num <= d.probabilities[i].den == Pow(6, n)
      && 0.0 < Value(d.probabilities[i]) <= 1.0
  {
    MatchesRecurrence(n);
    ExpectedBounds(n, i);
  }

  lemma WholeIsOne(k: nat)
    requires k > 0
    ensures Value(Fraction(k, k)) == 1.0
  {
  }

  /** The sum of the values of fractions with positive denominators. */
  function ValueSum(ps: seq<Fraction>): real
    requires forall f :: f in ps ==> f.den > 0
  {
    if ps == [] then 0.0 else Value(ps[0]) + ValueSum(ps[1..])
  }

  lemma SameDenominatorAdd(a: nat, b: nat, t: nat)
    requires t > 0
    ensures Value(Fraction(a, t)) + Value(Fraction(b, t)) == Value(Fraction(a + b, t))
  {
  }

  lemma {:induction false} NormalizeSum(keys: seq<int>, c: Counter, total: nat)
    requires total > 0
    ensures forall f :: f in Normalize(keys, c, total) ==> f.den == total
    ensures ValueSum(Normalize(keys, c, total)) == Value(Fraction(Total(keys, c), total))
  {
    if keys != [] {
      assert Normalize(keys, c, total)[1..] == Normalize(keys[1..], c, total);
      NormalizeSum(keys[1..], c, total);
      SameDenominatorAdd(Get(c, keys[0]), Total(keys[1..], c), total);
    }
  }

  /** The number of ways of each total of `totals`, added up. */
  function SumWays(n: nat, totals: seq<int>): nat
  {
    if totals == [] then 0 else Ways(n, totals[0]) + SumWays(n, totals[1..])
  }

  lemma {:induction false} SumWaysIsTotal(n: nat, totals: seq<int>, c: Counter)
    requires forall s :: Get(c, s) == Ways(n, s)
    ensures SumWays(n, totals) == Total(totals, c)
  {
    if totals != [] {
      SumWaysIsTotal(n, totals[1..], c);
    }
  }

  /** Over the returned totals, the counts add up to the number of throws, 6^n. */
  lemma CountsAddUp(n: nat)
    ensures var c := Tally(Sums(Product(Faces, n)));
      && Total(CalcularProbabilidades(n).value.sums, c) == |Product(Faces, n)| == Pow(6, n)
      && SumWays(n, CalcularProbabilidades(n).value.sums) == Pow(6, n)
  {
    var xs := Sums(Product(Faces, n));
    var c := Tally(xs);
    var sorted := Sort(c.keys);
    Unfold(n);
    TallyCounts(xs);
    OutcomeCount(n);
    TallyTotal(xs);
    SortPermutes(c.keys);
    TotalPermutation(sorted, c.keys, c);
    SumWaysIsTotal(n, sorted, c);
  }

  /** The probabilities add up to exactly 1. */
  lemma ProbabilitiesSumToOne(n: nat)
    ensures forall f :: f in CalcularProbabilidades(n).value.probabilities ==> f.den > 0
    ensures ValueSum(CalcularProbabilidades(n).value.probabilities) == 1.0
  {
    var d := CalcularProbabilidades(n).value;
    var c := Tally(Sums(Product(Faces, n)));
    var total := |Product(Faces, n)|;
    Unfold(n);
    CountsAddUp(n);
    NormalizeSum(d.sums, c, total);
    assert Fraction(Total(d.sums, c), total) == Fraction(total, total);
    WholeIsOne(total);
  }

  lemma MirrorEntries(n: nat, i: int, j: int)
    requires i + j == 5 * n
    ensures Ways(n, n + i) == Ways(n, n + j)
  {
    WaysSymmetric(n, n + i);
    assert 7 * n - (n + i) == n + j;
  }

  /** The distribution is symmetric about its mean 7n/2: entries i and 5n - i are for totals adding up to 7n and are equal. */
  lemma ProbabilitiesSymmetric(n: nat, i: nat)
    requires i <= 5 * n
    ensures var d := CalcularProbabilidades(n).value;
      && |d.sums| == |d.probabilities| == 5 * n + 1
      && d.sums[i] + d.sums[5 * n - i] == 7 * n
      && d.probabilities[i] == d.probabilities[5 * n - i]
  {
    MatchesRecurrence(n);
    MirrorEntries(n, i, 5 * n - i);
  }

  /** Up to the middle total 7n/2, each probability is at least the one before it. */
  lemma ProbabilitiesRise(n: nat, i: nat)
    requires 2 * (n + i) + 2 <= 7 * n
    ensures var d := CalcularProbabilidades(n).value;
      && |d.probabilities| == |d.sums| == 5 * n + 1
      && d.sums[i + 1] == d.sums[i] + 1
      && d.probabilities[i].den == d.probabilities[i + 1].den
      && d.probabilities[i].num <= d.probabilities[i + 1].num
  {
    MatchesRecurrence(n);
    ExpectedAt(n, i);
    ExpectedAt(n, i + 1);
    WaysRising(n);
    assert RisesAt(n, n + i);
  }

  /** `WaysMode` with totals written as n plus an index into the returned lists. */
  lemma ModeAtIndex(n: nat, i: int, k: int)
    requires 2 * k <= 5 * n <= 2 * k + 1
    ensures Ways(n, n + i) <= Ways(n, n + k)
    ensures Ways(n, n + k) == Ways(n, n + (5 * n - k))
  {
    WaysMode(n, n + i, n + k);
    assert 7 * n - (n + k) == n + (5 * n - k);
  }

  lemma ExpectedMode(n: nat, i: nat, k: nat)
    requires i <= 5 * n
    requires 2 * k <= 5 * n <= 2 * k + 1
    ensures var e := Expected(n);
      && |e.probabilities| == |e.sums| == 5 * n + 1
      && e.sums[k] == n + k && e.sums[5 * n - k] == n + (5 * n - k)
      && e.probabilities[i].num <= e.probabilities[k].num
      && e.probabilities[k] == e.probabilities[5 * n - k]
  {
    ExpectedAt(n, i);
    ExpectedAt(n, k);
    ExpectedAt(n, 5 * n - k);
    ModeAtIndex(n, i, k);
  }

  /** The middle total 7n/2, rounded down, is the most likely one, and 7n minus it is just as likely. */
  lemma MostLikelyTotal(n: nat, i: nat)
    requires i <= 5 * n
    ensures var d := CalcularProbabilidades(n).value; var k := 5 * n / 2;
      && |d.probabilities| == |d.sums| == 5 * n + 1
      && d.sums[k] == 7 * n / 2 && d.sums[5 * n - k] == 7 * n - 7 * n / 2
      && d.probabilities[i].num <= d.probabilities[k].num
      && d.probabilities[k] == d.probabilities[5 * n - k]
  {
    MatchesRecurrence(n);
    ExpectedMode(n, i, 5 * n / 2);
  }

  // ---------------------------------------------------------------------------
  // Concrete distributions

  lemma OneDieWays(t: int)
    ensures Ways(1, t) == if 1 <= t <= 6 then 1 else 0
  {
  }

  /** The number of ways two dice total `t`: t - 1 up to 7, then 13 - t up to 12. */
  lemma TwoDiceWays(t: int)
    ensures Ways(2, t) == if t < 2 || t > 12 then 0 else if t <= 7 then t - 1 else 13 - t
  {
    OneDieWays(t - 1);
    OneDieWays(t - 2);
    OneDieWays(t - 3);
    OneDieWays(t - 4);
    OneDieWays(t - 5);
    OneDieWays(t - 6);
  }

  lemma OneToSix()
    ensures Interval(1, 6) == [1, 2, 3, 4, 5, 6]
  {
  }

  lemma ExpectedOneDie()
    ensures Expected(1) == Distribution([1, 2, 3, 4, 5, 6], seq(6, _ => Fraction(1, 6)))
  {
    var e := Expected(1);
    assert Pow(6, 1) == 6;
    OneToSix();
    forall i | 0 <= i < 6 ensures e.probabilities[i] == Fraction(1, 6) {
      OneDieWays(1 + i);
    }
    assert e.probabilities == seq(6, _ => Fraction(1, 6));
  }

  /** One die: totals 1..6, each with probability 1/6. */
  lemma OneDie()
    ensures CalcularProbabilidades(1) ==
      Success(Distribution([1, 2, 3, 4, 5, 6], seq(6, _ => Fraction(1, 6))))
  {
    MatchesRecurrence(1);
    ExpectedOneDie();
  }

  lemma ExpectedTwoDice()
    ensures var e := Expected(2);
      && e.sums == Interval(2, 12)
      && |e.probabilities| == 11
      && e.sums[5] == 7 && e.probabilities[5] == Fraction(6, 36)
      && e.sums[0] == 2 && e.probabilities[0] == Fraction(1, 36)
      && e.sums[10] == 12 && e.probabilities[10] == Fraction(1, 36)
      && forall i :: 0 <= i < 11 ==> e.probabilities[i].den == 36 && e.probabilities[i].num <= 6
  {
    var e := Expected(2);
    assert Pow(6, 2) == 36;
    forall i | 0 <= i < 11 ensures e.probabilities[i] == Fraction(if i <= 5 then i + 1 else 11 - i, 36) {
      TwoDiceWays(2 + i);
    }
  }

  /** With two dice, 7 is thrown 6 ways of 36 and no total more often; 2 and 12 one way each. */
  lemma TwoDice()
    ensures var d := CalcularProbabilidades(2).value;
      && d.sums == Interval(2, 12)
      && |d.probabilities| == 11
      && d.sums[5] == 7 && d.probabilities[5] == Fraction(6, 36)
      && d.sums[0] == 2 && d.probabilities[0] == Fraction(1, 36)
      && d.sums[10] == 12 && d.probabilities[10] == Fraction(1, 36)
      && forall i :: 0 <= i < 11 ==> d.probabilities[i].den == 36 && d.probabilities[i].num <= 6
  {
    MatchesRecurrence(2);
    ExpectedTwoDice();
  }

  /** Three dice total 10 in 27 ways. */
  lemma ThreeDiceTen()
    ensures Ways(3, 10) == 27
  {
    TwoDiceWays(4);
    TwoDiceWays(5);
    TwoDiceWays(6);
    TwoDiceWays(7);
    TwoDiceWays(8);
    TwoDiceWays(9);
  }

  /** Every entry of the predicted distribution is at most the entry of the middle total. */
  lemma ExpectedPeak(n: nat, k: nat)
    requires 2 * k <= 5 * n <= 2 * k + 1
    ensures var e := Expected(n);
      && |e.probabilities| == 5 * n + 1
      && e.probabilities[k] == e.probabilities[5 * n - k] == Fraction(Ways(n, n + k), Pow(6, n))
      && forall i :: 0 <= i <= 5 * n ==>
           e.probabilities[i].den == Pow(6, n) && e.probabilities[i].num <= Ways(n, n + k)
  {
    var e := Expected(n);
    ExpectedMode(n, k, k);
    ExpectedAt(n, k);
    forall i | 0 <= i <= 5 * n
      ensures e.probabilities[i].den == Pow(6, n) && e.probabilities[i].num <= Ways(n, n + k)
    {
      ExpectedMode(n, i, k);
      ExpectedAt(n, i);
    }
  }

  lemma ExpectedThreeDice()
    ensures var e := Expected(3);
      && |e.sums| == |e.probabilities| == 16
      && e.sums[7] == 10 && e.probabilities[7] == Fraction(27, 216)
      && e.sums[8] == 11 && e.probabilities[8] == Fraction(27, 216)
      && forall i :: 0 <= i < 16 ==> e.probabilities[i].den == 216 && e.probabilities[i].num <= 27
  {
    ExpectedAt(3, 7);
    ExpectedAt(3, 8);
    ExpectedPeak(3, 7);
    ThreeDiceTen();
    assert Pow(6, 3) == 216;
  }

  /** With three dice, 10 and 11 are both thrown 27 ways of 216, and no total more often. */
  lemma ThreeDice()
    ensures var d := CalcularProbabilidades(3).value;
      && |d.sums| == |d.probabilities| == 16
      && d.sums[7] == 10 && d.probabilities[7] == Fraction(27, 216)
      && d.sums[8] == 11 && d.probabilities[8] == Fraction(27, 216)
      && forall i :: 0 <= i < 16 ==> d.probabilities[i].den == 216 && d.probabilities[i].num <= 27
  {
    MatchesRecurrence(3);
    ExpectedThreeDice();
  }
}
