# Exact distribution of the total of n dice

`calcular_probabilidades(num_dados)` in dados.py returns two lists for `n` fair
six-sided dice: the distinct totals that can be thrown, in ascending order, and
the probability of each one. It gets them by brute force. It enumerates every
throw with `itertools.product(range(1, 7), repeat=n)` and totals each throw.
It counts the totals with `collections.Counter`, sorts the distinct totals and
divides each count by the number of throws.

The model follows those steps one function at a time:

- `Itertools.Product`: the lexicographic product;
- `Dados.Sums`: the list comprehension of totals;
- `Counters.Tally`: a `Counter` with its keys in first-seen order and a count map;
- `Sorting.Sort`: `sorted`;
- `Dados.Normalize`: the second list comprehension.

Their composition is `Dados.CalcularProbabilidades`. A probability is kept as
the exact fraction `count / total` (`Dados.Fraction`), and `Dados.Value` gives
its real value.

A negative dice count makes `itertools.product` raise `ValueError`. The model
returns `Failure(NegativeRepeat)` for it. For zero dice the code returns the
single total 0 with probability 1, and so does the model. The program documents
no behaviour for zero dice; the model follows what the code does, and every
range fact below is stated for all `n >= 0`.

The convolution recurrence `Convolution.Ways(n, s)` counts the ways `n` dice
make `s`: the last die shows 1 to 6 and the other dice make up the rest. The
central theorem, `Dados.MatchesRecurrence`, states that the brute-force result
is exactly the distribution this recurrence predicts, `Dados.Expected(n)`:
totals `n .. 6n`, the `i`-th with probability `Ways(n, n + i) / 6^n`. The
other distribution facts are proved about the recurrence and carried over
through that theorem.

## Model

| member | source | states |
|---|---|---|
| Dados.CalcularProbabilidades | dados.py:6-15 | The call fails exactly when the dice count is negative; on success both returned lists have the same length |
| Itertools.Product | dados.py:9 | Every throw of the dice, in lexicographic order; its meaning is stated by ProductLength and ProductMembers |
| Dados.SumOf | dados.py:10 | The total of one throw; see ThrowTotal |
| Dados.ThrowTotal | dados.py:10 | The total of a throw of n dice lies between n and 6n |
| Dados.Sums | dados.py:10 | The total of every enumerated throw, in enumeration order; see OutcomeCount, which counts each total among its entries |
| Counters.Add | dados.py:11 | One more occurrence of a value in a `Counter`; see TallyCounts |
| Counters.Tally | dados.py:11 | The count of every total; see TallyCounts and TallyTotal |
| Sorting.Sort | dados.py:13 | The distinct totals in ascending order; see SortPermutes, SortSorted and SortStrict |
| Dados.Normalize | dados.py:12-14 | Each sorted total's count over the number of throws, as an exact fraction; see ProbabilityAt and ProbabilitiesSumToOne |
| Itertools.ProductLength | dados.py:9 | `product(pool, repeat=n)` yields `len(pool)^n` tuples |
| Itertools.ProductMembers | dados.py:9 | A tuple is produced exactly when it has length `repeat` and every entry is in the pool |
| Dados.OutcomesAreThrows | dados.py:9 | The enumeration has 6^n entries, and they are exactly the length-n sequences with every face in 1..6 |
| Counters.TallyCounts | dados.py:11 | The Counter of a list has distinct keys, exactly the list's elements as keys, and maps every value to its number of occurrences (0 when absent) |
| Counters.TallyTotal | dados.py:11-12 | The counts of all keys add up to the length of the counted list |
| Counters.TotalPermutation | dados.py:13-14 | Adding up the counts over any reordering of the keys gives the same sum |
| Sorting.SortPermutes | dados.py:13 | `sorted` returns a rearrangement of its input |
| Sorting.SortSorted | dados.py:13 | `sorted` returns an ascending list |
| Sorting.SortStrict | dados.py:11-13 | Sorting a list without repeats gives a strictly increasing list |
| Convolution.WaysSupport | dados.py:9-11 | A total can be thrown with n dice exactly when it lies between n and 6n |
| Convolution.WaysSymmetric | dados.py:9-11 | A total s and its mirror 7n - s can be thrown in the same number of ways |
| Convolution.WaysRising | dados.py:9-11 | Up to the middle total 7n/2, each total can be thrown in at least as many ways as the one before |
| Convolution.WaysMode | dados.py:9-11 | The middle totals, 7n/2 rounded down and up, can be thrown in the most ways |
| Dados.OutcomeCount | dados.py:9-11 | For every total, the number of enumerated throws reaching it equals the recurrence's count `Ways(n, s)` |
| Dados.SumsAreEveryTotal | dados.py:9-13 | The returned totals are exactly n, n+1, ..., 6n: strictly increasing, 5n+1 of them, first n and last 6n |
| Dados.ProbabilityAt | dados.py:13-14 | Entry i belongs to the total n + i, and its probability is `Ways(n, n + i) / 6^n` |
| Dados.MatchesRecurrence | dados.py:6-15 | For every n >= 0 the result equals the distribution predicted by the convolution recurrence |
| Dados.ProbabilityOfSum | dados.py:11-14 | Every probability has a numerator of at least 1 and the denominator 6^n, so its value lies in (0, 1] |
| Dados.CountsAddUp | dados.py:11-14 | Over the returned totals the counts add up to the number of throws, 6^n |
| Dados.ProbabilitiesSumToOne | dados.py:11-14 | The returned probabilities add up to exactly 1 |
| Dados.ProbabilitiesSymmetric | dados.py:9-14 | Entries i and 5n - i are for totals adding up to 7n, and their probabilities are equal |
| Dados.ProbabilitiesRise | dados.py:9-14 | Up to the middle total, each entry's probability is at least the previous entry's |
| Dados.MostLikelyTotal | dados.py:9-14 | The total 7n/2 (rounded down) is the most likely one, and 7n minus it is just as likely |
| Dados.TwoDiceWays | dados.py:9-11 | Two dice make t in t - 1 ways up to 7 and in 13 - t ways from 7 to 12 |
| Dados.OneDie | dados.py:6-15 | One die gives totals 1..6, each with probability 1/6 |
| Dados.TwoDice | dados.py:6-15 | Two dice give totals 2..12. The total 7 has probability 6/36, no total has more, and 2 and 12 have 1/36 each |
| Dados.ThreeDice | dados.py:6-15 | Three dice give 16 totals. Both 10 and 11 have probability 27/216, and no total has more |

## Left out

- `graficar_individualmente` and `graficar_resumen` (dados.py:17-67): plotting through matplotlib and showing windows is I/O.
- The numpy `linspace`/`interp` smoothing curve (dados.py:31-32, 55-56): floating-point interpolation used only for drawing.
- `main` and the `__main__` guard (dados.py:69-81): they only print the results as percentages and call the plotting functions.
- Dados.CalcularProbabilidades: each probability is returned as the exact fraction count/6^n, not as the double `conteo[s] / total_combinaciones`. Rounding to double precision is not modelled, so "sums to 1" holds exactly in the model and only approximately in the program.
- Time and memory: the program builds all 6^n tuples in a list. The model's values are the same, but its cost is not modelled.
- Arguments that are not integers raise `TypeError` in Python. The model's parameter is an integer, so that case cannot arise.
