/**
 * `sorted(xs)` on a list of integers: the ascending rearrangement of `xs`.
 * Written as insertion sort; any correct sort gives the same list, since a
 * sorted permutation of a list is unique.
 */
module Sorting {

  predicate Sorted(s: seq<int>)
  {
    forall i, j :: 0 <= i < j < |s| ==> s[i] <= s[j]
  }

  predicate StrictlyIncreasing(s: seq<int>)
  {
    forall i, j :: 0 <= i < j < |s| ==> s[i] < s[j]
  }

  /** Puts `x` before the first element of `s` that is not smaller than it. */
  function Insert(x: int, s: seq<int>): seq<int>
  {
    if s == [] || x <= s[0] then [x] + s
    else [s[0]] + Insert(x, s[1..])
  }

  /** `Insert(x, s)` holds the elements of `s` and one more `x`. */
  lemma {:induction false} InsertPermutes(x: int, s: seq<int>)
    ensures multiset(Insert(x, s)) == multiset(s) + multiset{x}
  {
    if s != [] && x > s[0] {
      InsertPermutes(x, s[1..]);
      assert s == [s[0]] + s[1..];
    }
  }

  /** Every element of `Insert(x, s)` is `x` or an element of `s`. */
  lemma InsertMembers(x: int, s: seq<int>, y: int)
    requires y in Insert(x, s)
    ensures y == x || y in s
  {
    InsertPermutes(x, s);
    assert y in multiset(Insert(x, s));
  }

  lemma {:induction false} InsertSorted(x: int, s: seq<int>)
    requires Sorted(s)
    ensures Sorted(Insert(x, s))
  {
    if s != [] && x > s[0] {
      var r' := Insert(x, s[1..]);
      InsertSorted(x, s[1..]);
      var r := [s[0]] + r';
      forall i, j | 0 <= i < j < |r| ensures r[i] <= r[j] {
        InsertMembers(x, s[1..], r[j]);
        if i > 0 {
          assert r[i] == r'[i - 1] && r[j] == r'[j - 1];
        }
      }
    }
  }

  function Sort(s: seq<int>): seq<int>
  {
    if s == [] then [] else Insert(s[0], Sort(s[1..]))
  }

  /** `Sort(s)` is a rearrangement of `s`. */
  lemma {:induction false} SortPermutes(s: seq<int>)
    ensures multiset(Sort(s)) == multiset(s)
  {
    if s != [] {
      SortPermutes(s[1..]);
      InsertPermutes(s[0], Sort(s[1..]));
      assert s == [s[0]] + s[1..];
    }
  }

  /** `Sort(s)` is in ascending order. */
  lemma {:induction false} SortSorted(s: seq<int>)
    ensures Sorted(Sort(s))
  {
    if s != [] {
      SortSorted(s[1..]);
      InsertSorted(s[0], Sort(s[1..]));
    }
  }

  /** Inserting a new element into a strictly increasing list keeps it strictly increasing. */
  lemma {:induction false} InsertStrict(x: int, s: seq<int>)
    requires StrictlyIncreasing(s) && x !in s
    ensures StrictlyIncreasing(Insert(x, s))
  {
    if s != [] && x > s[0] {
      InsertStrict(x, s[1..]);
      var r' := Insert(x, s[1..]);
      var r := [s[0]] + r';
      forall i, j | 0 <= i < j < |r| ensures r[i] < r[j] {
        InsertMembers(x, s[1..], r[j]);
        if i > 0 {
          assert r[i] == r'[i - 1] && r[j] == r'[j - 1];
        }
      }
    }
  }

  /** Sorting a list without repeated elements gives a strictly increasing list. */
  lemma {:induction false} SortStrict(s: seq<int>)
    requires forall i, j :: 0 <= i < j < |s| ==> s[i] != s[j]
    ensures StrictlyIncreasing(Sort(s))
  {
    if s != [] {
      SortStrict(s[1..]);
      assert s[0] !in s[1..];
      SortPermutes(s[1..]);
      assert s[0] !in multiset(Sort(s[1..]));
      InsertStrict(s[0], Sort(s[1..]));
    }
  }
}
