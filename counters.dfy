/**
 * `collections.Counter` built from a list of integers: a dictionary whose keys
 * are the distinct elements, in the order each was first seen, and whose value
 * for a key is how often it occurs. Reading a missing key gives 0.
 */
module Counters {

  datatype Counter = Counter(keys: seq<int>, counts: map<int, nat>)

  predicate Distinct(s: seq<int>)
  {
    forall i, j :: 0 <= i < j < |s| ==> s[i] != s[j]
  }

  /** The dictionary invariant: keys listed once each, every key counted at least once. */
  ghost predicate Valid(c: Counter)
  {
    && Distinct(c.keys)
    && (forall k :: k in c.counts <==> k in c.keys)
    && (forall k :: k in c.counts ==> c.counts[k] > 0)
  }

  /** `c[x]`: the count of `x`, 0 when `x` is not a key. */
  function Get(c: Counter, x: int): nat
  {
    if x in c.counts then c.counts[x] else 0
  }

  /** One more occurrence of `x`: a new key goes at the end of the key order. */
  function Add(c: Counter, x: int): Counter
  {
    if x in c.counts then Counter(c.keys, c.counts[x := c.counts[x] + 1])
    else Counter(c.keys + [x], c.counts[x := 1])
  }

  /** `Counter(xs)`: counts every element, in list order. */
  function Tally(xs: seq<int>): Counter
  {
    if xs == [] then Counter([], map[]) else Add(Tally(xs[..|xs| - 1]), xs[|xs| - 1])
  }

  /** The counter of a list is a valid dictionary that maps each element to its number of occurrences and has exactly the list's elements as keys. */
  lemma {:induction false} TallyCounts(xs: seq<int>)
    ensures Valid(Tally(xs))
    ensures forall x :: Get(Tally(xs), x) == multiset(xs)[x]
    ensures forall x :: x in Tally(xs).keys <==> x in xs
  {
    if xs != [] {
      var init := xs[..|xs| - 1];
      assert xs == init + [xs[|xs| - 1]];
      TallyCounts(init);
    }
  }

  /** The sum of the counts of `keys`. */
  function Total(keys: seq<int>, c: Counter): nat
  {
    if keys == [] then 0 else Get(c, keys[0]) + Total(keys[1..], c)
  }

  lemma {:induction false} TotalAppend(a: seq<int>, b: seq<int>, c: Counter)
    ensures Total(a + b, c) == Total(a, c) + Total(b, c)
  {
    if a != [] {
      assert (a + b)[1..] == a[1..] + b;
      TotalAppend(a[1..], b, c);
    } else {
      assert a + b == b;
    }
  }

  /** Raising the count of `x` by one raises the total over distinct keys by one exactly when `x` is among them. */
  lemma {:induction false} TotalBump(keys: seq<int>, c: Counter, x: int)
    requires Distinct(keys)
    ensures Total(keys, Add(c, x)) == Total(keys, c) + (if x in keys then 1 else 0)
  {
    if keys != [] {
      assert Distinct(keys[1..]);
      assert keys[0] == x ==> x !in keys[1..];
      assert x in keys <==> keys[0] == x || x in keys[1..];
      TotalBump(keys[1..], c, x);
    }
  }

  /** The counts of all keys add up to the length of the counted list. */
  lemma {:induction false} TallyTotal(xs: seq<int>)
    ensures Total(Tally(xs).keys, Tally(xs)) == |xs|
  {
    if xs != [] {
      var init, x := xs[..|xs| - 1], xs[|xs| - 1];
      assert xs == init + [x];
      var c := Tally(init);
      TallyCounts(init);
      TallyTotal(init);
      TotalBump(c.keys, c, x);
      if x !in c.counts {
        TotalAppend(c.keys, [x], Add(c, x));
      }
    }
  }

  /** Taking the key at position `i` out of the list takes its count out of the total. */
  lemma TotalRemove(b: seq<int>, i: nat, c: Counter)
    requires i < |b|
    ensures Total(b, c) == Get(c, b[i]) + Total(b[..i] + b[i + 1..], c)
  {
    assert b == (b[..i] + [b[i]]) + b[i + 1..];
    TotalAppend(b[..i] + [b[i]], b[i + 1..], c);
    TotalAppend(b[..i], [b[i]], c);
    TotalAppend(b[..i], b[i + 1..], c);
  }

  lemma RemoveAt(b: seq<int>, i: nat)
    requires i < |b|
    ensures multiset(b[..i] + b[i + 1..]) == multiset(b) - multiset{b[i]}
  {
    assert b == b[..i] + [b[i]] + b[i + 1..];
  }

  /** The total does not depend on the order in which the keys are listed. */
  lemma {:induction false} TotalPermutation(a: seq<int>, b: seq<int>, c: Counter)
    requires multiset(a) == multiset(b)
    ensures Total(a, c) == Total(b, c)
  {
    if a != [] {
      var x := a[0];
      assert x in multiset(b);
      var i :| 0 <= i < |b| && b[i] == x;
      RemoveAt(b, i);
      assert a == [x] + a[1..];
      assert multiset(a[1..]) == multiset(a) - multiset{x};
      TotalPermutation(a[1..], b[..i] + b[i + 1..], c);
      TotalRemove(b, i, c);
    }
  }
}
