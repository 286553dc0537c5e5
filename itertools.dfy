/**
 * `itertools.product(pool, repeat=n)`: every length-n tuple over `pool`, in
 * lexicographic order of positions (the first position varies slowest).
 * Tuples are sequences.
 */
module Itertools {

  function Pow(b: nat, n: nat): nat
  {
    if n == 0 then 1 else b * Pow(b, n - 1)
  }

  lemma {:induction false} PowPositive(b: nat, n: nat)
    requires b > 0
    ensures Pow(b, n) > 0
  {
    if n > 0 {
      PowPositive(b, n - 1);
    }
  }

  /** Every tuple of `tails` with `x` put in front of it, in the order of `tails`. */
  function PrependEach(x: int, tails: seq<seq<int>>): seq<seq<int>>
  {
    seq(|tails|, i requires 0 <= i < |tails| => [x] + tails[i])
  }

  /** For each element of `pool` in turn, that element in front of every tuple of `tails`. */
  function Extend(pool: seq<int>, tails: seq<seq<int>>): seq<seq<int>>
  {
    if pool == [] then [] else PrependEach(pool[0], tails) + Extend(pool[1..], tails)
  }

  function Product(pool: seq<int>, repeat: nat): seq<seq<int>>
  {
    if repeat == 0 then [[]] else Extend(pool, Product(pool, repeat - 1))
  }

  lemma {:induction false} ExtendLength(pool: seq<int>, tails: seq<seq<int>>)
    ensures |Extend(pool, tails)| == |pool| * |tails|
  {
    if pool != [] {
      ExtendLength(pool[1..], tails);
      calc {
        |Extend(pool, tails)|;
        |tails| + |Extend(pool[1..], tails)|;
        |tails| + (|pool| - 1) * |tails|;
        { assert (|pool| - 1) * |tails| == |pool| * |tails| - |tails|; }
        |pool| * |tails|;
      }
    }
  }

  /** There are |pool|^repeat tuples. */
  lemma {:induction false} ProductLength(pool: seq<int>, repeat: nat)
    ensures |Product(pool, repeat)| == Pow(|pool|, repeat)
  {
    if repeat > 0 {
      ProductLength(pool, repeat - 1);
      ExtendLength(pool, Product(pool, repeat - 1));
    }
  }

  lemma PrependEachMembers(x: int, tails: seq<seq<int>>, t: seq<int>)
    ensures t in PrependEach(x, tails) <==> |t| > 0 && t[0] == x && t[1..] in tails
  {
    var p := PrependEach(x, tails);
    if t in p {
      var i :| 0 <= i < |p| && p[i] == t;
      assert t[1..] == tails[i];
    }
    if |t| > 0 && t[0] == x && t[1..] in tails {
      var i :| 0 <= i < |tails| && tails[i] == t[1..];
      assert p[i] == t;
    }
  }

  lemma {:induction false} ExtendMembers(pool: seq<int>, tails: seq<seq<int>>, t: seq<int>)
    ensures t in Extend(pool, tails) <==> |t| > 0 && t[0] in pool && t[1..] in tails
  {
    if pool != [] {
      PrependEachMembers(pool[0], tails, t);
      ExtendMembers(pool[1..], tails, t);
      assert |t| > 0 ==> (t[0] in pool <==> t[0] == pool[0] || t[0] in pool[1..]) by {
        assert pool == [pool[0]] + pool[1..];
      }
    }
  }

  /** The tuples produced are exactly the length-`repeat` sequences over `pool`. */
  lemma {:induction false} ProductMembers(pool: seq<int>, repeat: nat, t: seq<int>)
    ensures t in Product(pool, repeat) <==>
            |t| == repeat && forall j :: 0 <= j < |t| ==> t[j] in pool
  {
    if repeat > 0 {
      ExtendMembers(pool, Product(pool, repeat - 1), t);
      if |t| > 0 {
        ProductMembers(pool, repeat - 1, t[1..]);
        assert (forall j :: 0 <= j < |t| ==> t[j] in pool) <==>
               t[0] in pool && (forall j :: 0 <= j < |t[1..]| ==> t[1..][j] in pool) by {
          if t[0] in pool && (forall j :: 0 <= j < |t[1..]| ==> t[1..][j] in pool) {
            forall j | 0 <= j < |t| ensures t[j] in pool {
              if j > 0 { assert t[j] == t[1..][j - 1]; }
            }
          }
        }
      }
    }
  }
}
