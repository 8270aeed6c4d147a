/**
 * The ordering step of the search service: `argsort()[::-1]` over the
 * similarity scores of the rows that passed the filters, that is, the
 * positions of the scores from the highest score to the lowest.
 */
module Ranking {

  /** Every position in `xs` is below `n`. */
  predicate Within(xs: seq<nat>, n: nat) {
    forall a :: 0 <= a < |xs| ==> xs[a] < n
  }

  /** No position occurs twice. */
  predicate Distinct(xs: seq<nat>) {
    forall a, b :: 0 <= a < b < |xs| ==> xs[a] != xs[b]
  }

  /** The keys of the positions in `xs` never increase from left to right. */
  predicate Descending(xs: seq<nat>, keys: seq<real>) {
    Within(xs, |keys|) && forall a, b :: 0 <= a < b < |xs| ==> keys[xs[a]] >= keys[xs[b]]
  }

  /**
   * Puts position `i` in front of the first position whose key is not
   * larger than its own. Among equal keys the later position comes first,
   * which is what reversing a stable ascending argsort gives.
   */
  function Insert(xs: seq<nat>, i: nat, keys: seq<real>): (r: seq<nat>)
    requires i < |keys| && Within(xs, |keys|)
    ensures |r| == |xs| + 1
    ensures forall a :: 0 <= a < |r| ==> r[a] == i || r[a] in xs
  {
    if xs == [] then [i]
    else if keys[i] >= keys[xs[0]] then [i] + xs
    else [xs[0]] + Insert(xs[1..], i, keys)
  }

  /** The positions `0 .. n-1`, ordered by descending key. */
  function Order(keys: seq<real>, n: nat): (r: seq<nat>)
    requires n <= |keys|
    ensures |r| == n && Within(r, n)
  {
    if n == 0 then []
    else
      Insert(Order(keys, n - 1), n - 1, keys)
  }

  /** `keys.argsort()[::-1]`. */
  function Argsort(keys: seq<real>): (r: seq<nat>)
    ensures |r| == |keys|
  {
    Order(keys, |keys|)
  }

  /** Every position in `xs` has a key of at most `m`. */
  predicate Bounded(xs: seq<nat>, keys: seq<real>, m: real) {
    Within(xs, |keys|) && forall a :: 0 <= a < |xs| ==> keys[xs[a]] <= m
  }

  lemma {:induction false} InsertBounded(xs: seq<nat>, i: nat, keys: seq<real>, m: real)
    requires i < |keys| && Bounded(xs, keys, m) && keys[i] <= m
    ensures Bounded(Insert(xs, i, keys), keys, m)
  {
    if xs != [] && keys[i] < keys[xs[0]] {
      InsertBounded(xs[1..], i, keys, m);
    }
  }

  lemma DescendingTail(xs: seq<nat>, keys: seq<real>)
    requires xs != [] && Descending(xs, keys)
    ensures Descending(xs[1..], keys) && Bounded(xs[1..], keys, keys[xs[0]])
  {
    forall a, b | 0 <= a < b < |xs| - 1 ensures keys[xs[1..][a]] >= keys[xs[1..][b]] {
      assert xs[1..][a] == xs[a + 1] && xs[1..][b] == xs[b + 1];
    }
    forall a | 0 <= a < |xs| - 1 ensures keys[xs[1..][a]] <= keys[xs[0]] {
      assert xs[1..][a] == xs[a + 1];
    }
  }

  lemma DescendingCons(x: nat, xs: seq<nat>, keys: seq<real>)
    requires x < |keys| && Descending(xs, keys) && Bounded(xs, keys, keys[x])
    ensures Descending([x] + xs, keys)
  {
    var r := [x] + xs;
    forall a, b | 0 <= a < b < |r| ensures keys[r[a]] >= keys[r[b]] {
      assert r[b] == xs[b - 1];
      if a > 0 {
        assert r[a] == xs[a - 1];
      }
    }
  }

  lemma {:induction false} InsertDescending(xs: seq<nat>, i: nat, keys: seq<real>)
    requires i < |keys| && Descending(xs, keys)
    ensures Descending(Insert(xs, i, keys), keys)
  {
    if xs == [] {
    } else if keys[i] >= keys[xs[0]] {
      DescendingTail(xs, keys);
      assert Bounded(xs, keys, keys[i]);
      DescendingCons(i, xs, keys);
    } else {
      DescendingTail(xs, keys);
      InsertDescending(xs[1..], i, keys);
      InsertBounded(xs[1..], i, keys, keys[xs[0]]);
      DescendingCons(xs[0], Insert(xs[1..], i, keys), keys);
    }
  }

  lemma {:induction false} InsertDistinct(xs: seq<nat>, i: nat, keys: seq<real>)
    requires i < |keys| && Within(xs, |keys|)
    requires Distinct(xs) && i !in xs
    ensures Distinct(Insert(xs, i, keys))
  {
    if xs != [] && keys[i] < keys[xs[0]] {
      InsertDistinct(xs[1..], i, keys);
      var rest := Insert(xs[1..], i, keys);
      forall b | 0 <= b < |rest| ensures rest[b] != xs[0] {
        if rest[b] != i {
          var c :| 0 <= c < |xs[1..]| && xs[1..][c] == rest[b];
        }
      }
    }
  }

  /** Inserting keeps every position already there and adds the new one. */
  lemma {:induction false} InsertKeeps(xs: seq<nat>, i: nat, keys: seq<real>)
    requires i < |keys| && Within(xs, |keys|)
    ensures i in Insert(xs, i, keys)
    ensures forall x :: x in xs ==> x in Insert(xs, i, keys)
  {
    if xs != [] && keys[i] < keys[xs[0]] {
      InsertKeeps(xs[1..], i, keys);
      forall x | x in xs ensures x in Insert(xs, i, keys) {
        if x != xs[0] {
          var c :| 0 <= c < |xs| && xs[c] == x;
          assert x in xs[1..] by { assert xs[1..][c - 1] == x; }
        }
      }
    }
  }

  /** The order holds exactly the positions below `n`. */
  lemma {:induction false} OrderMembers(keys: seq<real>, n: nat)
    requires n <= |keys|
    ensures |Order(keys, n)| == n
    ensures forall x: nat :: x in Order(keys, n) <==> x < n
  {
    if n > 0 {
      var prev := Order(keys, n - 1);
      OrderMembers(keys, n - 1);
      InsertKeeps(prev, n - 1, keys);
      var r := Insert(prev, n - 1, keys);
      forall x: nat ensures x in r <==> x < n {
        if x < n - 1 {
          assert x in prev;
        }
        if x in r {
          var a :| 0 <= a < |r| && r[a] == x;
          if x != n - 1 {
            assert x in prev;
          }
        }
      }
    }
  }

  /** No position occurs twice in the order. */
  lemma {:induction false} OrderDistinct(keys: seq<real>, n: nat)
    requires n <= |keys|
    ensures Distinct(Order(keys, n))
  {
    if n > 0 {
      var prev := Order(keys, n - 1);
      OrderDistinct(keys, n - 1);
      assert n - 1 !in prev by {
        assert Within(prev, n - 1);
      }
      InsertDistinct(prev, n - 1, keys);
    }
  }

  /** The order puts higher keys first. */
  lemma {:induction false} OrderDescending(keys: seq<real>, n: nat)
    requires n <= |keys|
    ensures Descending(Order(keys, n), keys)
  {
    if n > 0 {
      OrderDescending(keys, n - 1);
      InsertDescending(Order(keys, n - 1), n - 1, keys);
    }
  }

  /** `argsort()[::-1]` lists every position exactly once, highest score first. */
  lemma ArgsortIsSortedPermutation(keys: seq<real>)
    ensures |Argsort(keys)| == |keys|
    ensures forall x: nat :: x in Argsort(keys) <==> x < |keys|
    ensures Distinct(Argsort(keys))
    ensures Descending(Argsort(keys), keys)
  {
    OrderMembers(keys, |keys|);
    OrderDistinct(keys, |keys|);
    OrderDescending(keys, |keys|);
  }
}
