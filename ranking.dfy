/**
 * `sorted(places, key=lambda x: x['user_ratings_total'], reverse=True)`:
 * most reviewed first, and, as Python's sort is stable even when reversed,
 * records with equal counts keep their input order.
 */
module Ranking {
  import opened Listings

  /** Every record has at least as many reviews as every later one. */
  ghost predicate NonIncreasing(xs: seq<Listing>) {
    forall i, j :: 0 <= i < j < |xs| ==> xs[i].userRatingsTotal >= xs[j].userRatingsTotal
  }

  /** The records with exactly `count` reviews, in their order in `xs`. */
  function WithCount(xs: seq<Listing>, count: int): seq<Listing>
    decreases |xs|
  {
    if xs == [] then []
    else (if xs[0].userRatingsTotal == count then [xs[0]] else []) + WithCount(xs[1..], count)
  }

  lemma WithCountCons(x: Listing, ys: seq<Listing>, count: int)
    ensures WithCount([x] + ys, count) == (if x.userRatingsTotal == count then [x] else []) + WithCount(ys, count)
  {
    assert ([x] + ys)[1..] == ys;
  }

  /**
   * Puts `x` before the first record with no more reviews than it, so that
   * `x`, which came earlier in the input, precedes the records it ties with.
   */
  function Insert(x: Listing, ys: seq<Listing>): (r: seq<Listing>)
    ensures |r| == |ys| + 1
    decreases |ys|
  {
    if ys == [] || x.userRatingsTotal >= ys[0].userRatingsTotal then [x] + ys
    else [ys[0]] + Insert(x, ys[1..])
  }

  lemma {:induction false} InsertPermutes(x: Listing, ys: seq<Listing>)
    ensures multiset(Insert(x, ys)) == multiset(ys) + multiset{x}
    decreases |ys|
  {
    if ys != [] && x.userRatingsTotal < ys[0].userRatingsTotal {
      InsertPermutes(x, ys[1..]);
      assert ys == [ys[0]] + ys[1..];
    }
  }

  lemma ConsNonIncreasing(h: Listing, rest: seq<Listing>)
    requires NonIncreasing(rest)
    requires forall z :: z in rest ==> z.userRatingsTotal <= h.userRatingsTotal
    ensures NonIncreasing([h] + rest)
  {
    var r := [h] + rest;
    forall i, j | 0 <= i < j < |r| ensures r[i].userRatingsTotal >= r[j].userRatingsTotal {
      assert r[j] == rest[j - 1];
      if i > 0 {
        assert r[i] == rest[i - 1];
      }
    }
  }

  lemma {:induction false} InsertKeepsOrder(x: Listing, ys: seq<Listing>)
    requires NonIncreasing(ys)
    ensures NonIncreasing(Insert(x, ys))
    decreases |ys|
  {
    if ys == [] || x.userRatingsTotal >= ys[0].userRatingsTotal {
      ConsNonIncreasing(x, ys);
    } else {
      var rest := Insert(x, ys[1..]);
      InsertKeepsOrder(x, ys[1..]);
      InsertPermutes(x, ys[1..]);
      forall z | z in rest ensures z.userRatingsTotal <= ys[0].userRatingsTotal {
        assert z in multiset(rest);
        if z != x {
          assert z in multiset(ys[1..]);
          var k :| 0 <= k < |ys[1..]| && ys[1..][k] == z;
          assert z == ys[k + 1];
        }
      }
      ConsNonIncreasing(ys[0], rest);
    }
  }

  lemma {:induction false} InsertIsStable(x: Listing, ys: seq<Listing>, count: int)
    ensures WithCount(Insert(x, ys), count) == WithCount([x] + ys, count)
    decreases |ys|
  {
    if ys != [] && x.userRatingsTotal < ys[0].userRatingsTotal {
      InsertIsStable(x, ys[1..], count);
      assert ys == [ys[0]] + ys[1..];
      WithCountCons(ys[0], Insert(x, ys[1..]), count);
      WithCountCons(x, ys[1..], count);
      WithCountCons(x, ys, count);
      WithCountCons(ys[0], ys[1..], count);
    }
  }

  /**
   * The ranked list: a permutation of `places`, most reviewed first, ties in
   * input order.
   */
  function Rank(places: seq<Listing>): (r: seq<Listing>)
    ensures multiset(r) == multiset(places)
    ensures NonIncreasing(r)
    ensures forall count :: WithCount(r, count) == WithCount(places, count)
    decreases |places|
  {
    if places == [] then []
    else
      var rest := Rank(places[1..]);
      assert places == [places[0]] + places[1..];
      InsertPermutes(places[0], rest);
      InsertKeepsOrder(places[0], rest);
      assert forall count :: WithCount(Insert(places[0], rest), count) == WithCount(places, count) by {
        forall count ensures WithCount(Insert(places[0], rest), count) == WithCount(places, count) {
          InsertIsStable(places[0], rest, count);
          WithCountCons(places[0], rest, count);
          WithCountCons(places[0], places[1..], count);
        }
      }
      Insert(places[0], rest)
  }

  /**
   * A non-increasing order is determined by its per-count subsequences: any
   * stable descending sort of the same records, Python's included, gives
   * exactly `Rank`.
   */
  lemma {:induction false} StableOrderIsUnique(r1: seq<Listing>, r2: seq<Listing>)
    requires NonIncreasing(r1) && NonIncreasing(r2)
    requires forall count :: WithCount(r1, count) == WithCount(r2, count)
    ensures r1 == r2
    decreases |r1|
  {
    if r1 == [] {
      if r2 != [] {
        HeadIsCounted(r2);
        assert false;
      }
    } else if r2 == [] {
      HeadIsCounted(r1);
      assert false;
    } else {
      var a, b := r1[0].userRatingsTotal, r2[0].userRatingsTotal;
      if a > b {
        WithCountMember(r2, a);
        assert false;
      } else if b > a {
        WithCountMember(r1, b);
        assert false;
      }
      assert a == b;
      assert WithCount(r1, a)[0] == r1[0] && WithCount(r2, a)[0] == r2[0];
      assert r1[0] == r2[0];
      assert r1 == [r1[0]] + r1[1..] && r2 == [r2[0]] + r2[1..];
      forall count ensures WithCount(r1[1..], count) == WithCount(r2[1..], count) {
        WithCountCons(r1[0], r1[1..], count);
        WithCountCons(r2[0], r2[1..], count);
        var head := if a == count then [r1[0]] else [];
        assert (head + WithCount(r1[1..], count))[|head|..] == WithCount(r1[1..], count);
        assert (head + WithCount(r2[1..], count))[|head|..] == WithCount(r2[1..], count);
      }
      StableOrderIsUnique(r1[1..], r2[1..]);
      assert r1 == [r1[0]] + r1[1..] && r2 == [r2[0]] + r2[1..];
    }
  }

  lemma HeadIsCounted(xs: seq<Listing>)
    requires xs != []
    ensures WithCount(xs, xs[0].userRatingsTotal) != []
  {
  }

  /** In a non-increasing list no later record has more reviews than the head. */
  lemma {:induction false} WithCountMember(xs: seq<Listing>, count: int)
    requires NonIncreasing(xs) && xs != []
    requires count > xs[0].userRatingsTotal
    ensures WithCount(xs, count) == []
    decreases |xs|
  {
    if |xs| > 1 {
      assert xs[1].userRatingsTotal <= xs[0].userRatingsTotal;
      WithCountMember(xs[1..], count);
    }
  }
}
