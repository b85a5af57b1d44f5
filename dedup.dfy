/**
 * Keeping the first element of every key, in order. The grid search keeps the
 * first raw result of every `place_id`; the listing step keeps the first of
 * every structurally equal record.
 */
module Dedup {

  /** The keys of the elements of `xs`. */
  function KeysOf<T, K(==)>(xs: seq<T>, key: T -> K): set<K>
    decreases |xs|
  {
    if xs == [] then {} else KeysOf(xs[..|xs| - 1], key) + {key(xs[|xs| - 1])}
  }

  /**
   * The elements of `xs` whose key does not occur earlier in `xs`, in their
   * order in `xs`: the rule "first discovery wins".
   */
  function FirstByKey<T, K(==)>(xs: seq<T>, key: T -> K): seq<T>
    decreases |xs|
  {
    if xs == [] then []
    else
      var init, last := xs[..|xs| - 1], xs[|xs| - 1];
      FirstByKey(init, key) + (if key(last) in KeysOf(init, key) then [] else [last])
  }

  /** No two elements share a key. */
  ghost predicate DistinctKeys<T, K>(xs: seq<T>, key: T -> K) {
    forall i, j :: 0 <= i < j < |xs| ==> key(xs[i]) != key(xs[j])
  }

  /** `xs[j]` is the first element of `xs` with its key. */
  ghost predicate FirstAt<T, K>(xs: seq<T>, key: T -> K, j: int)
    requires 0 <= j < |xs|
  {
    forall m :: 0 <= m < j ==> key(xs[m]) != key(xs[j])
  }

  lemma {:induction false} KeysOfMember<T, K>(xs: seq<T>, key: T -> K, k: K)
    ensures k in KeysOf(xs, key) <==> exists i :: 0 <= i < |xs| && key(xs[i]) == k
    decreases |xs|
  {
    if xs != [] {
      var init := xs[..|xs| - 1];
      KeysOfMember(init, key, k);
      if k in KeysOf(init, key) {
        var i :| 0 <= i < |init| && key(init[i]) == k;
        assert xs[i] == init[i];
      }
      if exists i :: 0 <= i < |xs| && key(xs[i]) == k {
        var i :| 0 <= i < |xs| && key(xs[i]) == k;
        if i < |init| {
          assert init[i] == xs[i];
        }
      }
    }
  }

  lemma {:induction false} KeysOfAppend<T, K>(xs: seq<T>, ys: seq<T>, key: T -> K)
    ensures KeysOf(xs + ys, key) == KeysOf(xs, key) + KeysOf(ys, key)
    decreases |ys|
  {
    if ys == [] {
      assert xs + ys == xs;
    } else {
      var init := ys[..|ys| - 1];
      assert (xs + ys)[..|xs + ys| - 1] == xs + init;
      KeysOfAppend(xs, init, key);
    }
  }

  /** Appending one element: it is kept exactly when its key is new. */
  lemma FirstByKeySnoc<T, K>(xs: seq<T>, x: T, key: T -> K)
    ensures FirstByKey(xs + [x], key)
         == FirstByKey(xs, key) + (if key(x) in KeysOf(xs, key) then [] else [x])
    ensures KeysOf(xs + [x], key) == KeysOf(xs, key) + {key(x)}
  {
    assert (xs + [x])[..|xs|] == xs;
  }

  /** FirstAt on a prefix is FirstAt on the whole sequence. */
  lemma FirstAtPrefix<T, K>(xs: seq<T>, n: int, key: T -> K, j: int)
    requires 0 <= j < n <= |xs|
    ensures FirstAt(xs[..n], key, j) <==> FirstAt(xs, key, j)
  {
    assert forall m :: 0 <= m <= j ==> xs[..n][m] == xs[m];
  }

  /** The last element is kept exactly when it is the first of its key. */
  lemma LastIsFirst<T, K>(xs: seq<T>, key: T -> K)
    requires xs != []
    ensures key(xs[|xs| - 1]) !in KeysOf(xs[..|xs| - 1], key) <==> FirstAt(xs, key, |xs| - 1)
  {
    var init := xs[..|xs| - 1];
    KeysOfMember(init, key, key(xs[|xs| - 1]));
    assert forall m :: 0 <= m < |init| ==> init[m] == xs[m];
  }

  /** Deduplication keeps every key: `seen_place_ids` is exactly the ids met. */
  lemma {:induction false} FirstByKeyKeys<T, K>(xs: seq<T>, key: T -> K)
    ensures KeysOf(FirstByKey(xs, key), key) == KeysOf(xs, key)
    decreases |xs|
  {
    if xs != [] {
      var init, last := xs[..|xs| - 1], xs[|xs| - 1];
      var tail := if key(last) in KeysOf(init, key) then [] else [last];
      FirstByKeyKeys(init, key);
      KeysOfAppend(FirstByKey(init, key), tail, key);
      assert KeysOf(tail, key) == if tail == [] then {} else {key(last)} by {
        if tail != [] { assert tail[..0] == []; }
      }
    }
  }

  /** After deduplication no two elements share a key. */
  lemma {:induction false} FirstByKeyDistinct<T, K>(xs: seq<T>, key: T -> K)
    ensures DistinctKeys(FirstByKey(xs, key), key)
    decreases |xs|
  {
    if xs != [] {
      var init, last := xs[..|xs| - 1], xs[|xs| - 1];
      var prev := FirstByKey(init, key);
      FirstByKeyDistinct(init, key);
      if key(last) !in KeysOf(init, key) {
        FirstByKeyKeys(init, key);
        forall i | 0 <= i < |prev|
          ensures key(prev[i]) != key(last)
        {
          KeysOfMember(prev, key, key(prev[i]));
        }
        var r := prev + [last];
        forall i, j | 0 <= i < j < |r|
          ensures key(r[i]) != key(r[j])
        {
          if j < |prev| {
            assert r[i] == prev[i] && r[j] == prev[j];
          } else {
            assert r[i] == prev[i] && r[j] == last;
          }
        }
      }
    }
  }

  /**
   * Completeness and first discovery: an element is kept exactly when it is
   * the first element of `xs` with its key.
   */
  lemma {:induction false} FirstByKeyKeepsFirsts<T, K>(xs: seq<T>, key: T -> K)
    ensures forall x :: x in FirstByKey(xs, key) <==>
      exists j :: 0 <= j < |xs| && xs[j] == x && FirstAt(xs, key, j)
    decreases |xs|
  {
    if xs != [] {
      var init, last := xs[..|xs| - 1], xs[|xs| - 1];
      FirstByKeyKeepsFirsts(init, key);
      LastIsFirst(xs, key);
      forall x
        ensures x in FirstByKey(xs, key) <==>
          exists j :: 0 <= j < |xs| && xs[j] == x && FirstAt(xs, key, j)
      {
        if x in FirstByKey(init, key) {
          var j :| 0 <= j < |init| && init[j] == x && FirstAt(init, key, j);
          FirstAtPrefix(xs, |xs| - 1, key, j);
        }
        if exists j :: 0 <= j < |xs| && xs[j] == x && FirstAt(xs, key, j) {
          var j :| 0 <= j < |xs| && xs[j] == x && FirstAt(xs, key, j);
          if j < |init| {
            FirstAtPrefix(xs, |xs| - 1, key, j);
            assert init[j] == x;
          }
        }
      }
    }
  }

  /** The positions in `xs` of the first element of every key, in increasing order. */
  ghost function FirstPositions<T, K>(xs: seq<T>, key: T -> K): seq<int>
    decreases |xs|
  {
    if xs == [] then []
    else
      var init := xs[..|xs| - 1];
      FirstPositions(init, key) + (if key(xs[|xs| - 1]) in KeysOf(init, key) then [] else [|xs| - 1])
  }

  /**
   * Order: the kept elements are `xs` read at strictly increasing positions,
   * and those positions are exactly the first occurrences of the keys.
   */
  lemma {:induction false} FirstByKeyInOrder<T, K>(xs: seq<T>, key: T -> K)
    ensures var r, idx := FirstByKey(xs, key), FirstPositions(xs, key);
      && |idx| == |r|
      && (forall k :: 0 <= k < |idx| ==> 0 <= idx[k] < |xs| && r[k] == xs[idx[k]] && FirstAt(xs, key, idx[k]))
      && (forall a, b :: 0 <= a < b < |idx| ==> idx[a] < idx[b])
      && (forall j :: 0 <= j < |xs| && FirstAt(xs, key, j) ==> j in idx)
    decreases |xs|
  {
    if xs != [] {
      var init, last := xs[..|xs| - 1], xs[|xs| - 1];
      var prev, prevIdx := FirstByKey(init, key), FirstPositions(init, key);
      FirstByKeyInOrder(init, key);
      LastIsFirst(xs, key);
      var r, idx := FirstByKey(xs, key), FirstPositions(xs, key);
      forall k | 0 <= k < |idx|
        ensures 0 <= idx[k] < |xs| && r[k] == xs[idx[k]] && FirstAt(xs, key, idx[k])
      {
        if k < |prevIdx| {
          assert idx[k] == prevIdx[k] && r[k] == prev[k];
          FirstAtPrefix(xs, |xs| - 1, key, idx[k]);
        }
      }
      forall j | 0 <= j < |xs| && FirstAt(xs, key, j)
        ensures j in idx
      {
        if j < |init| {
          FirstAtPrefix(xs, |xs| - 1, key, j);
          assert j in prevIdx;
        }
      }
    }
  }

  /** A sequence without repeated keys is left as it is. */
  lemma {:induction false} FirstByKeyOfDistinct<T, K>(xs: seq<T>, key: T -> K)
    requires DistinctKeys(xs, key)
    ensures FirstByKey(xs, key) == xs
    decreases |xs|
  {
    if xs != [] {
      var init, last := xs[..|xs| - 1], xs[|xs| - 1];
      assert DistinctKeys(init, key) by {
        assert forall i :: 0 <= i < |init| ==> init[i] == xs[i];
      }
      FirstByKeyOfDistinct(init, key);
      assert FirstAt(xs, key, |xs| - 1);
      LastIsFirst(xs, key);
      assert xs == init + [last];
    }
  }

  /** Deduplicating twice is deduplicating once. */
  lemma FirstByKeyIdempotent<T, K>(xs: seq<T>, key: T -> K)
    ensures FirstByKey(FirstByKey(xs, key), key) == FirstByKey(xs, key)
  {
    FirstByKeyDistinct(xs, key);
    FirstByKeyOfDistinct(FirstByKey(xs, key), key);
  }

  /** Results whose keys were all seen already add nothing. */
  lemma {:induction false} FirstByKeyNoNewKeys<T, K>(xs: seq<T>, ys: seq<T>, key: T -> K)
    requires KeysOf(ys, key) <= KeysOf(xs, key)
    ensures FirstByKey(xs + ys, key) == FirstByKey(xs, key)
    decreases |ys|
  {
    if ys == [] {
      assert xs + ys == xs;
    } else {
      var init, last := ys[..|ys| - 1], ys[|ys| - 1];
      assert (xs + ys)[..|xs + ys| - 1] == xs + init;
      assert (xs + ys)[|xs + ys| - 1] == last;
      FirstByKeyNoNewKeys(xs, init, key);
      KeysOfAppend(xs, init, key);
    }
  }

  /** Fetching the same results a second time changes nothing. */
  lemma RepeatedQueryAddsNothing<T, K>(xs: seq<T>, key: T -> K)
    ensures FirstByKey(xs + xs, key) == FirstByKey(xs, key)
  {
    FirstByKeyNoNewKeys(xs, xs, key);
  }
}
