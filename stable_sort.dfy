/**
 * `Array.prototype.sort` with a key comparator (`(a, b) => key(a) - key(b)`).
 * The JS sort is stable, so its result is the input permuted into the order
 * "smaller key first, equal keys in their original order". That order on
 * positions is computed here by insertion, as a sequence of positions.
 */
module StableSort {

  /** Position `a` precedes position `b` in the stable order by `keys`. */
  predicate Before(keys: seq<real>, a: nat, b: nat)
    requires a < |keys| && b < |keys|
  {
    keys[a] < keys[b] || (keys[a] == keys[b] && a < b)
  }

  predicate InRange(order: seq<nat>, n: nat) {
    forall i :: 0 <= i < |order| ==> order[i] < n
  }

  predicate OrderedBy(keys: seq<real>, order: seq<nat>)
    requires InRange(order, |keys|)
  {
    forall i, j :: 0 <= i < j < |order| ==> Before(keys, order[i], order[j])
  }

  /** Insert position `p` after every position whose key is at most `keys[p]`. */
  function Insert(keys: seq<real>, order: seq<nat>, p: nat): (r: seq<nat>)
    requires InRange(order, |keys|) && p < |keys|
    ensures |r| == |order| + 1 && InRange(r, |keys|)
    ensures forall x :: x in r <==> x in order || x == p
  {
    if order == [] then [p]
    else if keys[order[0]] <= keys[p] then [order[0]] + Insert(keys, order[1..], p)
    else [p] + order
  }

  /** Inserting a position later than all present ones keeps the order sorted. */
  lemma {:induction false} InsertOrdered(keys: seq<real>, order: seq<nat>, p: nat)
    requires InRange(order, |keys|) && p < |keys|
    requires OrderedBy(keys, order)
    requires forall i :: 0 <= i < |order| ==> order[i] < p
    ensures OrderedBy(keys, Insert(keys, order, p))
  {
    if order != [] {
      if keys[order[0]] <= keys[p] {
        InsertOrdered(keys, order[1..], p);
        var r := Insert(keys, order, p);
        assert r == [order[0]] + Insert(keys, order[1..], p);
        forall j | 0 < j < |r| ensures Before(keys, r[0], r[j]) {
          assert r[j] in Insert(keys, order[1..], p);
        }
      } else {
        var r := [p] + order;
        forall j | 0 < j < |r| ensures Before(keys, r[0], r[j]) {
          if j > 1 {
            assert Before(keys, order[0], order[j - 1]);
          }
        }
      }
    }
  }

  /** The stable order of positions 0 .. n-1 by `keys`. */
  function StableOrder(keys: seq<real>, n: nat): (order: seq<nat>)
    requires n <= |keys|
    ensures |order| == n && InRange(order, n)
  {
    if n == 0 then []
    else
      var prev := StableOrder(keys, n - 1);
      var r := Insert(keys, prev, n - 1);
      assert forall i :: 0 <= i < |r| ==> r[i] in prev || r[i] == n - 1;
      r
  }

  /** The stable order lists every position and is sorted by (key, position). */
  lemma {:induction false} StableOrderFacts(keys: seq<real>, n: nat)
    requires n <= |keys|
    ensures forall p :: 0 <= p < n ==> p in StableOrder(keys, n)
    ensures OrderedBy(keys, StableOrder(keys, n))
  {
    if n > 0 {
      var prev := StableOrder(keys, n - 1);
      StableOrderFacts(keys, n - 1);
      InsertOrdered(keys, prev, n - 1);
      forall p | 0 <= p < n ensures p in StableOrder(keys, n) {
        if p < n - 1 {
          assert p in prev;
        }
      }
    }
  }

  /** The stable order is a permutation: no position occurs twice. */
  lemma OrderDistinct(keys: seq<real>, order: seq<nat>)
    requires InRange(order, |keys|) && OrderedBy(keys, order)
    ensures forall i, j :: 0 <= i < j < |order| ==> order[i] != order[j]
  {
  }

  /** The keys of the elements of `s`. */
  function Keys<T>(s: seq<T>, key: T -> real): (keys: seq<real>)
    ensures |keys| == |s|
  {
    seq(|s|, i requires 0 <= i < |s| => key(s[i]))
  }

  /** The position in `s` of each element of the sorted result. */
  function SortOrder<T>(s: seq<T>, key: T -> real): (order: seq<nat>)
    ensures |order| == |s| && InRange(order, |s|)
  {
    StableOrder(Keys(s, key), |s|)
  }

  /** The elements of `s` in stable ascending order of `key`. */
  function SortBy<T>(s: seq<T>, key: T -> real): (r: seq<T>)
    ensures |r| == |s|
  {
    var order := SortOrder(s, key);
    seq(|s|, k requires 0 <= k < |s| => s[order[k]])
  }

  /** Position `k` of the sorted result holds the element at `SortOrder(s, key)[k]`. */
  lemma SortByAt<T>(s: seq<T>, key: T -> real)
    ensures forall k :: 0 <= k < |s| ==> SortBy(s, key)[k] == s[SortOrder(s, key)[k]]
  {
  }

  /** `SortBy` is stable: elements with equal keys keep their relative order. */
  lemma SortByStable<T>(s: seq<T>, key: T -> real, i: nat, j: nat)
    requires i < j < |s|
    requires key(SortBy(s, key)[i]) == key(SortBy(s, key)[j])
    ensures SortOrder(s, key)[i] < SortOrder(s, key)[j]
  {
    var order := SortOrder(s, key);
    StableOrderFacts(Keys(s, key), |s|);
    assert Before(Keys(s, key), order[i], order[j]);
  }

  /** `SortBy` sorts: keys never decrease along the result. */
  lemma SortBySorted<T>(s: seq<T>, key: T -> real)
    ensures forall i, j :: 0 <= i < j < |s| ==> key(SortBy(s, key)[i]) <= key(SortBy(s, key)[j])
  {
    var keys := Keys(s, key);
    var order := SortOrder(s, key);
    StableOrderFacts(keys, |s|);
    forall i, j | 0 <= i < j < |s|
      ensures key(SortBy(s, key)[i]) <= key(SortBy(s, key)[j])
    {
      assert Before(keys, order[i], order[j]);
    }
  }

  /** `SortBy` permutes: every element of the input sits at some position of the result. */
  lemma SortByPermutes<T>(s: seq<T>, key: T -> real)
    ensures multiset(SortBy(s, key)) == multiset(s)
  {
    var order := SortOrder(s, key);
    StableOrderFacts(Keys(s, key), |s|);
    OrderDistinct(Keys(s, key), order);
    PermutedByOrder(s, order);
    assert SortBy(s, key) == seq(|s|, k requires 0 <= k < |s| => s[order[k]]);
  }

  lemma {:induction false} PermutedByOrder<T>(s: seq<T>, order: seq<nat>)
    requires |order| == |s| && InRange(order, |s|)
    requires forall i, j :: 0 <= i < j < |order| ==> order[i] != order[j]
    ensures multiset(seq(|s|, k requires 0 <= k < |s| => s[order[k]])) == multiset(s)
  {
    var r := seq(|s|, k requires 0 <= k < |s| => s[order[k]]);
    // Pull out the element at position 0 of the permutation and recurse on the rest.
    if |s| > 0 {
      var p := order[0];
      var s' := s[..p] + s[p + 1..];
      var order' := seq(|s| - 1, k requires 0 <= k < |s| - 1 =>
                          if order[k + 1] < p then order[k + 1] else order[k + 1] - 1);
      assert |order'| == |s'| && InRange(order', |s'|);
      forall i, j | 0 <= i < j < |order'| ensures order'[i] != order'[j] {
        assert order[i + 1] != order[j + 1] && order[i + 1] != p && order[j + 1] != p;
      }
      PermutedByOrder(s', order');
      var r' := seq(|s'|, k requires 0 <= k < |s'| => s'[order'[k]]);
      assert r == [s[p]] + r' by {
        forall k | 0 <= k < |r'| ensures r'[k] == r[k + 1] {
          assert order[k + 1] != p;
        }
      }
      assert s == s[..p] + [s[p]] + s[p + 1..];
      calc {
        multiset(r);
        multiset([s[p]]) + multiset(r');
        multiset([s[p]]) + multiset(s');
        multiset(s[..p]) + multiset([s[p]]) + multiset(s[p + 1..]);
        multiset(s);
      }
    }
  }
}
