/** Python's max/min with a key over a non-empty list: one left-to-right scan
    that replaces the running best only on strict improvement, so the first
    extremal element wins. */
module Extrema {

  /** i is the first position holding the largest key. */
  ghost predicate IsFirstMax<T>(xs: seq<T>, key: T -> real, i: int) {
    && 0 <= i < |xs|
    && (forall j :: 0 <= j < |xs| ==> key(xs[j]) <= key(xs[i]))
    && (forall j :: 0 <= j < i ==> key(xs[j]) < key(xs[i]))
  }

  /** i is the first position holding the smallest key. */
  ghost predicate IsFirstMin<T>(xs: seq<T>, key: T -> real, i: int) {
    && 0 <= i < |xs|
    && (forall j :: 0 <= j < |xs| ==> key(xs[i]) <= key(xs[j]))
    && (forall j :: 0 <= j < i ==> key(xs[i]) < key(xs[j]))
  }

  /** The scan of max(): the best of the prefix is replaced by the last
      element only when its key is strictly greater. */
  function ArgMax<T>(xs: seq<T>, key: T -> real): (m: nat)
    requires |xs| > 0
    ensures IsFirstMax(xs, key, m)
    decreases |xs|
  {
    if |xs| == 1 then 0
    else
      var prefix := xs[..|xs| - 1];
      var m := ArgMax(prefix, key);
      assert forall j :: 0 <= j < |prefix| ==> prefix[j] == xs[j];
      if key(xs[m]) < key(xs[|xs| - 1]) then |xs| - 1 else m
  }

  /** The scan of min(): replacement only on a strictly smaller key. */
  function ArgMin<T>(xs: seq<T>, key: T -> real): (m: nat)
    requires |xs| > 0
    ensures IsFirstMin(xs, key, m)
    decreases |xs|
  {
    if |xs| == 1 then 0
    else
      var prefix := xs[..|xs| - 1];
      var m := ArgMin(prefix, key);
      assert forall j :: 0 <= j < |prefix| ==> prefix[j] == xs[j];
      if key(xs[|xs| - 1]) < key(xs[m]) then |xs| - 1 else m
  }

  /** The contract of ArgMax determines its result. */
  lemma FirstMaxUnique<T>(xs: seq<T>, key: T -> real, i: int, k: int)
    requires IsFirstMax(xs, key, i) && IsFirstMax(xs, key, k)
    ensures i == k
  {
    assert key(xs[i]) == key(xs[k]);
  }

  /** The contract of ArgMin determines its result. */
  lemma FirstMinUnique<T>(xs: seq<T>, key: T -> real, i: int, k: int)
    requires IsFirstMin(xs, key, i) && IsFirstMin(xs, key, k)
    ensures i == k
  {
    assert key(xs[i]) == key(xs[k]);
  }
}
