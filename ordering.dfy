/**
 * The list primitives select_strike relies on: `sorted`, a list
 * comprehension with a condition, and `min`/`max` with and without a key.
 */
module Ordering {

  predicate SortedAsc(s: seq<real>) {
    forall i, j :: 0 <= i < j < |s| ==> s[i] <= s[j]
  }

  /** Inserts `x` into an ascending sequence. */
  function InsertAsc(x: real, s: seq<real>): (r: seq<real>)
    requires SortedAsc(s)
    ensures multiset(r) == multiset(s) + multiset{x}
    ensures SortedAsc(r)
  {
    if s == [] || x <= s[0] then [x] + s
    else
      var rest := InsertAsc(x, s[1..]);
      assert s == [s[0]] + s[1..];
      forall i | 0 <= i < |rest|
        ensures s[0] <= rest[i]
      {
        assert rest[i] in multiset(s[1..]) + multiset{x};
      }
      [s[0]] + rest
  }

  /** `sorted(s)`: an ascending permutation of `s`. */
  function SortAsc(s: seq<real>): (r: seq<real>)
    ensures SortedAsc(r)
    ensures multiset(r) == multiset(s)
  {
    if s == [] then []
    else
      assert s == [s[0]] + s[1..];
      InsertAsc(s[0], SortAsc(s[1..]))
  }

  /** The conditions select_strike filters strikes by: `s > price` and `s < price`. */
  datatype Condition = GreaterThan(bound: real) | LessThan(bound: real)

  predicate Holds(c: Condition, x: real) {
    match c
    case GreaterThan(b) => x > b
    case LessThan(b) => x < b
  }

  /** The keys select_strike orders by: the strike itself, or `abs(x - target)`. */
  datatype Key = Identity | DistanceTo(target: real)

  function Apply(key: Key, x: real): real {
    match key
    case Identity => x
    case DistanceTo(t) => Distance(x, t)
  }

  /** `[x for x in s if keep]` */
  function Filter(s: seq<real>, keep: Condition): (r: seq<real>)
    ensures forall x :: x in r <==> x in s && Holds(keep, x)
    ensures SortedAsc(s) ==> SortedAsc(r)
  {
    if s == [] then []
    else
      var rest := Filter(s[1..], keep);
      forall i | 0 <= i < |rest| && SortedAsc(s)
        ensures s[0] <= rest[i]
      {
        assert rest[i] in rest;
        assert rest[i] in s[1..];
      }
      (if Holds(keep, s[0]) then [s[0]] else []) + rest
  }

  /**
   * The index `min(s, key=key)` returns the element of: scanning left to
   * right, the running best is replaced only by a strictly smaller key, so
   * the first of several minimal elements wins.
   */
  function FirstMinIndex(s: seq<real>, key: Key): (k: nat)
    requires |s| > 0
    ensures k < |s|
    ensures forall j :: 0 <= j < |s| ==> Apply(key, s[k]) <= Apply(key, s[j])
    ensures forall j :: 0 <= j < k ==> Apply(key, s[k]) < Apply(key, s[j])
  {
    if |s| == 1 then 0
    else
      var m := FirstMinIndex(s[..|s| - 1], key);
      if Apply(key, s[|s| - 1]) < Apply(key, s[m]) then |s| - 1 else m
  }

  /** The index `max(s, key=key)` returns the element of; again the first of several maximal elements wins. */
  function FirstMaxIndex(s: seq<real>, key: Key): (k: nat)
    requires |s| > 0
    ensures k < |s|
    ensures forall j :: 0 <= j < |s| ==> Apply(key, s[j]) <= Apply(key, s[k])
    ensures forall j :: 0 <= j < k ==> Apply(key, s[j]) < Apply(key, s[k])
  {
    if |s| == 1 then 0
    else
      var m := FirstMaxIndex(s[..|s| - 1], key);
      if Apply(key, s[|s| - 1]) > Apply(key, s[m]) then |s| - 1 else m
  }

  function Distance(x: real, y: real): (d: real)
    ensures d >= 0.0
    ensures d == x - y || d == y - x
  {
    if x >= y then x - y else y - x
  }

  /**
   * On an ascending sequence the first element with the least key is also
   * the smallest element carrying that key.
   */
  lemma FirstMinIsSmallestAmongTies(s: seq<real>, key: Key, j: nat)
    requires SortedAsc(s) && |s| > 0 && j < |s|
    requires Apply(key, s[j]) == Apply(key, s[FirstMinIndex(s, key)])
    ensures s[FirstMinIndex(s, key)] <= s[j]
  {
  }

  /** The same for the first element with the greatest key. */
  lemma FirstMaxIsSmallestAmongTies(s: seq<real>, key: Key, j: nat)
    requires SortedAsc(s) && |s| > 0 && j < |s|
    requires Apply(key, s[j]) == Apply(key, s[FirstMaxIndex(s, key)])
    ensures s[FirstMaxIndex(s, key)] <= s[j]
  {
  }
}
