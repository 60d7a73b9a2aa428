/**
 * `Array.prototype.sort` with a numeric comparator `(a, b) => key(a) - key(b)`
 * (ascending) or `(a, b) => key(b) - key(a)` (descending). The ECMAScript
 * sort is stable, so it is modelled by a stable insertion sort.
 */
module Sorting {

  datatype Direction = Ascending | Descending

  /** `a` may come before `b`: the comparator does not ask to swap them. */
  predicate InOrder(dir: Direction, a: real, b: real) {
    match dir
    case Ascending => a <= b
    case Descending => a >= b
  }

  predicate Sorted<T>(s: seq<T>, key: T -> real, dir: Direction) {
    forall i, j :: 0 <= i < j < |s| ==> InOrder(dir, key(s[i]), key(s[j]))
  }

  /** The elements of `s` whose key is `v`, in their order in `s`. */
  function WithKey<T>(s: seq<T>, key: T -> real, v: real): seq<T>
  {
    if s == [] then []
    else (if key(s[0]) == v then [s[0]] else []) + WithKey(s[1..], key, v)
  }

  /** Places `x` in front of the first element it may precede. */
  function Insert<T>(x: T, s: seq<T>, key: T -> real, dir: Direction): (r: seq<T>)
    ensures multiset(r) == multiset(s) + multiset{x}
  {
    if s == [] || InOrder(dir, key(x), key(s[0])) then [x] + s
    else
      assert s == [s[0]] + s[1..];
      [s[0]] + Insert(x, s[1..], key, dir)
  }

  /** Inserting into a sorted sequence keeps it sorted. */
  lemma {:induction false} InsertSorted<T>(x: T, s: seq<T>, key: T -> real, dir: Direction)
    requires Sorted(s, key, dir)
    ensures Sorted(Insert(x, s, key, dir), key, dir)
  {
    if s != [] && !InOrder(dir, key(x), key(s[0])) {
      var rest := Insert(x, s[1..], key, dir);
      InsertSorted(x, s[1..], key, dir);
      assert s == [s[0]] + s[1..];
      forall j | 0 <= j < |rest| ensures InOrder(dir, key(s[0]), key(rest[j])) {
        assert rest[j] in multiset(rest);
        if rest[j] != x {
          assert rest[j] in multiset(s[1..]);
          var k :| 0 <= k < |s[1..]| && s[1..][k] == rest[j];
          assert s[k + 1] == rest[j];
        }
      }
    }
  }

  /** The stable sort of `s` by `key`: a permutation of `s` in comparator order. */
  function SortBy<T>(s: seq<T>, key: T -> real, dir: Direction): (r: seq<T>)
    ensures multiset(r) == multiset(s)
    ensures Sorted(r, key, dir)
  {
    if s == [] then []
    else
      assert s == [s[0]] + s[1..];
      InsertSorted(s[0], SortBy(s[1..], key, dir), key, dir);
      Insert(s[0], SortBy(s[1..], key, dir), key, dir)
  }

  lemma WithKeyCons<T>(y: T, t: seq<T>, key: T -> real, v: real)
    ensures WithKey([y] + t, key, v) == (if key(y) == v then [y] else []) + WithKey(t, key, v)
  {
    assert ([y] + t)[1..] == t;
  }

  lemma {:induction false} WithKeyInsert<T>(x: T, s: seq<T>, key: T -> real, dir: Direction, v: real)
    ensures WithKey(Insert(x, s, key, dir), key, v) == (if key(x) == v then [x] else []) + WithKey(s, key, v)
  {
    if s == [] || InOrder(dir, key(x), key(s[0])) {
      WithKeyCons(x, s, key, v);
    } else {
      var head, tail := s[0], s[1..];
      var rest := Insert(x, tail, key, dir);
      assert Insert(x, s, key, dir) == [head] + rest;
      assert s == [head] + tail;
      WithKeyInsert(x, tail, key, dir, v);
      WithKeyCons(head, rest, key, v);
      WithKeyCons(head, tail, key, v);
      SwapHeads(x, head, WithKey(tail, key, v), key, v);
    }
  }

  /** `x` goes after `head` only when their keys differ, so at most one of them has key `v`. */
  lemma SwapHeads<T>(x: T, head: T, w: seq<T>, key: T -> real, v: real)
    requires key(x) != key(head)
    ensures (if key(head) == v then [head] else []) + ((if key(x) == v then [x] else []) + w) ==
      (if key(x) == v then [x] else []) + ((if key(head) == v then [head] else []) + w)
  {
  }

  /** Stability: among elements with equal keys the sort keeps the input order. */
  lemma {:induction false} SortByStable<T>(s: seq<T>, key: T -> real, dir: Direction, v: real)
    ensures WithKey(SortBy(s, key, dir), key, v) == WithKey(s, key, v)
  {
    if s != [] {
      SortByStable(s[1..], key, dir, v);
      WithKeyInsert(s[0], SortBy(s[1..], key, dir), key, dir, v);
    }
  }

  /** Stability for every key value at once. */
  lemma SortByStableAll<T>(s: seq<T>, key: T -> real, dir: Direction)
    ensures forall v :: WithKey(SortBy(s, key, dir), key, v) == WithKey(s, key, v)
  {
    forall v ensures WithKey(SortBy(s, key, dir), key, v) == WithKey(s, key, v) {
      SortByStable(s, key, dir, v);
    }
  }

  /** A sequence already in order is left as it is. */
  lemma {:induction false} SortBySorted<T>(s: seq<T>, key: T -> real, dir: Direction)
    requires Sorted(s, key, dir)
    ensures SortBy(s, key, dir) == s
  {
    if s != [] {
      SortBySorted(s[1..], key, dir);
      assert s == [s[0]] + s[1..];
    }
  }
}
