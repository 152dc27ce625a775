/** Sequence helpers shared by the server queries and the front end. */
module Seqs {

  function Min(a: int, b: int): int {
    if a <= b then a else b
  }

  /** Reversal: `Array.prototype.reverse`, and `ORDER BY ... DESC` over rows kept in ascending order. */
  function Reversed<T>(s: seq<T>): (r: seq<T>)
    ensures |r| == |s|
    ensures forall i :: 0 <= i < |s| ==> r[i] == s[|s| - 1 - i]
  {
    if s == [] then [] else Reversed(s[1..]) + [s[0]]
  }

  /** Order-preserving selection: `Array.prototype.filter`, and a `WHERE` clause over a table. */
  function Filter<T(!new)>(keep: T -> bool, s: seq<T>): (r: seq<T>)
    ensures |r| <= |s|
    ensures forall x :: x in r <==> x in s && keep(x)
  {
    if s == [] then [] else (if keep(s[0]) then [s[0]] else []) + Filter(keep, s[1..])
  }

  /** Filtering keeps every kept value as often as it occurs, and drops every other value. */
  lemma {:induction false} FilterCount<T(!new)>(keep: T -> bool, s: seq<T>)
    ensures var r := Filter(keep, s);
            forall x :: multiset(r)[x] == if keep(x) then multiset(s)[x] else 0
  {
    if s != [] {
      FilterCount(keep, s[1..]);
      assert s == [s[0]] + s[1..];
    }
  }

  /** `s` is in non-decreasing order of `key`. */
  ghost predicate Ascending<T>(key: T -> int, s: seq<T>) {
    forall i, j :: 0 <= i < j < |s| ==> key(s[i]) <= key(s[j])
  }

  /** `s` is in non-increasing order of `key`. */
  ghost predicate Descending<T>(key: T -> int, s: seq<T>) {
    forall i, j :: 0 <= i < j < |s| ==> key(s[i]) >= key(s[j])
  }

  /** Reversing an ascending sequence gives a descending one. */
  lemma ReversedAscending<T>(key: T -> int, s: seq<T>)
    requires Ascending(key, s)
    ensures Descending(key, Reversed(s))
  {
    var r := Reversed(s);
    forall i, j | 0 <= i < j < |r| ensures key(r[i]) >= key(r[j]) {
      assert r[i] == s[|s| - 1 - i] && r[j] == s[|s| - 1 - j];
    }
  }

  /** Reversing a descending sequence gives an ascending one. */
  lemma ReversedDescending<T>(key: T -> int, s: seq<T>)
    requires Descending(key, s)
    ensures Ascending(key, Reversed(s))
  {
    var r := Reversed(s);
    forall i, j | 0 <= i < j < |r| ensures key(r[i]) <= key(r[j]) {
      assert r[i] == s[|s| - 1 - i] && r[j] == s[|s| - 1 - j];
    }
  }

  /** In an ascending sequence the head is below everything after it. */
  lemma HeadAscending<T>(key: T -> int, s: seq<T>, x: T)
    requires Ascending(key, s) && s != [] && x in s[1..]
    ensures key(s[0]) <= key(x)
  {
    var k :| 0 <= k < |s[1..]| && s[1..][k] == x;
    assert s[k + 1] == x;
  }

  /** In a descending sequence the head is above everything after it. */
  lemma HeadDescending<T>(key: T -> int, s: seq<T>, x: T)
    requires Descending(key, s) && s != [] && x in s[1..]
    ensures key(s[0]) >= key(x)
  {
    var k :| 0 <= k < |s[1..]| && s[1..][k] == x;
    assert s[k + 1] == x;
  }

  /** Filtering keeps an ascending sequence ascending. */
  lemma {:induction false} FilterAscending<T(!new)>(keep: T -> bool, key: T -> int, s: seq<T>)
    requires Ascending(key, s)
    ensures Ascending(key, Filter(keep, s))
  {
    if s != [] {
      var rest := Filter(keep, s[1..]);
      FilterAscending(keep, key, s[1..]);
      if keep(s[0]) {
        forall x | x in rest ensures key(s[0]) <= key(x) {
          HeadAscending(key, s, x);
        }
        ConsAscending(key, s[0], rest);
      } else {
        assert Filter(keep, s) == rest;
      }
    }
  }

  /** Filtering keeps a descending sequence descending. */
  lemma {:induction false} FilterDescending<T(!new)>(keep: T -> bool, key: T -> int, s: seq<T>)
    requires Descending(key, s)
    ensures Descending(key, Filter(keep, s))
  {
    if s != [] {
      var rest := Filter(keep, s[1..]);
      FilterDescending(keep, key, s[1..]);
      if keep(s[0]) {
        forall x | x in rest ensures key(s[0]) >= key(x) {
          HeadDescending(key, s, x);
        }
        ConsDescending(key, s[0], rest);
      } else {
        assert Filter(keep, s) == rest;
      }
    }
  }

  lemma ConsAscending<T>(key: T -> int, h: T, rest: seq<T>)
    requires Ascending(key, rest)
    requires forall x :: x in rest ==> key(h) <= key(x)
    ensures Ascending(key, [h] + rest)
  {
    var r := [h] + rest;
    forall i, j | 0 <= i < j < |r| ensures key(r[i]) <= key(r[j]) {
      assert r[j] == rest[j - 1];
      if i > 0 { assert r[i] == rest[i - 1]; }
    }
  }

  lemma ConsDescending<T>(key: T -> int, h: T, rest: seq<T>)
    requires Descending(key, rest)
    requires forall x :: x in rest ==> key(h) >= key(x)
    ensures Descending(key, [h] + rest)
  {
    var r := [h] + rest;
    forall i, j | 0 <= i < j < |r| ensures key(r[i]) >= key(r[j]) {
      assert r[j] == rest[j - 1];
      if i > 0 { assert r[i] == rest[i - 1]; }
    }
  }
}
