/** `ORDER BY key DESC` over a table's rows, and how it relates to the insertion order of the table. */
module Ordering {

  /** Keys strictly increase along `s` (the order in which an auto-increment table receives rows). */
  ghost predicate Increasing<T>(s: seq<T>, key: T -> nat) {
    forall i, j :: 0 <= i < j < |s| ==> key(s[i]) < key(s[j])
  }

  /** Keys never increase along `s`: the order `ORDER BY key DESC` produces. */
  ghost predicate NewestFirst<T>(s: seq<T>, key: T -> nat) {
    forall i, j :: 0 <= i < j < |s| ==> key(s[i]) >= key(s[j])
  }

  /** Keys strictly decrease along `s`. */
  ghost predicate StrictlyNewestFirst<T>(s: seq<T>, key: T -> nat) {
    forall i, j :: 0 <= i < j < |s| ==> key(s[i]) > key(s[j])
  }

  /** Puts `x` in front of the first row of `s` whose key is not larger than its own. */
  function Insert<T>(x: T, s: seq<T>, key: T -> nat): (r: seq<T>)
    requires NewestFirst(s, key)
    ensures NewestFirst(r, key)
    ensures multiset(r) == multiset(s) + multiset{x}
  {
    if s == [] then [x]
    else if key(x) >= key(s[0]) then [x] + s
    else
      var rest := Insert(x, s[1..], key);
      assert s == [s[0]] + s[1..];
      assert forall k :: 0 <= k < |rest| ==> key(rest[k]) <= key(s[0]) by {
        forall k | 0 <= k < |rest| ensures key(rest[k]) <= key(s[0]) {
          assert rest[k] in multiset(rest);
          if rest[k] != x {
            assert rest[k] in multiset(s[1..]);
            assert rest[k] in s[1..];
          }
        }
      }
      PrependNewestFirst(s[0], rest, key);
      [s[0]] + rest
  }

  lemma PrependNewestFirst<T>(x: T, s: seq<T>, key: T -> nat)
    requires NewestFirst(s, key)
    requires forall k :: 0 <= k < |s| ==> key(s[k]) <= key(x)
    ensures NewestFirst([x] + s, key)
  {
    var r := [x] + s;
    forall i, j | 0 <= i < j < |r| ensures key(r[i]) >= key(r[j]) {
      if i > 0 { assert r[i] == s[i - 1]; }
      assert r[j] == s[j - 1];
    }
  }

  /** The rows of `s`, newest first. */
  function SortNewestFirst<T>(s: seq<T>, key: T -> nat): (r: seq<T>)
    ensures NewestFirst(r, key)
    ensures multiset(r) == multiset(s)
  {
    if s == [] then []
    else
      assert s == [s[0]] + s[1..];
      Insert(s[0], SortNewestFirst(s[1..], key), key)
  }

  function Reverse<T>(s: seq<T>): (r: seq<T>)
    ensures |r| == |s|
    ensures forall i :: 0 <= i < |s| ==> r[i] == s[|s| - 1 - i]
  {
    if s == [] then [] else Reverse(s[1..]) + [s[0]]
  }

  lemma {:induction false} ReverseMultiset<T>(s: seq<T>)
    ensures multiset(Reverse(s)) == multiset(s)
  {
    if s != [] {
      ReverseMultiset(s[1..]);
      assert s == [s[0]] + s[1..];
    }
  }

  lemma MultisetTail<T>(s: seq<T>)
    requires s != []
    ensures multiset(s[1..]) == multiset(s) - multiset{s[0]}
  {
    assert s == [s[0]] + s[1..];
  }

  /** The newest row comes first in both orderings, and it is the same row. */
  lemma SameHead<T>(a: seq<T>, b: seq<T>, key: T -> nat)
    requires a != [] && b != []
    requires NewestFirst(a, key) && StrictlyNewestFirst(b, key)
    requires multiset(a) == multiset(b)
    ensures a[0] == b[0]
  {
    assert a[0] in multiset(b);
    var k :| 0 <= k < |b| && b[k] == a[0];
    assert b[0] in multiset(a);
    var m :| 0 <= m < |a| && a[m] == b[0];
    assert key(b[k]) <= key(b[0]) == key(a[m]) <= key(a[0]);
  }

  /** Two newest-first orderings of the same rows agree when one of them has no ties. */
  lemma {:induction false} NewestFirstUnique<T>(a: seq<T>, b: seq<T>, key: T -> nat)
    requires NewestFirst(a, key) && StrictlyNewestFirst(b, key)
    requires multiset(a) == multiset(b)
    ensures a == b
  {
    assert |a| == |multiset(a)| == |multiset(b)| == |b|;
    if a != [] {
      SameHead(a, b, key);
      MultisetTail(a);
      MultisetTail(b);
      NewestFirstUnique(a[1..], b[1..], key);
      assert a == [a[0]] + a[1..] && b == [b[0]] + b[1..];
    }
  }

  /**
   * Sorting rows that are already in increasing key order, newest first, is reading them backwards:
   * `ORDER BY createdAt DESC` over an append-only table is the table reversed.
   */
  lemma SortIncreasingIsReverse<T>(s: seq<T>, key: T -> nat)
    requires Increasing(s, key)
    ensures SortNewestFirst(s, key) == Reverse(s)
  {
    var r := Reverse(s);
    assert StrictlyNewestFirst(r, key) by {
      forall i, j | 0 <= i < j < |r| ensures key(r[i]) > key(r[j]) {
        assert r[i] == s[|s| - 1 - i] && r[j] == s[|s| - 1 - j];
      }
    }
    ReverseMultiset(s);
    NewestFirstUnique(SortNewestFirst(s, key), r, key);
  }
}
