/**
 * PHP's `sort` (on the content-id list) and `ksort` (on the config params)
 * as one sort by a string key, and the fact the cache key relies on: the
 * sorted result depends only on the multiset of the input, not on its order.
 */
module Sorting {

  /** Byte-wise string order, as strcmp compares two strings. */
  predicate StrLe(a: string, b: string)
  {
    a == [] || (b != [] && (a[0] < b[0] || (a[0] == b[0] && StrLe(a[1..], b[1..]))))
  }

  lemma {:induction false} StrLeReflexive(a: string)
    ensures StrLe(a, a)
  {
    if a != [] {
      StrLeReflexive(a[1..]);
    }
  }

  lemma {:induction false} StrLeTotal(a: string, b: string)
    ensures StrLe(a, b) || StrLe(b, a)
  {
    if a != [] && b != [] && a[0] == b[0] {
      StrLeTotal(a[1..], b[1..]);
    }
  }

  lemma {:induction false} StrLeAntisymmetric(a: string, b: string)
    requires StrLe(a, b) && StrLe(b, a)
    ensures a == b
  {
    if a != [] && b != [] {
      StrLeAntisymmetric(a[1..], b[1..]);
      assert a == [a[0]] + a[1..] && b == [b[0]] + b[1..];
    }
  }

  lemma {:induction false} StrLeTransitive(a: string, b: string, c: string)
    requires StrLe(a, b) && StrLe(b, c)
    ensures StrLe(a, c)
  {
    if a != [] && b != [] && c != [] && a[0] == b[0] == c[0] {
      StrLeTransitive(a[1..], b[1..], c[1..]);
    }
  }

  /** Ascending by key. */
  predicate Sorted<T>(s: seq<T>, key: T -> string)
  {
    forall i, j | 0 <= i < j < |s| :: StrLe(key(s[i]), key(s[j]))
  }

  /** No two different elements share a key (a PHP array's keys, or plain strings). */
  predicate KeyInjective<T(==)>(s: seq<T>, key: T -> string)
  {
    forall x, y | x in s && y in s && key(x) == key(y) :: x == y
  }

  function Insert<T>(x: T, s: seq<T>, key: T -> string): seq<T>
  {
    if s == [] then [x]
    else if StrLe(key(x), key(s[0])) then [x] + s
    else [s[0]] + Insert(x, s[1..], key)
  }

  lemma {:induction false} InsertMultiset<T>(x: T, s: seq<T>, key: T -> string)
    ensures multiset(Insert(x, s, key)) == multiset(s) + multiset{x}
    decreases |s|
  {
    if s != [] && !StrLe(key(x), key(s[0])) {
      InsertMultiset(x, s[1..], key);
      assert s == [s[0]] + s[1..];
    }
  }

  /** A sorted sequence stays sorted under a new first element no greater than any of it. */
  lemma PrependLeast<T>(a: T, s: seq<T>, key: T -> string)
    requires Sorted(s, key)
    requires forall k | 0 <= k < |s| :: StrLe(key(a), key(s[k]))
    ensures Sorted([a] + s, key)
  {
    var r := [a] + s;
    forall i, j | 0 <= i < j < |r| ensures StrLe(key(r[i]), key(r[j])) {
      if i == 0 {
        assert r[j] == s[j - 1];
      } else {
        assert r[i] == s[i - 1] && r[j] == s[j - 1];
      }
    }
  }

  /** A lower bound of `x` and of all of `s` bounds all of Insert(x, s). */
  lemma {:induction false} InsertLowerBound<T>(b: string, x: T, s: seq<T>, key: T -> string)
    requires StrLe(b, key(x))
    requires forall k | 0 <= k < |s| :: StrLe(b, key(s[k]))
    ensures forall k | 0 <= k < |Insert(x, s, key)| :: StrLe(b, key(Insert(x, s, key)[k]))
    decreases |s|
  {
    if s != [] && !StrLe(key(x), key(s[0])) {
      InsertLowerBound(b, x, s[1..], key);
      var rest := Insert(x, s[1..], key);
      assert forall k | 0 <= k < |rest| :: ([s[0]] + rest)[k + 1] == rest[k];
    }
  }

  /** Inserting into a sorted sequence keeps it sorted. */
  lemma {:induction false} InsertSorted<T>(x: T, s: seq<T>, key: T -> string)
    requires Sorted(s, key)
    ensures Sorted(Insert(x, s, key), key)
    decreases |s|
  {
    if s == [] {
    } else if StrLe(key(x), key(s[0])) {
      forall k | 0 <= k < |s| ensures StrLe(key(x), key(s[k])) {
        if k > 0 {
          StrLeTransitive(key(x), key(s[0]), key(s[k]));
        }
      }
      PrependLeast(x, s, key);
    } else {
      var tail := s[1..];
      InsertSorted(x, tail, key);
      StrLeTotal(key(x), key(s[0]));
      assert forall k | 0 <= k < |tail| :: tail[k] == s[k + 1];
      InsertLowerBound(key(s[0]), x, tail, key);
      PrependLeast(s[0], Insert(x, tail, key), key);
    }
  }

  lemma InsertCorrect<T>(x: T, s: seq<T>, key: T -> string)
    requires Sorted(s, key)
    ensures multiset(Insert(x, s, key)) == multiset(s) + multiset{x}
    ensures Sorted(Insert(x, s, key), key)
  {
    InsertMultiset(x, s, key);
    InsertSorted(x, s, key);
  }

  /** `sort`/`ksort`: a sorted permutation of the input. */
  function SortBy<T>(s: seq<T>, key: T -> string): (r: seq<T>)
    ensures multiset(r) == multiset(s)
    ensures Sorted(r, key)
  {
    if s == [] then []
    else
      var rest := SortBy(s[1..], key);
      InsertCorrect(s[0], rest, key);
      assert s == [s[0]] + s[1..];
      Insert(s[0], rest, key)
  }

  /** A sorted sequence starts with an element whose key is least. */
  lemma HeadIsLeast<T>(s: seq<T>, x: T, key: T -> string)
    requires Sorted(s, key) && x in s
    ensures StrLe(key(s[0]), key(x))
  {
    var i :| 0 <= i < |s| && s[i] == x;
    if i == 0 {
      StrLeReflexive(key(x));
    }
  }

  lemma SameHead<T>(a: seq<T>, b: seq<T>, key: T -> string)
    requires Sorted(a, key) && Sorted(b, key)
    requires multiset(a) == multiset(b) && a != []
    requires KeyInjective(a, key)
    ensures b != [] && a[0] == b[0]
  {
    assert a[0] in multiset(b);
    assert b != [] && b[0] in multiset(a);
    HeadIsLeast(a, b[0], key);
    HeadIsLeast(b, a[0], key);
    StrLeAntisymmetric(key(a[0]), key(b[0]));
  }

  lemma SameTail<T>(a: seq<T>, b: seq<T>, key: T -> string)
    requires multiset(a) == multiset(b) && a != [] && b != [] && a[0] == b[0]
    requires KeyInjective(a, key)
    ensures multiset(a[1..]) == multiset(b[1..])
    ensures KeyInjective(a[1..], key)
  {
    assert a == [a[0]] + a[1..] && b == [b[0]] + b[1..];
    assert multiset(a) == multiset{a[0]} + multiset(a[1..]);
    assert multiset(b) == multiset{b[0]} + multiset(b[1..]);
    assert multiset(a[1..]) == multiset(a) - multiset{a[0]};
    assert multiset(b[1..]) == multiset(b) - multiset{b[0]};
  }

  /** Two sorted arrangements of the same elements are the same sequence. */
  lemma {:induction false} SortedUnique<T>(a: seq<T>, b: seq<T>, key: T -> string)
    requires Sorted(a, key) && Sorted(b, key)
    requires multiset(a) == multiset(b)
    requires KeyInjective(a, key)
    ensures a == b
    decreases |a|
  {
    if a == [] {
      assert |b| == |multiset(b)| == 0;
    } else {
      SameHead(a, b, key);
      SameTail(a, b, key);
      SortedUnique(a[1..], b[1..], key);
      assert a == [a[0]] + a[1..] && b == [b[0]] + b[1..];
    }
  }

  /** Sorting forgets the input order: permutations sort to the same sequence. */
  lemma SortByCanonical<T>(a: seq<T>, b: seq<T>, key: T -> string)
    requires multiset(a) == multiset(b)
    requires KeyInjective(a, key)
    ensures SortBy(a, key) == SortBy(b, key)
  {
    var sa, sb := SortBy(a, key), SortBy(b, key);
    forall x, y | x in sa && y in sa && key(x) == key(y) ensures x == y {
      assert x in multiset(sa) && y in multiset(sa);
      assert x in a && y in a;
    }
    SortedUnique(sa, sb, key);
  }
}
