/** Ordering by release date: the string order Python and SQLite use for
    `release_date`, the stable descending sort of `list.sort(key=..., reverse=True)`,
    and `ORDER BY ... DESC` over an unordered table. */
module Sorting {

  /** Python's `a < b` on `str` (and SQLite's BINARY collation): code-point lexicographic order. */
  predicate Less(a: string, b: string)
    decreases |a|
  {
    if |a| == 0 then |b| > 0
    else |b| > 0 && (a[0] < b[0] || (a[0] == b[0] && Less(a[1..], b[1..])))
  }

  predicate LessEq(a: string, b: string) {
    a == b || Less(a, b)
  }

  lemma LessIrreflexive(a: string)
    ensures !Less(a, a)
  {
  }

  lemma {:induction false} LessTransitive(a: string, b: string, c: string)
    requires Less(a, b) && Less(b, c)
    ensures Less(a, c)
    decreases |a|
  {
    if |a| > 0 && a[0] == b[0] && b[0] == c[0] {
      LessTransitive(a[1..], b[1..], c[1..]);
    }
  }

  lemma {:induction false} LessTotal(a: string, b: string)
    ensures Less(a, b) || a == b || Less(b, a)
    decreases |a|
  {
    if |a| > 0 && |b| > 0 && a[0] == b[0] {
      LessTotal(a[1..], b[1..]);
      if a[1..] == b[1..] {
        assert a == [a[0]] + a[1..] && b == [b[0]] + b[1..];
      }
    }
  }

  lemma LessEqTransitive(a: string, b: string, c: string)
    requires LessEq(a, b) && LessEq(b, c)
    ensures LessEq(a, c)
  {
    if a != b && b != c {
      LessTransitive(a, b, c);
    }
  }

  /** Neither of two strings is below the other only when they are equal. */
  lemma LessAntisymmetric(a: string, b: string)
    requires LessEq(a, b) && LessEq(b, a)
    ensures a == b
  {
    if a != b {
      LessTransitive(a, b, a);
      LessIrreflexive(a);
    }
  }

  // ---------------------------------------------------------------------------
  // Stable descending sort by a string key.

  predicate SortedDesc<T>(s: seq<T>, key: T -> string) {
    forall i, j :: 0 <= i < j < |s| ==> LessEq(key(s[j]), key(s[i]))
  }

  /** Places `x` before the first element whose key is not above `x`'s, so that
      `x` precedes every element of equal key. */
  function InsertDesc<T>(x: T, s: seq<T>, key: T -> string): (r: seq<T>)
    ensures |r| == |s| + 1
    ensures multiset(r) == multiset(s) + multiset{x}
  {
    if |s| == 0 then [x]
    else if LessEq(key(s[0]), key(x)) then [x] + s
    else
      assert s == [s[0]] + s[1..];
      [s[0]] + InsertDesc(x, s[1..], key)
  }

  /** `list.sort(key=key, reverse=True)`: Python's stable sort, descending. */
  function SortDesc<T>(s: seq<T>, key: T -> string): (r: seq<T>)
    ensures multiset(r) == multiset(s)
  {
    if |s| == 0 then []
    else
      assert s == [s[0]] + s[1..];
      InsertDesc(s[0], SortDesc(s[1..], key), key)
  }

  lemma {:induction false} InsertDescSorted<T>(x: T, s: seq<T>, key: T -> string)
    requires SortedDesc(s, key)
    ensures SortedDesc(InsertDesc(x, s, key), key)
    decreases |s|
  {
    var r := InsertDesc(x, s, key);
    if |s| == 0 {
    } else if LessEq(key(s[0]), key(x)) {
      forall i, j | 0 <= i < j < |r| ensures LessEq(key(r[j]), key(r[i])) {
        if i == 0 {
          LessEqTransitive(key(s[j - 1]), key(s[0]), key(x));
        }
      }
    } else {
      InsertDescSorted(x, s[1..], key);
      var t := InsertDesc(x, s[1..], key);
      LessTotal(key(s[0]), key(x));
      forall i, j | 0 <= i < j < |r| ensures LessEq(key(r[j]), key(r[i])) {
        if i == 0 {
          assert r[j] == t[j - 1];
          assert r[j] in multiset(t);
          assert r[j] == x || r[j] in multiset(s[1..]);
          if r[j] != x {
            var k :| 1 <= k < |s| && s[k] == r[j];
          }
        }
      }
    }
  }

  lemma {:induction false} SortDescSorted<T>(s: seq<T>, key: T -> string)
    ensures SortedDesc(SortDesc(s, key), key)
    decreases |s|
  {
    if |s| > 0 {
      SortDescSorted(s[1..], key);
      InsertDescSorted(s[0], SortDesc(s[1..], key), key);
    }
  }

  /** The elements with key `k`, in order. */
  function WithKey<T>(s: seq<T>, key: T -> string, k: string): (r: seq<T>)
    ensures |r| <= |s|
  {
    if |s| == 0 then []
    else (if key(s[0]) == k then [s[0]] else []) + WithKey(s[1..], key, k)
  }

  lemma WithKeyAppend<T>(a: seq<T>, b: seq<T>, key: T -> string, k: string)
    ensures WithKey(a + b, key, k) == WithKey(a, key, k) + WithKey(b, key, k)
  {
    if |a| > 0 {
      assert (a + b)[1..] == a[1..] + b;
      WithKeyAppend(a[1..], b, key, k);
    } else {
      assert a + b == b;
    }
  }

  lemma WithKeyCons<T>(y: T, rest: seq<T>, key: T -> string, k: string)
    ensures WithKey([y] + rest, key, k) == (if key(y) == k then [y] else []) + WithKey(rest, key, k)
  {
    assert ([y] + rest)[1..] == rest;
  }

  lemma {:induction false} InsertDescWithKey<T>(x: T, s: seq<T>, key: T -> string, k: string)
    ensures WithKey(InsertDesc(x, s, key), key, k) ==
              (if key(x) == k then [x] else []) + WithKey(s, key, k)
    decreases |s|
  {
    if |s| == 0 {
    } else if LessEq(key(s[0]), key(x)) {
      WithKeyCons(x, s, key, k);
    } else {
      var t := InsertDesc(x, s[1..], key);
      var head := if key(x) == k then [x] else [];
      assert InsertDesc(x, s, key) == [s[0]] + t;
      assert WithKey([s[0]] + t, key, k) == head + WithKey([s[0]] + s[1..], key, k) by {
        InsertDescWithKey(x, s[1..], key, k);
        InsertBehind(s[0], x, t, s[1..], key, k);
      }
      assert [s[0]] + s[1..] == s;
    }
  }

  /** An element whose key differs from `x`'s can move ahead of `x` without
      changing any key group. */
  lemma InsertBehind<T>(y: T, x: T, t: seq<T>, rest: seq<T>, key: T -> string, k: string)
    requires key(y) != key(x)
    requires WithKey(t, key, k) == (if key(x) == k then [x] else []) + WithKey(rest, key, k)
    ensures WithKey([y] + t, key, k) == (if key(x) == k then [x] else []) + WithKey([y] + rest, key, k)
  {
    WithKeyCons(y, t, key, k);
    WithKeyCons(y, rest, key, k);
  }

  /** Equal keys keep their original relative order. */
  lemma {:induction false} SortDescStable<T>(s: seq<T>, key: T -> string, k: string)
    ensures WithKey(SortDesc(s, key), key, k) == WithKey(s, key, k)
    decreases |s|
  {
    if |s| > 0 {
      SortDescStable(s[1..], key, k);
      InsertDescWithKey(s[0], SortDesc(s[1..], key), key, k);
    }
  }

  /** The stable sort returns a descending permutation of its input that keeps
      every group of equal keys in input order. */
  lemma SortDescSpec<T>(s: seq<T>, key: T -> string)
    ensures SortedDesc(SortDesc(s, key), key)
    ensures multiset(SortDesc(s, key)) == multiset(s)
    ensures forall k :: WithKey(SortDesc(s, key), key, k) == WithKey(s, key, k)
  {
    SortDescSorted(s, key);
    forall k ensures WithKey(SortDesc(s, key), key, k) == WithKey(s, key, k) {
      SortDescStable(s, key, k);
    }
  }

  // ---------------------------------------------------------------------------
  // `SELECT ... ORDER BY key DESC` over a table held as a set: the engine may break
  // ties either way, so any descending listing of the rows is a valid answer.

  /** The rows of an unordered table in some order, each once. */
  method ListRows<T(==)>(rows: set<T>) returns (r: seq<T>)
    ensures multiset(r) == multiset(rows)
    ensures |r| == |rows|
  {
    r := [];
    var left := rows;
    while left != {}
      invariant left <= rows
      invariant multiset(r) + multiset(left) == multiset(rows)
      invariant |r| + |left| == |rows|
      decreases |left|
    {
      var x :| x in left;
      r := r + [x];
      left := left - {x};
    }
  }

  method OrderByDesc<T(==)>(rows: set<T>, key: T -> string) returns (r: seq<T>)
    ensures SortedDesc(r, key)
    ensures multiset(r) == multiset(rows)
    ensures |r| == |rows|
  {
    var listed := ListRows(rows);
    r := SortDesc(listed, key);
    SortDescSorted(listed, key);
    assert |r| == |multiset(r)| == |multiset(listed)| == |listed|;
  }
}
