/** Reading a sequence through a partial projection. */
module Lists {
  import opened Wrappers

  /** The `Some` values of `f` over `s`, in order. */
  function Pick<T, U>(s: seq<T>, f: T -> Option<U>): (r: seq<U>)
    ensures |r| <= |s|
    decreases |s|
  {
    if |s| == 0 then []
    else (if f(s[0]).Some? then [f(s[0]).value] else []) + Pick(s[1..], f)
  }

  lemma {:induction false} PickAppend<T, U>(a: seq<T>, b: seq<T>, f: T -> Option<U>)
    ensures Pick(a + b, f) == Pick(a, f) + Pick(b, f)
    decreases |a|
  {
    if |a| == 0 {
      assert a + b == b;
    } else {
      var head := if f(a[0]).Some? then [f(a[0]).value] else [];
      assert (a + b)[0] == a[0];
      assert (a + b)[1..] == a[1..] + b;
      PickAppend(a[1..], b, f);
      calc {
        Pick(a + b, f);
        head + Pick(a[1..] + b, f);
        head + (Pick(a[1..], f) + Pick(b, f));
        (head + Pick(a[1..], f)) + Pick(b, f);
      }
    }
  }

  /** The projection of three pieces, piece by piece. */
  lemma PickAppend3<T, U>(a: seq<T>, b: seq<T>, c: seq<T>, f: T -> Option<U>)
    ensures Pick(a + b + c, f) == Pick(a, f) + Pick(b, f) + Pick(c, f)
  {
    PickAppend(a + b, c, f);
    PickAppend(a, b, f);
  }

  /** Regrouping a concatenation, as a fact about these three terms only. */
  lemma AppendAssoc<T>(a: seq<T>, b: seq<T>, c: seq<T>)
    ensures (a + b) + c == a + (b + c)
  {
  }

  lemma {:induction false} PickNone<T, U>(s: seq<T>, f: T -> Option<U>)
    requires forall j :: 0 <= j < |s| ==> f(s[j]).None?
    ensures Pick(s, f) == []
    decreases |s|
  {
    if |s| > 0 {
      PickNone(s[1..], f);
    }
  }

  /** No element occurs twice. */
  predicate Distinct<T(==)>(s: seq<T>) {
    forall i, j :: 0 <= i < j < |s| ==> s[i] != s[j]
  }

  /** A concatenation repeats nothing exactly when neither piece does and they
      share no element. */
  lemma DistinctAppend<T>(a: seq<T>, b: seq<T>)
    ensures Distinct(a + b) <==> Distinct(a) && Distinct(b) && forall x :: x in a ==> x !in b
  {
    var c := a + b;
    if Distinct(c) {
      forall i, j | 0 <= i < j < |a| ensures a[i] != a[j] {
        assert c[i] == a[i] && c[j] == a[j];
      }
      forall i, j | 0 <= i < j < |b| ensures b[i] != b[j] {
        assert c[|a| + i] == b[i] && c[|a| + j] == b[j];
      }
      forall x | x in a ensures x !in b {
        var i :| 0 <= i < |a| && a[i] == x;
        assert c[i] == x;
        assert forall j :: 0 <= j < |b| ==> c[|a| + j] == b[j];
      }
    }
    if Distinct(a) && Distinct(b) && forall x :: x in a ==> x !in b {
      forall i, j | 0 <= i < j < |c| ensures c[i] != c[j] {
        if j < |a| {
          assert c[i] == a[i] && c[j] == a[j];
        } else if i >= |a| {
          assert c[i] == b[i - |a|] && c[j] == b[j - |a|];
        } else {
          assert c[i] == a[i] && c[j] == b[j - |a|];
          assert a[i] in a;
        }
      }
    }
  }

  lemma DistinctCons<T>(x: T, s: seq<T>)
    ensures Distinct([x] + s) <==> x !in s && Distinct(s)
  {
    DistinctAppend([x], s);
  }
}
