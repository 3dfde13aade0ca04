/** Totals over the rows of a table. */
module Sums {

  function Sum<T>(s: seq<T>, f: T -> int): int
  {
    if s == [] then 0 else Sum(s[..|s| - 1], f) + f(s[|s| - 1])
  }

  lemma SumAppend<T>(s: seq<T>, x: T, f: T -> int)
    ensures Sum(s + [x], f) == Sum(s, f) + f(x)
  {
    assert (s + [x])[..|s|] == s;
  }

  lemma {:induction false} SumConcat<T>(s: seq<T>, t: seq<T>, f: T -> int)
    ensures Sum(s + t, f) == Sum(s, f) + Sum(t, f)
  {
    if t == [] {
      assert s + t == s;
    } else {
      var n := |t| - 1;
      assert s + t == (s + t[..n]) + [t[n]];
      SumAppend(s + t[..n], t[n], f);
      SumConcat(s, t[..n], f);
    }
  }

  lemma {:induction false} SumUpdate<T>(s: seq<T>, i: nat, x: T, f: T -> int)
    requires i < |s|
    ensures Sum(s[i := x], f) == Sum(s, f) - f(s[i]) + f(x)
  {
    var n := |s| - 1;
    if i == n {
      assert s[i := x][..n] == s[..n];
    } else {
      assert s[i := x][..n] == s[..n][i := x];
      SumUpdate(s[..n], i, x, f);
    }
  }

  lemma {:induction false} SumSame<T>(s: seq<T>, f: T -> int, g: T -> int)
    requires forall i :: 0 <= i < |s| ==> f(s[i]) == g(s[i])
    ensures Sum(s, f) == Sum(s, g)
  {
    if s != [] {
      SumSame(s[..|s| - 1], f, g);
    }
  }

  /** Two tables of one length whose rows count the same. */
  lemma {:induction false} SumPointwise<T>(s: seq<T>, t: seq<T>, f: T -> int)
    requires |s| == |t|
    requires forall i :: 0 <= i < |s| ==> f(s[i]) == f(t[i])
    ensures Sum(s, f) == Sum(t, f)
  {
    if s != [] {
      var n := |s| - 1;
      SumPointwise(s[..n], t[..n], f);
    }
  }

  lemma {:induction false} SumMonotone<T>(s: seq<T>, t: seq<T>, f: T -> int)
    requires |s| == |t|
    requires forall i :: 0 <= i < |s| ==> f(s[i]) <= f(t[i])
    ensures Sum(s, f) <= Sum(t, f)
  {
    if s != [] {
      var n := |s| - 1;
      SumMonotone(s[..n], t[..n], f);
    }
  }

  lemma {:induction false} SumBounds<T>(s: seq<T>, f: T -> int)
    requires forall i :: 0 <= i < |s| ==> f(s[i]) >= 0
    ensures Sum(s, f) >= 0
    ensures forall i :: 0 <= i < |s| ==> f(s[i]) <= Sum(s, f)
  {
    if s != [] {
      SumBounds(s[..|s| - 1], f);
    }
  }

  lemma {:induction false} SumZero<T>(s: seq<T>, f: T -> int)
    requires forall i :: 0 <= i < |s| ==> f(s[i]) == 0
    ensures Sum(s, f) == 0
  {
    if s != [] {
      SumZero(s[..|s| - 1], f);
    }
  }

  lemma Sum1<T>(x: T, f: T -> int)
    ensures Sum([x], f) == f(x)
  {
    assert [x] == [] + [x];
    SumAppend([], x, f);
  }

  lemma Sum2<T>(a: T, b: T, f: T -> int)
    ensures Sum([a, b], f) == f(a) + f(b)
  {
    assert [a, b] == [a] + [b];
    SumAppend([a], b, f);
    SumAppend([], a, f);
  }

  lemma Sum3<T>(a: T, b: T, c: T, f: T -> int)
    ensures Sum([a, b, c], f) == f(a) + f(b) + f(c)
  {
    Sum2(a, b, f);
    SumAppend([a, b], c, f);
    assert [a, b, c] == [a, b] + [c];
  }

  lemma Sum4<T>(a: T, b: T, c: T, d: T, f: T -> int)
    ensures Sum([a, b, c, d], f) == f(a) + f(b) + f(c) + f(d)
  {
    Sum3(a, b, c, f);
    SumAppend([a, b, c], d, f);
    assert [a, b, c, d] == [a, b, c] + [d];
  }

  lemma SumOnly<T>(s: seq<T>, f: T -> int, i: nat)
    requires i < |s| && forall j :: 0 <= j < |s| && j != i ==> f(s[j]) == 0
    ensures Sum(s, f) == f(s[i])
  {
    assert s == s[..i] + ([s[i]] + s[i + 1..]);
    SumConcat(s[..i], [s[i]] + s[i + 1..], f);
    SumConcat([s[i]], s[i + 1..], f);
    Sum1(s[i], f);
    SumZero(s[..i], f);
    SumZero(s[i + 1..], f);
  }
}
