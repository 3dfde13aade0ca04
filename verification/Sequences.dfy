/** Filtering, stable sorting and joining of rows. */
module Sequences {
  import opened Sums

  function Keep<T(!new)>(s: seq<T>, p: T -> bool): (r: seq<T>)
    ensures forall x :: x in r <==> x in s && p(x)
  {
    if s == [] then []
    else
      var n := |s| - 1;
      assert s == s[..n] + [s[n]];
      Keep(s[..n], p) + (if p(s[n]) then [s[n]] else [])
  }

  lemma {:induction false} KeepCounts<T(!new)>(s: seq<T>, p: T -> bool, f: T -> int)
    requires forall x :: x in s && !p(x) ==> f(x) == 0
    ensures Sum(Keep(s, p), f) == Sum(s, f) && |Keep(s, p)| <= |s|
  {
    if s != [] {
      var n := |s| - 1;
      assert s == s[..n] + [s[n]];
      KeepCounts(s[..n], p, f);
      if p(s[n]) {
        SumAppend(Keep(s[..n], p), s[n], f);
      } else {
        assert Keep(s, p) == Keep(s[..n], p);
        assert s[n] in s;
      }
    }
  }

  ghost predicate Sorted<T(!new)>(s: seq<T>, key: T -> int) {
    forall i, j :: 0 <= i < j < |s| ==> key(s[i]) <= key(s[j])
  }

  lemma {:induction false} KeepSorted<T(!new)>(s: seq<T>, p: T -> bool, key: T -> int)
    requires Sorted(s, key)
    ensures Sorted(Keep(s, p), key)
  {
    if s != [] {
      var n := |s| - 1;
      KeepSorted(s[..n], p, key);
      var kept := Keep(s[..n], p);
      forall i | 0 <= i < |kept| ensures key(kept[i]) <= key(s[n]) {
        assert kept[i] in kept && kept[i] in s[..n];
      }
    }
  }

  /** After every row that does not come later. */
  function Insert<T>(sorted: seq<T>, x: T, key: T -> int): (r: seq<T>)
    ensures |r| == |sorted| + 1
  {
    if sorted == [] || key(sorted[|sorted| - 1]) <= key(x) then sorted + [x]
    else Insert(sorted[..|sorted| - 1], x, key) + [sorted[|sorted| - 1]]
  }

  /** The stable sort by a key. */
  function Sort<T>(s: seq<T>, key: T -> int): (r: seq<T>)
    ensures |r| == |s|
  {
    if s == [] then [] else Insert(Sort(s[..|s| - 1], key), s[|s| - 1], key)
  }

  lemma {:induction false} InsertPermutes<T>(sorted: seq<T>, x: T, key: T -> int)
    ensures multiset(Insert(sorted, x, key)) == multiset(sorted) + multiset{x}
  {
    if sorted != [] && key(sorted[|sorted| - 1]) > key(x) {
      var n := |sorted| - 1;
      InsertPermutes(sorted[..n], x, key);
      assert sorted == sorted[..n] + [sorted[n]];
    }
  }

  lemma {:induction false} InsertSorts<T(!new)>(sorted: seq<T>, x: T, key: T -> int)
    requires Sorted(sorted, key)
    ensures Sorted(Insert(sorted, x, key), key)
    ensures forall y :: y in Insert(sorted, x, key) ==> y in sorted || y == x
  {
    if sorted != [] && key(sorted[|sorted| - 1]) > key(x) {
      var n := |sorted| - 1;
      InsertSorts(sorted[..n], x, key);
      var r := Insert(sorted[..n], x, key);
      forall i | 0 <= i < |r| ensures key(r[i]) <= key(sorted[n]) {
        assert r[i] in r;
      }
    }
  }

  lemma {:induction false} SortIsSort<T(!new)>(s: seq<T>, key: T -> int)
    ensures multiset(Sort(s, key)) == multiset(s) && Sorted(Sort(s, key), key)
    ensures forall x :: x in Sort(s, key) <==> x in s
  {
    if s != [] {
      var n := |s| - 1;
      SortIsSort(s[..n], key);
      InsertPermutes(Sort(s[..n], key), s[n], key);
      InsertSorts(Sort(s[..n], key), s[n], key);
      assert s == s[..n] + [s[n]];
    }
    forall x ensures x in Sort(s, key) <==> x in s {
      assert x in multiset(Sort(s, key)) <==> x in multiset(s);
    }
  }

  lemma {:induction false} InsertSum<T>(sorted: seq<T>, x: T, key: T -> int, f: T -> int)
    ensures Sum(Insert(sorted, x, key), f) == Sum(sorted, f) + f(x)
  {
    if sorted == [] || key(sorted[|sorted| - 1]) <= key(x) {
      SumAppend(sorted, x, f);
    } else {
      var n := |sorted| - 1;
      InsertSum(sorted[..n], x, key, f);
      SumAppend(Insert(sorted[..n], x, key), sorted[n], f);
    }
  }

  lemma {:induction false} SortSum<T>(s: seq<T>, key: T -> int, f: T -> int)
    ensures Sum(Sort(s, key), f) == Sum(s, f)
  {
    if s != [] {
      SortSum(s[..|s| - 1], key, f);
      InsertSum(Sort(s[..|s| - 1], key), s[|s| - 1], key, f);
    }
  }

  function Join(parts: seq<string>, separator: char): string {
    if parts == [] then ""
    else if |parts| == 1 then parts[0]
    else Join(parts[..|parts| - 1], separator) + [separator] + parts[|parts| - 1]
  }
}
