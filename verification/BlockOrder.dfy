/**
 The order in which sealed blocks are read back: by the text of their ids, so that block 10 comes before block 2.
 */
module BlockOrder {
  import opened Basics
  import opened Decimal
  import opened BlockChain

  /** A row of the block table. */
  datatype Sealed = Sealed(id: nat, block: Block)

  /** The order of texts: the first difference decides, a prefix comes first. */
  predicate TextBefore(a: string, b: string) {
    b != [] && (a == [] || a[0] < b[0] || (a[0] == b[0] && TextBefore(a[1..], b[1..])))
  }

  predicate Before(x: Sealed, y: Sealed) { TextBefore(ToDecimal(x.id), ToDecimal(y.id)) }

  lemma {:induction false} TextIrreflexive(a: string)
    ensures !TextBefore(a, a)
  {
    if a != [] { TextIrreflexive(a[1..]); }
  }

  lemma {:induction false} TextTotal(a: string, b: string)
    requires a != b
    ensures TextBefore(a, b) != TextBefore(b, a)
  {
    if a != [] && b != [] && a[0] == b[0] {
      assert a == [a[0]] + a[1..] && b == [b[0]] + b[1..];
      TextTotal(a[1..], b[1..]);
    }
  }

  lemma {:induction false} TextTransitive(a: string, b: string, c: string)
    requires TextBefore(a, b) && TextBefore(b, c)
    ensures TextBefore(a, c)
  {
    if a != [] && a[0] == b[0] == c[0] {
      TextTransitive(a[1..], b[1..], c[1..]);
    }
  }

  lemma BeforeTotal(x: Sealed, y: Sealed)
    ensures x.id != y.id ==> Before(x, y) != Before(y, x)
    ensures x.id == y.id ==> !Before(x, y)
  {
    if x.id == y.id {
      TextIrreflexive(ToDecimal(x.id));
    } else {
      if ToDecimal(x.id) == ToDecimal(y.id) { ToDecimalInjective(x.id, y.id); }
      TextTotal(ToDecimal(x.id), ToDecimal(y.id));
    }
  }

  lemma NotBeforeTransitive(x: Sealed, y: Sealed, z: Sealed)
    requires !Before(y, x) && !Before(z, y)
    ensures !Before(z, x)
  {
    BeforeTotal(x, y);
    BeforeTotal(y, z);
    if x.id != y.id && y.id != z.id {
      TextTransitive(ToDecimal(x.id), ToDecimal(y.id), ToDecimal(z.id));
      BeforeTotal(x, z);
      TextIrreflexive(ToDecimal(x.id));
    }
  }

  // ---------------------------------------------------------------------------
  // Reading
  // ---------------------------------------------------------------------------

  function Place(read: seq<Sealed>, x: Sealed): (r: seq<Sealed>)
    ensures |r| == |read| + 1
  {
    if read == [] || !Before(x, read[|read| - 1]) then read + [x]
    else Place(read[..|read| - 1], x) + [read[|read| - 1]]
  }

  /** The table in the order of the texts of its ids. */
  function Reading(table: seq<Sealed>): (r: seq<Sealed>)
    ensures |r| == |table|
  {
    if table == [] then [] else Place(Reading(table[..|table| - 1]), table[|table| - 1])
  }

  ghost predicate TextSorted(read: seq<Sealed>) {
    forall i, j :: 0 <= i < j < |read| ==> !Before(read[j], read[i])
  }

  lemma {:induction false} PlaceSorts(read: seq<Sealed>, x: Sealed)
    requires TextSorted(read)
    ensures TextSorted(Place(read, x))
    ensures forall y :: y in Place(read, x) <==> y in read || y == x
  {
    if read != [] {
      var n := |read| - 1;
      var init, last := read[..n], read[n];
      assert read == init + [last];
      if Before(x, last) {
        PlaceSorts(init, x);
        BeforeTotal(x, last);
        var placed := Place(init, x);
        forall i | 0 <= i < |placed| ensures !Before(last, placed[i]) {
          assert placed[i] in placed;
        }
      } else {
        forall i | 0 <= i < |read| ensures !Before(x, read[i]) {
          if i < n { NotBeforeTransitive(read[i], last, x); }
        }
      }
    }
  }

  lemma {:induction false} ReadingSorts(table: seq<Sealed>)
    ensures TextSorted(Reading(table))
    ensures forall y :: y in Reading(table) <==> y in table
  {
    if table != [] {
      var n := |table| - 1;
      ReadingSorts(table[..n]);
      PlaceSorts(Reading(table[..n]), table[n]);
      assert table == table[..n] + [table[n]];
    }
  }

  /** The blocks were sealed in the order in which they are read. */
  ghost predicate InTextOrder(table: seq<Sealed>) {
    forall i, j :: 0 <= i < j < |table| ==> Before(table[i], table[j])
  }

  lemma {:induction false} InOrderReadsAsIs(table: seq<Sealed>)
    requires InTextOrder(table)
    ensures Reading(table) == table
  {
    if table != [] {
      var n := |table| - 1;
      InOrderReadsAsIs(table[..n]);
      if n > 0 { BeforeTotal(table[n - 1], table[n]); }
      assert table == table[..n] + [table[n]];
    }
  }

  // ---------------------------------------------------------------------------
  // Ids 1, 2, 3, ...
  // ---------------------------------------------------------------------------

  ghost predicate Consecutive(table: seq<Sealed>) {
    forall k :: 0 <= k < |table| ==> table[k].id == k + 1
  }

  lemma OneDigit(n: nat)
    requires n < 10
    ensures ToDecimal(n) == [DigitChar(n)]
  {
  }

  lemma TwoDigits(n: nat)
    requires 10 <= n < 100
    ensures ToDecimal(n) == [DigitChar(n / 10), DigitChar(n % 10)]
  {
    OneDigit(n / 10);
  }

  lemma DigitsOrdered(a: nat, b: nat)
    requires a < b < 10
    ensures DigitChar(a) < DigitChar(b)
  {
    assert DigitValue(DigitChar(a)) == a && DigitValue(DigitChar(b)) == b;
  }

  /** Ids counted from 1 are in text order up to the ninth: the tenth comes before the second. */
  lemma CountedIdsAreInOrderBelowTen(table: seq<Sealed>)
    requires Consecutive(table)
    ensures InTextOrder(table) <==> |table| < 10
  {
    if |table| < 10 {
      forall i, j | 0 <= i < j < |table| ensures Before(table[i], table[j]) {
        OneDigit(i + 1);
        OneDigit(j + 1);
        DigitsOrdered(i + 1, j + 1);
      }
    } else {
      TwoDigits(10);
      OneDigit(2);
      DigitsOrdered(1, 2);
      assert Before(table[9], table[1]);
      BeforeTotal(table[1], table[9]);
    }
  }

  /** From the tenth to the eighty-ninth block the ninth is read last. */
  lemma NinthIsReadLast(table: seq<Sealed>)
    requires Consecutive(table) && 10 <= |table| < 90
    ensures Reading(table)[|table| - 1] == table[8]
  {
    ReadingSorts(table);
    var read := Reading(table);
    var last := read[|table| - 1];
    assert last in read && table[8] in table;
    var k :| 0 <= k < |table| && table[k] == last;
    if k != 8 {
      var i :| 0 <= i < |read| && read[i] == table[8];
      BeforeNine(k + 1);
      assert Before(last, read[i]);
    }
  }

  lemma BeforeNine(n: nat)
    requires 1 <= n < 90 && n != 9
    ensures TextBefore(ToDecimal(n), ToDecimal(9))
  {
    OneDigit(9);
    if n < 10 {
      OneDigit(n);
      DigitsOrdered(n, 9);
    } else {
      TwoDigits(n);
      DigitsOrdered(n / 10, 9);
    }
  }
}
