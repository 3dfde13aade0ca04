/** What a selection is, said of the candidates themselves: who is served first, what is searched, and what is best. */
module LiquidityAnswers {
  import opened Sums
  import opened Sequences
  import opened LiquidityFit

  /** The candidate asks for something, and for no more than there is. */
  predicate Payable(c: Candidate, spendable: int) { c.gram > 0 && spendable >= c.gram }

  function GramSum(cs: seq<Candidate>): int { Sum(cs, (c: Candidate) => c.gram) }

  /** Nobody older comes later. */
  ghost predicate ByAge(cs: seq<Candidate>) { forall i, j :: 0 <= i < j < |cs| ==> cs[i].age >= cs[j].age }

  /** When its turn came, after the first `i` of those served, the slots were gone or it no longer fitted. */
  ghost predicate TurnedAway(served: seq<Candidate>, i: nat, c: Candidate, spendable: int, maxSelected: int) {
    && i <= |served| && (i >= maxSelected || GramSum(served[..i]) + c.gram > spendable)
    && (forall k :: 0 <= k < i ==> served[k].age >= c.age) && (forall k :: i <= k < |served| ==> served[k].age <= c.age)
  }

  /** The starved are served oldest first, each while there is room and it fits; nobody else is served first. */
  ghost predicate ServedInTurn(cs: seq<Candidate>, served: seq<Candidate>, spendable: int, starvation: int, maxSelected: int) {
    && ByAge(served) && (served != [] ==> |served| <= maxSelected && GramSum(served) <= spendable)
    && (forall c :: c in served ==> c in cs && Payable(c, spendable) && c.age >= starvation)
    && (forall c :: c in cs && Payable(c, spendable) && c.age >= starvation && c !in served ==>
          exists i :: TurnedAway(served, i, c, spendable, maxSelected))
  }

  /** The search is over the oldest 18 of the payable candidates not served. */
  ghost predicate Searched(cs: seq<Candidate>, served: seq<Candidate>, rest: seq<Candidate>, spendable: int) {
    && ByAge(rest) && |rest| <= 18 && Distinct(rest)
    && (forall c :: c in rest ==> c in cs && Payable(c, spendable) && c !in served)
    && (forall c :: c in cs && Payable(c, spendable) && c !in served && c !in rest ==>
          |rest| == 18 && forall d :: d in rest ==> d.age >= c.age)
  }

  /** `fill` is a choice among the searched that fits, and no other that fits uses more GRAM. */
  ghost predicate FillsBest(rest: seq<Candidate>, fill: seq<Candidate>, remaining: int, slots: int) {
    && (exists pick :: |pick| == |rest| && fill == Chosen(rest, pick))
    && (fill != [] ==> GramSum(fill) <= remaining && |fill| <= slots)
    && (forall pick :: |pick| == |rest| && GramSum(Chosen(rest, pick)) <= remaining && |Chosen(rest, pick)| <= slots ==>
          GramSum(Chosen(rest, pick)) <= GramSum(fill))
  }

  lemma SameTotal(cs: seq<Candidate>)
    ensures GramSum(cs) == Total(cs)
  {
    SumSame(cs, (c: Candidate) => c.gram, GramOf());
  }

  lemma {:induction false} TakenPrefix(cs: seq<Candidate>, k: nat, maxSelected: int, spendable: int)
    requires k <= |cs|
    ensures TakeInTurn(cs[..k], maxSelected, spendable) <= TakeInTurn(cs, maxSelected, spendable)
    ensures forall i :: |TakeInTurn(cs[..k], maxSelected, spendable)| <= i < |TakeInTurn(cs, maxSelected, spendable)| ==>
              TakeInTurn(cs, maxSelected, spendable)[i] in cs[k..]
  {
    if k == |cs| {
      assert cs[..k] == cs;
    } else {
      var n := |cs| - 1;
      TakenPrefix(cs[..n], k, maxSelected, spendable);
      assert cs[..n][..k] == cs[..k];
      assert cs[k..] == cs[..n][k..] + [cs[n]];
      assert cs[n] in cs[k..];
    }
  }

  lemma YoungerAppended(cs: seq<Candidate>, c: Candidate)
    requires ByAge(cs) && forall i :: 0 <= i < |cs| ==> cs[i].age >= c.age
    ensures ByAge(cs + [c])
  {
  }

  lemma {:induction false} TakenSorted(cs: seq<Candidate>, maxSelected: int, spendable: int)
    requires ByAge(cs)
    ensures ByAge(TakeInTurn(cs, maxSelected, spendable))
  {
    if cs != [] {
      var n := |cs| - 1;
      TakenSorted(cs[..n], maxSelected, spendable);
      TakenFacts(cs[..n], maxSelected, spendable);
      var taken := TakeInTurn(cs[..n], maxSelected, spendable);
      forall i | 0 <= i < |taken| ensures taken[i].age >= cs[n].age {
        assert taken[i] in taken && taken[i] in cs[..n];
      }
      YoungerAppended(taken, cs[n]);
    }
  }

  lemma PassedOver(cs: seq<Candidate>, k: nat, maxSelected: int, spendable: int)
    requires ByAge(cs) && k < |cs| && cs[k] !in TakeInTurn(cs, maxSelected, spendable)
    ensures TurnedAway(TakeInTurn(cs, maxSelected, spendable), |TakeInTurn(cs[..k], maxSelected, spendable)|, cs[k], spendable, maxSelected)
  {
    var served, before := TakeInTurn(cs, maxSelected, spendable), TakeInTurn(cs[..k], maxSelected, spendable);
    TakenPrefix(cs, k, maxSelected, spendable);
    TakenPrefix(cs, k + 1, maxSelected, spendable);
    TakenFacts(cs[..k], maxSelected, spendable);
    assert cs[..k + 1][..k] == cs[..k];
    assert served[..|before|] == before;
    SameTotal(before);
    forall i | 0 <= i < |before| ensures served[i].age >= cs[k].age {
      assert before[i] in before && before[i] in cs[..k];
    }
    forall i | |before| <= i < |served| ensures served[i].age <= cs[k].age {
      var j :| 0 <= j < |cs[k..]| && cs[k..][j] == served[i];
      assert cs[k..][j] == cs[k + j];
    }
  }

  lemma SortedByAge(cs: seq<Candidate>)
    ensures ByAge(OldestFirst(cs)) && forall c :: c in OldestFirst(cs) <==> c in cs
  {
    SortIsSort(cs, Youth());
    var s := OldestFirst(cs);
    forall i, j | 0 <= i < j < |s| ensures s[i].age >= s[j].age {
      assert Youth()(s[i]) <= Youth()(s[j]);
    }
  }

  lemma FirstAreServed(cs: seq<Candidate>, spendable: int, starvation: int, maxSelected: int)
    ensures ServedInTurn(cs, First(cs, spendable, starvation, maxSelected), spendable, starvation, maxSelected)
  {
    var starved := Starved(Affordable(cs, spendable), starvation);
    var turn := OldestFirst(starved);
    SortedByAge(starved);
    var served := First(cs, spendable, starvation, maxSelected);
    TakenFacts(turn, maxSelected, spendable);
    TakenSorted(turn, maxSelected, spendable);
    SameTotal(served);
    forall c | c in cs && Payable(c, spendable) && c.age >= starvation && c !in served
      ensures exists i :: TurnedAway(served, i, c, spendable, maxSelected)
    {
      assert c in turn;
      var k :| 0 <= k < |turn| && turn[k] == c;
      PassedOver(turn, k, maxSelected, spendable);
    }
  }

  lemma RestIsSearched(cs: seq<Candidate>, spendable: int, starvation: int, maxSelected: int)
    requires Distinct(cs)
    ensures Searched(cs, First(cs, spendable, starvation, maxSelected),
                     Oldest(Leftovers(cs, spendable, starvation, maxSelected)), spendable)
  {
    var served := First(cs, spendable, starvation, maxSelected);
    var rest := Oldest(Leftovers(cs, spendable, starvation, maxSelected));
    SortedByAge(Without(Affordable(cs, spendable), served));
    RestMembers(cs, spendable, starvation, maxSelected);
    RestDistinct(cs, spendable, starvation, maxSelected);
    forall c | c in cs && Payable(c, spendable) && c !in served && c !in rest
      ensures |rest| == 18 && forall d :: d in rest ==> d.age >= c.age
    {
      assert c in Leftovers(cs, spendable, starvation, maxSelected);
      forall d | d in rest ensures d.age >= c.age { SearchTakesOldest(cs, spendable, starvation, maxSelected, c, d); }
    }
  }

  lemma FillIsChoice(rest: seq<Candidate>, fill: seq<Candidate>, remaining: int, slots: int)
    requires Fill(fill, rest, remaining, slots) && AllPositive(rest)
    ensures FillsBest(rest, fill, remaining, slots)
  {
    FillFacts(fill, rest, remaining, slots);
    SameTotal(fill);
    if slots > 0 && rest != [] && remaining > 0 {
      var m: nat :| FirstBest(rest, remaining, slots, m) && fill == Subset(rest, m);
      assert fill == Chosen(rest, Bits(m, |rest|));
    } else {
      EmptyMask(rest);
      assert fill == Chosen(rest, Bits(0, |rest|));
    }
    forall pick | |pick| == |rest| && GramSum(Chosen(rest, pick)) <= remaining && |Chosen(rest, pick)| <= slots
      ensures GramSum(Chosen(rest, pick)) <= GramSum(fill)
    {
      SameTotal(Chosen(rest, pick));
      FillIsBest(fill, rest, remaining, slots, pick);
    }
  }

  /** The selection is those served in turn, followed by a best choice among the oldest 18 of the rest. */
  ghost predicate SelectsAs(cs: seq<Candidate>, spendable: int, starvation: int, maxSelected: int, selected: seq<Candidate>,
                            served: seq<Candidate>, rest: seq<Candidate>) {
    && served <= selected && ServedInTurn(cs, served, spendable, starvation, maxSelected)
    && Searched(cs, served, rest, spendable)
    && FillsBest(rest, selected[|served|..], spendable - GramSum(served), maxSelected - |served|)
  }

  lemma SelectionAnswers(cs: seq<Candidate>, spendable: int, starvation: int, maxSelected: int, selected: seq<Candidate>)
    requires Distinct(cs) && Selection(cs, spendable, starvation, maxSelected, selected)
    ensures exists served, rest :: SelectsAs(cs, spendable, starvation, maxSelected, selected, served, rest)
  {
    var served := First(cs, spendable, starvation, maxSelected);
    var rest := Oldest(Leftovers(cs, spendable, starvation, maxSelected));
    FirstAreServed(cs, spendable, starvation, maxSelected);
    RestIsSearched(cs, spendable, starvation, maxSelected);
    RestFillsBest(cs, spendable, starvation, maxSelected, selected);
    assert SelectsAs(cs, spendable, starvation, maxSelected, selected, served, rest);
  }

  lemma RestFillsBest(cs: seq<Candidate>, spendable: int, starvation: int, maxSelected: int, selected: seq<Candidate>)
    requires Selection(cs, spendable, starvation, maxSelected, selected)
    ensures var served := First(cs, spendable, starvation, maxSelected);
            && served <= selected
            && FillsBest(Oldest(Leftovers(cs, spendable, starvation, maxSelected)), selected[|served|..],
                         spendable - GramSum(served), maxSelected - |served|)
  {
    var served := First(cs, spendable, starvation, maxSelected);
    RestIsPositive(cs, spendable, starvation, maxSelected);
    SameTotal(served);
    FillIsChoice(Oldest(Leftovers(cs, spendable, starvation, maxSelected)), selected[|served|..],
                 spendable - GramSum(served), maxSelected - |served|);
  }
}
