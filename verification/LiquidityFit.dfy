/** Which rate-locked payouts to reserve when GRAM is short: the longest starved first, then the fullest small subset. */
module LiquidityFit {
  import opened Basics
  import opened Sums
  import opened Sequences

  datatype Candidate = Candidate(payout: nat, merchant: nat, gram: int, age: int)

  const SEARCH_WIDTH := 18

  function GramOf(): Candidate -> int { (c: Candidate) => c.gram }

  function Total(cs: seq<Candidate>): int { Sum(cs, GramOf()) }

  ghost predicate Distinct(cs: seq<Candidate>) {
    forall i, j :: 0 <= i < j < |cs| ==> cs[i].payout != cs[j].payout
  }

  ghost predicate AllPositive(cs: seq<Candidate>) { forall c :: c in cs ==> c.gram > 0 }

  // ---------------------------------------------------------------------------
  // Filters and the sort
  // ---------------------------------------------------------------------------

  predicate CanPay(c: Candidate, spendable: int) { 0 < c.gram <= spendable }

  lemma {:induction false} KeepDistinct(cs: seq<Candidate>, p: Candidate -> bool)
    requires Distinct(cs)
    ensures Distinct(Keep(cs, p))
  {
    if cs != [] {
      var n := |cs| - 1;
      KeepDistinct(cs[..n], p);
      var kept := Keep(cs[..n], p);
      forall i | 0 <= i < |kept| ensures kept[i].payout != cs[n].payout {
        assert kept[i] in kept && kept[i] in cs[..n];
      }
    }
  }

  function Affordable(cs: seq<Candidate>, spendable: int): seq<Candidate> { Keep(cs, c => CanPay(c, spendable)) }

  function Starved(cs: seq<Candidate>, starvation: int): seq<Candidate> { Keep(cs, (c: Candidate) => c.age >= starvation) }

  function Without(cs: seq<Candidate>, taken: seq<Candidate>): seq<Candidate> { Keep(cs, c => c !in taken) }

  function Youth(): Candidate -> int { (c: Candidate) => -c.age }

  /** Oldest first, ties in their own order. */
  function OldestFirst(cs: seq<Candidate>): seq<Candidate> { Sort(cs, Youth()) }

  /** Distinct payouts, said with multiplicities. */
  lemma DistinctMultiset(s: seq<Candidate>, t: seq<Candidate>)
    requires multiset(s) == multiset(t) && Distinct(s)
    ensures Distinct(t)
  {
    forall i, j | 0 <= i < j < |t| ensures t[i].payout != t[j].payout {
      OccursIn(s, t, i);
      OccursIn(s, t, j);
      var k :| 0 <= k < |s| && s[k] == t[i];
      var l :| 0 <= l < |s| && s[l] == t[j];
      if k == l {
        TwiceCounts(t, i, j);
        OnceCounts(s, k);
        assert false;
      }
    }
  }

  lemma OccursIn(s: seq<Candidate>, t: seq<Candidate>, i: nat)
    requires multiset(s) == multiset(t) && i < |t|
    ensures exists k :: 0 <= k < |s| && s[k] == t[i]
  {
    assert t[i] in multiset(t);
    assert t[i] in multiset(s);
  }

  lemma TwiceCounts(t: seq<Candidate>, i: nat, j: nat)
    requires i < j < |t| && t[i] == t[j]
    ensures multiset(t)[t[i]] >= 2
  {
    assert t == t[..j] + t[j..];
    assert multiset(t) == multiset(t[..j]) + multiset(t[j..]);
    assert t[..j][i] == t[i] && t[j..][0] == t[j];
    assert t[i] in multiset(t[..j]) && t[i] in multiset(t[j..]);
  }

  lemma OnceCounts(s: seq<Candidate>, k: nat)
    requires k < |s| && Distinct(s)
    ensures multiset(s)[s[k]] == 1
  {
    assert s == s[..k] + [s[k]] + s[k + 1..];
    assert s[k] !in s[..k] && s[k] !in s[k + 1..];
    assert multiset(s) == multiset(s[..k]) + multiset{s[k]} + multiset(s[k + 1..]);
  }

  // ---------------------------------------------------------------------------
  // Subsets as masks
  // ---------------------------------------------------------------------------

  function Pow2(n: nat): (p: nat)
    ensures p > 0
  {
    if n == 0 then 1 else 2 * Pow2(n - 1)
  }

  function Bit(mask: nat, i: nat): bool {
    if i == 0 then mask % 2 == 1 else Bit(mask / 2, i - 1)
  }

  /** The candidates a choice of positions picks, in order. */
  function Chosen(rest: seq<Candidate>, pick: seq<bool>): (r: seq<Candidate>)
    requires |pick| == |rest|
  {
    if rest == [] then []
    else
      var n := |rest| - 1;
      Chosen(rest[..n], pick[..n]) + (if pick[n] then [rest[n]] else [])
  }

  lemma {:induction false} ChosenDistinct(rest: seq<Candidate>, pick: seq<bool>)
    requires |pick| == |rest|
    ensures forall c :: c in Chosen(rest, pick) ==> c in rest
    ensures Distinct(rest) ==> Distinct(Chosen(rest, pick))
  {
    if rest != [] {
      var n := |rest| - 1;
      ChosenDistinct(rest[..n], pick[..n]);
      var r := Chosen(rest[..n], pick[..n]);
      if Distinct(rest) {
        forall i | 0 <= i < |r| ensures r[i].payout != rest[n].payout {
          assert r[i] in r && r[i] in rest[..n];
        }
      }
    }
  }

  function Bits(mask: nat, n: nat): (b: seq<bool>)
    ensures |b| == n && forall i :: 0 <= i < n ==> b[i] == Bit(mask, i)
  {
    seq(n, i requires 0 <= i < n => Bit(mask, i))
  }

  function Subset(rest: seq<Candidate>, mask: nat): seq<Candidate> { Chosen(rest, Bits(mask, |rest|)) }

  function MaskOf(pick: seq<bool>): nat {
    if pick == [] then 0 else (if pick[0] then 1 else 0) + 2 * MaskOf(pick[1..])
  }

  lemma {:induction false} MaskOfBits(pick: seq<bool>)
    ensures MaskOf(pick) < Pow2(|pick|)
    ensures Bits(MaskOf(pick), |pick|) == pick
  {
    if pick != [] {
      MaskOfBits(pick[1..]);
      var rest := MaskOf(pick[1..]);
      assert MaskOf(pick) / 2 == rest;
      forall i | 0 <= i < |pick| ensures Bit(MaskOf(pick), i) == pick[i] {
        if i > 0 {
          assert Bits(rest, |pick| - 1)[i - 1] == pick[1..][i - 1];
        }
      }
    }
  }

  predicate Fits(s: seq<Candidate>, remaining: int, slots: int) { Total(s) <= remaining && |s| <= slots }

  /** The subset of the first mask, in numeric order, that reaches the largest total that fits. */
  ghost predicate FirstBest(rest: seq<Candidate>, remaining: int, slots: int, m: nat) {
    && m < Pow2(|rest|) && (m == 0 || Fits(Subset(rest, m), remaining, slots))
    && (forall k :: 0 <= k < Pow2(|rest|) && Fits(Subset(rest, k), remaining, slots) ==>
          Total(Subset(rest, k)) <= Total(Subset(rest, m)) && (k < m ==> Total(Subset(rest, k)) < Total(Subset(rest, m))))
  }

  ghost predicate BestFill(fill: seq<Candidate>, rest: seq<Candidate>, remaining: int, slots: int) {
    exists m: nat :: FirstBest(rest, remaining, slots, m) && fill == Subset(rest, m)
  }

  // ---------------------------------------------------------------------------
  // The search
  // ---------------------------------------------------------------------------

  lemma BitsStep(mask: nat, i: nat)
    ensures Bits(mask, i + 1) == Bits(mask, i) + [Bit(mask, i)]
  {
  }

  lemma ChosenAppend(rest: seq<Candidate>, pick: seq<bool>, c: Candidate, b: bool)
    requires |pick| == |rest|
    ensures Chosen(rest + [c], pick + [b]) == Chosen(rest, pick) + (if b then [c] else [])
  {
    assert (rest + [c])[..|rest|] == rest && (pick + [b])[..|rest|] == pick;
  }

  lemma TotalAppend(cs: seq<Candidate>, c: Candidate)
    ensures Total(cs + [c]) == Total(cs) + c.gram
  {
    SumAppend(cs, c, GramOf());
  }

  lemma SubsetAppend(rest: seq<Candidate>, c: Candidate, mask: nat)
    ensures Subset(rest + [c], mask) == Subset(rest, mask) + (if Bit(mask, |rest|) then [c] else [])
  {
    BitsStep(mask, |rest|);
    ChosenAppend(rest, Bits(mask, |rest|), c, Bit(mask, |rest|));
  }

  lemma ChosenStep(rest: seq<Candidate>, mask: nat, i: nat)
    requires i < |rest|
    ensures Subset(rest[..i + 1], mask) == Subset(rest[..i], mask) + (if Bit(mask, i) then [rest[i]] else [])
    ensures Total(Subset(rest[..i + 1], mask)) == Total(Subset(rest[..i], mask)) + (if Bit(mask, i) then rest[i].gram else 0)
  {
    var before := rest[..i];
    assert rest[..i + 1] == before + [rest[i]];
    SubsetAppend(before, rest[i], mask);
    if Bit(mask, i) {
      TotalAppend(Subset(before, mask), rest[i]);
    } else {
      assert Subset(before, mask) + [] == Subset(before, mask);
    }
  }

  /** Positive amounts: a prefix that is already too heavy or too long stays so. */
  lemma {:induction false} PrefixBound(rest: seq<Candidate>, mask: nat, i: nat)
    requires i <= |rest| && AllPositive(rest)
    ensures Total(Subset(rest[..i], mask)) <= Total(Subset(rest, mask)) && |Subset(rest[..i], mask)| <= |Subset(rest, mask)|
    decreases |rest| - i
  {
    if i == |rest| {
      assert rest[..i] == rest;
    } else {
      ChosenStep(rest, mask, i);
      assert rest[i] in rest;
      PrefixBound(rest, mask, i + 1);
    }
  }

  method Weigh(rest: seq<Candidate>, mask: nat, remaining: int, slots: int) returns (fits: bool, sum: int)
    requires AllPositive(rest)
    ensures fits <==> Fits(Subset(rest, mask), remaining, slots)
    ensures fits ==> sum == Total(Subset(rest, mask))
  {
    sum := 0;
    var count := 0;
    var i := 0;
    assert rest[..0] == [];
    while i < |rest|
      invariant 0 <= i <= |rest|
      invariant sum == Total(Subset(rest[..i], mask)) && count == |Subset(rest[..i], mask)|
    {
      ChosenStep(rest, mask, i);
      if Bit(mask, i) {
        sum := sum + rest[i].gram;
        count := count + 1;
        if sum > remaining || count > slots {
          PrefixBound(rest, mask, i + 1);
          break;
        }
      }
      i := i + 1;
    }
    if i == |rest| { assert rest[..i] == rest; }
    fits := !(sum > remaining || count > slots);
  }

  method Pick(rest: seq<Candidate>, mask: nat) returns (subset: seq<Candidate>)
    ensures subset == Subset(rest, mask)
  {
    subset := [];
    for i := 0 to |rest|
      invariant subset == Subset(rest[..i], mask)
    {
      ChosenStep(rest, mask, i);
      if Bit(mask, i) {
        subset := subset + [rest[i]];
      }
    }
    assert rest[..|rest|] == rest;
  }

  lemma EmptyMask(rest: seq<Candidate>)
    ensures Subset(rest, 0) == []
  {
    if rest != [] {
      var n := |rest| - 1;
      EmptyMask(rest[..n]);
      ZeroBit(n);
      assert Bits(0, n + 1)[..n] == Bits(0, n);
    }
  }

  lemma {:induction false} ZeroBit(i: nat)
    ensures !Bit(0, i)
  {
    if i > 0 {
      ZeroBit(i - 1);
    }
  }

  method BestSubset(rest: seq<Candidate>, remaining: int, slots: int) returns (best: seq<Candidate>)
    requires AllPositive(rest) && remaining > 0 && slots > 0
    ensures BestFill(best, rest, remaining, slots)
  {
    best := [];
    var bestTotal := 0;
    ghost var bestMask: nat := 0;
    EmptyMask(rest);
    var total := Pow2(|rest|);
    for mask := 1 to total
      invariant bestMask < mask && best == Subset(rest, bestMask) && bestTotal == Total(best)
      invariant bestMask == 0 || Fits(best, remaining, slots)
      invariant bestTotal <= remaining
      invariant forall k :: 0 <= k < mask && Fits(Subset(rest, k), remaining, slots) ==>
        Total(Subset(rest, k)) <= bestTotal && (k < bestMask ==> Total(Subset(rest, k)) < bestTotal)
    {
      var fits, sum := Weigh(rest, mask, remaining, slots);
      if fits && sum > bestTotal {
        best := Pick(rest, mask);
        bestTotal, bestMask := sum, mask;
        if bestTotal == remaining {
          assert FirstBest(rest, remaining, slots, bestMask);
          return;
        }
      }
    }
    assert FirstBest(rest, remaining, slots, bestMask);
  }

  // ---------------------------------------------------------------------------
  // The selection
  // ---------------------------------------------------------------------------

  /** Take each in turn while there is room and it still fits. */
  function TakeInTurn(cs: seq<Candidate>, maxSelected: int, spendable: int): seq<Candidate> {
    if cs == [] then []
    else
      var n := |cs| - 1;
      var taken := TakeInTurn(cs[..n], maxSelected, spendable);
      if |taken| < maxSelected && cs[n].gram <= spendable - Total(taken) then taken + [cs[n]] else taken
  }

  function First(cs: seq<Candidate>, spendable: int, starvation: int, maxSelected: int): seq<Candidate> {
    TakeInTurn(OldestFirst(Starved(Affordable(cs, spendable), starvation)), maxSelected, spendable)
  }

  /** Everything affordable that was not taken first, oldest first. */
  function Leftovers(cs: seq<Candidate>, spendable: int, starvation: int, maxSelected: int): seq<Candidate> {
    OldestFirst(Without(Affordable(cs, spendable), First(cs, spendable, starvation, maxSelected)))
  }

  function Oldest(cs: seq<Candidate>): seq<Candidate> { if |cs| <= SEARCH_WIDTH then cs else cs[..SEARCH_WIDTH] }

  ghost predicate Fill(fill: seq<Candidate>, rest: seq<Candidate>, remaining: int, slots: int) {
    if slots > 0 && rest != [] && remaining > 0 then BestFill(fill, rest, remaining, slots) else fill == []
  }

  ghost predicate Selection(cs: seq<Candidate>, spendable: int, starvation: int, maxSelected: int, selected: seq<Candidate>) {
    var first := First(cs, spendable, starvation, maxSelected);
    && first <= selected
    && Fill(selected[|first|..], Oldest(Leftovers(cs, spendable, starvation, maxSelected)),
            spendable - Total(first), maxSelected - |first|)
  }

  method SelectByLiquidityFit(cs: seq<Candidate>, spendable: int, starvation: int := 3600, maxSelected: int := 25)
    returns (selected: seq<Candidate>)
    ensures Selection(cs, spendable, starvation, maxSelected, selected)
  {
    var affordable := Affordable(cs, spendable);
    if affordable == [] { return []; }
    selected := [];
    var remaining := spendable;
    var starved := OldestFirst(Starved(affordable, starvation));
    var i := 0;
    while i < |starved|
      invariant 0 <= i <= |starved|
      invariant selected == TakeInTurn(starved[..i], maxSelected, spendable) && remaining == spendable - Total(selected)
    {
      assert starved[..i + 1][..i] == starved[..i];
      if |selected| >= maxSelected {
        TakenIsFull(starved, i, maxSelected, spendable);
        break;
      }
      if starved[i].gram <= remaining {
        TotalAppend(selected, starved[i]);
        selected := selected + [starved[i]];
        remaining := remaining - starved[i].gram;
      }
      i := i + 1;
    }
    if i == |starved| { assert starved[..i] == starved; }
    assert selected == First(cs, spendable, starvation, maxSelected);
    var rest := Oldest(OldestFirst(Without(affordable, selected)));
    var slots := maxSelected - |selected|;
    if slots > 0 && |rest| > 0 && remaining > 0 {
      RestIsPositive(cs, spendable, starvation, maxSelected);
      var best := BestSubset(rest, remaining, slots);
      assert (selected + best)[|selected|..] == best;
      selected := selected + best;
    }
  }

  lemma {:induction false} TakenIsFull(cs: seq<Candidate>, i: nat, maxSelected: int, spendable: int)
    requires i <= |cs| && |TakeInTurn(cs[..i], maxSelected, spendable)| >= maxSelected
    ensures TakeInTurn(cs, maxSelected, spendable) == TakeInTurn(cs[..i], maxSelected, spendable)
  {
    if i == |cs| {
      assert cs[..i] == cs;
    } else {
      assert cs[..|cs| - 1][..i] == cs[..i];
      TakenIsFull(cs[..|cs| - 1], i, maxSelected, spendable);
    }
  }

  lemma RestMembers(cs: seq<Candidate>, spendable: int, starvation: int, maxSelected: int)
    ensures forall c :: c in Oldest(Leftovers(cs, spendable, starvation, maxSelected)) ==>
              c in Affordable(cs, spendable) && c !in First(cs, spendable, starvation, maxSelected)
  {
    var without := Without(Affordable(cs, spendable), First(cs, spendable, starvation, maxSelected));
    var left := Leftovers(cs, spendable, starvation, maxSelected);
    SortIsSort(without, Youth());
    forall c | c in Oldest(left) ensures c in Affordable(cs, spendable) && c !in First(cs, spendable, starvation, maxSelected) {
      assert c in left && c in without;
    }
  }

  lemma RestIsPositive(cs: seq<Candidate>, spendable: int, starvation: int, maxSelected: int)
    ensures AllPositive(Oldest(Leftovers(cs, spendable, starvation, maxSelected)))
  {
    RestMembers(cs, spendable, starvation, maxSelected);
  }

  // ---------------------------------------------------------------------------
  // Theorems about every selection
  // ---------------------------------------------------------------------------

  lemma {:induction false} TakenFacts(cs: seq<Candidate>, maxSelected: int, spendable: int)
    ensures var taken := TakeInTurn(cs, maxSelected, spendable);
            && (forall c :: c in taken ==> c in cs)
            && (taken == [] || (|taken| <= maxSelected && Total(taken) <= spendable))
            && (Distinct(cs) ==> Distinct(taken))
  {
    if cs != [] {
      var n := |cs| - 1;
      TakenFacts(cs[..n], maxSelected, spendable);
      var taken := TakeInTurn(cs[..n], maxSelected, spendable);
      TotalAppend(taken, cs[n]);
      if Distinct(cs) {
        forall i | 0 <= i < |taken| ensures taken[i].payout != cs[n].payout {
          assert taken[i] in taken && taken[i] in cs[..n];
        }
      }
    }
  }

  lemma AffordableDistinct(cs: seq<Candidate>, spendable: int)
    requires Distinct(cs)
    ensures Distinct(Affordable(cs, spendable))
  {
    KeepDistinct(cs, c => CanPay(c, spendable));
  }

  lemma SortedDistinct(cs: seq<Candidate>)
    requires Distinct(cs)
    ensures Distinct(OldestFirst(cs))
  {
    SortIsSort(cs, Youth());
    DistinctMultiset(cs, OldestFirst(cs));
  }

  lemma StarvedDistinct(cs: seq<Candidate>, starvation: int)
    requires Distinct(cs)
    ensures Distinct(OldestFirst(Starved(cs, starvation)))
  {
    KeepDistinct(cs, (c: Candidate) => c.age >= starvation);
    SortedDistinct(Starved(cs, starvation));
  }

  lemma WithoutDistinct(cs: seq<Candidate>, taken: seq<Candidate>)
    requires Distinct(cs)
    ensures Distinct(OldestFirst(Without(cs, taken)))
  {
    KeepDistinct(cs, c => c !in taken);
    SortedDistinct(Without(cs, taken));
  }

  lemma FirstFacts(cs: seq<Candidate>, spendable: int, starvation: int, maxSelected: int)
    ensures var first := First(cs, spendable, starvation, maxSelected);
            && (forall c :: c in first ==> c in Affordable(cs, spendable))
            && (first == [] || (|first| <= maxSelected && Total(first) <= spendable))
            && (Distinct(cs) ==> Distinct(first))
  {
    var starved := Starved(Affordable(cs, spendable), starvation);
    SortIsSort(starved, Youth());
    TakenFacts(OldestFirst(starved), maxSelected, spendable);
    if Distinct(cs) {
      AffordableDistinct(cs, spendable);
      StarvedDistinct(Affordable(cs, spendable), starvation);
    }
  }

  lemma RestDistinct(cs: seq<Candidate>, spendable: int, starvation: int, maxSelected: int)
    requires Distinct(cs)
    ensures Distinct(Oldest(Leftovers(cs, spendable, starvation, maxSelected))) && Distinct(Affordable(cs, spendable))
  {
    AffordableDistinct(cs, spendable);
    WithoutDistinct(Affordable(cs, spendable), First(cs, spendable, starvation, maxSelected));
  }

  lemma FillFacts(fill: seq<Candidate>, rest: seq<Candidate>, remaining: int, slots: int)
    requires Fill(fill, rest, remaining, slots)
    ensures forall c :: c in fill ==> c in rest
    ensures Distinct(rest) ==> Distinct(fill)
    ensures fill == [] || Fits(fill, remaining, slots)
  {
    if fill != [] {
      var m: nat :| FirstBest(rest, remaining, slots, m) && fill == Subset(rest, m);
      ChosenDistinct(rest, Bits(m, |rest|));
      EmptyMask(rest);
    }
  }

  lemma TotalConcat(s: seq<Candidate>, t: seq<Candidate>)
    ensures Total(s + t) == Total(s) + Total(t)
  {
    SumConcat(s, t, GramOf());
  }

  /** Only affordable candidates, no payout twice, no more than allowed, no more GRAM than spendable. */
  lemma SelectionIsAffordable(cs: seq<Candidate>, spendable: int, starvation: int, maxSelected: int, selected: seq<Candidate>)
    requires Distinct(cs) && Selection(cs, spendable, starvation, maxSelected, selected)
    ensures Distinct(selected)
    ensures forall c :: c in selected ==> c in cs && CanPay(c, spendable)
    ensures selected != [] ==> |selected| <= maxSelected && Total(selected) <= spendable
  {
    var first := First(cs, spendable, starvation, maxSelected);
    var rest := Oldest(Leftovers(cs, spendable, starvation, maxSelected));
    var fill := selected[|first|..];
    assert selected == first + fill;
    FirstFacts(cs, spendable, starvation, maxSelected);
    RestMembers(cs, spendable, starvation, maxSelected);
    RestDistinct(cs, spendable, starvation, maxSelected);
    FillFacts(fill, rest, spendable - Total(first), maxSelected - |first|);
    TotalConcat(first, fill);
    JoinDistinct(Affordable(cs, spendable), first, fill);
  }

  lemma JoinDistinct(all: seq<Candidate>, s: seq<Candidate>, t: seq<Candidate>)
    requires Distinct(all) && Distinct(s) && Distinct(t)
    requires (forall c :: c in s ==> c in all) && (forall c :: c in t ==> c in all && c !in s)
    ensures Distinct(s + t)
  {
    forall i, j | 0 <= i < |s| && 0 <= j < |t| ensures s[i].payout != t[j].payout {
      assert s[i] in s && t[j] in t;
      var k :| 0 <= k < |all| && all[k] == s[i];
      var l :| 0 <= l < |all| && all[l] == t[j];
      assert k != l;
    }
  }

  lemma SortedHead(cs: seq<Candidate>)
    requires cs != []
    ensures OldestFirst(cs)[0] in cs && forall d :: d in cs ==> d.age <= OldestFirst(cs)[0].age
  {
    SortIsSort(cs, Youth());
    var sorted := OldestFirst(cs);
    assert sorted[0] in sorted;
    forall d | d in cs ensures d.age <= sorted[0].age {
      assert d in sorted;
      var i :| 0 <= i < |sorted| && sorted[i] == d;
    }
  }

  lemma FirstHead(cs: seq<Candidate>, spendable: int, starvation: int, maxSelected: int)
    requires maxSelected >= 1 && Starved(Affordable(cs, spendable), starvation) != []
    ensures First(cs, spendable, starvation, maxSelected) != []
    ensures First(cs, spendable, starvation, maxSelected)[0] == OldestFirst(Starved(Affordable(cs, spendable), starvation))[0]
  {
    var starved := Starved(Affordable(cs, spendable), starvation);
    SortedHead(starved);
    assert starved[0] in starved;
    FirstIsTaken(OldestFirst(starved), maxSelected, spendable);
  }

  /** The longest waiting starved payout that can be paid is never passed over. */
  lemma OldestStarvedIsTaken(cs: seq<Candidate>, spendable: int, starvation: int, maxSelected: int, selected: seq<Candidate>)
    requires Selection(cs, spendable, starvation, maxSelected, selected) && maxSelected >= 1
    requires Starved(Affordable(cs, spendable), starvation) != []
    ensures selected != [] && selected[0].age >= starvation
    ensures forall c :: c in cs && CanPay(c, spendable) && c.age >= starvation ==> c.age <= selected[0].age
  {
    FirstHead(cs, spendable, starvation, maxSelected);
    SortedHead(Starved(Affordable(cs, spendable), starvation));
    assert selected[0] == First(cs, spendable, starvation, maxSelected)[0];
    forall c | c in cs && CanPay(c, spendable) && c.age >= starvation ensures c.age <= selected[0].age {
      assert c in Starved(Affordable(cs, spendable), starvation);
    }
  }

  lemma {:induction false} FirstIsTaken(cs: seq<Candidate>, maxSelected: int, spendable: int)
    requires cs != [] && cs[0].gram <= spendable && maxSelected >= 1
    ensures TakeInTurn(cs, maxSelected, spendable) != [] && TakeInTurn(cs, maxSelected, spendable)[0] == cs[0]
  {
    if |cs| > 1 {
      FirstIsTaken(cs[..|cs| - 1], maxSelected, spendable);
    } else {
      assert TakeInTurn(cs[..0], maxSelected, spendable) == [];
    }
  }

  lemma {:induction false} PositiveTotal(cs: seq<Candidate>)
    requires AllPositive(cs)
    ensures Total(cs) >= 0 && (cs != [] ==> Total(cs) > 0)
  {
    if cs != [] {
      PositiveTotal(cs[..|cs| - 1]);
      assert cs == cs[..|cs| - 1] + [cs[|cs| - 1]];
    }
  }

  lemma FillIsBest(fill: seq<Candidate>, rest: seq<Candidate>, remaining: int, slots: int, pick: seq<bool>)
    requires Fill(fill, rest, remaining, slots) && AllPositive(rest) && |pick| == |rest|
    ensures Fits(Chosen(rest, pick), remaining, slots) ==> Total(Chosen(rest, pick)) <= Total(fill)
  {
    if slots > 0 && rest != [] && remaining > 0 {
      var m: nat :| FirstBest(rest, remaining, slots, m) && fill == Subset(rest, m);
      MaskOfBits(pick);
      assert Subset(rest, MaskOf(pick)) == Chosen(rest, pick);
    } else {
      ChosenDistinct(rest, pick);
      PositiveTotal(Chosen(rest, pick));
    }
  }

  lemma FillWins(first: seq<Candidate>, rest: seq<Candidate>, spendable: int, maxSelected: int, selected: seq<Candidate>, pick: seq<bool>)
    requires first <= selected && AllPositive(rest) && |pick| == |rest|
    requires Fill(selected[|first|..], rest, spendable - Total(first), maxSelected - |first|)
    ensures Fits(Chosen(rest, pick), spendable - Total(first), maxSelected - |first|) ==>
              Total(first) + Total(Chosen(rest, pick)) <= Total(selected)
  {
    var fill := selected[|first|..];
    assert selected == first + fill;
    TotalConcat(first, fill);
    FillIsBest(fill, rest, spendable - Total(first), maxSelected - |first|, pick);
  }

  /** No choice among the oldest leftovers that fits the GRAM and slots left over uses more GRAM than the one made. */
  lemma SelectionIsOptimal(cs: seq<Candidate>, spendable: int, starvation: int, maxSelected: int, selected: seq<Candidate>,
                           pick: seq<bool>)
    requires Selection(cs, spendable, starvation, maxSelected, selected)
    requires |pick| == |Oldest(Leftovers(cs, spendable, starvation, maxSelected))|
    ensures var first := First(cs, spendable, starvation, maxSelected);
            var other := Chosen(Oldest(Leftovers(cs, spendable, starvation, maxSelected)), pick);
            Fits(other, spendable - Total(first), maxSelected - |first|) ==>
              Total(first) + Total(other) <= Total(selected)
  {
    RestIsPositive(cs, spendable, starvation, maxSelected);
    FillWins(First(cs, spendable, starvation, maxSelected), Oldest(Leftovers(cs, spendable, starvation, maxSelected)),
             spendable, maxSelected, selected, pick);
  }

  /** The search is over the oldest leftovers: whatever is left out of it is no older than anything in it. */
  lemma SearchTakesOldest(cs: seq<Candidate>, spendable: int, starvation: int, maxSelected: int, c: Candidate, d: Candidate)
    requires c in Affordable(cs, spendable) && c !in First(cs, spendable, starvation, maxSelected)
    requires c !in Oldest(Leftovers(cs, spendable, starvation, maxSelected))
    requires d in Oldest(Leftovers(cs, spendable, starvation, maxSelected))
    ensures |Oldest(Leftovers(cs, spendable, starvation, maxSelected))| == SEARCH_WIDTH && d.age >= c.age
  {
    var left := Leftovers(cs, spendable, starvation, maxSelected);
    SortIsSort(Without(Affordable(cs, spendable), First(cs, spendable, starvation, maxSelected)), Youth());
    assert c in left;
    var i :| 0 <= i < |left| && left[i] == c;
    var j :| 0 <= j < |Oldest(left)| && Oldest(left)[j] == d;
    forall k | 0 <= k < |Oldest(left)| ensures left[k] != c {
      assert Oldest(left)[k] in Oldest(left);
    }
  }
}
