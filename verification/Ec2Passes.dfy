/** The two greedy passes over shared EC2 entries, in the order of their indexes. */
module Ec2Passes {
  import opened IntMath
  import opened Ec2Entries
  import opened Ec2Budget

  // ---- Units left -------------------------------------------------------------------------

  /** Units left in each entry of a list. */
  ghost function Measures(s: seq<Entry>): (r: seq<int>)
    reads s
    ensures |r| == |s| && forall i :: 0 <= i < |s| ==> r[i] == s[i].Measure()
  {
    seq(|s|, i requires 0 <= i < |s| reads s => s[i].Measure())
  }

  function CoverFlags(s: seq<Entry>, d: Demand): (r: seq<bool>)
    ensures |r| == |s| && forall i :: 0 <= i < |s| ==> r[i] == s[i].Covers(d)
  {
    seq(|s|, i requires 0 <= i < |s| => s[i].Covers(d))
  }

  // ---- Ordering by wildcards --------------------------------------------------------------

  function InsertByWildcards(e: Entry, s: seq<Entry>): seq<Entry> {
    if s == [] || s[|s| - 1].wildcards <= e.wildcards then s + [e]
    else InsertByWildcards(e, s[..|s| - 1]) + [s[|s| - 1]]
  }

  /** Stable order, fewest wildcards first. */
  function ByWildcards(s: seq<Entry>): seq<Entry> {
    if s == [] then [] else InsertByWildcards(s[|s| - 1], ByWildcards(s[..|s| - 1]))
  }

  predicate WildcardsAscending(s: seq<Entry>) {
    forall i, j :: 0 <= i < j < |s| ==> s[i].wildcards <= s[j].wildcards
  }

  /** The entries with a given number of wildcards, in list order. */
  function WithWildcards(s: seq<Entry>, w: nat): seq<Entry> {
    if s == [] then []
    else WithWildcards(s[..|s| - 1], w) + (if s[|s| - 1].wildcards == w then [s[|s| - 1]] else [])
  }

  lemma LastApart(s: seq<Entry>)
    ensures s != [] ==>
      && (forall x :: x in s <==> x in s[..|s| - 1] || x == s[|s| - 1])
      && (NoRepeats(s) <==> NoRepeats(s[..|s| - 1]) && s[|s| - 1] !in s[..|s| - 1])
  {
    if s != [] {
      var rest, last := s[..|s| - 1], s[|s| - 1];
      assert s == rest + [last];
      if NoRepeats(rest) && last !in rest {
        forall i, j | 0 <= i < j < |s| ensures s[i] != s[j] {
          assert s[i] == rest[i];
        }
      }
    }
  }

  lemma {:induction false} InsertKeepsEntries(e: Entry, s: seq<Entry>)
    ensures forall x :: x in InsertByWildcards(e, s) <==> x == e || x in s
    ensures NoRepeats(s) && e !in s ==> NoRepeats(InsertByWildcards(e, s))
  {
    var r := InsertByWildcards(e, s);
    LastApart(s);
    LastApart(r);
    if s == [] || s[|s| - 1].wildcards <= e.wildcards {
      assert r[..|r| - 1] == s;
    } else {
      InsertKeepsEntries(e, s[..|s| - 1]);
      assert r[..|r| - 1] == InsertByWildcards(e, s[..|s| - 1]);
    }
  }

  lemma {:induction false} InsertBounded(e: Entry, s: seq<Entry>, w: nat)
    requires e.wildcards <= w && forall i :: 0 <= i < |s| ==> s[i].wildcards <= w
    ensures forall i :: 0 <= i < |InsertByWildcards(e, s)| ==> InsertByWildcards(e, s)[i].wildcards <= w
  {
    if s != [] && !(s[|s| - 1].wildcards <= e.wildcards) {
      InsertBounded(e, s[..|s| - 1], w);
    }
  }

  lemma {:induction false} InsertAscends(e: Entry, s: seq<Entry>)
    requires WildcardsAscending(s)
    ensures WildcardsAscending(InsertByWildcards(e, s))
  {
    if s != [] && !(s[|s| - 1].wildcards <= e.wildcards) {
      InsertAscends(e, s[..|s| - 1]);
      InsertBounded(e, s[..|s| - 1], s[|s| - 1].wildcards);
    }
  }

  lemma {:induction false} InsertIsStable(e: Entry, s: seq<Entry>, w: nat)
    requires WildcardsAscending(s)
    ensures WithWildcards(InsertByWildcards(e, s), w) == WithWildcards(s + [e], w)
  {
    assert (s + [e])[..|s|] == s;
    if s != [] && !(s[|s| - 1].wildcards <= e.wildcards) {
      var rest, last := s[..|s| - 1], s[|s| - 1];
      InsertIsStable(e, rest, w);
      assert (rest + [e])[..|rest|] == rest;
      var moved := InsertByWildcards(e, rest) + [last];
      assert moved[..|moved| - 1] == InsertByWildcards(e, rest);
    }
  }

  lemma {:induction false} SortKeepsEntries(s: seq<Entry>)
    ensures forall x :: x in ByWildcards(s) <==> x in s
    ensures NoRepeats(s) ==> NoRepeats(ByWildcards(s))
    ensures WildcardsAscending(ByWildcards(s))
  {
    if s != [] {
      var rest, last := s[..|s| - 1], s[|s| - 1];
      SortKeepsEntries(rest);
      InsertKeepsEntries(last, ByWildcards(rest));
      InsertAscends(last, ByWildcards(rest));
      LastApart(s);
    }
  }

  lemma {:induction false} SortIsStable(s: seq<Entry>, w: nat)
    ensures WithWildcards(ByWildcards(s), w) == WithWildcards(s, w)
  {
    if s != [] {
      var rest, last := s[..|s| - 1], s[|s| - 1];
      SortIsStable(rest, w);
      SortKeepsEntries(rest);
      var sorted := ByWildcards(rest);
      InsertIsStable(last, sorted, w);
      assert (sorted + [last])[..|sorted|] == sorted;
    }
  }

  /** The order is a permutation, ascending in wildcards, and keeps input order among equals. */
  lemma ByWildcardsIsStableSort(s: seq<Entry>, w: nat)
    requires NoRepeats(s)
    ensures forall x :: x in ByWildcards(s) <==> x in s
    ensures NoRepeats(ByWildcards(s)) && WildcardsAscending(ByWildcards(s))
    ensures WithWildcards(ByWildcards(s), w) == WithWildcards(s, w)
  {
    SortKeepsEntries(s);
    SortIsStable(s, w);
  }

  // ---- The two passes over shared entries -------------------------------------------------

  /** The nodes one entry of the wanted type gives. */
  method TakeFrom(e: Entry, d: Demand, wanted: int) returns (remaining: int)
    requires e.Valid() && e.pool == d.pool && 0 < wanted
    modifies e
    ensures e.Valid()
    ensures remaining == wanted - NodesTaken(old(e.Measure()), e.Covers(d), Weight(d.pool), wanted)
    ensures e.Measure() == old(e.Measure()) - Mul(wanted - remaining, Weight(d.pool))
    ensures if e.flex.Some? then e.count == old(e.count) else e.flexLeft == old(e.flexLeft)
  {
    NodesOfMeasure(e);
    MulUnit(Weight(d.pool));
    if e.NodesLeft() <= 0 || !e.Covers(d) {
      return wanted;
    }
    var spent := e.Spend(Min(e.NodesLeft(), wanted));
    return wanted - spent;
  }

  /** A list whose first entries were processed and whose others were not. */
  lemma PartlyDone(list: seq<Entry>, out: seq<int>, before: seq<int>, i: nat)
    requires i == |out| <= |list| == |before|
    requires forall k :: 0 <= k < |list| ==> list[k].Measure() == if k < i then out[k] else before[k]
    ensures Measures(list) == out + before[i..]
  {
  }

  /** The first i entries of the list were handled, with out left of them; the others were not. */
  ghost predicate HandledTo(list: seq<Entry>, d: Demand, before: seq<int>, wanted: int, i: int, out: seq<int>,
                            remaining: int)
    reads list
  {
    && NoRepeats(list) && |before| == |list|
    && TakenTo(before, CoverFlags(list, d), Weight(d.pool), wanted, i, out, remaining)
    && |out| == i
    && (forall k :: 0 <= k < |list| ==> list[k].Valid() && list[k].pool == d.pool)
    && (forall k :: 0 <= k < |list| ==> list[k].Measure() == if k < i then out[k] else before[k])
  }

  /** Of each entry only the field that holds its budget may change. */
  twostate predicate OnlyBudgets(list: seq<Entry>)
    reads list
  {
    forall k :: 0 <= k < |list| ==>
      if list[k].flex.Some? then list[k].count == old(list[k].count) else list[k].flexLeft == old(list[k].flexLeft)
  }

  /** Handles the next entry of an exact pass. */
  method TakeNext(list: seq<Entry>, d: Demand, i: nat, left: int, ghost before: seq<int>, ghost wanted: int,
                  ghost out: seq<int>)
    returns (remaining: int, ghost next: seq<int>)
    requires i < |list| && 0 < left && HandledTo(list, d, before, wanted, i, out, left)
    modifies list[i]
    ensures HandledTo(list, d, before, wanted, i + 1, next, remaining)
    ensures OnlyBudgets(list)
  {
    assert forall k :: 0 <= k < |list| && k != i ==> list[k] != list[i];
    ghost var flags, w := CoverFlags(list, d), Weight(d.pool);
    ghost var n := NodesTaken(before[i], flags[i], w, left);
    OneMoreTaken(before, flags, w, wanted, i, out, left);
    next := out + [before[i] - Mul(n, w)];
    remaining := TakeFrom(list[i], d, left);
    assert forall k :: 0 <= k < |list| && k != i ==> list[k].Measure() == old(list[k].Measure());
  }

  /** Spends the covering entries of one exact type in list order, in whole nodes. */
  method ExactPass(list: seq<Entry>, d: Demand, wanted: int) returns (remaining: int)
    requires NoRepeats(list)
    requires forall e :: e in list ==> e.Valid() && e.pool == d.pool
    modifies list
    ensures forall e :: e in list ==> e.Valid()
    ensures (Measures(list), remaining) == TakeAll(old(Measures(list)), CoverFlags(list, d), Weight(d.pool), wanted)
    ensures OnlyBudgets(list)
  {
    ghost var before, out := Measures(list), [];
    remaining := wanted;
    var i := 0;
    while i < |list|
      invariant 0 <= i <= |list|
      invariant HandledTo(list, d, before, wanted, i, out, remaining)
      invariant OnlyBudgets(list)
    {
      if remaining <= 0 {
        break;
      }
      remaining, out := TakeNext(list, d, i, remaining, before, wanted, out);
      i := i + 1;
    }
    TakenSoFar(before, CoverFlags(list, d), Weight(d.pool), wanted, i, out, remaining);
    PartlyDone(list, out, before, i);
  }

  /** A pass that stopped, at the end or for want of nothing, did what the whole pass does. */
  lemma TakenSoFar(before: seq<int>, flags: seq<bool>, w: nat, wanted: int, i: nat, out: seq<int>, remaining: int)
    requires 0 < w && |before| == |flags|
    requires TakenTo(before, flags, w, wanted, i, out, remaining) && (i == |before| || remaining <= 0)
    ensures (out + before[i..], remaining) == TakeAll(before, flags, w, wanted)
  {
    if i < |before| {
      NothingWanted(before, flags, w, wanted, i);
    } else {
      assert before[..i] == before && flags[..i] == flags;
      assert before[i..] == [] && out + [] == out;
    }
  }

  /** The first i budgets of a pass: what is left of them and the nodes still wanted. */
  ghost predicate TakenTo(lefts: seq<int>, covers: seq<bool>, w: nat, wanted: int, i: int, out: seq<int>,
                          remaining: int)
    requires 0 < w && |covers| == |lefts|
  {
    0 <= i <= |lefts| && (out, remaining) == TakeAll(lefts[..i], covers[..i], w, wanted)
  }

  lemma OneMoreTaken(lefts: seq<int>, covers: seq<bool>, w: nat, wanted: int, i: nat, out: seq<int>, remaining: int)
    requires 0 < w && |covers| == |lefts| && i < |lefts|
    requires TakenTo(lefts, covers, w, wanted, i, out, remaining)
    ensures var n := NodesTaken(lefts[i], covers[i], w, remaining);
      TakenTo(lefts, covers, w, wanted, i + 1, out + [lefts[i] - Mul(n, w)], remaining - n)
  {
    assert lefts[..i + 1][..i] == lefts[..i] && covers[..i + 1][..i] == covers[..i];
  }

  /** What a family pass does to the units left, from lefts to out, when it leaves some of r nodes:
      it covers what whole nodes the family holds and drains that much, in order. */
  ghost predicate FamilyStep(lefts: seq<int>, out: seq<int>, units: nat, r: int, left: int) {
    && 0 < units
    && (forall i :: 0 <= i < |lefts| ==> 0 <= lefts[i])
    && 0 <= Sum(lefts)
    && (r <= 0 ==> left == r && out == lefts)
    && (0 < r ==> left == r - FamilyCovered(Sum(lefts), units, r) && out == Drain(lefts, Mul(r - left, units)).0)
  }

  /** Spends a family's size-flexible budget, in input order, on whole nodes of the wanted size. */
  method FamilyPass(list: seq<Entry>, units: nat, wanted: int) returns (remaining: int)
    requires NoRepeats(list) && 0 < units
    requires forall e :: e in list ==> e.Valid() && e.flex.Some?
    modifies list
    ensures forall e :: e in list ==> e.Valid() && e.count == old(e.count)
    ensures FamilyStep(old(Measures(list)), Measures(list), units, wanted, remaining)
  {
    ghost var before := Measures(list);
    SumNonNegative(before);
    remaining := wanted;
    if 0 < wanted {
      var budget := FamilyBudget(list);
      var covered := FamilyCovered(budget, units, wanted);
      FamilyCoverage(budget, units, wanted);
      DrainFamily(list, Mul(covered, units));
      remaining := wanted - covered;
    }
  }

  method FamilyBudget(list: seq<Entry>) returns (budget: int)
    requires forall e :: e in list ==> e.Valid() && e.flex.Some?
    ensures budget == Sum(Measures(list))
  {
    ghost var lefts := Measures(list);
    budget := 0;
    for i := 0 to |list|
      invariant budget == Sum(lefts[..i])
    {
      budget := budget + list[i].flexLeft;
      assert lefts[..i + 1][..i] == lefts[..i];
    }
    assert lefts[..|list|] == lefts;
  }

  /** Takes what one flexible entry has left, up to the need. */
  method TakeUnits(e: Entry, need: nat) returns (open: int)
    requires e.Valid() && e.flex.Some?
    modifies e`flexLeft
    ensures e.Valid() && open == need - Min(old(e.Measure()), need)
    ensures e.Measure() == old(e.Measure()) - Min(old(e.Measure()), need)
  {
    var take := Min(e.flexLeft, need);
    e.flexLeft := e.flexLeft - take;
    return need - take;
  }

  /** The first i flexible entries were drained, with out left of them; the others were not. */
  ghost predicate FamilyTo(list: seq<Entry>, before: seq<int>, total: int, i: int, out: seq<int>, need: int)
    reads list
  {
    && NoRepeats(list) && |before| == |list| && |out| == i
    && DrainedTo(before, total, i, out, need)
    && (forall k :: 0 <= k < |list| ==> list[k].Valid() && list[k].flex.Some?)
    && (forall k :: 0 <= k < |list| ==> list[k].Measure() == if k < i then out[k] else before[k])
  }

  /** The counts stay as they are. */
  twostate predicate OnlyFlexLeft(list: seq<Entry>)
    reads list
  {
    forall k :: 0 <= k < |list| ==> list[k].count == old(list[k].count)
  }

  /** Drains the next entry of a family. */
  method DrainNext(list: seq<Entry>, i: nat, need: nat, ghost before: seq<int>, ghost total: int, ghost out: seq<int>)
    returns (open: int, ghost next: seq<int>)
    requires i < |list| && 0 < need && FamilyTo(list, before, total, i, out, need)
    modifies list[i]
    ensures FamilyTo(list, before, total, i + 1, next, open)
    ensures OnlyFlexLeft(list)
  {
    assert forall k :: 0 <= k < |list| && k != i ==> list[k] != list[i];
    OneMoreDrained(before, total, i, out, need);
    next := out + [before[i] - Min(before[i], need)];
    open := TakeUnits(list[i], need);
    assert forall k :: 0 <= k < |list| && k != i ==> list[k].Measure() == old(list[k].Measure());
  }

  method DrainFamily(list: seq<Entry>, total: nat)
    requires NoRepeats(list)
    requires forall e :: e in list ==> e.Valid() && e.flex.Some?
    modifies list
    ensures forall e :: e in list ==> e.Valid() && e.count == old(e.count)
    ensures Measures(list) == Drain(old(Measures(list)), total).0
  {
    ghost var before, out := Measures(list), [];
    var need: int := total;
    var i := 0;
    while i < |list|
      invariant 0 <= i <= |list| && FamilyTo(list, before, total, i, out, need)
      invariant OnlyFlexLeft(list)
    {
      if need <= 0 {
        break;
      }
      need, out := DrainNext(list, i, need, before, total, out);
      i := i + 1;
    }
    DrainedSoFar(before, total, i, out, need);
    PartlyDone(list, out, before, i);
  }

  /** The first i budgets of a drain: what is left of them and of the need. */
  ghost predicate DrainedTo(lefts: seq<int>, total: int, i: int, out: seq<int>, need: int) {
    0 <= i <= |lefts| && (out, need) == Drain(lefts[..i], total)
  }

  lemma OneMoreDrained(lefts: seq<int>, total: int, i: nat, out: seq<int>, need: int)
    requires i < |lefts| && 0 < need && DrainedTo(lefts, total, i, out, need)
    ensures var take := Min(lefts[i], need);
      DrainedTo(lefts, total, i + 1, out + [lefts[i] - take], need - take)
  {
    assert lefts[..i + 1][..i] == lefts[..i];
  }

  lemma DrainedSoFar(before: seq<int>, total: nat, i: nat, out: seq<int>, need: int)
    requires DrainedTo(before, total, i, out, need) && (i == |before| || need <= 0)
    ensures out + before[i..] == Drain(before, total).0
  {
    if i < |before| {
      NothingOpen(before, total, i);
    } else {
      assert before[..i] == before && before[i..] == [] && out + [] == out;
    }
  }
}
