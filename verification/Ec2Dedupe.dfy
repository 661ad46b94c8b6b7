/** The EC2 duplicate guard: commitments shared by an exact-type index and a family index. */
module Ec2Dedupe {
  import opened Wrappers
  import opened IntMath
  import opened Recommendations
  import opened Ec2Entries
  import opened Ec2Budget
  import opened Ec2Passes

  predicate IsEc2(provider: Provider, service: Service) {
    provider.AWS? && (service.EC2? || service.Compute?)
  }

  /** The commitments the guard looks at, in input order. */
  function Ec2Of(cs: seq<Commitment>): seq<Commitment> {
    if cs == [] then []
    else
      var c := cs[|cs| - 1];
      Ec2Of(cs[..|cs| - 1]) + (if IsEc2(c.provider, c.service) then [c] else [])
  }

  lemma OneMoreCommitment(cs: seq<Commitment>, i: nat)
    requires i < |cs|
    ensures Ec2Of(cs[..i + 1])
         == if IsEc2(cs[i].provider, cs[i].service) then Ec2Of(cs[..i]) + [cs[i]] else Ec2Of(cs[..i])
  {
    assert cs[..i + 1][..i] == cs[..i];
    assert Ec2Of(cs[..i]) + [] == Ec2Of(cs[..i]);
  }

  ghost predicate Represents(e: Entry, c: Commitment)
    reads e
  {
    && e.pool == Pool(c.resourceType, c.region)
    && e.platform == c.platform && e.tenancy == c.tenancy && e.scope == NewScope(c.scope, c.zone)
    && e.wildcards == Wildcards(e.platform, e.tenancy, e.scope)
    && e.flex == EntryFlex(c)
    && e.count == c.count
    && e.flexLeft == (if e.flex.Some? then Mul(Max(c.count, 0), e.flex.value.units) else 0)
  }

  /** An entry starts with the units of what was bought; a flexible one never starts below zero. */
  lemma StartsWithBoughtUnits(e: Entry, c: Commitment)
    requires Represents(e, c) && e.Valid()
    ensures e.Measure() == Mul(if e.flex.Some? then Max(c.count, 0) else c.count, Weight(e.pool))
    ensures 0 <= c.count ==> 0 <= e.Measure()
  {
    if 0 <= c.count {
      MulNonNegative(c.count, Weight(e.pool));
    }
  }

  /** The entries of one exact type, in input order. */
  function OfPool(s: seq<Entry>, p: Pool): seq<Entry> {
    if s == [] then [] else OfPool(s[..|s| - 1], p) + (if s[|s| - 1].pool == p then [s[|s| - 1]] else [])
  }

  predicate InFamily(e: Entry, f: Family) {
    e.flex.Some? && e.flex.value.family == f
  }

  /** The size-flexible entries of one family, in input order. */
  function OfFamily(s: seq<Entry>, f: Family): seq<Entry> {
    if s == [] then [] else OfFamily(s[..|s| - 1], f) + (if InFamily(s[|s| - 1], f) then [s[|s| - 1]] else [])
  }

  lemma {:induction false} OfPoolFacts(s: seq<Entry>, p: Pool)
    ensures forall e :: e in OfPool(s, p) <==> e in s && e.pool == p
    ensures NoRepeats(s) ==> NoRepeats(OfPool(s, p))
  {
    LastApart(s);
    if s != [] {
      OfPoolFacts(s[..|s| - 1], p);
    }
  }

  lemma {:induction false} OfFamilyFacts(s: seq<Entry>, f: Family)
    ensures forall e :: e in OfFamily(s, f) <==> e in s && InFamily(e, f)
    ensures NoRepeats(s) ==> NoRepeats(OfFamily(s, f))
  {
    LastApart(s);
    if s != [] {
      OfFamilyFacts(s[..|s| - 1], f);
    }
  }

  lemma OneMoreEntry(s: seq<Entry>, e: Entry, p: Pool, f: Family)
    ensures OfPool(s + [e], p) == OfPool(s, p) + (if e.pool == p then [e] else [])
    ensures OfFamily(s + [e], f) == OfFamily(s, f) + (if InFamily(e, f) then [e] else [])
  {
    assert (s + [e])[..|s|] == s;
  }

  ghost predicate Indexes(byPool: map<Pool, seq<Entry>>, byFamily: map<Family, seq<Entry>>, made: seq<Entry>) {
    && (forall p :: (if p in byPool then byPool[p] else []) == OfPool(made, p))
    && (forall f :: (if f in byFamily then byFamily[f] else []) == OfFamily(made, f))
  }

  /** Lists an entry under its exact type, and under its family too when it is size-flexible. */
  method AddEntry(byPool: map<Pool, seq<Entry>>, byFamily: map<Family, seq<Entry>>, e: Entry, ghost made: seq<Entry>)
    returns (pools: map<Pool, seq<Entry>>, flexible: map<Family, seq<Entry>>)
    requires Indexes(byPool, byFamily, made)
    ensures Indexes(pools, flexible, made + [e])
  {
    pools := byPool[e.pool := (if e.pool in byPool then byPool[e.pool] else []) + [e]];
    flexible := byFamily;
    if e.flex.Some? {
      var f := e.flex.value.family;
      flexible := byFamily[f := (if f in byFamily then byFamily[f] else []) + [e]];
    }
    forall p ensures (if p in pools then pools[p] else []) == OfPool(made + [e], p) {
      OneMoreEntry(made, e, p, Family("", ""));
    }
    forall f ensures (if f in flexible then flexible[f] else []) == OfFamily(made + [e], f) {
      OneMoreEntry(made, e, e.pool, f);
    }
  }

  /** Valid distinct entries, one per commitment. */
  ghost predicate MadeFor(made: seq<Entry>, kept: seq<Commitment>)
    reads made
  {
    && |made| == |kept| && NoRepeats(made)
    && forall k :: 0 <= k < |made| ==> made[k].Valid() && Represents(made[k], kept[k])
  }

  lemma OneMoreMade(made: seq<Entry>, kept: seq<Commitment>, e: Entry, c: Commitment)
    requires MadeFor(made, kept) && e !in made && e.Valid() && Represents(e, c)
    ensures MadeFor(made + [e], kept + [c])
  {
  }

  /** One entry per EC2 commitment, listed under its type and, when size-flexible, its family. */
  method CollectEntries(commitments: seq<Commitment>)
    returns (byPool: map<Pool, seq<Entry>>, byFamily: map<Family, seq<Entry>>, ghost made: seq<Entry>)
    ensures forall k :: 0 <= k < |made| ==> fresh(made[k])
    ensures MadeFor(made, Ec2Of(commitments))
    ensures Indexes(byPool, byFamily, made)
  {
    byPool, byFamily, made := map[], map[], [];
    ghost var kept: seq<Commitment> := [];
    for i := 0 to |commitments|
      invariant kept == Ec2Of(commitments[..i])
      invariant forall k :: 0 <= k < |made| ==> fresh(made[k])
      invariant MadeFor(made, kept)
      invariant Indexes(byPool, byFamily, made)
    {
      var c := commitments[i];
      OneMoreCommitment(commitments, i);
      if !IsEc2(c.provider, c.service) {
        continue;
      }
      var e := new Entry(c);
      OneMoreMade(made, kept, e, c);
      byPool, byFamily := AddEntry(byPool, byFamily, e, made);
      made, kept := made + [e], kept + [c];
    }
    assert commitments[..|commitments|] == commitments;
  }

  // ---- What one pass did, by the units left before and after ---------------------------------

  /** The first n entries that cover the demand have less than one node left. */
  ghost predicate SameTypeSpent(list: seq<Entry>, n: nat, m: map<Entry, int>, d: Demand)
    requires n <= |list| && forall e :: e in list ==> e in m
  {
    forall i :: 0 <= i < n && list[i].Covers(d) ==> m[list[i]] < Weight(d.pool)
  }

  ghost predicate Outcomes(all: seq<Entry>, list: seq<Entry>, m: map<Entry, int>, m': map<Entry, int>) {
    && NoRepeats(all) && NoRepeats(list)
    && m.Keys == m'.Keys
    && (forall e :: e in all ==> e in m)
    && (forall e :: e in list ==> e in all)
    && (forall e :: e in all && e !in list ==> m'[e] == m[e])
  }

  ghost predicate ExactOutcome(all: seq<Entry>, list: seq<Entry>, m: map<Entry, int>, m1: map<Entry, int>,
                               d: Demand, wanted: int, r: int)
    requires Outcomes(all, list, m, m1)
  {
    && Min(wanted, 0) <= r <= wanted
    && SumOver(all, m1) == SumOver(all, m) - Mul(wanted - r, Weight(d.pool))
    && (forall e :: e in all && m1[e] != m[e] ==> e in list && e.Covers(d) && 0 <= m1[e] < m[e])
    && (0 < r ==> SameTypeSpent(list, |list|, m1, d))
    && (forall j :: 0 <= j < |list| && m1[list[j]] != m[list[j]] ==> SameTypeSpent(list, j, m1, d))
  }

  lemma ExactPassOutcome(all: seq<Entry>, list: seq<Entry>, m: map<Entry, int>, m1: map<Entry, int>,
                         d: Demand, wanted: int, r: int)
    requires Outcomes(all, list, m, m1)
    requires (Values(list, m1), r) == TakeAll(Values(list, m), CoverFlags(list, d), Weight(d.pool), wanted)
    ensures ExactOutcome(all, list, m, m1, d, wanted, r)
  {
    var lefts, flags, w := Values(list, m), CoverFlags(list, d), Weight(d.pool);
    TakeAllConserves(lefts, flags, w, wanted);
    TakeAllIsGreedy(lefts, flags, w, wanted);
    PartMovesWhole(list, all, m, m1);
    SumOfValues(list, m);
    SumOfValues(list, m1);
    forall j | 0 <= j <= |list| && Exhausted(Values(list, m1), flags, w, j) ensures SameTypeSpent(list, j, m1, d) {
      ExhaustedEntries(list, j, m1, d);
    }
    forall e | e in all && m1[e] != m[e] ensures e in list && e.Covers(d) && 0 <= m1[e] < m[e] {
      var i :| 0 <= i < |list| && list[i] == e;
      assert Values(list, m1)[i] != lefts[i];
    }
    forall j | 0 <= j < |list| && m1[list[j]] != m[list[j]] ensures SameTypeSpent(list, j, m1, d) {
      assert Values(list, m1)[j] != lefts[j];
    }
  }

  lemma ExhaustedEntries(list: seq<Entry>, n: nat, m: map<Entry, int>, d: Demand)
    requires n <= |list| && forall e :: e in list ==> e in m
    requires Exhausted(Values(list, m), CoverFlags(list, d), Weight(d.pool), n)
    ensures SameTypeSpent(list, n, m, d)
  {
    forall i | 0 <= i < n && list[i].Covers(d) ensures m[list[i]] < Weight(d.pool) {
      assert CoverFlags(list, d)[i];
      assert Values(list, m)[i] < Weight(d.pool);
    }
  }

  ghost predicate FamilyOutcome(all: seq<Entry>, fam: seq<Entry>, m1: map<Entry, int>, m2: map<Entry, int>,
                                units: nat, r: int, left: int)
    requires Outcomes(all, fam, m1, m2)
  {
    && (if 0 < r then 0 <= left <= r else left == r)
    && SumOver(all, m2) == SumOver(all, m1) - Mul(r - left, units)
    && (forall e :: e in all && m2[e] != m1[e] ==> 0 < r && e in fam && 0 <= m2[e] < m1[e])
    && (0 < left ==> SumOver(fam, m2) < units)
    && (forall i, j :: 0 <= i < j < |fam| && m2[fam[j]] != m1[fam[j]] ==> m2[fam[i]] == 0)
  }

  lemma FamilyDrained(fam: seq<Entry>, m1: map<Entry, int>, m2: map<Entry, int>, units: nat, r: int, left: int)
    requires forall e :: e in fam ==> e in m1 && e in m2
    requires FamilyStep(Values(fam, m1), Values(fam, m2), units, r, left) && 0 < r
    ensures 0 <= left <= r
    ensures SumOver(fam, m2) == SumOver(fam, m1) - Mul(r - left, units)
    ensures 0 < left ==> SumOver(fam, m2) < units
    ensures Drained(Values(fam, m1), Values(fam, m2), 0)
  {
    var lefts := Values(fam, m1);
    SumOfValues(fam, m1);
    SumOfValues(fam, m2);
    FamilyCoverage(Sum(lefts), units, r);
    DrainMeetsNeed(lefts, Mul(r - left, units));
  }

  lemma FamilyNeeded(fam: seq<Entry>, m1: map<Entry, int>, m2: map<Entry, int>, units: nat, r: int, left: int, k: nat)
    requires forall e :: e in fam ==> e in m1 && e in m2
    requires FamilyStep(Values(fam, m1), Values(fam, m2), units, r, left)
    requires k < |fam| && m2[fam[k]] != m1[fam[k]]
    ensures 0 < r
  {
    assert Values(fam, m2)[k] != Values(fam, m1)[k];
  }

  /** A changed entry is in the family and not overdrawn. */
  lemma FamilyChange(all: seq<Entry>, fam: seq<Entry>, m1: map<Entry, int>, m2: map<Entry, int>,
                     units: nat, r: int, left: int, e: Entry)
    requires Outcomes(all, fam, m1, m2) && FamilyStep(Values(fam, m1), Values(fam, m2), units, r, left)
    requires e in all && m2[e] != m1[e]
    ensures 0 < r && e in fam && 0 <= m2[e] < m1[e]
  {
    var i :| 0 <= i < |fam| && fam[i] == e;
    FamilyNeeded(fam, m1, m2, units, r, left, i);
    FamilyDrained(fam, m1, m2, units, r, left);
    assert Values(fam, m2)[i] == m2[e] && Values(fam, m1)[i] == m1[e];
  }

  /** A later change means the earlier entry is empty. */
  lemma FamilyOrder(fam: seq<Entry>, m1: map<Entry, int>, m2: map<Entry, int>,
                    units: nat, r: int, left: int, i: nat, j: nat)
    requires forall e :: e in fam ==> e in m1 && e in m2
    requires FamilyStep(Values(fam, m1), Values(fam, m2), units, r, left)
    requires i < j < |fam| && m2[fam[j]] != m1[fam[j]]
    ensures m2[fam[i]] == 0
  {
    FamilyNeeded(fam, m1, m2, units, r, left, j);
    FamilyDrained(fam, m1, m2, units, r, left);
    assert Values(fam, m2)[j] == m2[fam[j]] && Values(fam, m1)[j] == m1[fam[j]];
    assert Values(fam, m2)[i] == m2[fam[i]];
  }

  /** The family loses what the nodes suppressed weigh, and has no whole node left when some remain. */
  lemma FamilyBalance(fam: seq<Entry>, m1: map<Entry, int>, m2: map<Entry, int>, units: nat, r: int, left: int)
    requires forall e :: e in fam ==> e in m1 && e in m2
    requires FamilyStep(Values(fam, m1), Values(fam, m2), units, r, left)
    ensures if 0 < r then 0 <= left <= r else left == r
    ensures SumOver(fam, m2) == SumOver(fam, m1) - Mul(r - left, units)
    ensures 0 < left ==> SumOver(fam, m2) < units
  {
    if 0 < r {
      FamilyDrained(fam, m1, m2, units, r, left);
    } else {
      SumOfValues(fam, m1);
      SumOfValues(fam, m2);
      MulUnit(units);
    }
  }

  lemma FamilyPassOutcome(all: seq<Entry>, fam: seq<Entry>, m1: map<Entry, int>, m2: map<Entry, int>,
                          units: nat, r: int, left: int)
    requires Outcomes(all, fam, m1, m2) && FamilyStep(Values(fam, m1), Values(fam, m2), units, r, left)
    ensures FamilyOutcome(all, fam, m1, m2, units, r, left)
  {
    PartMovesWhole(fam, all, m1, m2);
    FamilyBalance(fam, m1, m2, units, r, left);
    forall e | e in all && m2[e] != m1[e] ensures 0 < r && e in fam && 0 <= m2[e] < m1[e] {
      FamilyChange(all, fam, m1, m2, units, r, left, e);
    }
    forall i, j | 0 <= i < j < |fam| && m2[fam[j]] != m1[fam[j]] ensures m2[fam[i]] == 0 {
      FamilyOrder(fam, m1, m2, units, r, left, i, j);
    }
  }

  class Guard {
    const entries: map<Pool, seq<Entry>>
    const families: map<Family, seq<Entry>>
    /** Every entry once, in input order. */
    ghost const all: seq<Entry>

    function EntriesOf(p: Pool): seq<Entry> {
      if p in entries then entries[p] else []
    }

    function FamilyOf(f: Family): seq<Entry> {
      if f in families then families[f] else []
    }

    /** Both indexes list exactly the entries of their key, so a flexible entry is shared by both. */
    ghost predicate Valid()
      reads all
    {
      && NoRepeats(all)
      && (forall e :: e in all ==> e.Valid())
      && (forall p :: EntriesOf(p) == ByWildcards(OfPool(all, p)))
      && (forall f :: FamilyOf(f) == OfFamily(all, f))
    }

    constructor (commitments: seq<Commitment>)
      ensures Valid()
      ensures forall e :: e in all ==> fresh(e)
      ensures |all| == |Ec2Of(commitments)|
      ensures forall i :: 0 <= i < |all| ==> Represents(all[i], Ec2Of(commitments)[i])
    {
      var byPool, byFamily, made := CollectEntries(commitments);
      entries := map p | p in byPool :: ByWildcards(byPool[p]);
      families := byFamily;
      all := made;
    }

    /** What the guard relies on for one exact type and one family. */
    lemma IndexFacts(p: Pool, f: Family)
      requires Valid()
      ensures NoRepeats(EntriesOf(p)) && WildcardsAscending(EntriesOf(p))
      ensures forall e :: e in EntriesOf(p) ==> e in all && e.pool == p && e.Valid()
      ensures forall e :: e in all && e.pool == p ==> e in EntriesOf(p)
      ensures NoRepeats(FamilyOf(f))
      ensures forall e :: e in FamilyOf(f) ==> e in all && InFamily(e, f) && e.Valid()
      ensures forall e :: e in all && InFamily(e, f) ==> e in FamilyOf(f)
    {
      OfPoolFacts(all, p);
      SortKeepsEntries(OfPool(all, p));
      OfFamilyFacts(all, f);
    }

    /** Distinct valid entries of the guard. */
    ghost predicate Listed(list: seq<Entry>)
      reads all
    {
      NoRepeats(list) && forall i :: 0 <= i < |list| ==> list[i] in all && list[i].Valid()
    }

    lemma PoolIsListed(p: Pool)
      requires Valid()
      ensures Listed(EntriesOf(p)) && forall e :: e in EntriesOf(p) ==> e.pool == p && e in all
    {
      IndexFacts(p, Family("", ""));
      assert forall i :: 0 <= i < |EntriesOf(p)| ==> EntriesOf(p)[i] in EntriesOf(p);
    }

    lemma FamilyIsListed(f: Family)
      requires Valid()
      ensures Listed(FamilyOf(f)) && forall e :: e in FamilyOf(f) ==> InFamily(e, f) && e in all
    {
      IndexFacts(Pool("", ""), f);
      assert forall i :: 0 <= i < |FamilyOf(f)| ==> FamilyOf(f)[i] in FamilyOf(f);
    }

    /** Units left in every entry. */
    ghost function Snapshot(): (m: map<Entry, int>)
      reads all
      ensures m.Keys == set e | e in all
      ensures forall e :: e in all ==> m[e] == e.Measure()
    {
      map e | e in all :: e.Measure()
    }

    /** The size-flexible entries a demand may spend: none unless the demand itself is flexible. */
    function FamilyFor(d: Demand): seq<Entry> {
      var flex := DemandFlex(d);
      if flex.Some? then FamilyOf(flex.value.family) else []
    }

    /** The entry may pay for the demand: exactly its type and dimensions, or its whole family. */
    ghost predicate Pays(e: Entry, d: Demand) {
      (e.pool == d.pool && e.Covers(d)) || (DemandFlex(d).Some? && InFamily(e, DemandFlex(d).value.family))
    }

    ghost predicate Covered(m: map<Entry, int>, d: Demand) {
      && (forall e :: e in all ==> e in m)
      && (forall e :: e in EntriesOf(d.pool) ==> e in all)
      && (forall e :: e in FamilyFor(d) ==> e in all)
    }

    /** Nodes suppressed weigh exactly the units that disappeared. */
    ghost predicate Balanced(m: map<Entry, int>, m': map<Entry, int>, d: Demand, wanted: int, left: int)
      requires Covered(m, d) && Covered(m', d)
    {
      && Min(wanted, 0) <= left <= wanted
      && SumOver(all, m') == SumOver(all, m) - Mul(wanted - left, Weight(d.pool))
    }

    /** Every changed entry may pay, and none is overdrawn. */
    ghost predicate PaidByCovering(m: map<Entry, int>, m': map<Entry, int>, d: Demand)
      requires Covered(m, d) && Covered(m', d)
    {
      forall e :: e in all && m'[e] != m[e] ==> Pays(e, d) && 0 <= m'[e] < m[e]
    }

    /** Neither an entry of the same type nor the family budget still covers one whole node. */
    ghost predicate NoNodeLeft(m: map<Entry, int>, d: Demand)
      requires Covered(m, d)
    {
      && SameTypeSpent(EntriesOf(d.pool), |EntriesOf(d.pool)|, m, d)
      && (DemandFlex(d).Some? ==> SumOver(FamilyFor(d), m) < Weight(d.pool))
    }

    /** Fewest wildcards first, then the rest of the family in input order. */
    ghost predicate SpentInOrder(m: map<Entry, int>, m': map<Entry, int>, d: Demand)
      requires Covered(m, d) && Covered(m', d)
    {
      var list, fam := EntriesOf(d.pool), FamilyFor(d);
      && (forall j :: 0 <= j < |list| && m'[list[j]] != m[list[j]] ==> SameTypeSpent(list, j, m', d))
      && (forall j :: 0 <= j < |fam| && fam[j].pool != d.pool && m'[fam[j]] != m[fam[j]] ==>
            SameTypeSpent(list, |list|, m', d) && forall i :: 0 <= i < j ==> m'[fam[i]] == 0)
    }

    /** How one recommendation moved the units left from m to m' when it keeps left of wanted nodes. */
    ghost predicate Accounted(m: map<Entry, int>, m': map<Entry, int>, d: Demand, wanted: int, left: int) {
      && Covered(m, d) && Covered(m', d)
      && Balanced(m, m', d, wanted, left)
      && PaidByCovering(m, m', d)
      && (0 < left ==> NoNodeLeft(m', d))
      && SpentInOrder(m, m', d)
    }

    /** The exact pass went from m to m1, the family pass (if any) from m1 to m2. */
    ghost predicate InTwoPasses(m: map<Entry, int>, m1: map<Entry, int>, m2: map<Entry, int>, d: Demand,
                                wanted: int, r: int, left: int)
    {
      && Outcomes(all, EntriesOf(d.pool), m, m1)
      && ExactOutcome(all, EntriesOf(d.pool), m, m1, d, wanted, r)
      && (if DemandFlex(d).Some?
          then Outcomes(all, FamilyFor(d), m1, m2)
               && FamilyOutcome(all, FamilyFor(d), m1, m2, Weight(d.pool), r, left)
          else m2 == m1 && left == r)
    }

    lemma SpentStaysSpent(m: map<Entry, int>, m1: map<Entry, int>, m2: map<Entry, int>, d: Demand,
                          wanted: int, r: int, left: int, j: nat)
      requires InTwoPasses(m, m1, m2, d, wanted, r, left)
      requires j <= |EntriesOf(d.pool)| && SameTypeSpent(EntriesOf(d.pool), j, m1, d)
      ensures SameTypeSpent(EntriesOf(d.pool), j, m2, d)
    {
      var list := EntriesOf(d.pool);
      forall i | 0 <= i < j && list[i].Covers(d) ensures m2[list[i]] < Weight(d.pool) {
        assert m2[list[i]] <= m1[list[i]];
      }
    }

    lemma TwoPassesPay(m: map<Entry, int>, m1: map<Entry, int>, m2: map<Entry, int>, d: Demand,
                       wanted: int, r: int, left: int, e: Entry)
      requires Valid() && InTwoPasses(m, m1, m2, d, wanted, r, left) && e in all
      ensures m2[e] != m[e] ==> Pays(e, d) && 0 <= m2[e] < m[e]
    {
      IndexFacts(d.pool, if DemandFlex(d).Some? then DemandFlex(d).value.family else Family("", ""));
    }

    lemma TwoPassesInOrder(m: map<Entry, int>, m1: map<Entry, int>, m2: map<Entry, int>, d: Demand,
                           wanted: int, r: int, left: int, j: nat)
      requires InTwoPasses(m, m1, m2, d, wanted, r, left)
      requires j < |EntriesOf(d.pool)| && m2[EntriesOf(d.pool)[j]] != m[EntriesOf(d.pool)[j]]
      ensures SameTypeSpent(EntriesOf(d.pool), j, m2, d)
    {
      var e := EntriesOf(d.pool)[j];
      assert m1[e] != m[e] || m2[e] != m1[e];
      SpentStaysSpent(m, m1, m2, d, wanted, r, left, j);
    }

    lemma FamilyInOrder(m: map<Entry, int>, m1: map<Entry, int>, m2: map<Entry, int>, d: Demand,
                        wanted: int, r: int, left: int, j: nat)
      requires Valid() && InTwoPasses(m, m1, m2, d, wanted, r, left)
      requires j < |FamilyFor(d)| && FamilyFor(d)[j].pool != d.pool && m2[FamilyFor(d)[j]] != m[FamilyFor(d)[j]]
      ensures SameTypeSpent(EntriesOf(d.pool), |EntriesOf(d.pool)|, m2, d)
      ensures forall i :: 0 <= i < j ==> m2[FamilyFor(d)[i]] == 0
    {
      IndexFacts(d.pool, DemandFlex(d).value.family);
      var e := FamilyFor(d)[j];
      assert e !in EntriesOf(d.pool) && e in all;
      SpentStaysSpent(m, m1, m2, d, wanted, r, left, |EntriesOf(d.pool)|);
    }

    lemma TwoPassesSpendInOrder(m: map<Entry, int>, m1: map<Entry, int>, m2: map<Entry, int>, d: Demand,
                                wanted: int, r: int, left: int)
      requires Valid() && InTwoPasses(m, m1, m2, d, wanted, r, left)
      requires Covered(m, d) && Covered(m2, d)
      ensures SpentInOrder(m, m2, d)
    {
      var list, fam := EntriesOf(d.pool), FamilyFor(d);
      forall j | 0 <= j < |list| && m2[list[j]] != m[list[j]] ensures SameTypeSpent(list, j, m2, d) {
        TwoPassesInOrder(m, m1, m2, d, wanted, r, left, j);
      }
      forall j | 0 <= j < |fam| && fam[j].pool != d.pool && m2[fam[j]] != m[fam[j]]
        ensures SameTypeSpent(list, |list|, m2, d) && forall i :: 0 <= i < j ==> m2[fam[i]] == 0
      {
        FamilyInOrder(m, m1, m2, d, wanted, r, left, j);
      }
    }

    lemma TwoPassesCover(m: map<Entry, int>, m1: map<Entry, int>, m2: map<Entry, int>, d: Demand,
                         wanted: int, r: int, left: int)
      requires Valid() && InTwoPasses(m, m1, m2, d, wanted, r, left)
      ensures Covered(m, d) && Covered(m2, d)
    {
      IndexFacts(d.pool, if DemandFlex(d).Some? then DemandFlex(d).value.family else Family("", ""));
    }

    lemma TwoPassesBalance(m: map<Entry, int>, m1: map<Entry, int>, m2: map<Entry, int>, d: Demand,
                           wanted: int, r: int, left: int)
      requires InTwoPasses(m, m1, m2, d, wanted, r, left)
      requires Covered(m, d) && Covered(m2, d)
      ensures Balanced(m, m2, d, wanted, left)
    {
      MulAdd(wanted - r, r - left, Weight(d.pool));
    }

    lemma TwoPassesLeaveNoNode(m: map<Entry, int>, m1: map<Entry, int>, m2: map<Entry, int>, d: Demand,
                               wanted: int, r: int, left: int)
      requires InTwoPasses(m, m1, m2, d, wanted, r, left) && 0 < left
      requires Covered(m2, d)
      ensures NoNodeLeft(m2, d)
    {
      SpentStaysSpent(m, m1, m2, d, wanted, r, left, |EntriesOf(d.pool)|);
    }

    lemma TwoPasses(m: map<Entry, int>, m1: map<Entry, int>, m2: map<Entry, int>, d: Demand,
                    wanted: int, r: int, left: int)
      requires Valid() && InTwoPasses(m, m1, m2, d, wanted, r, left)
      ensures Accounted(m, m2, d, wanted, left)
    {
      TwoPassesCover(m, m1, m2, d, wanted, r, left);
      TwoPassesBalance(m, m1, m2, d, wanted, r, left);
      if 0 < left {
        TwoPassesLeaveNoNode(m, m1, m2, d, wanted, r, left);
      }
      TwoPassesSpendInOrder(m, m1, m2, d, wanted, r, left);
      forall e | e in all ensures m2[e] != m[e] ==> Pays(e, d) && 0 <= m2[e] < m[e] {
        TwoPassesPay(m, m1, m2, d, wanted, r, left, e);
      }
    }

    /** The snapshot holds what the entries measure. */
    lemma MeasuresAreValues(list: seq<Entry>)
      requires forall e :: e in list ==> e in all
      ensures Values(list, Snapshot()) == Measures(list)
    {
    }

    /** The exact pass over the demand's own type. */
    method SpendExact(d: Demand, wanted: int) returns (remaining: int)
      requires Valid()
      modifies all
      ensures Valid()
      ensures Outcomes(all, EntriesOf(d.pool), old(Snapshot()), Snapshot())
      ensures ExactOutcome(all, EntriesOf(d.pool), old(Snapshot()), Snapshot(), d, wanted, remaining)
    {
      var list := EntriesOf(d.pool);
      PoolIsListed(d.pool);
      ghost var m := Snapshot();
      MeasuresAreValues(list);
      remaining := ExactPass(list, d, wanted);
      MeasuresAreValues(list);
      ghost var m1 := Snapshot();
      assert Outcomes(all, list, m, m1);
      ExactPassOutcome(all, list, m, m1, d, wanted, remaining);
    }

    /** The pass over the demand's family. */
    method SpendFamily(f: Family, units: nat, wanted: int) returns (remaining: int)
      requires Valid() && 0 < units
      modifies all
      ensures Valid()
      ensures Outcomes(all, FamilyOf(f), old(Snapshot()), Snapshot())
      ensures FamilyOutcome(all, FamilyOf(f), old(Snapshot()), Snapshot(), units, wanted, remaining)
    {
      var list := FamilyOf(f);
      FamilyIsListed(f);
      ghost var m := Snapshot();
      MeasuresAreValues(list);
      remaining := FamilyPass(list, units, wanted);
      MeasuresAreValues(list);
      ghost var m2 := Snapshot();
      assert Outcomes(all, list, m, m2);
      FamilyPassOutcome(all, list, m, m2, units, wanted, remaining);
    }

    method Spend(d: Demand, wanted: int) returns (left: int)
      requires Valid()
      modifies all
      ensures Valid()
      ensures Accounted(old(Snapshot()), Snapshot(), d, wanted, left)
    {
      ghost var m := Snapshot();
      left := SpendExact(d, wanted);
      ghost var m1, r1 := Snapshot(), left;
      var flex := DemandFlex(d);
      if flex.Some? {
        FlexUnitsAreTheWeight(d.pool, d.platform, d.tenancy);
        left := SpendFamily(flex.value.family, flex.value.units, left);
      }
      TwoPasses(m, m1, Snapshot(), d, wanted, r1, left);
    }

    /** Spends what covers the recommendation and resizes it once to what is left. */
    method Adjust(rec: Recommendation) returns (r: Result<Option<Recommendation>, string>, ghost left: int)
      requires Valid()
      modifies all
      ensures Valid()
      ensures Accounted(old(Snapshot()), Snapshot(), DemandOf(rec), rec.count, left)
      ensures r == if left <= 0 then Success(None) else Success(Some(ResizeCount(rec, left).value))
      ensures 0 < left ==> ResizeCount(rec, left).Success?
    {
      var remaining := Spend(DemandOf(rec), rec.count);
      left := remaining;
      if remaining <= 0 {
        return Success(None), left;
      }
      match ResizeCount(rec, remaining) {
        case Failure(e) => r := Failure(e);
        case Success(resized) => r := Success(Some(resized));
      }
    }

    // ---- Whole lists of recommendations ---------------------------------------------------

    /** Snapshots before, between and after the recommendations of a list. */
    ghost predicate Accounts(recs: seq<Recommendation>, snaps: seq<map<Entry, int>>, lefts: seq<int>) {
      && |snaps| == |recs| + 1 && |lefts| == |recs|
      && (forall e :: e in all ==> e in snaps[0])
      && forall i :: 0 <= i < |recs| ==> AccountedAt(recs, snaps, lefts, i)
    }

    ghost predicate AccountedAt(recs: seq<Recommendation>, snaps: seq<map<Entry, int>>, lefts: seq<int>, i: int)
      requires |snaps| == |recs| + 1 && |lefts| == |recs| && 0 <= i < |recs|
    {
      Accounted(snaps[i], snaps[i + 1], DemandOf(recs[i]), recs[i].count, lefts[i])
    }

    lemma MoreAccounts(recs: seq<Recommendation>, rec: Recommendation, snaps: seq<map<Entry, int>>, lefts: seq<int>,
                       m: map<Entry, int>, left: int)
      requires Accounts(recs, snaps, lefts)
      requires Accounted(snaps[|recs|], m, DemandOf(rec), rec.count, left)
      ensures Accounts(recs + [rec], snaps + [m], lefts + [left])
    {
      var r, s, l := recs + [rec], snaps + [m], lefts + [left];
      forall j | 0 <= j <= |recs| ensures AccountedAt(r, s, l, j) {
        if j < |recs| {
          assert AccountedAt(recs, snaps, lefts, j);
        }
      }
    }

    /** Suppressed nodes of a list, in size units. */
    ghost function SuppressedUnits(recs: seq<Recommendation>, lefts: seq<int>): int
      requires |lefts| == |recs|
    {
      if recs == [] then 0
      else
        var last := |recs| - 1;
        SuppressedUnits(recs[..last], lefts[..last])
        + Mul(recs[last].count - lefts[last], Weight(DemandOf(recs[last]).pool))
    }

    /** Over any list, the nodes suppressed weigh exactly the units that left the entries. */
    lemma {:induction false} BatchConserves(recs: seq<Recommendation>, snaps: seq<map<Entry, int>>, lefts: seq<int>)
      requires Accounts(recs, snaps, lefts)
      ensures forall e :: e in all ==> e in snaps[|recs|]
      ensures SumOver(all, snaps[|recs|]) == SumOver(all, snaps[0]) - SuppressedUnits(recs, lefts)
    {
      if recs != [] {
        var last := |recs| - 1;
        var r, s, l := recs[..last], snaps[..last + 1], lefts[..last];
        forall i | 0 <= i < last ensures AccountedAt(r, s, l, i) {
          assert AccountedAt(recs, snaps, lefts, i);
        }
        BatchConserves(recs[..last], snaps[..last + 1], lefts[..last]);
        assert AccountedAt(recs, snaps, lefts, last);
      }
    }

    /** So a list of recommendations never has more suppressed than was bought. */
    lemma NeverOversuppresses(recs: seq<Recommendation>, snaps: seq<map<Entry, int>>, lefts: seq<int>)
      requires Accounts(recs, snaps, lefts)
      requires forall e :: e in all ==> 0 <= snaps[0][e]
      ensures SuppressedUnits(recs, lefts) <= SumOver(all, snaps[0])
    {
      BatchConserves(recs, snaps, lefts);
      var m := snaps[|recs|];
      forall e | e in all ensures 0 <= m[e] {
        BatchShrinks(recs, snaps, lefts, 0, |recs|, e);
      }
      SumOfValues(all, m);
      SumNonNegative(Values(all, m));
    }

    /** Budgets only shrink over a list, and never below zero. */
    lemma {:induction false} BatchShrinks(recs: seq<Recommendation>, snaps: seq<map<Entry, int>>, lefts: seq<int>,
                                          i: nat, j: nat, e: Entry)
      requires Accounts(recs, snaps, lefts) && i <= j <= |recs| && e in all
      ensures e in snaps[i] && e in snaps[j]
      ensures snaps[j][e] <= snaps[i][e] && Min(snaps[i][e], 0) <= snaps[j][e]
    {
      if i < j {
        assert AccountedAt(recs, snaps, lefts, j - 1);
        BatchShrinks(recs, snaps, lefts, i, j - 1, e);
      } else if i < |recs| {
        assert AccountedAt(recs, snaps, lefts, i);
      } else if i > 0 {
        assert AccountedAt(recs, snaps, lefts, i - 1);
      }
    }

    /** An entry loses units only to recommendations it may pay for. */
    lemma {:induction false} CreditIsCovered(recs: seq<Recommendation>, snaps: seq<map<Entry, int>>, lefts: seq<int>,
                                             e: Entry, n: nat)
      requires Accounts(recs, snaps, lefts) && n <= |recs| && e in all
      ensures e in snaps[n]
      ensures snaps[n][e] != snaps[0][e] ==>
        exists i :: 0 <= i < n && lefts[i] < recs[i].count && Pays(e, DemandOf(recs[i]))
    {
      if n > 0 {
        CreditIsCovered(recs, snaps, lefts, e, n - 1);
        var rec := recs[n - 1];
        assert AccountedAt(recs, snaps, lefts, n - 1);
        if snaps[n][e] != snaps[n - 1][e] && lefts[n - 1] == rec.count {
          NothingSuppressedNothingSpent(snaps[n - 1], snaps[n], DemandOf(rec), rec.count, e);
        }
      }
    }

    lemma NothingSuppressedNothingSpent(m: map<Entry, int>, m': map<Entry, int>, d: Demand, wanted: int, e: Entry)
      requires Accounted(m, m', d, wanted, wanted) && e in all
      ensures m'[e] == m[e]
    {
      if m'[e] != m[e] {
        MulUnit(Weight(d.pool));
        SumOverDrops(all, m, m', e);
        assert false;
      }
    }

    /** A recommendation that kept nodes leaves no whole node among the entries that may pay, and
        nothing later in the list gives one back. */
    lemma KeptMeansSpent(recs: seq<Recommendation>, snaps: seq<map<Entry, int>>, lefts: seq<int>, i: nat)
      requires Accounts(recs, snaps, lefts) && i < |recs| && 0 < lefts[i]
      ensures Covered(snaps[|recs|], DemandOf(recs[i])) && NoNodeLeft(snaps[|recs|], DemandOf(recs[i]))
    {
      var d, m, m' := DemandOf(recs[i]), snaps[i + 1], snaps[|recs|];
      assert AccountedAt(recs, snaps, lefts, i);
      forall e | e in all ensures e in m' && m'[e] <= m[e] {
        BatchShrinks(recs, snaps, lefts, i + 1, |recs|, e);
      }
      SumOverShrinks(FamilyFor(d), m, m');
    }
  }
}
