/** Which reservation pays for which recommendation, in the terms of the reservation itself, and that
    the guard's entries go by it. */
module Ec2Rules {
  import opened Wrappers
  import opened Text
  import opened SizeNames
  import opened IntMath
  import opened Recommendations
  import opened Ec2Entries
  import opened Ec2Budget
  import opened Ec2Passes
  import opened Ec2Dedupe

  // ---- The rules --------------------------------------------------------------------------

  predicate Zonal(name: ScopeName, zone: string) {
    name == ZonalName || !Blank(zone)
  }

  predicate Regional(name: ScopeName, zone: string) {
    name == RegionalName && Blank(zone)
  }

  /** The same zone, white space and case aside. */
  ghost predicate SameZone(a: string, b: string) {
    exists s, t :: IsTrimmed(a, s) && IsTrimmed(b, t) && SameButCase(s, t)
  }

  /** A regional reservation pays in any zone, a zonal one for zonal use of its zone; what is unknown
      on either side is no obstacle. */
  ghost predicate ScopePays(c: Commitment, rec: Recommendation) {
    || !(Zonal(c.scope, c.zone) || Regional(c.scope, c.zone))
    || !(Zonal(rec.scope, rec.zone) || Regional(rec.scope, rec.zone))
    || Regional(c.scope, c.zone)
    || (Zonal(rec.scope, rec.zone) && (Blank(c.zone) || Blank(rec.zone) || SameZone(c.zone, rec.zone)))
  }

  /** The same type in the same region, and no dimension at odds. */
  ghost predicate PaysExactly(c: Commitment, rec: Recommendation) {
    && c.resourceType == rec.resourceType && c.region == rec.region
    && (c.platform == "" || rec.platform == "" || c.platform == rec.platform)
    && (c.tenancy == "" || rec.tenancy == "" || c.tenancy == rec.tenancy)
    && ScopePays(c, rec)
  }

  /** Families whose reservations pay for their own size only. */
  predicate OneSizeFamily(f: string) {
    || f == "g4ad" || f == "g4dn" || f == "g5" || f == "g5g" || f == "g6" || f == "g6e" || f == "g6f"
    || f == "gr6" || f == "gr6f" || f == "hpc7a" || f == "p5" || f == "inf1" || f == "inf2"
    || f == "u7i-6tb" || f == "u7i-8tb"
  }

  ghost predicate HasOneSize(prefix: string) {
    exists t, f :: IsTrimmed(prefix, t) && SameButCase(t, f) && OneSizeFamily(f)
  }

  /** The family of a type in small letters, and the units of its size. */
  ghost predicate Flexible(resourceType: string, family: string, units: nat) {
    exists prefix, size ::
      && resourceType == prefix + "." + size && '.' !in prefix && prefix != ""
      && SizeIs(size, units) && !HasOneSize(prefix)
      && family == Lower(prefix)
  }

  /** Linux on default tenancy: what a size-flexible reservation must be and may pay for. */
  predicate FlexibleUse(platform: string, tenancy: string) {
    platform == "linux/unix" && tenancy == "default"
  }

  /** A regional reservation of a size-flexible type pays for its whole family in its region. */
  ghost predicate PaysByFamily(c: Commitment, rec: Recommendation) {
    && Regional(c.scope, c.zone) && c.region == rec.region
    && FlexibleUse(c.platform, c.tenancy) && FlexibleUse(rec.platform, rec.tenancy)
    && exists family, u, v :: Flexible(c.resourceType, family, u) && Flexible(rec.resourceType, family, v)
  }

  // ---- Zones ------------------------------------------------------------------------------

  lemma SameZoneDecided(a: string, b: string)
    ensures SameZone(a, b) <==> Lower(TrimSpace(a)) == Lower(TrimSpace(b))
  {
    TrimSpaceTrims(a);
    TrimSpaceTrims(b);
    LowerDecidesCase(TrimSpace(a), TrimSpace(b));
    if SameZone(a, b) {
      var s, t :| IsTrimmed(a, s) && IsTrimmed(b, t) && SameButCase(s, t);
      TrimUnique(a, s, TrimSpace(a));
      TrimUnique(b, t, TrimSpace(b));
    }
  }

  lemma ScopeIs(name: ScopeName, zone: string)
    ensures NewScope(name, zone).RegionalScope? <==> Regional(name, zone)
    ensures NewScope(name, zone).ZonalScope? <==> Zonal(name, zone)
    ensures Zonal(name, zone) ==> NewScope(name, zone).zone == Lower(TrimSpace(zone))
    ensures Lower(TrimSpace(zone)) == "" <==> Blank(zone)
  {
    TrimSpaceTrims(zone);
    assert |Lower(TrimSpace(zone))| == |TrimSpace(zone)|;
  }

  lemma ScopeRule(c: Commitment, rec: Recommendation)
    ensures ScopeCovers(NewScope(c.scope, c.zone), NewScope(rec.scope, rec.zone)) <==> ScopePays(c, rec)
  {
    ScopeIs(c.scope, c.zone);
    ScopeIs(rec.scope, rec.zone);
    SameZoneDecided(c.zone, rec.zone);
  }

  // ---- Sizes and families -----------------------------------------------------------------

  lemma OneSizeIsListed(f: string)
    ensures OneSizeFamily(f) <==> f in EXACT_FAMILIES
  {
  }

  lemma OneSizeIsSmall(f: string)
    requires OneSizeFamily(f)
    ensures Lower(f) == f
  {
    SmallStays(f);
  }

  lemma FamilyRule(prefix: string)
    ensures FlexibleFamily(prefix) <==> !HasOneSize(prefix)
  {
    TrimSpaceTrims(prefix);
    var t := TrimSpace(prefix);
    LowerIsSmall(t);
    OneSizeIsListed(Lower(t));
    if !FlexibleFamily(prefix) {
      assert IsTrimmed(prefix, t) && SameButCase(t, Lower(t)) && OneSizeFamily(Lower(t));
    }
    if HasOneSize(prefix) {
      var u, f :| IsTrimmed(prefix, u) && SameButCase(u, f) && OneSizeFamily(f);
      TrimUnique(prefix, u, t);
      LowerDecidesCase(t, f);
      OneSizeIsSmall(f);
    }
  }

  /** A type of the given family and units is one that reads so, and no other. */
  lemma TypeRule(resourceType: string, family: string, units: nat)
    ensures TypeUnits(resourceType) == Some((family, units)) <==> Flexible(resourceType, family, units)
  {
    CutAtFirst(resourceType, '.');
    if TypeUnits(resourceType) == Some((family, units)) {
      var (prefix, size) := Cut(resourceType, '.').value;
      SizeRule(size, units);
      FamilyRule(prefix);
      assert resourceType == prefix + "." + size;
    }
    if Flexible(resourceType, family, units) {
      var prefix, size :| resourceType == prefix + "." + size && '.' !in prefix && prefix != ""
                          && SizeIs(size, units) && !HasOneSize(prefix) && family == Lower(prefix);
      CutIs(resourceType, prefix, size);
      SizeRule(size, units);
      FamilyRule(prefix);
    }
  }

  lemma CutIs(s: string, before: string, after: string)
    requires s == before + "." + after && '.' !in before
    ensures Cut(s, '.') == Some((before, after))
  {
    CutAtFirst(s, '.');
    assert s[|before|] == '.';
    var (b, a) := Cut(s, '.').value;
    assert s[|b|] == '.';
    assert forall i :: 0 <= i < |before| ==> s[i] == before[i] && s[i] != '.';
    assert forall i :: 0 <= i < |b| ==> s[i] == b[i] && s[i] != '.';
    assert b == s[..|b|] && before == s[..|before|] && a == s[|b| + 1..] && after == s[|before| + 1..];
  }

  // ---- Entries ----------------------------------------------------------------------------

  /** Of all entries exactly those with a family budget are regional, Linux on default tenancy, and of
      a known size in a flexible family; the budget is counted in the units of that size. */
  lemma BudgetRule(e: Entry, c: Commitment, family: string, units: nat)
    requires Represents(e, c)
    ensures e.flex == Some(Flex(Family(family, c.region), units)) <==>
      && Regional(c.scope, c.zone) && FlexibleUse(c.platform, c.tenancy) && Flexible(c.resourceType, family, units)
    ensures e.flex.Some? ==> e.flex.value.family.region == c.region
  {
    ScopeIs(c.scope, c.zone);
    TypeRule(c.resourceType, family, units);
  }

  /** A node weighs the units of its type, or counts for one when the type has none. */
  lemma WeightRule(resourceType: string, region: string, units: nat)
    ensures (exists family :: Flexible(resourceType, family, units)) ==> Weight(Pool(resourceType, region)) == units
    ensures (forall family, u: nat :: !Flexible(resourceType, family, u)) ==> Weight(Pool(resourceType, region)) == 1
  {
    if family :| Flexible(resourceType, family, units) {
      TypeRule(resourceType, family, units);
    }
    if TypeUnits(resourceType).Some? {
      TypeRule(resourceType, TypeUnits(resourceType).value.0, TypeUnits(resourceType).value.1);
    }
  }

  datatype Dimension = PlatformDimension | TenancyDimension | ScopeDimension | ZoneDimension

  predicate LeftOpen(c: Commitment, d: Dimension) {
    match d
    case PlatformDimension => c.platform == ""
    case TenancyDimension => c.tenancy == ""
    case ScopeDimension => !(Zonal(c.scope, c.zone) || Regional(c.scope, c.zone))
    case ZoneDimension => Zonal(c.scope, c.zone) && Blank(c.zone)
  }

  function Singly(c: Commitment, d: Dimension): set<Dimension> {
    if LeftOpen(c, d) then {d} else {}
  }

  /** Entries are ordered by how many dimensions their reservation leaves open. */
  lemma WildcardRule(e: Entry, c: Commitment)
    requires Represents(e, c)
    ensures e.wildcards == |set d: Dimension | LeftOpen(c, d)|
  {
    ScopeIs(c.scope, c.zone);
    OpenCount(c);
  }

  function One(b: bool): nat {
    if b then 1 else 0
  }

  lemma SinglyCount(c: Commitment, d: Dimension)
    ensures |Singly(c, d)| == One(LeftOpen(c, d))
  {
  }

  lemma OpenCount(c: Commitment)
    ensures |set d: Dimension | LeftOpen(c, d)|
         == One(LeftOpen(c, PlatformDimension)) + One(LeftOpen(c, TenancyDimension))
            + One(LeftOpen(c, ScopeDimension)) + One(LeftOpen(c, ZoneDimension))
  {
    var p, t, s, z := Singly(c, PlatformDimension), Singly(c, TenancyDimension), Singly(c, ScopeDimension),
      Singly(c, ZoneDimension);
    OpenUnion(c);
    UnionCount(p, t);
    UnionCount(p + t, s);
    UnionCount(p + t + s, z);
    SinglyCount(c, PlatformDimension);
    SinglyCount(c, TenancyDimension);
    SinglyCount(c, ScopeDimension);
    SinglyCount(c, ZoneDimension);
  }

  lemma OpenUnion(c: Commitment)
    ensures (set d: Dimension | LeftOpen(c, d))
         == Singly(c, PlatformDimension) + Singly(c, TenancyDimension) + Singly(c, ScopeDimension)
            + Singly(c, ZoneDimension)
  {
  }

  lemma UnionCount<T>(a: set<T>, b: set<T>)
    requires a !! b
    ensures |a + b| == |a| + |b|
  {
  }

  lemma {:induction false} ComputeMembers(cs: seq<Commitment>, c: Commitment)
    ensures c in Ec2Of(cs) <==> c in cs && c.provider == AWS && (c.service == EC2 || c.service == Compute)
  {
    if cs != [] {
      var rest, last := cs[..|cs| - 1], cs[|cs| - 1];
      ComputeMembers(rest, c);
      assert cs == rest + [last];
    }
  }

  lemma {:induction false} ComputeConcat(cs: seq<Commitment>, more: seq<Commitment>)
    ensures Ec2Of(cs + more) == Ec2Of(cs) + Ec2Of(more)
  {
    if more == [] {
      assert cs + more == cs;
    } else {
      ComputeConcat(cs, more[..|more| - 1]);
      assert (cs + more)[..|cs + more| - 1] == cs + more[..|more| - 1];
    }
  }

  /** The guard looks at AWS reservations of EC2 and compute, all of them and in order. */
  lemma ComputeOnly(cs: seq<Commitment>, more: seq<Commitment>)
    ensures forall c :: c in Ec2Of(cs) <==> c in cs && c.provider == AWS && (c.service == EC2 || c.service == Compute)
    ensures Ec2Of(cs + more) == Ec2Of(cs) + Ec2Of(more)
  {
    forall c ensures c in Ec2Of(cs) <==> c in cs && c.provider == AWS && (c.service == EC2 || c.service == Compute) {
      ComputeMembers(cs, c);
    }
    ComputeConcat(cs, more);
  }

  /** An entry may pay for a demand exactly when the rules let its reservation pay for the
      recommendation. */
  lemma PaysRule(guard: Guard, e: Entry, c: Commitment, rec: Recommendation)
    requires Represents(e, c)
    ensures e.pool == DemandOf(rec).pool && e.Covers(DemandOf(rec)) <==> PaysExactly(c, rec)
    ensures guard.Pays(e, DemandOf(rec)) <==> PaysExactly(c, rec) || PaysByFamily(c, rec)
  {
    ScopeRule(c, rec);
    FamilyPaysRule(e, c, rec);
  }

  lemma FamilyPaysRule(e: Entry, c: Commitment, rec: Recommendation)
    requires Represents(e, c)
    ensures var f := DemandFlex(DemandOf(rec));
      f.Some? && InFamily(e, f.value.family) <==> PaysByFamily(c, rec)
  {
    var f := DemandFlex(DemandOf(rec));
    if f.Some? && InFamily(e, f.value.family) {
      BudgetRule(e, c, f.value.family.prefix, e.flex.value.units);
      TypeRule(rec.resourceType, f.value.family.prefix, f.value.units);
    }
    if PaysByFamily(c, rec) {
      var family, u, v :| Flexible(c.resourceType, family, u) && Flexible(rec.resourceType, family, v);
      BudgetRule(e, c, family, u);
      TypeRule(rec.resourceType, family, v);
    }
  }

  // ---- Whole lists ------------------------------------------------------------------------

  /** The guard holds one entry per EC2 commitment, in order. */
  ghost predicate BuiltFrom(guard: Guard, cs: seq<Commitment>)
    reads guard.all
  {
    |guard.all| == |Ec2Of(cs)| && forall k :: 0 <= k < |guard.all| ==> Represents(guard.all[k], Ec2Of(cs)[k])
  }

  /** Over any list a reservation loses units only to recommendations the rules let it pay for and
      that had nodes suppressed: one that is not regional, only to its own type. */
  lemma LossGoesByTheRules(guard: Guard, cs: seq<Commitment>, recs: seq<Recommendation>,
                           snaps: seq<map<Entry, int>>, lefts: seq<int>, k: nat)
    returns (i: nat)
    requires k < |guard.all| == |Ec2Of(cs)| && Represents(guard.all[k], Ec2Of(cs)[k])
    requires guard.Accounts(recs, snaps, lefts)
    ensures guard.all[k] in snaps[0] && guard.all[k] in snaps[|recs|]
    ensures snaps[|recs|][guard.all[k]] != snaps[0][guard.all[k]] ==>
      && i < |recs| && lefts[i] < recs[i].count
      && (PaysExactly(Ec2Of(cs)[k], recs[i]) || PaysByFamily(Ec2Of(cs)[k], recs[i]))
      && (!Regional(Ec2Of(cs)[k].scope, Ec2Of(cs)[k].zone) ==> PaysExactly(Ec2Of(cs)[k], recs[i]))
  {
    var e := guard.all[k];
    guard.CreditIsCovered(recs, snaps, lefts, e, |recs|);
    if snaps[|recs|][e] != snaps[0][e] {
      i :| 0 <= i < |recs| && lefts[i] < recs[i].count && guard.Pays(e, DemandOf(recs[i]));
      PaysRule(guard, e, Ec2Of(cs)[k], recs[i]);
    } else {
      i := 0;
    }
  }

  /** Over any list, a recommendation that kept nodes leaves no whole node with any reservation that
      may pay for its type, nor with those together that may pay by family. */
  lemma KeptGoesByTheRules(guard: Guard, cs: seq<Commitment>, recs: seq<Recommendation>,
                           snaps: seq<map<Entry, int>>, lefts: seq<int>, i: nat, k: nat)
    requires guard.Valid() && BuiltFrom(guard, cs) && k < |guard.all|
    requires guard.Accounts(recs, snaps, lefts) && i < |recs| && 0 < lefts[i]
    ensures guard.all[k] in snaps[|recs|]
    ensures PaysExactly(Ec2Of(cs)[k], recs[i]) ==> snaps[|recs|][guard.all[k]] < Weight(DemandOf(recs[i]).pool)
    ensures guard.all[k] in guard.FamilyFor(DemandOf(recs[i])) <==> PaysByFamily(Ec2Of(cs)[k], recs[i])
    ensures (forall e :: e in guard.FamilyFor(DemandOf(recs[i])) ==> e in snaps[|recs|])
    ensures guard.FamilyFor(DemandOf(recs[i])) != [] ==>
      SumOver(guard.FamilyFor(DemandOf(recs[i])), snaps[|recs|]) < Weight(DemandOf(recs[i]).pool)
  {
    var e, d := guard.all[k], DemandOf(recs[i]);
    guard.KeptMeansSpent(recs, snaps, lefts, i);
    PaysRule(guard, e, Ec2Of(cs)[k], recs[i]);
    FamilyPaysRule(e, Ec2Of(cs)[k], recs[i]);
    guard.IndexFacts(d.pool, if DemandFlex(d).Some? then DemandFlex(d).value.family else Family("", ""));
    if PaysExactly(Ec2Of(cs)[k], recs[i]) {
      var list := guard.EntriesOf(d.pool);
      assert e in list;
      var n :| 0 <= n < |list| && list[n] == e;
    }
  }
}
