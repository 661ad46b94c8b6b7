/** Choosing a smaller exchange target for an underused reservation. */
module ReshapeFit {
  import opened Wrappers
  import opened Text
  import opened RealMath
  import SizeNames
  import Ec2Entries

  /** Normalization factor of an instance size; zero when it is unknown. */
  function Factor(size: string): real {
    Ec2Entries.SizeUnits(size) as real / 4.0
  }

  /** An xlarge counts eight, its multiples as many times eight, and each smaller size half the next. */
  lemma FactorRule(size: string, n: nat)
    ensures SizeNames.XlargesOf(size, n) ==> Factor(size) == 8.0 * n as real
    ensures SizeNames.SizeBelowXlarge(size, n) ==> Factor(size) == n as real / 4.0
    ensures (forall u: nat :: !Ec2Entries.SizeIs(size, u)) ==> Factor(size) == 0.0
  {
    Ec2Entries.SizeRule(size, 32 * n);
    Ec2Entries.SizeRule(size, n);
    Ec2Entries.SizeRule(size, Ec2Entries.SizeUnits(size));
  }

  function Ceil(x: real): int {
    -((-x).Floor)
  }

  /** Instances of a size that cover the usage. */
  function Needed(used: real, factor: real): int {
    Ceil(Over(used, factor))
  }

  lemma NeededCovers(used: real, factor: real)
    requires 0.0 < used && 0.0 < factor
    ensures var n := Needed(used, factor);
      1 <= n && Times(n as real - 1.0, factor) < used <= Times(n as real, factor)
  {
    var q, n := Over(used, factor), Needed(used, factor);
    OverTimes(used, factor);
    TimesCommutes(factor, n as real);
    TimesCommutes(factor, n as real - 1.0);
    TimesMonotone(factor, q, n as real);
    TimesStrict(factor, n as real - 1.0, q);
    if n < 1 {
      TimesUnit(factor);
      TimesMonotone(factor, n as real, 0.0);
      assert false;
    }
  }

  /** The size fits the usage from below, and enough of it stays within what was purchased. */
  predicate Fits(used: real, purchased: real, size: string) {
    0.0 < Factor(size) <= used && Times(Needed(used, Factor(size)) as real, Factor(size)) <= purchased
  }

  /** Usage below the last size of the ladder falls back to one of that size. */
  predicate FallsBack(used: real, purchased: real, ladder: seq<string>) {
    ladder != [] && used < Factor(ladder[|ladder| - 1]) <= purchased
  }

  datatype Target = Target(size: string, count: int)

  /** The first size of the ladder that fits, or else the fallback. */
  predicate BestFit(used: real, purchased: real, ladder: seq<string>, r: Option<Target>) {
    match r
    case Some(t) =>
      || (exists k :: 0 <= k < |ladder| && ladder[k] == t.size && Fits(used, purchased, t.size)
                      && t.count == Needed(used, Factor(t.size))
                      && forall l :: 0 <= l < k ==> !Fits(used, purchased, ladder[l]))
      || (FallsBack(used, purchased, ladder) && t == Target(ladder[|ladder| - 1], 1)
          && forall l :: 0 <= l < |ladder| ==> !Fits(used, purchased, ladder[l]))
    case None =>
      || used <= 0.0
      || (!FallsBack(used, purchased, ladder)
          && forall l :: 0 <= l < |ladder| ==> !Fits(used, purchased, ladder[l]))
  }

  method FindBestFit(used: real, purchased: real, ladder: seq<string>) returns (r: Option<Target>)
    ensures BestFit(used, purchased, ladder, r)
    ensures r.Some? ==> 0.0 < used
  {
    if !(used > 0.0) || |ladder| == 0 {
      return None;
    }
    for k := 0 to |ladder|
      invariant forall l :: 0 <= l < k ==> !Fits(used, purchased, ladder[l])
    {
      var nf := Factor(ladder[k]);
      if nf <= 0.0 || nf > used {
        continue;
      }
      var needed := Needed(used, nf);
      if Times(needed as real, nf) <= purchased {
        return Some(Target(ladder[k], needed));
      }
    }
    var s := ladder[|ladder| - 1];
    var nf := Factor(s);
    if used < nf && nf <= purchased {
      return Some(Target(s, 1));
    }
    return None;
  }

  predicate Descending(ladder: seq<string>) {
    forall i, j :: 0 <= i < j < |ladder| ==> Factor(ladder[j]) < Factor(ladder[i])
  }

  /** A target covers the usage within what was purchased; on a descending ladder no larger size
      that is not above the usage would do. */
  lemma BestFitIsLargest(used: real, purchased: real, ladder: seq<string>, t: Target, other: string)
    requires 0.0 < used && Descending(ladder) && BestFit(used, purchased, ladder, Some(t))
    ensures 1 <= t.count && used <= Times(t.count as real, Factor(t.size)) <= purchased
    ensures t.size in ladder
    ensures other in ladder && Factor(t.size) < Factor(other) <= used ==>
      purchased < Times(Needed(used, Factor(other)) as real, Factor(other))
    ensures used < Factor(t.size) ==> t.count == 1 && forall s :: s in ladder ==> Factor(t.size) <= Factor(s)
  {
    TimesUnit(Factor(t.size));
    if 0.0 < Factor(t.size) {
      NeededCovers(used, Factor(t.size));
    }
  }

  // ---- One reservation --------------------------------------------------------------------

  datatype Reservation = Reservation(convertible: bool, instanceType: string, count: int, factor: real)

  datatype Analysis = NoAction | NoFactor | Unused | NotOffered | Exchange(target: Target)

  /** Catalog of offered sizes by family, or None for the built-in ladder. */
  type Catalog = Option<map<string, seq<string>>>

  const LEGACY_LADDER: seq<string> := [
    "24xlarge", "18xlarge", "16xlarge", "12xlarge", "10xlarge", "9xlarge", "8xlarge", "6xlarge", "4xlarge",
    "3xlarge", "2xlarge", "xlarge", "large", "medium", "small", "micro", "nano"]

  function LadderFor(catalog: Catalog, family: string): Option<seq<string>> {
    match catalog
    case None => Some(LEGACY_LADDER)
    case Some(m) => if family in m then Some(m[family]) else None
  }

  function ResolvedFactor(ri: Reservation, size: string): real {
    if ri.factor != 0.0 then ri.factor else Factor(size)
  }

  method ResolveFactor(ri: Reservation, size: string) returns (factor: real)
    ensures factor == ResolvedFactor(ri, size)
  {
    factor := ri.factor;
    if factor == 0.0 {
      factor := Factor(size);
    }
  }

  /** The ladder of a family, if any is offered. */
  method ChooseLadder(catalog: Catalog, family: string) returns (ladder: Option<seq<string>>)
    ensures ladder == LadderFor(catalog, family)
  {
    if catalog.None? {
      return Some(LEGACY_LADDER);
    }
    if family !in catalog.value {
      return None;
    }
    return Some(catalog.value[family]);
  }

  /** A convertible reservation used below the threshold, of a type with a family. */
  predicate Underused(ri: Reservation, utilization: Option<real>, threshold: real) {
    && ri.convertible && utilization.Some? && utilization.value < threshold
    && Cut(ri.instanceType, '.').Some? && Cut(ri.instanceType, '.').value.0 != ""
  }

  function FamilyOf(ri: Reservation): string {
    match Cut(ri.instanceType, '.')
    case None => ""
    case Some((family, _)) => family
  }

  function SizeOf(ri: Reservation): string {
    match Cut(ri.instanceType, '.')
    case None => ""
    case Some((_, size)) => size
  }

  /** Units a reservation owns, and those of them it uses. */
  function Owned(ri: Reservation): real {
    Times(ResolvedFactor(ri, SizeOf(ri)), ri.count as real)
  }

  function Used(ri: Reservation, utilization: Option<real>): real {
    if utilization.Some? then Times(Owned(ri), Over(utilization.value, 100.0)) else 0.0
  }

  /** An exchange is suggested exactly when the best fit of an underused reservation frees units. */
  method AnalyzeReservation(ri: Reservation, utilization: Option<real>, threshold: real, catalog: Catalog)
    returns (r: Analysis, ghost fit: Option<Target>)
    ensures r.NoFactor? <==> Underused(ri, utilization, threshold) && ResolvedFactor(ri, SizeOf(ri)) == 0.0
    ensures r.Unused? <==> Underused(ri, utilization, threshold) && ResolvedFactor(ri, SizeOf(ri)) != 0.0
                           && Used(ri, utilization) <= 0.0
    ensures r.NotOffered? <==> Underused(ri, utilization, threshold) && 0.0 < Used(ri, utilization)
                               && LadderFor(catalog, FamilyOf(ri)).None?
    ensures Underused(ri, utilization, threshold) && 0.0 < Used(ri, utilization)
            && LadderFor(catalog, FamilyOf(ri)).Some? ==>
      BestFit(Used(ri, utilization), Owned(ri), LadderFor(catalog, FamilyOf(ri)).value, fit)
    ensures r.Exchange? <==>
      && Underused(ri, utilization, threshold) && 0.0 < Used(ri, utilization) && LadderFor(catalog, FamilyOf(ri)).Some?
      && fit.Some? && Times(fit.value.count as real, Factor(fit.value.size)) < Owned(ri)
    ensures r.Exchange? ==> fit == Some(r.target)
  {
    fit := None;
    if !ri.convertible || utilization.None? || utilization.value >= threshold {
      return NoAction, fit;
    }
    var split := Cut(ri.instanceType, '.');
    if split.None? || split.value.0 == "" {
      return NoAction, fit;
    }
    var (family, size) := split.value;
    var factor := ResolveFactor(ri, size);
    var owned := Times(factor, ri.count as real);
    var used := Times(owned, Over(utilization.value, 100.0));
    if factor == 0.0 {
      TimesUnit(ri.count as real);
      TimesUnit(Over(utilization.value, 100.0));
      return NoFactor, fit;
    }
    if used <= 0.0 {
      return Unused, fit;
    }
    var offered := ChooseLadder(catalog, family);
    if offered.None? {
      return NotOffered, fit;
    }
    var best := FindBestFit(used, owned, offered.value);
    fit := best;
    if best.None? || Times(best.value.count as real, Factor(best.value.size)) >= owned {
      return NoAction, fit;
    }
    return Exchange(best.value), fit;
  }

  // ---- The offered catalog ----------------------------------------------------------------

  /** Sizes with a known factor that the region offers in a family. */
  function OfferedSizes(types: seq<string>, family: string): set<string> {
    if types == [] then {}
    else
      var rest := OfferedSizes(types[..|types| - 1], family);
      match Cut(types[|types| - 1], '.')
      case None => rest
      case Some((f, size)) => if f == family && f != "" && 0.0 < Factor(size) then rest + {size} else rest
  }

  function InsertLarger(size: string, ladder: seq<string>): seq<string> {
    if ladder == [] || Factor(ladder[|ladder| - 1]) > Factor(size) then ladder + [size]
    else InsertLarger(size, ladder[..|ladder| - 1]) + [ladder[|ladder| - 1]]
  }

  /** Known sizes have distinct factors. */
  lemma FactorsDistinct(a: string, b: string)
    requires 0.0 < Factor(a) == Factor(b)
    ensures a == b
  {
    NameOfUnits(a);
    NameOfUnits(b);
  }

  /** The size with the given units. */
  function NameOf(units: nat): string {
    if units <= 64 then
      if units == 1 then "nano" else if units == 2 then "micro" else if units == 4 then "small"
      else if units == 8 then "medium" else if units == 16 then "large" else if units == 32 then "xlarge" else "2xlarge"
    else if units <= 384 then
      if units == 96 then "3xlarge" else if units == 128 then "4xlarge" else if units == 192 then "6xlarge"
      else if units == 256 then "8xlarge" else if units == 288 then "9xlarge" else if units == 320 then "10xlarge"
      else "12xlarge"
    else if units <= 1024 then
      if units == 512 then "16xlarge" else if units == 576 then "18xlarge"
      else if units == 768 then "24xlarge" else "32xlarge"
    else if units == 1536 then "48xlarge" else if units == 1792 then "56xlarge" else if units == 3072 then "96xlarge"
    else "112xlarge"
  }

  lemma NameOfUnits(size: string)
    requires 0 < Ec2Entries.SizeUnits(size)
    ensures NameOf(Ec2Entries.SizeUnits(size)) == size
  {
    assert size in Ec2Entries.SIZE_UNITS;
  }

  lemma {:induction false} InsertMembers(size: string, ladder: seq<string>)
    ensures forall s :: s in InsertLarger(size, ladder) <==> s == size || s in ladder
  {
    if ladder != [] && !(Factor(ladder[|ladder| - 1]) > Factor(size)) {
      InsertMembers(size, ladder[..|ladder| - 1]);
      assert ladder == ladder[..|ladder| - 1] + [ladder[|ladder| - 1]];
    }
  }

  lemma AppendDescends(ladder: seq<string>, last: string)
    requires Descending(ladder) && forall i :: 0 <= i < |ladder| ==> Factor(last) < Factor(ladder[i])
    ensures Descending(ladder + [last])
  {
  }

  lemma {:induction false} InsertDescends(size: string, ladder: seq<string>)
    requires Descending(ladder) && 0.0 < Factor(size) && size !in ladder
    requires forall s :: s in ladder ==> 0.0 < Factor(s)
    ensures Descending(InsertLarger(size, ladder))
  {
    if ladder != [] && !(Factor(ladder[|ladder| - 1]) > Factor(size)) {
      var rest, last := ladder[..|ladder| - 1], ladder[|ladder| - 1];
      assert last in ladder;
      InsertDescends(size, rest);
      InsertMembers(size, rest);
      if Factor(last) == Factor(size) {
        FactorsDistinct(last, size);
      }
      var out := InsertLarger(size, rest);
      forall i | 0 <= i < |out| ensures Factor(last) < Factor(out[i]) {
        assert out[i] in out;
        if out[i] != size {
          var j :| 0 <= j < |rest| && rest[j] == out[i];
          assert Factor(ladder[|ladder| - 1]) < Factor(ladder[j]);
        }
      }
      AppendDescends(out, last);
    }
  }

  ghost predicate IsLadder(ladder: seq<string>, sizes: set<string>) {
    && Descending(ladder)
    && (forall s :: s in ladder <==> s in sizes)
  }

  /** Sizes in any order become a strictly descending ladder. */
  method LadderOf(sizes: set<string>) returns (ladder: seq<string>)
    requires forall s :: s in sizes ==> 0.0 < Factor(s)
    ensures IsLadder(ladder, sizes)
  {
    ladder := [];
    var left := sizes;
    while left != {}
      invariant left <= sizes && IsLadder(ladder, sizes - left)
      decreases |left|
    {
      var size :| size in left;
      InsertMembers(size, ladder);
      InsertDescends(size, ladder);
      ladder := InsertLarger(size, ladder);
      left := left - {size};
    }
    assert sizes - {} == sizes;
  }

  lemma EmptyLadder(ladder: seq<string>, sizes: set<string>)
    requires IsLadder(ladder, sizes)
    ensures ladder == [] <==> sizes == {}
  {
    if ladder != [] {
      assert ladder[0] in ladder;
    }
  }

  lemma LastIsSmallest(ladder: seq<string>, s: string)
    requires Descending(ladder) && s in ladder
    ensures s == ladder[|ladder| - 1] || Factor(ladder[|ladder| - 1]) < Factor(s)
  {
  }

  lemma WithoutLast(ladder: seq<string>, sizes: set<string>)
    requires IsLadder(ladder, sizes) && ladder != []
    ensures IsLadder(ladder[..|ladder| - 1], sizes - {ladder[|ladder| - 1]})
  {
    var rest, last := ladder[..|ladder| - 1], ladder[|ladder| - 1];
    assert ladder == rest + [last];
  }

  /** Two ladders of the same sizes end in the same size. */
  lemma SameLast(a: seq<string>, b: seq<string>, sizes: set<string>)
    requires IsLadder(a, sizes) && IsLadder(b, sizes) && a != [] && b != []
    ensures a[|a| - 1] == b[|b| - 1]
  {
    var x, y := a[|a| - 1], b[|b| - 1];
    assert x in a && y in b;
    LastIsSmallest(a, y);
    LastIsSmallest(b, x);
  }

  lemma SameFront<T>(a: seq<T>, b: seq<T>)
    requires a != [] && b != []
    requires a[|a| - 1] == b[|b| - 1] && a[..|a| - 1] == b[..|b| - 1]
    ensures a == b
  {
    assert a == a[..|a| - 1] + [a[|a| - 1]];
    assert b == b[..|b| - 1] + [b[|b| - 1]];
  }

  /** The ladder does not depend on the order the sizes were visited in. */
  lemma {:induction false} LadderIsUnique(a: seq<string>, b: seq<string>, sizes: set<string>)
    requires IsLadder(a, sizes) && IsLadder(b, sizes)
    ensures a == b
    decreases |a|
  {
    EmptyLadder(a, sizes);
    EmptyLadder(b, sizes);
    if a != [] {
      SameLast(a, b, sizes);
      WithoutLast(a, sizes);
      WithoutLast(b, sizes);
      LadderIsUnique(a[..|a| - 1], b[..|b| - 1], sizes - {a[|a| - 1]});
      SameFront(a, b);
    }
  }

  lemma {:induction false} OfferedAreKnown(types: seq<string>, family: string)
    ensures forall s :: s in OfferedSizes(types, family) ==> 0.0 < Factor(s)
  {
    if types != [] {
      OfferedAreKnown(types[..|types| - 1], family);
    }
  }

  /** The sizes seen of each family so far. */
  ghost predicate SeenSoFar(seen: map<string, set<string>>, types: seq<string>) {
    && (forall f :: f in seen ==> seen[f] == OfferedSizes(types, f) && seen[f] != {})
    && (forall f :: f !in seen ==> OfferedSizes(types, f) == {})
  }

  method SeeOne(seen: map<string, set<string>>, types: seq<string>, i: nat) returns (r: map<string, set<string>>)
    requires i < |types| && SeenSoFar(seen, types[..i])
    ensures SeenSoFar(r, types[..i + 1])
  {
    assert types[..i + 1][..i] == types[..i];
    var split := Cut(types[i], '.');
    if split.None? || split.value.0 == "" || Factor(split.value.1) <= 0.0 {
      return seen;
    }
    var (family, size) := split.value;
    r := seen[family := (if family in seen then seen[family] else {}) + {size}];
  }

  /** Every offered family gets the descending ladder of its known sizes. */
  method IndexOfferedSizes(types: seq<string>) returns (offered: map<string, seq<string>>)
    ensures forall f :: f in offered <==> OfferedSizes(types, f) != {}
    ensures forall f :: f in offered ==> IsLadder(offered[f], OfferedSizes(types, f))
  {
    var seen: map<string, set<string>> := map[];
    for i := 0 to |types|
      invariant SeenSoFar(seen, types[..i])
    {
      seen := SeeOne(seen, types, i);
    }
    assert types[..|types|] == types;
    offered := map[];
    var families := seen.Keys;
    while families != {}
      invariant families <= seen.Keys && offered.Keys == seen.Keys - families
      invariant forall f :: f in offered ==> IsLadder(offered[f], OfferedSizes(types, f))
      decreases |families|
    {
      var f :| f in families;
      OfferedAreKnown(types, f);
      var ladder := LadderOf(seen[f]);
      offered := offered[f := ladder];
      families := families - {f};
    }
  }

  /** Units of the built-in ladder's sizes. */
  const LEGACY_UNITS: seq<nat> := [768, 576, 512, 384, 320, 288, 256, 192, 128, 96, 64, 32, 16, 8, 4, 2, 1]

  lemma LegacyUnits(i: nat)
    requires i < |LEGACY_LADDER| == |LEGACY_UNITS|
    ensures Ec2Entries.SizeUnits(LEGACY_LADDER[i]) == LEGACY_UNITS[i]
  {
    assert LEGACY_LADDER[i] in Ec2Entries.SIZE_UNITS;
  }

  /** The built-in ladder is itself strictly descending. */
  lemma LegacyDescends()
    ensures Descending(LEGACY_LADDER)
  {
    assert |LEGACY_LADDER| == |LEGACY_UNITS| == 17;
    forall i, j | 0 <= i < j < |LEGACY_LADDER| ensures Factor(LEGACY_LADDER[j]) < Factor(LEGACY_LADDER[i]) {
      LegacyUnits(i);
      LegacyUnits(j);
    }
  }
}
