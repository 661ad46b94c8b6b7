/** EC2 commitments as spendable entries: scope rules, size units and one entry's budget. */
module Ec2Entries {
  import opened Wrappers
  import opened Text
  import opened SizeNames
  import opened IntMath
  import opened Recommendations

  datatype Scope = UnknownScope | RegionalScope | ZonalScope(zone: string)

  function NewScope(name: ScopeName, rawZone: string): Scope {
    var zone := Lower(TrimSpace(rawZone));
    if zone != "" || name.ZonalName? then ZonalScope(zone)
    else if name.RegionalName? then RegionalScope
    else UnknownScope
  }

  /** A regional entry covers any zone, a zonal one only its own; an unknown scope is a wildcard. */
  predicate ScopeCovers(entry: Scope, rec: Scope) {
    if entry.UnknownScope? || rec.UnknownScope? then true
    else if entry.RegionalScope? then true
    else if !rec.ZonalScope? then false
    else entry.zone == "" || rec.zone == "" || entry.zone == rec.zone
  }

  /** Quarters of a normalized unit per node of a size. */
  const SIZE_UNITS: map<string, nat> := map[
    "nano" := 1, "micro" := 2, "small" := 4, "medium" := 8, "large" := 16, "xlarge" := 32,
    "2xlarge" := 64, "3xlarge" := 96, "4xlarge" := 128, "6xlarge" := 192, "8xlarge" := 256,
    "9xlarge" := 288, "10xlarge" := 320, "12xlarge" := 384, "16xlarge" := 512, "18xlarge" := 576,
    "24xlarge" := 768, "32xlarge" := 1024, "48xlarge" := 1536, "56xlarge" := 1792,
    "96xlarge" := 3072, "112xlarge" := 3584]

  const EXACT_FAMILIES: set<string> := {
    "g4ad", "g4dn", "g5", "g5g", "g6", "g6e", "g6f", "gr6", "gr6f", "hpc7a", "p5", "inf1", "inf2",
    "u7i-6tb", "u7i-8tb"}

  function SizeUnits(size: string): nat {
    if size in SIZE_UNITS then SIZE_UNITS[size] else 0
  }

  /** Sizes in quarters of a normalized unit: doubling up to one xlarge, then in its multiples. */
  ghost predicate SizeIs(size: string, units: nat) {
    SizeBelowXlarge(size, units) || exists n: nat :: XlargesOf(size, n) && units == 32 * n
  }

  lemma ListedSize(size: string, units: nat)
    requires SizeBelowXlarge(size, units) || exists n: nat :: XlargesOf(size, n) && units == 32 * n
    ensures 0 < units && SizeUnits(size) == units
  {
    if !SizeBelowXlarge(size, units) {
      var n: nat :| XlargesOf(size, n) && units == 32 * n;
      ListedXlarge(size, n);
    }
  }

  lemma ListedXlarge(size: string, n: nat)
    requires XlargesOf(size, n)
    ensures 0 < n && SizeUnits(size) == 32 * n
  {
  }

  lemma KnownSize(size: string)
    requires size in SIZE_UNITS
    ensures SizeBelowXlarge(size, SIZE_UNITS[size]) || XlargesOf(size, SIZE_UNITS[size] / 32)
  {
  }

  lemma SizeRule(size: string, units: nat)
    ensures 0 < units && SizeUnits(size) == units <==> SizeIs(size, units)
  {
    if size in SIZE_UNITS && SIZE_UNITS[size] == units {
      KnownSize(size);
      if !SizeBelowXlarge(size, units) {
        ListedXlarge(size, units / 32);
        assert XlargesOf(size, units / 32) && units == 32 * (units / 32);
      }
    }
    if SizeIs(size, units) {
      ListedSize(size, units);
    }
  }

  predicate FlexibleFamily(prefix: string) {
    Lower(TrimSpace(prefix)) !in EXACT_FAMILIES
  }

  datatype Family = Family(prefix: string, region: string)

  /** Exact instance type in a region. */
  datatype Pool = Pool(resourceType: string, region: string)

  /** Lower-cased family prefix and units of a type whose family and size are flexible. */
  function TypeUnits(resourceType: string): Option<(string, nat)> {
    match Cut(resourceType, '.')
    case None => None
    case Some((prefix, size)) =>
      if prefix == "" || SizeUnits(size) == 0 || !FlexibleFamily(prefix) then None
      else Some((Lower(prefix), SizeUnits(size)))
  }

  datatype Flex = Flex(family: Family, units: nat)

  /** Only Linux/Unix on default tenancy is size-flexible; a wildcard is not. */
  function FlexKey(pool: Pool, platform: string, tenancy: string): Option<Flex> {
    if platform != "linux/unix" || tenancy != "default" then None
    else
      match TypeUnits(pool.resourceType)
      case None => None
      case Some((prefix, units)) => Some(Flex(Family(prefix, pool.region), units))
  }

  /** Units one node of a type weighs: its size units when it has any, else one. */
  function Weight(pool: Pool): (w: nat)
    ensures 0 < w
  {
    match TypeUnits(pool.resourceType)
    case None => 1
    case Some((_, units)) => units
  }

  lemma FlexUnitsAreTheWeight(pool: Pool, platform: string, tenancy: string)
    ensures var f := FlexKey(pool, platform, tenancy); f.Some? ==> f.value.units == Weight(pool)
  {
  }

  /** Units of an entry that pays for any size of its family, zero when it stays exact. */
  function EntryFlex(c: Commitment): Option<Flex> {
    var flex := FlexKey(Pool(c.resourceType, c.region), c.platform, c.tenancy);
    if NewScope(c.scope, c.zone).RegionalScope? then flex else None
  }

  function Wildcards(platform: string, tenancy: string, scope: Scope): nat {
    (if platform == "" then 1 else 0) + (if tenancy == "" then 1 else 0)
    + (if scope.UnknownScope? then 1 else 0) + (if scope == ZonalScope("") then 1 else 0)
  }

  /** The dimensions a recommendation asks for. */
  datatype Demand = Demand(pool: Pool, platform: string, tenancy: string, scope: Scope)

  function DemandOf(rec: Recommendation): Demand {
    Demand(Pool(rec.resourceType, rec.region), rec.platform, rec.tenancy, NewScope(rec.scope, rec.zone))
  }

  function DemandFlex(d: Demand): Option<Flex> {
    FlexKey(d.pool, d.platform, d.tenancy)
  }

  class Entry {
    const pool: Pool
    const platform: string
    const tenancy: string
    const scope: Scope
    const wildcards: nat
    const flex: Option<Flex>
    var count: int
    var flexLeft: int

    constructor (c: Commitment)
      ensures pool == Pool(c.resourceType, c.region)
      ensures platform == c.platform && tenancy == c.tenancy && scope == NewScope(c.scope, c.zone)
      ensures wildcards == Wildcards(platform, tenancy, scope)
      ensures flex == EntryFlex(c)
      ensures count == c.count
      ensures flexLeft == if flex.Some? then Mul(Max(c.count, 0), flex.value.units) else 0
      ensures Valid()
    {
      pool := Pool(c.resourceType, c.region);
      platform, tenancy, scope := c.platform, c.tenancy, NewScope(c.scope, c.zone);
      wildcards := Wildcards(c.platform, c.tenancy, NewScope(c.scope, c.zone));
      flex := EntryFlex(c);
      count := c.count;
      var f := EntryFlex(c);
      flexLeft := if f.Some? then Mul(Max(c.count, 0), f.value.units) else 0;
      new;
      FlexUnitsAreTheWeight(pool, platform, tenancy);
      if flex.Some? {
        MulNonNegative(Max(c.count, 0), flex.value.units);
      }
    }

    /** The units of a flexible entry are those of its own type, and its budget is never negative. */
    ghost predicate Valid()
      reads this
    {
      flex.Some? ==>
        && flex.value.units == Weight(pool)
        && 0 <= flexLeft
    }

    predicate Covers(d: Demand) {
      && (platform == "" || d.platform == "" || platform == d.platform)
      && (tenancy == "" || d.tenancy == "" || tenancy == d.tenancy)
      && ScopeCovers(scope, d.scope)
    }

    /** Whole nodes of the entry's own size still unspent; a partly spent node counts for none. */
    function NodesLeft(): int
      requires Valid()
      reads this
    {
      if flex.Some? then Div(flexLeft, flex.value.units) else count
    }

    /** What is left, in size units. */
    ghost function Measure(): int
      reads this
    {
      if flex.Some? then flexLeft else Mul(count, Weight(pool))
    }

    method Spend(nodes: nat) returns (spent: nat)
      requires Valid() && nodes <= NodesLeft()
      modifies this
      ensures Valid() && spent == nodes
      ensures Measure() == old(Measure()) - Mul(nodes, Weight(pool))
      ensures if flex.Some? then count == old(count) else flexLeft == old(flexLeft)
    {
      if flex.Some? {
        DivFits(flexLeft, flex.value.units);
        MulMonotone(nodes, Div(flexLeft, flex.value.units), flex.value.units);
        flexLeft := flexLeft - Mul(nodes, flex.value.units);
      } else {
        MulSub(count, nodes, Weight(pool));
        count := count - nodes;
      }
      return nodes;
    }
  }

  /** Both kinds of entry hold the same number of whole nodes as their units do. */
  lemma NodesOfMeasure(e: Entry)
    requires e.Valid()
    ensures e.NodesLeft() <= 0 <==> e.Measure() < Weight(e.pool)
    ensures 0 <= e.Measure() ==> e.NodesLeft() == Div(e.Measure(), Weight(e.pool))
  {
    var w := Weight(e.pool);
    MulUnit(w);
    if e.flex.Some? {
      DivZero(e.flexLeft, w);
    } else {
      MulAdd(e.count, 1, w);
      if 0 <= e.Measure() {
        QuotientUnique(e.Measure(), w, e.count);
      }
      if e.count <= 0 {
        MulMonotone(e.count, 0, w);
      } else {
        MulMonotone(1, e.count, w);
      }
    }
  }
}
