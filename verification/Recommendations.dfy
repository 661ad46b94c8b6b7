/** Recommendations, commitments and the money that scales with a recommendation's count. */
module Recommendations {
  import opened Wrappers
  import opened RealMath

  datatype Provider = AWS | Azure | GCP
  datatype Service = EC2 | Compute | RDS | RelationalDB | ElastiCache | Cache | OtherService

  datatype ScopeName = NoScope | RegionalName | ZonalName

  /** Dimensions are already normalized; an empty platform or tenancy is a wildcard. */
  datatype Commitment = Commitment(
    provider: Provider, service: Service, resourceType: string, region: string, count: int,
    platform: string, tenancy: string, scope: ScopeName, zone: string,
    engine: string, deployment: string)

  datatype Money = Money(commitmentCost: real, onDemandCost: real, savings: real,
                         recurring: Option<real>, hourly: Option<real>)

  datatype Recommendation = Recommendation(
    provider: Provider, service: Service, resourceType: string, region: string, count: int,
    platform: string, tenancy: string, scope: ScopeName, zone: string,
    engine: string, deployment: string,
    money: Money)

  function ScaleOption(x: Option<real>, ratio: real): Option<real> {
    match x
    case None => None
    case Some(v) => Some(Times(v, ratio))
  }

  function ScaleCosts(m: Money, ratio: real): Money {
    Money(Times(m.commitmentCost, ratio), Times(m.onDemandCost, ratio), Times(m.savings, ratio),
          ScaleOption(m.recurring, ratio), ScaleOption(m.hourly, ratio))
  }

  /** Shrinks a recommendation to a count in [1, count] and its money with it; anything else fails. */
  function ResizeCount(rec: Recommendation, newCount: int): Result<Recommendation, string> {
    if rec.count <= 0 then Failure("source count has no per-unit cost")
    else if newCount < 1 || newCount > rec.count then Failure("new count out of range")
    else if newCount == rec.count then Success(rec)
    else Success(rec.(count := newCount, money := ScaleCosts(rec.money, Over(newCount as real, rec.count as real))))
  }

  /** The same cost per instance: amounts in proportion to their counts. */
  predicate SamePerUnit(a: real, n: int, b: real, m: int) {
    Times(a, m as real) == Times(b, n as real)
  }

  predicate SamePerUnitOption(a: Option<real>, n: int, b: Option<real>, m: int) {
    match (a, b)
    case (None, None) => true
    case (Some(x), Some(y)) => SamePerUnit(x, n, y, m)
    case _ => false
  }

  predicate SameCostPerUnit(a: Recommendation, b: Recommendation) {
    && SamePerUnit(a.money.commitmentCost, a.count, b.money.commitmentCost, b.count)
    && SamePerUnit(a.money.onDemandCost, a.count, b.money.onDemandCost, b.count)
    && SamePerUnit(a.money.savings, a.count, b.money.savings, b.count)
    && SamePerUnitOption(a.money.recurring, a.count, b.money.recurring, b.count)
    && SamePerUnitOption(a.money.hourly, a.count, b.money.hourly, b.count)
  }

  lemma ScaledPerUnit(x: real, n: int, m: int)
    requires 0 < n
    ensures SamePerUnit(x, n, Times(x, Over(m as real, n as real)), m)
  {
    var ratio := Over(m as real, n as real);
    OverTimes(m as real, n as real);
    assert (x * ratio) * n as real == x * (ratio * n as real);
  }

  lemma ScaledOptionPerUnit(x: Option<real>, n: int, m: int)
    requires 0 < n
    ensures SamePerUnitOption(x, n, ScaleOption(x, Over(m as real, n as real)), m)
  {
    if x.Some? {
      ScaledPerUnit(x.value, n, m);
    }
  }

  /** Count and money stay in step: a resize succeeds exactly within [1, count], keeps everything
      else, and leaves every cost per instance unchanged. */
  lemma ResizeKeepsCostPerUnit(rec: Recommendation, newCount: int)
    ensures var r := ResizeCount(rec, newCount);
      && (r.Success? <==> 1 <= newCount <= rec.count)
      && (r.Success? ==>
            && r.value.count == newCount
            && r.value == rec.(count := newCount, money := r.value.money)
            && SameCostPerUnit(rec, r.value))
  {
    if 1 <= newCount <= rec.count {
      var n, m := rec.count, rec.money;
      ScaledPerUnit(m.commitmentCost, n, newCount);
      ScaledPerUnit(m.onDemandCost, n, newCount);
      ScaledPerUnit(m.savings, n, newCount);
      ScaledOptionPerUnit(m.recurring, n, newCount);
      ScaledOptionPerUnit(m.hourly, n, newCount);
    }
  }

  // ---- Lists ------------------------------------------------------------------------------

  function Resized(rec: Recommendation, count: int): Recommendation {
    var r := ResizeCount(rec, count);
    if r.Success? then r.value else rec
  }

  /** Recommendations that keep nodes, resized; the others are dropped. */
  function PassedOf(recs: seq<Recommendation>, kept: seq<int>): seq<Recommendation>
    requires |kept| == |recs|
  {
    if recs == [] then []
    else
      var last := |recs| - 1;
      PassedOf(recs[..last], kept[..last]) + (if kept[last] <= 0 then [] else [Resized(recs[last], kept[last])])
  }

  function FilteredOf(recs: seq<Recommendation>, kept: seq<int>): seq<Recommendation>
    requires |kept| == |recs|
  {
    if recs == [] then []
    else
      var last := |recs| - 1;
      FilteredOf(recs[..last], kept[..last]) + (if kept[last] <= 0 then [recs[last]] else [])
  }

  lemma OneMoreKept(recs: seq<Recommendation>, i: nat, kept: seq<int>, k: int)
    requires i < |recs| && |kept| == i
    ensures PassedOf(recs[..i + 1], kept + [k])
         == PassedOf(recs[..i], kept) + (if k <= 0 then [] else [Resized(recs[i], k)])
    ensures FilteredOf(recs[..i + 1], kept + [k]) == FilteredOf(recs[..i], kept) + (if k <= 0 then [recs[i]] else [])
  {
    var longer, counts := recs[..i + 1], kept + [k];
    assert longer[..i] == recs[..i] && counts[..i] == kept;
    assert longer[i] == recs[i] && counts[i] == k;
  }
}
