/** The duplicate guard for every service but EC2: budgets by type, region, engine and deployment. */
module Duplicates {
  import opened Wrappers
  import opened Text
  import opened IntMath
  import opened Recommendations
  import opened Budgets

  /** Reservation engine; an empty ElastiCache engine is a wildcard with a budget of its own. */
  datatype Engine = Plain(name: string) | CacheEngine(name: string) | AnyCacheEngine

  const REDIS := CacheEngine("redis")
  const VALKEY := CacheEngine("valkey")

  datatype Key = Key(resourceType: string, region: string, engine: Engine, deployment: string)

  predicate IsCache(provider: Provider, service: Service) {
    provider.AWS? && (service.Cache? || service.ElastiCache?)
  }

  function EngineOf(provider: Provider, service: Service, engine: string): Engine {
    if !IsCache(provider, service) then Plain(engine)
    else if engine == "" then AnyCacheEngine
    else CacheEngine(engine)
  }

  datatype Cover = Cover(engine: Engine, nodes: nat, reserved: nat)

  const VALKEY_PER_REDIS_NODES: nat := 5
  const REDIS_PER_VALKEY_NODES: nat := 4

  /** Reservation engines that cover a node of an engine, in consumption order. */
  function CoveringEngines(engine: Engine): seq<Cover> {
    match engine
    case AnyCacheEngine => [Cover(AnyCacheEngine, 1, 1)]
    case CacheEngine("valkey") =>
      [Cover(VALKEY, 1, 1), Cover(REDIS, VALKEY_PER_REDIS_NODES, REDIS_PER_VALKEY_NODES), Cover(AnyCacheEngine, 1, 1)]
    case _ => [Cover(engine, 1, 1), Cover(AnyCacheEngine, 1, 1)]
  }

  // ---- RDS size units ---------------------------------------------------------------------

  /** Quarters of a normalized unit per instance of a size. */
  const RDS_UNITS: map<string, nat> := map[
    "nano" := 1, "micro" := 2, "small" := 4, "medium" := 8, "large" := 16, "xlarge" := 32,
    "2xlarge" := 64, "4xlarge" := 128, "6xlarge" := 192, "8xlarge" := 256, "10xlarge" := 320,
    "12xlarge" := 384, "16xlarge" := 512, "24xlarge" := 768, "32xlarge" := 1024]

  function Dots(s: string): nat {
    if s == "" then 0 else (if s[0] == '.' then 1 else 0) + Dots(s[1..])
  }

  /** The parts before and after the last dot. */
  function CutLast(s: string): (r: (string, string))
    requires 0 < Dots(s)
  {
    if Dots(s[1..]) == 0 && s[0] == '.' then ("", s[1..])
    else
      var (before, after) := CutLast(s[1..]);
      ([s[0]] + before, after)
  }

  /** Family and size units of an instance class with a known size, such as db.r6g.large. */
  function RdsClass(resourceType: string): Option<(string, nat)> {
    if Dots(resourceType) < 2 then None
    else
      var (family, size) := CutLast(resourceType);
      if size !in RDS_UNITS || RDS_UNITS[size] == 0 then None else Some((family, RDS_UNITS[size]))
  }

  predicate FlexibleEngine(engine: string) {
    var e := Lower(TrimSpace(engine));
    e == "mysql" || e == "mariadb" || e == "postgres" || e == "postgresql" || "aurora" <= e
  }

  /** Family key and size units where a reservation pays for any size of its family. */
  function RdsFlexKey(provider: Provider, service: Service, engine: Engine, resourceType: string)
    : (r: Option<(string, nat)>)
    ensures r.Some? ==> 0 < r.value.1
  {
    if !provider.AWS? || !(service.RDS? || service.RelationalDB?) || !engine.Plain? || !FlexibleEngine(engine.name)
    then None
    else
      match RdsClass(resourceType)
      case None => None
      case Some((family, units)) => if units == 0 then None else Some((Lower(family) + ".*", units))
  }

  /** A Multi-AZ node runs two instances. */
  function DeploymentFactor(deployment: string): nat {
    if deployment == "multiaz" then 2 else 1
  }

  /** Single-AZ and Multi-AZ share one family budget; any other option keeps its own. */
  function BudgetDeployment(deployment: string): string {
    if deployment == "singleaz" || deployment == "multiaz" then "singleaz|multiaz" else deployment
  }

  // ---- Budgets ----------------------------------------------------------------------------

  /** The budget a commitment adds to, and the units one of its nodes adds. */
  function BudgetOf(c: Commitment): (Key, nat) {
    var engine := EngineOf(c.provider, c.service, c.engine);
    match RdsFlexKey(c.provider, c.service, engine, c.resourceType)
    case None => (Key(c.resourceType, c.region, engine, c.deployment), 1)
    case Some((family, units)) =>
      (Key(family, c.region, engine, BudgetDeployment(c.deployment)), Mul(units, DeploymentFactor(c.deployment)))
  }

  /** Units bought for one budget. */
  function Bought(cs: seq<Commitment>, key: Key): int {
    if cs == [] then 0
    else
      var c := cs[|cs| - 1];
      Bought(cs[..|cs| - 1], key) + (if BudgetOf(c).0 == key then Mul(c.count, BudgetOf(c).1) else 0)
  }

  function OfferOf(resourceType: string, region: string, deployment: string, c: Cover): Offer<Key> {
    Offer(Key(resourceType, region, c.engine, deployment), c.nodes, c.reserved)
  }

  function CacheOffers(resourceType: string, region: string, deployment: string, covers: seq<Cover>): seq<Offer<Key>> {
    seq(|covers|, i requires 0 <= i < |covers| => OfferOf(resourceType, region, deployment, covers[i]))
  }

  /** The budgets that may pay for a recommendation, in the order they are drawn on. */
  function OffersOf(rec: Recommendation): seq<Offer<Key>> {
    var engine := EngineOf(rec.provider, rec.service, rec.engine);
    match RdsFlexKey(rec.provider, rec.service, engine, rec.resourceType)
    case Some((family, units)) =>
      [Offer(Key(family, rec.region, engine, BudgetDeployment(rec.deployment)), 1,
             Mul(units, DeploymentFactor(rec.deployment)))]
    case None =>
      if IsCache(rec.provider, rec.service)
      then CacheOffers(rec.resourceType, rec.region, rec.deployment, CoveringEngines(engine))
      else [Offer(Key(rec.resourceType, rec.region, engine, rec.deployment), 1, 1)]
  }

  lemma OffersAreValid(rec: Recommendation)
    ensures forall i :: 0 <= i < |OffersOf(rec)| ==> ValidOffer(OffersOf(rec)[i])
    ensures DistinctKeys(OffersOf(rec))
  {
    var engine := EngineOf(rec.provider, rec.service, rec.engine);
    match RdsFlexKey(rec.provider, rec.service, engine, rec.resourceType) {
      case Some((family, units)) =>
        MulUnit(units);
        MulMonotone(1, units, DeploymentFactor(rec.deployment));
        MulUnit(DeploymentFactor(rec.deployment));
      case None =>
    }
  }

  class ExistingBudgets {
    var left: map<Key, int>

    /** Each budget holds the units of the commitments that share its key. */
    constructor (commitments: seq<Commitment>)
      ensures forall key :: At(left, key) == Bought(commitments, key)
    {
      var m: map<Key, int> := map[];
      for i := 0 to |commitments|
        invariant forall key :: At(m, key) == Bought(commitments[..i], key)
      {
        var c := commitments[i];
        var (key, units) := BudgetOf(c);
        ghost var before := m;
        m := m[key := At(m, key) + Mul(c.count, units)];
        assert commitments[..i + 1][..i] == commitments[..i];
        forall k ensures At(m, k) == Bought(commitments[..i + 1], k) {
          assert At(before, k) == Bought(commitments[..i], k);
        }
      }
      assert commitments[..|commitments|] == commitments;
      left := m;
    }

    /** Draws on the offers in order for the nodes wanted. */
    method Draw(offers: seq<Offer<Key>>, want: nat) returns (remaining: nat, ghost credits: seq<Credit<Key>>)
      requires forall i :: 0 <= i < |offers| ==> ValidOffer(offers[i])
      modifies this
      ensures Charged(left, remaining, credits) == Charge(old(left), offers, want)
    {
      remaining, credits := want, [];
      for i := 0 to |offers|
        invariant Charged(left, remaining, credits) == Charge(old(left), offers[..i], want)
      {
        var o := offers[i];
        OneMoreOffer(old(left), offers, want, i);
        ghost var c := CreditOf(left, o, remaining);
        var available := At(left, o.key);
        if available > 0 {
          var (covered, spent) := Consume(available, remaining, o.nodes, o.reserved);
          ConsumeRounds(available, remaining, o.nodes, o.reserved);
          remaining := remaining - covered;
          left := left[o.key := available - spent];
        }
        credits := credits + [c];
      }
      assert offers[..|offers|] == offers;
    }

    /** Draws on the budgets that may pay and resizes the recommendation once to what is left. */
    method Adjust(rec: Recommendation)
      returns (r: Result<Option<Recommendation>, string>, ghost kept: int, ghost credits: seq<Credit<Key>>)
      modifies this
      ensures rec.count <= 0 ==> kept == 0 && credits == [] && left == old(left)
      ensures 0 < rec.count ==>
        && (forall i :: 0 <= i < |OffersOf(rec)| ==> ValidOffer(OffersOf(rec)[i]))
        && Charged(left, kept, credits) == Charge(old(left), OffersOf(rec), rec.count)
      ensures 0 <= kept <= Max(rec.count, 0)
      ensures 0 < kept ==> ResizeCount(rec, kept).Success?
      ensures r == if kept == 0 then Success(None) else Success(Some(ResizeCount(rec, kept).value))
    {
      if rec.count <= 0 {
        return Success(None), 0, [];
      }
      OffersAreValid(rec);
      var remaining;
      remaining, credits := Draw(OffersOf(rec), rec.count);
      kept := remaining;
      if remaining == 0 {
        r := Success(None);
      } else {
        match ResizeCount(rec, remaining) {
          case Failure(e) => r := Failure(e);
          case Success(resized) => r := Success(Some(resized));
        }
      }
    }
  }

  lemma OneMoreOffer(left: map<Key, int>, offers: seq<Offer<Key>>, want: nat, i: nat)
    requires i < |offers| && forall k :: 0 <= k < |offers| ==> ValidOffer(offers[k])
    ensures var before := Charge(left, offers[..i], want);
      var c := CreditOf(before.left, offers[i], before.remaining);
      c.covered <= before.remaining &&
      Charge(left, offers[..i + 1], want)
        == Charged(Spent(before.left, c), before.remaining - c.covered, before.credits + [c])
  {
    assert offers[..i + 1][..i] == offers[..i];
    var before := Charge(left, offers[..i], want);
    CreditFacts(before.left, offers[i], before.remaining);
  }
}
