/** Which reservation pays for which recommendation outside EC2, and for how many nodes, in the terms
    of the reservation itself. */
module DuplicateRules {
  import opened Wrappers
  import opened Text
  import opened IntMath
  import opened SizeNames
  import opened Recommendations
  import opened Budgets
  import opened Duplicates

  // ---- Database classes -------------------------------------------------------------------

  ghost predicate DatabaseSize(size: string, units: nat) {
    || SizeBelowXlarge(size, units)
    || exists n: nat :: XlargesOf(size, n) && n in DATABASE_XLARGES && units == 32 * n
  }

  const DATABASE_XLARGES: set<nat> := {1, 2, 4, 6, 8, 10, 12, 16, 24, 32}

  /** A class with a known size: the family is everything before the last dot, and has a dot itself. */
  ghost predicate ClassOf(resourceType: string, family: string, units: nat) {
    exists size ::
      && resourceType == family + "." + size && '.' in family && '.' !in size
      && DatabaseSize(size, units)
  }

  lemma ListedSize(size: string, units: nat)
    requires DatabaseSize(size, units)
    ensures size in RDS_UNITS && RDS_UNITS[size] == units && 0 < units
  {
    if !SizeBelowXlarge(size, units) {
      var n: nat :| XlargesOf(size, n) && n in DATABASE_XLARGES && units == 32 * n;
      ListedXlarge(size, n);
    }
  }

  lemma ListedXlarge(size: string, n: nat)
    requires XlargesOf(size, n) && n in DATABASE_XLARGES
    ensures size in RDS_UNITS && RDS_UNITS[size] == 32 * n
  {
  }

  lemma KnownSize(size: string)
    requires size in RDS_UNITS
    ensures SizeBelowXlarge(size, RDS_UNITS[size])
            || (XlargesOf(size, RDS_UNITS[size] / 32) && RDS_UNITS[size] / 32 in DATABASE_XLARGES
                && RDS_UNITS[size] % 32 == 0)
  {
  }

  lemma SizeRule(size: string, units: nat)
    ensures 0 < units && size in RDS_UNITS && RDS_UNITS[size] == units <==> DatabaseSize(size, units)
  {
    if size in RDS_UNITS && RDS_UNITS[size] == units {
      KnownSize(size);
      assert SizeBelowXlarge(size, units) || units == 32 * (units / 32);
    }
    if DatabaseSize(size, units) {
      ListedSize(size, units);
    }
  }

  lemma {:induction false} DotsCount(s: string)
    ensures Dots(s) == 0 <==> '.' !in s
  {
    if s != "" {
      DotsCount(s[1..]);
      assert s == [s[0]] + s[1..];
    }
  }

  lemma {:induction false} LastCut(s: string)
    requires 0 < Dots(s)
    ensures var (before, after) := CutLast(s);
      && s == before + "." + after && '.' !in after
      && Dots(before) == Dots(s) - 1
  {
    DotsCount(s[1..]);
    if Dots(s[1..]) == 0 && s[0] == '.' {
      assert s == "" + "." + s[1..];
    } else {
      LastCut(s[1..]);
      var (before, after) := CutLast(s[1..]);
      assert ([s[0]] + before)[1..] == before;
      assert s == [s[0]] + s[1..];
    }
  }

  lemma LastCutUnique(s: string, a: string, b: string, c: string, d: string)
    requires s == a + "." + b && s == c + "." + d && '.' !in b && '.' !in d
    ensures a == c && b == d
  {
    assert s[|a|] == '.' && s[|c|] == '.';
    assert forall i :: |a| < i < |s| ==> s[i] == b[i - |a| - 1] && s[i] != '.';
    assert forall i :: |c| < i < |s| ==> s[i] == d[i - |c| - 1] && s[i] != '.';
    assert a == s[..|a|] && c == s[..|c|] && b == s[|a| + 1..] && d == s[|c| + 1..];
  }

  lemma ClassRule(resourceType: string, family: string, units: nat)
    ensures RdsClass(resourceType) == Some((family, units)) <==> ClassOf(resourceType, family, units)
  {
    DotsCount(resourceType);
    if ClassOf(resourceType, family, units) {
      ClassHasDots(resourceType, family, units);
    }
    if 0 < Dots(resourceType) {
      LastCut(resourceType);
      var (before, after) := CutLast(resourceType);
      DotsCount(before);
      SizeRule(after, units);
      if ClassOf(resourceType, family, units) {
        var size :| resourceType == family + "." + size && '.' in family && '.' !in size && DatabaseSize(size, units);
        LastCutUnique(resourceType, before, after, family, size);
      }
    }
  }

  lemma ClassHasDots(resourceType: string, family: string, units: nat)
    requires ClassOf(resourceType, family, units)
    ensures '.' in resourceType
  {
    var size :| resourceType == family + "." + size && '.' in family && '.' !in size && DatabaseSize(size, units);
    assert resourceType[|family|] == '.';
  }

  predicate EngineName(e: string) {
    e == "mysql" || e == "mariadb" || e == "postgres" || e == "postgresql" || "aurora" <= e
  }

  /** Engines whose reservations pay for any size of a family, in any case and white space around. */
  ghost predicate SizeFlexibleEngine(engine: string) {
    exists t, e :: IsTrimmed(engine, t) && SameButCase(t, e) && EngineName(e)
  }

  lemma SmallEngine(e: string)
    requires EngineName(e)
    ensures EngineName(Lower(e))
  {
    if "aurora" <= e {
      SmallPrefix(e, "aurora");
    } else {
      SmallStays(e);
    }
  }

  lemma EngineRule(engine: string)
    ensures FlexibleEngine(engine) <==> SizeFlexibleEngine(engine)
  {
    var t := TrimSpace(engine);
    TrimSpaceTrims(engine);
    LowerIsSmall(t);
    if EngineName(Lower(t)) {
      assert IsTrimmed(engine, t) && SameButCase(t, Lower(t)) && EngineName(Lower(t));
    }
    if SizeFlexibleEngine(engine) {
      var u, e :| IsTrimmed(engine, u) && SameButCase(u, e) && EngineName(e);
      TrimUnique(engine, u, t);
      LowerDecidesCase(t, e);
      SmallEngine(e);
    }
    assert FlexibleEngine(engine) == EngineName(Lower(t));
  }

  /** A database class whose reservation pays for any size of its family. */
  ghost predicate SizeFlexible(provider: Provider, service: Service, engine: string, resourceType: string,
                               family: string, units: nat)
  {
    && provider == AWS && (service == RDS || service == RelationalDB)
    && SizeFlexibleEngine(engine)
    && exists f :: ClassOf(resourceType, f, units) && family == Lower(f)
  }

  lemma FlexRule(provider: Provider, service: Service, engine: string, resourceType: string, family: string, units: nat)
    ensures RdsFlexKey(provider, service, Plain(engine), resourceType) == Some((family + ".*", units))
            <==> SizeFlexible(provider, service, engine, resourceType, family, units)
  {
    EngineRule(engine);
    if RdsClass(resourceType).Some? {
      var (f, u) := RdsClass(resourceType).value;
      ClassRule(resourceType, f, u);
      SameStem(Lower(f), family);
    }
    if SizeFlexible(provider, service, engine, resourceType, family, units) {
      var f :| ClassOf(resourceType, f, units) && family == Lower(f);
      ClassRule(resourceType, f, units);
    }
  }

  lemma SameStem(a: string, b: string)
    ensures a + ".*" == b + ".*" <==> a == b
  {
    assert (a + ".*")[..|a + ".*"| - 2] == a && (b + ".*")[..|b + ".*"| - 2] == b;
  }

  // ---- Who pays for whom ------------------------------------------------------------------

  /** A node of the recommendation may be paid for from the budget the reservation adds to. */
  ghost predicate MayPay(c: Commitment, rec: Recommendation) {
    exists i :: 0 <= i < |OffersOf(rec)| && OffersOf(rec)[i].key == BudgetOf(c).0
  }

  predicate ForCache(provider: Provider, service: Service) {
    provider == AWS && (service == ElastiCache || service == Cache)
  }

  /** Single-AZ and Multi-AZ nodes are paid for from one budget; its name stands for both. */
  predicate SharedDeployment(a: string, b: string) {
    a == b || (EitherZone(a) && EitherZone(b))
  }

  predicate EitherZone(deployment: string) {
    deployment == "singleaz" || deployment == "multiaz" || deployment == "singleaz|multiaz"
  }

  /** A cache reservation pays for its own engine; one of unknown engine for any, and Redis for Valkey. */
  predicate EnginePays(reserved: string, used: string) {
    reserved == "" || reserved == used || (reserved == "redis" && used == "valkey")
  }

  lemma CachePays(c: Commitment, rec: Recommendation)
    requires ForCache(c.provider, c.service) && ForCache(rec.provider, rec.service)
    ensures MayPay(c, rec) <==>
      && c.resourceType == rec.resourceType && c.region == rec.region && c.deployment == rec.deployment
      && EnginePays(c.engine, rec.engine)
  {
    var covers := CoveringEngines(EngineOf(rec.provider, rec.service, rec.engine));
    assert OffersOf(rec) == CacheOffers(rec.resourceType, rec.region, rec.deployment, covers);
    forall i | 0 <= i < |covers|
      ensures OffersOf(rec)[i].key == Key(rec.resourceType, rec.region, covers[i].engine, rec.deployment)
    {
    }
    CoversRule(c.engine, rec.engine);
    if EnginePays(c.engine, rec.engine) {
      var i :| 0 <= i < |covers| && covers[i].engine == EngineOf(c.provider, c.service, c.engine);
      assert OffersOf(rec)[i].key == Key(rec.resourceType, rec.region, covers[i].engine, rec.deployment);
    }
  }

  lemma CoversRule(reserved: string, used: string)
    ensures var covers := CoveringEngines(EngineOf(AWS, Cache, used));
      EnginePays(reserved, used) <==>
        exists i :: 0 <= i < |covers| && covers[i].engine == EngineOf(AWS, Cache, reserved)
  {
    var covers := CoveringEngines(EngineOf(AWS, Cache, used));
    assert covers[|covers| - 1].engine == AnyCacheEngine;
    assert used != "" ==> covers[0].engine == CacheEngine(used);
    assert used == "valkey" ==> covers[1].engine == CacheEngine("redis");
  }

  /** The key of a size-flexible class names its family, whichever size it is. */
  function DatabaseKey(family: string, region: string, engine: string, deployment: string): Key {
    Key(family + ".*", region, Plain(engine), BudgetDeployment(deployment))
  }

  lemma DatabaseKeys(f: string, a: string, e: string, d: string, g: string, b: string, h: string, k: string)
    ensures DatabaseKey(f, a, e, d) == DatabaseKey(g, b, h, k) <==>
      f == g && a == b && e == h && SharedDeployment(d, k)
  {
    SameStem(f, g);
    DeploymentsShared(d, k);
  }

  lemma DatabaseOffer(rec: Recommendation, f: string, v: nat)
    requires SizeFlexible(rec.provider, rec.service, rec.engine, rec.resourceType, f, v)
    ensures OffersOf(rec) ==
      [Offer(DatabaseKey(f, rec.region, rec.engine, rec.deployment), 1,
             if rec.deployment == "multiaz" then v + v else v)]
  {
    FlexRule(rec.provider, rec.service, rec.engine, rec.resourceType, f, v);
    MulUnit(v);
    assert Mul(v, 2) == v + v;
  }

  lemma DatabaseBudget(c: Commitment, f: string, u: nat)
    requires SizeFlexible(c.provider, c.service, c.engine, c.resourceType, f, u)
    ensures BudgetOf(c) ==
      (DatabaseKey(f, c.region, c.engine, c.deployment), if c.deployment == "multiaz" then u + u else u)
  {
    FlexRule(c.provider, c.service, c.engine, c.resourceType, f, u);
    MulUnit(u);
    assert Mul(u, 2) == u + u;
  }

  lemma DatabasePays(c: Commitment, rec: Recommendation, f: string, u: nat, g: string, v: nat)
    requires SizeFlexible(c.provider, c.service, c.engine, c.resourceType, f, u)
    requires SizeFlexible(rec.provider, rec.service, rec.engine, rec.resourceType, g, v)
    ensures MayPay(c, rec) <==>
      f == g && c.region == rec.region && c.engine == rec.engine && SharedDeployment(c.deployment, rec.deployment)
  {
    DatabaseBudget(c, f, u);
    DatabaseOffer(rec, g, v);
    DatabaseKeys(f, c.region, c.engine, c.deployment, g, rec.region, rec.engine, rec.deployment);
    OneOffer(c, rec, OffersOf(rec)[0]);
  }

  lemma OneOffer(c: Commitment, rec: Recommendation, o: Offer<Key>)
    requires OffersOf(rec) == [o]
    ensures MayPay(c, rec) <==> o.key == BudgetOf(c).0
  {
    if o.key == BudgetOf(c).0 {
      assert OffersOf(rec)[0].key == BudgetOf(c).0;
    }
  }

  lemma DeploymentsShared(a: string, b: string)
    ensures BudgetDeployment(a) == BudgetDeployment(b) <==> SharedDeployment(a, b)
  {
  }

  /** Anything else is paid for one for one, by the same type, region, engine and deployment. */
  lemma OthersPay(c: Commitment, rec: Recommendation)
    requires !ForCache(c.provider, c.service) && !ForCache(rec.provider, rec.service)
    requires forall f, u: nat :: !SizeFlexible(c.provider, c.service, c.engine, c.resourceType, f, u)
    requires forall f, u: nat :: !SizeFlexible(rec.provider, rec.service, rec.engine, rec.resourceType, f, u)
    ensures BudgetOf(c).1 == 1 && OffersOf(rec) == [Offer(OffersOf(rec)[0].key, 1, 1)]
    ensures MayPay(c, rec) <==>
      && c.resourceType == rec.resourceType && c.region == rec.region && c.engine == rec.engine
      && c.deployment == rec.deployment
  {
    NotFlexible(c.provider, c.service, c.engine, c.resourceType);
    NotFlexible(rec.provider, rec.service, rec.engine, rec.resourceType);
    assert OffersOf(rec)[0].key == Key(rec.resourceType, rec.region, Plain(rec.engine), rec.deployment);
  }

  lemma NotFlexible(provider: Provider, service: Service, engine: string, resourceType: string)
    requires forall f, u: nat :: !SizeFlexible(provider, service, engine, resourceType, f, u)
    ensures RdsFlexKey(provider, service, Plain(engine), resourceType) == None
  {
    var r := RdsFlexKey(provider, service, Plain(engine), resourceType);
    if r.Some? {
      var (f, u) := RdsClass(resourceType).value;
      FlexRule(provider, service, engine, resourceType, Lower(f), u);
    }
  }

  // ---- For how many nodes -----------------------------------------------------------------

  /** A budget pays for every node wanted, or for as many as its units buy at their price. */
  ghost predicate PaysFor(held: int, price: int, want: int, remaining: int) {
    && 0 <= remaining <= want
    && Mul(want - remaining, price) <= held
    && (0 < remaining ==> held < Mul(want - remaining + 1, price))
  }

  lemma NodesCovered<K>(left: map<K, int>, o: Offer<K>, want: nat)
    requires ValidOffer(o) && 0 <= At(left, o.key)
    ensures var paid := CreditOf(left, o, want).covered;
      && paid <= want
      && Mul(paid, o.reserved) <= Mul(At(left, o.key), o.nodes)
      && (paid < want ==> Mul(At(left, o.key), o.nodes) < Mul(paid + 1, o.reserved))
  {
    var held := At(left, o.key);
    MulUnit(o.reserved);
    MulUnit(o.nodes);
    if 0 < held {
      ConsumeRounds(held, want, o.nodes, o.reserved);
      MulMonotone(CreditOf(left, o, want).spent, held, o.nodes);
    }
  }

  lemma OneOfferPays(left: map<Key, int>, o: Offer<Key>, want: nat)
    requires ValidOffer(o) && o.nodes == 1 && 0 <= At(left, o.key)
    ensures PaysFor(At(left, o.key), o.reserved, want, Charge(left, [o], want).remaining)
  {
    assert [o][..0] == [];
    NodesCovered(left, o, want);
    MulUnit(At(left, o.key));
  }

  /** The budgets of one reservation and nothing else. */
  ghost predicate Holds(left: map<Key, int>, c: Commitment) {
    forall key :: At(left, key) == if key == BudgetOf(c).0 then Mul(c.count, BudgetOf(c).1) else 0
  }

  lemma BudgetsHold(left: map<Key, int>, c: Commitment)
    ensures Holds(left, c) <==> forall key :: At(left, key) == Bought([c], key)
  {
    assert [c][..0] == [];
    assert forall key :: Bought([c], key) == if key == BudgetOf(c).0 then Mul(c.count, BudgetOf(c).1) else 0;
  }

  /** Size units of so many nodes of a class: a Multi-AZ node runs two instances. */
  function InstanceUnits(deployment: string, units: nat): nat {
    if deployment == "multiaz" then units + units else units
  }

  /** A size-flexible database reservation pays for as many nodes of its family as its units buy. */
  lemma DatabaseUnitsPay(c: Commitment, rec: Recommendation, f: string, u: nat, v: nat, left: map<Key, int>)
    requires SizeFlexible(c.provider, c.service, c.engine, c.resourceType, f, u) && 0 <= c.count
    requires SizeFlexible(rec.provider, rec.service, rec.engine, rec.resourceType, f, v) && 0 <= rec.count
    requires MayPay(c, rec) && Holds(left, c)
    ensures forall i :: 0 <= i < |OffersOf(rec)| ==> ValidOffer(OffersOf(rec)[i])
    ensures PaysFor(Mul(c.count, InstanceUnits(c.deployment, u)), InstanceUnits(rec.deployment, v), rec.count,
                    Charge(left, OffersOf(rec), rec.count).remaining)
  {
    OffersAreValid(rec);
    DatabaseBudget(c, f, u);
    DatabaseOffer(rec, f, v);
    var o := OffersOf(rec)[0];
    assert OffersOf(rec) == [o];
    OneOffer(c, rec, o);
    MulNonNegative(c.count, InstanceUnits(c.deployment, u));
    OneOfferPays(left, o, rec.count);
  }

  /** A reservation and a recommendation that differ at most in deployment and count. */
  ghost predicate SameClass(c: Commitment, rec: Recommendation) {
    && c.provider == rec.provider && c.service == rec.service && c.engine == rec.engine
    && c.resourceType == rec.resourceType && c.region == rec.region
  }

  /** One Multi-AZ reservation pays for exactly two Single-AZ nodes of its class, and two Single-AZ
      reservations for exactly one Multi-AZ node. */
  lemma MultiAzIsTwoSingle(c: Commitment, rec: Recommendation, f: string, u: nat, left: map<Key, int>)
    requires SizeFlexible(c.provider, c.service, c.engine, c.resourceType, f, u) && SameClass(c, rec)
    requires Holds(left, c) && 0 <= rec.count
    ensures forall i :: 0 <= i < |OffersOf(rec)| ==> ValidOffer(OffersOf(rec)[i])
    ensures var remaining := Charge(left, OffersOf(rec), rec.count).remaining;
      && (c.deployment == "multiaz" && rec.deployment == "singleaz" && c.count == 1 && 2 <= rec.count ==>
            remaining == rec.count - 2)
      && (c.deployment == "singleaz" && rec.deployment == "multiaz" && c.count == 2 && 1 <= rec.count ==>
            remaining == rec.count - 1)
  {
    OffersAreValid(rec);
    if 0 <= c.count && SharedDeployment(c.deployment, rec.deployment) {
      DatabasePays(c, rec, f, u, f, u);
      DatabaseUnitsPay(c, rec, f, u, u, left);
      FlexRule(c.provider, c.service, c.engine, c.resourceType, f, u);
      InstancesPaid(c.deployment, c.count, rec.deployment, rec.count, u,
                    Charge(left, OffersOf(rec), rec.count).remaining);
    }
  }

  lemma InstancesPaid(reserved: string, count: nat, used: string, want: nat, u: nat, r: int)
    requires 0 < u && PaysFor(Mul(count, InstanceUnits(reserved, u)), InstanceUnits(used, u), want, r)
    ensures reserved == "multiaz" && used == "singleaz" && count == 1 && 2 <= want ==> r == want - 2
    ensures reserved == "singleaz" && used == "multiaz" && count == 2 && 1 <= want ==> r == want - 1
  {
    MulUnit(u + u);
    assert Mul(2, u) == u + u;
    if reserved == "multiaz" && used == "singleaz" && count == 1 && 2 <= want {
      NodesPaid(u + u, u, 2, want, r);
    }
    if reserved == "singleaz" && used == "multiaz" && count == 2 && 1 <= want {
      NodesPaid(u + u, u + u, 1, want, r);
    }
  }

  /** Units worth exactly k nodes pay for k. */
  lemma NodesPaid(held: nat, price: nat, k: nat, want: nat, r: int)
    requires 0 < price && held == Mul(k, price) && k <= want && PaysFor(held, price, want, r)
    ensures r == want - k
  {
    if want - r < k {
      MulMonotone(want - r + 1, k, price);
    }
    if k < want - r {
      MulMonotone(k + 1, want - r, price);
      MulAdd(k, 1, price);
      MulUnit(price);
    }
  }

  lemma {:induction false} NonePays<K>(left: map<K, int>, offers: seq<Offer<K>>, want: nat)
    requires forall k :: 0 <= k < |offers| ==> ValidOffer(offers[k]) && At(left, offers[k].key) == 0
    ensures Charge(left, offers, want).remaining == want && Charge(left, offers, want).left == left
  {
    if offers != [] {
      NonePays(left, offers[..|offers| - 1], want);
    }
  }

  /** Of all offers only one has a budget. */
  lemma {:induction false} OnlyOnePays<K>(left: map<K, int>, offers: seq<Offer<K>>, want: nat, i: nat)
    requires i < |offers| && DistinctKeys(offers) && forall k :: 0 <= k < |offers| ==> ValidOffer(offers[k])
    requires forall k :: 0 <= k < |offers| && k != i ==> At(left, offers[k].key) == 0
    ensures Charge(left, offers, want).remaining == want - CreditOf(left, offers[i], want).covered
    ensures Charge(left, offers, want).left == Spent(left, CreditOf(left, offers[i], want))
  {
    var last := |offers| - 1;
    if i == last {
      NonePays(left, offers[..last], want);
    } else {
      OnlyOnePays(left, offers[..last], want, i);
      var c := CreditOf(left, offers[i], want);
      assert c.offer.key == offers[i].key != offers[last].key;
      assert At(Spent(left, c), offers[last].key) == 0;
    }
  }

  /** Nodes paid for so many units of an offer: as many as fit, up to those wanted. */
  ghost predicate Fills(paid: int, held: int, want: int, nodes: int, reserved: int) {
    && 0 <= paid <= want
    && Mul(paid, reserved) <= Mul(held, nodes)
    && (paid < want ==> Mul(held, nodes) < Mul(paid + 1, reserved))
  }

  lemma OneForOne(paid: int, held: int, want: int)
    requires Fills(paid, held, want, 1, 1)
    ensures paid == Min(held, want)
  {
    MulUnit(paid);
    MulUnit(held);
    MulUnit(paid + 1);
  }

  lemma FiveForFour(paid: int, held: int, want: int)
    requires Fills(paid, held, want, 5, 4)
    ensures 0 <= paid <= want && 4 * paid <= 5 * held && (paid < want ==> 5 * held < 4 * (paid + 1))
  {
    assert Mul(paid, 4) == 4 * paid && Mul(held, 5) == 5 * held && Mul(paid + 1, 4) == 4 * (paid + 1);
  }

  lemma CacheBudget(c: Commitment)
    requires ForCache(c.provider, c.service)
    ensures BudgetOf(c) ==
      (Key(c.resourceType, c.region, EngineOf(c.provider, c.service, c.engine), c.deployment), 1)
  {
  }

  /** Of the budgets that may pay for a node a cache reservation fills one. */
  lemma CacheFillsOne(c: Commitment, rec: Recommendation, left: map<Key, int>) returns (o: Offer<Key>)
    requires ForCache(c.provider, c.service) && ForCache(rec.provider, rec.service)
    requires MayPay(c, rec) && Holds(left, c) && 0 <= c.count && 0 <= rec.count
    ensures forall i :: 0 <= i < |OffersOf(rec)| ==> ValidOffer(OffersOf(rec)[i])
    ensures Fills(rec.count - Charge(left, OffersOf(rec), rec.count).remaining, c.count, rec.count, o.nodes, o.reserved)
    ensures if c.engine == "redis" && rec.engine == "valkey" then o.nodes == 5 && o.reserved == 4
            else o.nodes == o.reserved == 1
  {
    OffersAreValid(rec);
    var i :| 0 <= i < |OffersOf(rec)| && OffersOf(rec)[i].key == BudgetOf(c).0;
    CacheBudget(c);
    MulUnit(c.count);
    OnlyOnePays(left, OffersOf(rec), rec.count, i);
    CacheOffer(rec, i, c.engine);
    o := OffersOf(rec)[i];
    assert At(left, o.key) == c.count;
    NodesCovered(left, o, rec.count);
  }

  /** A cache reservation pays for as many nodes as it has, and Redis for five Valkey nodes with four
      of its own, rounded down. */
  lemma CacheNodesPay(c: Commitment, rec: Recommendation, left: map<Key, int>) returns (paid: int)
    requires ForCache(c.provider, c.service) && ForCache(rec.provider, rec.service)
    requires MayPay(c, rec) && Holds(left, c) && 0 <= c.count && 0 <= rec.count
    ensures forall i :: 0 <= i < |OffersOf(rec)| ==> ValidOffer(OffersOf(rec)[i])
    ensures paid == rec.count - Charge(left, OffersOf(rec), rec.count).remaining
    ensures if c.engine == "redis" && rec.engine == "valkey" then
        0 <= paid <= rec.count && 4 * paid <= 5 * c.count && (paid < rec.count ==> 5 * c.count < 4 * (paid + 1))
      else paid == Min(c.count, rec.count)
  {
    var o := CacheFillsOne(c, rec, left);
    paid := rec.count - Charge(left, OffersOf(rec), rec.count).remaining;
    if c.engine == "redis" && rec.engine == "valkey" {
      FiveForFour(paid, c.count, rec.count);
    } else {
      OneForOne(paid, c.count, rec.count);
    }
  }

  lemma CacheOffer(rec: Recommendation, i: nat, reserved: string)
    requires ForCache(rec.provider, rec.service) && i < |OffersOf(rec)|
    requires OffersOf(rec)[i].key.engine == EngineOf(rec.provider, rec.service, reserved)
    ensures var o := OffersOf(rec)[i];
      if reserved == "redis" && rec.engine == "valkey" then o.nodes == 5 && o.reserved == 4
      else o.nodes == o.reserved == 1
  {
    var covers := CoveringEngines(EngineOf(rec.provider, rec.service, rec.engine));
    assert OffersOf(rec) == CacheOffers(rec.resourceType, rec.region, rec.deployment, covers);
    assert OffersOf(rec)[i] == OfferOf(rec.resourceType, rec.region, rec.deployment, covers[i]);
  }
}
