/** Whole lists of recommendations drawing on the shared duplicate budgets. */
module DuplicateBatches {
  import opened IntMath
  import opened Recommendations
  import opened Budgets
  import opened Duplicates

  /** How one recommendation moved the budgets: what it kept and the credits it was given. */
  ghost predicate Step(left: map<Key, int>, left': map<Key, int>, rec: Recommendation, kept: int,
                       credits: seq<Credit<Key>>)
  {
    if rec.count <= 0 then kept == 0 && credits == [] && left' == left
    else
      && (forall i :: 0 <= i < |OffersOf(rec)| ==> ValidOffer(OffersOf(rec)[i]))
      && Charged(left', kept, credits) == Charge(left, OffersOf(rec), rec.count)
  }

  /** Budgets before, between and after a list of recommendations. */
  ghost predicate Steps(recs: seq<Recommendation>, lefts: seq<map<Key, int>>, kept: seq<int>,
                        log: seq<seq<Credit<Key>>>)
  {
    && |lefts| == |recs| + 1 && |kept| == |recs| && |log| == |recs|
    && forall i :: 0 <= i < |recs| ==> StepAt(recs, lefts, kept, log, i)
  }

  ghost predicate StepAt(recs: seq<Recommendation>, lefts: seq<map<Key, int>>, kept: seq<int>,
                         log: seq<seq<Credit<Key>>>, i: int)
    requires |lefts| == |recs| + 1 && |kept| == |recs| && |log| == |recs|
    requires 0 <= i < |recs|
  {
    Step(lefts[i], lefts[i + 1], recs[i], kept[i], log[i])
  }

  /** A list without its last recommendation. */
  lemma StepsPrefix(recs: seq<Recommendation>, lefts: seq<map<Key, int>>, kept: seq<int>, log: seq<seq<Credit<Key>>>)
    requires recs != [] && Steps(recs, lefts, kept, log)
    ensures var last := |recs| - 1;
      && Steps(recs[..last], lefts[..last + 1], kept[..last], log[..last])
      && Step(lefts[last], lefts[last + 1], recs[last], kept[last], log[last])
  {
    var last := |recs| - 1;
    var r, b, k, l := recs[..last], lefts[..last + 1], kept[..last], log[..last];
    forall i | 0 <= i < last ensures StepAt(r, b, k, l, i) {
      assert StepAt(recs, lefts, kept, log, i);
    }
    assert StepAt(recs, lefts, kept, log, last);
  }

  lemma OneMoreStep(recs: seq<Recommendation>, rec: Recommendation, lefts: seq<map<Key, int>>, kept: seq<int>,
                    log: seq<seq<Credit<Key>>>, left: map<Key, int>, k: int, credits: seq<Credit<Key>>)
    requires Steps(recs, lefts, kept, log)
    requires Step(lefts[|recs|], left, rec, k, credits)
    ensures Steps(recs + [rec], lefts + [left], kept + [k], log + [credits])
  {
    var r, b, ks, l := recs + [rec], lefts + [left], kept + [k], log + [credits];
    forall j | 0 <= j <= |recs| ensures StepAt(r, b, ks, l, j) {
      if j < |recs| {
        assert StepAt(recs, lefts, kept, log, j);
      }
    }
  }

  // ---- Conservation over a list -----------------------------------------------------------

  /** Units all credits of a list took from one budget. */
  function SpentOver(log: seq<seq<Credit<Key>>>, key: Key): int {
    if log == [] then 0 else SpentOver(log[..|log| - 1], key) + SpentAt(log[|log| - 1], key)
  }

  lemma StepConserves(left: map<Key, int>, left': map<Key, int>, rec: Recommendation, kept: int,
                      credits: seq<Credit<Key>>, key: Key)
    requires Step(left, left', rec, kept, credits)
    ensures 0 <= kept <= Max(rec.count, 0) && Max(rec.count, 0) - kept == CoveredSum(credits)
    ensures At(left, key) - At(left', key) == SpentAt(credits, key)
    ensures Min(At(left, key), 0) <= At(left', key) <= At(left, key)
  {
    if 0 < rec.count {
      ChargeConserves(left, OffersOf(rec), rec.count, key);
    }
  }

  /** Over any list, a budget loses exactly what its credits spent, a budget that was not negative
      stays so, and no other budget moves. */
  lemma {:induction false} ListConserves(recs: seq<Recommendation>, lefts: seq<map<Key, int>>, kept: seq<int>,
                                         log: seq<seq<Credit<Key>>>, key: Key)
    requires Steps(recs, lefts, kept, log)
    ensures At(lefts[0], key) - At(lefts[|recs|], key) == SpentOver(log, key)
    ensures Min(At(lefts[0], key), 0) <= At(lefts[|recs|], key) <= At(lefts[0], key)
  {
    if recs != [] {
      var last := |recs| - 1;
      StepsPrefix(recs, lefts, kept, log);
      ListConserves(recs[..last], lefts[..last + 1], kept[..last], log[..last], key);
      StepConserves(lefts[last], lefts[last + 1], recs[last], kept[last], log[last], key);
    }
  }

  lemma BudgetShrinks(recs: seq<Recommendation>, lefts: seq<map<Key, int>>, kept: seq<int>,
                      log: seq<seq<Credit<Key>>>, i: nat, key: Key)
    requires Steps(recs, lefts, kept, log) && i < |recs|
    ensures At(lefts[i + 1], key) <= At(lefts[i], key)
  {
    assert StepAt(recs, lefts, kept, log, i);
    StepConserves(lefts[i], lefts[i + 1], recs[i], kept[i], log[i], key);
  }

  lemma {:induction false} BudgetsShrink(recs: seq<Recommendation>, lefts: seq<map<Key, int>>, kept: seq<int>,
                                         log: seq<seq<Credit<Key>>>, i: nat, j: nat, key: Key)
    requires Steps(recs, lefts, kept, log) && i <= j <= |recs|
    ensures At(lefts[j], key) <= At(lefts[i], key)
  {
    if i < j {
      BudgetsShrink(recs, lefts, kept, log, i, j - 1, key);
      BudgetShrinks(recs, lefts, kept, log, j - 1, key);
    }
  }

  /** A recommendation that kept nodes leaves every budget that may pay for it below one node, and
      nothing later in the list refills one. */
  lemma KeptNodesUsedUp(recs: seq<Recommendation>, lefts: seq<map<Key, int>>, kept: seq<int>,
                        log: seq<seq<Credit<Key>>>, i: nat, o: Offer<Key>)
    requires Steps(recs, lefts, kept, log) && i < |recs| && 0 < kept[i] && o in OffersOf(recs[i])
    ensures UsedUp(lefts[|recs|], o)
  {
    var offers := OffersOf(recs[i]);
    var k :| 0 <= k < |offers| && offers[k] == o;
    assert StepAt(recs, lefts, kept, log, i);
    OffersAreValid(recs[i]);
    KeptMeansUsedUp(lefts[i], offers, recs[i].count, k);
    BudgetsShrink(recs, lefts, kept, log, i + 1, |recs|, o.key);
    UsedUpStays(lefts[i + 1], lefts[|recs|], o);
  }

  // ---- What a budget is worth -------------------------------------------------------------

  /** Normalized worth of one node of an engine: a Redis node is worth 5/4 of a Valkey node. */
  function EngineWorth(engine: Engine): nat {
    match engine
    case Plain(_) => 1
    case CacheEngine(name) => if name == "valkey" then 4 else 5
    case AnyCacheEngine => 5
  }

  /** Worth of one recommended node: of a size-flexible class its size units, for each of the two
      instances that a Multi-AZ node runs. */
  function NodeWorth(rec: Recommendation): nat {
    if IsCache(rec.provider, rec.service) then EngineWorth(EngineOf(rec.provider, rec.service, rec.engine))
    else
      match RdsFlexKey(rec.provider, rec.service, Plain(rec.engine), rec.resourceType)
      case None => 1
      case Some((_, units)) => if rec.deployment == "multiaz" then units + units else units
  }

  /** Worth of the nodes one budget paid for. */
  function PaidAt(credits: seq<Credit<Key>>, key: Key, worth: nat): int {
    if credits == [] then 0
    else
      var c := credits[|credits| - 1];
      PaidAt(credits[..|credits| - 1], key, worth) + (if c.offer.key == key then Mul(worth, c.covered) else 0)
  }

  function PaidOver(recs: seq<Recommendation>, log: seq<seq<Credit<Key>>>, key: Key): int
    requires |log| == |recs|
  {
    if recs == [] then 0
    else
      var last := |recs| - 1;
      PaidOver(recs[..last], log[..last], key) + PaidAt(log[last], key, NodeWorth(recs[last]))
  }

  /** The worth paid for is at most that of the units spent, and exactly that for a database. */
  predicate PaysItsWorth(engine: Engine, paid: int, spent: int) {
    var cost := Mul(EngineWorth(engine), spent);
    paid <= cost && (engine.Plain? ==> paid == cost)
  }

  lemma WorthAdds(engine: Engine, paid: int, spent: int, paid': int, spent': int)
    requires PaysItsWorth(engine, paid, spent) && PaysItsWorth(engine, paid', spent')
    ensures PaysItsWorth(engine, paid + paid', spent + spent')
  {
    MulAddRight(EngineWorth(engine), spent, spent');
  }

  lemma NothingPaid(engine: Engine)
    ensures PaysItsWorth(engine, 0, 0)
  {
    MulUnit(EngineWorth(engine));
  }

  lemma CreditWorth(rec: Recommendation, c: Credit<Key>)
    requires c.offer in OffersOf(rec) && FairCredit(c)
    ensures PaysItsWorth(c.offer.key.engine, Mul(NodeWorth(rec), c.covered), c.spent)
  {
    if IsCache(rec.provider, rec.service) {
      CacheCreditWorth(EngineOf(rec.provider, rec.service, rec.engine), c, rec);
    } else {
      SingleOffer(rec, c.offer);
      WholeUnitsPay(c);
    }
  }

  /** Outside a cache there is one offer, and it pays one node at a time. */
  lemma SingleOffer(rec: Recommendation, o: Offer<Key>)
    requires !IsCache(rec.provider, rec.service) && o in OffersOf(rec)
    ensures o.nodes == 1 && o.reserved == NodeWorth(rec) && o.key.engine.Plain?
  {
    assert OffersOf(rec) == [OffersOf(rec)[0]];
    match RdsFlexKey(rec.provider, rec.service, Plain(rec.engine), rec.resourceType)
    case None =>
    case Some((_, units)) =>
      MulUnit(units);
      assert Mul(units, 2) == units + units;
  }

  lemma WholeUnitsPay(c: Credit<Key>)
    requires FairCredit(c) && c.offer.nodes == 1 && c.offer.key.engine.Plain?
    ensures PaysItsWorth(c.offer.key.engine, Mul(c.offer.reserved, c.covered), c.spent)
  {
    MulUnit(c.spent);
    assert Mul(c.covered, c.offer.reserved) == Mul(c.offer.reserved, c.covered);
  }

  lemma CacheCreditWorth(engine: Engine, c: Credit<Key>, rec: Recommendation)
    requires IsCache(rec.provider, rec.service) && engine == EngineOf(rec.provider, rec.service, rec.engine)
    requires c.offer in OffersOf(rec) && FairCredit(c)
    ensures Mul(EngineWorth(engine), c.covered) <= Mul(EngineWorth(c.offer.key.engine), c.spent)
    ensures !c.offer.key.engine.Plain?
  {
    var covers := CoveringEngines(engine);
    var offers := CacheOffers(rec.resourceType, rec.region, rec.deployment, covers);
    assert OffersOf(rec) == offers;
    var k :| 0 <= k < |offers| && offers[k] == c.offer;
    assert c.offer == OfferOf(rec.resourceType, rec.region, rec.deployment, covers[k]);
  }

  lemma {:induction false} CreditsWorth(rec: Recommendation, credits: seq<Credit<Key>>, key: Key)
    requires forall i :: 0 <= i < |credits| ==> credits[i].offer in OffersOf(rec) && FairCredit(credits[i])
    ensures PaysItsWorth(key.engine, PaidAt(credits, key, NodeWorth(rec)), SpentAt(credits, key))
  {
    if credits == [] {
      NothingPaid(key.engine);
    } else {
      var rest, c := credits[..|credits| - 1], credits[|credits| - 1];
      CreditsWorth(rec, rest, key);
      CreditWorth(rec, c);
      if c.offer.key == key {
        WorthAdds(key.engine, PaidAt(rest, key, NodeWorth(rec)), SpentAt(rest, key),
                  Mul(NodeWorth(rec), c.covered), c.spent);
      }
    }
  }

  lemma StepIsFair(left: map<Key, int>, left': map<Key, int>, rec: Recommendation, kept: int, credits: seq<Credit<Key>>)
    requires Step(left, left', rec, kept, credits)
    ensures FairFor(rec, credits)
  {
    if 0 < rec.count {
      CreditsAreFair(left, OffersOf(rec), rec.count);
    }
  }

  ghost predicate FairFor(rec: Recommendation, credits: seq<Credit<Key>>) {
    forall i :: 0 <= i < |credits| ==> credits[i].offer in OffersOf(rec) && FairCredit(credits[i])
  }

  lemma {:induction false} LogPaysItsWorth(recs: seq<Recommendation>, log: seq<seq<Credit<Key>>>, key: Key)
    requires |log| == |recs| && forall i :: 0 <= i < |recs| ==> FairFor(recs[i], log[i])
    ensures PaysItsWorth(key.engine, PaidOver(recs, log, key), SpentOver(log, key))
  {
    if recs == [] {
      NothingPaid(key.engine);
    } else {
      var last := |recs| - 1;
      LogPaysItsWorth(recs[..last], log[..last], key);
      CreditsWorth(recs[last], log[last], key);
      WorthAdds(key.engine, PaidOver(recs[..last], log[..last], key), SpentOver(log[..last], key),
                PaidAt(log[last], key, NodeWorth(recs[last])), SpentAt(log[last], key));
    }
  }

  /** No exchange rate is ever beaten: over any list, the nodes one budget paid for are worth at
      most the units it lost. So a Redis budget pays for at most five Valkey nodes per four units,
      and a size-flexible database budget pays exactly, each Multi-AZ node counted twice. */
  lemma BudgetPaysItsWorth(recs: seq<Recommendation>, lefts: seq<map<Key, int>>, kept: seq<int>,
                           log: seq<seq<Credit<Key>>>, key: Key)
    requires Steps(recs, lefts, kept, log)
    ensures var paid, lost := PaidOver(recs, log, key), At(lefts[0], key) - At(lefts[|recs|], key);
      && paid <= Mul(EngineWorth(key.engine), lost)
      && (key.engine.Plain? ==> paid == lost)
  {
    forall i | 0 <= i < |recs| ensures FairFor(recs[i], log[i]) {
      assert StepAt(recs, lefts, kept, log, i);
      StepIsFair(lefts[i], lefts[i + 1], recs[i], kept[i], log[i]);
    }
    LogPaysItsWorth(recs, log, key);
    ListConserves(recs, lefts, kept, log, key);
    MulUnit(At(lefts[0], key) - At(lefts[|recs|], key));
  }
}
