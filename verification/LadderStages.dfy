/** The stages of one run, from the OD shares of a gap to purchases, reshapes and holds. */
module LadderStages {
  import opened Wrappers
  import opened LadderTypes
  import opened LadderUnits
  import opened LadderPipeline
  import opened LadderActions
  import opened RealMath

  /** What the stages look at besides the shares themselves. */
  datatype Limits = Limits(
    layers: seq<LayerSpec>,
    states: map<LayerType, LayerState>,
    rates: map<LayerType, real>,
    spendCap: Option<real>,
    maxActions: nat)

  datatype Stages = Stages(
    kept: seq<Share>, reshapeHolds: seq<Hold>,
    converted: seq<Allocation>, rateHolds: seq<Hold>,
    capped: seq<Allocation>,
    sized: seq<Allocation>, minHolds: seq<Hold>,
    actions: Actions)

  function RunStages(xs: seq<Share>, reshapes: seq<LayerType>, k: Limits): Stages {
    var (kept, reshapeHolds) := WithholdReshaped(xs, Withheld(reshapes, k.layers));
    var (converted, rateHolds) := Convert(kept, k.rates);
    var capped := ApplyCap(converted, k.spendCap);
    var (sized, minHolds) := DropSubMinimum(capped);
    Stages(kept, reshapeHolds, converted, rateHolds, capped, sized, minHolds,
           Truncate(sized, reshapes, k.maxActions, k.states))
  }

  function StageHolds(s: Stages): seq<Hold> {
    s.reshapeHolds + s.rateHolds + s.minHolds + s.actions.holds
  }

  predicate Usable(k: Limits) {
    ValidRates(k.rates) && (k.spendCap.Some? ==> 0.0 < k.spendCap.value)
  }

  predicate PositiveShares(xs: seq<Share>) {
    forall x :: x in xs ==> 0.0 < x.od
  }

  predicate PositiveAllocs(s: seq<Allocation>) {
    forall a :: a in s ==> 0.0 < a.gap && 0.0 < a.od
  }

  // ---- Every share ends once --------------------------------------------------------------

  lemma ScalePositive(a: Allocation, scale: real)
    requires 0.0 < a.gap && 0.0 < a.od && 0.0 < scale
    ensures 0.0 < ScaleOne(a, scale).gap && 0.0 < ScaleOne(a, scale).od
  {
    TimesPositive(a.gap, scale);
    TimesPositive(a.od, scale);
  }

  lemma CapKeepsPositive(s: seq<Allocation>, spendCap: Option<real>)
    requires PositiveAllocs(s) && (spendCap.Some? ==> 0.0 < spendCap.value)
    ensures PositiveAllocs(ApplyCap(s, spendCap))
  {
    CapItems(s, spendCap);
    var capped := ApplyCap(s, spendCap);
    forall i | 0 <= i < |capped| ensures 0.0 < capped[i].gap && 0.0 < capped[i].od {
      assert s[i] in s;
      ScalePositive(s[i], CapScale(s, spendCap));
    }
  }

  /** The amounts every stage hands on are positive. */
  lemma StagesArePositive(xs: seq<Share>, reshapes: seq<LayerType>, k: Limits)
    requires Usable(k) && PositiveShares(xs)
    ensures var s := RunStages(xs, reshapes, k);
      && PositiveShares(s.kept) && PositiveAllocs(s.converted) && PositiveAllocs(s.capped) && PositiveAllocs(s.sized)
      && forall a :: a in s.sized ==> MIN_ALLOCATABLE <= a.gap
  {
    var s := RunStages(xs, reshapes, k);
    WithholdFacts(xs, Withheld(reshapes, k.layers));
    ConvertFacts(s.kept, k.rates);
    CapKeepsPositive(s.converted, k.spendCap);
    DropFacts(s.capped);
  }

  lemma {:induction false} CountAtMostOne(xs: seq<Share>, l: LayerType)
    requires DistinctShares(xs)
    ensures ShareCount(xs, l) <= 1
    ensures ShareCount(xs, l) == 1 <==> exists x :: x in xs && x.layer == l
  {
    if xs != [] {
      var rest, x := xs[..|xs| - 1], xs[|xs| - 1];
      CountAtMostOne(rest, l);
      assert forall y :: y in xs <==> y in rest || y == x;
    }
  }

  /** The holds of all stages together. */
  lemma CountStageHolds(s: Stages, l: LayerType)
    ensures HoldCount(StageHolds(s), l)
         == HoldCount(s.reshapeHolds, l) + HoldCount(s.rateHolds, l)
            + HoldCount(s.minHolds, l) + HoldCount(s.actions.holds, l)
  {
    ConcatHolds(s.reshapeHolds + s.rateHolds + s.minHolds, s.actions.holds, l);
    ConcatHolds(s.reshapeHolds + s.rateHolds, s.minHolds, l);
    ConcatHolds(s.reshapeHolds, s.rateHolds, l);
  }

  /** Each share ends as one purchase or one purchase hold on its own layer, the purchases cover no
      more OD than the shares, and they fit the spend cap and the action limit. */
  lemma StagesConserve(xs: seq<Share>, reshapes: seq<LayerType>, k: Limits, l: LayerType)
    requires Usable(k) && PositiveShares(xs)
    ensures var s := RunStages(xs, reshapes, k);
      && AllocCount(s.actions.allocs, l) + HoldCount(StageHolds(s), l) == ShareCount(xs, l)
      && OdSum(s.actions.allocs) <= ShareSum(xs)
      && (k.spendCap.Some? ==> GapSum(s.actions.allocs) <= k.spendCap.value)
      && |s.actions.allocs| + |s.actions.reshapes| <= k.maxActions
  {
    var s := RunStages(xs, reshapes, k);
    StagesArePositive(xs, reshapes, k);
    WithholdSums(xs, Withheld(reshapes, k.layers), l);
    ConvertSums(s.kept, k.rates, l);
    CapSums(s.converted, k.spendCap, l);
    CapFits(s.converted, k.spendCap);
    DropSums(s.capped, l);
    TruncateCounts(s.sized, reshapes, k.maxActions, k.states, l);
    CountStageHolds(s, l);
  }

  // ---- Every amount traces back -----------------------------------------------------------

  /** The purchase a share turns into under one common cap factor. */
  function Purchase(x: Share, rate: real, scale: real): Allocation {
    ScaleOne(Sized(x, rate), scale)
  }

  ghost predicate BoughtFrom(a: Allocation, xs: seq<Share>, rates: map<LayerType, real>, scale: real) {
    exists x :: x in xs && x.layer in rates && a == Purchase(x, rates[x.layer], scale)
  }

  /** What a purchase hold withheld, traced back to a share of the gap. */
  ghost predicate HeldFrom(h: Hold, xs: seq<Share>, rates: map<LayerType, real>, scale: real) {
    match h.reason
    case ReshapePending(od) => Share(h.layer, od) in xs
    case NoRate(od) => Share(h.layer, od) in xs && h.layer !in rates
    case BelowMinimum(c) =>
      c < MIN_ALLOCATABLE && exists x :: x in xs && x.layer == h.layer && x.layer in rates
                                         && c == Purchase(x, rates[x.layer], scale).gap
    case DeferredPurchase(c) =>
      MIN_ALLOCATABLE <= c && exists x :: x in xs && x.layer == h.layer && x.layer in rates
                                          && c == Purchase(x, rates[x.layer], scale).gap
    case _ => true
  }

  lemma CappedAreBought(xs: seq<Share>, reshapes: seq<LayerType>, k: Limits)
    requires Usable(k) && PositiveShares(xs)
    ensures var s := RunStages(xs, reshapes, k); var scale := CapScale(s.converted, k.spendCap);
      && 0.0 < scale <= 1.0
      && forall a :: a in s.capped ==> BoughtFrom(a, xs, k.rates, scale)
  {
    var s := RunStages(xs, reshapes, k);
    var scale := CapScale(s.converted, k.spendCap);
    WithholdFacts(xs, Withheld(reshapes, k.layers));
    ConvertFacts(s.kept, k.rates);
    CapItems(s.converted, k.spendCap);
    forall a | a in s.capped ensures BoughtFrom(a, xs, k.rates, scale) {
      var i :| 0 <= i < |s.capped| && s.capped[i] == a;
      var c := s.converted[i];
      assert c in s.converted;
      assert Share(c.layer, c.od) in s.kept;
      ConvertedIsBought(xs, c, k.rates, scale);
    }
  }

  lemma ConvertedIsBought(xs: seq<Share>, c: Allocation, rates: map<LayerType, real>, scale: real)
    requires Share(c.layer, c.od) in xs && c.layer in rates && c == Sized(Share(c.layer, c.od), rates[c.layer])
    ensures BoughtFrom(ScaleOne(c, scale), xs, rates, scale)
  {
    var x := Share(c.layer, c.od);
    assert x in xs && ScaleOne(c, scale) == Purchase(x, rates[x.layer], scale);
  }

  /** A hold for an amount that had already been converted and capped. */
  predicate LateHold(h: Hold) {
    || (h.reason.BelowMinimum? && h.reason.commitment < MIN_ALLOCATABLE)
    || (h.reason.DeferredPurchase? && MIN_ALLOCATABLE <= h.reason.commitment)
  }

  lemma LateHoldTraces(h: Hold, a: Allocation, xs: seq<Share>, rates: map<LayerType, real>, scale: real)
    requires BoughtFrom(a, xs, rates, scale)
    requires LateHold(h) && a.layer == h.layer && a.gap == h.reason.commitment
    ensures HeldFrom(h, xs, rates, scale)
  {
  }

  lemma LateHoldsTrace(xs: seq<Share>, reshapes: seq<LayerType>, k: Limits, h: Hold)
    requires Usable(k) && PositiveShares(xs)
    requires var s := RunStages(xs, reshapes, k); h in s.minHolds + s.actions.holds
    ensures HeldFrom(h, xs, k.rates, CapScale(RunStages(xs, reshapes, k).converted, k.spendCap))
  {
    var s := RunStages(xs, reshapes, k);
    CappedAreBought(xs, reshapes, k);
    DropFacts(s.capped);
    TruncateKeepsLargest(s.sized, reshapes, k.maxActions, k.states);
    if !h.reason.DeferredReshape? {
      var a :| a in s.capped && a.layer == h.layer && a.gap == h.reason.commitment;
      LateHoldTraces(h, a, xs, k.rates, CapScale(s.converted, k.spendCap));
    }
  }

  lemma EarlyHoldsTrace(xs: seq<Share>, reshapes: seq<LayerType>, k: Limits, h: Hold, scale: real)
    requires Usable(k) && PositiveShares(xs)
    requires var s := RunStages(xs, reshapes, k); h in s.reshapeHolds + s.rateHolds
    ensures HeldFrom(h, xs, k.rates, scale)
  {
    WithholdFacts(xs, Withheld(reshapes, k.layers));
    ConvertFacts(RunStages(xs, reshapes, k).kept, k.rates);
  }

  /** Every purchase and every hold carries the amount its own share was sized to, and no deferred
      purchase is larger than one that was kept. */
  lemma StagesTrace(xs: seq<Share>, reshapes: seq<LayerType>, k: Limits)
    requires Usable(k) && PositiveShares(xs)
    ensures var s := RunStages(xs, reshapes, k); var scale := CapScale(s.converted, k.spendCap);
      && 0.0 < scale <= 1.0
      && (forall a :: a in s.actions.allocs ==>
            BoughtFrom(a, xs, k.rates, scale) && MIN_ALLOCATABLE <= a.gap && 0.0 < a.od)
      && (forall h :: h in StageHolds(s) ==> HeldFrom(h, xs, k.rates, scale))
      && (forall h, a :: h in StageHolds(s) && h.reason.DeferredPurchase? && a in s.actions.allocs ==>
            h.reason.commitment <= a.gap)
  {
    var s := RunStages(xs, reshapes, k);
    var scale := CapScale(s.converted, k.spendCap);
    CappedAreBought(xs, reshapes, k);
    PurchasesTrace(xs, reshapes, k);
    forall h | h in StageHolds(s) ensures HeldFrom(h, xs, k.rates, scale) {
      if h in s.reshapeHolds + s.rateHolds {
        EarlyHoldsTrace(xs, reshapes, k, h, scale);
      } else {
        assert h in s.minHolds + s.actions.holds;
        LateHoldsTrace(xs, reshapes, k, h);
      }
    }
    forall h, a | h in StageHolds(s) && h.reason.DeferredPurchase? && a in s.actions.allocs
      ensures h.reason.commitment <= a.gap
    {
      DeferredNotLarger(xs, reshapes, k, h, a);
    }
  }

  lemma PurchasesTrace(xs: seq<Share>, reshapes: seq<LayerType>, k: Limits)
    requires Usable(k) && PositiveShares(xs)
    ensures var s := RunStages(xs, reshapes, k); var scale := CapScale(s.converted, k.spendCap);
      forall a :: a in s.actions.allocs ==> BoughtFrom(a, xs, k.rates, scale) && MIN_ALLOCATABLE <= a.gap && 0.0 < a.od
  {
    var s := RunStages(xs, reshapes, k);
    StagesArePositive(xs, reshapes, k);
    CappedAreBought(xs, reshapes, k);
    DropFacts(s.capped);
    TruncateKeepsLargest(s.sized, reshapes, k.maxActions, k.states);
  }

  lemma DeferredNotLarger(xs: seq<Share>, reshapes: seq<LayerType>, k: Limits, h: Hold, a: Allocation)
    requires Usable(k) && PositiveShares(xs)
    requires var s := RunStages(xs, reshapes, k); h in StageHolds(s) && a in s.actions.allocs
    requires h.reason.DeferredPurchase?
    ensures h.reason.commitment <= a.gap
  {
    var s := RunStages(xs, reshapes, k);
    WithholdFacts(xs, Withheld(reshapes, k.layers));
    ConvertFacts(s.kept, k.rates);
    DropFacts(s.capped);
    TruncateKeepsLargest(s.sized, reshapes, k.maxActions, k.states);
    assert h in s.actions.holds;
  }

  /** A purchase's commitment is its OD at its own rate, and its OD is at most its share's. */
  lemma PurchaseFacts(x: Share, rate: real, scale: real)
    requires 0.0 <= x.od && 0.0 < scale <= 1.0
    ensures var a := Purchase(x, rate, scale);
      a.gap == ToCommitment(a.od, a.rate) && a.rate == rate && a.layer == x.layer && a.od <= x.od
  {
    assert (x.od * rate) * scale == (x.od * scale) * rate;
    TimesShrinks(x.od, scale);
  }
}
