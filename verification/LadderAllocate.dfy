/** Allocate: from a usage baseline to per-layer purchases, reshapes and holds. */
module LadderAllocate {
  import opened Wrappers
  import opened LadderTypes
  import opened LadderValidation
  import opened LadderUnits
  import opened LadderPipeline
  import opened LadderActions
  import opened LadderStages
  import opened RealMath

  datatype AllocationInput = AllocationInput(
    layers: seq<LayerSpec>,
    states: map<LayerType, LayerState>,
    rates: Option<map<LayerType, real>>,
    inFlight: Option<seq<InFlightTranche>>,
    baseline: UsageBaseline,
    config: LadderConfig)

  datatype AllocateResult = AllocateResult(
    netExisting: real,
    allocations: seq<Allocation>,
    reshapes: seq<LayerType>,
    holds: seq<Hold>)

  predicate ValidInput(inp: AllocationInput) {
    && inp.inFlight.Some?
    && inp.rates.Some?
    && ValidConfig(inp.config)
    && !inp.baseline.basis.UnknownBasis?
    && inp.layers != []
    && ValidLayers(inp.layers)
    && ValidStates(inp.layers, inp.states)
  }

  predicate Residual(inp: AllocationInput) {
    inp.baseline.basis.ResidualBasis?
  }

  /** The layer an early-exit hold is filed under. */
  function FlexLayer(layers: seq<LayerSpec>): LayerType {
    var f := FindLayer(layers, FlexRole);
    if f.Some? then f.value else UnknownLayer("")
  }

  function Target(lowWater: real, pct: real): real {
    Times(lowWater, Over(pct, 100.0))
  }

  function Min(a: real, b: real): real {
    if a <= b then a else b
  }

  /** Existing commitment netted out of the baseline; a residual baseline already excludes it. */
  function GapExisting(inp: AllocationInput): real {
    if Residual(inp) then 0.0 else NetTotal(inp.layers, inp.states)
  }

  function Gap(inp: AllocationInput, lowWater: real): real
    requires inp.inFlight.Some?
  {
    var e := GapExisting(inp);
    Min(Target(lowWater, inp.config.targetCoveragePct) - e, lowWater - e) - OdTotal(inp.inFlight.value)
  }

  /** OD counted against the stable level of the base layer. */
  function BaseCommitted(inp: AllocationInput): real
    requires inp.inFlight.Some?
  {
    var base := FindLayer(inp.layers, BaseRole);
    if base.None? then 0.0
    else (if Residual(inp) then 0.0 else NetAt(inp.states, base.value)) + OdOn(inp.inFlight.value, base.value)
  }

  predicate HasExisting(layers: seq<LayerSpec>, states: map<LayerType, LayerState>) {
    exists i :: 0 <= i < |layers| && layers[i].layer in states
                && states[layers[i].layer].existing.Some? && states[layers[i].layer].existing.value > 0.0
  }

  /** A partial target cannot be sized from a residual baseline while commitment exists. */
  predicate ResidualHeld(inp: AllocationInput) {
    Residual(inp) && inp.config.targetCoveragePct < 100.0 && HasExisting(inp.layers, inp.states)
  }

  function LimitsOf(inp: AllocationInput): Limits
    requires inp.rates.Some? && 0 < inp.config.maxActionsPerRun
  {
    Limits(inp.layers, inp.states, inp.rates.value, inp.config.maxHourlyCommitPerRun, inp.config.maxActionsPerRun)
  }

  function Split(inp: AllocationInput, gap: real): Result<seq<Share>, AllocateError>
    requires inp.inFlight.Some?
  {
    SplitGap(gap, inp.config.bufferFraction, inp.layers, inp.baseline.stable, BaseCommitted(inp))
  }

  function Plan(inp: AllocationInput): Result<AllocateResult, AllocateError> {
    if !ValidInput(inp) then Failure(InvalidInput)
    else if !ConsistentSnapshot(inp.layers, inp.states) then Failure(InconsistentSnapshot)
    else if !ValidRates(inp.rates.value) then Failure(InvalidRate)
    else if !ValidInFlight(inp.layers, inp.inFlight.value) then Failure(InvalidInFlight)
    else
      var e := NetTotal(inp.layers, inp.states);
      var (reshapes, maint) := Reshapes(inp.layers, inp.states, inp.config.bufferUtilizationThresholdPct);
      if inp.baseline.lowWater.None? then
        Success(AllocateResult(e, [], reshapes, [Hold(FlexLayer(inp.layers), BaselineUnavailable)] + maint))
      else if inp.baseline.lowWater.value < 0.0 then Failure(InvalidBaseline)
      else
        var gap := Gap(inp, inp.baseline.lowWater.value);
        if gap <= MIN_ALLOCATABLE then
          Success(AllocateResult(e, [], reshapes, [Hold(FlexLayer(inp.layers), TargetMet(gap))] + maint))
        else if ResidualHeld(inp) then
          Success(AllocateResult(e, [], reshapes, [Hold(FlexLayer(inp.layers), ResidualPartialTarget(gap))] + maint))
        else Built(inp, gap, e, reshapes, maint)
  }

  /** The result once the gap is known to be worth buying. */
  function Built(inp: AllocationInput, gap: real, e: real, reshapes: seq<LayerType>, maint: seq<Hold>)
    : Result<AllocateResult, AllocateError>
    requires inp.inFlight.Some? && inp.rates.Some? && 0 < inp.config.maxActionsPerRun
  {
    match Split(inp, gap)
    case Failure(err) => Failure(err)
    case Success(xs) =>
      var s := RunStages(xs, reshapes, LimitsOf(inp));
      Success(AllocateResult(e, s.actions.allocs, s.actions.reshapes, maint + StageHolds(s)))
  }

  method BuildResult(inp: AllocationInput, gap: real, e: real, committed: real, reshapes: seq<LayerType>,
                     maint: seq<Hold>)
    returns (r: Result<AllocateResult, AllocateError>)
    requires inp.inFlight.Some? && inp.rates.Some? && 0 < inp.config.maxActionsPerRun
    requires committed == BaseCommitted(inp)
    ensures r == Built(inp, gap, e, reshapes, maint)
  {
    var split := SplitGap(gap, inp.config.bufferFraction, inp.layers, inp.baseline.stable, committed);
    if split.Failure? {
      return Failure(split.error);
    }
    var kept, reshapeHolds := HoldReshapedBufferAllocations(split.value, reshapes, inp.layers);
    var converted, rateHolds := ConvertAllocations(kept, inp.rates.value);
    var capped := ApplyCapGuardrail(converted, inp.config.maxHourlyCommitPerRun);
    var sized, minHolds := DropSubMinimumAllocations(capped);
    var actions := TruncateToMaxActions(sized, reshapes, inp.config.maxActionsPerRun, inp.states);
    var holds := maint + (reshapeHolds + rateHolds + minHolds + actions.holds);
    return Success(AllocateResult(e, actions.allocs, actions.reshapes, holds));
  }

  /** Committed OD on the base layer, from the per-layer maps. */
  method CommittedOnBase(inp: AllocationInput, nets: map<LayerType, real>, inFlight: map<LayerType, real>)
    returns (committed: real)
    requires ValidInput(inp)
    requires forall i :: 0 <= i < |inp.layers| ==> inp.layers[i].layer in nets
    requires forall l :: l in nets ==> nets[l] == NetAt(inp.states, l)
    requires forall l :: OdOn(inp.inFlight.value, l) == if l in inFlight then inFlight[l] else 0.0
    ensures committed == BaseCommitted(inp)
  {
    var base := FindLayer(inp.layers, BaseRole);
    var gapNets := if Residual(inp) then map[] else nets;
    committed := 0.0;
    if base.Some? {
      ghost var i := FindLayerCarries(inp.layers, BaseRole);
      committed := (if base.value in gapNets then gapNets[base.value] else 0.0)
                 + (if base.value in inFlight then inFlight[base.value] else 0.0);
    }
  }

  method ValidateAllocateInput(inp: AllocationInput) returns (ok: bool)
    ensures ok <==> ValidInput(inp)
  {
    if inp.inFlight.None? || inp.rates.None? {
      return false;
    }
    ok := ValidateConfig(inp.config);
    if !ok || inp.baseline.basis.UnknownBasis? || |inp.layers| == 0 {
      return false;
    }
    ok := ValidateLayers(inp.layers);
    if !ok {
      return;
    }
    ok := ValidateLayerStates(inp.layers, inp.states);
  }

  method Allocate(inp: AllocationInput) returns (r: Result<AllocateResult, AllocateError>)
    ensures r == Plan(inp)
  {
    var ok := ValidateAllocateInput(inp);
    if !ok {
      return Failure(InvalidInput);
    }
    var netting := ComputeNetExisting(inp.layers, inp.states);
    if netting.Failure? {
      return Failure(netting.error);
    }
    var (nets, existingTotal) := netting.value;
    ok := ParseCommitmentRates(inp.rates.value);
    if !ok {
      return Failure(InvalidRate);
    }
    var flying := InFlightToOd(inp.layers, inp.inFlight.value);
    if flying.Failure? {
      return Failure(flying.error);
    }
    var (inFlightByLayer, inFlight) := flying.value;
    var reshapes, maint := DetectReshapes(inp.layers, inp.states, inp.config.bufferUtilizationThresholdPct);
    var flex := FlexLayer(inp.layers);
    if inp.baseline.lowWater.None? {
      return Success(AllocateResult(existingTotal, [], reshapes, [Hold(flex, BaselineUnavailable)] + maint));
    }
    var lowWater := inp.baseline.lowWater.value;
    if lowWater < 0.0 {
      return Failure(InvalidBaseline);
    }
    var target := Target(lowWater, inp.config.targetCoveragePct);
    var gapExisting := if Residual(inp) then 0.0 else existingTotal;
    var gap := Min(target - gapExisting, lowWater - gapExisting) - inFlight;
    if gap <= MIN_ALLOCATABLE {
      return Success(AllocateResult(existingTotal, [], reshapes, [Hold(flex, TargetMet(gap))] + maint));
    }
    if ResidualHeld(inp) {
      return Success(AllocateResult(existingTotal, [], reshapes, [Hold(flex, ResidualPartialTarget(gap))] + maint));
    }
    var committed := CommittedOnBase(inp, nets, inFlightByLayer);
    r := BuildResult(inp, gap, existingTotal, committed, reshapes, maint);
  }

  /** A run that buys nothing says why on a layer of the flex role: no baseline, a target met to
      within a cent, or a partial target that a residual basis cannot size. */
  lemma EarlyExitExplains(inp: AllocationInput) returns (i: nat)
    requires Plan(inp).Success? && !Purchasing(inp)
    ensures Plan(inp).value.holds != [] && i < |inp.layers|
    ensures var h := Plan(inp).value.holds[0];
      && FlexRole in inp.layers[i].roles && h.layer == inp.layers[i].layer
      && (inp.baseline.lowWater.None? <==> h.reason.BaselineUnavailable?)
      && (h.reason.TargetMet? ==> 100.0 * h.reason.gap <= 1.0)
      && (h.reason.ResidualPartialTarget? ==>
            && 1.0 < 100.0 * h.reason.upperBound
            && inp.baseline.basis.ResidualBasis? && inp.config.targetCoveragePct < 100.0 && !NothingHeld(inp))
      && (h.reason.BaselineUnavailable? || h.reason.TargetMet? || h.reason.ResidualPartialTarget?)
  {
    FlexStandsAlone(inp.layers);
    i := FindLayerCarries(inp.layers, FlexRole);
    HeldMeansExisting(inp);
    assert FlexLayer(inp.layers) == inp.layers[i].layer;
  }

  // ---- Failures ---------------------------------------------------------------------------

  /** A gap worth buying that cannot be split: a buffer share without a buffer layer, or a negative
      stable level for the base layer. */
  predicate Unsplittable(inp: AllocationInput) {
    || (0.0 < inp.config.bufferFraction && FindLayer(inp.layers, BufferRole).None?)
    || (FindLayer(inp.layers, BaseRole).Some? && inp.baseline.stable.Some? && inp.baseline.stable.value < 0.0)
  }

  lemma SplitFailsExactlyWhen(inp: AllocationInput, gap: real)
    requires ValidInput(inp) && 0.0 < gap
    ensures Split(inp, gap).Failure? <==> Unsplittable(inp)
  {
    if 0.0 < inp.config.bufferFraction {
      TimesPositive(gap, inp.config.bufferFraction);
    } else {
      TimesUnit(gap);
    }
  }

  /** Planning fails exactly on bad input, an inconsistent snapshot, a bad rate or in-flight tranche,
      a negative low water, or a gap worth buying that cannot be split. */
  lemma PlanFailsExactlyWhen(inp: AllocationInput)
    ensures Plan(inp).Failure? <==>
      || !ValidInput(inp) || !ConsistentSnapshot(inp.layers, inp.states)
      || !ValidRates(inp.rates.value) || !ValidInFlight(inp.layers, inp.inFlight.value)
      || (inp.baseline.lowWater.Some?
          && (inp.baseline.lowWater.value < 0.0
              || (MIN_ALLOCATABLE < Gap(inp, inp.baseline.lowWater.value) && !ResidualHeld(inp) && Unsplittable(inp))))
  {
    if ValidInput(inp) && inp.baseline.lowWater.Some? && MIN_ALLOCATABLE < Gap(inp, inp.baseline.lowWater.value) {
      SplitFailsExactlyWhen(inp, Gap(inp, inp.baseline.lowWater.value));
    }
  }

  // ---- Conservation -----------------------------------------------------------------------

  /** The run reached the purchase pipeline. */
  predicate Purchasing(inp: AllocationInput) {
    && Plan(inp).Success?
    && inp.baseline.lowWater.Some?
    && MIN_ALLOCATABLE < Gap(inp, inp.baseline.lowWater.value)
    && !ResidualHeld(inp)
  }

  function PlannedGap(inp: AllocationInput): real
    requires Purchasing(inp)
  {
    Gap(inp, inp.baseline.lowWater.value)
  }

  function PlannedShares(inp: AllocationInput): seq<Share>
    requires Purchasing(inp)
  {
    Split(inp, PlannedGap(inp)).value
  }

  function PlannedReshapes(inp: AllocationInput): seq<LayerType> {
    Reshapes(inp.layers, inp.states, inp.config.bufferUtilizationThresholdPct).0
  }

  function PlannedStages(inp: AllocationInput): Stages
    requires Purchasing(inp)
  {
    RunStages(PlannedShares(inp), PlannedReshapes(inp), LimitsOf(inp))
  }

  /** The one factor the spend cap of a run applied. */
  function PlannedScale(inp: AllocationInput): real
    requires Purchasing(inp)
  {
    CapScale(PlannedStages(inp).converted, inp.config.maxHourlyCommitPerRun)
  }

  lemma {:induction false} MaintenanceIsInformational(layers: seq<LayerSpec>, states: map<LayerType, LayerState>,
                                                      threshold: real)
    ensures forall h :: h in Reshapes(layers, states, threshold).1 ==> h.reason.UtilizationUnknown?
  {
    if layers != [] {
      MaintenanceIsInformational(layers[..|layers| - 1], states, threshold);
    }
  }

  lemma {:induction false} InformationalHoldsCountZero(hs: seq<Hold>, l: LayerType)
    requires forall h :: h in hs ==> !WithholdsPurchase(h)
    ensures HoldCount(hs, l) == 0
  {
    if hs != [] {
      InformationalHoldsCountZero(hs[..|hs| - 1], l);
    }
  }

  /** The planned shares split the gap exactly, over distinct known layers. */
  lemma PlannedSharesSplitTheGap(inp: AllocationInput)
    requires Purchasing(inp)
    ensures var xs := PlannedShares(inp);
      && ShareSum(xs) == PlannedGap(inp) && DistinctShares(xs) && PositiveShares(xs)
      && forall x :: x in xs ==> Known(inp.layers, x.layer)
    ensures Usable(LimitsOf(inp))
  {
    SplitIsExact(PlannedGap(inp), inp.config.bufferFraction, inp.layers, inp.baseline.stable, BaseCommitted(inp),
                 PlannedShares(inp));
  }

  /** A purchasing run reports what its stages did, after the buffer maintenance holds. */
  lemma PlanReportsStages(inp: AllocationInput)
    requires Purchasing(inp)
    ensures var r, s := Plan(inp).value, PlannedStages(inp);
      && r.allocations == s.actions.allocs && r.reshapes == s.actions.reshapes
      && r.holds == Reshapes(inp.layers, inp.states, inp.config.bufferUtilizationThresholdPct).1 + StageHolds(s)
  {
  }

  /** No OD is lost and no layer is counted twice: each layer with a share of the gap ends as
      exactly one allocation or exactly one purchase hold, every other layer as neither. */
  lemma GapIsConserved(inp: AllocationInput, l: LayerType)
    requires Purchasing(inp)
    ensures var r := Plan(inp).value;
      && ShareSum(PlannedShares(inp)) == PlannedGap(inp)
      && PositiveShares(PlannedShares(inp))
      && AllocCount(r.allocations, l) + HoldCount(r.holds, l)
         == (if exists x :: x in PlannedShares(inp) && x.layer == l then 1 else 0)
  {
    var maint := Reshapes(inp.layers, inp.states, inp.config.bufferUtilizationThresholdPct).1;
    PlannedSharesSplitTheGap(inp);
    PlanReportsStages(inp);
    StagesConserve(PlannedShares(inp), PlannedReshapes(inp), LimitsOf(inp), l);
    CountAtMostOne(PlannedShares(inp), l);
    MaintenanceIsInformational(inp.layers, inp.states, inp.config.bufferUtilizationThresholdPct);
    InformationalHoldsCountZero(maint, l);
    ConcatHolds(maint, StageHolds(PlannedStages(inp)), l);
  }

  /** Every allocation and purchase hold carries the amount its own share was sized to. */
  lemma AmountsTraceToShares(inp: AllocationInput)
    requires Purchasing(inp)
    ensures var xs, rates, scale := PlannedShares(inp), inp.rates.value, PlannedScale(inp);
      && (forall a :: a in Plan(inp).value.allocations ==> BoughtFrom(a, xs, rates, scale))
      && (forall h :: h in Plan(inp).value.holds ==> HeldFrom(h, xs, rates, scale))
  {
    PlannedSharesSplitTheGap(inp);
    PlanReportsStages(inp);
    StagesTrace(PlannedShares(inp), PlannedReshapes(inp), LimitsOf(inp));
    MaintenanceIsInformational(inp.layers, inp.states, inp.config.bufferUtilizationThresholdPct);
  }

  // ---- Bounds -----------------------------------------------------------------------------

  lemma EarlyExitBuysNothing(inp: AllocationInput)
    requires Plan(inp).Success? && !Purchasing(inp)
    ensures Plan(inp).value.allocations == [] && Plan(inp).value.reshapes == PlannedReshapes(inp)
    ensures inp.config.maxHourlyCommitPerRun.Some? ==> 0.0 < inp.config.maxHourlyCommitPerRun.value
    ensures 0 < inp.config.maxActionsPerRun && RoleCount(inp.layers, BufferRole) <= 1
  {
  }

  /** Whatever path a run took, its spend fits the per-run cap and its actions fit the limit. */
  lemma RunLimitsHold(inp: AllocationInput)
    requires Plan(inp).Success?
    ensures var r := Plan(inp).value;
      && (inp.config.maxHourlyCommitPerRun.Some? ==> GapSum(r.allocations) <= inp.config.maxHourlyCommitPerRun.value)
      && |r.allocations| + |r.reshapes| <= inp.config.maxActionsPerRun
  {
    if Purchasing(inp) {
      PlannedSharesSplitTheGap(inp);
      PlanReportsStages(inp);
      StagesConserve(PlannedShares(inp), PlannedReshapes(inp), LimitsOf(inp), ComputeSP);
    } else {
      EarlyExitBuysNothing(inp);
      AtMostOneReshape(inp.layers, inp.states, inp.config.bufferUtilizationThresholdPct);
    }
  }

  /** A run never buys more OD than the gap it was sized for, and nothing when there is no gap. */
  lemma PurchasesFitTheGap(inp: AllocationInput)
    requires Plan(inp).Success?
    ensures !Purchasing(inp) ==> Plan(inp).value.allocations == []
    ensures Purchasing(inp) ==> OdSum(Plan(inp).value.allocations) <= PlannedGap(inp)
  {
    if Purchasing(inp) {
      PlannedSharesSplitTheGap(inp);
      PlanReportsStages(inp);
      StagesConserve(PlannedShares(inp), PlannedReshapes(inp), LimitsOf(inp), ComputeSP);
    } else {
      EarlyExitBuysNothing(inp);
    }
  }

  // ---- The target -------------------------------------------------------------------------

  /** Commitment that counts against a baseline: none against a residual one, which excludes it. */
  function Netted(inp: AllocationInput): real {
    match inp.baseline.basis
    case ResidualBasis => 0.0
    case _ => NetTotal(inp.layers, inp.states)
  }

  /** What is netted and in flight before the run. */
  function Outstanding(inp: AllocationInput): real
    requires inp.inFlight.Some?
  {
    Netted(inp) + OdTotal(inp.inFlight.value)
  }

  lemma PercentOf(w: real, pct: real)
    requires 0.0 <= w && 0.0 < pct <= 100.0
    ensures 100.0 * Target(w, pct) == pct * w && pct * w <= 100.0 * w
  {
    var q := Over(pct, 100.0);
    assert q == pct / 100.0;
    assert w * q == w * pct / 100.0;
    TimesMonotone(w, pct, 100.0);
  }

  /** The gap fills up what is netted and in flight to the target percentage of the low water. */
  lemma GapFillsTarget(inp: AllocationInput, w: real, percents: real)
    requires inp.inFlight.Some? && 0.0 <= w && 0.0 < inp.config.targetCoveragePct <= 100.0
    requires percents == Times(inp.config.targetCoveragePct, w)
    ensures 100.0 * (Outstanding(inp) + Gap(inp, w)) == percents
  {
    PercentOf(w, inp.config.targetCoveragePct);
  }

  /** No layer holds any commitment. */
  predicate NothingHeld(inp: AllocationInput) {
    forall i :: 0 <= i < |inp.layers| ==>
      inp.layers[i].layer in inp.states && inp.states[inp.layers[i].layer].existing == Some(0.0)
  }

  lemma HeldMeansExisting(inp: AllocationInput)
    requires ValidInput(inp) && ConsistentSnapshot(inp.layers, inp.states)
    ensures NothingHeld(inp) <==> !HasExisting(inp.layers, inp.states)
  {
    if !NothingHeld(inp) {
      var i :| 0 <= i < |inp.layers| && inp.states[inp.layers[i].layer].existing != Some(0.0);
      assert inp.layers[i].layer in inp.states && 0.0 < inp.states[inp.layers[i].layer].existing.value;
    }
  }

  /** A run purchases exactly when what is outstanding falls short of a hundredth of the given amount
      by more than one cent, unless a residual basis leaves a partial target unsized. */
  predicate PurchasesExactlyBelow(inp: AllocationInput, percents: real) {
    && ValidInput(inp)
    && (Purchasing(inp) <==>
          && 100.0 * Outstanding(inp) + 1.0 < percents
          && (inp.baseline.basis.ResidualBasis? ==>
                inp.config.targetCoveragePct == 100.0 || NothingHeld(inp)))
  }

  /** The shares fill what is outstanding up to a hundredth of the given amount, and the purchases
      never pass it. */
  predicate FillsUpTo(inp: AllocationInput, percents: real)
    requires Purchasing(inp)
  {
    && 100.0 * (Outstanding(inp) + ShareSum(PlannedShares(inp))) == percents
    && 100.0 * (Outstanding(inp) + OdSum(Plan(inp).value.allocations)) <= percents
  }

  /** A run purchases exactly when something is left to buy, then it fills up what is outstanding. */
  predicate BuysUpTo(inp: AllocationInput, percents: real)
    requires Plan(inp).Success?
  {
    && PurchasesExactlyBelow(inp, percents)
    && (if Purchasing(inp) then FillsUpTo(inp, percents) else Plan(inp).value.allocations == [])
  }

  /** The target a run buys up to is the configured percentage of the low water. */
  lemma BuysUpToTarget(inp: AllocationInput, percents: real)
    requires Plan(inp).Success? && inp.baseline.lowWater.Some?
    requires percents == Times(inp.config.targetCoveragePct, inp.baseline.lowWater.value)
    ensures BuysUpTo(inp, percents)
  {
    SuccessfulInput(inp);
    GapFillsTarget(inp, inp.baseline.lowWater.value, percents);
    ClosesTheGap(inp, percents);
  }

  lemma SuccessfulInput(inp: AllocationInput)
    requires Plan(inp).Success?
    ensures ValidInput(inp) && inp.inFlight.Some? && 0.0 < inp.config.targetCoveragePct <= 100.0
    ensures inp.baseline.lowWater.Some? ==> 0.0 <= inp.baseline.lowWater.value
  {
  }

  lemma ClosesTheGap(inp: AllocationInput, percents: real)
    requires Plan(inp).Success? && inp.baseline.lowWater.Some? && ValidInput(inp)
    requires 100.0 * (Outstanding(inp) + Gap(inp, inp.baseline.lowWater.value)) == percents
    ensures BuysUpTo(inp, percents)
  {
    PurchasesToClose(inp, Gap(inp, inp.baseline.lowWater.value));
    if Purchasing(inp) {
      SharesCloseTheGap(inp, PlannedGap(inp));
    } else {
      EarlyExitBuysNothing(inp);
    }
  }

  lemma PurchasesToClose(inp: AllocationInput, gap: real)
    requires Plan(inp).Success? && inp.baseline.lowWater.Some? && ValidInput(inp)
    requires gap == Gap(inp, inp.baseline.lowWater.value)
    ensures Purchasing(inp) <==>
      && 1.0 < 100.0 * gap
      && (inp.baseline.basis.ResidualBasis? ==> inp.config.targetCoveragePct == 100.0 || NothingHeld(inp))
  {
    HeldMeansExisting(inp);
  }

  lemma SharesCloseTheGap(inp: AllocationInput, gap: real)
    requires Purchasing(inp) && gap == PlannedGap(inp)
    ensures ShareSum(PlannedShares(inp)) == gap && OdSum(Plan(inp).value.allocations) <= gap
  {
    PurchasesFitTheGap(inp);
    PlannedSharesSplitTheGap(inp);
  }

  /** The share a purchase came from. */
  lemma ShareOf(inp: AllocationInput, a: Allocation) returns (x: Share)
    requires Purchasing(inp) && a in Plan(inp).value.allocations
    ensures x in PlannedShares(inp) && x.layer == a.layer && a.od <= x.od && x.layer in inp.rates.value
    ensures MIN_ALLOCATABLE <= a.gap && 0.0 < a.od
    ensures a.rate == inp.rates.value[x.layer] && a.gap == ToCommitment(a.od, a.rate)
  {
    PlannedSharesSplitTheGap(inp);
    PlanReportsStages(inp);
    var xs, rates, scale := PlannedShares(inp), inp.rates.value, PlannedScale(inp);
    StagesTrace(xs, PlannedReshapes(inp), LimitsOf(inp));
    assert BoughtFrom(a, xs, rates, scale);
    x :| x in xs && x.layer in rates && a == Purchase(x, rates[x.layer], scale);
    PurchaseFacts(x, rates[x.layer], scale);
  }

  /** Every purchase reaches the minimum, and its commitment is its OD at a valid rate. */
  lemma PurchasesAreSized(inp: AllocationInput, a: Allocation)
    requires Plan(inp).Success? && a in Plan(inp).value.allocations
    ensures 0.01 <= a.gap && 0.0 < a.od && 0.0 < a.rate <= 1.0 && a.gap == Times(a.od, a.rate)
    ensures Known(inp.layers, a.layer)
  {
    PurchasesFitTheGap(inp);
    PlannedSharesSplitTheGap(inp);
    var x := ShareOf(inp, a);
  }

  /** The action limit only ever defers the smallest purchases. */
  lemma DeferredAreSmallest(inp: AllocationInput, h: Hold, a: Allocation)
    requires Plan(inp).Success? && h in Plan(inp).value.holds && a in Plan(inp).value.allocations
    requires h.reason.DeferredPurchase?
    ensures h.reason.commitment <= a.gap
  {
    PurchasesFitTheGap(inp);
    PlannedSharesSplitTheGap(inp);
    PlanReportsStages(inp);
    MaintenanceIsInformational(inp.layers, inp.states, inp.config.bufferUtilizationThresholdPct);
    StagesTrace(PlannedShares(inp), PlannedReshapes(inp), LimitsOf(inp));
  }

  /** A layer with only the base role is never pushed past the known stable level. */
  lemma BaseNeverPastStable(inp: AllocationInput, a: Allocation)
    requires Plan(inp).Success? && a in Plan(inp).value.allocations
    requires inp.baseline.stable.Some?
    requires FindLayer(inp.layers, BaseRole) == Some(a.layer) && FindLayer(inp.layers, BufferRole) != Some(a.layer)
    ensures BaseCommitted(inp) + a.od <= inp.baseline.stable.value
  {
    PurchasesFitTheGap(inp);
    var x := ShareOf(inp, a);
    BaseShareWithinStable(PlannedGap(inp), inp.config.bufferFraction, inp.layers, inp.baseline.stable.value,
                          BaseCommitted(inp), x);
  }

  // ---- Residual basis ---------------------------------------------------------------------

  /** What the same demand leaves to buy on a total basis: pct of (covered + residual), less both. */
  function TotalBasisGap(covered: real, residual: real, pct: real, inFlight: real): real {
    Target(covered + residual, pct) - covered - inFlight
  }

  /** A residual run never buys more than the total-demand sizing it stands in for. */
  lemma ResidualRefinesTotal(inp: AllocationInput, covered: real)
    requires Plan(inp).Success? && Residual(inp) && inp.baseline.lowWater.Some?
    requires 0.0 <= covered && (!HasExisting(inp.layers, inp.states) ==> covered == 0.0)
    ensures var total := TotalBasisGap(covered, inp.baseline.lowWater.value, inp.config.targetCoveragePct,
                                       OdTotal(inp.inFlight.value));
      && (inp.config.targetCoveragePct == 100.0 || covered == 0.0 ==> Gap(inp, inp.baseline.lowWater.value) == total)
      && OdSum(Plan(inp).value.allocations) <= (if total < 0.0 then 0.0 else total)
  {
    var w, pct := inp.baseline.lowWater.value, inp.config.targetCoveragePct;
    ResidualGap(inp, w);
    if pct == 100.0 || covered == 0.0 {
      BasesAgree(covered, w, pct);
    }
    PurchasesFitTheGap(inp);
  }

  /** A residual run sizes its target of the residual demand, less what is in flight. */
  lemma ResidualGap(inp: AllocationInput, w: real)
    requires Residual(inp) && inp.inFlight.Some?
    requires 0.0 <= w && 0.0 < inp.config.targetCoveragePct <= 100.0
    ensures Gap(inp, w) == Target(w, inp.config.targetCoveragePct) - OdTotal(inp.inFlight.value)
  {
    PartialTargetBelow(w, inp.config.targetCoveragePct);
  }

  /** At a full target, or with nothing covered, both bases size the same gap. */
  lemma BasesAgree(covered: real, w: real, pct: real)
    requires pct == 100.0 || covered == 0.0
    ensures Target(covered + w, pct) - covered == Target(w, pct)
  {
    TimesUnit(w);
    TimesUnit(covered + w);
    if pct == 100.0 {
      assert Over(pct, 100.0) == 1.0;
    } else {
      assert covered + w == w;
    }
  }

  lemma PartialTargetBelow(w: real, pct: real)
    requires 0.0 <= w && 0.0 < pct <= 100.0
    ensures Target(w, pct) <= w
  {
    TimesShrinks(w, Over(pct, 100.0));
  }
}
