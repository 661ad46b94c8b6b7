/** The action-limit branch in which the reshapes leave no room for any purchase. */
module LadderLimit {
  import opened Wrappers
  import opened LadderTypes
  import opened LadderUnits
  import opened LadderPipeline
  import opened LadderActions
  import opened LadderStages
  import opened LadderAllocate

  /** When the reshapes alone use up the limit while purchases remain: exactly a one-action run
      with its one reshape and at least one purchase. */
  lemma ReshapesFillTheLimit(inp: AllocationInput)
    requires Purchasing(inp)
    ensures var s, reshapes, limit := PlannedStages(inp), PlannedReshapes(inp), inp.config.maxActionsPerRun;
      (limit < |s.sized| + |reshapes| && limit <= |reshapes|)
      <==> limit == 1 && |reshapes| == 1 && |s.sized| >= 1
  {
    AtMostOneReshape(inp.layers, inp.states, inp.config.bufferUtilizationThresholdPct);
  }

  const TWO_LAYERS := [LayerSpec(ComputeSP, [FlexRole]), LayerSpec(ConvertibleRI, [BufferRole])]

  const ONE_ACTION_RUN := AllocationInput(
    TWO_LAYERS,
    map[ComputeSP := LayerState(Some(0.0), Some(0.0), None),
        ConvertibleRI := LayerState(Some(1.0), Some(0.0), Some(50.0))],
    Some(map[ComputeSP := 1.0]),
    Some([]),
    UsageBaseline(Some(10.0), None, TotalBasis),
    LadderConfig(None, [RampStep(0, 1.0)], 100.0, 0.0, 5.0, 30, 1, 90.0))

  lemma TwoLayersAreValid(layers: seq<LayerSpec>)
    requires layers == TWO_LAYERS
    ensures ValidLayers(layers)
  {
    assert layers[..1] == [layers[0]] && layers[..1][..0] == [];
    forall role ensures RoleCount(layers, role)
      == (if role == FlexRole then 1 else 0) + (if role == BufferRole then 1 else 0)
    {
      assert RoleCount(layers[..1], role) == if role == FlexRole then 1 else 0;
    }
  }

  lemma OneActionRunIsValid(inp: AllocationInput)
    requires inp == ONE_ACTION_RUN
    ensures ValidInput(inp)
  {
    TwoLayersAreValid(inp.layers);
    var layers, steps := inp.layers, inp.config.ramp;
    assert FractionSum(steps) == FractionSum(steps[..0]) + 1.0;
    assert Known(layers, layers[0].layer) && Known(layers, layers[1].layer);
  }

  lemma OneActionRunNets(inp: AllocationInput)
    requires inp == ONE_ACTION_RUN && ValidInput(inp)
    ensures NetTotal(inp.layers, inp.states) == 1.0
    ensures ConsistentSnapshot(inp.layers, inp.states) && ValidRates(inp.rates.value)
    ensures ValidInFlight(inp.layers, inp.inFlight.value) && !ResidualHeld(inp)
  {
    var layers := inp.layers;
    assert layers[..1] == [layers[0]] && layers[..1][..0] == [];
    assert NetTotal(layers[..1], inp.states) == 0.0;
  }

  lemma OneActionRunReshapes(inp: AllocationInput)
    requires inp == ONE_ACTION_RUN
    ensures Reshapes(inp.layers, inp.states, inp.config.bufferUtilizationThresholdPct) == ([ConvertibleRI], [])
  {
    var layers, states := inp.layers, inp.states;
    assert layers[..1] == [layers[0]] && layers[..1][..0] == [];
    assert Reshapes(layers[..1], states, 90.0) == ([], []);
    assert states[layers[1].layer] == LayerState(Some(1.0), Some(0.0), Some(50.0));
    assert [] + [ConvertibleRI] == [ConvertibleRI];
  }

  lemma OneActionRunSplit(inp: AllocationInput)
    requires inp == ONE_ACTION_RUN && NetTotal(inp.layers, inp.states) == 1.0
    ensures Gap(inp, 10.0) == 9.0
    ensures Split(inp, 9.0) == Success([Share(ComputeSP, 9.0)])
  {
    var layers := inp.layers;
    assert layers[1..] == [layers[1]];
    assert FindLayer(layers, BaseRole) == None && FindLayer(layers, FlexRole) == Some(ComputeSP);
    var shares := Split(inp, 9.0).value;
    assert shares == [Share(ComputeSP, 9.0)];
  }

  lemma SingleShare(x: Share, withheld: set<LayerType>, rates: map<LayerType, real>)
    requires x.layer !in withheld && x.layer in rates
    ensures WithholdReshaped([x], withheld) == ([x], [])
    ensures Convert([x], rates) == ([Sized(x, rates[x.layer])], [])
  {
    assert [x][..0] == [] && [] + [x] == [x];
    assert [] + [Sized(x, rates[x.layer])] == [Sized(x, rates[x.layer])];
  }

  lemma SingleSurvivor(a: Allocation)
    requires MIN_ALLOCATABLE <= a.gap
    ensures DropSubMinimum([a]) == ([a], [])
  {
    assert [a][..0] == [] && [] + [a] == [a];
  }

  /** One purchase against a limit already used up by one reshape. */
  lemma SinglePurchase(a: Allocation, r: LayerType, states: map<LayerType, LayerState>)
    ensures Truncate([a], [r], 1, states) == Actions([], [r], [Hold(a.layer, DeferredPurchase(a.gap))])
  {
    assert [a][..0] == [] && [] + [a] == [a] && [r][..0] == [] && [] + [r] == [r];
    assert Ranked([a]) == [a];
    assert ByUrgency(states, [r]) == [r];
    assert [r][..1] == [r] && [r][1..] == [];
    assert DeferralHolds([a]) == [Hold(a.layer, DeferredPurchase(a.gap))];
    assert ReshapeHolds([]) == [];
  }

  /** One share that is not withheld, sized and uncapped, against a limit used up by one reshape. */
  lemma SingleShareStages(x: Share, a: Allocation, r: LayerType, k: Limits)
    requires x.layer !in Withheld([r], k.layers) && x.layer in k.rates && a == Sized(x, k.rates[x.layer])
    requires MIN_ALLOCATABLE <= a.gap && k.spendCap.None? && k.maxActions == 1
    ensures RunStages([x], [r], k).actions == Actions([], [r], [Hold(a.layer, DeferredPurchase(a.gap))])
  {
    SingleShare(x, Withheld([r], k.layers), k.rates);
    SingleSurvivor(a);
    SinglePurchase(a, r, k.states);
  }

  lemma PlanFollowsStages(inp: AllocationInput, gap: real, xs: seq<Share>, actions: Actions)
    requires ValidInput(inp) && ConsistentSnapshot(inp.layers, inp.states)
    requires ValidRates(inp.rates.value) && ValidInFlight(inp.layers, inp.inFlight.value)
    requires inp.baseline.lowWater.Some? && 0.0 <= inp.baseline.lowWater.value
    requires Gap(inp, inp.baseline.lowWater.value) == gap && MIN_ALLOCATABLE < gap && !ResidualHeld(inp)
    requires Split(inp, gap) == Success(xs)
    requires RunStages(xs, PlannedReshapes(inp), LimitsOf(inp)).actions == actions
    ensures Purchasing(inp)
    ensures var r := Plan(inp).value;
      && r.allocations == actions.allocs && r.reshapes == actions.reshapes
      && forall h :: h in actions.holds ==> h in r.holds
  {
  }

  /** The source calls the branch above unreachable; this valid run takes it, and its only
      purchase is deferred in favour of the reshape. */
  lemma LimitBranchIsReachable(inp: AllocationInput)
    requires inp == ONE_ACTION_RUN
    ensures Purchasing(inp)
    ensures var r := Plan(inp).value;
      r.allocations == [] && r.reshapes == [ConvertibleRI] && Hold(ComputeSP, DeferredPurchase(9.0)) in r.holds
  {
    OneActionRunIsValid(inp);
    OneActionRunNets(inp);
    OneActionRunReshapes(inp);
    OneActionRunSplit(inp);
    var x, a := Share(ComputeSP, 9.0), Allocation(ComputeSP, 9.0, 9.0, 1.0);
    assert Sized(x, 1.0) == a;
    SingleShareStages(x, a, ConvertibleRI, LimitsOf(inp));
    PlanFollowsStages(inp, 9.0, [Share(ComputeSP, 9.0)],
                      Actions([], [ConvertibleRI], [Hold(ComputeSP, DeferredPurchase(9.0))]));
  }
}
