/** Whole runs of the ladder: planning, firing, canceling and expiry over any number of steps. */
module LadderRun {
  import opened Wrappers
  import opened LadderTypes
  import opened LadderUnits
  import opened LadderPipeline
  import opened LadderAllocate
  import opened LadderTranches
  import opened RealMath

  /** What the store and the cloud hold between runs. */
  datatype Ladder = Ladder(states: map<LayerType, LayerState>, tranches: seq<Tranche>)

  datatype Step =
    | PlanRun(inp: AllocationInput, runId: string, now: nat, ids: nat -> string)
    | Fire(fired: nat)
    | Complete(completed: nat)
    | Fail(failed: nat)
    | FailFired(lost: nat, remaining: map<LayerType, LayerState>)
    | Cancel(canceled: nat)
    | Lapse(states: map<LayerType, LayerState>)

  predicate WellFormed(layers: seq<LayerSpec>, s: Ladder) {
    && DistinctLayers(layers)
    && ValidStates(layers, s.states)
    && forall i :: 0 <= i < |s.tranches| ==>
         Known(layers, s.tranches[i].layer) && 0.0 <= s.tranches[i].amount && ValidRate(s.tranches[i].rate)
  }

  /** Existing commitment of a layer after a purchase of the given OD took effect. */
  function Grown(states: map<LayerType, LayerState>, l: LayerType, od: real): map<LayerType, LayerState> {
    if l in states && states[l].existing.Some?
    then states[l := states[l].(existing := Some(states[l].existing.value + od))]
    else states
  }

  /** The tranches a plan run schedules: none when planning or laying out the ramp fails. */
  function PlannedRows(step: Step): seq<Tranche>
    requires step.PlanRun?
  {
    match Plan(step.inp)
    case Failure(_) => []
    case Success(r) =>
      var batch := TrancheInput(step.inp.config, step.runId, step.now, r.allocations);
      var rows := AllRows(batch, step.ids, |r.allocations|);
      if ValidTrancheInput(batch) && UniqueIds(rows) then rows else []
  }

  function CoveredOd(t: Tranche): real {
    ToOd(t.amount, t.rate)
  }

  predicate InStatus(s: Ladder, i: nat, status: TrancheStatus) {
    i < |s.tranches| && s.tranches[i].status == status
  }

  function SetStatus(s: Ladder, i: nat, status: TrancheStatus): Ladder
    requires i < |s.tranches|
  {
    s.(tranches := s.tranches[i := s.tranches[i].(status := status)])
  }

  /** The target percentage of the low water is within the bound. */
  predicate TargetsWithin(inp: AllocationInput, bound: real) {
    inp.baseline.lowWater.Some? ==> inp.config.targetCoveragePct * inp.baseline.lowWater.value <= 100.0 * bound
  }

  /** A plan run reads the ladder as it stands, on a total basis whose target is within the bound. */
  predicate PlansFrom(layers: seq<LayerSpec>, bound: real, s: Ladder, inp: AllocationInput) {
    && inp.layers == layers
    && inp.states == s.states
    && inp.inFlight == Some(InFlightOf(s.tranches))
    && inp.baseline.basis.TotalBasis?
    && TargetsWithin(inp, bound)
  }

  /** Commitments may expire, be announced as expiring or turn out not to have been bought; they
      never appear by themselves. */
  predicate OnlyLapses(layers: seq<LayerSpec>, before: map<LayerType, LayerState>, after: map<LayerType, LayerState>) {
    && ValidStates(layers, after)
    && forall i :: 0 <= i < |layers| ==> NetAt(after, layers[i].layer) <= NetAt(before, layers[i].layer)
  }

  predicate Enabled(layers: seq<LayerSpec>, bound: real, s: Ladder, step: Step) {
    match step
    case PlanRun(inp, _, _, _) => PlansFrom(layers, bound, s, inp)
    case Fire(i) => InStatus(s, i, Scheduled)
    case Complete(i) => InStatus(s, i, Fired)
    case Fail(i) => InStatus(s, i, Scheduled)
    case FailFired(i, remaining) => InStatus(s, i, Fired) && OnlyLapses(layers, s.states, remaining)
    case Cancel(i) => InStatus(s, i, Scheduled)
    case Lapse(after) => OnlyLapses(layers, s.states, after)
  }

  function After(layers: seq<LayerSpec>, bound: real, s: Ladder, step: Step): Ladder
    requires Enabled(layers, bound, s, step)
  {
    match step
    case PlanRun(_, _, _, _) => s.(tranches := s.tranches + PlannedRows(step))
    case Fire(i) =>
      var t := s.tranches[i];
      SetStatus(s, i, Fired).(states := Grown(s.states, t.layer, CoveredOd(t)))
    case Complete(i) => SetStatus(s, i, Completed)
    case Fail(i) => SetStatus(s, i, FailedToFire)
    case FailFired(i, remaining) => SetStatus(s, i, FailedToFire).(states := remaining)
    case Cancel(i) => SetStatus(s, i, Canceled)
    case Lapse(after) => s.(states := after)
  }

  /** Net existing plus in-flight OD: what the next run would net out of its target. */
  function Committed(layers: seq<LayerSpec>, s: Ladder): real {
    NetTotal(layers, s.states) + OdTotal(InFlightOf(s.tranches))
  }

  function CommittedOn(s: Ladder, l: LayerType): real {
    NetAt(s.states, l) + OdOn(InFlightOf(s.tranches), l)
  }

  // ---- In-flight OD of the stored tranches ------------------------------------------------

  function Pending(t: Tranche): real {
    if t.status == Scheduled then CoveredOd(t) else 0.0
  }

  function PendingTotal(ts: seq<Tranche>): real {
    if ts == [] then 0.0 else PendingTotal(ts[..|ts| - 1]) + Pending(ts[|ts| - 1])
  }

  function PendingOn(ts: seq<Tranche>, l: LayerType): real {
    if ts == [] then 0.0
    else PendingOn(ts[..|ts| - 1], l) + (if ts[|ts| - 1].layer == l then Pending(ts[|ts| - 1]) else 0.0)
  }

  /** What one more stored tranche adds to the in-flight input. */
  lemma OneMorePending(flying: seq<InFlightTranche>, t: Tranche, l: LayerType)
    ensures var next := flying + (if t.status == Scheduled then [InFlightTranche(t.layer, t.amount, t.rate)] else []);
      && OdTotal(next) == OdTotal(flying) + Pending(t)
      && OdOn(next, l) == OdOn(flying, l) + (if t.layer == l then Pending(t) else 0.0)
  {
    if t.status == Scheduled {
      AppendInFlight(flying, InFlightTranche(t.layer, t.amount, t.rate), l);
    } else {
      assert flying + [] == flying;
    }
  }

  lemma {:induction false} PendingIsInFlight(ts: seq<Tranche>, l: LayerType)
    ensures OdTotal(InFlightOf(ts)) == PendingTotal(ts)
    ensures OdOn(InFlightOf(ts), l) == PendingOn(ts, l)
  {
    if ts != [] {
      PendingIsInFlight(ts[..|ts| - 1], l);
      OneMorePending(InFlightOf(ts[..|ts| - 1]), ts[|ts| - 1], l);
    }
  }

  lemma {:induction false} PendingUpdate(ts: seq<Tranche>, i: nat, t: Tranche, l: LayerType)
    requires i < |ts| && t.layer == ts[i].layer
    ensures PendingTotal(ts[i := t]) == PendingTotal(ts) - Pending(ts[i]) + Pending(t)
    ensures PendingOn(ts[i := t], l) == PendingOn(ts, l) + (if t.layer == l then Pending(t) - Pending(ts[i]) else 0.0)
  {
    var last := |ts| - 1;
    if i < last {
      PendingUpdate(ts[..last], i, t, l);
      assert ts[i := t][..last] == ts[..last][i := t];
    } else {
      assert ts[i := t][..last] == ts[..last];
    }
  }

  /** Leaving the scheduled status takes exactly the tranche's OD out of flight. */
  lemma StatusChange(s: Ladder, i: nat, status: TrancheStatus, l: LayerType)
    requires i < |s.tranches| && status != Scheduled
    ensures var t, after := s.tranches[i], SetStatus(s, i, status);
      && OdTotal(InFlightOf(after.tranches)) == OdTotal(InFlightOf(s.tranches)) - Pending(t)
      && OdOn(InFlightOf(after.tranches), l)
         == OdOn(InFlightOf(s.tranches), l) - (if t.layer == l then Pending(t) else 0.0)
  {
    var t := s.tranches[i].(status := status);
    PendingUpdate(s.tranches, i, t, l);
    PendingIsInFlight(s.tranches, l);
    PendingIsInFlight(s.tranches[i := t], l);
  }

  lemma PendingNonNegative(t: Tranche)
    requires 0.0 <= t.amount && ValidRate(t.rate)
    ensures 0.0 <= Pending(t) && 0.0 <= CoveredOd(t)
  {
    OverGrows(t.amount, t.rate);
  }

  // ---- Existing commitment ----------------------------------------------------------------

  lemma {:induction false} NetTotalOf(layers: seq<LayerSpec>, before: map<LayerType, LayerState>,
                                      after: map<LayerType, LayerState>, l: LayerType, od: real)
    requires DistinctLayers(layers)
    requires forall m :: NetAt(after, m) == NetAt(before, m) + (if m == l then od else 0.0)
    ensures NetTotal(layers, after) == NetTotal(layers, before) + (if Known(layers, l) then od else 0.0)
  {
    if layers != [] {
      var last := |layers| - 1;
      NetTotalOf(layers[..last], before, after, l, od);
      KnownInPrefix(layers, l);
    }
  }

  lemma KnownInPrefix(layers: seq<LayerSpec>, l: LayerType)
    requires layers != [] && DistinctLayers(layers)
    ensures var last := |layers| - 1;
      && (Known(layers, l) <==> Known(layers[..last], l) || layers[last].layer == l)
      && !(Known(layers[..last], l) && layers[last].layer == l)
  {
    var last := |layers| - 1;
    if Known(layers[..last], l) {
      var i :| 0 <= i < last && layers[..last][i].layer == l;
      assert layers[i].layer == l;
    }
    if Known(layers, l) && layers[last].layer != l {
      var i :| 0 <= i < |layers| && layers[i].layer == l;
      assert layers[..last][i].layer == l;
    }
  }

  lemma GrownNet(states: map<LayerType, LayerState>, l: LayerType, od: real, m: LayerType)
    requires l in states && states[l].existing.Some? && states[l].expiring.Some?
    ensures NetAt(Grown(states, l, od), m) == NetAt(states, m) + (if m == l then od else 0.0)
  {
  }

  lemma {:induction false} NetTotalShrinks(layers: seq<LayerSpec>, before: map<LayerType, LayerState>,
                                           after: map<LayerType, LayerState>)
    requires forall i :: 0 <= i < |layers| ==> NetAt(after, layers[i].layer) <= NetAt(before, layers[i].layer)
    ensures NetTotal(layers, after) <= NetTotal(layers, before)
  {
    if layers != [] {
      NetTotalShrinks(layers[..|layers| - 1], before, after);
    }
  }

  // ---- Single steps -----------------------------------------------------------------------

  lemma StateOfKnown(layers: seq<LayerSpec>, states: map<LayerType, LayerState>, l: LayerType)
    requires ValidStates(layers, states) && Known(layers, l)
    ensures l in states && states[l].existing.Some? && states[l].expiring.Some?
  {
  }

  /** Firing moves OD from in flight to existing: the total stays exactly the same. */
  lemma FireKeepsCommitted(layers: seq<LayerSpec>, bound: real, s: Ladder, i: nat, l: LayerType)
    requires WellFormed(layers, s) && InStatus(s, i, Scheduled)
    ensures Committed(layers, After(layers, bound, s, Fire(i))) == Committed(layers, s)
    ensures CommittedOn(After(layers, bound, s, Fire(i)), l) == CommittedOn(s, l)
  {
    var t := s.tranches[i];
    StatusChange(s, i, Fired, l);
    StateOfKnown(layers, s.states, t.layer);
    var after := Grown(s.states, t.layer, CoveredOd(t));
    forall m ensures NetAt(after, m) == NetAt(s.states, m) + (if m == t.layer then CoveredOd(t) else 0.0) {
      GrownNet(s.states, t.layer, CoveredOd(t), m);
    }
    NetTotalOf(layers, s.states, after, t.layer, CoveredOd(t));
  }

  /** A fired purchase that fails and leaves nothing behind is a tranche that never fired. */
  lemma FailingLateIsFailingEarly(layers: seq<LayerSpec>, bound: real, s: Ladder, i: nat)
    requires WellFormed(layers, s) && InStatus(s, i, Scheduled)
    ensures var fired := After(layers, bound, s, Fire(i));
      && Enabled(layers, bound, fired, FailFired(i, s.states))
      && After(layers, bound, fired, FailFired(i, s.states)) == After(layers, bound, s, Fail(i))
  {
    var t := s.tranches[i];
    var fired := After(layers, bound, s, Fire(i));
    StateOfKnown(layers, s.states, t.layer);
    PendingNonNegative(t);
    forall k | 0 <= k < |layers| ensures NetAt(s.states, layers[k].layer) <= NetAt(fired.states, layers[k].layer) {
      GrownNet(s.states, t.layer, CoveredOd(t), layers[k].layer);
    }
    assert SetStatus(fired, i, FailedToFire).tranches == SetStatus(s, i, FailedToFire).tranches;
  }

  /** OD a plan run adds to what is in flight. */
  function BoughtOd(step: Step): real
    requires step.PlanRun?
  {
    if PlannedRows(step) == [] then 0.0 else OdSum(Plan(step.inp).value.allocations)
  }

  lemma RowsCoverPlan(layers: seq<LayerSpec>, bound: real, s: Ladder, step: Step, l: LayerType)
    requires step.PlanRun? && PlansFrom(layers, bound, s, step.inp)
    ensures OdTotal(InFlightOf(PlannedRows(step))) == BoughtOd(step)
    ensures OdOn(InFlightOf(PlannedRows(step)), l)
         == if PlannedRows(step) == [] then 0.0 else OdOnAllocs(Plan(step.inp).value.allocations, l)
  {
    if PlannedRows(step) != [] {
      var allocs := Plan(step.inp).value.allocations;
      forall a | a in allocs ensures 0.0 < a.gap && ValidRate(a.rate) && a.gap == ToCommitment(a.od, a.rate) {
        PurchasesAreSized(step.inp, a);
      }
      BatchCoversOd(TrancheInput(step.inp.config, step.runId, step.now, allocs), step.ids, |allocs|, l);
      assert allocs[..|allocs|] == allocs;
    }
  }

  /** A plan run raises the total by exactly the OD it bought, and never past its ceiling. */
  lemma PlanStep(layers: seq<LayerSpec>, bound: real, s: Ladder, step: Step)
    requires step.PlanRun? && PlansFrom(layers, bound, s, step.inp)
    ensures Committed(layers, After(layers, bound, s, step)) == Committed(layers, s) + BoughtOd(step)
    ensures PlannedRows(step) != [] ==> Committed(layers, s) + BoughtOd(step) <= bound
  {
    InFlightConcat(s.tranches, PlannedRows(step));
    OdTotalConcat(InFlightOf(s.tranches), InFlightOf(PlannedRows(step)));
    RowsCoverPlan(layers, bound, s, step, ComputeSP);
    if PlannedRows(step) != [] {
      PlanWithinBound(layers, bound, s, step.inp);
    }
  }

  /** What a run buys on top of what is committed stays within the target it plans up to. */
  lemma PlanWithinBound(layers: seq<LayerSpec>, bound: real, s: Ladder, inp: AllocationInput)
    requires PlansFrom(layers, bound, s, inp) && Plan(inp).Success? && Plan(inp).value.allocations != []
    ensures Committed(layers, s) + OdSum(Plan(inp).value.allocations) <= bound
  {
    PurchaseNeedsBaseline(inp);
    BuysWithin(inp, bound);
    CommittedIsOutstanding(layers, bound, s, inp);
  }

  lemma CommittedIsOutstanding(layers: seq<LayerSpec>, bound: real, s: Ladder, inp: AllocationInput)
    requires PlansFrom(layers, bound, s, inp)
    ensures inp.inFlight.Some? && Outstanding(inp) == Committed(layers, s)
  {
  }

  lemma BuysWithin(inp: AllocationInput, bound: real)
    requires Purchasing(inp) && TargetsWithin(inp, bound)
    ensures inp.inFlight.Some? && Outstanding(inp) + OdSum(Plan(inp).value.allocations) <= bound
  {
    var percents := TargetAmount(inp, bound);
    BuysUpToTarget(inp, percents);
    FilledWithin(inp, percents, bound);
  }

  lemma TargetAmount(inp: AllocationInput, bound: real) returns (percents: real)
    requires inp.baseline.lowWater.Some? && TargetsWithin(inp, bound)
    ensures percents == Times(inp.config.targetCoveragePct, inp.baseline.lowWater.value) <= 100.0 * bound
  {
    percents := Times(inp.config.targetCoveragePct, inp.baseline.lowWater.value);
  }

  lemma FilledWithin(inp: AllocationInput, percents: real, bound: real)
    requires Purchasing(inp) && FillsUpTo(inp, percents) && percents <= 100.0 * bound
    ensures inp.inFlight.Some? && Outstanding(inp) + OdSum(Plan(inp).value.allocations) <= bound
  {
  }

  lemma PurchaseNeedsBaseline(inp: AllocationInput)
    requires Plan(inp).Success? && Plan(inp).value.allocations != []
    ensures inp.baseline.lowWater.Some? && Purchasing(inp)
  {
    PurchasesFitTheGap(inp);
  }

  lemma {:induction false} FirstAllocationOd(s: seq<Allocation>)
    requires forall a :: a in s ==> MIN_ALLOCATABLE <= a.od
    ensures s != [] ==> MIN_ALLOCATABLE <= OdSum(s)
    ensures 0.0 <= OdSum(s)
  {
    if s != [] {
      FirstAllocationOd(s[..|s| - 1]);
    }
  }

  /** A run that schedules anything at all commits at least the minimum. */
  lemma PurchaseIsSubstantial(step: Step)
    requires step.PlanRun? && PlannedRows(step) != []
    ensures MIN_ALLOCATABLE <= BoughtOd(step)
  {
    var allocs := Plan(step.inp).value.allocations;
    forall a | a in allocs ensures MIN_ALLOCATABLE <= a.od {
      PurchasesAreSized(step.inp, a);
      OverGrows(a.gap, a.rate);
      ConversionRoundTrip(a.od, a.rate);
    }
    FirstAllocationOd(allocs);
  }

  predicate Withdraws(step: Step) {
    step.Cancel? || step.Fail? || step.FailFired? || step.Lapse?
  }

  /** One step keeps the total within the larger of its value and the bound; only withdrawals lower it. */
  lemma StepKeepsBound(layers: seq<LayerSpec>, bound: real, s: Ladder, step: Step)
    requires WellFormed(layers, s) && Enabled(layers, bound, s, step)
    ensures var c, c' := Committed(layers, s), Committed(layers, After(layers, bound, s, step));
      && (c' <= c || c' <= bound)
      && (!Withdraws(step) ==> c <= c')
      && (step.PlanRun? && PlannedRows(step) != [] ==> c + MIN_ALLOCATABLE <= c' <= bound)
  {
    match step
    case PlanRun(inp, _, _, _) =>
      PlanStep(layers, bound, s, step);
      if PlannedRows(step) != [] {
        PurchaseIsSubstantial(step);
      }
    case Fire(i) => FireKeepsCommitted(layers, bound, s, i, ComputeSP);
    case Complete(i) => StatusChange(s, i, Completed, ComputeSP);
    case Fail(i) =>
      StatusChange(s, i, FailedToFire, ComputeSP);
      PendingNonNegative(s.tranches[i]);
    case FailFired(i, remaining) =>
      StatusChange(s, i, FailedToFire, ComputeSP);
      NetTotalShrinks(layers, s.states, remaining);
    case Cancel(i) =>
      StatusChange(s, i, Canceled, ComputeSP);
      PendingNonNegative(s.tranches[i]);
    case Lapse(after) => NetTotalShrinks(layers, s.states, after);
  }

  lemma {:induction false} RowsKeepShape(inp: TrancheInput, ids: nat -> string, m: nat, i: nat)
    requires ValidTrancheInput(inp) && m <= |inp.allocations| && i < |AllRows(inp, ids, m)|
    ensures var t := AllRows(inp, ids, m)[i];
      && 0.0 <= t.amount && ValidRate(t.rate)
      && exists a :: a in inp.allocations && t.layer == a.layer
  {
    var before, a := AllRows(inp, ids, m - 1), inp.allocations[m - 1];
    if i < |before| {
      RowsKeepShape(inp, ids, m - 1, i);
    } else {
      RampIsExact(inp, a, ids, |before|);
      assert KeepsItsStep(inp, a, OwnRows(inp, a, ids, |before|)[i - |before|]);
    }
  }

  lemma PlannedRowsShape(layers: seq<LayerSpec>, step: Step)
    requires step.PlanRun? && step.inp.layers == layers
    ensures forall i :: 0 <= i < |PlannedRows(step)| ==>
      var t := PlannedRows(step)[i];
      Known(layers, t.layer) && 0.0 <= t.amount && ValidRate(t.rate)
  {
    if PlannedRows(step) != [] {
      var allocs := Plan(step.inp).value.allocations;
      var batch := TrancheInput(step.inp.config, step.runId, step.now, allocs);
      forall i | 0 <= i < |PlannedRows(step)|
        ensures var t := PlannedRows(step)[i]; Known(layers, t.layer) && 0.0 <= t.amount && ValidRate(t.rate)
      {
        RowsKeepShape(batch, step.ids, |allocs|, i);
        var a :| a in allocs && PlannedRows(step)[i].layer == a.layer;
        PurchasesAreSized(step.inp, a);
      }
    }
  }

  lemma StepKeepsShape(layers: seq<LayerSpec>, bound: real, s: Ladder, step: Step)
    requires WellFormed(layers, s) && Enabled(layers, bound, s, step)
    ensures WellFormed(layers, After(layers, bound, s, step))
  {
    match step
    case PlanRun(_, _, _, _) => PlannedRowsShape(layers, step);
    case Fire(i) =>
      StateOfKnown(layers, s.states, s.tranches[i].layer);
      SetStatusKeepsShape(layers, s, i, Fired);
    case Complete(i) => SetStatusKeepsShape(layers, s, i, Completed);
    case Fail(i) => SetStatusKeepsShape(layers, s, i, FailedToFire);
    case FailFired(i, _) => SetStatusKeepsShape(layers, s, i, FailedToFire);
    case Cancel(i) => SetStatusKeepsShape(layers, s, i, Canceled);
    case Lapse(_) =>
  }

  lemma SetStatusKeepsShape(layers: seq<LayerSpec>, s: Ladder, i: nat, status: TrancheStatus)
    requires WellFormed(layers, s) && i < |s.tranches|
    ensures WellFormed(layers, SetStatus(s, i, status))
  {
  }

  // ---- Whole runs -------------------------------------------------------------------------

  predicate Runs(layers: seq<LayerSpec>, bound: real, s: Ladder, steps: seq<Step>)
    decreases |steps|
  {
    steps != [] ==>
      Enabled(layers, bound, s, steps[0]) && Runs(layers, bound, After(layers, bound, s, steps[0]), steps[1..])
  }

  function Final(layers: seq<LayerSpec>, bound: real, s: Ladder, steps: seq<Step>): Ladder
    requires Runs(layers, bound, s, steps)
    decreases |steps|
  {
    if steps == [] then s else Final(layers, bound, After(layers, bound, s, steps[0]), steps[1..])
  }

  /** Number of plan runs that scheduled a purchase. */
  function Purchases(steps: seq<Step>): nat {
    if steps == [] then 0
    else (if steps[0].PlanRun? && PlannedRows(steps[0]) != [] then 1 else 0) + Purchases(steps[1..])
  }

  function Larger(x: real, y: real): real {
    if x <= y then y else x
  }

  /** Over any interleaving of plan runs, firings, failures, cancellations and expiries, what is
      committed never exceeds the larger of its start value and min(target, low water). */
  lemma {:induction false} NeverOvercommits(layers: seq<LayerSpec>, bound: real, s: Ladder, steps: seq<Step>)
    requires WellFormed(layers, s) && Runs(layers, bound, s, steps)
    ensures Committed(layers, Final(layers, bound, s, steps)) <= Larger(Committed(layers, s), bound)
    ensures WellFormed(layers, Final(layers, bound, s, steps))
    decreases |steps|
  {
    if steps != [] {
      StepKeepsBound(layers, bound, s, steps[0]);
      StepKeepsShape(layers, bound, s, steps[0]);
      NeverOvercommits(layers, bound, After(layers, bound, s, steps[0]), steps[1..]);
    }
  }

  /** Without withdrawals every purchasing run commits at least 1/100 more. */
  lemma {:induction false} PurchasesAddUp(layers: seq<LayerSpec>, bound: real, s: Ladder, steps: seq<Step>)
    requires WellFormed(layers, s) && Runs(layers, bound, s, steps)
    requires forall step :: step in steps ==> !Withdraws(step)
    ensures Committed(layers, s) + Purchases(steps) as real * MIN_ALLOCATABLE
         <= Committed(layers, Final(layers, bound, s, steps))
    decreases |steps|
  {
    if steps != [] {
      assert steps[0] in steps && forall step :: step in steps[1..] ==> step in steps;
      StepKeepsBound(layers, bound, s, steps[0]);
      StepKeepsShape(layers, bound, s, steps[0]);
      PurchasesAddUp(layers, bound, After(layers, bound, s, steps[0]), steps[1..]);
    }
  }

  /** So from gap g at most floor(100 * g) runs can purchase. */
  lemma PlanningConverges(layers: seq<LayerSpec>, bound: real, s: Ladder, steps: seq<Step>)
    requires WellFormed(layers, s) && Runs(layers, bound, s, steps)
    requires forall step :: step in steps ==> !Withdraws(step)
    ensures var gap := Larger(bound - Committed(layers, s), 0.0);
      Purchases(steps) <= (100.0 * gap).Floor
  {
    NeverOvercommits(layers, bound, s, steps);
    PurchasesAddUp(layers, bound, s, steps);
  }

  // ---- The base layer ---------------------------------------------------------------------

  /** A plan run whose known stable level is within the given one. */
  predicate StableWithin(step: Step, stable: real) {
    step.PlanRun? ==> step.inp.baseline.stable.Some? && step.inp.baseline.stable.value <= stable
  }

  predicate BaseOnly(layers: seq<LayerSpec>, base: LayerType) {
    FindLayer(layers, BaseRole) == Some(base) && FindLayer(layers, BufferRole) != Some(base)
  }

  lemma {:induction false} OneAllocationOn(s: seq<Allocation>, l: LayerType)
    requires AllocCount(s, l) <= 1
    ensures AllocCount(s, l) == 0 ==> OdOnAllocs(s, l) == 0.0
    ensures AllocCount(s, l) == 1 ==> exists a :: a in s && a.layer == l && OdOnAllocs(s, l) == a.od
  {
    if s != [] {
      var rest, last := s[..|s| - 1], s[|s| - 1];
      OneAllocationOn(rest, l);
      if last.layer == l {
        assert last in s && OdOnAllocs(s, l) == last.od;
      } else if AllocCount(rest, l) == 1 {
        var a :| a in rest && a.layer == l && OdOnAllocs(rest, l) == a.od;
        assert a in s;
      }
    }
  }

  lemma BasePurchaseFits(layers: seq<LayerSpec>, bound: real, s: Ladder, step: Step, base: LayerType, stable: real)
    requires step.PlanRun? && PlansFrom(layers, bound, s, step.inp)
    requires BaseOnly(layers, base) && StableWithin(step, stable)
    ensures var c, c' := CommittedOn(s, base), CommittedOn(After(layers, bound, s, step), base);
      c' <= c || c' <= stable
  {
    InFlightConcat(s.tranches, PlannedRows(step));
    OdOnConcat(InFlightOf(s.tranches), InFlightOf(PlannedRows(step)), base);
    RowsCoverPlan(layers, bound, s, step, base);
    if PlannedRows(step) != [] {
      var allocs := Plan(step.inp).value.allocations;
      PurchasesFitTheGap(step.inp);
      GapIsConserved(step.inp, base);
      OneAllocationOn(allocs, base);
      if AllocCount(allocs, base) == 1 {
        var a :| a in allocs && a.layer == base && OdOnAllocs(allocs, base) == a.od;
        BaseNeverPastStable(step.inp, a);
      }
    }
  }

  lemma StepKeepsStable(layers: seq<LayerSpec>, bound: real, s: Ladder, step: Step, base: LayerType, stable: real)
    requires WellFormed(layers, s) && Enabled(layers, bound, s, step)
    requires BaseOnly(layers, base) && StableWithin(step, stable)
    ensures var c, c' := CommittedOn(s, base), CommittedOn(After(layers, bound, s, step), base);
      c' <= c || c' <= stable
  {
    match step
    case PlanRun(_, _, _, _) => BasePurchaseFits(layers, bound, s, step, base, stable);
    case Fire(i) => FireKeepsCommitted(layers, bound, s, i, base);
    case Complete(i) => StatusChange(s, i, Completed, base);
    case Fail(i) =>
      StatusChange(s, i, FailedToFire, base);
      PendingNonNegative(s.tranches[i]);
    case FailFired(i, _) =>
      StatusChange(s, i, FailedToFire, base);
      var l := FindLayerCarries(layers, BaseRole);
    case Cancel(i) =>
      StatusChange(s, i, Canceled, base);
      PendingNonNegative(s.tranches[i]);
    case Lapse(after) =>
      var i := FindLayerCarries(layers, BaseRole);
  }

  /** Over any run whose stable levels stay within one value, a layer that only carries the base
      role is never committed past it, unless it already was. */
  lemma {:induction false} BaseStaysStable(layers: seq<LayerSpec>, bound: real, s: Ladder, steps: seq<Step>,
                                           base: LayerType, stable: real)
    requires WellFormed(layers, s) && Runs(layers, bound, s, steps) && BaseOnly(layers, base)
    requires forall step :: step in steps ==> StableWithin(step, stable)
    ensures CommittedOn(Final(layers, bound, s, steps), base) <= Larger(CommittedOn(s, base), stable)
    decreases |steps|
  {
    if steps != [] {
      assert steps[0] in steps && forall step :: step in steps[1..] ==> step in steps;
      StepKeepsStable(layers, bound, s, steps[0], base, stable);
      StepKeepsShape(layers, bound, s, steps[0]);
      BaseStaysStable(layers, bound, After(layers, bound, s, steps[0]), steps[1..], base, stable);
    }
  }

  // ---- Planning again ---------------------------------------------------------------------

  /** Purchases taking effect and completing: steps that neither plan nor withdraw. */
  predicate Settles(step: Step) {
    step.Fire? || step.Complete?
  }

  lemma {:induction false} SettlingKeepsCommitted(layers: seq<LayerSpec>, bound: real, s: Ladder, steps: seq<Step>)
    requires WellFormed(layers, s) && Runs(layers, bound, s, steps)
    requires forall step :: step in steps ==> Settles(step)
    ensures Committed(layers, Final(layers, bound, s, steps)) == Committed(layers, s)
    decreases |steps|
  {
    if steps != [] {
      var step := steps[0];
      assert step in steps && forall later :: later in steps[1..] ==> later in steps;
      match step {
        case Fire(i) => FireKeepsCommitted(layers, bound, s, i, ComputeSP);
        case Complete(i) => StatusChange(s, i, Completed, ComputeSP);
      }
      StepKeepsShape(layers, bound, s, step);
      SettlingKeepsCommitted(layers, bound, After(layers, bound, s, step), steps[1..]);
    }
  }

  /** Planning again on the same baseline finds the gap smaller by exactly what was scheduled, however
      many of the tranches fired in between; once the whole gap was bought it buys nothing. */
  lemma PlanningAgain(layers: seq<LayerSpec>, bound: real, s: Ladder, step: Step, settling: seq<Step>,
                      again: AllocationInput)
    requires WellFormed(layers, s)
    requires step.PlanRun? && PlansFrom(layers, bound, s, step.inp) && step.inp.baseline.lowWater.Some?
    requires Runs(layers, bound, After(layers, bound, s, step), settling)
    requires forall later :: later in settling ==> Settles(later)
    requires PlansFrom(layers, bound, Final(layers, bound, After(layers, bound, s, step), settling), again)
    requires again.baseline == step.inp.baseline && again.config == step.inp.config
    ensures var w := step.inp.baseline.lowWater.value;
      && Gap(again, w) == Gap(step.inp, w) - BoughtOd(step)
      && (BoughtOd(step) == Gap(step.inp, w) && Plan(again).Success? ==> Plan(again).value.allocations == [])
  {
    PlanStep(layers, bound, s, step);
    StepKeepsShape(layers, bound, s, step);
    SettlingKeepsCommitted(layers, bound, After(layers, bound, s, step), settling);
    if Plan(again).Success? {
      PurchasesFitTheGap(again);
    }
  }
}
