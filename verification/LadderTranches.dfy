/** BuildTranches: spreads each allocation over the ramp without losing or adding anything. */
module LadderTranches {
  import opened Wrappers
  import opened LadderTypes
  import opened LadderValidation
  import opened LadderUnits
  import opened LadderPipeline
  import opened RealMath

  datatype TrancheStatus = Scheduled | Fired | Completed | Canceled | FailedToFire

  datatype Tranche = Tranche(
    id: string, runId: string, stepIndex: nat, status: TrancheStatus,
    fireAfter: int, amount: real, layer: LayerType, rate: real)

  datatype TrancheInput = TrancheInput(config: LadderConfig, runId: string, now: nat, allocations: seq<Allocation>)

  datatype TrancheError = InvalidTrancheInput | UnusableId

  const SECONDS_PER_DAY := 86400

  predicate ValidTrancheInput(inp: TrancheInput) {
    && ValidConfig(inp.config)
    && inp.runId != ""
    && inp.now != 0
    && forall i :: 0 <= i < |inp.allocations| ==>
         var a := inp.allocations[i];
         !a.layer.UnknownLayer? && 0.0 < a.gap && ValidRate(a.rate)
  }

  method ValidateInputAllocations(allocs: seq<Allocation>) returns (ok: bool)
    ensures ok <==> forall i :: 0 <= i < |allocs| ==>
      var a := allocs[i]; !a.layer.UnknownLayer? && 0.0 < a.gap && 0.0 < a.rate <= 1.0
  {
    for i := 0 to |allocs|
      invariant forall k :: 0 <= k < i ==>
        var a := allocs[k]; !a.layer.UnknownLayer? && 0.0 < a.gap && 0.0 < a.rate <= 1.0
    {
      var a := allocs[i];
      if a.layer.UnknownLayer? || a.gap <= 0.0 {
        return false;
      }
      if a.rate <= 0.0 || a.rate > 1.0 {
        return false;
      }
    }
    return true;
  }

  method ValidateTrancheInput(inp: TrancheInput) returns (ok: bool)
    ensures ok <==> ValidTrancheInput(inp)
  {
    ok := ValidateConfig(inp.config);
    if !ok || |inp.runId| == 0 || inp.now == 0 {
      return false;
    }
    ok := ValidateInputAllocations(inp.allocations);
  }

  // ---- Step amounts -----------------------------------------------------------------------

  function RealSum(s: seq<real>): real {
    if s == [] then 0.0 else RealSum(s[..|s| - 1]) + s[|s| - 1]
  }

  /** Amount of one step, clamped to what earlier steps left; the last step takes all of it. */
  function StepAmount(gap: real, fraction: real, isLast: bool, priorSum: real): real {
    var left := gap - priorSum;
    var remaining := if left < 0.0 then 0.0 else left;
    if isLast then remaining
    else if Times(gap, fraction) > remaining then remaining
    else Times(gap, fraction)
  }

  /** Amounts of the first n ramp steps, zero ones included. */
  function Amounts(gap: real, steps: seq<RampStep>, n: nat): (r: seq<real>)
    requires n <= |steps|
    ensures |r| == n
  {
    if n == 0 then []
    else
      var prior := Amounts(gap, steps, n - 1);
      prior + [StepAmount(gap, steps[n - 1].fraction, n == |steps|, RealSum(prior))]
  }

  /** What an exact ramp would have spent once the fractions reach f: at most the whole gap. */
  function Spent(gap: real, f: real): real {
    if f <= 1.0 then Times(gap, f) else gap
  }

  /** How the products of a positive gap with f and g compare with the gap itself. */
  lemma Products(gap: real, f: real, g: real)
    requires 0.0 < gap && 0.0 <= f && 0.0 < g
    ensures 0.0 <= Times(gap, f) && 0.0 < Times(gap, g)
    ensures Times(gap, f + g) == Times(gap, f) + Times(gap, g)
    ensures f <= 1.0 <==> Times(gap, f) <= gap
    ensures f + g <= 1.0 <==> Times(gap, f + g) <= gap
  {
    TimesAdd(gap, f, g);
    TimesNonNegative(gap, f);
    TimesPositive(gap, g);
    ComparedToWhole(gap, f);
    ComparedToWhole(gap, f + g);
  }

  lemma ComparedToWhole(gap: real, f: real)
    requires 0.0 < gap
    ensures f <= 1.0 <==> Times(gap, f) <= gap
  {
    TimesUnit(gap);
    if f <= 1.0 {
      TimesMonotone(gap, f, 1.0);
    } else {
      TimesStrict(gap, 1.0, f);
    }
  }

  lemma SpentStep(gap: real, f: real, g: real)
    requires 0.0 < gap && 0.0 <= f && 0.0 < g
    ensures StepAmount(gap, g, false, Spent(gap, f)) == Spent(gap, f + g) - Spent(gap, f)
    ensures Spent(gap, f) <= gap
  {
    Products(gap, f, g);
  }

  lemma FractionPrefix(steps: seq<RampStep>, n: nat)
    requires n < |steps|
    ensures FractionSum(steps[..n + 1]) == FractionSum(steps[..n]) + steps[n].fraction
  {
    assert steps[..n + 1][..n] == steps[..n];
  }

  lemma {:induction false} FractionsNonNegative(steps: seq<RampStep>)
    requires forall i :: 0 <= i < |steps| ==> 0.0 < steps[i].fraction
    ensures 0.0 <= FractionSum(steps)
  {
    if steps != [] {
      FractionsNonNegative(steps[..|steps| - 1]);
    }
  }

  /** A partial sum only grows with the prefix. */
  lemma {:induction false} FractionsGrow(steps: seq<RampStep>, n: nat)
    requires n <= |steps| && forall i :: 0 <= i < |steps| ==> 0.0 < steps[i].fraction
    ensures FractionSum(steps[..n]) <= FractionSum(steps)
  {
    if n < |steps| {
      FractionsGrow(steps[..|steps| - 1], n);
      assert steps[..|steps| - 1][..n] == steps[..n];
    } else {
      assert steps[..n] == steps;
    }
  }

  /** Before the last step the ramp has spent exactly the clamped prefix of the fractions. */
  lemma {:induction false} PrefixSpent(gap: real, steps: seq<RampStep>, n: nat)
    requires 0.0 < gap && n < |steps|
    requires forall i :: 0 <= i < |steps| ==> 0.0 < steps[i].fraction
    ensures RealSum(Amounts(gap, steps, n)) == Spent(gap, FractionSum(steps[..n]))
  {
    if n > 0 {
      PrefixSpent(gap, steps, n - 1);
      FractionPrefix(steps, n - 1);
      FractionsNonNegative(steps[..n - 1]);
      var prior := Amounts(gap, steps, n - 1);
      SpentStep(gap, FractionSum(steps[..n - 1]), steps[n - 1].fraction);
      assert Amounts(gap, steps, n)[..n - 1] == prior;
    }
  }

  /** The step amounts add up to the gap, whether the fractions sum to just below or above 1. */
  lemma StepsAreExact(gap: real, steps: seq<RampStep>)
    requires 0.0 < gap && steps != []
    requires forall i :: 0 <= i < |steps| ==> 0.0 < steps[i].fraction
    ensures RealSum(Amounts(gap, steps, |steps|)) == gap
  {
    var n := |steps| - 1;
    PrefixSpent(gap, steps, n);
    FractionsNonNegative(steps[..n]);
    SpentStep(gap, FractionSum(steps[..n]), 1.0);
    assert Amounts(gap, steps, n + 1)[..n] == Amounts(gap, steps, n);
  }

  lemma {:induction false} AmountAt(gap: real, steps: seq<RampStep>, n: nat, i: nat)
    requires i < n <= |steps|
    ensures Amounts(gap, steps, n)[i]
         == StepAmount(gap, steps[i].fraction, i == |steps| - 1, RealSum(Amounts(gap, steps, i)))
    ensures Amounts(gap, steps, n)[..i] == Amounts(gap, steps, i)
  {
    if i < n - 1 {
      AmountAt(gap, steps, n - 1, i);
      assert Amounts(gap, steps, n)[..i] == Amounts(gap, steps, n - 1)[..i];
    }
  }

  /** A sum of fractions within the tolerance of 1 scales to within gap * tolerance of the gap. */
  lemma ScaledTolerance(gap: real, f: real)
    requires 0.0 < gap
    ensures 0.0 < Times(gap, RAMP_SUM_EPSILON)
    ensures f <= 1.0 + RAMP_SUM_EPSILON ==> Times(gap, f) <= gap + Times(gap, RAMP_SUM_EPSILON)
    ensures 1.0 - RAMP_SUM_EPSILON <= f ==> gap - Times(gap, RAMP_SUM_EPSILON) <= Times(gap, f)
  {
    TimesPositive(gap, RAMP_SUM_EPSILON);
    TimesUnit(gap);
    TimesAdd(gap, 1.0, RAMP_SUM_EPSILON);
    TimesSub(gap, 1.0, RAMP_SUM_EPSILON);
    if f <= 1.0 + RAMP_SUM_EPSILON {
      TimesMonotone(gap, f, 1.0 + RAMP_SUM_EPSILON);
    }
    if 1.0 - RAMP_SUM_EPSILON <= f {
      TimesMonotone(gap, 1.0 - RAMP_SUM_EPSILON, f);
    }
  }

  /** The amount of a step differs from its exact share by at most gap * tolerance. */
  predicate WithinTolerance(gap: real, fraction: real, amount: real) {
    -Times(gap, RAMP_SUM_EPSILON) <= amount - Times(gap, fraction) <= Times(gap, RAMP_SUM_EPSILON)
  }

  lemma StepError(gap: real, f: real, g: real, isLast: bool)
    requires 0.0 < gap && 0.0 <= f && 0.0 < g && f + g <= 1.0 + RAMP_SUM_EPSILON
    requires isLast ==> 1.0 - RAMP_SUM_EPSILON <= f + g
    ensures WithinTolerance(gap, g, StepAmount(gap, g, isLast, Spent(gap, f)))
  {
    ScaledTolerance(gap, f + g);
    Products(gap, f, g);
  }

  /** Where a step stands: f is what the fractions before it add up to. */
  lemma StepPosition(gap: real, steps: seq<RampStep>, i: nat) returns (f: real)
    requires 0.0 < gap && ValidRamp(steps) && i < |steps|
    ensures 0.0 <= f && f + steps[i].fraction <= 1.0 + RAMP_SUM_EPSILON
    ensures i == |steps| - 1 ==> 1.0 - RAMP_SUM_EPSILON <= f + steps[i].fraction
    ensures Amounts(gap, steps, |steps|)[i] == StepAmount(gap, steps[i].fraction, i == |steps| - 1, Spent(gap, f))
  {
    AmountAt(gap, steps, |steps|, i);
    PrefixSpent(gap, steps, i);
    FractionPrefix(steps, i);
    FractionsNonNegative(steps[..i]);
    FractionsGrow(steps, i + 1);
    assert i == |steps| - 1 ==> steps[..i + 1] == steps;
    f := FractionSum(steps[..i]);
  }

  /** Every step, skipped ones counted as zero, is within gap * tolerance of its exact share. */
  lemma StepErrorBound(gap: real, steps: seq<RampStep>, i: nat)
    requires 0.0 < gap && ValidRamp(steps) && i < |steps|
    ensures WithinTolerance(gap, steps[i].fraction, Amounts(gap, steps, |steps|)[i])
  {
    var f := StepPosition(gap, steps, i);
    StepError(gap, f, steps[i].fraction, i == |steps| - 1);
  }

  // ---- Tranche rows -----------------------------------------------------------------------

  function Row(inp: TrancheInput, a: Allocation, step: RampStep, i: nat, amount: real, id: string): Tranche {
    Tranche(id, inp.runId, i, Scheduled, inp.now + step.afterDays * SECONDS_PER_DAY, amount, a.layer, a.rate)
  }

  /** A zero amount adds no row; ids(k) is the k-th identifier handed out. */
  function AddRow(rows: seq<Tranche>, inp: TrancheInput, a: Allocation, ids: nat -> string, start: nat,
                  i: nat, amount: real): seq<Tranche>
    requires i < |inp.config.ramp|
  {
    if amount == 0.0 then rows else rows + [Row(inp, a, inp.config.ramp[i], i, amount, ids(start + |rows|))]
  }

  /** Rows of the leading steps of one allocation, one amount per step. */
  function RowsOf(inp: TrancheInput, a: Allocation, ids: nat -> string, start: nat, amounts: seq<real>): seq<Tranche>
    requires |amounts| <= |inp.config.ramp|
  {
    if amounts == [] then []
    else
      var i := |amounts| - 1;
      AddRow(RowsOf(inp, a, ids, start, amounts[..i]), inp, a, ids, start, i, amounts[i])
  }

  /** Rows of a whole allocation. */
  function OwnRows(inp: TrancheInput, a: Allocation, ids: nat -> string, start: nat): seq<Tranche> {
    RowsOf(inp, a, ids, start, Amounts(a.gap, inp.config.ramp, |inp.config.ramp|))
  }

  /** Rows of the first m allocations, in order. */
  function AllRows(inp: TrancheInput, ids: nat -> string, m: nat): seq<Tranche>
    requires m <= |inp.allocations|
  {
    if m == 0 then []
    else
      var rows := AllRows(inp, ids, m - 1);
      rows + OwnRows(inp, inp.allocations[m - 1], ids, |rows|)
  }

  predicate UniqueIds(rows: seq<Tranche>) {
    && (forall i :: 0 <= i < |rows| ==> rows[i].id != "")
    && (forall i, j :: 0 <= i < j < |rows| ==> rows[i].id != rows[j].id)
  }

  method ValidateTrancheIds(rows: seq<Tranche>) returns (ok: bool)
    ensures ok <==> UniqueIds(rows)
  {
    var seen: set<string> := {};
    for i := 0 to |rows|
      invariant forall k :: 0 <= k < i ==> rows[k].id != "" && rows[k].id in seen
      invariant forall id :: id in seen ==> exists k :: 0 <= k < i && rows[k].id == id
      invariant forall k, l :: 0 <= k < l < i ==> rows[k].id != rows[l].id
    {
      if rows[i].id == "" || rows[i].id in seen {
        return false;
      }
      seen := seen + {rows[i].id};
    }
    return true;
  }

  predicate HasEmptyId(rows: seq<Tranche>) {
    exists i :: 0 <= i < |rows| && rows[i].id == ""
  }

  lemma EmptyIdPersists(a: seq<Tranche>, b: seq<Tranche>)
    requires HasEmptyId(a) && a <= b
    ensures HasEmptyId(b)
  {
    var i :| 0 <= i < |a| && a[i].id == "";
    assert b[i] == a[i];
  }

  lemma LastIdIsEmpty(rows: seq<Tranche>)
    requires rows != [] && rows[|rows| - 1].id == ""
    ensures HasEmptyId(rows)
  {
  }

  /** The amounts of one more step, and their sum. */
  lemma AmountsStep(gap: real, steps: seq<RampStep>, i: nat)
    requires i < |steps|
    ensures var amount := StepAmount(gap, steps[i].fraction, i + 1 == |steps|, RealSum(Amounts(gap, steps, i)));
      && Amounts(gap, steps, i + 1) == Amounts(gap, steps, i) + [amount]
      && RealSum(Amounts(gap, steps, i + 1)) == RealSum(Amounts(gap, steps, i)) + amount
  {
    assert Amounts(gap, steps, i + 1)[..i] == Amounts(gap, steps, i);
  }

  lemma RowsStep(inp: TrancheInput, a: Allocation, ids: nat -> string, start: nat, amounts: seq<real>, amount: real)
    requires |amounts| < |inp.config.ramp|
    ensures RowsOf(inp, a, ids, start, amounts + [amount])
         == AddRow(RowsOf(inp, a, ids, start, amounts), inp, a, ids, start, |amounts|, amount)
  {
    assert (amounts + [amount])[..|amounts|] == amounts;
  }

  /** After i steps of the ramp: the rows laid out so far and the sum of their amounts. */
  ghost predicate LaidOut(inp: TrancheInput, a: Allocation, ids: nat -> string, start: nat, i: nat, priorSum: real,
                          own: seq<Tranche>)
  {
    var steps := inp.config.ramp;
    && i <= |steps|
    && (i < |steps| ==> priorSum == RealSum(Amounts(a.gap, steps, i)))
    && own == RowsOf(inp, a, ids, start, Amounts(a.gap, steps, i))
  }

  lemma OneMoreStep(inp: TrancheInput, a: Allocation, ids: nat -> string, start: nat, i: nat, priorSum: real,
                    own: seq<Tranche>)
    requires i < |inp.config.ramp| && LaidOut(inp, a, ids, start, i, priorSum, own)
    ensures var isLast := i + 1 == |inp.config.ramp|;
      var amount := StepAmount(a.gap, inp.config.ramp[i].fraction, isLast, priorSum);
      LaidOut(inp, a, ids, start, i + 1, if isLast then priorSum else priorSum + amount,
              AddRow(own, inp, a, ids, start, i, amount))
  {
    var steps := inp.config.ramp;
    var amounts := Amounts(a.gap, steps, i);
    AmountsStep(a.gap, steps, i);
    RowsStep(inp, a, ids, start, amounts, StepAmount(a.gap, steps[i].fraction, i + 1 == |steps|, priorSum));
  }

  method ProcessAllocation(inp: TrancheInput, a: Allocation, ids: nat -> string, before: seq<Tranche>)
    returns (r: Result<seq<Tranche>, TrancheError>)
    ensures r.Success? ==> r.value == before + OwnRows(inp, a, ids, |before|)
    ensures r.Failure? ==> r.error == UnusableId && HasEmptyId(OwnRows(inp, a, ids, |before|))
  {
    var steps := inp.config.ramp;
    var priorSum := 0.0;
    var own := [];
    for i := 0 to |steps|
      invariant LaidOut(inp, a, ids, |before|, i, priorSum, own)
    {
      OneMoreStep(inp, a, ids, |before|, i, priorSum, own);
      var isLast := i + 1 == |steps|;
      var amount := StepAmount(a.gap, steps[i].fraction, isLast, priorSum);
      if !isLast {
        priorSum := priorSum + amount;
      }
      if amount == 0.0 {
        continue;
      }
      var id := ids(|before| + |own|);
      own := own + [Row(inp, a, steps[i], i, amount, id)];
      if id == "" {
        LastIdIsEmpty(own);
        OwnEmptyId(inp, a, ids, |before|, i + 1);
        return Failure(UnusableId);
      }
    }
    return Success(before + own);
  }

  /** Once an empty identifier was handed out, the finished rows still hold it. */
  lemma OwnEmptyId(inp: TrancheInput, a: Allocation, ids: nat -> string, start: nat, i: nat)
    requires i <= |inp.config.ramp|
    requires HasEmptyId(RowsOf(inp, a, ids, start, Amounts(a.gap, inp.config.ramp, i)))
    ensures HasEmptyId(OwnRows(inp, a, ids, start))
  {
    var steps := inp.config.ramp;
    var all := Amounts(a.gap, steps, |steps|);
    AmountsPrefix(a.gap, steps, |steps|, i);
    RowsExtend(inp, a, ids, start, all, i);
    EmptyIdPersists(RowsOf(inp, a, ids, start, all[..i]), RowsOf(inp, a, ids, start, all));
  }

  lemma {:induction false} AmountsPrefix(gap: real, steps: seq<RampStep>, n: nat, i: nat)
    requires i <= n <= |steps|
    ensures Amounts(gap, steps, n)[..i] == Amounts(gap, steps, i)
  {
    if i < n {
      AmountAt(gap, steps, n, i);
    } else {
      assert Amounts(gap, steps, n)[..i] == Amounts(gap, steps, n);
    }
  }

  lemma {:induction false} RowsExtend(inp: TrancheInput, a: Allocation, ids: nat -> string, start: nat,
                                      amounts: seq<real>, m: nat)
    requires m <= |amounts| <= |inp.config.ramp|
    ensures RowsOf(inp, a, ids, start, amounts[..m]) <= RowsOf(inp, a, ids, start, amounts)
  {
    if m < |amounts| {
      var shorter := amounts[..|amounts| - 1];
      RowsExtend(inp, a, ids, start, shorter, m);
      assert shorter[..m] == amounts[..m];
    } else {
      assert amounts[..m] == amounts;
    }
  }

  lemma {:induction false} AllRowsExtend(inp: TrancheInput, ids: nat -> string, m: nat, n: nat)
    requires m <= n <= |inp.allocations|
    ensures AllRows(inp, ids, m) <= AllRows(inp, ids, n)
  {
    if m < n {
      AllRowsExtend(inp, ids, m, n - 1);
    }
  }

  lemma EmptyIdOnTheRight(a: seq<Tranche>, b: seq<Tranche>, all: seq<Tranche>)
    requires HasEmptyId(b) && a + b <= all
    ensures HasEmptyId(all)
  {
    var i :| 0 <= i < |b| && b[i].id == "";
    assert all[|a| + i] == (a + b)[|a| + i] == b[i];
  }

  lemma BatchEmptyId(inp: TrancheInput, ids: nat -> string, m: nat, before: seq<Tranche>, own: seq<Tranche>)
    requires m < |inp.allocations|
    requires before == AllRows(inp, ids, m) && own == OwnRows(inp, inp.allocations[m], ids, |before|)
    requires HasEmptyId(own)
    ensures HasEmptyId(AllRows(inp, ids, |inp.allocations|))
  {
    AllRowsExtend(inp, ids, m + 1, |inp.allocations|);
    assert AllRows(inp, ids, m + 1) == before + own;
    EmptyIdOnTheRight(before, own, AllRows(inp, ids, |inp.allocations|));
  }

  method LayOutRows(inp: TrancheInput, ids: nat -> string) returns (r: Result<seq<Tranche>, TrancheError>)
    ensures r.Success? ==> r.value == AllRows(inp, ids, |inp.allocations|)
    ensures r.Failure? ==> r.error == UnusableId && HasEmptyId(AllRows(inp, ids, |inp.allocations|))
  {
    var rows := [];
    for m := 0 to |inp.allocations|
      invariant rows == AllRows(inp, ids, m)
    {
      var next := ProcessAllocation(inp, inp.allocations[m], ids, rows);
      if next.Failure? {
        BatchEmptyId(inp, ids, m, rows, OwnRows(inp, inp.allocations[m], ids, |rows|));
        return next;
      }
      rows := next.value;
    }
    return Success(rows);
  }

  /** The batch succeeds exactly on valid input whose rows all got fresh, non-empty identifiers. */
  method BuildTranches(inp: TrancheInput, ids: nat -> string) returns (r: Result<seq<Tranche>, TrancheError>)
    ensures r.Success? <==> ValidTrancheInput(inp) && UniqueIds(AllRows(inp, ids, |inp.allocations|))
    ensures r.Success? ==> r.value == AllRows(inp, ids, |inp.allocations|)
  {
    var ok := ValidateTrancheInput(inp);
    if !ok {
      return Failure(InvalidTrancheInput);
    }
    r := LayOutRows(inp, ids);
    if r.Success? {
      ok := ValidateTrancheIds(r.value);
      if !ok {
        r := Failure(UnusableId);
      }
    }
  }

  // ---- What the rows mean -----------------------------------------------------------------

  function AmountSum(rows: seq<Tranche>): real {
    if rows == [] then 0.0 else AmountSum(rows[..|rows| - 1]) + rows[|rows| - 1].amount
  }

  lemma {:induction false} NonNegativeAmounts(gap: real, steps: seq<RampStep>, n: nat, i: nat)
    requires 0.0 < gap && i < n <= |steps|
    requires forall k :: 0 <= k < |steps| ==> 0.0 < steps[k].fraction
    ensures 0.0 <= Amounts(gap, steps, n)[i]
  {
    AmountAt(gap, steps, n, i);
    TimesPositive(gap, steps[i].fraction);
  }

  lemma AppendRow(rows: seq<Tranche>, t: Tranche)
    ensures AmountSum(rows + [t]) == AmountSum(rows) + t.amount
  {
    assert (rows + [t])[..|rows|] == rows;
  }

  lemma {:induction false} RowsSum(inp: TrancheInput, a: Allocation, ids: nat -> string, start: nat, amounts: seq<real>)
    requires |amounts| <= |inp.config.ramp|
    ensures AmountSum(RowsOf(inp, a, ids, start, amounts)) == RealSum(amounts)
  {
    if amounts != [] {
      var i := |amounts| - 1;
      RowsSum(inp, a, ids, start, amounts[..i]);
      var rows := RowsOf(inp, a, ids, start, amounts[..i]);
      AppendRow(rows, Row(inp, a, inp.config.ramp[i], i, amounts[i], ids(start + |rows|)));
    }
  }

  /** What every row of one allocation carries, the amount of its own step among it. */
  ghost predicate RowOf(inp: TrancheInput, a: Allocation, ids: nat -> string, amounts: seq<real>, t: Tranche, k: nat) {
    && t.stepIndex < |amounts| <= |inp.config.ramp|
    && 0.0 < t.amount == amounts[t.stepIndex]
    && t == Row(inp, a, inp.config.ramp[t.stepIndex], t.stepIndex, t.amount, ids(k))
  }

  /** Rows of one allocation are positive, scheduled, in step order, with successive identifiers. */
  ghost predicate RowsInOrder(rows: seq<Tranche>, inp: TrancheInput, a: Allocation, ids: nat -> string, start: nat,
                              amounts: seq<real>)
  {
    && (forall i :: 0 <= i < |rows| ==> RowOf(inp, a, ids, amounts, rows[i], start + i))
    && (forall i, j :: 0 <= i < j < |rows| ==> rows[i].stepIndex < rows[j].stepIndex)
  }

  lemma {:induction false} RowsShape(inp: TrancheInput, a: Allocation, ids: nat -> string, start: nat,
                                     amounts: seq<real>)
    requires |amounts| <= |inp.config.ramp|
    requires forall k :: 0 <= k < |amounts| ==> 0.0 <= amounts[k]
    ensures RowsInOrder(RowsOf(inp, a, ids, start, amounts), inp, a, ids, start, amounts)
  {
    if amounts != [] {
      var i := |amounts| - 1;
      RowsShape(inp, a, ids, start, amounts[..i]);
      AddRowShape(RowsOf(inp, a, ids, start, amounts[..i]), inp, a, ids, start, amounts);
    }
  }

  lemma AddRowShape(rows: seq<Tranche>, inp: TrancheInput, a: Allocation, ids: nat -> string, start: nat,
                    amounts: seq<real>)
    requires 0 < |amounts| <= |inp.config.ramp| && 0.0 <= amounts[|amounts| - 1]
    requires RowsInOrder(rows, inp, a, ids, start, amounts[..|amounts| - 1])
    ensures RowsInOrder(AddRow(rows, inp, a, ids, start, |amounts| - 1, amounts[|amounts| - 1]),
                        inp, a, ids, start, amounts)
  {
    var last := |amounts| - 1;
    var next := AddRow(rows, inp, a, ids, start, last, amounts[last]);
    forall i | 0 <= i < |next|
      ensures RowOf(inp, a, ids, amounts, next[i], start + i) && (i < |rows| ==> next[i].stepIndex < last)
    {
      if i < |rows| {
        assert RowOf(inp, a, ids, amounts[..last], rows[i], start + i);
      }
    }
  }

  lemma OwnRowsShape(inp: TrancheInput, a: Allocation, ids: nat -> string, start: nat)
    requires ValidRamp(inp.config.ramp) && 0.0 < a.gap
    ensures RowsInOrder(OwnRows(inp, a, ids, start), inp, a, ids, start,
                        Amounts(a.gap, inp.config.ramp, |inp.config.ramp|))
  {
    var steps := inp.config.ramp;
    forall k | 0 <= k < |steps| ensures 0.0 <= Amounts(a.gap, steps, |steps|)[k] {
      NonNegativeAmounts(a.gap, steps, |steps|, k);
    }
    RowsShape(inp, a, ids, start, Amounts(a.gap, steps, |steps|));
  }

  /** A scheduled row of the run for its allocation: it fires as many whole days after the planning
      time as its step says, for its step's share of the gap up to a billionth of the gap. */
  ghost predicate KeepsItsStep(inp: TrancheInput, a: Allocation, t: Tranche) {
    && t.runId == inp.runId && t.status == Scheduled && t.layer == a.layer && t.rate == a.rate
    && t.stepIndex < |inp.config.ramp|
    && var step := inp.config.ramp[t.stepIndex];
    && t.fireAfter - inp.now == step.afterDays * 86400
    && -0.000000001 * a.gap <= t.amount - a.gap * step.fraction <= 0.000000001 * a.gap
  }

  lemma RowKeepsItsStep(inp: TrancheInput, a: Allocation, ids: nat -> string, t: Tranche, k: nat)
    requires ValidRamp(inp.config.ramp) && 0.0 < a.gap
    requires RowOf(inp, a, ids, Amounts(a.gap, inp.config.ramp, |inp.config.ramp|), t, k)
    ensures KeepsItsStep(inp, a, t) && t.id == ids(k)
  {
    StepErrorBound(a.gap, inp.config.ramp, t.stepIndex);
  }

  lemma RowsKeepTheirSteps(inp: TrancheInput, a: Allocation, ids: nat -> string, start: nat)
    requires ValidRamp(inp.config.ramp) && 0.0 < a.gap
    ensures var rows := OwnRows(inp, a, ids, start);
      forall i :: 0 <= i < |rows| ==>
        0.0 < rows[i].amount && rows[i].id == ids(start + i) && KeepsItsStep(inp, a, rows[i])
  {
    var rows := OwnRows(inp, a, ids, start);
    OwnRowsShape(inp, a, ids, start);
    forall i | 0 <= i < |rows|
      ensures 0.0 < rows[i].amount && rows[i].id == ids(start + i) && KeepsItsStep(inp, a, rows[i])
    {
      RowKeepsItsStep(inp, a, ids, rows[i], start + i);
    }
  }

  /** One allocation: its rows, with successive identifiers, reconstruct its gap exactly, keep their
      own steps and fire at increasing times. */
  lemma RampIsExact(inp: TrancheInput, a: Allocation, ids: nat -> string, start: nat)
    requires ValidConfig(inp.config) && 0.0 < a.gap
    ensures var rows := OwnRows(inp, a, ids, start);
      && AmountSum(rows) == a.gap
      && (forall i :: 0 <= i < |rows| ==>
            0.0 < rows[i].amount && rows[i].id == ids(start + i) && KeepsItsStep(inp, a, rows[i]))
      && (forall i, j :: 0 <= i < j < |rows| ==> rows[i].fireAfter < rows[j].fireAfter)
  {
    var steps := inp.config.ramp;
    RowsSum(inp, a, ids, start, Amounts(a.gap, steps, |steps|));
    StepsAreExact(a.gap, steps);
    OwnRowsShape(inp, a, ids, start);
    OrderedRowsFireInOrder(OwnRows(inp, a, ids, start), inp, a, ids, start);
    RowsKeepTheirSteps(inp, a, ids, start);
  }

  lemma OrderedRowsFireInOrder(rows: seq<Tranche>, inp: TrancheInput, a: Allocation, ids: nat -> string, start: nat)
    requires ValidRamp(inp.config.ramp)
    requires RowsInOrder(rows, inp, a, ids, start, Amounts(a.gap, inp.config.ramp, |inp.config.ramp|))
    ensures forall i, j :: 0 <= i < j < |rows| ==> rows[i].fireAfter < rows[j].fireAfter
  {
    var steps := inp.config.ramp;
    forall i, j | 0 <= i < j < |rows| ensures rows[i].fireAfter < rows[j].fireAfter {
      var amounts := Amounts(a.gap, steps, |steps|);
      assert RowOf(inp, a, ids, amounts, rows[i], start + i) && RowOf(inp, a, ids, amounts, rows[j], start + j);
      assert steps[rows[i].stepIndex].afterDays < steps[rows[j].stepIndex].afterDays;
    }
  }

  // ---- Back to OD -------------------------------------------------------------------------

  /** The scheduled rows, as the in-flight input of a later run. */
  function InFlightOf(rows: seq<Tranche>): seq<InFlightTranche> {
    if rows == [] then []
    else
      var t := rows[|rows| - 1];
      InFlightOf(rows[..|rows| - 1]) +
      (if t.status == Scheduled then [InFlightTranche(t.layer, t.amount, t.rate)] else [])
  }

  lemma {:induction false} InFlightConcat(a: seq<Tranche>, b: seq<Tranche>)
    ensures InFlightOf(a + b) == InFlightOf(a) + InFlightOf(b)
  {
    if b == [] {
      assert a + b == a;
    } else {
      InFlightConcat(a, b[..|b| - 1]);
      assert (a + b)[..|a + b| - 1] == a + b[..|b| - 1];
    }
  }

  lemma AppendInFlight(ts: seq<InFlightTranche>, t: InFlightTranche, l: LayerType)
    ensures OdTotal(ts + [t]) == OdTotal(ts) + ToOd(t.commitment, t.rate)
    ensures OdOn(ts + [t], l) == OdOn(ts, l) + (if t.layer == l then ToOd(t.commitment, t.rate) else 0.0)
  {
    assert (ts + [t])[..|ts|] == ts;
  }

  lemma OdDistributes(x: real, y: real, rate: real)
    requires ValidRate(rate)
    ensures ToOd(x + y, rate) == ToOd(x, rate) + ToOd(y, rate)
  {
    OverAdd(x, y, rate);
  }

  /** Rows of one layer and rate, netted at that rate, cover the OD of their total commitment. */
  lemma {:induction false} RowsCoverOd(rows: seq<Tranche>, layer: LayerType, rate: real, l: LayerType)
    requires ValidRate(rate)
    requires forall i :: 0 <= i < |rows| ==>
      rows[i].layer == layer && rows[i].rate == rate && rows[i].status == Scheduled
    ensures OdTotal(InFlightOf(rows)) == ToOd(AmountSum(rows), rate)
    ensures OdOn(InFlightOf(rows), l) == if l == layer then ToOd(AmountSum(rows), rate) else 0.0
  {
    if rows == [] {
      assert ToOd(0.0, rate) == 0.0;
    } else {
      var rest, t := rows[..|rows| - 1], rows[|rows| - 1];
      RowsCoverOd(rest, layer, rate, l);
      AppendInFlight(InFlightOf(rest), InFlightTranche(t.layer, t.amount, t.rate), l);
      OdDistributes(AmountSum(rest), t.amount, rate);
    }
  }

  function OdOnAllocs(s: seq<Allocation>, l: LayerType): real {
    if s == [] then 0.0
    else OdOnAllocs(s[..|s| - 1], l) + (if s[|s| - 1].layer == l then s[|s| - 1].od else 0.0)
  }

  lemma OdOnAllocsPrefix(s: seq<Allocation>, m: nat, l: LayerType)
    requires 0 < m <= |s|
    ensures OdOnAllocs(s[..m], l) == OdOnAllocs(s[..m - 1], l) + (if s[m - 1].layer == l then s[m - 1].od else 0.0)
    ensures OdSum(s[..m]) == OdSum(s[..m - 1]) + s[m - 1].od
  {
    assert s[..m][..m - 1] == s[..m - 1];
  }

  lemma AllocationCoversOd(inp: TrancheInput, a: Allocation, ids: nat -> string, start: nat, l: LayerType)
    requires ValidConfig(inp.config)
    requires 0.0 < a.gap && ValidRate(a.rate) && a.gap == ToCommitment(a.od, a.rate)
    ensures var ts := InFlightOf(OwnRows(inp, a, ids, start));
      && OdTotal(ts) == a.od
      && OdOn(ts, l) == if a.layer == l then a.od else 0.0
  {
    RampIsExact(inp, a, ids, start);
    var rows := OwnRows(inp, a, ids, start);
    forall i | 0 <= i < |rows|
      ensures rows[i].layer == a.layer && rows[i].rate == a.rate && rows[i].status == Scheduled
    {
      assert KeepsItsStep(inp, a, rows[i]);
    }
    RowsCoverOd(rows, a.layer, a.rate, l);
    ConversionRoundTrip(a.od, a.rate);
  }

  ghost predicate SizedAllocations(inp: TrancheInput) {
    && ValidConfig(inp.config)
    && forall a :: a in inp.allocations ==> 0.0 < a.gap && ValidRate(a.rate) && a.gap == ToCommitment(a.od, a.rate)
  }

  /** What one more allocation adds to the in-flight commitment read back. */
  lemma OneMoreInFlight(inp: TrancheInput, ids: nat -> string, m: nat, l: LayerType)
    requires SizedAllocations(inp) && 0 < m <= |inp.allocations|
    ensures var before, now := InFlightOf(AllRows(inp, ids, m - 1)), InFlightOf(AllRows(inp, ids, m));
      var a := inp.allocations[m - 1];
      && OdTotal(now) == OdTotal(before) + a.od
      && OdOn(now, l) == OdOn(before, l) + (if a.layer == l then a.od else 0.0)
  {
    var a, before := inp.allocations[m - 1], AllRows(inp, ids, m - 1);
    var rows := OwnRows(inp, a, ids, |before|);
    AllocationCoversOd(inp, a, ids, |before|, l);
    InFlightConcat(before, rows);
    OdTotalConcat(InFlightOf(before), InFlightOf(rows));
    OdOnConcat(InFlightOf(before), InFlightOf(rows), l);
  }

  /** A batch, read back as in-flight commitment, covers exactly the OD it was planned for. */
  lemma {:induction false} BatchCoversOd(inp: TrancheInput, ids: nat -> string, m: nat, l: LayerType)
    requires SizedAllocations(inp) && m <= |inp.allocations|
    ensures OdTotal(InFlightOf(AllRows(inp, ids, m))) == OdSum(inp.allocations[..m])
    ensures OdOn(InFlightOf(AllRows(inp, ids, m)), l) == OdOnAllocs(inp.allocations[..m], l)
  {
    if m == 0 {
      assert AllRows(inp, ids, m) == [];
    } else {
      var rest := m - 1;
      BatchCoversOd(inp, ids, rest, l);
      OneMoreInFlight(inp, ids, m, l);
      OdOnAllocsPrefix(inp.allocations, m, l);
    }
  }
}
