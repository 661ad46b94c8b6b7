/** Vocabulary of the commitment ladder: layers, states, configuration and their validation. */
module LadderTypes {
  import opened Wrappers

  // Constructors are listed in the alphabetical order of the layer names.
  datatype LayerType =
    | AzureReservation
    | AzureSavingsPlan
    | ComputeSP
    | ConvertibleRI
    | EC2InstanceSP
    | UnknownLayer(name: string)

  /** Position of a layer name in string order; breaks ties when actions are ranked. */
  function NameRank(l: LayerType): nat {
    match l
    case AzureReservation => 0
    case AzureSavingsPlan => 1
    case ComputeSP => 2
    case ConvertibleRI => 3
    case EC2InstanceSP => 4
    case UnknownLayer(_) => 5
  }

  function LayerName(l: LayerType): string {
    match l
    case AzureReservation => "azure-reservation"
    case AzureSavingsPlan => "azure-savings-plan"
    case ComputeSP => "compute-sp"
    case ConvertibleRI => "convertible-ri"
    case EC2InstanceSP => "ec2-instance-sp"
    case UnknownLayer(name) => name
  }

  /** The order of strings: by the first character that differs, a prefix first. */
  predicate Precedes(a: string, b: string) {
    a == "" || (b != "" && (a[0] < b[0] || (a[0] == b[0] && Precedes(a[1..], b[1..]))))
  }

  lemma {:induction false} CommonPrefix(p: string, a: string, b: string)
    ensures Precedes(p + a, p + b) <==> Precedes(a, b)
  {
    if p == "" {
      assert p + a == a && p + b == b;
    } else {
      CommonPrefix(p[1..], a, b);
      assert (p + a)[1..] == p[1..] + a && (p + b)[1..] == p[1..] + b;
    }
  }

  lemma {:induction false} PrecedesItself(a: string)
    ensures Precedes(a, a)
  {
    if a != "" {
      PrecedesItself(a[1..]);
    }
  }

  /** After a common prefix the smaller character decides. */
  lemma FirstDifference(p: string, a: string, b: string)
    requires a != "" && b != "" && a[0] < b[0]
    ensures Precedes(p + a, p + b) && !Precedes(p + b, p + a)
  {
    CommonPrefix(p, a, b);
    CommonPrefix(p, b, a);
  }

  lemma FirstLetter(l: LayerType)
    requires !l.UnknownLayer?
    ensures LayerName(l) != ""
    ensures LayerName(l)[0] == if NameRank(l) <= 1 then 'a' else if NameRank(l) <= 3 then 'c' else 'e'
  {
  }

  lemma NamesAscend(a: LayerType, b: LayerType)
    requires NameRank(a) < NameRank(b) && !b.UnknownLayer?
    ensures Precedes(LayerName(a), LayerName(b)) && !Precedes(LayerName(b), LayerName(a))
  {
    if a.AzureReservation? && b.AzureSavingsPlan? {
      AzureAscends();
    } else if a.ComputeSP? && b.ConvertibleRI? {
      AwsAscends();
    } else {
      FirstLetter(a);
      FirstLetter(b);
    }
  }

  lemma AzureAscends()
    ensures var a, b := LayerName(AzureReservation), LayerName(AzureSavingsPlan); Precedes(a, b) && !Precedes(b, a)
  {
    FirstDifference("azure-", "reservation", "savings-plan");
    SplitName(LayerName(AzureReservation), "azure-", "reservation");
    SplitName(LayerName(AzureSavingsPlan), "azure-", "savings-plan");
  }

  lemma AwsAscends()
    ensures var a, b := LayerName(ComputeSP), LayerName(ConvertibleRI); Precedes(a, b) && !Precedes(b, a)
  {
    FirstDifference("co", "mpute-sp", "nvertible-ri");
    SplitName(LayerName(ComputeSP), "co", "mpute-sp");
    SplitName(LayerName(ConvertibleRI), "co", "nvertible-ri");
  }

  lemma SplitName(name: string, a: string, b: string)
    requires |a| <= |name| && name[..|a|] == a && name[|a|..] == b
    ensures name == a + b
  {
  }

  lemma RankIsNameOrder(a: LayerType, b: LayerType)
    requires !a.UnknownLayer? && !b.UnknownLayer?
    ensures NameRank(a) <= NameRank(b) <==> Precedes(LayerName(a), LayerName(b))
  {
    if NameRank(a) < NameRank(b) {
      NamesAscend(a, b);
    } else if NameRank(b) < NameRank(a) {
      NamesAscend(b, a);
    } else {
      PrecedesItself(LayerName(a));
    }
  }

  datatype LayerRole = BaseRole | FlexRole | BufferRole | UnknownRole(name: string)

  datatype LayerSpec = LayerSpec(layer: LayerType, roles: seq<LayerRole>)

  datatype LayerState = LayerState(existing: Option<real>, expiring: Option<real>, utilization: Option<real>)

  datatype BaselineBasis = TotalBasis | ResidualBasis | UnknownBasis(name: string)

  datatype UsageBaseline = UsageBaseline(lowWater: Option<real>, stable: Option<real>, basis: BaselineBasis)

  datatype RampStep = RampStep(afterDays: int, fraction: real)

  datatype LadderConfig = LadderConfig(
    maxHourlyCommitPerRun: Option<real>,
    ramp: seq<RampStep>,
    targetCoveragePct: real,
    bufferFraction: real,
    baselinePercentile: real,
    lookbackDays: int,
    maxActionsPerRun: int,
    bufferUtilizationThresholdPct: real)

  const RAMP_SUM_EPSILON := 0.000000001

  /** Sum of the fractions of a ramp. */
  function FractionSum(steps: seq<RampStep>): real {
    if steps == [] then 0.0 else FractionSum(steps[..|steps| - 1]) + steps[|steps| - 1].fraction
  }

  predicate ValidRamp(steps: seq<RampStep>) {
    && steps != []
    && (forall i :: 0 <= i < |steps| ==> 0 <= steps[i].afterDays)
    && (forall i, j :: 0 <= i < j < |steps| ==> steps[i].afterDays < steps[j].afterDays)
    && (forall i :: 0 <= i < |steps| ==> 0.0 < steps[i].fraction <= 1.0)
    && 1.0 - RAMP_SUM_EPSILON <= FractionSum(steps) <= 1.0 + RAMP_SUM_EPSILON
  }

  /** The validator's single pass decides exactly the declarative ramp rule. */
  method ValidateRamp(steps: seq<RampStep>) returns (ok: bool)
    ensures ok <==> ValidRamp(steps)
  {
    if |steps| == 0 {
      return false;
    }
    var sum, prev := 0.0, -1;
    for i := 0 to |steps|
      invariant sum == FractionSum(steps[..i])
      invariant prev == if i == 0 then -1 else steps[i - 1].afterDays
      invariant forall k :: 0 <= k < i ==> 0 <= steps[k].afterDays <= prev
      invariant forall k, l :: 0 <= k < l < i ==> steps[k].afterDays < steps[l].afterDays
      invariant forall k :: 0 <= k < i ==> 0.0 < steps[k].fraction <= 1.0
    {
      if steps[i].afterDays <= prev {
        assert if i == 0 then steps[i].afterDays < 0 else steps[i].afterDays <= steps[i - 1].afterDays;
        return false;
      }
      prev := steps[i].afterDays;
      if !(0.0 < steps[i].fraction <= 1.0) {
        return false;
      }
      sum := sum + steps[i].fraction;
      assert steps[..i + 1][..i] == steps[..i];
    }
    assert steps[..|steps|] == steps;
    var diff := sum - 1.0;
    return !(diff < -RAMP_SUM_EPSILON || diff > RAMP_SUM_EPSILON);
  }

  predicate ValidConfig(c: LadderConfig) {
    && 0.0 < c.targetCoveragePct <= 100.0
    && 0.0 <= c.bufferFraction < 1.0
    && 0.0 < c.baselinePercentile <= 50.0
    && 0 < c.lookbackDays
    && ValidRamp(c.ramp)
    && (c.maxHourlyCommitPerRun.Some? ==> 0.0 < c.maxHourlyCommitPerRun.value)
    && 0 < c.maxActionsPerRun
    && 0.0 < c.bufferUtilizationThresholdPct <= 100.0
  }

  /** Number of layers that carry a role. */
  function RoleCount(layers: seq<LayerSpec>, role: LayerRole): nat {
    if layers == [] then 0
    else RoleCount(layers[..|layers| - 1], role) + (if role in layers[|layers| - 1].roles then 1 else 0)
  }

  /** First layer that carries a role. */
  function FindLayer(layers: seq<LayerSpec>, role: LayerRole): Option<LayerType> {
    if layers == [] then None
    else if role in layers[0].roles then Some(layers[0].layer)
    else FindLayer(layers[1..], role)
  }

  predicate DistinctLayers(layers: seq<LayerSpec>) {
    forall i, j :: 0 <= i < j < |layers| ==> layers[i].layer != layers[j].layer
  }

  predicate Known(layers: seq<LayerSpec>, l: LayerType) {
    exists i :: 0 <= i < |layers| && layers[i].layer == l
  }

  predicate ValidSpec(ls: LayerSpec) {
    && !ls.layer.UnknownLayer?
    && (forall r :: r in ls.roles ==> !r.UnknownRole?)
    && (FlexRole in ls.roles ==> BaseRole !in ls.roles && BufferRole !in ls.roles)
  }

  predicate ValidLayers(layers: seq<LayerSpec>) {
    && DistinctLayers(layers)
    && (forall i :: 0 <= i < |layers| ==> ValidSpec(layers[i]))
    && RoleCount(layers, FlexRole) == 1
    && RoleCount(layers, BaseRole) <= 1
    && RoleCount(layers, BufferRole) <= 1
  }

  predicate ValidStates(layers: seq<LayerSpec>, states: map<LayerType, LayerState>) {
    && (forall i :: 0 <= i < |layers| ==>
          && layers[i].layer in states
          && var st := states[layers[i].layer];
          && st.existing.Some?
          && st.expiring.Some?
          && (st.utilization.Some? ==> 0.0 <= st.utilization.value <= 100.0))
    && (forall l :: l in states ==> Known(layers, l))
  }

  lemma FindLayerCarries(layers: seq<LayerSpec>, role: LayerRole) returns (i: nat)
    requires FindLayer(layers, role).Some?
    ensures i < |layers| && layers[i].layer == FindLayer(layers, role).value && role in layers[i].roles
  {
    if role in layers[0].roles {
      i := 0;
    } else {
      var j := FindLayerCarries(layers[1..], role);
      i := j + 1;
    }
  }

  lemma FindLayerFinds(layers: seq<LayerSpec>, role: LayerRole)
    requires RoleCount(layers, role) > 0
    ensures FindLayer(layers, role).Some?
  {
    var last := |layers| - 1;
    if role in layers[last].roles {
      CarriedIsFound(layers, role, last);
    } else {
      FindLayerFinds(layers[..last], role);
      var i := FindLayerCarries(layers[..last], role);
      CarriedIsFound(layers, role, i);
    }
  }

  lemma CarriedIsFound(layers: seq<LayerSpec>, role: LayerRole, i: nat)
    requires i < |layers| && role in layers[i].roles
    ensures FindLayer(layers, role).Some?
  {
    if role !in layers[0].roles {
      CarriedIsFound(layers[1..], role, i - 1);
    }
  }

  /** The flex layer exists and never carries the base or buffer role. */
  lemma FlexStandsAlone(layers: seq<LayerSpec>)
    requires ValidLayers(layers)
    ensures FindLayer(layers, FlexRole).Some?
    ensures FindLayer(layers, BaseRole) != FindLayer(layers, FlexRole)
    ensures FindLayer(layers, BufferRole) != FindLayer(layers, FlexRole)
  {
    FindLayerFinds(layers, FlexRole);
    var f := FindLayerCarries(layers, FlexRole);
    if FindLayer(layers, BaseRole).Some? {
      var b := FindLayerCarries(layers, BaseRole);
    }
    if FindLayer(layers, BufferRole).Some? {
      var b := FindLayerCarries(layers, BufferRole);
    }
  }
}
