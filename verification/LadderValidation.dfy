/** The validators of a run's input: single passes that decide exactly the declarative rules. */
module LadderValidation {
  import opened Wrappers
  import opened LadderTypes

  /** Above an open lower bound and up to a closed upper one. */
  method WithinExclIncl(v: real, lo: real, hi: real) returns (ok: bool)
    ensures ok <==> lo < v <= hi
  {
    ok := v > lo && v <= hi;
  }

  method ValidateConfig(c: LadderConfig) returns (ok: bool)
    ensures ok <==> ValidConfig(c)
  {
    ok := ValidateBaselineBounds(c);
    if !ok {
      return;
    }
    ok := ValidateRamp(c.ramp);
    if !ok {
      return;
    }
    ok := ValidateRunLimits(c);
  }

  method ValidateBaselineBounds(c: LadderConfig) returns (ok: bool)
    ensures ok <==>
      && 0.0 < c.targetCoveragePct <= 100.0 && 0.0 <= c.bufferFraction < 1.0
      && 0.0 < c.baselinePercentile <= 50.0 && 1 <= c.lookbackDays
  {
    ok := WithinExclIncl(c.targetCoveragePct, 0.0, 100.0);
    if !ok || !(c.bufferFraction >= 0.0 && c.bufferFraction < 1.0) {
      return false;
    }
    ok := WithinExclIncl(c.baselinePercentile, 0.0, 50.0);
    if !ok || c.lookbackDays <= 0 {
      return false;
    }
    return true;
  }

  method ValidateRunLimits(c: LadderConfig) returns (ok: bool)
    ensures ok <==>
      && (c.maxHourlyCommitPerRun.None? || 0.0 < c.maxHourlyCommitPerRun.value)
      && 1 <= c.maxActionsPerRun && 0.0 < c.bufferUtilizationThresholdPct <= 100.0
  {
    if c.maxHourlyCommitPerRun.Some? && !(c.maxHourlyCommitPerRun.value > 0.0) {
      return false;
    }
    if c.maxActionsPerRun <= 0 {
      return false;
    }
    ok := WithinExclIncl(c.bufferUtilizationThresholdPct, 0.0, 100.0);
  }

  // ---- Layers -----------------------------------------------------------------------------

  method ValidateLayerUniqueness(layers: seq<LayerSpec>) returns (ok: bool)
    ensures ok <==> forall i, j :: 0 <= i < j < |layers| ==> layers[i].layer != layers[j].layer
  {
    var seen: set<LayerType> := {};
    for i := 0 to |layers|
      invariant forall k :: 0 <= k < i ==> layers[k].layer in seen
      invariant forall l :: l in seen ==> exists k :: 0 <= k < i && layers[k].layer == l
      invariant forall k, l :: 0 <= k < l < i ==> layers[k].layer != layers[l].layer
    {
      if layers[i].layer in seen {
        return false;
      }
      seen := seen + {layers[i].layer};
    }
    return true;
  }

  /** A known layer whose roles are known, and flex stands apart from base and buffer. */
  method ValidateLayerSpec(ls: LayerSpec) returns (ok: bool)
    ensures ok <==> ValidSpec(ls)
  {
    if ls.layer.UnknownLayer? {
      return false;
    }
    for k := 0 to |ls.roles|
      invariant forall l :: 0 <= l < k ==> !ls.roles[l].UnknownRole?
    {
      if ls.roles[k].UnknownRole? {
        return false;
      }
    }
    return !(FlexRole in ls.roles && (BaseRole in ls.roles || BufferRole in ls.roles));
  }

  /** Number of layers that carry a role, counted by the layers that do. */
  function Carriers(layers: seq<LayerSpec>, role: LayerRole): set<int> {
    set i | 0 <= i < |layers| && role in layers[i].roles
  }

  lemma {:induction false} CarriersCount(layers: seq<LayerSpec>, role: LayerRole)
    ensures RoleCount(layers, role) == |Carriers(layers, role)|
  {
    if layers != [] {
      var rest, last := layers[..|layers| - 1], |layers| - 1;
      CarriersCount(rest, role);
      assert Carriers(layers, role) == Carriers(rest, role) + (if role in layers[last].roles then {last} else {});
    }
  }

  method ValidateLayers(layers: seq<LayerSpec>) returns (ok: bool)
    ensures ok <==> ValidLayers(layers)
  {
    ok := ValidateLayerUniqueness(layers);
    if !ok {
      return;
    }
    var flexCount, baseCount, bufferCount := 0, 0, 0;
    for i := 0 to |layers|
      invariant forall k :: 0 <= k < i ==> ValidSpec(layers[k])
      invariant flexCount == RoleCount(layers[..i], FlexRole)
      invariant baseCount == RoleCount(layers[..i], BaseRole)
      invariant bufferCount == RoleCount(layers[..i], BufferRole)
    {
      assert layers[..i + 1][..i] == layers[..i];
      var valid := ValidateLayerSpec(layers[i]);
      if !valid {
        return false;
      }
      if FlexRole in layers[i].roles {
        flexCount := flexCount + 1;
      }
      if BaseRole in layers[i].roles {
        baseCount := baseCount + 1;
      }
      if BufferRole in layers[i].roles {
        bufferCount := bufferCount + 1;
      }
    }
    assert layers[..|layers|] == layers;
    return flexCount == 1 && baseCount <= 1 && bufferCount <= 1;
  }

  // ---- States -----------------------------------------------------------------------------

  /** A measured state with a utilization, if any, that is a percentage. */
  predicate CompleteState(st: LayerState) {
    && st.existing != None && st.expiring != None
    && (st.utilization == None || 0.0 <= st.utilization.value <= 100.0)
  }

  method ValidateLayerStates(layers: seq<LayerSpec>, states: map<LayerType, LayerState>) returns (ok: bool)
    ensures ok <==> ValidStates(layers, states)
  {
    for i := 0 to |layers|
      invariant forall k :: 0 <= k < i ==> layers[k].layer in states && CompleteState(states[layers[k].layer])
    {
      if layers[i].layer !in states {
        return false;
      }
      var st := states[layers[i].layer];
      if st.existing.None? || st.expiring.None? {
        return false;
      }
      if st.utilization.Some? && (st.utilization.value < 0.0 || st.utilization.value > 100.0) {
        return false;
      }
    }
    ok := ValidateNoUnknownStateKeys(layers, states);
  }

  method ValidateNoUnknownStateKeys(layers: seq<LayerSpec>, states: map<LayerType, LayerState>) returns (ok: bool)
    ensures ok <==> forall l :: l in states ==> Known(layers, l)
  {
    var known: set<LayerType> := {};
    for i := 0 to |layers|
      invariant forall k :: 0 <= k < i ==> layers[k].layer in known
      invariant forall l :: l in known ==> exists k :: 0 <= k < i && layers[k].layer == l
    {
      known := known + {layers[i].layer};
    }
    var keys := states.Keys;
    while keys != {}
      invariant keys <= states.Keys
      invariant forall l :: l in states && l !in keys ==> Known(layers, l)
      decreases |keys|
    {
      var l :| l in keys;
      if l !in known {
        return false;
      }
      keys := keys - {l};
    }
    return true;
  }
}
