/** Unit rule of the planner: sizing is on-demand-equivalent (OD), purchases are commitment. */
module LadderUnits {
  import opened Wrappers
  import opened LadderTypes
  import opened RealMath

  datatype AllocateError =
    | InvalidInput
    | InconsistentSnapshot
    | InvalidRate
    | InvalidInFlight
    | InvalidBaseline
    | NoBufferLayer

  datatype InFlightTranche = InFlightTranche(layer: LayerType, commitment: real, rate: real)

  predicate ValidRate(r: real) {
    0.0 < r <= 1.0
  }

  predicate ValidRates(rates: map<LayerType, real>) {
    forall l :: l in rates ==> ValidRate(rates[l])
  }

  method ValidateCommitmentRate(v: real) returns (ok: bool)
    ensures ok <==> ValidRate(v)
  {
    return !(v <= 0.0 || v > 1.0);
  }

  /** Every rate supplied has to be valid; a layer without one is no error here. */
  method ParseCommitmentRates(rates: map<LayerType, real>) returns (ok: bool)
    ensures ok <==> ValidRates(rates)
  {
    var keys := rates.Keys;
    while keys != {}
      invariant keys <= rates.Keys
      invariant forall l :: l in rates && l !in keys ==> ValidRate(rates[l])
      decreases |keys|
    {
      var l :| l in keys;
      var valid := ValidateCommitmentRate(rates[l]);
      if !valid {
        return false;
      }
      keys := keys - {l};
    }
    return true;
  }

  /** Commitment bought for an OD amount. */
  function ToCommitment(od: real, rate: real): real {
    Times(od, rate)
  }

  /** OD covered by a commitment; only meaningful for a valid rate. */
  function ToOd(commitment: real, rate: real): real {
    Over(commitment, rate)
  }

  /** Netting a stored commitment at the rate it was sized with gives back the OD it was sized from. */
  lemma ConversionRoundTrip(od: real, rate: real)
    requires ValidRate(rate)
    ensures ToOd(ToCommitment(od, rate), rate) == od
    ensures ToCommitment(ToOd(od, rate), rate) == od
  {
    OverUnique(od, Times(od, rate), rate);
    OverTimes(od, rate);
  }

  // ---- Net existing commitment -------------------------------------------------------------

  /** Existing minus expiring commitment of one layer; zero for a layer without a complete state. */
  function NetAt(states: map<LayerType, LayerState>, l: LayerType): real {
    if l in states && states[l].existing.Some? && states[l].expiring.Some?
    then states[l].existing.value - states[l].expiring.value
    else 0.0
  }

  function NetTotal(layers: seq<LayerSpec>, states: map<LayerType, LayerState>): real {
    if layers == [] then 0.0
    else NetTotal(layers[..|layers| - 1], states) + NetAt(states, layers[|layers| - 1].layer)
  }

  /** No layer reports a negative amount or more expiring than existing commitment. */
  predicate ConsistentSnapshot(layers: seq<LayerSpec>, states: map<LayerType, LayerState>) {
    forall i :: 0 <= i < |layers| ==> ConsistentAt(states, layers[i].layer)
  }

  predicate ConsistentAt(states: map<LayerType, LayerState>, l: LayerType) {
    && l in states && states[l].existing.Some? && states[l].expiring.Some?
    && 0.0 <= states[l].expiring.value <= states[l].existing.value
  }

  /** The nets of the first i layers and their sum, all of them consistent. */
  ghost predicate NettedTo(layers: seq<LayerSpec>, states: map<LayerType, LayerState>, i: nat,
                           nets: map<LayerType, real>, total: real)
  {
    && i <= |layers|
    && total == NetTotal(layers[..i], states)
    && (forall l :: l in nets ==> nets[l] == NetAt(states, l))
    && (forall k :: 0 <= k < i ==> layers[k].layer in nets)
    && (forall k :: 0 <= k < i ==> ConsistentAt(states, layers[k].layer))
  }

  lemma OneMoreNet(layers: seq<LayerSpec>, states: map<LayerType, LayerState>, i: nat,
                   nets: map<LayerType, real>, total: real)
    requires ValidStates(layers, states) && i < |layers| && NettedTo(layers, states, i, nets, total)
    requires ConsistentAt(states, layers[i].layer)
    ensures var net := NetAt(states, layers[i].layer);
      NettedTo(layers, states, i + 1, nets[layers[i].layer := net], total + net)
  {
    assert layers[..i + 1][..i] == layers[..i];
  }

  method ComputeNetExisting(layers: seq<LayerSpec>, states: map<LayerType, LayerState>)
    returns (r: Result<(map<LayerType, real>, real), AllocateError>)
    requires ValidStates(layers, states)
    ensures r.Success? <==> ConsistentSnapshot(layers, states)
    ensures r.Failure? ==> r.error == InconsistentSnapshot
    ensures r.Success? ==>
      && r.value.1 == NetTotal(layers, states)
      && (forall l :: l in r.value.0 ==> r.value.0[l] == NetAt(states, l))
      && (forall i :: 0 <= i < |layers| ==> layers[i].layer in r.value.0)
  {
    var total := 0.0;
    var nets: map<LayerType, real> := map[];
    for i := 0 to |layers|
      invariant NettedTo(layers, states, i, nets, total)
    {
      var st := states[layers[i].layer];
      if st.existing.value < 0.0 || st.expiring.value < 0.0 {
        return Failure(InconsistentSnapshot);
      }
      var net := st.existing.value - st.expiring.value;
      if net < 0.0 {
        return Failure(InconsistentSnapshot);
      }
      OneMoreNet(layers, states, i, nets, total);
      nets := nets[layers[i].layer := net];
      total := total + net;
    }
    assert layers[..|layers|] == layers;
    return Success((nets, total));
  }

  // ---- In-flight commitment ----------------------------------------------------------------

  predicate ValidInFlight(layers: seq<LayerSpec>, ts: seq<InFlightTranche>) {
    forall i :: 0 <= i < |ts| ==>
      && Known(layers, ts[i].layer)
      && 0.0 <= ts[i].commitment
      && ValidRate(ts[i].rate)
  }

  /** OD covered by the in-flight tranches. */
  function OdTotal(ts: seq<InFlightTranche>): real {
    if ts == [] then 0.0
    else OdTotal(ts[..|ts| - 1]) + ToOd(ts[|ts| - 1].commitment, ts[|ts| - 1].rate)
  }

  /** OD covered by the in-flight tranches of one layer. */
  function OdOn(ts: seq<InFlightTranche>, l: LayerType): real {
    if ts == [] then 0.0
    else
      var t := ts[|ts| - 1];
      OdOn(ts[..|ts| - 1], l) + (if t.layer == l then ToOd(t.commitment, t.rate) else 0.0)
  }

  method InFlightToOd(layers: seq<LayerSpec>, inFlight: seq<InFlightTranche>)
    returns (r: Result<(map<LayerType, real>, real), AllocateError>)
    ensures r.Success? <==> ValidInFlight(layers, inFlight)
    ensures r.Failure? ==> r.error == InvalidInFlight
    ensures r.Success? ==>
      && r.value.1 == OdTotal(inFlight)
      && (forall l :: OdOn(inFlight, l) == if l in r.value.0 then r.value.0[l] else 0.0)
  {
    var known := set ls | ls in layers :: ls.layer;
    var perLayer: map<LayerType, real> := map[];
    var total := 0.0;
    for i := 0 to |inFlight|
      invariant ValidInFlight(layers, inFlight[..i])
      invariant total == OdTotal(inFlight[..i])
      invariant forall l :: OdOn(inFlight[..i], l) == if l in perLayer then perLayer[l] else 0.0
    {
      var t := inFlight[i];
      if t.layer !in known {
        return Failure(InvalidInFlight);
      }
      if t.commitment < 0.0 || !ValidRate(t.rate) {
        return Failure(InvalidInFlight);
      }
      var od := ToOd(t.commitment, t.rate);
      ghost var before := perLayer;
      if t.layer in perLayer {
        perLayer := perLayer[t.layer := perLayer[t.layer] + od];
      } else {
        perLayer := perLayer[t.layer := od];
      }
      total := total + od;
      var upTo := inFlight[..i + 1];
      assert upTo[..|upTo| - 1] == inFlight[..i];
      forall l ensures OdOn(upTo, l) == if l in perLayer then perLayer[l] else 0.0 {
        assert OdOn(inFlight[..i], l) == if l in before then before[l] else 0.0;
      }
    }
    assert inFlight[..|inFlight|] == inFlight;
    return Success((perLayer, total));
  }

  lemma {:induction false} OdTotalConcat(a: seq<InFlightTranche>, b: seq<InFlightTranche>)
    ensures OdTotal(a + b) == OdTotal(a) + OdTotal(b)
  {
    if b == [] {
      assert a + b == a;
    } else {
      OdTotalConcat(a, b[..|b| - 1]);
      assert (a + b)[..|a + b| - 1] == a + b[..|b| - 1];
    }
  }

  lemma {:induction false} OdOnConcat(a: seq<InFlightTranche>, b: seq<InFlightTranche>, l: LayerType)
    ensures OdOn(a + b, l) == OdOn(a, l) + OdOn(b, l)
  {
    if b == [] {
      assert a + b == a;
    } else {
      OdOnConcat(a, b[..|b| - 1], l);
      assert (a + b)[..|a + b| - 1] == a + b[..|b| - 1];
    }
  }

  /** OD on the listed layers, layer by layer. */
  function OdByLayer(layers: seq<LayerSpec>, ts: seq<InFlightTranche>): real {
    if layers == [] then 0.0
    else OdByLayer(layers[..|layers| - 1], ts) + OdOn(ts, layers[|layers| - 1].layer)
  }

  /** Adding one tranche adds its OD to exactly one of the distinct layers. */
  lemma {:induction false} OneLayerGrows(layers: seq<LayerSpec>, ts: seq<InFlightTranche>, k: nat)
    requires DistinctLayers(layers) && ts != []
    requires k < |layers| && layers[k].layer == ts[|ts| - 1].layer
    ensures OdByLayer(layers, ts)
         == OdByLayer(layers, ts[..|ts| - 1]) + ToOd(ts[|ts| - 1].commitment, ts[|ts| - 1].rate)
  {
    var last := |layers| - 1;
    if k == last {
      OtherLayersUnchanged(layers[..last], ts);
    } else {
      assert layers[k].layer != layers[last].layer;
      OneLayerGrows(layers[..last], ts, k);
    }
  }

  lemma {:induction false} OtherLayersUnchanged(layers: seq<LayerSpec>, ts: seq<InFlightTranche>)
    requires ts != [] && forall i :: 0 <= i < |layers| ==> layers[i].layer != ts[|ts| - 1].layer
    ensures OdByLayer(layers, ts) == OdByLayer(layers, ts[..|ts| - 1])
  {
    if layers != [] {
      OtherLayersUnchanged(layers[..|layers| - 1], ts);
    }
  }

  /** The per-layer in-flight figures and the total agree: nothing in flight is left un-netted. */
  lemma {:induction false} LayersPartitionInFlight(layers: seq<LayerSpec>, ts: seq<InFlightTranche>)
    requires DistinctLayers(layers) && ValidInFlight(layers, ts)
    ensures OdByLayer(layers, ts) == OdTotal(ts)
  {
    if ts == [] {
      NothingInFlight(layers);
    } else {
      var rest := ts[..|ts| - 1];
      assert forall i :: 0 <= i < |rest| ==> rest[i] == ts[i];
      LayersPartitionInFlight(layers, rest);
      var k :| 0 <= k < |layers| && layers[k].layer == ts[|ts| - 1].layer;
      OneLayerGrows(layers, ts, k);
    }
  }

  lemma {:induction false} NothingInFlight(layers: seq<LayerSpec>)
    ensures OdByLayer(layers, []) == 0.0
  {
    if layers != [] {
      NothingInFlight(layers[..|layers| - 1]);
    }
  }
}
