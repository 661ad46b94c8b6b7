/** The stages that turn the OD gap into per-layer purchases and holds. */
module LadderPipeline {
  import opened Wrappers
  import opened LadderTypes
  import opened LadderUnits
  import opened RealMath

  const MIN_ALLOCATABLE := 0.01

  /** The OD share of one layer, before it is converted to commitment. */
  datatype Share = Share(layer: LayerType, od: real)

  /** A sized purchase: gap is commitment, od the usage it covers, rate the bridge between them. */
  datatype Allocation = Allocation(layer: LayerType, gap: real, od: real, rate: real)

  /** Which stage produced a hold, and the amount it withheld. */
  datatype HoldReason =
    | BaselineUnavailable
    | TargetMet(gap: real)
    | ResidualPartialTarget(upperBound: real)
    | UtilizationUnknown
    | ReshapePending(od: real)
    | NoRate(od: real)
    | BelowMinimum(commitment: real)
    | DeferredPurchase(commitment: real)
    | DeferredReshape

  datatype Hold = Hold(layer: LayerType, reason: HoldReason)

  /** Holds that stand for a withheld purchase, as opposed to purely informational ones. */
  predicate WithholdsPurchase(h: Hold) {
    h.reason.ReshapePending? || h.reason.NoRate? || h.reason.BelowMinimum? || h.reason.DeferredPurchase?
  }

  function ShareSum(xs: seq<Share>): real {
    if xs == [] then 0.0 else ShareSum(xs[..|xs| - 1]) + xs[|xs| - 1].od
  }

  function OdSum(s: seq<Allocation>): real {
    if s == [] then 0.0 else OdSum(s[..|s| - 1]) + s[|s| - 1].od
  }

  function GapSum(s: seq<Allocation>): real {
    if s == [] then 0.0 else GapSum(s[..|s| - 1]) + s[|s| - 1].gap
  }

  // How many entries a list has for one layer; of the holds, only withheld purchases count.
  function ShareCount(xs: seq<Share>, l: LayerType): nat {
    if xs == [] then 0 else ShareCount(xs[..|xs| - 1], l) + (if xs[|xs| - 1].layer == l then 1 else 0)
  }

  function AllocCount(s: seq<Allocation>, l: LayerType): nat {
    if s == [] then 0 else AllocCount(s[..|s| - 1], l) + (if s[|s| - 1].layer == l then 1 else 0)
  }

  function HoldCount(hs: seq<Hold>, l: LayerType): nat {
    if hs == [] then 0
    else
      var h := hs[|hs| - 1];
      HoldCount(hs[..|hs| - 1], l) + (if h.layer == l && WithholdsPurchase(h) then 1 else 0)
  }

  lemma AppendShare(xs: seq<Share>, x: Share, l: LayerType)
    ensures ShareSum(xs + [x]) == ShareSum(xs) + x.od
    ensures ShareCount(xs + [x], l) == ShareCount(xs, l) + (if x.layer == l then 1 else 0)
  {
    assert (xs + [x])[..|xs|] == xs;
  }

  lemma AppendAlloc(s: seq<Allocation>, a: Allocation, l: LayerType)
    ensures OdSum(s + [a]) == OdSum(s) + a.od
    ensures GapSum(s + [a]) == GapSum(s) + a.gap
    ensures AllocCount(s + [a], l) == AllocCount(s, l) + (if a.layer == l then 1 else 0)
  {
    assert (s + [a])[..|s|] == s;
  }

  lemma AppendHold(hs: seq<Hold>, h: Hold, l: LayerType)
    ensures HoldCount(hs + [h], l) == HoldCount(hs, l) + (if h.layer == l && WithholdsPurchase(h) then 1 else 0)
  {
    assert (hs + [h])[..|hs|] == hs;
  }

  lemma {:induction false} ConcatHolds(a: seq<Hold>, b: seq<Hold>, l: LayerType)
    ensures HoldCount(a + b, l) == HoldCount(a, l) + HoldCount(b, l)
  {
    if b == [] {
      assert a + b == a;
    } else {
      ConcatHolds(a, b[..|b| - 1], l);
      assert (a + b)[..|a + b| - 1] == a + b[..|b| - 1];
    }
  }

  lemma {:induction false} ConcatAllocs(a: seq<Allocation>, b: seq<Allocation>, l: LayerType)
    ensures OdSum(a + b) == OdSum(a) + OdSum(b)
    ensures GapSum(a + b) == GapSum(a) + GapSum(b)
    ensures AllocCount(a + b, l) == AllocCount(a, l) + AllocCount(b, l)
  {
    if b == [] {
      assert a + b == a;
    } else {
      ConcatAllocs(a, b[..|b| - 1], l);
      assert (a + b)[..|a + b| - 1] == a + b[..|b| - 1];
    }
  }

  /** Purchases with non-negative amounts never sum below zero. */
  lemma {:induction false} SumsNonNegative(s: seq<Allocation>)
    requires forall a :: a in s ==> 0.0 <= a.od && 0.0 <= a.gap
    ensures 0.0 <= OdSum(s) && 0.0 <= GapSum(s)
  {
    if s != [] {
      SumsNonNegative(s[..|s| - 1]);
    }
  }

  // ---- Split ------------------------------------------------------------------------------

  function Positive(layer: Option<LayerType>, od: real): seq<Share> {
    if layer.Some? && 0.0 < od then [Share(layer.value, od)] else []
  }

  /** The OD room left on the base layer below the stable level, at most the core gap. */
  function BaseGap(coreGap: real, base: Option<LayerType>, stable: Option<real>, committed: real)
    : Result<real, AllocateError>
  {
    if base.None? || stable.None? then Success(0.0)
    else if stable.value < 0.0 then Failure(InvalidBaseline)
    else
      var left := stable.value - committed;
      var room := if left < 0.0 then 0.0 else left;
      Success(if coreGap <= room then coreGap else room)
  }

  /** One share per role with a positive amount; base and buffer merge when one layer carries both. */
  function Assemble(baseGap: real, flexGap: real, bufferGap: real,
                    base: Option<LayerType>, flex: Option<LayerType>, buffer: Option<LayerType>): seq<Share>
  {
    (if base.Some? && buffer == base
     then Positive(buffer, baseGap + bufferGap)
     else Positive(base, baseGap) + Positive(buffer, bufferGap))
    + Positive(flex, flexGap)
  }

  /** committed is the OD already existing or in flight on the base layer. */
  function SplitGap(gap: real, bufferFraction: real, layers: seq<LayerSpec>, stable: Option<real>, committed: real)
    : Result<seq<Share>, AllocateError>
  {
    var bufferGap := Times(gap, bufferFraction);
    SplitShares(gap - bufferGap, bufferGap, layers, stable, committed)
  }

  function SplitShares(coreGap: real, bufferGap: real, layers: seq<LayerSpec>, stable: Option<real>, committed: real)
    : Result<seq<Share>, AllocateError>
  {
    var base := FindLayer(layers, BaseRole);
    var buffer := FindLayer(layers, BufferRole);
    if bufferGap > 0.0 && buffer.None? then Failure(NoBufferLayer)
    else
      match BaseGap(coreGap, base, stable, committed)
      case Failure(e) => Failure(e)
      case Success(baseGap) =>
        Success(Assemble(baseGap, coreGap - baseGap, bufferGap, base, FindLayer(layers, FlexRole), buffer))
  }

  predicate DistinctShares(xs: seq<Share>) {
    forall i, j :: 0 <= i < j < |xs| ==> xs[i].layer != xs[j].layer
  }

  lemma JoinSums(a: seq<Share>, b: seq<Share>)
    requires |b| <= 1
    ensures ShareSum(a + b) == ShareSum(a) + ShareSum(b)
  {
    if b == [] {
      assert a + b == a;
    } else {
      assert a + b == a + [b[0]] && b == [] + [b[0]];
      AppendShare(a, b[0], b[0].layer);
      AppendShare([], b[0], b[0].layer);
    }
  }

  lemma JoinDistinct(a: seq<Share>, b: seq<Share>)
    requires |b| <= 1 && DistinctShares(a)
    requires forall i :: 0 <= i < |a| && b != [] ==> a[i].layer != b[0].layer
    ensures DistinctShares(a + b)
  {
  }

  lemma JoinShares(a: seq<Share>, b: seq<Share>)
    requires |b| <= 1 && DistinctShares(a)
    requires forall x, y :: x in a && y in b ==> x.layer != y.layer
    ensures ShareSum(a + b) == ShareSum(a) + ShareSum(b)
    ensures DistinctShares(a + b)
  {
    JoinSums(a, b);
    forall i | 0 <= i < |a| && b != [] ensures a[i].layer != b[0].layer {
      assert a[i] in a && b[0] in b;
    }
    JoinDistinct(a, b);
  }

  lemma PositiveFacts(layer: Option<LayerType>, od: real)
    requires 0.0 <= od && (layer.None? ==> od == 0.0)
    ensures ShareSum(Positive(layer, od)) == od
    ensures forall x :: x in Positive(layer, od) ==> 0.0 < x.od && Some(x.layer) == layer
    ensures |Positive(layer, od)| <= 1
  {
    if layer.Some? && 0.0 < od {
      assert Positive(layer, od)[..0] == [];
    }
  }

  /** Shares whose layers are among the given ones, all positive. */
  predicate SharesOn(xs: seq<Share>, base: Option<LayerType>, flex: Option<LayerType>, buffer: Option<LayerType>) {
    forall x :: x in xs ==> 0.0 < x.od && (Some(x.layer) == base || Some(x.layer) == flex || Some(x.layer) == buffer)
  }

  lemma MergedIsExact(merged: real, flexGap: real, layer: Option<LayerType>, flex: Option<LayerType>)
    requires 0.0 <= merged && 0.0 <= flexGap
    requires layer.Some? && flex.Some? && layer != flex
    ensures var xs := Positive(layer, merged) + Positive(flex, flexGap);
      && ShareSum(xs) == merged + flexGap
      && DistinctShares(xs) && SharesOn(xs, layer, flex, layer)
  {
    PositiveFacts(layer, merged);
    PositiveFacts(flex, flexGap);
    JoinShares(Positive(layer, merged), Positive(flex, flexGap));
  }

  lemma SeparateIsExact(baseGap: real, flexGap: real, bufferGap: real,
                        base: Option<LayerType>, flex: Option<LayerType>, buffer: Option<LayerType>)
    requires 0.0 <= baseGap && 0.0 <= flexGap && 0.0 <= bufferGap
    requires flex.Some? && base != flex && buffer != flex && (base.Some? ==> buffer != base)
    requires (base.None? ==> baseGap == 0.0) && (buffer.None? ==> bufferGap == 0.0)
    ensures var xs := Positive(base, baseGap) + Positive(buffer, bufferGap) + Positive(flex, flexGap);
      && ShareSum(xs) == baseGap + flexGap + bufferGap
      && DistinctShares(xs) && SharesOn(xs, base, flex, buffer)
  {
    var b, u, f := Positive(base, baseGap), Positive(buffer, bufferGap), Positive(flex, flexGap);
    PositiveFacts(base, baseGap);
    PositiveFacts(buffer, bufferGap);
    PositiveFacts(flex, flexGap);
    JoinShares(b, u);
    JoinShares(b + u, f);
  }

  lemma AssembleIsExact(baseGap: real, flexGap: real, bufferGap: real,
                        base: Option<LayerType>, flex: Option<LayerType>, buffer: Option<LayerType>)
    requires 0.0 <= baseGap && 0.0 <= flexGap && 0.0 <= bufferGap
    requires flex.Some? && base != flex && buffer != flex
    requires (base.None? ==> baseGap == 0.0) && (buffer.None? ==> bufferGap == 0.0)
    ensures var xs := Assemble(baseGap, flexGap, bufferGap, base, flex, buffer);
      && ShareSum(xs) == baseGap + flexGap + bufferGap
      && DistinctShares(xs) && SharesOn(xs, base, flex, buffer)
  {
    if base.Some? && buffer == base {
      MergedIsExact(baseGap + bufferGap, flexGap, base, flex);
    } else {
      SeparateIsExact(baseGap, flexGap, bufferGap, base, flex, buffer);
    }
  }

  lemma FractionOf(gap: real, fraction: real, part: real)
    requires 0.0 < gap && 0.0 <= fraction < 1.0 && part == Times(gap, fraction)
    ensures 0.0 <= part < gap
  {
    TimesNonNegative(gap, fraction);
    TimesStrict(gap, fraction, 1.0);
    TimesUnit(gap);
  }

  /** The split loses nothing: positive shares on distinct known layers that add up to the gap. */
  lemma SplitIsExact(gap: real, bufferFraction: real, layers: seq<LayerSpec>, stable: Option<real>, committed: real,
                     xs: seq<Share>)
    requires ValidLayers(layers) && 0.0 < gap && 0.0 <= bufferFraction < 1.0
    requires SplitGap(gap, bufferFraction, layers, stable, committed) == Success(xs)
    ensures ShareSum(xs) == gap
    ensures DistinctShares(xs)
    ensures forall x :: x in xs ==> 0.0 < x.od && Known(layers, x.layer)
  {
    var bufferGap := Times(gap, bufferFraction);
    FractionOf(gap, bufferFraction, bufferGap);
    SharesAreExact(gap - bufferGap, bufferGap, layers, stable, committed, xs);
  }

  lemma SharesAreExact(coreGap: real, bufferGap: real, layers: seq<LayerSpec>, stable: Option<real>, committed: real,
                       xs: seq<Share>)
    requires ValidLayers(layers) && 0.0 < coreGap && 0.0 <= bufferGap
    requires SplitShares(coreGap, bufferGap, layers, stable, committed) == Success(xs)
    ensures ShareSum(xs) == coreGap + bufferGap
    ensures DistinctShares(xs)
    ensures forall x :: x in xs ==> 0.0 < x.od && Known(layers, x.layer)
  {
    var base, buffer, flex := FindLayer(layers, BaseRole), FindLayer(layers, BufferRole), FindLayer(layers, FlexRole);
    FlexStandsAlone(layers);
    var baseGap := BaseGap(coreGap, base, stable, committed).value;
    AssembledFromBase(coreGap, bufferGap, baseGap, base, flex, buffer, stable, committed);
    RoleSharesAreKnown(xs, layers, base, flex, buffer);
  }

  lemma RoleSharesAreKnown(xs: seq<Share>, layers: seq<LayerSpec>,
                           base: Option<LayerType>, flex: Option<LayerType>, buffer: Option<LayerType>)
    requires SharesOn(xs, base, flex, buffer)
    requires base == FindLayer(layers, BaseRole) && flex == FindLayer(layers, FlexRole)
    requires buffer == FindLayer(layers, BufferRole)
    ensures forall x :: x in xs ==> 0.0 < x.od && Known(layers, x.layer)
  {
    FoundIsKnown(layers, BaseRole);
    FoundIsKnown(layers, BufferRole);
    FoundIsKnown(layers, FlexRole);
  }

  lemma AssembledFromBase(coreGap: real, bufferGap: real, baseGap: real, base: Option<LayerType>,
                          flex: Option<LayerType>, buffer: Option<LayerType>, stable: Option<real>, committed: real)
    requires 0.0 < coreGap && 0.0 <= bufferGap && (buffer.None? ==> bufferGap == 0.0)
    requires flex.Some? && base != flex && buffer != flex
    requires BaseGap(coreGap, base, stable, committed) == Success(baseGap)
    ensures var xs := Assemble(baseGap, coreGap - baseGap, bufferGap, base, flex, buffer);
      && ShareSum(xs) == coreGap + bufferGap
      && DistinctShares(xs) && SharesOn(xs, base, flex, buffer)
  {
    BaseGapRange(coreGap, base, stable, committed);
    AssembleIsExact(baseGap, coreGap - baseGap, bufferGap, base, flex, buffer);
  }

  lemma BaseGapRange(coreGap: real, base: Option<LayerType>, stable: Option<real>, committed: real)
    requires 0.0 < coreGap && BaseGap(coreGap, base, stable, committed).Success?
    ensures 0.0 <= BaseGap(coreGap, base, stable, committed).value <= coreGap
    ensures base.None? ==> BaseGap(coreGap, base, stable, committed).value == 0.0
  {
  }

  lemma FoundIsKnown(layers: seq<LayerSpec>, role: LayerRole)
    ensures FindLayer(layers, role).Some? ==> Known(layers, FindLayer(layers, role).value)
  {
    if FindLayer(layers, role).Some? {
      var i := FindLayerCarries(layers, role);
    }
  }

  /** What the shares give one layer. */
  function ShareOd(xs: seq<Share>, l: LayerType): real {
    if xs == [] then 0.0
    else ShareOd(xs[..|xs| - 1], l) + (if xs[|xs| - 1].layer == l then xs[|xs| - 1].od else 0.0)
  }

  lemma JoinOd(a: seq<Share>, layer: Option<LayerType>, od: real, l: LayerType)
    requires 0.0 <= od
    ensures ShareOd(a + Positive(layer, od), l) == ShareOd(a, l) + (if layer == Some(l) then od else 0.0)
  {
    var b := Positive(layer, od);
    if b == [] {
      assert a + b == a;
    } else {
      assert (a + b)[..|a|] == a && (a + b)[|a|] == b[0];
    }
  }

  lemma AssembledOd(baseGap: real, flexGap: real, bufferGap: real,
                    base: Option<LayerType>, flex: Option<LayerType>, buffer: Option<LayerType>, l: LayerType)
    requires 0.0 <= baseGap && 0.0 <= flexGap && 0.0 <= bufferGap
    ensures ShareOd(Assemble(baseGap, flexGap, bufferGap, base, flex, buffer), l)
         == (if base == Some(l) then baseGap else 0.0) + (if buffer == Some(l) then bufferGap else 0.0)
            + (if flex == Some(l) then flexGap else 0.0)
  {
    if base.Some? && buffer == base {
      var merged := Positive(buffer, baseGap + bufferGap);
      assert [] + merged == merged;
      JoinOd([], buffer, baseGap + bufferGap, l);
      JoinOd(merged, flex, flexGap, l);
    } else {
      var b := Positive(base, baseGap);
      assert [] + b == b;
      JoinOd([], base, baseGap, l);
      JoinOd(b, buffer, bufferGap, l);
      JoinOd(b + Positive(buffer, bufferGap), flex, flexGap, l);
    }
  }

  /** The part of the gap outside the buffer that fits on the base layer: all of it, or the room that
      is left below stable. */
  predicate FitsBelowStable(part: real, coreGap: real, stable: Option<real>, committed: real) {
    match stable
    case None => part == 0.0
    case Some(s) =>
      && 0.0 <= part <= coreGap
      && (committed <= s ==> committed + part <= s && (part == coreGap || committed + part == s))
      && (s < committed ==> part == 0.0)
  }

  /** What a layer gets when its base part, buffer part and the rest of the gap go to their roles. */
  ghost predicate PartsByRole(xs: seq<Share>, layers: seq<LayerSpec>, l: LayerType, basePart: real, bufferPart: real,
                              rest: real)
  {
    ShareOd(xs, l) == (if FindLayer(layers, BaseRole) == Some(l) then basePart else 0.0)
                    + (if FindLayer(layers, BufferRole) == Some(l) then bufferPart else 0.0)
                    + (if FindLayer(layers, FlexRole) == Some(l) then rest else 0.0)
  }

  lemma BaseFits(coreGap: real, base: Option<LayerType>, stable: Option<real>, committed: real)
    requires 0.0 <= coreGap && BaseGap(coreGap, base, stable, committed).Success?
    ensures var part := BaseGap(coreGap, base, stable, committed).value;
      && 0.0 <= part <= coreGap
      && (if base.Some? then FitsBelowStable(part, coreGap, stable, committed) else part == 0.0)
  {
  }

  /** Each role gets its own part of the gap: the buffer its fraction, the base what fits below stable,
      the flex layer the rest; a layer with two roles gets both parts. */
  lemma RolesGetTheirParts(gap: real, bufferFraction: real, layers: seq<LayerSpec>, stable: Option<real>,
                           committed: real, xs: seq<Share>, l: LayerType, bufferPart: real) returns (basePart: real)
    requires ValidLayers(layers) && 0.0 < gap && 0.0 <= bufferFraction < 1.0
    requires bufferPart == Times(gap, bufferFraction)
    requires SplitGap(gap, bufferFraction, layers, stable, committed) == Success(xs)
    ensures if FindLayer(layers, BaseRole).Some? then FitsBelowStable(basePart, gap - bufferPart, stable, committed)
            else basePart == 0.0
    ensures PartsByRole(xs, layers, l, basePart, bufferPart, gap - bufferPart - basePart)
  {
    FractionOf(gap, bufferFraction, bufferPart);
    basePart := PartsOfSplit(gap - bufferPart, bufferPart, layers, stable, committed, xs, l);
  }

  lemma PartsOfSplit(coreGap: real, bufferPart: real, layers: seq<LayerSpec>, stable: Option<real>,
                     committed: real, xs: seq<Share>, l: LayerType) returns (basePart: real)
    requires 0.0 <= coreGap && 0.0 <= bufferPart
    requires SplitShares(coreGap, bufferPart, layers, stable, committed) == Success(xs)
    ensures if FindLayer(layers, BaseRole).Some? then FitsBelowStable(basePart, coreGap, stable, committed)
            else basePart == 0.0
    ensures PartsByRole(xs, layers, l, basePart, bufferPart, coreGap - basePart)
  {
    var base, buffer, flex := FindLayer(layers, BaseRole), FindLayer(layers, BufferRole), FindLayer(layers, FlexRole);
    basePart := BaseGap(coreGap, base, stable, committed).value;
    BaseFits(coreGap, base, stable, committed);
    AssembledOd(basePart, coreGap - basePart, bufferPart, base, flex, buffer, l);
  }

  /** What the split gives a layer that carries only the base role never lifts it past stable. */
  lemma BaseShareWithinStable(gap: real, bufferFraction: real, layers: seq<LayerSpec>, stable: real, committed: real,
                              x: Share)
    requires ValidLayers(layers) && 0.0 < gap && 0.0 <= bufferFraction < 1.0
    requires SplitGap(gap, bufferFraction, layers, Some(stable), committed).Success?
    requires x in SplitGap(gap, bufferFraction, layers, Some(stable), committed).value
    requires FindLayer(layers, BaseRole) == Some(x.layer) && FindLayer(layers, BufferRole) != Some(x.layer)
    ensures committed + x.od <= stable
  {
    FlexStandsAlone(layers);
  }

  // ---- Reshape hold -----------------------------------------------------------------------

  predicate BufferOnly(layers: seq<LayerSpec>, l: LayerType) {
    exists i :: 0 <= i < |layers| && layers[i].layer == l
             && BufferRole in layers[i].roles && BaseRole !in layers[i].roles
  }

  /** Layers whose purchase is withheld: reshaped in this run and carrying only the buffer role. */
  function Withheld(reshapes: seq<LayerType>, layers: seq<LayerSpec>): set<LayerType> {
    set l | l in reshapes && BufferOnly(layers, l)
  }

  function WithholdReshaped(xs: seq<Share>, withheld: set<LayerType>): (seq<Share>, seq<Hold>) {
    if xs == [] then ([], [])
    else
      var (kept, holds) := WithholdReshaped(xs[..|xs| - 1], withheld);
      var x := xs[|xs| - 1];
      if x.layer in withheld then (kept, holds + [Hold(x.layer, ReshapePending(x.od))]) else (kept + [x], holds)
  }

  lemma {:induction false} NothingWithheld(xs: seq<Share>)
    ensures WithholdReshaped(xs, {}) == (xs, [])
  {
    if xs != [] {
      NothingWithheld(xs[..|xs| - 1]);
      assert xs == xs[..|xs| - 1] + [xs[|xs| - 1]];
    }
  }

  method HoldReshapedBufferAllocations(xs: seq<Share>, reshapes: seq<LayerType>, layers: seq<LayerSpec>)
    returns (kept: seq<Share>, holds: seq<Hold>)
    ensures (kept, holds) == WithholdReshaped(xs, Withheld(reshapes, layers))
  {
    var withheld := Withheld(reshapes, layers);
    kept, holds := [], [];
    if |reshapes| == 0 {
      NothingWithheld(xs);
      assert withheld == {};
      return xs, [];
    }
    for i := 0 to |xs|
      invariant (kept, holds) == WithholdReshaped(xs[..i], withheld)
    {
      assert xs[..i + 1][..i] == xs[..i];
      if xs[i].layer !in withheld {
        kept := kept + [xs[i]];
        continue;
      }
      holds := holds + [Hold(xs[i].layer, ReshapePending(xs[i].od))];
    }
    assert xs[..|xs|] == xs;
  }

  lemma {:induction false} WithholdFacts(xs: seq<Share>, withheld: set<LayerType>)
    requires forall x :: x in xs ==> 0.0 < x.od
    ensures var (kept, holds) := WithholdReshaped(xs, withheld);
      && (forall x :: x in kept ==> x in xs && x.layer !in withheld)
      && (forall h :: h in holds ==>
            h.reason.ReshapePending? && h.layer in withheld && Share(h.layer, h.reason.od) in xs)
  {
    if xs != [] {
      WithholdFacts(xs[..|xs| - 1], withheld);
    }
  }

  lemma {:induction false} WithholdSums(xs: seq<Share>, withheld: set<LayerType>, l: LayerType)
    requires forall x :: x in xs ==> 0.0 < x.od
    ensures var (kept, holds) := WithholdReshaped(xs, withheld);
      && ShareCount(xs, l) == ShareCount(kept, l) + HoldCount(holds, l)
      && ShareSum(kept) <= ShareSum(xs)
      && |kept| <= |xs|
  {
    if xs != [] {
      var rest, x := xs[..|xs| - 1], xs[|xs| - 1];
      WithholdSums(rest, withheld, l);
      var (kept, holds) := WithholdReshaped(rest, withheld);
      AppendShare(kept, x, l);
      AppendHold(holds, Hold(x.layer, ReshapePending(x.od)), l);
    }
  }

  // ---- Conversion to commitment -----------------------------------------------------------

  function Sized(x: Share, rate: real): Allocation {
    Allocation(x.layer, ToCommitment(x.od, rate), x.od, rate)
  }

  function Convert(xs: seq<Share>, rates: map<LayerType, real>): (seq<Allocation>, seq<Hold>) {
    if xs == [] then ([], [])
    else
      var (out, holds) := Convert(xs[..|xs| - 1], rates);
      var x := xs[|xs| - 1];
      if x.layer in rates then (out + [Sized(x, rates[x.layer])], holds)
      else (out, holds + [Hold(x.layer, NoRate(x.od))])
  }

  method ConvertAllocations(xs: seq<Share>, rates: map<LayerType, real>)
    returns (out: seq<Allocation>, holds: seq<Hold>)
    ensures (out, holds) == Convert(xs, rates)
  {
    out, holds := [], [];
    for i := 0 to |xs|
      invariant (out, holds) == Convert(xs[..i], rates)
    {
      var x := xs[i];
      assert xs[..i + 1][..i] == xs[..i];
      if x.layer !in rates {
        holds := holds + [Hold(x.layer, NoRate(x.od))];
        continue;
      }
      var r := rates[x.layer];
      var a := Allocation(x.layer, ToCommitment(x.od, r), x.od, r);
      assert a == Sized(x, r);
      out := out + [a];
    }
    assert xs[..|xs|] == xs;
  }

  lemma PositiveCommitment(od: real, rate: real)
    requires ValidRate(rate) && 0.0 < od
    ensures 0.0 < ToCommitment(od, rate)
  {
    TimesPositive(od, rate);
  }

  lemma {:induction false} ConvertFacts(xs: seq<Share>, rates: map<LayerType, real>)
    requires ValidRates(rates) && forall x :: x in xs ==> 0.0 < x.od
    ensures var (out, holds) := Convert(xs, rates);
      && (forall a :: a in out ==>
            a.layer in rates && Share(a.layer, a.od) in xs && a == Sized(Share(a.layer, a.od), rates[a.layer])
            && 0.0 < a.gap && 0.0 < a.od)
      && (forall h :: h in holds ==>
            h.reason.NoRate? && h.layer !in rates && Share(h.layer, h.reason.od) in xs)
  {
    if xs != [] {
      var x := xs[|xs| - 1];
      ConvertFacts(xs[..|xs| - 1], rates);
      if x.layer in rates {
        PositiveCommitment(x.od, rates[x.layer]);
      }
    }
  }

  lemma {:induction false} ConvertSums(xs: seq<Share>, rates: map<LayerType, real>, l: LayerType)
    requires forall x :: x in xs ==> 0.0 < x.od
    ensures var (out, holds) := Convert(xs, rates);
      && ShareCount(xs, l) == AllocCount(out, l) + HoldCount(holds, l)
      && OdSum(out) <= ShareSum(xs)
      && |out| <= |xs|
  {
    if xs != [] {
      var rest, x := xs[..|xs| - 1], xs[|xs| - 1];
      ConvertSums(rest, rates, l);
      var (out, holds) := Convert(rest, rates);
      if x.layer in rates {
        AppendAlloc(out, Sized(x, rates[x.layer]), l);
      } else {
        AppendHold(holds, Hold(x.layer, NoRate(x.od)), l);
      }
    }
  }

  // ---- Per-run spend cap ------------------------------------------------------------------

  function ScaleOne(a: Allocation, scale: real): Allocation {
    Allocation(a.layer, Times(a.gap, scale), Times(a.od, scale), a.rate)
  }

  function Scaled(s: seq<Allocation>, scale: real): seq<Allocation> {
    if s == [] then [] else Scaled(s[..|s| - 1], scale) + [ScaleOne(s[|s| - 1], scale)]
  }

  predicate CapBinds(s: seq<Allocation>, cap: Option<real>) {
    cap.Some? && s != [] && 0.0 < GapSum(s) && cap.value < GapSum(s)
  }

  /** The common factor the cap applies: 1 unless the total commitment exceeds the cap. */
  function CapScale(s: seq<Allocation>, cap: Option<real>): real {
    if CapBinds(s, cap) then Over(cap.value, GapSum(s)) else 1.0
  }

  function ApplyCap(s: seq<Allocation>, cap: Option<real>): seq<Allocation> {
    if CapBinds(s, cap) then Scaled(s, CapScale(s, cap)) else s
  }

  method ApplyCapGuardrail(s: seq<Allocation>, cap: Option<real>) returns (r: seq<Allocation>)
    ensures r == ApplyCap(s, cap)
  {
    if cap.None? || |s| == 0 {
      return s;
    }
    var total := 0.0;
    for i := 0 to |s|
      invariant total == GapSum(s[..i])
    {
      total := total + s[i].gap;
      assert s[..i + 1][..i] == s[..i];
    }
    assert s[..|s|] == s;
    if total <= 0.0 || cap.value >= total {
      return s;
    }
    var scale := Over(cap.value, total);
    r := [];
    for i := 0 to |s|
      invariant r == Scaled(s[..i], scale)
    {
      var a := Allocation(s[i].layer, Times(s[i].gap, scale), Times(s[i].od, scale), s[i].rate);
      assert a == ScaleOne(s[i], scale);
      r := r + [a];
      assert s[..i + 1][..i] == s[..i];
    }
  }

  lemma {:induction false} ScaledGap(s: seq<Allocation>, scale: real)
    ensures GapSum(Scaled(s, scale)) == Times(GapSum(s), scale)
  {
    TimesUnit(scale);
    if s != [] {
      var rest, a := s[..|s| - 1], s[|s| - 1];
      ScaledGap(rest, scale);
      AppendAlloc(Scaled(rest, scale), ScaleOne(a, scale), a.layer);
      TimesAdd(scale, GapSum(rest), a.gap);
    }
  }

  lemma {:induction false} ScaledOd(s: seq<Allocation>, scale: real)
    ensures OdSum(Scaled(s, scale)) == Times(OdSum(s), scale)
  {
    TimesUnit(scale);
    if s != [] {
      var rest, a := s[..|s| - 1], s[|s| - 1];
      ScaledOd(rest, scale);
      AppendAlloc(Scaled(rest, scale), ScaleOne(a, scale), a.layer);
      TimesAdd(scale, OdSum(rest), a.od);
    }
  }

  lemma {:induction false} ScaledCount(s: seq<Allocation>, scale: real, l: LayerType)
    ensures AllocCount(Scaled(s, scale), l) == AllocCount(s, l)
  {
    if s != [] {
      ScaledCount(s[..|s| - 1], scale, l);
      AppendAlloc(Scaled(s[..|s| - 1], scale), ScaleOne(s[|s| - 1], scale), l);
    }
  }

  lemma {:induction false} ScaledItems(s: seq<Allocation>, scale: real)
    ensures |Scaled(s, scale)| == |s|
    ensures forall i :: 0 <= i < |s| ==> Scaled(s, scale)[i] == ScaleOne(s[i], scale)
  {
    if s != [] {
      ScaledItems(s[..|s| - 1], scale);
    }
  }

  /** The cap applies one factor in (0, 1] to every purchase. */
  lemma CapItems(s: seq<Allocation>, cap: Option<real>)
    requires cap.Some? ==> 0.0 < cap.value
    ensures 0.0 < CapScale(s, cap) <= 1.0
    ensures |ApplyCap(s, cap)| == |s|
    ensures forall i :: 0 <= i < |s| ==> ApplyCap(s, cap)[i] == ScaleOne(s[i], CapScale(s, cap))
  {
    if CapBinds(s, cap) {
      ScaledItems(s, CapScale(s, cap));
      OverBelowOne(cap.value, GapSum(s));
    } else {
      forall i | 0 <= i < |s| ensures s[i] == ScaleOne(s[i], 1.0) {
        TimesUnit(s[i].gap);
        TimesUnit(s[i].od);
      }
    }
  }

  /** After the cap the total commitment fits, exactly at the cap when it had to scale. */
  lemma CapFits(s: seq<Allocation>, cap: Option<real>)
    requires cap.Some? ==> 0.0 < cap.value
    ensures cap.Some? ==> GapSum(ApplyCap(s, cap)) <= cap.value
    ensures CapScale(s, cap) < 1.0 ==> cap.Some? && GapSum(ApplyCap(s, cap)) == cap.value
  {
    if CapBinds(s, cap) {
      OverBelowOne(cap.value, GapSum(s));
      ScaledGap(s, CapScale(s, cap));
    }
  }

  lemma CapSums(s: seq<Allocation>, cap: Option<real>, l: LayerType)
    requires forall a :: a in s ==> 0.0 <= a.gap && 0.0 <= a.od
    requires cap.Some? ==> 0.0 < cap.value
    ensures OdSum(ApplyCap(s, cap)) <= OdSum(s)
    ensures AllocCount(ApplyCap(s, cap), l) == AllocCount(s, l)
  {
    CapItems(s, cap);
    ScaledShrinks(s, CapScale(s, cap), l);
  }

  lemma ScaledShrinks(s: seq<Allocation>, scale: real, l: LayerType)
    requires forall a :: a in s ==> 0.0 <= a.gap && 0.0 <= a.od
    requires 0.0 < scale <= 1.0
    ensures OdSum(Scaled(s, scale)) <= OdSum(s)
    ensures AllocCount(Scaled(s, scale), l) == AllocCount(s, l)
  {
    SumsNonNegative(s);
    ScaledCount(s, scale, l);
    ScaledOd(s, scale);
    TimesShrinks(OdSum(s), scale);
  }

  // ---- Minimum ----------------------------------------------------------------------------

  function DropSubMinimum(s: seq<Allocation>): (seq<Allocation>, seq<Hold>) {
    if s == [] then ([], [])
    else
      var (kept, holds) := DropSubMinimum(s[..|s| - 1]);
      var a := s[|s| - 1];
      if a.gap < MIN_ALLOCATABLE then (kept, holds + [Hold(a.layer, BelowMinimum(a.gap))]) else (kept + [a], holds)
  }

  method DropSubMinimumAllocations(s: seq<Allocation>) returns (kept: seq<Allocation>, holds: seq<Hold>)
    ensures (kept, holds) == DropSubMinimum(s)
  {
    kept, holds := [], [];
    for i := 0 to |s|
      invariant (kept, holds) == DropSubMinimum(s[..i])
    {
      assert s[..i + 1][..i] == s[..i];
      if s[i].gap < MIN_ALLOCATABLE {
        holds := holds + [Hold(s[i].layer, BelowMinimum(s[i].gap))];
        continue;
      }
      kept := kept + [s[i]];
    }
    assert s[..|s|] == s;
  }

  lemma {:induction false} DropFacts(s: seq<Allocation>)
    ensures var (kept, holds) := DropSubMinimum(s);
      && (forall a :: a in kept ==> a in s && MIN_ALLOCATABLE <= a.gap)
      && (forall h :: h in holds ==>
            h.reason.BelowMinimum? && h.reason.commitment < MIN_ALLOCATABLE
            && exists a :: a in s && a.layer == h.layer && a.gap == h.reason.commitment)
  {
    if s != [] {
      var a := s[|s| - 1];
      DropFacts(s[..|s| - 1]);
      assert a in s;
    }
  }

  lemma {:induction false} DropSums(s: seq<Allocation>, l: LayerType)
    requires forall a :: a in s ==> 0.0 <= a.gap && 0.0 <= a.od
    ensures var (kept, holds) := DropSubMinimum(s);
      && AllocCount(s, l) == AllocCount(kept, l) + HoldCount(holds, l)
      && OdSum(kept) <= OdSum(s) && GapSum(kept) <= GapSum(s)
      && |kept| <= |s|
  {
    if s != [] {
      var rest, a := s[..|s| - 1], s[|s| - 1];
      DropSums(rest, l);
      var (kept, holds) := DropSubMinimum(rest);
      AppendAlloc(kept, a, l);
      AppendHold(holds, Hold(a.layer, BelowMinimum(a.gap)), l);
    }
  }
}
