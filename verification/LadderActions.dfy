/** The action limit: which purchases and reshapes a run keeps, and which it defers. */
module LadderActions {
  import opened Wrappers
  import opened LadderTypes
  import opened LadderPipeline

  /** Larger purchases first; equal ones by layer name. */
  predicate Outranks(a: Allocation, b: Allocation) {
    a.gap > b.gap || (a.gap == b.gap && NameRank(a.layer) <= NameRank(b.layer))
  }

  function InsertRanked(a: Allocation, s: seq<Allocation>): seq<Allocation> {
    if s == [] || Outranks(s[|s| - 1], a) then s + [a]
    else InsertRanked(a, s[..|s| - 1]) + [s[|s| - 1]]
  }

  /** Stable sort of a copy, most valuable purchase first. */
  function Ranked(s: seq<Allocation>): seq<Allocation> {
    if s == [] then [] else InsertRanked(s[|s| - 1], Ranked(s[..|s| - 1]))
  }

  predicate RankDescending(s: seq<Allocation>) {
    forall i, j :: 0 <= i < j < |s| ==> Outranks(s[i], s[j])
  }

  lemma {:induction false} InsertBag(a: Allocation, s: seq<Allocation>)
    ensures multiset(InsertRanked(a, s)) == multiset(s) + multiset{a}
    ensures |InsertRanked(a, s)| == |s| + 1
  {
    if s != [] && !Outranks(s[|s| - 1], a) {
      InsertBag(a, s[..|s| - 1]);
      assert s == s[..|s| - 1] + [s[|s| - 1]];
    }
  }

  lemma {:induction false} InsertSums(a: Allocation, s: seq<Allocation>, l: LayerType)
    ensures OdSum(InsertRanked(a, s)) == OdSum(s) + a.od
    ensures GapSum(InsertRanked(a, s)) == GapSum(s) + a.gap
    ensures AllocCount(InsertRanked(a, s), l) == AllocCount(s, l) + (if a.layer == l then 1 else 0)
  {
    if s == [] || Outranks(s[|s| - 1], a) {
      AppendAlloc(s, a, l);
    } else {
      InsertSums(a, s[..|s| - 1], l);
      AppendAlloc(InsertRanked(a, s[..|s| - 1]), s[|s| - 1], l);
    }
  }

  lemma {:induction false} InsertMembers(a: Allocation, s: seq<Allocation>)
    ensures forall x :: x in InsertRanked(a, s) ==> x == a || x in s
  {
    if s != [] && !Outranks(s[|s| - 1], a) {
      InsertMembers(a, s[..|s| - 1]);
    }
  }

  lemma AppendSorted(s: seq<Allocation>, last: Allocation)
    requires RankDescending(s) && forall x :: x in s ==> Outranks(x, last)
    ensures RankDescending(s + [last])
  {
  }

  lemma {:induction false} InsertSorted(a: Allocation, s: seq<Allocation>)
    requires RankDescending(s)
    ensures RankDescending(InsertRanked(a, s))
  {
    if s == [] || Outranks(s[|s| - 1], a) {
      AppendSorted(s, a);
    } else {
      var rest, last := s[..|s| - 1], s[|s| - 1];
      InsertSorted(a, rest);
      InsertMembers(a, rest);
      AppendSorted(InsertRanked(a, rest), last);
    }
  }

  lemma {:induction false} RankedBag(s: seq<Allocation>)
    ensures multiset(Ranked(s)) == multiset(s)
    ensures |Ranked(s)| == |s|
    ensures RankDescending(Ranked(s))
  {
    if s != [] {
      RankedBag(s[..|s| - 1]);
      InsertBag(s[|s| - 1], Ranked(s[..|s| - 1]));
      InsertSorted(s[|s| - 1], Ranked(s[..|s| - 1]));
      assert s == s[..|s| - 1] + [s[|s| - 1]];
    }
  }

  lemma {:induction false} RankedSums(s: seq<Allocation>, l: LayerType)
    ensures OdSum(Ranked(s)) == OdSum(s) && GapSum(Ranked(s)) == GapSum(s)
    ensures AllocCount(Ranked(s), l) == AllocCount(s, l)
  {
    if s != [] {
      RankedSums(s[..|s| - 1], l);
      InsertSums(s[|s| - 1], Ranked(s[..|s| - 1]), l);
    }
  }

  function DeferralHolds(s: seq<Allocation>): seq<Hold> {
    if s == [] then []
    else DeferralHolds(s[..|s| - 1]) + [Hold(s[|s| - 1].layer, DeferredPurchase(s[|s| - 1].gap))]
  }

  lemma {:induction false} DeferralCounts(s: seq<Allocation>, l: LayerType)
    ensures HoldCount(DeferralHolds(s), l) == AllocCount(s, l)
  {
    if s != [] {
      var rest, last := s[..|s| - 1], s[|s| - 1];
      DeferralCounts(rest, l);
      AppendHold(DeferralHolds(rest), Hold(last.layer, DeferredPurchase(last.gap)), l);
    }
  }

  /** Each deferred purchase has its own hold, in order. */
  lemma {:induction false} DeferralAt(s: seq<Allocation>, i: nat)
    requires i < |s|
    ensures |DeferralHolds(s)| == |s|
    ensures DeferralHolds(s)[i] == Hold(s[i].layer, DeferredPurchase(s[i].gap))
  {
    var rest := s[..|s| - 1];
    DeferralLength(rest);
    if i < |rest| {
      DeferralAt(rest, i);
      assert rest[i] == s[i];
    }
  }

  lemma {:induction false} DeferralLength(s: seq<Allocation>)
    ensures |DeferralHolds(s)| == |s|
  {
    if s != [] {
      DeferralLength(s[..|s| - 1]);
    }
  }

  method TruncatePurchases(s: seq<Allocation>, purchaseCap: nat) returns (kept: seq<Allocation>, holds: seq<Hold>)
    requires purchaseCap <= |s|
    ensures |Ranked(s)| == |s|
    ensures kept == Ranked(s)[..purchaseCap]
    ensures holds == DeferralHolds(Ranked(s)[purchaseCap..])
  {
    RankedBag(s);
    var sorted := Ranked(s);
    var dropped := sorted[purchaseCap..];
    holds := [];
    for i := 0 to |dropped|
      invariant holds == DeferralHolds(dropped[..i])
    {
      holds := holds + [Hold(dropped[i].layer, DeferredPurchase(dropped[i].gap))];
      assert dropped[..i + 1][..i] == dropped[..i];
    }
    assert dropped[..|dropped|] == dropped;
    kept := sorted[..purchaseCap];
  }

  /** A larger purchase than another, or as large and not after it by layer name. */
  ghost predicate Prior(a: Allocation, b: Allocation) {
    && b.gap <= a.gap
    && (a.gap == b.gap && !a.layer.UnknownLayer? && !b.layer.UnknownLayer? ==>
          Precedes(LayerName(a.layer), LayerName(b.layer)))
  }

  /** Truncation is a permutation split: every kept purchase is prior to every deferred one. */
  lemma TruncationSplit(s: seq<Allocation>, k: nat)
    requires k <= |s|
    ensures |Ranked(s)| == |s|
    ensures multiset(Ranked(s)[..k]) + multiset(Ranked(s)[k..]) == multiset(s)
    ensures forall a, b :: a in Ranked(s)[..k] && b in Ranked(s)[k..] ==> Prior(a, b)
  {
    RankedBag(s);
    assert Ranked(s) == Ranked(s)[..k] + Ranked(s)[k..];
    forall a, b | a in Ranked(s)[..k] && b in Ranked(s)[k..] ensures Prior(a, b) {
      if !a.layer.UnknownLayer? && !b.layer.UnknownLayer? {
        RankIsNameOrder(a.layer, b.layer);
      }
    }
  }

  lemma TruncationSums(s: seq<Allocation>, k: nat, l: LayerType)
    requires k <= |s|
    ensures |Ranked(s)| == |s|
    ensures AllocCount(s, l) == AllocCount(Ranked(s)[..k], l) + HoldCount(DeferralHolds(Ranked(s)[k..]), l)
    ensures OdSum(s) == OdSum(Ranked(s)[..k]) + OdSum(Ranked(s)[k..])
    ensures GapSum(s) == GapSum(Ranked(s)[..k]) + GapSum(Ranked(s)[k..])
  {
    RankedBag(s);
    RankedSums(s, l);
    SplitAllocs(Ranked(s), k, l);
    DeferralCounts(Ranked(s)[k..], l);
  }

  lemma SplitAllocs(r: seq<Allocation>, k: nat, l: LayerType)
    requires k <= |r|
    ensures AllocCount(r, l) == AllocCount(r[..k], l) + AllocCount(r[k..], l)
    ensures OdSum(r) == OdSum(r[..k]) + OdSum(r[k..])
    ensures GapSum(r) == GapSum(r[..k]) + GapSum(r[k..])
  {
    assert r == r[..k] + r[k..];
    ConcatAllocs(r[..k], r[k..], l);
  }

  // ---- Reshapes ---------------------------------------------------------------------------

  /** Buffer layers with commitment: reshaped below the threshold, held when not measured. */
  function Reshapes(layers: seq<LayerSpec>, states: map<LayerType, LayerState>, threshold: real)
    : (seq<LayerType>, seq<Hold>)
  {
    if layers == [] then ([], [])
    else
      var (reshapes, holds) := Reshapes(layers[..|layers| - 1], states, threshold);
      var ls := layers[|layers| - 1];
      if BufferRole !in ls.roles || ls.layer !in states || states[ls.layer].existing == Some(0.0) then (reshapes, holds)
      else if states[ls.layer].utilization.None? then (reshapes, holds + [Hold(ls.layer, UtilizationUnknown)])
      else if states[ls.layer].utilization.value < threshold then (reshapes + [ls.layer], holds)
      else (reshapes, holds)
  }

  method DetectReshapes(layers: seq<LayerSpec>, states: map<LayerType, LayerState>, threshold: real)
    returns (reshapes: seq<LayerType>, holds: seq<Hold>)
    requires ValidStates(layers, states)
    ensures (reshapes, holds) == Reshapes(layers, states, threshold)
  {
    reshapes, holds := [], [];
    for i := 0 to |layers|
      invariant (reshapes, holds) == Reshapes(layers[..i], states, threshold)
    {
      assert layers[..i + 1][..i] == layers[..i];
      var ls := layers[i];
      if BufferRole !in ls.roles {
        continue;
      }
      var st := states[ls.layer];
      if st.existing.value == 0.0 {
        continue;
      }
      if st.utilization.None? {
        holds := holds + [Hold(ls.layer, UtilizationUnknown)];
        continue;
      }
      if st.utilization.value < threshold {
        reshapes := reshapes + [ls.layer];
      }
    }
    assert layers[..|layers|] == layers;
  }

  lemma {:induction false} AtMostOneReshape(layers: seq<LayerSpec>, states: map<LayerType, LayerState>, threshold: real)
    ensures |Reshapes(layers, states, threshold).0| + |Reshapes(layers, states, threshold).1|
         <= RoleCount(layers, BufferRole)
  {
    if layers != [] {
      AtMostOneReshape(layers[..|layers| - 1], states, threshold);
    }
  }

  function UtilizationOrFull(states: map<LayerType, LayerState>, l: LayerType): real {
    if l in states && states[l].utilization.Some? then states[l].utilization.value else 100.0
  }

  predicate MoreUrgent(states: map<LayerType, LayerState>, a: LayerType, b: LayerType) {
    var ua, ub := UtilizationOrFull(states, a), UtilizationOrFull(states, b);
    ua < ub || (ua == ub && NameRank(a) <= NameRank(b))
  }

  function InsertUrgent(states: map<LayerType, LayerState>, l: LayerType, s: seq<LayerType>): (r: seq<LayerType>)
    ensures |r| == |s| + 1
  {
    if s == [] || MoreUrgent(states, s[|s| - 1], l) then s + [l]
    else InsertUrgent(states, l, s[..|s| - 1]) + [s[|s| - 1]]
  }

  /** Stable sort of the reshapes, least utilized layer first. */
  function ByUrgency(states: map<LayerType, LayerState>, s: seq<LayerType>): (r: seq<LayerType>)
    ensures |r| == |s|
  {
    if s == [] then [] else InsertUrgent(states, s[|s| - 1], ByUrgency(states, s[..|s| - 1]))
  }

  /** The utilization a layer is ranked by: one that is not measured counts as fully used. */
  ghost predicate RankedAt(states: map<LayerType, LayerState>, l: LayerType, u: real) {
    if l in states && states[l].utilization != None then states[l].utilization == Some(u) else u == 100.0
  }

  predicate UrgencyAscending(states: map<LayerType, LayerState>, s: seq<LayerType>) {
    forall i, j :: 0 <= i < j < |s| ==> MoreUrgent(states, s[i], s[j])
  }

  lemma {:induction false} InsertUrgentBag(states: map<LayerType, LayerState>, l: LayerType, s: seq<LayerType>)
    ensures multiset(InsertUrgent(states, l, s)) == multiset(s) + multiset{l}
  {
    if s != [] && !MoreUrgent(states, s[|s| - 1], l) {
      InsertUrgentBag(states, l, s[..|s| - 1]);
      assert s == s[..|s| - 1] + [s[|s| - 1]];
    }
  }

  lemma AppendUrgent(states: map<LayerType, LayerState>, s: seq<LayerType>, last: LayerType)
    requires UrgencyAscending(states, s) && forall x :: x in s ==> MoreUrgent(states, x, last)
    ensures UrgencyAscending(states, s + [last])
  {
  }

  lemma {:induction false} InsertUrgentSorted(states: map<LayerType, LayerState>, l: LayerType, s: seq<LayerType>)
    requires UrgencyAscending(states, s)
    ensures UrgencyAscending(states, InsertUrgent(states, l, s))
    ensures forall x :: x in InsertUrgent(states, l, s) ==> x == l || x in s
  {
    if s == [] || MoreUrgent(states, s[|s| - 1], l) {
      AppendUrgent(states, s, l);
    } else {
      var rest, last := s[..|s| - 1], s[|s| - 1];
      InsertUrgentSorted(states, l, rest);
      AppendUrgent(states, InsertUrgent(states, l, rest), last);
    }
  }

  lemma {:induction false} UrgencyBag(states: map<LayerType, LayerState>, s: seq<LayerType>)
    ensures multiset(ByUrgency(states, s)) == multiset(s)
    ensures UrgencyAscending(states, ByUrgency(states, s))
  {
    if s != [] {
      UrgencyBag(states, s[..|s| - 1]);
      InsertUrgentBag(states, s[|s| - 1], ByUrgency(states, s[..|s| - 1]));
      InsertUrgentSorted(states, s[|s| - 1], ByUrgency(states, s[..|s| - 1]));
      assert s == s[..|s| - 1] + [s[|s| - 1]];
    }
  }

  /** Of the reshapes, the least utilized layers are kept, equal ones by layer name. */
  lemma UrgentReshapesKept(states: map<LayerType, LayerState>, s: seq<LayerType>, k: nat)
    requires k <= |s|
    ensures multiset(ByUrgency(states, s)[..k]) + multiset(ByUrgency(states, s)[k..]) == multiset(s)
    ensures forall a, b, u, v ::
      && a in ByUrgency(states, s)[..k] && b in ByUrgency(states, s)[k..]
      && RankedAt(states, a, u) && RankedAt(states, b, v)
      ==> u <= v && (u == v && !a.UnknownLayer? && !b.UnknownLayer? ==> Precedes(LayerName(a), LayerName(b)))
  {
    var r := ByUrgency(states, s);
    UrgencyBag(states, s);
    assert r == r[..k] + r[k..];
    forall a, b | a in r[..k] && b in r[k..] && !a.UnknownLayer? && !b.UnknownLayer?
      ensures MoreUrgent(states, a, b) && (NameRank(a) <= NameRank(b) <==> Precedes(LayerName(a), LayerName(b)))
    {
      RankIsNameOrder(a, b);
    }
  }

  function ReshapeHolds(s: seq<LayerType>): seq<Hold> {
    if s == [] then [] else ReshapeHolds(s[..|s| - 1]) + [Hold(s[|s| - 1], DeferredReshape)]
  }

  datatype Actions = Actions(allocs: seq<Allocation>, reshapes: seq<LayerType>, holds: seq<Hold>)

  /** Reshapes are kept first, then the largest purchases; everything over the limit becomes a hold. */
  function Truncate(s: seq<Allocation>, reshapes: seq<LayerType>, maxActions: nat, states: map<LayerType, LayerState>)
    : Actions
  {
    RankedBag(s);
    if |s| + |reshapes| <= maxActions then Actions(s, reshapes, [])
    else if maxActions <= |reshapes| then
      var urgent := ByUrgency(states, reshapes);
      Actions([], urgent[..maxActions], DeferralHolds(Ranked(s)) + ReshapeHolds(urgent[maxActions..]))
    else
      var k := maxActions - |reshapes|;
      Actions(Ranked(s)[..k], reshapes, DeferralHolds(Ranked(s)[k..]))
  }

  lemma {:induction false} ReshapeHoldsFacts(s: seq<LayerType>, l: LayerType)
    ensures HoldCount(ReshapeHolds(s), l) == 0
    ensures forall h :: h in ReshapeHolds(s) ==> h.reason.DeferredReshape?
  {
    if s != [] {
      ReshapeHoldsFacts(s[..|s| - 1], l);
      AppendHold(ReshapeHolds(s[..|s| - 1]), Hold(s[|s| - 1], DeferredReshape), l);
    }
  }

  /** Every purchase is kept or deferred, and the total number of actions fits the limit. */
  lemma TruncateCounts(s: seq<Allocation>, reshapes: seq<LayerType>, maxActions: nat,
                       states: map<LayerType, LayerState>, l: LayerType)
    requires forall a :: a in s ==> 0.0 <= a.gap && 0.0 <= a.od
    ensures var r := Truncate(s, reshapes, maxActions, states);
      && AllocCount(s, l) == AllocCount(r.allocs, l) + HoldCount(r.holds, l)
      && OdSum(r.allocs) <= OdSum(s) && GapSum(r.allocs) <= GapSum(s)
      && |r.allocs| + |r.reshapes| <= maxActions
  {
    if maxActions < |s| + |reshapes| {
      var k := if maxActions <= |reshapes| then 0 else maxActions - |reshapes|;
      TruncationSums(s, k, l);
      TruncationSplit(s, k);
      forall a | a in Ranked(s)[k..] ensures 0.0 <= a.gap && 0.0 <= a.od {
        assert a in multiset(s);
      }
      SumsNonNegative(Ranked(s)[k..]);
      if k == 0 {
        assert Ranked(s)[0..] == Ranked(s);
        var urgent := ByUrgency(states, reshapes);
        ReshapeHoldsFacts(urgent[maxActions..], l);
        ConcatHolds(DeferralHolds(Ranked(s)), ReshapeHolds(urgent[maxActions..]), l);
      }
    }
  }

  /** The hold defers one purchase of the list, and every kept purchase is prior to it. */
  ghost predicate IsDeferral(h: Hold, s: seq<Allocation>, kept: seq<Allocation>) {
    && h.reason.DeferredPurchase?
    && exists a :: a in s && a.layer == h.layer && a.gap == h.reason.commitment
                   && forall b :: b in kept ==> Prior(b, a)
  }

  lemma DeferralOrigin(s: seq<Allocation>, k: nat, h: Hold)
    requires k <= |s| && |Ranked(s)| == |s|
    requires h in DeferralHolds(Ranked(s)[k..])
    ensures IsDeferral(h, s, Ranked(s)[..k])
  {
    TruncationSplit(s, k);
    var dropped := Ranked(s)[k..];
    DeferralLength(dropped);
    var i :| 0 <= i < |dropped| && DeferralHolds(dropped)[i] == h;
    DeferralAt(dropped, i);
    assert dropped[i] in dropped && dropped[i] in multiset(s);
  }

  /** Kept purchases come from the list; a deferred one is never larger than a kept one. */
  lemma TruncateKeepsLargest(s: seq<Allocation>, reshapes: seq<LayerType>, maxActions: nat,
                             states: map<LayerType, LayerState>)
    ensures var r := Truncate(s, reshapes, maxActions, states);
      && (forall a :: a in r.allocs ==> a in s)
      && (forall h :: h in r.holds ==> h.reason.DeferredReshape? || IsDeferral(h, s, r.allocs))
  {
    var r := Truncate(s, reshapes, maxActions, states);
    RankedBag(s);
    forall a | a in r.allocs ensures a in s {
      assert a in s || a in multiset(Ranked(s));
    }
    forall h | h in r.holds ensures h.reason.DeferredReshape? || IsDeferral(h, s, r.allocs) {
      if maxActions <= |reshapes| {
        ReshapeHoldsFacts(ByUrgency(states, reshapes)[maxActions..], h.layer);
        if h in DeferralHolds(Ranked(s)) {
          assert Ranked(s)[0..] == Ranked(s) && Ranked(s)[..0] == [];
          DeferralOrigin(s, 0, h);
        }
      } else {
        DeferralOrigin(s, maxActions - |reshapes|, h);
      }
    }
  }

  method TruncateToMaxActions(s: seq<Allocation>, reshapes: seq<LayerType>, maxActions: nat,
                              states: map<LayerType, LayerState>)
    returns (r: Actions)
    ensures r == Truncate(s, reshapes, maxActions, states)
  {
    if |s| + |reshapes| <= maxActions {
      return Actions(s, reshapes, []);
    }
    if |reshapes| >= maxActions {
      var urgent := ByUrgency(states, reshapes);
      var dropped, reshapeHolds := urgent[maxActions..], [];
      for i := 0 to |dropped|
        invariant reshapeHolds == ReshapeHolds(dropped[..i])
      {
        reshapeHolds := reshapeHolds + [Hold(dropped[i], DeferredReshape)];
        assert dropped[..i + 1][..i] == dropped[..i];
      }
      assert dropped[..|dropped|] == dropped;
      var none, allocHolds := TruncatePurchases(s, 0);
      assert Ranked(s)[0..] == Ranked(s);
      return Actions([], urgent[..maxActions], allocHolds + reshapeHolds);
    }
    var kept, holds := TruncatePurchases(s, maxActions - |reshapes|);
    return Actions(kept, reshapes, holds);
  }
}
