/** Azure Advisor rows against Consumption rows: which needs are covered, and which row is kept. */
module Advisor {
  /** A purchasable need. family is the VM series of a compute row, empty when unknown. */
  datatype Need = Need(account: string, region: string, term: string, family: string, service: string)

  function Coarse(n: Need): Need {
    n.(family := "")
  }

  /** The same purchase but for the family. */
  predicate SamePurchase(a: Need, b: Need) {
    a.account == b.account && a.region == b.region && a.term == b.term && a.service == b.service
  }

  /** The rule the coverage index stands for: the same purchase, with equal families or one of them
      unknown. */
  predicate SameNeed(a: Need, b: Need) {
    SamePurchase(a, b) && (a.family == b.family || a.family == "" || b.family == "")
  }

  predicate CoveredBy(covering: seq<Need>, n: Need) {
    exists i :: 0 <= i < |covering| && SameNeed(covering[i], n)
  }

  /** Coarse needs added without a family, coarse needs added with one, and needs added with one. */
  datatype Index = Index(wild: set<Need>, someFamily: set<Need>, families: set<Need>)

  function IndexOf(added: seq<Need>): Index {
    if added == [] then Index({}, {}, {})
    else
      var rest, n := IndexOf(added[..|added| - 1]), added[|added| - 1];
      if n.family == "" then rest.(wild := rest.wild + {Coarse(n)})
      else rest.(someFamily := rest.someFamily + {Coarse(n)}, families := rest.families + {n})
  }

  class Coverage {
    var wild: set<Need>
    var someFamily: set<Need>
    var families: set<Need>
    /** The needs added so far, in order. */
    ghost var added: seq<Need>

    ghost predicate Valid()
      reads this
    {
      Index(wild, someFamily, families) == IndexOf(added)
    }

    constructor ()
      ensures Valid() && added == []
    {
      wild, someFamily, families, added := {}, {}, {}, [];
    }

    method Add(n: Need)
      requires Valid()
      modifies this
      ensures Valid() && added == old(added) + [n]
    {
      if n.family == "" {
        wild := wild + {Coarse(n)};
      } else {
        someFamily := someFamily + {Coarse(n)};
        families := families + {n};
      }
      added := added + [n];
      assert added[..|added| - 1] == old(added);
    }

    /** Three set lookups decide exactly the pairwise rule. */
    predicate Covers(n: Need)
      requires Valid()
      reads this
      ensures Covers(n) <==> CoveredBy(added, n)
    {
      IndexDecides(added, n);
      Coarse(n) in wild || n in families || (n.family == "" && Coarse(n) in someFamily)
    }
  }

  lemma {:induction false} IndexDecides(added: seq<Need>, n: Need)
    ensures var x := IndexOf(added);
      Coarse(n) in x.wild || n in x.families || (n.family == "" && Coarse(n) in x.someFamily) <==> CoveredBy(added, n)
  {
    if added != [] {
      var rest, m := added[..|added| - 1], added[|added| - 1];
      IndexDecides(rest, n);
      CoveredByMore(rest, m, n);
      assert added == rest + [m];
      assert m.family != "" && n.family != "" && SameNeed(m, n) ==> m == Coarse(m).(family := m.family) == n;
    }
  }

  lemma CoveredByMore(covering: seq<Need>, m: Need, n: Need)
    ensures CoveredBy(covering + [m], n) <==> CoveredBy(covering, n) || SameNeed(m, n)
  {
    var all := covering + [m];
    if CoveredBy(covering, n) {
      var i :| 0 <= i < |covering| && SameNeed(covering[i], n);
      assert all[i] == covering[i];
    }
    if SameNeed(m, n) {
      assert all[|covering|] == m;
    }
  }

  // ---- Dropping covered rows --------------------------------------------------------------

  datatype Row = Row(need: Need, reservation: bool)

  /** Reservation needs of a list of rows. */
  function ReservationNeeds(rows: seq<Row>): seq<Need> {
    if rows == [] then []
    else
      var last := rows[|rows| - 1];
      ReservationNeeds(rows[..|rows| - 1]) + (if last.reservation then [last.need] else [])
  }

  /** Rows that no covering need shares, in order. */
  function Uncovered(rows: seq<Row>, covering: seq<Need>): seq<Row> {
    if rows == [] then []
    else
      var last := rows[|rows| - 1];
      Uncovered(rows[..|rows| - 1], covering)
      + (if last.reservation && CoveredBy(covering, last.need) then [] else [last])
  }

  method DropCoveredReservations(advisor: seq<Row>, consumption: seq<Row>) returns (out: seq<Row>)
    ensures out == Uncovered(advisor, ReservationNeeds(consumption))
  {
    var cov := new Coverage();
    for i := 0 to |consumption|
      invariant cov.Valid() && fresh(cov)
      invariant cov.added == ReservationNeeds(consumption[..i])
    {
      assert consumption[..i + 1][..i] == consumption[..i];
      if consumption[i].reservation {
        cov.Add(consumption[i].need);
      }
    }
    assert consumption[..|consumption|] == consumption;
    out := [];
    for i := 0 to |advisor|
      invariant cov.Valid() && cov.added == ReservationNeeds(consumption)
      invariant out == Uncovered(advisor[..i], ReservationNeeds(consumption))
    {
      assert advisor[..i + 1][..i] == advisor[..i];
      if !(advisor[i].reservation && cov.Covers(advisor[i].need)) {
        out := out + [advisor[i]];
      }
    }
    assert advisor[..|advisor|] == advisor;
  }

  /** Some reservation of the list has the same need. */
  ghost predicate Reserved(rows: seq<Row>, n: Need) {
    exists j :: 0 <= j < |rows| && rows[j].reservation && SameNeed(rows[j].need, n)
  }

  /** The row is a reservation that shares its need with a consumption reservation. */
  ghost predicate SharesNeed(row: Row, consumption: seq<Row>) {
    row.reservation && Reserved(consumption, row.need)
  }

  /** The rows kept are exactly those that share no need with a consumption reservation, each once
      and in order: at lists where they stood. */
  lemma SurvivorsAreUncovered(advisor: seq<Row>, consumption: seq<Row>) returns (at: seq<nat>)
    ensures Ascending(at) && Below(at, |advisor|)
    ensures forall i: nat :: i < |advisor| ==> (i in at <==> !SharesNeed(advisor[i], consumption))
    ensures var out := Uncovered(advisor, ReservationNeeds(consumption));
      |out| == |at| && forall k :: 0 <= k < |at| ==> out[k] == advisor[at[k]]
  {
    at := UncoveredAt(advisor, ReservationNeeds(consumption));
    forall i: nat | i < |advisor| ensures i in at <==> !SharesNeed(advisor[i], consumption) {
      NeedsListed(consumption, advisor[i].need);
    }
  }

  lemma {:induction false} UncoveredAt(rows: seq<Row>, covering: seq<Need>) returns (at: seq<nat>)
    ensures Ascending(at) && Below(at, |rows|)
    ensures forall i: nat :: i < |rows| ==> (i in at <==> !(rows[i].reservation && CoveredBy(covering, rows[i].need)))
    ensures var out := Uncovered(rows, covering);
      |out| == |at| && forall k :: 0 <= k < |at| ==> out[k] == rows[at[k]]
  {
    at := [];
    if rows != [] {
      var last := |rows| - 1;
      at := UncoveredAt(rows[..last], covering);
      if !(rows[last].reservation && CoveredBy(covering, rows[last].need)) {
        at := at + [last];
      }
    }
  }

  lemma {:induction false} NeedsListed(rows: seq<Row>, n: Need)
    ensures CoveredBy(ReservationNeeds(rows), n) <==> Reserved(rows, n)
  {
    if rows != [] {
      var rest, last := rows[..|rows| - 1], rows[|rows| - 1];
      NeedsListed(rest, n);
      assert rows == rest + [last];
      ReservedByMore(rest, last, n);
      CoveredByMore(ReservationNeeds(rest), last.need, n);
      assert ReservationNeeds(rest) + [] == ReservationNeeds(rest);
    }
  }

  lemma ReservedByMore(rows: seq<Row>, row: Row, n: Need)
    ensures Reserved(rows + [row], n) <==> Reserved(rows, n) || (row.reservation && SameNeed(row.need, n))
  {
    var all := rows + [row];
    if Reserved(rows, n) {
      var j :| 0 <= j < |rows| && rows[j].reservation && SameNeed(rows[j].need, n);
      assert all[j] == rows[j];
    }
    if row.reservation && SameNeed(row.need, n) {
      assert all[|rows|] == row;
    }
  }

  // ---- Keeping the cheapest row -----------------------------------------------------------

  /** A row with a reservation price; rows without one have no legs. */
  predicate Priced(rows: seq<Row>, legs: seq<seq<real>>, i: int)
    requires |legs| == |rows|
  {
    0 <= i < |rows| && rows[i].reservation && legs[i] != []
  }

  /** Some priced row of the purchase has an unknown family, so all families of it are one group. */
  ghost predicate OneGroup(rows: seq<Row>, legs: seq<seq<real>>, need: Need)
    requires |legs| == |rows|
  {
    exists i :: Priced(rows, legs, i) && SamePurchase(rows[i].need, need) && rows[i].need.family == ""
  }

  /** Two priced rows compete for the same purchase. */
  ghost predicate Competing(rows: seq<Row>, legs: seq<seq<real>>, i: int, j: int)
    requires |legs| == |rows|
  {
    && Priced(rows, legs, i) && Priced(rows, legs, j)
    && SamePurchase(rows[i].need, rows[j].need)
    && (rows[i].need.family == rows[j].need.family || OneGroup(rows, legs, rows[i].need))
  }

  /** Cheaper, or as cheap and earlier. */
  predicate Beats(legs: seq<seq<real>>, i: int, j: int)
    requires 0 <= i < |legs| && 0 <= j < |legs| && legs[i] != [] && legs[j] != []
  {
    legs[i][0] < legs[j][0] || (legs[i][0] == legs[j][0] && i < j)
  }

  ghost predicate Kept(rows: seq<Row>, legs: seq<seq<real>>, i: int)
    requires |legs| == |rows|
  {
    !exists j :: Competing(rows, legs, i, j) && Beats(legs, j, i)
  }

  /** What is left of a row's legs when it competes with the members of a group. */
  ghost function LegAfter(legs: seq<seq<real>>, g: seq<nat>, i: nat): seq<real>
    requires i < |legs| && legs[i] != []
    requires forall j :: j in g ==> j < |legs| && legs[j] != []
  {
    if exists j :: j in g && Beats(legs, j, i) then [] else legs[i]
  }

  /** The cheapest of a group of ascending row numbers, the first on a tie. */
  method Cheapest(legs: array<seq<real>>, g: seq<nat>) returns (best: nat)
    requires g != [] && forall k :: 0 <= k < |g| ==> g[k] < legs.Length && legs[g[k]] != []
    requires Ascending(g)
    ensures best in g && forall k :: 0 <= k < |g| ==> g[k] == best || Beats(legs[..], best, g[k])
  {
    best := g[0];
    for k := 1 to |g|
      invariant exists l :: 0 <= l < k && g[l] == best
      invariant forall l :: 0 <= l < k ==> g[l] == best || Beats(legs[..], best, g[l])
    {
      if legs[g[k]][0] < legs[best][0] {
        best := g[k];
      }
    }
  }

  /** Clears every row of a group but one. */
  method ClearOthers(legs: array<seq<real>>, g: seq<nat>, best: nat)
    requires best in g && Ascending(g) && forall k :: 0 <= k < |g| ==> g[k] < legs.Length
    modifies legs
    ensures forall i :: 0 <= i < legs.Length ==> legs[i] == if i in g && i != best then [] else old(legs[i])
  {
    for k := 0 to |g|
      invariant forall i :: 0 <= i < legs.Length ==> legs[i] == if i in g[..k] && i != best then [] else old(legs[i])
    {
      if g[k] != best {
        legs[g[k]] := [];
      }
      assert g[..k + 1] == g[..k] + [g[k]];
    }
    assert g[..|g|] == g;
  }

  /** Clears all but the cheapest of one group. */
  method ClearGroup(legs: array<seq<real>>, g: seq<nat>)
    requires g != [] && forall k :: 0 <= k < |g| ==> g[k] < legs.Length && legs[g[k]] != []
    requires Ascending(g)
    modifies legs
    ensures forall i :: 0 <= i < legs.Length && i !in g ==> legs[i] == old(legs[i])
    ensures forall i :: i in g ==> i < legs.Length && legs[i] == LegAfter(old(legs[..]), g, i)
  {
    ghost var was := legs[..];
    var best := Cheapest(legs, g);
    ClearOthers(legs, g, best);
    forall i | i in g ensures i < legs.Length && legs[i] == LegAfter(was, g, i) {
      OnlyBestSurvives(was, g, best, i);
    }
  }

  lemma OnlyBestSurvives(was: seq<seq<real>>, g: seq<nat>, best: nat, i: nat)
    requires forall k :: 0 <= k < |g| ==> g[k] < |was| && was[g[k]] != []
    requires best in g && forall k :: 0 <= k < |g| ==> g[k] == best || Beats(was, best, g[k])
    requires i in g
    ensures i < |was| && LegAfter(was, g, i) == if i == best then was[i] else []
  {
    if i == best {
      forall j | j in g ensures !Beats(was, j, i) {
        var k :| 0 <= k < |g| && g[k] == j;
      }
    } else {
      assert best in g && Beats(was, best, i);
    }
  }

  predicate Ascending(s: seq<nat>) {
    forall k, l :: 0 <= k < l < |s| ==> s[k] < s[l]
  }

  predicate Below(s: seq<nat>, n: nat) {
    forall k :: 0 <= k < |s| ==> s[k] < n
  }

  /** The row numbers of one family. */
  function OfFamily(rows: seq<Row>, idx: seq<nat>, f: string): seq<nat>
    requires Below(idx, |rows|)
  {
    if idx == [] then []
    else
      var last := idx[|idx| - 1];
      OfFamily(rows, idx[..|idx| - 1], f) + (if rows[last].need.family == f then [last] else [])
  }

  lemma {:induction false} OfFamilyMembers(rows: seq<Row>, idx: seq<nat>, f: string)
    requires Below(idx, |rows|)
    ensures forall i :: i in OfFamily(rows, idx, f) <==> i in idx && rows[i].need.family == f
  {
    if idx != [] {
      var rest, last := idx[..|idx| - 1], idx[|idx| - 1];
      OfFamilyMembers(rows, rest, f);
      assert idx == rest + [last];
    }
  }

  /** Every row number of an ascending list is below the last. */
  lemma BelowLast(idx: seq<nat>, i: nat)
    requires idx != [] && Ascending(idx) && i in idx[..|idx| - 1]
    ensures i < idx[|idx| - 1]
  {
    var l :| 0 <= l < |idx| - 1 && idx[l] == i;
    assert idx[l] < idx[|idx| - 1];
  }

  lemma {:induction false} OfFamilyAscends(rows: seq<Row>, idx: seq<nat>, f: string)
    requires Below(idx, |rows|) && Ascending(idx)
    ensures Ascending(OfFamily(rows, idx, f))
  {
    if idx != [] {
      var rest, last := idx[..|idx| - 1], idx[|idx| - 1];
      OfFamilyAscends(rows, rest, f);
      OfFamilyMembers(rows, rest, f);
      var out := OfFamily(rows, rest, f);
      forall k | 0 <= k < |out| ensures out[k] < last {
        assert out[k] in out;
        BelowLast(idx, out[k]);
      }
    }
  }

  lemma OfFamilyFacts(rows: seq<Row>, idx: seq<nat>, f: string)
    requires Below(idx, |rows|)
    ensures forall i :: i in OfFamily(rows, idx, f) <==> i in idx && rows[i].need.family == f
    ensures Ascending(idx) ==> Ascending(OfFamily(rows, idx, f))
    ensures Below(OfFamily(rows, idx, f), |rows|)
  {
    OfFamilyMembers(rows, idx, f);
    if Ascending(idx) {
      OfFamilyAscends(rows, idx, f);
    }
    var out := OfFamily(rows, idx, f);
    forall k | 0 <= k < |out| ensures out[k] < |rows| {
      assert out[k] in out;
    }
  }

  /** Members of one list of row numbers that compete: the same family, or any when one is unknown. */
  ghost predicate Rivals(rows: seq<Row>, idx: seq<nat>, i: nat, j: nat)
    requires Below(idx, |rows|)
  {
    && i in idx && j in idx
    && (rows[i].need.family == rows[j].need.family || exists k :: k in idx && rows[k].need.family == "")
  }

  /** Row i survives the pass over its list. */
  ghost predicate Survives(rows: seq<Row>, legs: seq<seq<real>>, idx: seq<nat>, i: nat)
    requires Below(idx, |rows|) && |legs| == |rows| && forall k :: k in idx ==> legs[k] != []
  {
    !exists j: nat :: Rivals(rows, idx, i, j) && Beats(legs, j, i)
  }

  /** The map lists exactly the row numbers of each family. */
  ghost predicate Grouped(byFamily: map<string, seq<nat>>, rows: seq<Row>, idx: seq<nat>) {
    && Below(idx, |rows|)
    && (forall f :: f in byFamily ==> byFamily[f] == OfFamily(rows, idx, f) && byFamily[f] != [])
    && (forall f :: f !in byFamily ==> OfFamily(rows, idx, f) == [])
  }

  lemma GroupOneMore(byFamily: map<string, seq<nat>>, rows: seq<Row>, idx: seq<nat>, i: nat)
    requires Grouped(byFamily, rows, idx) && i < |rows|
    ensures var f := rows[i].need.family;
      Grouped(byFamily[f := (if f in byFamily then byFamily[f] else []) + [i]], rows, idx + [i])
  {
    assert (idx + [i])[..|idx|] == idx;
    forall f
      ensures OfFamily(rows, idx + [i], f) == OfFamily(rows, idx, f) + (if rows[i].need.family == f then [i] else [])
    {
    }
  }

  /** The groups of one coarse need: one per family, or a single one when a family is unknown. */
  ghost predicate IsGrouping(byFamily: map<string, seq<nat>>, rows: seq<Row>, idx: seq<nat>, whole: bool) {
    && Below(idx, |rows|) && Ascending(idx) && idx != []
    && (whole <==> exists k :: k in idx && rows[k].need.family == "")
    && if whole then byFamily == map["" := idx] else Grouped(byFamily, rows, idx)
  }

  method Groups(rows: seq<Row>, idx: seq<nat>) returns (byFamily: map<string, seq<nat>>, ghost whole: bool)
    requires Below(idx, |rows|) && Ascending(idx) && idx != []
    ensures IsGrouping(byFamily, rows, idx, whole)
  {
    byFamily, whole := map[], false;
    for k := 0 to |idx|
      invariant Grouped(byFamily, rows, idx[..k])
      invariant forall l :: 0 <= l < k ==> rows[idx[l]].need.family != ""
    {
      var f := rows[idx[k]].need.family;
      if f == "" {
        assert idx[k] in idx;
        return map["" := idx], true;
      }
      GroupOneMore(byFamily, rows, idx[..k], idx[k]);
      assert idx[..k + 1] == idx[..k] + [idx[k]];
      byFamily := byFamily[f := (if f in byFamily then byFamily[f] else []) + [idx[k]]];
    }
    assert idx[..|idx|] == idx;
  }

  /** Clears one group, whose rows are still as they were when the pass began. */
  method ClearOneGroup(legs: array<seq<real>>, rows: seq<Row>, idx: seq<nat>, g: seq<nat>, ghost was: seq<seq<real>>)
    requires Below(idx, |rows|) && |was| == |rows| == legs.Length && forall k :: k in idx ==> was[k] != []
    requires g != [] && Ascending(g) && Below(g, |rows|)
    requires forall j :: j in g ==> j in idx && legs[j] == was[j]
    requires forall i, j :: i in g ==> (Rivals(rows, idx, i, j) <==> j in g)
    modifies legs
    ensures forall i :: 0 <= i < legs.Length && i !in g ==> legs[i] == old(legs[i])
    ensures forall i :: i in g ==> i < |rows| && legs[i] == if Survives(rows, was, idx, i) then was[i] else []
  {
    ghost var now := legs[..];
    ClearGroup(legs, g);
    forall i | i in g ensures i < |rows| && legs[i] == if Survives(rows, was, idx, i) then was[i] else [] {
      SurvivesInGroup(rows, was, now, idx, g, i);
    }
  }

  /** Clears all but the cheapest row of each group of one coarse need, in any order of groups. */
  method KeepCheapest(legs: array<seq<real>>, rows: seq<Row>, idx: seq<nat>)
    requires Below(idx, |rows|) && Ascending(idx) && legs.Length == |rows| && idx != []
    requires forall i :: i in idx ==> legs[i] != []
    modifies legs
    ensures forall i :: 0 <= i < legs.Length && i !in idx ==> legs[i] == old(legs[i])
    ensures forall i :: i in idx ==> legs[i] == if Survives(rows, old(legs[..]), idx, i) then old(legs[i]) else []
  {
    ghost var was := legs[..];
    ghost var whole;
    var byFamily;
    byFamily, whole := Groups(rows, idx);
    KeysAreGroups(rows, idx, byFamily, whole);
    var keys := byFamily.Keys;
    while keys != {}
      invariant keys <= byFamily.Keys
      invariant ClearedExcept(rows, was, legs[..], idx, whole, keys)
      decreases |keys|
    {
      var f :| f in keys;
      ClearNext(legs, rows, idx, byFamily, f, was, whole, keys);
      keys := keys - {f};
    }
  }

  /** Clears the group of one key that is still to do. */
  method ClearNext(legs: array<seq<real>>, rows: seq<Row>, idx: seq<nat>, byFamily: map<string, seq<nat>>, f: string,
                   ghost was: seq<seq<real>>, ghost whole: bool, ghost keys: set<string>)
    requires legs.Length == |rows| && IsGrouping(byFamily, rows, idx, whole) && f in keys && f in byFamily
    requires ClearedExcept(rows, was, legs[..], idx, whole, keys)
    modifies legs
    ensures ClearedExcept(rows, was, legs[..], idx, whole, keys - {f})
  {
    GroupFacts(rows, idx, byFamily, whole, f);
    ghost var now := legs[..];
    ClearOneGroup(legs, rows, idx, byFamily[f], was);
    OneGroupCleared(rows, was, now, legs[..], idx, whole, keys, f, byFamily[f]);
  }

  /** Rows outside the list and rows of the groups still to do are as they were; the others are done. */
  ghost predicate ClearedExcept(rows: seq<Row>, was: seq<seq<real>>, now: seq<seq<real>>, idx: seq<nat>, whole: bool,
                                keys: set<string>)
  {
    && Below(idx, |rows|) && |was| == |rows| == |now| && (forall k :: k in idx ==> was[k] != [])
    && (forall i :: 0 <= i < |rows| && i !in idx ==> now[i] == was[i])
    && (forall i :: i in idx ==>
          now[i] == if GroupKey(rows, whole, i) in keys || Survives(rows, was, idx, i) then was[i] else [])
  }

  lemma OneGroupCleared(rows: seq<Row>, was: seq<seq<real>>, before: seq<seq<real>>, now: seq<seq<real>>, idx: seq<nat>,
                        whole: bool, keys: set<string>, f: string, g: seq<nat>)
    requires ClearedExcept(rows, was, before, idx, whole, keys) && |now| == |rows|
    requires forall i :: i in g <==> i in idx && GroupKey(rows, whole, i) == f
    requires forall i :: 0 <= i < |rows| && i !in g ==> now[i] == before[i]
    requires forall i :: i in g ==> now[i] == if Survives(rows, was, idx, i) then was[i] else []
    ensures ClearedExcept(rows, was, now, idx, whole, keys - {f})
  {
    forall i | i in idx
      ensures now[i] == if GroupKey(rows, whole, i) in keys - {f} || Survives(rows, was, idx, i) then was[i] else []
    {
      if i !in g {
        assert now[i] == before[i];
      }
    }
  }

  /** Within its group, a row survives the pass exactly when nothing in the group beats it. */
  lemma SurvivesInGroup(rows: seq<Row>, was: seq<seq<real>>, now: seq<seq<real>>, idx: seq<nat>, g: seq<nat>, i: nat)
    requires Below(idx, |rows|) && |was| == |rows| == |now| && forall k :: k in idx ==> was[k] != []
    requires i in g && forall j :: j in g ==> j in idx && now[j] == was[j]
    requires forall j :: Rivals(rows, idx, i, j) <==> j in g
    ensures i < |rows| && LegAfter(now, g, i) == if Survives(rows, was, idx, i) then was[i] else []
  {
    if j :| j in g && Beats(now, j, i) {
      assert Rivals(rows, idx, i, j) && Beats(was, j, i);
    }
    if j: nat :| Rivals(rows, idx, i, j) && Beats(was, j, i) {
      assert j in g && Beats(now, j, i);
    }
  }

  function GroupKey(rows: seq<Row>, whole: bool, i: nat): string
    requires i < |rows|
  {
    if whole then "" else rows[i].need.family
  }

  lemma GroupFacts(rows: seq<Row>, idx: seq<nat>, byFamily: map<string, seq<nat>>, whole: bool, f: string)
    requires IsGrouping(byFamily, rows, idx, whole) && f in byFamily
    ensures byFamily[f] != [] && Ascending(byFamily[f]) && Below(byFamily[f], |rows|)
    ensures forall i :: i in byFamily[f] <==> i in idx && GroupKey(rows, whole, i) == f
    ensures forall i, j :: i in byFamily[f] ==> (Rivals(rows, idx, i, j) <==> j in byFamily[f])
  {
    if !whole {
      OfFamilyFacts(rows, idx, f);
    }
  }

  lemma KeysAreGroups(rows: seq<Row>, idx: seq<nat>, byFamily: map<string, seq<nat>>, whole: bool)
    requires IsGrouping(byFamily, rows, idx, whole)
    ensures forall i :: i in idx ==> GroupKey(rows, whole, i) in byFamily
  {
    if !whole {
      forall i | i in idx ensures rows[i].need.family in byFamily {
        OfFamilyFacts(rows, idx, rows[i].need.family);
        assert i in OfFamily(rows, idx, rows[i].need.family);
      }
    }
  }

  // ---- All coarse needs -------------------------------------------------------------------

  /** Priced rows of one coarse need among the first n, ascending. */
  function PricedOf(rows: seq<Row>, legs: seq<seq<real>>, coarse: Need, n: nat): seq<nat>
    requires |legs| == |rows| && n <= |rows|
  {
    if n == 0 then []
    else
      PricedOf(rows, legs, coarse, n - 1)
      + (if Priced(rows, legs, n - 1) && Coarse(rows[n - 1].need) == coarse then [n - 1] else [])
  }

  lemma {:induction false} PricedOfFacts(rows: seq<Row>, legs: seq<seq<real>>, coarse: Need, n: nat)
    requires |legs| == |rows| && n <= |rows|
    ensures var idx := PricedOf(rows, legs, coarse, n);
      && Ascending(idx) && Below(idx, n)
      && forall i :: i in idx <==> i < n && Priced(rows, legs, i) && Coarse(rows[i].need) == coarse
  {
    if n > 0 {
      PricedOfFacts(rows, legs, coarse, n - 1);
    }
  }

  /** The priced ones of the first n row numbers, by coarse need. */
  ghost predicate GroupedTo(groups: map<Need, seq<nat>>, rows: seq<Row>, legs: seq<seq<real>>, n: nat) {
    && |legs| == |rows| && n <= |rows|
    && (forall c :: c in groups ==> groups[c] == PricedOf(rows, legs, c, n) && groups[c] != [])
    && (forall c :: c !in groups ==> PricedOf(rows, legs, c, n) == [])
    && (forall k :: k < n && Priced(rows, legs, k) ==> Coarse(rows[k].need) in groups)
  }

  lemma OneMoreGrouped(groups: map<Need, seq<nat>>, rows: seq<Row>, legs: seq<seq<real>>, i: nat)
    requires i < |rows| && GroupedTo(groups, rows, legs, i)
    ensures var c := Coarse(rows[i].need);
      var next := if Priced(rows, legs, i) then groups[c := (if c in groups then groups[c] else []) + [i]] else groups;
      GroupedTo(next, rows, legs, i + 1)
  {
    var need := Coarse(rows[i].need);
    var next := if Priced(rows, legs, i)
                then groups[need := (if need in groups then groups[need] else []) + [i]] else groups;
    forall c ensures PricedOf(rows, legs, c, i + 1) == if c in next then next[c] else [] {
      OneMorePriced(rows, legs, c, i);
    }
  }

  lemma OneMorePriced(rows: seq<Row>, legs: seq<seq<real>>, c: Need, i: nat)
    requires |legs| == |rows| && i < |rows|
    ensures PricedOf(rows, legs, c, i + 1)
         == if Priced(rows, legs, i) && Coarse(rows[i].need) == c then PricedOf(rows, legs, c, i) + [i]
            else PricedOf(rows, legs, c, i)
  {
  }

  /** The row numbers of each coarse need. */
  method GroupByNeed(rows: seq<Row>, legs: array<seq<real>>) returns (groups: map<Need, seq<nat>>)
    requires legs.Length == |rows|
    ensures forall c :: c in groups ==> groups[c] == PricedOf(rows, legs[..], c, |rows|) && groups[c] != []
    ensures forall i :: Priced(rows, legs[..], i) ==> Coarse(rows[i].need) in groups
  {
    ghost var was := legs[..];
    groups := map[];
    for i := 0 to |rows|
      invariant legs[..] == was
      invariant GroupedTo(groups, rows, was, i)
    {
      OneMoreGrouped(groups, rows, was, i);
      assert legs[i] == was[i];
      if rows[i].reservation && legs[i] != [] {
        assert Priced(rows, was, i);
        var c := Coarse(rows[i].need);
        groups := groups[c := (if c in groups then groups[c] else []) + [i]];
      }
    }
  }

  /** Within the list of its coarse need a row survives exactly when no competing row beats it. */
  lemma SurvivesMeansKept(rows: seq<Row>, legs: seq<seq<real>>, idx: seq<nat>, i: nat)
    requires |legs| == |rows| && Priced(rows, legs, i)
    requires Below(idx, |rows|) && forall j :: j in idx ==> legs[j] != []
    requires forall j :: j in idx <==>
      j < |rows| && Priced(rows, legs, j) && Coarse(rows[j].need) == Coarse(rows[i].need)
    ensures Survives(rows, legs, idx, i) <==> Kept(rows, legs, i)
  {
    forall j: nat ensures Rivals(rows, idx, i, j) <==> Competing(rows, legs, i, j) {
      RivalsCompete(rows, legs, idx, i, j);
    }
    if j: nat :| Rivals(rows, idx, i, j) && Beats(legs, j, i) {
      assert Competing(rows, legs, i, j) && Beats(legs, j, i);
    }
    if j :| Competing(rows, legs, i, j) && Beats(legs, j, i) {
      assert Rivals(rows, idx, i, j) && Beats(legs, j, i);
    }
  }

  lemma RivalsCompete(rows: seq<Row>, legs: seq<seq<real>>, idx: seq<nat>, i: nat, j: nat)
    requires |legs| == |rows| && Priced(rows, legs, i)
    requires Below(idx, |rows|)
    requires forall k :: k in idx <==>
      k < |rows| && Priced(rows, legs, k) && Coarse(rows[k].need) == Coarse(rows[i].need)
    ensures Rivals(rows, idx, i, j) <==> Competing(rows, legs, i, j)
  {
    var need := rows[i].need;
    if OneGroup(rows, legs, need) {
      var k :| Priced(rows, legs, k) && SamePurchase(rows[k].need, need) && rows[k].need.family == "";
      var m: nat := k;
      assert m in idx && rows[m].need.family == "";
    }
    if m: nat :| m in idx && rows[m].need.family == "" {
      assert Priced(rows, legs, m) && SamePurchase(rows[m].need, need) && rows[m].need.family == "";
    }
  }

  /** Of the priced rows that compete for one purchase only the cheapest keeps its legs, the first
      on a tie, whatever order the groups are visited in. */
  method Collapse(legs: array<seq<real>>, rows: seq<Row>)
    requires legs.Length == |rows|
    modifies legs
    ensures forall i :: 0 <= i < |rows| ==>
      legs[i] == if Priced(rows, old(legs[..]), i) && !Kept(rows, old(legs[..]), i) then [] else old(legs[i])
  {
    ghost var was := legs[..];
    var groups := GroupByNeed(rows, legs);
    var keys := groups.Keys;
    while keys != {}
      invariant keys <= groups.Keys
      invariant forall i :: 0 <= i < |rows| ==>
        legs[i] == if Priced(rows, was, i) && Coarse(rows[i].need) !in keys && !Kept(rows, was, i) then [] else was[i]
      decreases |keys|
    {
      var c :| c in keys;
      CollapseNeed(legs, rows, groups[c], c, was);
      keys := keys - {c};
    }
  }

  method CollapseNeed(legs: array<seq<real>>, rows: seq<Row>, idx: seq<nat>, c: Need, ghost was: seq<seq<real>>)
    requires legs.Length == |rows| == |was| && idx != [] && idx == PricedOf(rows, was, c, |rows|)
    requires forall i :: 0 <= i < |rows| && Priced(rows, was, i) && Coarse(rows[i].need) == c ==> legs[i] == was[i]
    modifies legs
    ensures forall i :: 0 <= i < |rows| ==>
      legs[i] == if Priced(rows, was, i) && Coarse(rows[i].need) == c && !Kept(rows, was, i) then [] else old(legs[i])
  {
    PricedOfFacts(rows, was, c, |rows|);
    ghost var now := legs[..];
    KeepCheapest(legs, rows, idx);
    forall i | i in idx ensures Survives(rows, now, idx, i) <==> Kept(rows, was, i) {
      SurvivesAsBefore(rows, now, was, idx, c, i);
    }
  }

  lemma SurvivesAsBefore(rows: seq<Row>, now: seq<seq<real>>, was: seq<seq<real>>, idx: seq<nat>, c: Need, i: nat)
    requires |now| == |rows| == |was| && idx == PricedOf(rows, was, c, |rows|) && i in idx
    requires forall j :: 0 <= j < |rows| && Priced(rows, was, j) && Coarse(rows[j].need) == c ==> now[j] == was[j]
    ensures Below(idx, |rows|) && forall j :: j in idx ==> now[j] != []
    ensures Survives(rows, now, idx, i) <==> Kept(rows, was, i)
  {
    PricedOfFacts(rows, was, c, |rows|);
    SurvivesMeansKept(rows, was, idx, i);
    SameLegsSurvive(rows, now, was, idx, i);
  }

  lemma SameLegsSurvive(rows: seq<Row>, now: seq<seq<real>>, was: seq<seq<real>>, idx: seq<nat>, i: nat)
    requires Below(idx, |rows|) && |now| == |rows| == |was| && i in idx
    requires forall j :: j in idx ==> now[j] == was[j] && was[j] != []
    ensures Survives(rows, now, idx, i) <==> Survives(rows, was, idx, i)
  {
    if j: nat :| Rivals(rows, idx, i, j) && Beats(now, j, i) {
      assert Rivals(rows, idx, i, j) && Beats(was, j, i);
    }
    if j: nat :| Rivals(rows, idx, i, j) && Beats(was, j, i) {
      assert Rivals(rows, idx, i, j) && Beats(now, j, i);
    }
  }

  /** Each purchase keeps exactly one row. */
  lemma OneSurvivor(rows: seq<Row>, legs: seq<seq<real>>, i: nat) returns (k: nat)
    requires |legs| == |rows| && Priced(rows, legs, i)
    ensures Competing(rows, legs, i, k) && Kept(rows, legs, k)
    ensures forall j :: Competing(rows, legs, i, j) ==> legs[k][0] <= legs[j][0]
    ensures forall j :: Competing(rows, legs, i, j) && Kept(rows, legs, j) ==> j == k
  {
    k := i;
    for n := 0 to |rows|
      invariant Competing(rows, legs, i, k)
      invariant forall j :: 0 <= j < n && Competing(rows, legs, i, j) ==> j == k || Beats(legs, k, j)
    {
      if Competing(rows, legs, i, n) && Beats(legs, n, k) {
        k := n;
      }
    }
    forall j | Competing(rows, legs, k, j) ensures !Beats(legs, j, k) {
      assert Competing(rows, legs, i, j);
    }
    forall j | Competing(rows, legs, i, j) && Kept(rows, legs, j) ensures j == k {
      assert Competing(rows, legs, j, k);
    }
  }
}
