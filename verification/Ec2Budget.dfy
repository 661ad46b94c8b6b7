/** The two greedy passes over unit budgets, on values: one exact type, then a whole family. */
module Ec2Budget {
  import opened IntMath

  // ---- One exact type ---------------------------------------------------------------------

  /** What one budget gives: whole nodes of weight w, only when it covers and nodes are wanted. */
  function NodesTaken(left: int, covers: bool, w: nat, wanted: int): (n: nat)
    requires 0 < w
  {
    if wanted <= 0 || left < w || !covers then 0
    else
      var whole := Div(left, w);
      if whole <= wanted then whole else wanted
  }

  /** Budgets left after a pass in order, and the nodes still wanted. */
  function TakeAll(lefts: seq<int>, covers: seq<bool>, w: nat, wanted: int): (r: (seq<int>, int))
    requires 0 < w && |covers| == |lefts|
    ensures |r.0| == |lefts|
  {
    if lefts == [] then ([], wanted)
    else
      var last := |lefts| - 1;
      var (rest, remaining) := TakeAll(lefts[..last], covers[..last], w, wanted);
      var n := NodesTaken(lefts[last], covers[last], w, remaining);
      (rest + [lefts[last] - Mul(n, w)], remaining - n)
  }

  /** One budget: it is spent in whole nodes, or else less than one node is left or wanted. */
  lemma TakenFacts(left: int, covers: bool, w: nat, wanted: int)
    requires 0 < w
    ensures var n := NodesTaken(left, covers, w, wanted);
      && n <= Max(wanted, 0)
      && (n > 0 ==> covers && 0 <= left - Mul(n, w) < left)
      && (0 < wanted - n && covers ==> left - Mul(n, w) < w)
  {
    var n := NodesTaken(left, covers, w, wanted);
    MulUnit(w);
    if n > 0 {
      DivFits(left, w);
      MulMonotone(n, Div(left, w), w);
      MulMonotone(1, n, w);
      MulAdd(Div(left, w), 1, w);
    } else if w <= left {
      DivZero(left, w);
    }
  }

  /** Nodes credited weigh exactly what the budgets lost. */
  lemma {:induction false} TakeAllConserves(lefts: seq<int>, covers: seq<bool>, w: nat, wanted: int)
    requires 0 < w && |covers| == |lefts|
    ensures var (out, remaining) := TakeAll(lefts, covers, w, wanted);
      && Sum(out) == Sum(lefts) - Mul(wanted - remaining, w)
      && Min(wanted, 0) <= remaining <= wanted
  {
    MulUnit(w);
    if lefts != [] {
      var last := |lefts| - 1;
      TakeAllConserves(lefts[..last], covers[..last], w, wanted);
      var (rest, remaining) := TakeAll(lefts[..last], covers[..last], w, wanted);
      var n := NodesTaken(lefts[last], covers[last], w, remaining);
      TakenFacts(lefts[last], covers[last], w, remaining);
      AppendSum(rest, lefts[last] - Mul(n, w));
      MulAdd(wanted - remaining, n, w);
    }
  }

  /** The first n covering budgets have less than one node left. */
  predicate Exhausted(out: seq<int>, covers: seq<bool>, w: nat, n: nat)
    requires n <= |out| == |covers|
  {
    forall i :: 0 <= i < n && covers[i] ==> out[i] < w
  }

  /** Only covering budgets are credited, the pass moves on only from exhausted ones, and it leaves
      nodes wanted only when every covering budget is exhausted. */
  predicate Greedy(lefts: seq<int>, covers: seq<bool>, w: nat, out: seq<int>, remaining: int)
    requires |out| == |lefts| == |covers|
  {
    && (forall i :: 0 <= i < |out| && out[i] != lefts[i] ==> covers[i] && 0 <= out[i] < lefts[i])
    && (0 < remaining ==> Exhausted(out, covers, w, |out|))
    && (forall j :: 0 <= j < |out| && out[j] != lefts[j] ==> Exhausted(out, covers, w, j))
  }

  lemma {:induction false} TakeAllIsGreedy(lefts: seq<int>, covers: seq<bool>, w: nat, wanted: int)
    requires 0 < w && |covers| == |lefts|
    ensures Greedy(lefts, covers, w, TakeAll(lefts, covers, w, wanted).0, TakeAll(lefts, covers, w, wanted).1)
  {
    if lefts != [] {
      var last := |lefts| - 1;
      TakeAllIsGreedy(lefts[..last], covers[..last], w, wanted);
      var (rest, remaining) := TakeAll(lefts[..last], covers[..last], w, wanted);
      GreedyStep(rest, lefts[..last], covers[..last], remaining, lefts[last], covers[last], w);
      assert lefts == lefts[..last] + [lefts[last]] && covers == covers[..last] + [covers[last]];
    }
  }

  lemma GreedyStep(rest: seq<int>, lefts: seq<int>, covers: seq<bool>, remaining: int, left: int, cover: bool, w: nat)
    requires 0 < w && |rest| == |lefts| == |covers|
    requires Greedy(lefts, covers, w, rest, remaining)
    ensures var n := NodesTaken(left, cover, w, remaining);
      Greedy(lefts + [left], covers + [cover], w, rest + [left - Mul(n, w)], remaining - n)
  {
    TakenFacts(left, cover, w, remaining);
    MulUnit(w);
    var n := NodesTaken(left, cover, w, remaining);
    var out := rest + [left - Mul(n, w)];
    forall j | 0 <= j <= |rest| && Exhausted(rest, covers, w, j)
      ensures Exhausted(out, covers + [cover], w, j)
    {
      ExhaustedExtends(rest, covers, w, j, left - Mul(n, w), cover);
    }
  }

  lemma ExhaustedExtends(rest: seq<int>, covers: seq<bool>, w: nat, j: nat, next: int, cover: bool)
    requires j <= |rest| == |covers| && Exhausted(rest, covers, w, j)
    ensures Exhausted(rest + [next], covers + [cover], w, j)
  {
    forall i | 0 <= i < j && (covers + [cover])[i] ensures (rest + [next])[i] < w {
      assert covers[i] && rest[i] < w;
    }
  }

  /** Once nothing is wanted, the rest of the pass changes nothing. */
  lemma {:induction false} NothingWanted(lefts: seq<int>, covers: seq<bool>, w: nat, wanted: int, i: nat)
    requires 0 < w && |covers| == |lefts| && i <= |lefts|
    requires TakeAll(lefts[..i], covers[..i], w, wanted).1 <= 0
    ensures TakeAll(lefts, covers, w, wanted)
         == (TakeAll(lefts[..i], covers[..i], w, wanted).0 + lefts[i..], TakeAll(lefts[..i], covers[..i], w, wanted).1)
  {
    if i < |lefts| {
      var last := |lefts| - 1;
      assert lefts[..last][..i] == lefts[..i] && covers[..last][..i] == covers[..i];
      NothingWanted(lefts[..last], covers[..last], w, wanted, i);
      MulUnit(w);
      var out := TakeAll(lefts[..i], covers[..i], w, wanted).0;
      assert lefts[..last][i..] + [lefts[last]] == lefts[i..];
      assert (out + lefts[..last][i..]) + [lefts[last]] == out + lefts[i..];
    } else {
      assert lefts[..i] == lefts && covers[..i] == covers && lefts[i..] == [];
      var out := TakeAll(lefts, covers, w, wanted).0;
      assert out + [] == out;
    }
  }

  // ---- A whole family ---------------------------------------------------------------------

  /** Takes units in order until the need is met; returns what is left of each and of the need. */
  function Drain(lefts: seq<int>, need: int): (r: (seq<int>, int))
    ensures |r.0| == |lefts|
  {
    if lefts == [] then ([], need)
    else
      var last := |lefts| - 1;
      var (rest, open) := Drain(lefts[..last], need);
      var take := if open <= 0 then 0 else Min(lefts[last], open);
      (rest + [lefts[last] - take], open - take)
  }

  /** Taken in order, without overdrawing any budget. */
  predicate Drained(lefts: seq<int>, out: seq<int>, open: int)
    requires |out| == |lefts|
  {
    && (forall i :: 0 <= i < |out| ==> 0 <= out[i] <= lefts[i])
    && (0 < open ==> forall i :: 0 <= i < |out| ==> out[i] == 0)
    && (forall i, j :: 0 <= i < j < |out| && out[j] != lefts[j] ==> out[i] == 0)
  }

  lemma {:induction false} DrainInOrder(lefts: seq<int>, need: nat)
    requires forall i :: 0 <= i < |lefts| ==> 0 <= lefts[i]
    ensures Drained(lefts, Drain(lefts, need).0, Drain(lefts, need).1)
    ensures 0 <= Drain(lefts, need).1 <= need
  {
    if lefts != [] {
      var last := |lefts| - 1;
      DrainInOrder(lefts[..last], need);
      var (rest, open) := Drain(lefts[..last], need);
      DrainStep(rest, lefts[..last], open, lefts[last]);
      assert lefts == lefts[..last] + [lefts[last]];
    }
  }

  lemma DrainStep(rest: seq<int>, lefts: seq<int>, open: int, left: nat)
    requires |rest| == |lefts| && Drained(lefts, rest, open)
    ensures var take := if open <= 0 then 0 else Min(left, open);
      Drained(lefts + [left], rest + [left - take], open - take)
  {
  }

  /** Once the need is met, the rest of the budgets stay as they are. */
  lemma {:induction false} NothingOpen(lefts: seq<int>, need: int, i: nat)
    requires i <= |lefts| && Drain(lefts[..i], need).1 <= 0
    ensures Drain(lefts, need) == (Drain(lefts[..i], need).0 + lefts[i..], Drain(lefts[..i], need).1)
  {
    if i < |lefts| {
      var last := |lefts| - 1;
      assert lefts[..last][..i] == lefts[..i];
      NothingOpen(lefts[..last], need, i);
      var out := Drain(lefts[..i], need).0;
      assert lefts[..last][i..] + [lefts[last]] == lefts[i..];
      assert (out + lefts[..last][i..]) + [lefts[last]] == out + lefts[i..];
    } else {
      assert lefts[..i] == lefts && lefts[i..] == [];
      var out := Drain(lefts, need).0;
      assert out + [] == out;
    }
  }

  lemma {:induction false} DrainConserves(lefts: seq<int>, need: int)
    ensures var (out, open) := Drain(lefts, need); Sum(out) == Sum(lefts) - (need - open)
  {
    if lefts != [] {
      var last := |lefts| - 1;
      DrainConserves(lefts[..last], need);
      var (rest, open) := Drain(lefts[..last], need);
      var take := if open <= 0 then 0 else Min(lefts[last], open);
      AppendSum(rest, lefts[last] - take);
    }
  }

  /** A need within the total is met exactly. */
  lemma DrainMeetsNeed(lefts: seq<int>, need: nat)
    requires forall i :: 0 <= i < |lefts| ==> 0 <= lefts[i]
    requires need <= Sum(lefts)
    ensures var (out, open) := Drain(lefts, need);
      open == 0 && Sum(out) == Sum(lefts) - need && Drained(lefts, out, open)
  {
    DrainInOrder(lefts, need);
    DrainConserves(lefts, need);
    SumNonNegative(Drain(lefts, need).0);
  }

  /** The nodes a family budget covers: what whole nodes it holds, at most those wanted. */
  function FamilyCovered(budget: nat, units: nat, wanted: int): int
    requires 0 < units
  {
    Min(Div(budget, units), wanted)
  }

  /** Either every wanted node is covered, or less than one node of budget is left. */
  lemma FamilyCoverage(budget: nat, units: nat, wanted: nat)
    requires 0 < units
    ensures var covered := FamilyCovered(budget, units, wanted);
      && 0 <= covered <= wanted
      && 0 <= Mul(covered, units) <= budget
      && (covered < wanted ==> budget - Mul(covered, units) < units)
  {
    var covered := FamilyCovered(budget, units, wanted);
    DivFits(budget, units);
    MulNonNegative(covered, units);
    MulMonotone(covered, Div(budget, units), units);
    MulAdd(Div(budget, units), 1, units);
    MulUnit(units);
  }

  // ---- Parts of a whole -------------------------------------------------------------------

  /** Sum of the values a map gives to the members of a list. */
  function SumOver<T>(s: seq<T>, m: map<T, int>): int
    requires forall x :: x in s ==> x in m
  {
    if s == [] then 0 else SumOver(s[..|s| - 1], m) + m[s[|s| - 1]]
  }

  /** The values a map gives to the members of a list, in list order. */
  function Values<T>(s: seq<T>, m: map<T, int>): (r: seq<int>)
    requires forall x :: x in s ==> x in m
    ensures |r| == |s| && forall i :: 0 <= i < |s| ==> r[i] == m[s[i]]
  {
    seq(|s|, i requires 0 <= i < |s| => m[s[i]])
  }

  lemma {:induction false} SumOfValues<T>(s: seq<T>, m: map<T, int>)
    requires forall x :: x in s ==> x in m
    ensures SumOver(s, m) == Sum(Values(s, m))
  {
    if s != [] {
      SumOfValues(s[..|s| - 1], m);
      assert Values(s, m)[..|s| - 1] == Values(s[..|s| - 1], m);
    }
  }

  predicate NoRepeats<T(==)>(s: seq<T>) {
    forall i, j :: 0 <= i < j < |s| ==> s[i] != s[j]
  }

  lemma {:induction false} SumOverUpdate<T>(s: seq<T>, m: map<T, int>, x: T, v: int)
    requires NoRepeats(s) && x in m && forall y :: y in s ==> y in m
    ensures SumOver(s, m[x := v]) == SumOver(s, m) + (if x in s then v - m[x] else 0)
  {
    if s != [] {
      var rest, last := s[..|s| - 1], s[|s| - 1];
      SumOverUpdate(rest, m, x, v);
      assert s == rest + [last];
    }
  }

  lemma {:induction false} SumOverSame<T>(s: seq<T>, m: map<T, int>, m': map<T, int>)
    requires forall y :: y in s ==> y in m && y in m' && m[y] == m'[y]
    ensures SumOver(s, m) == SumOver(s, m')
  {
    if s != [] {
      SumOverSame(s[..|s| - 1], m, m');
    }
  }

  lemma {:induction false} SumOverShrinks<T>(s: seq<T>, m: map<T, int>, m': map<T, int>)
    requires forall y :: y in s ==> y in m && y in m' && m'[y] <= m[y]
    ensures SumOver(s, m') <= SumOver(s, m)
  {
    if s != [] {
      SumOverShrinks(s[..|s| - 1], m, m');
    }
  }

  lemma {:induction false} SumOverDrops<T>(s: seq<T>, m: map<T, int>, m': map<T, int>, x: T)
    requires forall y :: y in s ==> y in m && y in m' && m'[y] <= m[y]
    requires x in s && m'[x] < m[x]
    ensures SumOver(s, m') < SumOver(s, m)
  {
    var rest := s[..|s| - 1];
    if s[|s| - 1] == x {
      SumOverShrinks(rest, m, m');
    } else {
      assert s == rest + [s[|s| - 1]];
      SumOverDrops(rest, m, m', x);
    }
  }

  /** When only members of a part change, the whole moves by exactly as much as the part. */
  lemma {:induction false} PartMovesWhole<T>(part: seq<T>, whole: seq<T>, m: map<T, int>, m': map<T, int>)
    requires NoRepeats(part) && NoRepeats(whole) && m.Keys == m'.Keys
    requires forall x :: x in part ==> x in whole
    requires forall x :: x in whole ==> x in m
    requires forall x :: x in whole && x !in part ==> m[x] == m'[x]
    ensures SumOver(whole, m') - SumOver(whole, m) == SumOver(part, m') - SumOver(part, m)
  {
    if part == [] {
      SumOverSame(whole, m, m');
    } else {
      var rest, last := part[..|part| - 1], part[|part| - 1];
      assert part == rest + [last];
      var m1 := m[last := m'[last]];
      SumOverUpdate(whole, m, last, m'[last]);
      SumOverUpdate(part, m, last, m'[last]);
      assert last in part;
      PartMovesWhole(rest, whole, m1, m');
    }
  }
}
