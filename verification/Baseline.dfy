/** Accepting a daily usage series as a baseline, and its nearest-rank percentile. */
module Baseline {
  import opened Wrappers
  import opened RealMath

  /** One day's average usage; days are counted in UTC. */
  datatype DailyPoint = DailyPoint(day: int, value: real)

  datatype BaselineError =
    | BadArguments | TooShort | PoorCoverage | OutOfOrder | OutsideWindow | MissingDay | Stale | Negative

  const MIN_SERIES_DAYS := 7
  const MAX_MISSING_DAYS := 3
  const MAX_SERIES_AGE_DAYS := 3

  predicate StrictlyIncreasing(points: seq<DailyPoint>) {
    forall i :: 0 < i < |points| ==> points[i - 1].day < points[i].day
  }

  /** Points inside a window that includes both ends. */
  function CountInWindow(points: seq<DailyPoint>, first: int, last: int): nat {
    if points == [] then 0
    else
      CountInWindow(points[..|points| - 1], first, last) + (if first <= points[|points| - 1].day <= last then 1 else 0)
  }

  method ValidateChronology(points: seq<DailyPoint>) returns (ok: bool)
    ensures ok <==> StrictlyIncreasing(points)
  {
    var i := 1;
    while i < |points|
      invariant 1 <= i
      invariant forall k :: 0 < k < i && k < |points| ==> points[k - 1].day < points[k].day
    {
      if points[i].day <= points[i - 1].day {
        return false;
      }
      i := i + 1;
    }
    return true;
  }

  /** The consecutive days that start a lookback window, none of them today or later. */
  predicate FillsWindow(points: seq<DailyPoint>, lookback: int, today: int) {
    forall i :: 0 <= i < |points| ==> points[i].day == today - lookback + i && points[i].day < today
  }

  /** Only trailing days may be missing from the window. */
  method ValidateInWindowCoverage(points: seq<DailyPoint>, lookback: int, today: int)
    returns (error: Option<BaselineError>)
    requires 0 < lookback
    ensures error.Some? ==> error.value in {PoorCoverage, OutOfOrder, OutsideWindow, MissingDay}
    ensures error.None? <==> FillsWindow(points, lookback, today) && lookback - 3 <= |points|
  {
    var first, inWindow := today - lookback, 0;
    for i := 0 to |points|
      invariant inWindow == CountInWindow(points[..i], first, today)
    {
      if first <= points[i].day <= today {
        inWindow := inWindow + 1;
      }
      assert points[..i + 1][..i] == points[..i];
    }
    assert points[..|points|] == points;
    WindowCount(points, first, today);
    if inWindow < lookback - MAX_MISSING_DAYS {
      return Some(PoorCoverage);
    }
    var ordered := ValidateChronology(points);
    if !ordered {
      return Some(OutOfOrder);
    }
    for i := 0 to |points|
      invariant forall k :: 0 <= k < i ==> points[k].day == first + k && points[k].day < today
    {
      if points[i].day < first || points[i].day >= today {
        return Some(OutsideWindow);
      }
      if points[i].day != first + i {
        return Some(MissingDay);
      }
    }
    return None;
  }

  /** All points of a filled window are counted, and never more than there are. */
  lemma {:induction false} WindowCount(points: seq<DailyPoint>, first: int, last: int)
    ensures CountInWindow(points, first, last) <= |points|
    ensures (forall i :: 0 <= i < |points| ==> first <= points[i].day <= last) ==>
      CountInWindow(points, first, last) == |points|
  {
    if points != [] {
      WindowCount(points[..|points| - 1], first, last);
    }
  }

  method ValidateFreshness(points: seq<DailyPoint>, today: int) returns (error: Option<BaselineError>)
    requires points != []
    ensures error.Some? ==> error.value in {OutOfOrder, Stale}
    ensures error.None? <==> StrictlyIncreasing(points) && today - points[|points| - 1].day <= 3
  {
    var ordered := ValidateChronology(points);
    if !ordered {
      return Some(OutOfOrder);
    }
    if today - points[|points| - 1].day > MAX_SERIES_AGE_DAYS {
      return Some(Stale);
    }
    return None;
  }

  function ValuesOf(points: seq<DailyPoint>): (r: seq<real>)
    ensures |r| == |points| && forall i :: 0 <= i < |points| ==> r[i] == points[i].value
  {
    seq(|points|, i requires 0 <= i < |points| => points[i].value)
  }

  /** What an accepted series is: at least a week, the consecutive days from the window start, all
      but at most two of the window, and no negative value. */
  predicate Acceptable(points: seq<DailyPoint>, lookback: int, today: int) {
    && 7 <= |points|
    && lookback - 2 <= |points| <= lookback
    && FillsWindow(points, lookback, today)
    && forall i :: 0 <= i < |points| ==> 0.0 <= points[i].value
  }

  /** Of the series the coverage check accepts, the freshness check refuses exactly those that miss
      a third day. */
  lemma ThirdMissingDayIsStale(points: seq<DailyPoint>, lookback: int, today: int)
    requires points != [] && FillsWindow(points, lookback, today) && lookback - 3 <= |points|
    ensures StrictlyIncreasing(points)
    ensures today - points[|points| - 1].day <= 3 <==> |points| != lookback - 3
  {
    assert points[|points| - 1].day == today - lookback + |points| - 1;
  }

  /** A series the coverage check accepts and the freshness check refuses: the first 27 days of a
      30-day window. */
  lemma TwentySevenDaysAreStale(today: int) returns (points: seq<DailyPoint>)
    ensures |points| == 27 && StrictlyIncreasing(points)
    ensures FillsWindow(points, 30, today) && 30 - 3 <= |points|
    ensures 3 < today - points[|points| - 1].day
    ensures !Acceptable(points, 30, today)
  {
    points := seq(27, i requires 0 <= i < 27 => DailyPoint(today - 30 + i, 1.0));
    ThirdMissingDayIsStale(points, 30, today);
  }

  /** The low water of an acceptable series. The coverage check alone would tolerate a third missing
      day, but a series that short is always refused as stale. */
  method GetUsageBaseline(points: seq<DailyPoint>, lookback: int, percentile: real, today: int)
    returns (r: Result<real, BaselineError>)
    ensures r.Success? <==> 0 < lookback && 0.0 < percentile <= 100.0 && Acceptable(points, lookback, today)
    ensures r.Success? ==> IsPercentile(ValuesOf(points), percentile, r.value)
    ensures r == Failure(BadArguments) <==> !(0 < lookback && 0.0 < percentile <= 100.0)
    ensures r == Failure(TooShort) <==> 0 < lookback && 0.0 < percentile <= 100.0 && |points| < 7
    ensures r == Failure(Negative) <==>
      && 0 < lookback && 0.0 < percentile <= 100.0 && 7 <= |points| && lookback - 2 <= |points| <= lookback
      && FillsWindow(points, lookback, today) && exists i :: 0 <= i < |points| && points[i].value < 0.0
  {
    if lookback <= 0 || !(0.0 < percentile <= 100.0) {
      return Failure(BadArguments);
    }
    if |points| < MIN_SERIES_DAYS {
      return Failure(TooShort);
    }
    var coverage := ValidateInWindowCoverage(points, lookback, today);
    if coverage.Some? {
      return Failure(coverage.value);
    }
    assert |points| <= lookback by {
      assert points[|points| - 1].day == today - lookback + |points| - 1;
    }
    var freshness := ValidateFreshness(points, today);
    assert points[|points| - 1].day == today - lookback + |points| - 1;
    if freshness.Some? {
      return Failure(freshness.value);
    }
    for i := 0 to |points|
      invariant forall k :: 0 <= k < i ==> 0.0 <= points[k].value
    {
      if points[i].value < 0.0 {
        return Failure(Negative);
      }
    }
    var value := NearestRankPercentile(ValuesOf(points), percentile);
    return Success(value);
  }

  // ---- Nearest rank -----------------------------------------------------------------------

  function CountAtMost(data: seq<real>, v: real): nat {
    if data == [] then 0 else CountAtMost(data[..|data| - 1], v) + (if data[|data| - 1] <= v then 1 else 0)
  }

  function CountBelow(data: seq<real>, v: real): nat {
    if data == [] then 0 else CountBelow(data[..|data| - 1], v) + (if data[|data| - 1] < v then 1 else 0)
  }

  /** The element at which the share of the data not above it first reaches p percent. */
  predicate IsPercentile(data: seq<real>, p: real, v: real) {
    && v in data
    && Times(p, |data| as real) <= 100.0 * CountAtMost(data, v) as real
    && 100.0 * CountBelow(data, v) as real < Times(p, |data| as real)
  }

  function Insert(v: real, s: seq<real>): seq<real> {
    if s == [] || s[|s| - 1] <= v then s + [v] else Insert(v, s[..|s| - 1]) + [s[|s| - 1]]
  }

  function Sorted(data: seq<real>): seq<real> {
    if data == [] then [] else Insert(data[|data| - 1], Sorted(data[..|data| - 1]))
  }

  predicate Ascending(s: seq<real>) {
    forall i, j :: 0 <= i < j < |s| ==> s[i] <= s[j]
  }

  lemma CountAppend(s: seq<real>, x: real, v: real)
    ensures CountAtMost(s + [x], v) == CountAtMost(s, v) + (if x <= v then 1 else 0)
    ensures CountBelow(s + [x], v) == CountBelow(s, v) + (if x < v then 1 else 0)
  {
    assert (s + [x])[..|s|] == s;
  }

  lemma {:induction false} InsertCounts(x: real, s: seq<real>, v: real)
    ensures |Insert(x, s)| == |s| + 1
    ensures CountAtMost(Insert(x, s), v) == CountAtMost(s, v) + (if x <= v then 1 else 0)
    ensures CountBelow(Insert(x, s), v) == CountBelow(s, v) + (if x < v then 1 else 0)
  {
    if s == [] || s[|s| - 1] <= x {
      CountAppend(s, x, v);
    } else {
      InsertCounts(x, s[..|s| - 1], v);
      CountAppend(Insert(x, s[..|s| - 1]), s[|s| - 1], v);
    }
  }

  lemma {:induction false} InsertBounded(x: real, s: seq<real>, top: real)
    requires x <= top && forall i :: 0 <= i < |s| ==> s[i] <= top
    ensures forall i :: 0 <= i < |Insert(x, s)| ==> Insert(x, s)[i] <= top
  {
    if s != [] && !(s[|s| - 1] <= x) {
      InsertBounded(x, s[..|s| - 1], top);
    }
  }

  lemma {:induction false} InsertAscends(x: real, s: seq<real>)
    requires Ascending(s)
    ensures Ascending(Insert(x, s))
  {
    if s != [] && !(s[|s| - 1] <= x) {
      InsertAscends(x, s[..|s| - 1]);
      InsertBounded(x, s[..|s| - 1], s[|s| - 1]);
    }
  }

  /** Sorting a copy changes no count. */
  lemma {:induction false} SortedCounts(data: seq<real>, v: real)
    ensures |Sorted(data)| == |data| && Ascending(Sorted(data))
    ensures CountAtMost(Sorted(data), v) == CountAtMost(data, v)
    ensures CountBelow(Sorted(data), v) == CountBelow(data, v)
  {
    if data != [] {
      SortedCounts(data[..|data| - 1], v);
      InsertCounts(data[|data| - 1], Sorted(data[..|data| - 1]), v);
      InsertAscends(data[|data| - 1], Sorted(data[..|data| - 1]));
    }
  }

  /** In an ascending list at least k + 1 elements are at most the k-th, at most k below it. */
  lemma {:induction false} RankCounts(s: seq<real>, k: nat, v: real)
    requires Ascending(s) && k < |s| && v == s[k]
    ensures k + 1 <= CountAtMost(s, v) && CountBelow(s, v) <= k
  {
    var rest, last := s[..|s| - 1], s[|s| - 1];
    if k < |rest| {
      RankCounts(rest, k, v);
    } else {
      AllAtMost(rest, v);
    }
  }

  lemma {:induction false} AllAtMost(s: seq<real>, v: real)
    requires forall i :: 0 <= i < |s| ==> s[i] <= v
    ensures CountAtMost(s, v) == |s| && CountBelow(s, v) <= |s|
  {
    if s != [] {
      AllAtMost(s[..|s| - 1], v);
    }
  }

  /** A value counted more often as at most than as below is in the list. */
  lemma {:induction false} CountedIsMember(s: seq<real>, v: real)
    requires CountBelow(s, v) < CountAtMost(s, v)
    ensures v in s
  {
    var rest, last := s[..|s| - 1], s[|s| - 1];
    assert s == rest + [last];
    if last != v {
      CountedIsMember(rest, v);
    }
  }

  function Rank(p: real, n: nat): int {
    var share := Times(p, n as real) / 100.0;
    var rank := -((-share).Floor);
    if rank < 1 then 1 else if rank > n then n else rank
  }

  method NearestRankPercentile(data: seq<real>, p: real) returns (v: real)
    requires data != [] && 0.0 < p <= 100.0
    ensures IsPercentile(data, p, v)
  {
    var sorted := Sorted(data);
    var n := |data|;
    ghost var share := Times(p, n as real) / 100.0;
    TimesPositive(p, n as real);
    TimesMonotone(n as real, p, 100.0);
    TimesCommutes(p, n as real);
    var rank := Rank(p, n);
    assert share <= rank as real < share + 1.0 by {
      assert Times(n as real, 100.0) == 100.0 * n as real;
    }
    SortedCounts(data, 0.0);
    v := sorted[rank - 1];
    SortedCounts(data, v);
    RankCounts(sorted, rank - 1, v);
    CountedIsMember(data, v);
  }
}
