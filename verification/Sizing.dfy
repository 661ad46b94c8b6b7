/** Strict-target sizing: buying at most what brings coverage up to a target. */
module Sizing {
  import opened Wrappers
  import opened RealMath
  import opened Recommendations

  datatype Kind = ReservedInstance | SavingsPlan(hasDetails: bool) | OtherKind

  /** exactCoverage is the coverage as an exact fraction; exactRounds says that it rounds to the
      reported percentage. */
  datatype Candidate = Candidate(
    kind: Kind, rec: Recommendation, averageUsed: real,
    coverageKnown: bool, coveragePct: real, exactCoverage: Option<real>, exactRounds: bool,
    recommendedUtilization: real, projectedUtilization: real, projectedCoverage: real)

  datatype DropReason = TargetAlreadyMet | SizedToZero | InputInvalid | CoverageUnknown

  datatype Decision = Keep(c: Candidate) | PassThrough(noSignal: bool) | Drop(reason: DropReason)

  const INT_LIMIT := 0x8000_0000_0000_0000

  /** The coverage a candidate is sized from. */
  function CoverageUsed(c: Candidate): real {
    if c.exactCoverage.Some? && c.exactRounds then c.exactCoverage.value else c.coveragePct
  }

  /** Whole instances that fit into the gap. */
  function TargetCount(averageUsed: real, gap: real): int {
    (Times(averageUsed, gap) / 100.0).Floor
  }

  /** The integer part: a quotient of integers rounds toward zero. */
  function Truncated(x: real): int {
    if 0.0 <= x then x.Floor else -(-x).Floor
  }

  function Clamp(x: real): real {
    if x > 100.0 then 100.0 else x
  }

  datatype Sized = Invalid | AlreadyMet | Count(n: int)

  /** Sizing in exact fractions. */
  function ExactSize(averageUsed: real, exact: real, target: real): Sized {
    var gap := target - exact;
    var whole := Truncated(Times(gap, averageUsed) / 100.0);
    if exact < 0.0 then Invalid
    else if gap <= 0.0 then AlreadyMet
    else if INT_LIMIT <= whole || INT_LIMIT <= -whole then Invalid
    else Count(whole)
  }

  /** Sizing from the reported percentage. */
  function PlainSize(averageUsed: real, percent: real, target: real): Sized {
    var gap := target - percent;
    if gap <= 0.0 then AlreadyMet
    else if INT_LIMIT <= TargetCount(averageUsed, gap) then Invalid
    else Count(TargetCount(averageUsed, gap))
  }

  /** The exact fraction is used when it rounds to the reported percentage. */
  function SizeOf(c: Candidate, target: real): Sized {
    if c.exactCoverage.Some? && c.exactRounds then ExactSize(c.averageUsed, c.exactCoverage.value, target)
    else PlainSize(c.averageUsed, c.coveragePct, target)
  }

  function SizeReserved(c: Candidate, target: real): Decision {
    if c.coveragePct < 0.0 then Drop(InputInvalid)
    else if c.averageUsed <= 0.0 then PassThrough(true)
    else if !c.coverageKnown then Drop(CoverageUnknown)
    else
      match SizeOf(c, target)
      case Invalid => Drop(InputInvalid)
      case AlreadyMet => Drop(TargetAlreadyMet)
      case Count(n) =>
        if n == 0 then Drop(SizedToZero)
        else if c.rec.count <= 0 then Drop(InputInvalid)
        else
          Keep(c.(
            rec := c.rec.(count := n, money := ScaleCosts(c.rec.money, Over(n as real, c.rec.count as real))),
            projectedUtilization := Clamp(Times(Over(c.averageUsed, n as real), 100.0)),
            projectedCoverage := Clamp(c.coveragePct + Times(Over(n as real, c.averageUsed), 100.0))))
  }

  function SizeSavingsPlan(c: Candidate, target: real): Decision
    requires c.kind.SavingsPlan?
  {
    if c.recommendedUtilization <= 0.0 then PassThrough(true)
    else if !c.kind.hasDetails then PassThrough(false)
    else if c.rec.money.hourly.None? || c.rec.money.hourly.value <= 0.0 then PassThrough(true)
    else
      Keep(c.(
        rec := c.rec.(money := ScaleCosts(c.rec.money, target / 100.0)),
        projectedUtilization := Clamp(Over(c.recommendedUtilization, target / 100.0))))
  }

  function Decide(c: Candidate, target: real): Decision {
    match c.kind
    case ReservedInstance => SizeReserved(c, target)
    case SavingsPlan(_) => SizeSavingsPlan(c, target)
    case OtherKind => PassThrough(false)
  }

  lemma FloorShare(avg: real, gap: real, n: int)
    requires 0.0 < avg && n == TargetCount(avg, gap)
    ensures Over(100.0 * n as real, avg) <= gap < Over(100.0 * (n + 1) as real, avg)
  {
    var low, high := Over(100.0 * n as real, avg), Over(100.0 * (n + 1) as real, avg);
    OverTimes(100.0 * n as real, avg);
    OverTimes(100.0 * (n + 1) as real, avg);
    if gap < low {
      TimesStrict(avg, gap, low);
      assert false;
    }
    if high <= gap {
      TimesMonotone(avg, high, gap);
      assert false;
    }
  }

  /** Both ways of sizing are one: of a coverage that is not negative they give the same result,
      and a count is the whole instances in the gap. */
  lemma PathsAgree(averageUsed: real, covered: real, target: real)
    requires 0.0 < averageUsed && 0.0 <= covered
    ensures ExactSize(averageUsed, covered, target) == PlainSize(averageUsed, covered, target)
    ensures var s := PlainSize(averageUsed, covered, target);
      s.Count? ==> 0.0 < target - covered && s.n == TargetCount(averageUsed, target - covered) && 0 <= s.n < INT_LIMIT
  {
    var gap := target - covered;
    TimesCommutes(averageUsed, gap);
    if 0.0 < gap {
      TimesPositive(averageUsed, gap);
    }
  }

  /** Where the fraction and the percentage differ by less than one instance's worth, the two counts
      differ by at most one. */
  lemma PathsAreClose(averageUsed: real, exact: real, percent: real, target: real)
    requires 0.0 < averageUsed && 0.0 <= exact && 0.0 <= percent
    requires -100.0 < Times(averageUsed, exact - percent) < 100.0
    requires ExactSize(averageUsed, exact, target).Count? && PlainSize(averageUsed, percent, target).Count?
    ensures -1 <= ExactSize(averageUsed, exact, target).n - PlainSize(averageUsed, percent, target).n <= 1
  {
    PathsAgree(averageUsed, exact, target);
    PathsAgree(averageUsed, percent, target);
    TimesSub(averageUsed, target - percent, target - exact);
    assert (target - percent) - (target - exact) == exact - percent;
  }

  /** The size a candidate gets is the one for the coverage it is sized from. */
  lemma SizedFrom(c: Candidate, target: real)
    requires 0.0 < c.averageUsed && 0.0 <= c.coveragePct && SizeOf(c, target).Count?
    ensures 0.0 <= CoverageUsed(c) < target
    ensures SizeOf(c, target).n == TargetCount(c.averageUsed, target - CoverageUsed(c))
    ensures 0 <= SizeOf(c, target).n < INT_LIMIT
  {
    PathsAgree(c.averageUsed, CoverageUsed(c), target);
  }

  /** A sized reservation stays within the target and one more would pass it, and its cost per
      instance is the proposal's, whether the count grew or shrank. */
  lemma SizedWithinTarget(c: Candidate, target: real)
    requires SizeReserved(c, target).Keep?
    ensures var n, covered := SizeReserved(c, target).c.rec.count, CoverageUsed(c);
      && 1 <= n < INT_LIMIT
      && covered + Over(100.0 * n as real, c.averageUsed) <= target
      && target < covered + Over(100.0 * (n + 1) as real, c.averageUsed)
    ensures SameCostPerUnit(c.rec, SizeReserved(c, target).c.rec)
    ensures target <= 100.0 ==> SizeReserved(c, target).c.projectedUtilization == 100.0
  {
    SizedFrom(c, target);
    var n := SizeReserved(c, target).c.rec.count;
    var gap := target - CoverageUsed(c);
    FloorShare(c.averageUsed, gap, n);
    TimesPositive(c.averageUsed, gap);
    if gap <= 100.0 {
      TimesMonotone(c.averageUsed, gap, 100.0);
      assert Times(c.averageUsed, 100.0) == 100.0 * c.averageUsed;
    }
    var m := c.rec.money;
    ScaledPerUnit(m.commitmentCost, c.rec.count, n);
    ScaledPerUnit(m.onDemandCost, c.rec.count, n);
    ScaledPerUnit(m.savings, c.rec.count, n);
    ScaledOptionPerUnit(m.recurring, c.rec.count, n);
    ScaledOptionPerUnit(m.hourly, c.rec.count, n);
    FullyUsed(c.averageUsed, n as real);
  }

  lemma FullyUsed(avg: real, n: real)
    requires 0.0 < avg && 0.0 < n
    ensures n <= avg ==> Clamp(Times(Over(avg, n), 100.0)) == 100.0
  {
    OverTimes(avg, n);
    TimesUnit(n);
    if n <= avg && Over(avg, n) < 1.0 {
      TimesStrict(n, Over(avg, n), 1.0);
      assert false;
    }
  }

  /** When a reservation is dropped because nothing fits, a single instance would pass the target. */
  lemma ZeroMeansOneTooMany(c: Candidate, target: real)
    requires c.kind.ReservedInstance? && Decide(c, target) == Drop(SizedToZero)
    ensures CoverageUsed(c) < target < CoverageUsed(c) + Over(100.0, c.averageUsed)
  {
    SizedFrom(c, target);
    FloorShare(c.averageUsed, target - CoverageUsed(c), 0);
  }

  /** What becomes of a reservation: room is what the gap to the target holds, in hundredths of an
      instance. */
  lemma ReservationOutcomes(c: Candidate, target: real, room: real)
    requires room == c.averageUsed * (target - CoverageUsed(c))
    ensures var d, covered := SizeReserved(c, target), CoverageUsed(c);
      var usable, known := 0.0 <= c.coveragePct && 0.0 < c.averageUsed, c.coverageKnown;
      && (d == PassThrough(true) <==> 0.0 <= c.coveragePct && c.averageUsed <= 0.0)
      && (d == Drop(CoverageUnknown) <==> usable && !known)
      && (d == Drop(TargetAlreadyMet) <==> usable && known && 0.0 <= covered && target <= covered)
      && (d == Drop(SizedToZero) <==> usable && known && 0.0 <= covered < target && room < 100.0)
      && (d.Keep? <==> usable && known && 0.0 <= covered < target && 0 < c.rec.count
                       && 100.0 <= room < 100.0 * 0x8000_0000_0000_0000 as real)
  {
    var covered := CoverageUsed(c);
    if 0.0 <= c.coveragePct && 0.0 < c.averageUsed && 0.0 <= covered {
      PathsAgree(c.averageUsed, covered, target);
      if covered < target {
        TimesPositive(c.averageUsed, target - covered);
        assert Times(c.averageUsed, target - covered) == room;
      }
    }
  }

  /** The coverage projected for a sized reservation: what was covered and what the instances bought
      add to it, at most everything. Nothing else changes but count, money and use. */
  lemma ProjectedCoverage(c: Candidate, target: real)
    requires SizeReserved(c, target).Keep?
    ensures var s := SizeReserved(c, target).c;
      && s == c.(rec := c.rec.(count := s.rec.count, money := s.rec.money),
                 projectedUtilization := s.projectedUtilization, projectedCoverage := s.projectedCoverage)
      && if c.averageUsed * (100.0 - c.coveragePct) <= 100.0 * s.rec.count as real then s.projectedCoverage == 100.0
         else c.averageUsed * (s.projectedCoverage - c.coveragePct) == 100.0 * s.rec.count as real
  {
    var n := SizeReserved(c, target).c.rec.count as real;
    CoverageAdds(c.averageUsed, n, 100.0 - c.coveragePct, Times(Over(n, c.averageUsed), 100.0));
  }

  lemma CoverageAdds(avg: real, n: real, open: real, added: real)
    requires 0.0 < avg && added == Times(Over(n, avg), 100.0)
    ensures avg * added == 100.0 * n
    ensures open <= added <==> avg * open <= 100.0 * n
  {
    OverTimes(n, avg);
    assert avg * added == (avg * Over(n, avg)) * 100.0;
    if open <= added {
      TimesMonotone(avg, open, added);
    } else {
      TimesStrict(avg, added, open);
    }
  }

  /** An amount is target hundredths of another. */
  predicate ShareOf(part: real, whole: real, target: real) {
    part * 100.0 == whole * target
  }

  predicate ShareOfOption(part: Option<real>, whole: Option<real>, target: real) {
    match (part, whole)
    case (None, None) => true
    case (Some(x), Some(y)) => ShareOf(x, y, target)
    case _ => false
  }

  lemma ScaledShare(x: real, target: real)
    ensures ShareOf(Times(x, target / 100.0), x, target)
  {
    assert Times(x, target / 100.0) * 100.0 == x * (target / 100.0 * 100.0);
  }

  lemma ScaledShareOption(x: Option<real>, target: real)
    ensures ShareOfOption(ScaleOption(x, target / 100.0), x, target)
  {
    if x.Some? {
      ScaledShare(x.value, target);
    }
  }

  /** The use that was projected for the whole plan, spread over the smaller one: all of it at most. */
  predicate UtilizationOf(projected: real, recommended: real, target: real) {
    if target <= recommended then projected == 100.0 else projected * target == recommended * 100.0
  }

  lemma ScaledUtilization(recommended: real, target: real)
    requires 0.0 < target
    ensures UtilizationOf(Clamp(Over(recommended, target / 100.0)), recommended, target)
  {
    var u := Over(recommended, target / 100.0);
    assert u * (target / 100.0) == recommended;
    assert u * target == recommended * 100.0;
    if target <= recommended && u < 100.0 {
      TimesStrict(target, u, 100.0);
      assert false;
    }
    if recommended < target && 100.0 < u {
      TimesStrict(target, 100.0, u);
      assert false;
    }
  }

  /** A savings plan is kept exactly when it has details, a utilization and a commitment to scale;
      then every amount is target hundredths of the proposal's, and nothing else changes but the
      projected utilization. */
  lemma SavingsPlanShare(c: Candidate, target: real)
    requires c.kind.SavingsPlan? && 0.0 < target
    ensures var d, m := Decide(c, target), c.rec.money;
      && (d.Keep? <==> 0.0 < c.recommendedUtilization && c.kind.hasDetails && m.hourly.Some? && 0.0 < m.hourly.value)
      && (!d.Keep? ==> d == PassThrough(!(0.0 < c.recommendedUtilization && !c.kind.hasDetails)))
      && (d.Keep? ==>
            var sized := d.c.rec.money;
            && d.c == c.(rec := c.rec.(money := sized), projectedUtilization := d.c.projectedUtilization)
            && ShareOf(sized.commitmentCost, m.commitmentCost, target)
            && ShareOf(sized.onDemandCost, m.onDemandCost, target) && ShareOf(sized.savings, m.savings, target)
            && ShareOfOption(sized.recurring, m.recurring, target) && ShareOfOption(sized.hourly, m.hourly, target)
            && UtilizationOf(d.c.projectedUtilization, c.recommendedUtilization, target))
  {
    var m := c.rec.money;
    ScaledShare(m.commitmentCost, target);
    ScaledShare(m.onDemandCost, target);
    ScaledShare(m.savings, target);
    ScaledShareOption(m.recurring, target);
    ScaledShareOption(m.hourly, target);
    ScaledUtilization(c.recommendedUtilization, target);
  }

  // ---- Whole lists ------------------------------------------------------------------------

  /** Candidates that stay, in order: sized, or unchanged when they pass through. */
  function Kept(cs: seq<Candidate>, target: real): seq<Candidate> {
    if cs == [] then []
    else
      var rest, c := Kept(cs[..|cs| - 1], target), cs[|cs| - 1];
      match Decide(c, target)
      case Keep(sized) => rest + [sized]
      case PassThrough(_) => rest + [c]
      case Drop(_) => rest
  }

  function Dropped(cs: seq<Candidate>, target: real, reason: DropReason): nat {
    if cs == [] then 0
    else Dropped(cs[..|cs| - 1], target, reason) + (if Decide(cs[|cs| - 1], target) == Drop(reason) then 1 else 0)
  }

  function CountOf(drops: map<DropReason, nat>, reason: DropReason): nat {
    if reason in drops then drops[reason] else 0
  }

  method ApplyTargetCoverage(cs: seq<Candidate>, target: real)
    returns (kept: seq<Candidate>, drops: map<DropReason, nat>)
    ensures 0.0 < target <= 100.0 ==>
      kept == Kept(cs, target) && forall r :: CountOf(drops, r) == Dropped(cs, target, r)
    ensures !(0.0 < target <= 100.0) ==> kept == cs && drops == map[]
  {
    kept, drops := [], map[];
    if target <= 0.0 || target > 100.0 {
      return cs, drops;
    }
    for i := 0 to |cs|
      invariant kept == Kept(cs[..i], target)
      invariant forall r :: CountOf(drops, r) == Dropped(cs[..i], target, r)
    {
      assert cs[..i + 1][..i] == cs[..i];
      match Decide(cs[i], target) {
        case Keep(sized) => kept := kept + [sized];
        case PassThrough(_) => kept := kept + [cs[i]];
        case Drop(reason) =>
          ghost var before := drops;
          drops := drops[reason := CountOf(drops, reason) + 1];
          forall r ensures CountOf(drops, r) == Dropped(cs[..i + 1], target, r) {
            assert CountOf(before, r) == Dropped(cs[..i], target, r);
          }
      }
    }
    assert cs[..|cs|] == cs;
  }

  /** Nothing is lost: every candidate is kept or counted under exactly one reason. */
  lemma {:induction false} KeptOrCounted(cs: seq<Candidate>, target: real)
    ensures |cs| == |Kept(cs, target)| + Dropped(cs, target, TargetAlreadyMet) + Dropped(cs, target, SizedToZero)
                  + Dropped(cs, target, InputInvalid) + Dropped(cs, target, CoverageUnknown)
  {
    if cs != [] {
      KeptOrCounted(cs[..|cs| - 1], target);
    }
  }
}
