/** Exchange runs as the runs of a day on the shared ledger: each one's own calls, in their order,
    are what the protocol allows, and any interleaving of such runs is a day. */
module ExchangeDay {
  import opened Wrappers
  import opened ExchangeMoney
  import opened ExchangeProtocol
  import opened ExchangeLedger
  import opened ExchangeRun

  /** One call made by one run. */
  datatype Move = Move(run: nat, event: Event)

  /** The calls of one run, in order. */
  function EventsOf(moves: seq<Move>, r: nat): seq<Event> {
    if moves == [] then []
    else
      var rest, last := EventsOf(moves[..|moves| - 1], r), moves[|moves| - 1];
      if last.run == r then rest + [last.event] else rest
  }

  /** A day together with the calls that led from state to state. */
  ghost predicate DayOf(states: seq<System>, moves: seq<Move>, dailyCap: int) {
    && |states| == |moves| + 1
    && states[0].records == [] && states[0].moved == map[]
    && (forall r :: 0 <= r < |states[0].runs| ==> states[0].runs[r] == Idle)
    && forall i :: 0 <= i < |moves| ==> MoveAt(states, moves, dailyCap, i)
  }

  ghost predicate MoveAt(states: seq<System>, moves: seq<Move>, dailyCap: int, i: int)
    requires |states| == |moves| + 1 && 0 <= i < |moves|
  {
    Next(states[i], states[i + 1], dailyCap, moves[i].run, moves[i].event)
  }

  /** Every day comes about by calls. */
  lemma {:induction false} DayHasMoves(states: seq<System>, dailyCap: int) returns (moves: seq<Move>)
    requires Day(states, dailyCap)
    ensures DayOf(states, moves, dailyCap)
  {
    var last := |states| - 1;
    if last == 0 {
      moves := [];
    } else {
      var before := states[..last];
      forall i | 0 <= i < |before| - 1 ensures Follows(before[i], before[i + 1], dailyCap) {
        assert Follows(states[i], states[i + 1], dailyCap);
      }
      var earlier := DayHasMoves(before, dailyCap);
      assert Follows(states[last - 1], states[last], dailyCap);
      var r: nat, e :| Next(states[last - 1], states[last], dailyCap, r, e);
      moves := earlier + [Move(r, e)];
      forall i | 0 <= i < |moves| ensures MoveAt(states, moves, dailyCap, i) {
        if i < |earlier| {
          assert MoveAt(before, earlier, dailyCap, i);
        }
      }
    }
  }

  lemma MovesMakeADay(states: seq<System>, moves: seq<Move>, dailyCap: int)
    requires DayOf(states, moves, dailyCap)
    ensures Day(states, dailyCap)
  {
    forall i | 0 <= i < |states| - 1 ensures Follows(states[i], states[i + 1], dailyCap) {
      assert MoveAt(states, moves, dailyCap, i);
    }
  }

  lemma OneMoreMove(moves: seq<Move>, n: nat, r: nat)
    requires n < |moves|
    ensures EventsOf(moves[..n + 1], r)
         == if moves[n].run == r then EventsOf(moves[..n], r) + [moves[n].event] else EventsOf(moves[..n], r)
  {
    assert moves[..n + 1][..n] == moves[..n];
  }

  /** In every day each run's own calls are a sequence the protocol allows, so all that holds of such
      sequences holds of every run, however the others interleave. */
  lemma {:induction false} RunsFollowProtocol(states: seq<System>, moves: seq<Move>, dailyCap: int, n: nat, r: nat)
    requires DayOf(states, moves, dailyCap) && n <= |moves| && r < |states[0].runs|
    ensures |states[n].runs| == |states[0].runs|
    ensures After(Idle, EventsOf(moves[..n], r)) == Some(states[n].runs[r])
  {
    if n > 0 {
      RunsFollowProtocol(states, moves, dailyCap, n - 1, r);
      assert MoveAt(states, moves, dailyCap, n - 1);
      OneMoreMove(moves, n - 1, r);
      AfterOne(Idle, EventsOf(moves[..n - 1], r), moves[n - 1].event);
    }
  }

  // ---- Any interleaving is a day ----------------------------------------------------------

  /** What the store and the cloud hold between two calls. */
  datatype Holdings = Holdings(records: seq<Record>, moved: map<nat, real>)

  /** The phase a run's own calls have brought it to. */
  function PhaseOf(moves: seq<Move>, r: nat): Phase {
    match After(Idle, EventsOf(moves, r))
    case None => Idle
    case Some(p) => p
  }

  function SystemAt(held: Holdings, moves: seq<Move>, runs: nat): System {
    System(held.records, held.moved, seq(runs, r requires 0 <= r < runs => PhaseOf(moves, r)))
  }

  /** The store and the cloud answered one call as they promise. */
  ghost predicate Answered(before: Holdings, after: Holdings, p: Phase, e: Event) {
    && Effect(before.records, before.moved, e, after.records, after.moved)
    && Moves(before.moved, p, e, after.moved)
  }

  /** Runs interleave: every call is one of theirs, reserves within the cap, and is answered. */
  ghost predicate Interleaving(held: seq<Holdings>, moves: seq<Move>, runs: nat, dailyCap: int) {
    && |held| == |moves| + 1 && held[0] == Holdings([], map[])
    && forall i :: 0 <= i < |moves| ==> CallAt(held, moves, runs, dailyCap, i)
  }

  ghost predicate CallAt(held: seq<Holdings>, moves: seq<Move>, runs: nat, dailyCap: int, i: int)
    requires |held| == |moves| + 1 && 0 <= i < |moves|
  {
    var move := moves[i];
    && move.run < runs
    && (move.event.Reserve? ==> move.event.dailyCap <= dailyCap)
    && Answered(held[i], held[i + 1], PhaseOf(moves[..i], move.run), move.event)
  }

  lemma {:induction false} EventsPrefix(moves: seq<Move>, n: nat, r: nat)
    requires n <= |moves|
    ensures EventsOf(moves[..n], r) <= EventsOf(moves, r)
    decreases |moves| - n
  {
    if n < |moves| {
      EventsPrefix(moves, n + 1, r);
      OneMoreMove(moves, n, r);
    } else {
      assert moves[..n] == moves;
    }
  }

  /** Where a run's calls are allowed as a whole, each of them is allowed when it is made. */
  lemma CallAdvances(moves: seq<Move>, i: nat)
    requires i < |moves| && After(Idle, EventsOf(moves, moves[i].run)).Some?
    ensures var r := moves[i].run;
      Advance(PhaseOf(moves[..i], r), moves[i].event) == Some(PhaseOf(moves[..i + 1], r))
  {
    var r := moves[i].run;
    var all, before, now := EventsOf(moves, r), EventsOf(moves[..i], r), EventsOf(moves[..i + 1], r);
    OneMoreMove(moves, i, r);
    EventsPrefix(moves, i, r);
    EventsPrefix(moves, i + 1, r);
    AllowedPrefix(Idle, all, |before|);
    AllowedPrefix(Idle, all, |now|);
    assert all[..|before|] == before && all[..|now|] == now;
    AfterOne(Idle, before, moves[i].event);
  }

  /** Runs whose own calls the protocol allows make a day, whatever their interleaving. */
  lemma InterleavingIsADay(held: seq<Holdings>, moves: seq<Move>, runs: nat, dailyCap: int)
    returns (states: seq<System>)
    requires Interleaving(held, moves, runs, dailyCap)
    requires forall r: nat :: r < runs ==> After(Idle, EventsOf(moves, r)).Some?
    ensures DayOf(states, moves, dailyCap)
    ensures forall i :: 0 <= i < |states| ==> states[i] == SystemAt(held[i], moves[..i], runs)
  {
    states := seq(|held|, i requires 0 <= i < |held| => SystemAt(held[i], moves[..i], runs));
    forall i | 0 <= i < |moves| ensures MoveAt(states, moves, dailyCap, i) {
      CallIsNext(held, moves, runs, dailyCap, i);
    }
  }

  lemma CallIsNext(held: seq<Holdings>, moves: seq<Move>, runs: nat, dailyCap: int, i: nat)
    requires Interleaving(held, moves, runs, dailyCap) && i < |moves|
    requires forall r: nat :: r < runs ==> After(Idle, EventsOf(moves, r)).Some?
    ensures Next(SystemAt(held[i], moves[..i], runs), SystemAt(held[i + 1], moves[..i + 1], runs), dailyCap,
                 moves[i].run, moves[i].event)
  {
    assert CallAt(held, moves, runs, dailyCap, i);
    CallAdvances(moves, i);
    OneRunMoves(held[i], held[i + 1], moves, runs, i, PhaseOf(moves[..i + 1], moves[i].run));
  }

  /** A call moves on the run that makes it, and no other. */
  lemma OneRunMoves(before: Holdings, after: Holdings, moves: seq<Move>, runs: nat, i: nat, p: Phase)
    requires i < |moves| && moves[i].run < runs && PhaseOf(moves[..i + 1], moves[i].run) == p
    ensures SystemAt(after, moves[..i + 1], runs).runs == SystemAt(before, moves[..i], runs).runs[moves[i].run := p]
  {
    forall q: nat | q < runs && q != moves[i].run ensures PhaseOf(moves[..i + 1], q) == PhaseOf(moves[..i], q) {
      OneMoreMove(moves, i, q);
    }
  }

  // ---- What the runs of the program add up to ---------------------------------------------

  /** What an exchange run with these parameters guarantees of its calls. */
  ghost predicate RunTrace(p: Params, es: seq<Event>) {
    After(Idle, es).Some? && ReservesWithin(p, [], es)
  }

  lemma FloorMonotone(a: real, b: real)
    requires a <= b
    ensures FloorMicros(a) <= FloorMicros(b)
  {
    assert a * SCALE <= b * SCALE;
  }

  lemma {:induction false} EventAmong(moves: seq<Move>, i: nat)
    requires i < |moves|
    ensures moves[i].event in EventsOf(moves, moves[i].run)
  {
    EventsPrefix(moves, i + 1, moves[i].run);
    OneMoreMove(moves, i, moves[i].run);
    var now := EventsOf(moves[..i + 1], moves[i].run);
    assert now[|now| - 1] == EventsOf(moves, moves[i].run)[|now| - 1];
  }

  /** However many exchange runs interleave on one ledger in a day, each within a daily cap that is
      at most the limit, the money they really move stays within the limit, up to the half
      micro-dollar each record was rounded by. */
  lemma RunsStayWithinLimit(ps: seq<Params>, held: seq<Holdings>, moves: seq<Move>, limit: real)
    requires 0.0 <= limit
    requires forall r :: 0 <= r < |ps| ==> ps[r].dailyCap <= limit && RunTrace(ps[r], EventsOf(moves, r))
    requires |held| == |moves| + 1 && held[0] == Holdings([], map[])
    requires forall i :: 0 <= i < |moves| ==>
      moves[i].run < |ps| && Answered(held[i], held[i + 1], PhaseOf(moves[..i], moves[i].run), moves[i].event)
    ensures var s := SystemAt(held[|moves|], moves, |ps|);
      MovedMicros(s, |s.records|) <= limit * SCALE + 0.5 * |s.records| as real
  {
    var cap := FloorMicros(limit);
    forall i | 0 <= i < |moves| ensures CallAt(held, moves, |ps|, cap, i) {
      var r, e := moves[i].run, moves[i].event;
      EventAmong(moves, i);
      if e.Reserve? {
        FloorMonotone(ps[r].dailyCap, limit);
      }
    }
    var states := InterleavingIsADay(held, moves, |ps|, cap);
    MovesMakeADay(states, moves, cap);
    assert moves[..|moves|] == moves;
    MoneyStaysWithinCap(states, limit, |moves|);
  }
}
