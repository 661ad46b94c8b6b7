/** The generation-keyed accounts cache under every interleaving of its callers and setters. */
module AccountsCache {
  import opened Wrappers
  import opened AccountsProvider

  /** What a fetch delivers; a stale fetch and any other failure are errors that are not the
      context's. */
  datatype Reply = Fetched(listing: Listing) | ContextError | OtherError

  /** Where a caller stands between two atomic steps; flight is the generation its fetch is keyed on.
      A leader that is leaving has its reply, but its flight can still be joined. */
  datatype Pc =
    | ReadingCache
    | ReadingGeneration
    | Joining(flight: nat)
    | Waiting(flight: nat)
    | Rechecking(flight: nat)
    | Snapshotting(flight: nat)
    | Fetching(flight: nat, taken: Listing)
    | Publishing(flight: nat, taken: Listing)
    | Leaving(flight: nat, reply: Reply)
    | Received(reply: Reply)
    | Returned(result: Reply)

  /** since is the generation when the caller started; live says its own context is not canceled. */
  datatype Caller = Caller(pc: Pc, attempt: nat, since: nat, live: bool)

  /** flights maps the generation of each fetch in progress to its leader. history lists the
      credential and client in force at each generation. */
  datatype State = State(shared: Shared, flights: map<nat, nat>, callers: seq<Caller>, history: seq<(int, int)>)

  datatype Step =
    | SetCredential(cred: int)
    | SetClient(client: int)
    | Invalidate
    | Start
    | CancelContext(c: nat)
    | ReadCache(c: nat)
    | ReadGeneration(c: nat)
    | Join(c: nat)
    | Recheck(c: nat)
    | Snapshot(c: nat)
    | FetchOk(c: nat, accounts: seq<Account>)
    | FetchFailed(c: nat, byContext: bool)
    | Publish(c: nat)
    | Leave(c: nat)
    | Decide(c: nat)

  function Swapped(s: State, shared: Shared): State {
    s.(shared := shared, history := s.history + [(shared.cred, shared.client)])
  }

  function SetPc(s: State, c: nat, pc: Pc): State
    requires c < |s.callers|
  {
    s.(callers := s.callers[c := s.callers[c].(pc := pc)])
  }

  /** A flight ends: its leader and everyone waiting for it receive the same reply. */
  function Finished(callers: seq<Caller>, leader: nat, flight: nat, reply: Reply): (r: seq<Caller>)
    ensures |r| == |callers|
  {
    seq(|callers|, i requires 0 <= i < |callers| =>
      if i == leader || callers[i].pc == Waiting(flight) then callers[i].(pc := Received(reply)) else callers[i])
  }

  function Finish(s: State, leader: nat, flight: nat, reply: Reply): State {
    s.(flights := s.flights - {flight}, callers := Finished(s.callers, leader, flight, reply))
  }

  function PcOf(s: State, c: nat): Option<Pc> {
    if c < |s.callers| then Some(s.callers[c].pc) else None
  }

  predicate Enabled(s: State, step: Step) {
    match step
    case SetCredential(_) => true
    case SetClient(_) => true
    case Invalidate => true
    case Start => true
    case CancelContext(c) => c < |s.callers|
    case ReadCache(c) => PcOf(s, c) == Some(ReadingCache)
    case ReadGeneration(c) => PcOf(s, c) == Some(ReadingGeneration)
    case Join(c) => c < |s.callers| && s.callers[c].pc.Joining?
    case Recheck(c) => c < |s.callers| && s.callers[c].pc.Rechecking?
    case Snapshot(c) => c < |s.callers| && s.callers[c].pc.Snapshotting?
    case FetchOk(c, _) => c < |s.callers| && s.callers[c].pc.Fetching?
    case FetchFailed(c, _) => c < |s.callers| && s.callers[c].pc.Fetching?
    case Publish(c) => c < |s.callers| && s.callers[c].pc.Publishing?
    case Leave(c) => c < |s.callers| && s.callers[c].pc.Leaving?
    case Decide(c) => c < |s.callers| && s.callers[c].pc.Received?
  }

  function After(s: State, step: Step): State
    requires Enabled(s, step)
  {
    match step
    case SetCredential(cred) => Swapped(s, WithCredential(s.shared, cred))
    case SetClient(client) => Swapped(s, WithClient(s.shared, client))
    case Invalidate => Swapped(s, Invalidated(s.shared))
    case Start => s.(callers := s.callers + [Caller(ReadingCache, 1, s.shared.gen, true)])
    case CancelContext(c) => s.(callers := s.callers[c := s.callers[c].(live := false)])
    case ReadCache(c) =>
      SetPc(s, c, if s.shared.cache.Some? then Returned(Fetched(s.shared.cache.value)) else ReadingGeneration)
    case ReadGeneration(c) => SetPc(s, c, Joining(s.shared.gen))
    case Join(c) =>
      var g := s.callers[c].pc.flight;
      if g in s.flights then SetPc(s, c, Waiting(g))
      else SetPc(s, c, Rechecking(g)).(flights := s.flights[g := c])
    case Recheck(c) =>
      var g := s.callers[c].pc.flight;
      SetPc(s, c, if s.shared.cache.Some? then Leaving(g, Fetched(s.shared.cache.value)) else Snapshotting(g))
    case Snapshot(c) =>
      SetPc(s, c, Fetching(s.callers[c].pc.flight, Listing(s.shared.cred, s.shared.client, s.shared.gen, [])))
    case FetchOk(c, accounts) =>
      SetPc(s, c, Publishing(s.callers[c].pc.flight, s.callers[c].pc.taken.(accounts := accounts)))
    case FetchFailed(c, byContext) =>
      SetPc(s, c, Leaving(s.callers[c].pc.flight, if byContext then ContextError else OtherError))
    case Publish(c) =>
      var g, l := s.callers[c].pc.flight, s.callers[c].pc.taken;
      if s.shared.gen == g
      then SetPc(s.(shared := Published(s.shared, g, l)), c, Leaving(g, Fetched(l)))
      else SetPc(s, c, Leaving(g, OtherError))
    case Leave(c) =>
      Finish(s, c, s.callers[c].pc.flight, s.callers[c].pc.reply)
    case Decide(c) =>
      var caller := s.callers[c];
      if caller.pc.reply == ContextError && caller.live && caller.attempt == 1
      then s.(callers := s.callers[c := caller.(pc := ReadingGeneration, attempt := 2)])
      else SetPc(s, c, Returned(caller.pc.reply))
  }

  // ---- The invariant ----------------------------------------------------------------------

  /** The listing was fetched with the credential and client of its own generation. */
  predicate Genuine(s: State, l: Listing) {
    l.gen < |s.history| && (l.cred, l.client) == s.history[l.gen]
  }

  /** A list of the generation in force is the one in the cache. */
  predicate Shown(s: State, l: Listing) {
    l.gen == s.shared.gen ==> s.shared.cache == Some(l)
  }

  /** A reply to a caller that started at a generation is never older than it. */
  predicate FreshFor(s: State, since: nat, reply: Reply) {
    reply.Fetched? ==> Genuine(s, reply.listing) && since <= reply.listing.gen && Shown(s, reply.listing)
  }

  /** A leader that found the cache empty is still alone in filling it. */
  predicate MayFill(s: State, g: nat) {
    g == s.shared.gen ==> s.shared.cache.None?
  }

  predicate Leads(s: State, c: nat, g: nat) {
    g in s.flights && s.flights[g] == c
  }

  predicate LeadsFlight(pc: Pc) {
    pc.Rechecking? || pc.Snapshotting? || pc.Fetching? || pc.Publishing? || pc.Leaving?
  }

  predicate CallerOk(s: State, c: nat)
    requires c < |s.callers|
  {
    var caller := s.callers[c];
    && 1 <= caller.attempt <= 2
    && caller.since <= s.shared.gen
    && match caller.pc
       case ReadingCache => caller.attempt == 1
       case ReadingGeneration => true
       case Joining(g) => caller.since <= g <= s.shared.gen
       case Waiting(g) => caller.since <= g && g in s.flights
       case Rechecking(g) => caller.since <= g <= s.shared.gen && Leads(s, c, g)
       case Snapshotting(g) => caller.since <= g <= s.shared.gen && Leads(s, c, g) && MayFill(s, g)
       case Fetching(g, l) => caller.since <= g <= l.gen && Genuine(s, l) && Leads(s, c, g) && MayFill(s, g)
       case Publishing(g, l) => caller.since <= g <= l.gen && Genuine(s, l) && Leads(s, c, g) && MayFill(s, g)
       case Leaving(g, reply) => caller.since <= g && FreshFor(s, g, reply) && Leads(s, c, g)
       case Received(reply) => FreshFor(s, caller.since, reply)
       case Returned(reply) =>
         FreshFor(s, caller.since, reply) && (reply == ContextError ==> !caller.live || caller.attempt == 2)
  }

  predicate Inv(s: State) {
    && |s.history| == s.shared.gen + 1
    && s.history[s.shared.gen] == (s.shared.cred, s.shared.client)
    && (s.shared.cache.Some? ==> s.shared.cache.value.gen == s.shared.gen && Genuine(s, s.shared.cache.value))
    && (forall c :: 0 <= c < |s.callers| ==> CallerOk(s, c))
    && (forall g :: g in s.flights ==> LeaderOk(s, g))
  }

  /** Every flight has a leader that is on it. */
  predicate LeaderOk(s: State, g: nat)
    requires g in s.flights
  {
    && s.flights[g] < |s.callers|
    && LeadsFlight(s.callers[s.flights[g]].pc)
    && s.callers[s.flights[g]].pc.flight == g
  }

  // ---- Every step keeps it ----------------------------------------------------------------

  /** Swapping a field or invalidating moves the generation on, so nothing in progress is current. */
  lemma SwapKeeps(s: State, shared: Shared)
    requires Inv(s) && shared.gen == s.shared.gen + 1 && shared.cache.None?
    ensures Inv(Swapped(s, shared))
  {
    var t := Swapped(s, shared);
    forall c | 0 <= c < |t.callers| ensures CallerOk(t, c) {
      assert CallerOk(s, c);
    }
  }

  /** A caller is in order as long as nothing it depends on changes, its own flight included. */
  lemma CallerStays(s: State, t: State, d: nat)
    requires d < |s.callers| && d < |t.callers| && t.callers[d] == s.callers[d] && CallerOk(s, d)
    requires t.shared == s.shared && t.history == s.history
    requires var pc := s.callers[d].pc;
      (pc.Waiting? || LeadsFlight(pc)) && pc.flight in s.flights ==>
        pc.flight in t.flights && t.flights[pc.flight] == s.flights[pc.flight]
    ensures CallerOk(t, d)
  {
  }

  /** A step of one caller that touches nothing but its own place. */
  lemma OwnStepKeeps(s: State, c: nat, caller: Caller)
    requires Inv(s) && c < |s.callers|
    requires LeadsFlight(s.callers[c].pc) ==> LeadsFlight(caller.pc) && caller.pc.flight == s.callers[c].pc.flight
    requires CallerOk(s.(callers := s.callers[c := caller]), c)
    ensures Inv(s.(callers := s.callers[c := caller]))
  {
    var t := s.(callers := s.callers[c := caller]);
    forall d | 0 <= d < |t.callers| ensures CallerOk(t, d) {
      if d != c {
        CallerStays(s, t, d);
      }
    }
  }

  /** Ending a flight leaves every caller in order: its leader and everyone waiting have a reply that
      is fresh for each of them. */
  lemma FinishKeepsCaller(s: State, c: nat, d: nat)
    requires Inv(s) && Enabled(s, Leave(c)) && d < |s.callers|
    ensures CallerOk(After(s, Leave(c)), d)
  {
    assert CallerOk(s, c) && CallerOk(s, d);
    var g, t := s.callers[c].pc.flight, After(s, Leave(c));
    if d == c || s.callers[d].pc == Waiting(g) {
      assert t.callers[d] == s.callers[d].(pc := Received(s.callers[c].pc.reply));
    } else {
      OtherFlights(s, c, d);
      CallerStays(s, t, d);
    }
  }

  /** The flight that ends is no other caller's. */
  lemma OtherFlights(s: State, c: nat, d: nat)
    requires Inv(s) && Enabled(s, Leave(c)) && d < |s.callers| && d != c
    requires s.callers[d].pc != Waiting(s.callers[c].pc.flight)
    ensures var pc := s.callers[d].pc;
      LeadsFlight(pc) || pc.Waiting? ==> pc.flight != s.callers[c].pc.flight
  {
    assert CallerOk(s, c) && CallerOk(s, d);
  }

  lemma LeaveKeeps(s: State, c: nat)
    requires Inv(s) && Enabled(s, Leave(c))
    ensures Inv(After(s, Leave(c)))
  {
    var t := After(s, Leave(c));
    assert CallerOk(s, c);
    forall d | 0 <= d < |t.callers| ensures CallerOk(t, d) {
      FinishKeepsCaller(s, c, d);
    }
    forall f | f in t.flights ensures LeaderOk(t, f) {
      assert LeaderOk(s, f) && s.flights[f] != c;
    }
  }

  lemma JoinKeeps(s: State, c: nat)
    requires Inv(s) && Enabled(s, Join(c))
    ensures Inv(After(s, Join(c)))
  {
    assert CallerOk(s, c);
    var g := s.callers[c].pc.flight;
    if g in s.flights {
      OwnStepKeeps(s, c, s.callers[c].(pc := Waiting(g)));
    } else {
      var t := After(s, Join(c));
      forall d | 0 <= d < |t.callers| ensures CallerOk(t, d) {
        if d != c {
          CallerStays(s, t, d);
        }
      }
    }
  }

  lemma PublishKeeps(s: State, c: nat)
    requires Inv(s) && Enabled(s, Publish(c))
    ensures Inv(After(s, Publish(c)))
  {
    assert CallerOk(s, c);
    var g, l := s.callers[c].pc.flight, s.callers[c].pc.taken;
    if s.shared.gen == g {
      var t := After(s, Publish(c));
      forall d | 0 <= d < |t.callers| ensures CallerOk(t, d) {
        assert CallerOk(s, d);
      }
    } else {
      OwnStepKeeps(s, c, s.callers[c].(pc := Leaving(g, OtherError)));
    }
  }

  lemma StartKeeps(s: State)
    requires Inv(s)
    ensures Inv(After(s, Start))
  {
    var t := After(s, Start);
    forall d | 0 <= d < |t.callers| ensures CallerOk(t, d) {
      if d < |s.callers| {
        assert CallerOk(s, d);
      }
    }
  }

  /** Steps of a caller that leads no flight. */
  lemma CallerStepKeeps(s: State, step: Step)
    requires Inv(s) && Enabled(s, step)
    requires step.ReadCache? || step.ReadGeneration? || step.Decide?
    ensures Inv(After(s, step))
  {
    var c := step.c;
    assert CallerOk(s, c);
    OwnStepKeeps(s, c, After(s, step).callers[c]);
  }

  /** Steps of a leader that stays on its flight. */
  lemma LeaderStepKeeps(s: State, step: Step)
    requires Inv(s) && Enabled(s, step)
    requires step.Recheck? || step.Snapshot? || step.FetchOk? || step.FetchFailed?
    ensures Inv(After(s, step))
  {
    var c := step.c;
    assert CallerOk(s, c);
    OwnStepKeeps(s, c, After(s, step).callers[c]);
  }

  lemma CancelKeeps(s: State, c: nat)
    requires Inv(s) && c < |s.callers|
    ensures Inv(After(s, CancelContext(c)))
  {
    assert CallerOk(s, c);
    OwnStepKeeps(s, c, s.callers[c].(live := false));
  }

  lemma StepKeeps(s: State, step: Step)
    requires Inv(s) && Enabled(s, step)
    ensures Inv(After(s, step))
  {
    match step
    case SetCredential(cred) => SwapKeeps(s, WithCredential(s.shared, cred));
    case SetClient(client) => SwapKeeps(s, WithClient(s.shared, client));
    case Invalidate => SwapKeeps(s, Invalidated(s.shared));
    case Start => StartKeeps(s);
    case Join(c) => JoinKeeps(s, c);
    case Publish(c) => PublishKeeps(s, c);
    case Leave(c) => LeaveKeeps(s, c);
    case CancelContext(c) => CancelKeeps(s, c);
    case Recheck(_) => LeaderStepKeeps(s, step);
    case Snapshot(_) => LeaderStepKeeps(s, step);
    case FetchOk(_, _) => LeaderStepKeeps(s, step);
    case FetchFailed(_, _) => LeaderStepKeeps(s, step);
    case _ => CallerStepKeeps(s, step);
  }

  // ---- Whole executions -------------------------------------------------------------------

  function Initial(cred: int, client: int): State {
    State(Shared(cred, client, 0, None), map[], [], [(cred, client)])
  }

  predicate Runs(s: State, steps: seq<Step>)
    decreases |steps|
  {
    steps != [] ==> Enabled(s, steps[0]) && Runs(After(s, steps[0]), steps[1..])
  }

  function Final(s: State, steps: seq<Step>): State
    requires Runs(s, steps)
    decreases |steps|
  {
    if steps == [] then s else Final(After(s, steps[0]), steps[1..])
  }

  /** A run goes on with any step that is enabled where it stands. */
  lemma {:induction false} RunGoesOn(s: State, steps: seq<Step>, step: Step)
    requires Runs(s, steps) && Enabled(Final(s, steps), step)
    ensures Runs(s, steps + [step]) && Final(s, steps + [step]) == After(Final(s, steps), step)
    decreases |steps|
  {
    if steps == [] {
      assert Runs(After(s, step), []) && (steps + [step])[1..] == [];
    } else {
      RunGoesOn(After(s, steps[0]), steps[1..], step);
      assert (steps + [step])[1..] == steps[1..] + [step];
    }
  }

  lemma {:induction false} RunsKeepInv(s: State, steps: seq<Step>)
    requires Inv(s) && Runs(s, steps)
    ensures Inv(Final(s, steps))
    decreases |steps|
  {
    if steps != [] {
      StepKeeps(s, steps[0]);
      RunsKeepInv(After(s, steps[0]), steps[1..]);
    }
  }

  /** After any interleaving, a cached list was fetched with the current credential and client, at
      the current generation. */
  lemma CacheIsCurrent(cred: int, client: int, steps: seq<Step>)
    requires Runs(Initial(cred, client), steps)
    ensures var shared := Final(Initial(cred, client), steps).shared;
      shared.cache.Some? ==>
        var l := shared.cache.value; l.cred == shared.cred && l.client == shared.client && l.gen == shared.gen
  {
    RunsKeepInv(Initial(cred, client), steps);
  }

  /** After any interleaving, what a caller returned came from one credential and client that were
      in force together, no earlier than when the caller started: nothing fetched before an
      invalidation reaches a caller that starts after it. */
  lemma ReturnsAreFresh(cred: int, client: int, steps: seq<Step>, c: nat)
    requires Runs(Initial(cred, client), steps)
    requires c < |Final(Initial(cred, client), steps).callers|
    requires Final(Initial(cred, client), steps).callers[c].pc.Returned?
    ensures var s := Final(Initial(cred, client), steps); var caller := s.callers[c];
      && (caller.pc.result.Fetched? ==>
            var l := caller.pc.result.listing;
            caller.since <= l.gen <= s.shared.gen && l.gen < |s.history| && (l.cred, l.client) == s.history[l.gen])
      && (caller.pc.result == ContextError ==> !caller.live || caller.attempt == 2)
      && caller.attempt <= 2
  {
    RunsKeepInv(Initial(cred, client), steps);
    assert CallerOk(Final(Initial(cred, client), steps), c);
  }

  /** At most one fetch per generation is ever in flight. */
  lemma OneFetchPerGeneration(cred: int, client: int, steps: seq<Step>, c: nat, d: nat)
    requires Runs(Initial(cred, client), steps)
    requires var s := Final(Initial(cred, client), steps);
      && c < |s.callers| && d < |s.callers| && LeadsFlight(s.callers[c].pc) && LeadsFlight(s.callers[d].pc)
      && s.callers[c].pc.flight == s.callers[d].pc.flight
    ensures c == d
  {
    RunsKeepInv(Initial(cred, client), steps);
    assert CallerOk(Final(Initial(cred, client), steps), c) && CallerOk(Final(Initial(cred, client), steps), d);
  }

  /** No caller is stranded: it can take a step itself, or waits for a leader that can. */
  lemma NobodyIsStranded(cred: int, client: int, steps: seq<Step>, c: nat)
    requires Runs(Initial(cred, client), steps)
    requires c < |Final(Initial(cred, client), steps).callers|
    requires !Final(Initial(cred, client), steps).callers[c].pc.Returned?
    ensures var s := Final(Initial(cred, client), steps); var pc := s.callers[c].pc;
      if pc.Waiting?
      then pc.flight in s.flights && s.flights[pc.flight] < |s.callers| && CanStep(s, s.flights[pc.flight])
      else CanStep(s, c)
  {
    RunsKeepInv(Initial(cred, client), steps);
    var s := Final(Initial(cred, client), steps);
    assert CallerOk(s, c);
    if s.callers[c].pc.Waiting? {
      OwnStepExists(s, s.flights[s.callers[c].pc.flight]);
    } else {
      OwnStepExists(s, c);
    }
  }

  /** Some step of this caller's own is enabled. */
  ghost predicate CanStep(s: State, c: nat) {
    exists step :: Enabled(s, step) && MovesCaller(step, c)
  }

  predicate MovesCaller(step: Step, c: nat) {
    match step
    case ReadCache(d) => d == c
    case ReadGeneration(d) => d == c
    case Join(d) => d == c
    case Recheck(d) => d == c
    case Snapshot(d) => d == c
    case FetchOk(d, _) => d == c
    case Publish(d) => d == c
    case Leave(d) => d == c
    case Decide(d) => d == c
    case _ => false
  }

  lemma OwnStepExists(s: State, c: nat)
    requires c < |s.callers| && !s.callers[c].pc.Waiting? && !s.callers[c].pc.Returned?
    ensures CanStep(s, c)
  {
    var step := match s.callers[c].pc
      case ReadingCache => ReadCache(c)
      case ReadingGeneration => ReadGeneration(c)
      case Joining(_) => Join(c)
      case Rechecking(_) => Recheck(c)
      case Snapshotting(_) => Snapshot(c)
      case Fetching(_, _) => FetchOk(c, [])
      case Publishing(_, _) => Publish(c)
      case Leaving(_, _) => Leave(c)
      case _ => Decide(c);
    assert Enabled(s, step) && MovesCaller(step, c);
  }

  /** Work is bounded: a caller takes at most two rounds, and every step of its own moves it forward. */
  function Progress(caller: Caller): nat {
    var left := if caller.attempt == 1 then 10 else 0;
    match caller.pc
    case ReadingCache => left + 9
    case ReadingGeneration => left + 8
    case Joining(_) => left + 7
    case Waiting(_) => left + 2
    case Rechecking(_) => left + 6
    case Snapshotting(_) => left + 5
    case Fetching(_, _) => left + 4
    case Publishing(_, _) => left + 3
    case Leaving(_, _) => left + 2
    case Received(_) => left + 1
    case Returned(_) => 0
  }

  /** Nobody else moves a caller back: others only cancel its context or wake it. */
  lemma OthersProgress(s: State, step: Step, c: nat)
    requires Inv(s) && Enabled(s, step) && c < |s.callers|
    requires !MovesCaller(step, c) && !(step.FetchFailed? && step.c == c)
    ensures c < |After(s, step).callers|
    ensures Progress(After(s, step).callers[c]) <= Progress(s.callers[c])
  {
    if step.Leave? {
      assert After(s, step).callers[c] == s.callers[c] || s.callers[c].pc.Waiting?;
    }
  }

  lemma LeadingProgresses(s: State, step: Step)
    requires Inv(s) && Enabled(s, step)
    requires step.Recheck? || step.Snapshot? || step.FetchOk? || step.FetchFailed? || step.Publish? || step.Leave?
    ensures step.c < |s.callers| == |After(s, step).callers|
    ensures Progress(After(s, step).callers[step.c]) < Progress(s.callers[step.c])
  {
  }

  lemma OwnStepProgresses(s: State, step: Step)
    requires Inv(s) && Enabled(s, step)
    requires step.ReadCache? || step.ReadGeneration? || step.Join? || step.Decide?
    ensures step.c < |s.callers| == |After(s, step).callers|
    ensures Progress(After(s, step).callers[step.c]) < Progress(s.callers[step.c])
  {
    assert CallerOk(s, step.c);
  }

  lemma EveryStepProgresses(s: State, step: Step, c: nat)
    requires Inv(s) && Enabled(s, step) && c < |s.callers|
    ensures c < |After(s, step).callers|
    ensures Progress(After(s, step).callers[c]) <= Progress(s.callers[c])
    ensures MovesCaller(step, c) || (step.FetchFailed? && step.c == c) ==>
      Progress(After(s, step).callers[c]) < Progress(s.callers[c])
  {
    if MovesCaller(step, c) || (step.FetchFailed? && step.c == c) {
      if step.ReadCache? || step.ReadGeneration? || step.Join? || step.Decide? {
        OwnStepProgresses(s, step);
      } else {
        LeadingProgresses(s, step);
      }
    } else {
      OthersProgress(s, step, c);
    }
  }
}
