/** What the callers of the accounts cache share: one list for each generation, fetched once. */
module AccountsSharing {
  import opened Wrappers
  import opened AccountsProvider
  import opened AccountsCache

  /** The caller has this reply: it is about to pass it on, has received it, or has returned it. */
  predicate Has(pc: Pc, reply: Reply) {
    pc == Received(reply) || pc == Returned(reply) || (pc.Leaving? && pc.reply == reply)
  }

  predicate HasList(s: State, c: nat, l: Listing) {
    c < |s.callers| && Has(s.callers[c].pc, Fetched(l))
  }

  // ---- One list for each generation -------------------------------------------------------

  ghost predicate Agree(s: State) {
    forall c: nat, d: nat, k: Listing, l: Listing ::
      HasList(s, c, k) && HasList(s, d, l) && k.gen == l.gen ==> k == l
  }

  /** A list that a step gives to a caller is one that some caller had, or the one in the cache then. */
  lemma ListCameFrom(s: State, step: Step, c: nat, l: Listing)
    requires Inv(s) && Enabled(s, step) && HasList(After(s, step), c, l)
    ensures (exists d :: HasList(s, d, l)) || After(s, step).shared.cache == Some(l)
  {
    var t := After(s, step);
    if !HasList(s, c, l) && t.shared.cache != Some(l) {
      assert step.Leave? || step.Decide?;
      assert HasList(s, step.c, l);
    }
  }

  lemma PairAgrees(s: State, step: Step, c: nat, d: nat, k: Listing, l: Listing)
    requires Inv(s) && Agree(s) && Enabled(s, step) && Inv(After(s, step)) && k.gen == l.gen
    requires HasList(After(s, step), c, k) && HasList(After(s, step), d, l)
    ensures k == l
  {
    var t := After(s, step);
    assert CallerOk(t, c) && CallerOk(t, d);
    if k.gen != t.shared.gen {
      ListCameFrom(s, step, c, k);
      ListCameFrom(s, step, d, l);
    }
  }

  lemma StepAgrees(s: State, step: Step)
    requires Inv(s) && Agree(s) && Enabled(s, step)
    ensures Agree(After(s, step))
  {
    StepKeeps(s, step);
    forall c: nat, d: nat, k: Listing, l: Listing
      | HasList(After(s, step), c, k) && HasList(After(s, step), d, l) && k.gen == l.gen
      ensures k == l
    {
      PairAgrees(s, step, c, d, k, l);
    }
  }

  lemma {:induction false} RunsAgree(s: State, steps: seq<Step>)
    requires Inv(s) && Agree(s) && Runs(s, steps)
    ensures Agree(Final(s, steps))
    decreases |steps|
  {
    if steps != [] {
      StepKeeps(s, steps[0]);
      StepAgrees(s, steps[0]);
      RunsAgree(After(s, steps[0]), steps[1..]);
    }
  }

  /** Over every interleaving all callers that were given a list of one generation were given the
      same list, and one of the generation in force is the list in the cache. */
  lemma OneListPerGeneration(cred: int, client: int, steps: seq<Step>, c: nat, d: nat, k: Listing, l: Listing)
    requires Runs(Initial(cred, client), steps)
    requires HasList(Final(Initial(cred, client), steps), c, k) && HasList(Final(Initial(cred, client), steps), d, l)
    ensures k.gen == l.gen ==> k == l
    ensures var shared := Final(Initial(cred, client), steps).shared;
      k.gen == shared.gen ==> shared.cache == Some(k)
  {
    RunsKeepInv(Initial(cred, client), steps);
    RunsAgree(Initial(cred, client), steps);
    assert CallerOk(Final(Initial(cred, client), steps), c);
  }

  // ---- Fetched once -----------------------------------------------------------------------

  predicate Swaps(step: Step) {
    step.SetCredential? || step.SetClient? || step.Invalidate?
  }

  lemma CacheStays(s: State, step: Step)
    requires Inv(s) && Enabled(s, step) && !Swaps(step) && s.shared.cache.Some?
    ensures After(s, step).shared == s.shared
  {
    if step.Publish? {
      assert CallerOk(s, step.c);
    }
  }

  lemma {:induction false} CacheStaysOver(s: State, steps: seq<Step>)
    requires Inv(s) && s.shared.cache.Some? && Runs(s, steps)
    requires forall i :: 0 <= i < |steps| ==> !Swaps(steps[i])
    ensures Inv(Final(s, steps)) && Final(s, steps).shared == s.shared
    decreases |steps|
  {
    if steps != [] {
      StepKeeps(s, steps[0]);
      CacheStays(s, steps[0]);
      CacheStaysOver(After(s, steps[0]), steps[1..]);
    }
  }

  /** Whoever reads the cache gets this list, a leader that rechecks it too, and no leader may fill
      the cache of the generation in force again. */
  predicate Serves(t: State, d: nat, l: Listing) {
    && t.shared.cache == Some(l)
    && (Enabled(t, ReadCache(d)) ==> After(t, ReadCache(d)).callers[d].pc == Returned(Fetched(l)))
    && (Enabled(t, Recheck(d)) ==> Has(After(t, Recheck(d)).callers[d].pc, Fetched(l)))
    && (d < |t.callers| && t.callers[d].pc.Publishing? ==> t.callers[d].pc.flight < t.shared.gen)
  }

  lemma CachedIsServed(t: State, d: nat, l: Listing)
    requires Inv(t) && t.shared.cache == Some(l)
    ensures Serves(t, d, l)
  {
    if d < |t.callers| {
      assert CallerOk(t, d);
    }
  }

  lemma ServedUntilSwap(s: State, c: nat, l: Listing, rest: seq<Step>, d: nat)
    requires Inv(s) && HasList(s, c, l) && l.gen == s.shared.gen
    requires Runs(s, rest) && forall i :: 0 <= i < |rest| ==> !Swaps(rest[i])
    ensures Serves(Final(s, rest), d, l)
  {
    assert CallerOk(s, c);
    CacheStaysOver(s, rest);
    CachedIsServed(Final(s, rest), d, l);
  }

  /** Once a caller has a list of the generation in force, and until the next swap, every caller that
      reads the cache returns that list without fetching, and no leader fetches again. */
  lemma LaterCallersAreServed(cred: int, client: int, before: seq<Step>, c: nat, l: Listing, rest: seq<Step>, d: nat)
    requires Runs(Initial(cred, client), before)
    requires var s := Final(Initial(cred, client), before);
      && HasList(s, c, l) && l.gen == s.shared.gen
      && Runs(s, rest) && forall i :: 0 <= i < |rest| ==> !Swaps(rest[i])
    ensures Serves(Final(Final(Initial(cred, client), before), rest), d, l)
  {
    RunsKeepInv(Initial(cred, client), before);
    ServedUntilSwap(Final(Initial(cred, client), before), c, l, rest, d);
  }

  // ---- Where a reply comes from -----------------------------------------------------------

  /** What may become of a fetch: a list, a failure by a canceled context, another failure, or a
      publication that comes too late. */
  datatype Source = Listed(accounts: seq<Account>) | Canceled | Failed | Late

  function SourcesOf(step: Step): set<Source> {
    match step
    case FetchOk(_, accounts) => {Listed(accounts)}
    case FetchFailed(_, byContext) => if byContext then {Canceled} else {Failed}
    case Publish(_) => {Late}
    case _ => {}
  }

  predicate ComesFrom(reply: Reply, sources: set<Source>) {
    match reply
    case Fetched(l) => Listed(l.accounts) in sources
    case ContextError => Canceled in sources
    case OtherError => Failed in sources || Late in sources
  }

  /** Every reply anyone has, and every list about to be published, comes from one of these. */
  ghost predicate Sourced(s: State, sources: set<Source>) {
    && (s.shared.cache.Some? ==> Listed(s.shared.cache.value.accounts) in sources)
    && forall c :: 0 <= c < |s.callers| ==> SourcedAt(s.callers[c].pc, sources)
  }

  predicate SourcedAt(pc: Pc, sources: set<Source>) {
    match pc
    case Publishing(_, l) => Listed(l.accounts) in sources
    case Leaving(_, reply) => ComesFrom(reply, sources)
    case Received(reply) => ComesFrom(reply, sources)
    case Returned(reply) => ComesFrom(reply, sources)
    case _ => true
  }

  lemma MoreSources(pc: Pc, sources: set<Source>, more: set<Source>)
    requires SourcedAt(pc, sources) && sources <= more
    ensures SourcedAt(pc, more)
  {
  }

  /** What a step leaves a caller with comes from what was there or from the step. */
  lemma CallerIsSourced(s: State, step: Step, sources: set<Source>, c: nat)
    requires Enabled(s, step) && Sourced(s, sources) && c < |s.callers| <= |After(s, step).callers|
    ensures SourcedAt(After(s, step).callers[c].pc, sources + SourcesOf(step))
  {
    var t, more := After(s, step), sources + SourcesOf(step);
    assert SourcedAt(s.callers[c].pc, sources);
    MoreSources(s.callers[c].pc, sources, more);
    if step.Leave? {
      assert SourcedAt(s.callers[step.c].pc, sources);
      MoreSources(s.callers[step.c].pc, sources, more);
    }
  }

  lemma StepIsSourced(s: State, step: Step, sources: set<Source>)
    requires Enabled(s, step) && Sourced(s, sources)
    ensures Sourced(After(s, step), sources + SourcesOf(step))
  {
    var t, more := After(s, step), sources + SourcesOf(step);
    assert |s.callers| <= |t.callers|;
    forall c | 0 <= c < |t.callers| ensures SourcedAt(t.callers[c].pc, more) {
      if c < |s.callers| {
        CallerIsSourced(s, step, sources, c);
      }
    }
    if step.Publish? {
      assert SourcedAt(s.callers[step.c].pc, sources);
    }
  }

  /** The sources of all steps of a run. */
  function SourcesIn(steps: seq<Step>): set<Source> {
    if steps == [] then {} else SourcesOf(steps[0]) + SourcesIn(steps[1..])
  }

  lemma {:induction false} RunsAreSourced(s: State, steps: seq<Step>, sources: set<Source>)
    requires Runs(s, steps) && Sourced(s, sources)
    ensures Sourced(Final(s, steps), sources + SourcesIn(steps))
    decreases |steps|
  {
    if steps == [] {
      assert sources + SourcesIn(steps) == sources;
    } else {
      StepIsSourced(s, steps[0], sources);
      RunsAreSourced(After(s, steps[0]), steps[1..], sources + SourcesOf(steps[0]));
      assert sources + SourcesOf(steps[0]) + SourcesIn(steps[1..]) == sources + SourcesIn(steps);
    }
  }

  lemma {:induction false} SourceStep(steps: seq<Step>, source: Source) returns (i: nat)
    requires source in SourcesIn(steps)
    ensures i < |steps| && source in SourcesOf(steps[i])
  {
    if source in SourcesOf(steps[0]) {
      i := 0;
    } else {
      var k := SourceStep(steps[1..], source);
      i := k + 1;
    }
  }

  /** A list that a caller has was delivered by some fetch of the run; an error of a context by a fetch
      that failed by one; and any other error by another failure or a publication. */
  lemma RepliesHaveSources(cred: int, client: int, steps: seq<Step>, c: nat, reply: Reply) returns (i: nat)
    requires Runs(Initial(cred, client), steps)
    requires c < |Final(Initial(cred, client), steps).callers|
    requires Has(Final(Initial(cred, client), steps).callers[c].pc, reply)
    ensures i < |steps|
    ensures match reply
      case Fetched(l) => steps[i].FetchOk? && steps[i].accounts == l.accounts
      case ContextError => steps[i].FetchFailed? && steps[i].byContext
      case OtherError => steps[i].Publish? || (steps[i].FetchFailed? && !steps[i].byContext)
  {
    RunsAreSourced(Initial(cred, client), steps, {});
    var sources := {} + SourcesIn(steps);
    assert SourcedAt(Final(Initial(cred, client), steps).callers[c].pc, sources);
    i := SourceStep(steps, match reply
                           case Fetched(l) => Listed(l.accounts)
                           case ContextError => Canceled
                           case OtherError => if Failed in sources then Failed else Late);
  }

  // ---- Retrying ---------------------------------------------------------------------------

  /** A caller tries again exactly when it inherited a context error while its own context is live
      and this was its first attempt; otherwise it returns what it received. */
  lemma RetriesForOthersOnly(s: State, c: nat)
    requires Enabled(s, Decide(c))
    ensures var caller, after := s.callers[c], After(s, Decide(c)).callers[c];
      after == if caller.pc == Received(ContextError) && caller.live && caller.attempt == 1
               then caller.(pc := ReadingGeneration, attempt := 2)
               else caller.(pc := Returned(caller.pc.reply))
  {
  }
}
