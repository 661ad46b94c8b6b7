/** Any number of exchange runs interleaving on one shared ledger and one cloud. */
module ExchangeLedger {
  import opened Wrappers
  import opened ExchangeMoney
  import opened ExchangeProtocol

  /** A ledger record; its position is its identifier. Amounts are micro-dollars. */
  datatype Record =
    | Processing(ceiling: int)
    | Completed(ceiling: int, paid: int)
    | Failed(ceiling: int)

  /** What a record counts against the daily cap: its ceiling until settled, then its payment. */
  function Counted(r: Record): int {
    match r
    case Processing(c) => c
    case Completed(_, paid) => paid
    case Failed(_) => 0
  }

  function Used(records: seq<Record>): int {
    if records == [] then 0 else Used(records[..|records| - 1]) + Counted(records[|records| - 1])
  }

  /** The ledger, the money the cloud really moved per record, and where each run stands. */
  datatype System = System(records: seq<Record>, moved: map<nat, real>, runs: seq<Phase>)

  /** The store's reservation: atomically within both caps, at a six-decimal ceiling. */
  predicate Reserved(before: seq<Record>, after: seq<Record>, dailyCap: int, perExchangeCap: int, ceiling: int) {
    && 0 <= ceiling <= perExchangeCap
    && Used(before) + ceiling <= dailyCap
    && after == before + [Processing(ceiling)]
  }

  /** A reservation took place, at the ceiling the reply tells if it tells one. */
  ghost predicate ReservedSome(before: seq<Record>, after: seq<Record>, dailyCap: int, perExchangeCap: int,
                               told: Option<real>)
  {
    exists c :: Reserved(before, after, dailyCap, perExchangeCap, c) && (told.Some? ==> told.value == Dollars(c))
  }

  /** Ledger effect of one event; a lost reply may hide an applied write. */
  ghost predicate Effect(before: seq<Record>, was: map<nat, real>, e: Event, records: seq<Record>,
                         moved: map<nat, real>)
  {
    match e
    case CancelPending(_) => records == before && moved == was
    case SavePending(_) => records == before && moved == was
    case SaveFailed(_) => records == before && moved == was
    case Reserve(daily, per, ReserveError) =>
      moved == was && (records == before || ReservedSome(before, records, daily, per, None))
    case Reserve(daily, per, ReserveOk(id, ceiling)) =>
      && moved == was
      && (id.Some? ==> id.value == |before|)
      && ReservedSome(before, records, daily, per, ceiling)
    case Accept(payment, reply) => records == before
    case Complete(id, paid, ok) =>
      && moved == was && id < |before|
      && (records == before[id := Completed(before[id].ceiling, paid)] || (!ok && records == before))
    case Fail(id, ok) =>
      && moved == was && id < |before|
      && (records == before[id := Failed(before[id].ceiling)] || (!ok && records == before))
  }

  /** What an accept really does: an executed one moves the quoted payment, a definitely rejected
      one moves nothing, and an unknown one may have done either. */
  ghost predicate Moves(was: map<nat, real>, p: Phase, e: Event, moved: map<nat, real>) {
    e.Accept? && p.Holding? ==>
      match OutcomeOf(e.reply)
      case Executed(_) => moved == was[p.id := e.payment]
      case Rejected => moved == was
      case Unknown => moved == was || moved == was[p.id := e.payment]
  }

  /** One run makes one move its protocol allows, with caps no larger than the given ones. */
  ghost predicate Next(s: System, t: System, dailyCap: int, r: nat, e: Event) {
    && r < |s.runs|
    && Advance(s.runs[r], e).Some?
    && t.runs == s.runs[r := Advance(s.runs[r], e).value]
    && (e.Reserve? ==> e.dailyCap <= dailyCap)
    && Effect(s.records, s.moved, e, t.records, t.moved)
    && Moves(s.moved, s.runs[r], e, t.moved)
  }

  // ---- The invariant ----------------------------------------------------------------------

  function HeldBy(p: Phase): Option<nat> {
    match p
    case Holding(id, _) => Some(id)
    case Unusable(id) => Some(id)
    case Paid(id, _, _, _) => Some(id)
    case _ => None
  }

  /** A run's own view of the record it holds agrees with the ledger. */
  ghost predicate RunAgrees(s: System, p: Phase) {
    match p
    case Idle => true
    case Halted(_) => true
    case Unusable(id) => id < |s.records| && s.records[id].Processing? && id !in s.moved
    case Holding(id, ceiling) =>
      id < |s.records| && s.records[id].Processing? && ceiling == Dollars(s.records[id].ceiling) && id !in s.moved
    case Paid(id, ceiling, paid, _) =>
      && id < |s.records| && ceiling == Dollars(s.records[id].ceiling)
      && (s.records[id].Processing? || s.records[id] == Completed(s.records[id].ceiling, paid))
      && id in s.moved && s.moved[id] <= ceiling && paid == RoundMicros(s.moved[id])
  }

  /** The ledger tells the truth about money: a settled record holds the rounded payment, an open
      one covers whatever moved, and a failed one moved nothing. */
  ghost predicate RecordAgrees(s: System, id: nat)
    requires id < |s.records|
  {
    match s.records[id]
    case Processing(c) => 0 <= c && (id in s.moved ==> s.moved[id] <= Dollars(c))
    case Completed(c, paid) => 0 <= c && id in s.moved && s.moved[id] <= Dollars(c) && paid == RoundMicros(s.moved[id])
    case Failed(c) => id !in s.moved
  }

  ghost predicate Consistent(s: System) {
    && (forall id :: 0 <= id < |s.records| ==> RecordAgrees(s, id))
    && (forall id :: id in s.moved ==> id < |s.records|)
    && (forall r :: 0 <= r < |s.runs| ==> RunAgrees(s, s.runs[r]))
    && DistinctHolders(s.runs)
  }

  predicate DistinctHolders(runs: seq<Phase>) {
    forall r, q :: 0 <= r < q < |runs| ==> HeldBy(runs[r]).Some? ==> HeldBy(runs[r]) != HeldBy(runs[q])
  }

  ghost predicate WithinCap(s: System, dailyCap: int) {
    Consistent(s) && Used(s.records) <= dailyCap
  }

  lemma {:induction false} UsedUpdate(records: seq<Record>, id: nat, r: Record)
    requires id < |records|
    ensures Used(records[id := r]) == Used(records) - Counted(records[id]) + Counted(r)
  {
    var last := |records| - 1;
    if id < last {
      UsedUpdate(records[..last], id, r);
      assert records[id := r][..last] == records[..last][id := r];
    } else {
      assert records[id := r][..last] == records[..last];
    }
  }

  lemma UsedAppend(records: seq<Record>, r: Record)
    ensures Used(records + [r]) == Used(records) + Counted(r)
  {
    assert (records + [r])[..|records|] == records;
  }

  /** A run that does not hold a record is not affected by what happens to it. */
  lemma OthersAgree(s: System, t: System, r: nat, id: nat)
    requires Consistent(s) && r < |s.runs| && HeldBy(s.runs[r]) == Some(id) && id < |s.records|
    requires |t.records| >= |s.records|
    requires forall k :: 0 <= k < |s.records| && k != id ==> t.records[k] == s.records[k]
    requires forall k :: k != id ==> (k in t.moved <==> k in s.moved) && (k in s.moved ==> t.moved[k] == s.moved[k])
    ensures forall q :: 0 <= q < |s.runs| && q != r ==> RunAgrees(t, s.runs[q])
  {
    forall q | 0 <= q < |s.runs| && q != r ensures RunAgrees(t, s.runs[q]) {
      assert RunAgrees(s, s.runs[q]);
      assert HeldBy(s.runs[q]) != Some(id);
    }
  }

  // ---- Steps keep it ----------------------------------------------------------------------

  /** Distinct runs keep holding distinct records when one run moves on. */
  lemma HoldersStayDistinct(s: System, r: nat, p: Phase)
    requires Consistent(s) && r < |s.runs|
    requires HeldBy(p).Some? ==> forall q :: 0 <= q < |s.runs| && q != r ==> HeldBy(s.runs[q]) != HeldBy(p)
    ensures DistinctHolders(s.runs[r := p])
  {
  }

  /** The record a run holds is held by no other run. */
  lemma SoleHolder(s: System, r: nat, id: nat)
    requires Consistent(s) && r < |s.runs| && HeldBy(s.runs[r]) == Some(id)
    ensures forall q :: 0 <= q < |s.runs| && q != r ==> HeldBy(s.runs[q]) != Some(id)
  {
    forall q | 0 <= q < |s.runs| && q != r ensures HeldBy(s.runs[q]) != Some(id) {
      if q < r {
        assert HeldBy(s.runs[q]).Some? ==> HeldBy(s.runs[q]) != HeldBy(s.runs[r]);
      }
    }
  }

  lemma OthersAgreeAfter(s: System, t: System, r: nat, p: Phase)
    requires r < |s.runs| && t.runs == s.runs[r := p] && RunAgrees(t, p)
    requires forall q :: 0 <= q < |s.runs| && q != r ==> RunAgrees(t, s.runs[q])
    ensures forall q :: 0 <= q < |t.runs| ==> RunAgrees(t, t.runs[q])
  {
  }

  /** A reservation appends a record nobody holds and no money has moved for. */
  lemma ReserveKeeps(s: System, t: System, dailyCap: int, r: nat, e: Event)
    requires WithinCap(s, dailyCap) && Next(s, t, dailyCap, r, e) && e.Reserve?
    ensures WithinCap(t, dailyCap)
  {
    if t.records == s.records {
      NothingReserved(s, t, dailyCap, r, e);
    } else {
      var told := if e.reserved.ReserveOk? then e.reserved.ceiling else None;
      assert ReservedSome(s.records, t.records, e.dailyCap, e.perExchangeCap, told);
      var c :| Reserved(s.records, t.records, e.dailyCap, e.perExchangeCap, c)
               && (told.Some? ==> told.value == Dollars(c));
      SomethingReserved(s, t, dailyCap, r, e, c);
    }
  }

  lemma SomethingReserved(s: System, t: System, dailyCap: int, r: nat, e: Event, c: int)
    requires WithinCap(s, dailyCap) && Next(s, t, dailyCap, r, e) && e.Reserve?
    requires Reserved(s.records, t.records, e.dailyCap, e.perExchangeCap, c)
    requires e.reserved.ReserveOk? && e.reserved.ceiling.Some? ==> e.reserved.ceiling.value == Dollars(c)
    ensures WithinCap(t, dailyCap)
  {
    UsedAppend(s.records, Processing(c));
    NewRecordKeeps(s, t, r, Advance(s.runs[r], e).value, c);
  }

  /** A reservation that failed without a trace leaves its run idle. */
  lemma NothingReserved(s: System, t: System, dailyCap: int, r: nat, e: Event)
    requires WithinCap(s, dailyCap) && Next(s, t, dailyCap, r, e) && e.Reserve? && t.records == s.records
    ensures WithinCap(t, dailyCap)
  {
    assert t.runs == s.runs[r := Idle];
    RunsStillAgree(s, t);
    RecordsStillAgree(s, t);
    HoldersStayDistinct(s, r, Idle);
    OthersAgreeAfter(s, t, r, Idle);
  }

  /** A new record is held by nobody but the run that reserved it, if that run knows of it. */
  lemma NewRecordKeeps(s: System, t: System, r: nat, p: Phase, c: int)
    requires Consistent(s) && r < |s.runs| && t.runs == s.runs[r := p]
    requires t.records == s.records + [Processing(c)] && t.moved == s.moved && 0 <= c
    requires RunAgrees(t, p) && (HeldBy(p).Some? ==> HeldBy(p) == Some(|s.records|))
    ensures Consistent(t)
  {
    RunsStillAgree(s, t);
    RecordsStillAgree(s, t);
    assert RecordAgrees(t, |s.records|);
    forall q | 0 <= q < |s.runs| ensures HeldBy(s.runs[q]) != Some(|s.records|) {
      assert RunAgrees(s, s.runs[q]);
    }
    HoldersStayDistinct(s, r, p);
    OthersAgreeAfter(s, t, r, p);
  }

  /** Views of records that stay as they are stay right. */
  lemma RunsStillAgree(s: System, t: System)
    requires Consistent(s) && s.records <= t.records && t.moved == s.moved
    ensures forall q :: 0 <= q < |s.runs| ==> RunAgrees(t, s.runs[q])
  {
    forall q | 0 <= q < |s.runs| ensures RunAgrees(t, s.runs[q]) {
      assert RunAgrees(s, s.runs[q]);
    }
  }

  lemma RecordsStillAgree(s: System, t: System)
    requires Consistent(s) && s.records <= t.records && t.moved == s.moved
    ensures forall id :: 0 <= id < |s.records| ==> RecordAgrees(t, id)
  {
    forall id | 0 <= id < |s.records| ensures RecordAgrees(t, id) {
      assert RecordAgrees(s, id);
    }
  }

  /** One record, held by the moving run, changes; everything else stays. */
  lemma OneRecordChanges(s: System, t: System, r: nat, id: nat, p: Phase)
    requires Consistent(s) && r < |s.runs| && HeldBy(s.runs[r]) == Some(id) && id < |s.records| == |t.records|
    requires t.runs == s.runs[r := p] && (HeldBy(p).Some? ==> HeldBy(p) == Some(id))
    requires forall k :: 0 <= k < |s.records| && k != id ==> t.records[k] == s.records[k]
    requires forall k :: k != id ==> (k in t.moved <==> k in s.moved) && (k in s.moved ==> t.moved[k] == s.moved[k])
    requires RunAgrees(t, p) && RecordAgrees(t, id)
    ensures Consistent(t)
  {
    OthersAgree(s, t, r, id);
    OthersAgreeAfter(s, t, r, p);
    SoleHolder(s, r, id);
    HoldersStayDistinct(s, r, p);
    forall k | 0 <= k < |t.records| ensures RecordAgrees(t, k) {
      assert RecordAgrees(s, k);
    }
  }

  /** Money moves only within the ceiling of the record held for it. */
  lemma AcceptKeeps(s: System, t: System, dailyCap: int, r: nat, e: Event)
    requires WithinCap(s, dailyCap) && Next(s, t, dailyCap, r, e) && e.Accept?
    ensures WithinCap(t, dailyCap)
  {
    var id := s.runs[r].id;
    assert RunAgrees(s, s.runs[r]) && RecordAgrees(s, id);
    OneRecordChanges(s, t, r, id, Advance(s.runs[r], e).value);
  }

  /** Settling replaces a ceiling by a rounded payment that is no larger. */
  lemma CompleteKeeps(s: System, t: System, dailyCap: int, r: nat, e: Event)
    requires WithinCap(s, dailyCap) && Next(s, t, dailyCap, r, e) && e.Complete?
    ensures WithinCap(t, dailyCap)
  {
    var id := e.id;
    assert RunAgrees(s, s.runs[r]) && RecordAgrees(s, id);
    RoundedWithinCeiling(s.moved[id], s.records[id].ceiling);
    UsedUpdate(s.records, id, Completed(s.records[id].ceiling, e.paid));
    OneRecordChanges(s, t, r, id, Advance(s.runs[r], e).value);
  }

  /** Failing frees a ceiling only when nothing moved. */
  lemma FailKeeps(s: System, t: System, dailyCap: int, r: nat, e: Event)
    requires WithinCap(s, dailyCap) && Next(s, t, dailyCap, r, e) && e.Fail?
    ensures WithinCap(t, dailyCap)
  {
    var id := e.id;
    assert RunAgrees(s, s.runs[r]) && RecordAgrees(s, id);
    UsedUpdate(s.records, id, Failed(s.records[id].ceiling));
    OneRecordChanges(s, t, r, id, Advance(s.runs[r], e).value);
  }

  lemma BookkeepingKeeps(s: System, t: System, dailyCap: int, r: nat, e: Event)
    requires WithinCap(s, dailyCap) && Next(s, t, dailyCap, r, e)
    requires e.CancelPending? || e.SavePending? || e.SaveFailed?
    ensures WithinCap(t, dailyCap)
  {
    RunsStillAgree(s, t);
    RecordsStillAgree(s, t);
    HoldersStayDistinct(s, r, Idle);
    OthersAgreeAfter(s, t, r, Idle);
  }

  lemma NextKeeps(s: System, t: System, dailyCap: int, r: nat, e: Event)
    requires WithinCap(s, dailyCap) && Next(s, t, dailyCap, r, e)
    ensures WithinCap(t, dailyCap)
  {
    match e
    case Reserve(_, _, _) => ReserveKeeps(s, t, dailyCap, r, e);
    case Accept(_, _) => AcceptKeeps(s, t, dailyCap, r, e);
    case Complete(_, _, _) => CompleteKeeps(s, t, dailyCap, r, e);
    case Fail(_, _) => FailKeeps(s, t, dailyCap, r, e);
    case CancelPending(_) => BookkeepingKeeps(s, t, dailyCap, r, e);
    case SavePending(_) => BookkeepingKeeps(s, t, dailyCap, r, e);
    case SaveFailed(_) => BookkeepingKeeps(s, t, dailyCap, r, e);
  }

  // ---- Whole executions -------------------------------------------------------------------

  /** A day on the ledger: it starts empty with idle runs, and every state follows from the last. */
  ghost predicate Day(states: seq<System>, dailyCap: int) {
    && states != []
    && states[0].records == [] && states[0].moved == map[]
    && (forall r :: 0 <= r < |states[0].runs| ==> states[0].runs[r] == Idle)
    && forall i :: 0 <= i < |states| - 1 ==> Follows(states[i], states[i + 1], dailyCap)
  }

  ghost predicate Follows(s: System, t: System, dailyCap: int) {
    exists r: nat, e :: Next(s, t, dailyCap, r, e)
  }

  /** Settled payments plus the ceilings still reserved never exceed the daily cap, whatever
      interleaving of runs, lost replies and unknown outcomes. */
  lemma {:induction false} SpendStaysWithinCap(states: seq<System>, dailyCap: int, n: nat)
    requires Day(states, dailyCap) && 0 <= dailyCap && n < |states|
    ensures WithinCap(states[n], dailyCap)
  {
    if n > 0 {
      SpendStaysWithinCap(states, dailyCap, n - 1);
      assert Follows(states[n - 1], states[n], dailyCap);
      var r: nat, e :| Next(states[n - 1], states[n], dailyCap, r, e);
      NextKeeps(states[n - 1], states[n], dailyCap, r, e);
    }
  }

  /** Micro-dollars the cloud really moved for the first n records. */
  ghost function MovedMicros(s: System, n: nat): real {
    if n == 0 then 0.0 else MovedMicros(s, n - 1) + (if n - 1 in s.moved then s.moved[n - 1] * SCALE else 0.0)
  }

  lemma {:induction false} MovedIsCounted(s: System, n: nat)
    requires Consistent(s) && n <= |s.records|
    ensures MovedMicros(s, n) <= Used(s.records[..n]) as real + 0.5 * n as real
  {
    if n > 0 {
      MovedIsCounted(s, n - 1);
      assert s.records[..n][..n - 1] == s.records[..n - 1];
      var id := n - 1;
      assert RecordAgrees(s, id);
      if id in s.moved {
        RoundingError(s.moved[id]);
        var c := s.records[id].ceiling;
        assert s.moved[id] <= Dollars(c) ==> s.moved[id] * SCALE <= c as real;
      }
    }
  }

  /** The money really moved in a day stays within the dollar cap of the runs, up to the half
      micro-dollar each settled record was rounded by. */
  lemma MoneyStaysWithinCap(states: seq<System>, limit: real, n: nat)
    requires 0.0 <= limit && Day(states, FloorMicros(limit)) && n < |states|
    ensures var s := states[n];
      MovedMicros(s, |s.records|) <= limit * SCALE + 0.5 * |s.records| as real
  {
    var s := states[n];
    SpendStaysWithinCap(states, FloorMicros(limit), n);
    MovedIsCounted(s, |s.records|);
    assert s.records[..|s.records|] == s.records;
    FloorIsGreatest(limit, FloorMicros(limit));
  }

  /** A failed record never moved money, and money that moved is never left out of the ledger. */
  lemma FailedMeansUnmoved(states: seq<System>, dailyCap: int, n: nat, id: nat)
    requires Day(states, dailyCap) && 0 <= dailyCap && n < |states|
    ensures id in states[n].moved ==> id < |states[n].records| && !states[n].records[id].Failed?
  {
    SpendStaysWithinCap(states, dailyCap, n);
    if id in states[n].moved {
      assert RecordAgrees(states[n], id);
    }
  }
}
