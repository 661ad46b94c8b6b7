/** The automated exchange run: quote, reserve, re-quote, accept, settle or halt. */
module ExchangeRun {
  import opened Wrappers
  import opened ExchangeMoney
  import opened ExchangeProtocol

  datatype Quote = Quote(valid: bool, paymentDue: Option<real>, currency: string)

  /** The store and the cloud, which may answer anything; trace records what they were asked to do
      and what they answered. */
  class World {
    ghost var trace: seq<Event>

    constructor ()
      ensures trace == []
    {
      trace := [];
    }

    method CancelPendingByOrigin() returns (ok: bool)
      modifies this
      ensures trace == old(trace) + [CancelPending(ok)]
    {
      ok := *;
      trace := trace + [CancelPending(ok)];
    }

    method SavePendingRecord() returns (ok: bool)
      modifies this
      ensures trace == old(trace) + [SavePending(ok)]
    {
      ok := *;
      trace := trace + [SavePending(ok)];
    }

    method SaveFailedRecord() returns (ok: bool)
      modifies this
      ensures trace == old(trace) + [SaveFailed(ok)]
    {
      ok := *;
      trace := trace + [SaveFailed(ok)];
    }

    method ReserveExchange(dailyCap: int, perExchangeCap: int) returns (reply: ReserveReply)
      modifies this
      ensures trace == old(trace) + [Reserve(dailyCap, perExchangeCap, reply)]
    {
      reply := *;
      trace := trace + [Reserve(dailyCap, perExchangeCap, reply)];
    }

    method CompleteWithPayment(id: nat, paid: int) returns (ok: bool)
      modifies this
      ensures trace == old(trace) + [Complete(id, paid, ok)]
    {
      ok := *;
      trace := trace + [Complete(id, paid, ok)];
    }

    method FailExchange(id: nat) returns (ok: bool)
      modifies this
      ensures trace == old(trace) + [Fail(id, ok)]
    {
      ok := *;
      trace := trace + [Fail(id, ok)];
    }

    /** Accepts an exchange at the price last quoted. */
    method AcceptQuote(ghost payment: real) returns (reply: AcceptReply)
      modifies this
      ensures trace == old(trace) + [Accept(payment, reply)]
    {
      reply := *;
      trace := trace + [Accept(payment, reply)];
    }

    // Calls that only read.

    method AssertAccount() returns (ok: bool) {
      ok := *;
    }

    method GetQuote() returns (quote: Option<Quote>) {
      quote := *;
    }

    method LookupOffering() returns (found: bool) {
      found := *;
    }

    method GenerateToken() returns (ok: bool) {
      ok := *;
    }
  }

  // ---- The client -------------------------------------------------------------------------

  /** The payment of a quote that states one in US dollars. */
  function UsdPayment(q: Quote): Option<real> {
    if q.paymentDue.None? || q.currency != "USD" then None else q.paymentDue
  }

  /** The check made of each quote before money may move. */
  predicate PassesCheck(q: Quote, limit: real) {
    q.valid && UsdPayment(q).Some? && UsdPayment(q).value <= limit
  }

  datatype ExecuteResult = Done(exchangeId: string, paid: int) | Refused | Lost

  /** A valid exchange was quoted in US dollars, for an amount within the limit. */
  ghost predicate QuotedWithin(q: Option<Quote>, limit: real) {
    && q.Some? && q.value.valid
    && q.value.currency == "USD"
    && q.value.paymentDue.Some? && q.value.paymentDue.value <= limit
  }

  /** A limit is set, the account is the expected one, and both quotes are within the limit. */
  ghost predicate Approved(limit: Option<real>, account: bool, first: Option<Quote>, second: Option<Quote>) {
    limit.Some? && account && QuotedWithin(first, limit.value) && QuotedWithin(second, limit.value)
  }

  /** Quotes twice and accepts exactly when both quotes are within the limit, at the second one's price. */
  method Execute(w: World, limit: Option<real>)
    returns (r: ExecuteResult, ghost account: bool, ghost first: Option<Quote>, ghost second: Option<Quote>)
    modifies w
    ensures w.trace != old(w.trace) <==> Approved(limit, account, first, second)
    ensures w.trace == old(w.trace) ==> r == Refused
    ensures w.trace != old(w.trace) ==>
      && |w.trace| == |old(w.trace)| + 1 && w.trace[..|old(w.trace)|] == old(w.trace)
      && var e := w.trace[|old(w.trace)|];
      && e.Accept? && Some(e.payment) == second.value.paymentDue
      && r == (match OutcomeOf(e.reply)
               case Executed(id) => Done(id, RoundMicros(e.payment))
               case Rejected => Refused
               case Unknown => Lost)
  {
    r, account, first, second := Refused, false, None, None;
    if limit.None? {
      return;
    }
    var ok := w.AssertAccount();
    account := ok;
    if !ok {
      return;
    }
    var q := w.GetQuote();
    first := q;
    if q.None? || !PassesCheck(q.value, limit.value) {
      return;
    }
    var requote := w.GetQuote();
    second := requote;
    if requote.None? || !PassesCheck(requote.value, limit.value) {
      return;
    }
    var payment := UsdPayment(requote.value).value;
    var reply := w.AcceptQuote(payment);
    match OutcomeOf(reply) {
      case Executed(id) => r := Done(id, RoundMicros(payment));
      case Rejected => r := Refused;
      case Unknown => r := Lost;
    }
  }

  // ---- One recommendation -----------------------------------------------------------------

  datatype Mode = Auto | Manual | OtherMode

  datatype Rec = Rec(hasTarget: bool, hasMetadata: bool)

  datatype SkipReason = NoTarget | MissingMetadata | NoOffering | QuoteFailed | InvalidExchange | NoUsdAmount | OverCap

  datatype Skip = Skip(source: nat, reason: SkipReason)

  datatype Outcome = Outcome(source: nat, recordId: Option<nat>, exchangeId: string, payment: int,
                             failed: bool, outcomeUnknown: bool, simulated: bool)

  datatype Params = Params(mode: Mode, dryRun: bool, recs: seq<Rec>, perExchangeCap: real, dailyCap: real)

  /** Nothing was reserved between two points of a trace. */
  ghost predicate NoReserve(before: seq<Event>, now: seq<Event>) {
    && |before| <= |now|
    && forall i :: |before| <= i < |now| ==> !now[i].Reserve?
  }

  /** Every reservation asked for the floored caps of the run. */
  ghost predicate ReservesWithin(p: Params, before: seq<Event>, now: seq<Event>) {
    && |before| <= |now|
    && forall i :: |before| <= i < |now| && now[i].Reserve? ==>
         now[i].dailyCap == FloorMicros(p.dailyCap) && now[i].perExchangeCap == FloorMicros(p.perExchangeCap)
  }

  /** Retries a settlement up to the attempt limit; what it leaves behind is a settled record or a halt. */
  method CompleteLedgerRecord(w: World, id: nat, paid: int, ghost ceiling: real) returns (ok: bool)
    requires After(Idle, w.trace) == Some(Paid(id, ceiling, paid, 0))
    modifies w
    ensures old(w.trace) <= w.trace
    ensures After(Idle, w.trace) == Some(if ok then Idle else Halted(Some(id)))
    ensures w.trace != old(w.trace) && w.trace[|w.trace| - 1] == Complete(id, paid, ok)
    ensures Settled(w.trace) == if ok then Settled(old(w.trace)) + [Receipt(Some(id), paid)] else Settled(old(w.trace))
    ensures NoReserve(old(w.trace), w.trace)
  {
    var attempt := 1;
    ok := false;
    while attempt <= MAX_LEDGER_ATTEMPTS
      invariant 1 <= attempt <= MAX_LEDGER_ATTEMPTS + 1
      invariant old(w.trace) <= w.trace
      invariant After(Idle, w.trace) == Some(if attempt <= MAX_LEDGER_ATTEMPTS then Paid(id, ceiling, paid, attempt - 1)
                                             else Halted(Some(id)))
      invariant Settled(w.trace) == Settled(old(w.trace))
      invariant NoReserve(old(w.trace), w.trace)
      invariant attempt > 1 ==> w.trace != old(w.trace) && w.trace[|w.trace| - 1] == Complete(id, paid, false)
    {
      ghost var before := w.trace;
      ok := w.CompleteWithPayment(id, paid);
      AfterOne(Idle, before, Complete(id, paid, ok));
      MoreSettled(before, Complete(id, paid, ok));
      if ok {
        return true;
      }
      attempt := attempt + 1;
    }
    return false;
  }

  /** A record and the payment it was settled for. */
  datatype Receipt = Receipt(recordId: Option<nat>, paid: int)

  /** Settled payments in a trace, in order. */
  ghost function Settled(es: seq<Event>): seq<Receipt> {
    if es == [] then []
    else
      var rest, e := Settled(es[..|es| - 1]), es[|es| - 1];
      if e.Complete? && e.ok then rest + [Receipt(Some(e.id), e.paid)] else rest
  }

  lemma MoreSettled(es: seq<Event>, e: Event)
    ensures Settled(es + [e])
         == if e.Complete? && e.ok then Settled(es) + [Receipt(Some(e.id), e.paid)] else Settled(es)
  {
    assert (es + [e])[..|es|] == es;
  }

  function ReceiptOf(o: Outcome): Receipt {
    Receipt(o.recordId, o.payment)
  }

  /** The records and payments a list of outcomes reports. */
  function Receipts(os: seq<Outcome>): seq<Receipt> {
    seq(|os|, i requires 0 <= i < |os| => ReceiptOf(os[i]))
  }

  /** How one automatic exchange moved the run: it ends idle unless it says to halt, and it reports
      success exactly when its payment was settled. */
  ghost predicate AutoStep(before: seq<Event>, now: seq<Event>, o: Outcome, halt: bool) {
    && before <= now
    && After(Idle, now).Some? && (if halt then After(Idle, now).value.Halted? else After(Idle, now).value == Idle)
    && Settled(now) == (if o.failed then Settled(before) else Settled(before) + [ReceiptOf(o)])
    && (!o.failed ==> now != before && now[|now| - 1].Complete? && now[|now| - 1].ok
                      && o.recordId == Some(now[|now| - 1].id) && o.payment == now[|now| - 1].paid)
    && (o.outcomeUnknown ==> o.failed && halt)
    && (o.outcomeUnknown <==> now != before && now[|now| - 1].Accept? && OutcomeOf(now[|now| - 1].reply).Unknown?)
  }

  /** All that was asked of the store is to save one failed record. */
  ghost predicate FailureSaved(before: seq<Event>, now: seq<Event>) {
    |now| == |before| + 1 && before <= now && now[|before|].SaveFailed?
  }

  /** The amount of a payment text that parses. */
  function AmountOf(quoted: Option<int>): int {
    if quoted.Some? then quoted.value else 0
  }

  /** One exchange at the quoted amount, if its text parses. */
  method ProcessAutoExchange(w: World, p: Params, source: nat, quoted: Option<int>) returns (o: Outcome, halt: bool)
    requires After(Idle, w.trace) == Some(Idle)
    modifies w
    ensures p.dryRun ==>
      w.trace == old(w.trace) && !halt && o == Outcome(source, None, "", AmountOf(quoted), false, false, true)
    ensures !p.dryRun ==> AutoStep(old(w.trace), w.trace, o, halt) && !o.simulated
    ensures ReservesWithin(p, old(w.trace), w.trace)
    ensures !p.dryRun && quoted.Some? ==> |old(w.trace)| < |w.trace| && w.trace[|old(w.trace)|].Reserve?
    ensures !p.dryRun && quoted.None? ==> o.failed && FailureSaved(old(w.trace), w.trace)
    ensures o.source == source
  {
    o := Outcome(source, None, "", AmountOf(quoted), false, false, false);
    if p.dryRun {
      return o.(simulated := true), false;
    }
    if quoted.None? {
      o := RefuseMalformed(w, p, o);
      return o, false;
    }
    o, halt := ReserveAndExchange(w, p, o);
  }

  /** Reserves at the floored caps and goes on from there. */
  method ReserveAndExchange(w: World, p: Params, begun: Outcome) returns (o: Outcome, halt: bool)
    requires After(Idle, w.trace) == Some(Idle)
    requires begun.recordId.None? && !begun.failed && !begun.outcomeUnknown && !begun.simulated
    modifies w
    ensures AutoStep(old(w.trace), w.trace, o, halt)
    ensures ReservesWithin(p, old(w.trace), w.trace)
    ensures |old(w.trace)| < |w.trace| && w.trace[|old(w.trace)|].Reserve?
    ensures o.source == begun.source && !o.simulated
  {
    ghost var start := w.trace;
    var daily, per := FloorMicros(p.dailyCap), FloorMicros(p.perExchangeCap);
    var reply := w.ReserveExchange(daily, per);
    AfterOne(Idle, start, Reserve(daily, per, reply));
    MoreSettled(start, Reserve(daily, per, reply));
    ghost var reserved := w.trace;
    o, halt := ExchangeReserved(w, begun, reply, start);
    ReservedOnce(p, start, reserved, w.trace);
  }

  /** One reservation at the caps of the run, and none after it. */
  lemma ReservedOnce(p: Params, start: seq<Event>, reserved: seq<Event>, now: seq<Event>)
    requires |reserved| == |start| + 1 && reserved <= now && NoReserve(reserved, now)
    requires reserved[|start|].Reserve? && ReservesWithin(p, start, reserved)
    ensures ReservesWithin(p, start, now)
  {
    assert now[|start|] == reserved[|start|];
  }

  /** A payment text that does not parse is recorded as failed; nothing is reserved. */
  method RefuseMalformed(w: World, p: Params, begun: Outcome) returns (o: Outcome)
    requires After(Idle, w.trace) == Some(Idle) && !begun.outcomeUnknown
    modifies w
    ensures AutoStep(old(w.trace), w.trace, o, false) && o == begun.(failed := true)
    ensures FailureSaved(old(w.trace), w.trace)
    ensures ReservesWithin(p, old(w.trace), w.trace)
  {
    var saved := w.SaveFailedRecord();
    AfterOne(Idle, old(w.trace), SaveFailed(saved));
    MoreSettled(old(w.trace), SaveFailed(saved));
    o := begun.(failed := true);
  }

  /** Goes on from a reservation's reply. */
  method ExchangeReserved(w: World, begun: Outcome, reply: ReserveReply, ghost start: seq<Event>)
    returns (o: Outcome, halt: bool)
    requires After(Idle, w.trace) == Some(AfterReserve(reply))
    requires start < w.trace && w.trace[|w.trace| - 1].Reserve? && Settled(w.trace) == Settled(start)
    requires begun.recordId.None? && !begun.failed && !begun.outcomeUnknown && !begun.simulated
    modifies w
    ensures AutoStep(start, w.trace, o, halt)
    ensures old(w.trace) <= w.trace && NoReserve(old(w.trace), w.trace)
    ensures o.source == begun.source && !o.simulated
  {
    o := begun;
    if reply.ReserveError? {
      return o.(failed := true), false;
    }
    o := o.(recordId := reply.id);
    if reply.id.None? {
      return o.(failed := true), true;
    }
    var id := reply.id.value;
    if reply.ceiling.None? || reply.ceiling.value < 0.0 {
      ghost var held := w.trace;
      var ok := w.FailExchange(id);
      AfterOne(Idle, held, Fail(id, ok));
      MoreSettled(held, Fail(id, ok));
      return o.(failed := true), true;
    }
    ghost var account, first, second;
    o, halt, account, first, second := ExecuteReserved(w, o, id, reply.ceiling.value, start);
  }

  /** The exchange itself, once a ceiling is reserved for it. */
  method ExecuteReserved(w: World, begun: Outcome, id: nat, ceiling: real, ghost start: seq<Event>)
    returns (o: Outcome, halt: bool, ghost account: bool, ghost first: Option<Quote>, ghost second: Option<Quote>)
    requires After(Idle, w.trace) == Some(Holding(id, ceiling))
    requires start <= w.trace && w.trace != start && Settled(w.trace) == Settled(start)
    requires begun.recordId == Some(id) && !begun.failed && !begun.outcomeUnknown && !begun.simulated
    modifies w
    ensures AutoStep(start, w.trace, o, halt)
    ensures o.source == begun.source && !o.simulated
    ensures old(w.trace) < w.trace && NoReserve(old(w.trace), w.trace)
    ensures w.trace[|old(w.trace)|].Accept? <==> Approved(Some(ceiling), account, first, second)
  {
    o := begun;
    ghost var held := w.trace;
    var r;
    r, account, first, second := Execute(w, Some(ceiling));
    if w.trace != held {
      assert w.trace == held + [w.trace[|held|]];
      AfterOne(Idle, held, w.trace[|held|]);
      MoreSettled(held, w.trace[|held|]);
    }
    match r {
      case Lost =>
        return o.(failed := true, outcomeUnknown := true), true, account, first, second;
      case Refused =>
        ghost var refused := w.trace;
        var ok := w.FailExchange(id);
        AfterOne(Idle, refused, Fail(id, ok));
        MoreSettled(refused, Fail(id, ok));
        return o.(failed := true), !ok, account, first, second;
      case Done(exchangeId, paid) =>
        o := o.(exchangeId := exchangeId, payment := paid);
        ghost var accepted := w.trace;
        var saved := CompleteLedgerRecord(w, id, paid, ceiling);
        if !saved {
          return o.(failed := true), true, account, first, second;
        }
        return o, false, account, first, second;
    }
  }

  /** A pending record for approval by a person; nothing is reserved or executed. */
  method ProcessManualExchange(w: World, p: Params, source: nat, quoted: int)
    returns (o: Outcome, ghost tokenMade: bool)
    requires After(Idle, w.trace) == Some(Idle)
    modifies w
    ensures p.dryRun ==> w.trace == old(w.trace) && o == Outcome(source, None, "", quoted, false, false, true)
    ensures !p.dryRun ==>
      && |w.trace| == |old(w.trace)| + 1 && old(w.trace) <= w.trace
      && var e := w.trace[|old(w.trace)|];
      (if tokenMade then e == SavePending(!o.failed) else e.SaveFailed? && o.failed)
    ensures After(Idle, w.trace) == Some(Idle)
    ensures o.source == source && !o.outcomeUnknown && (!p.dryRun ==> !o.simulated)
  {
    o, tokenMade := Outcome(source, None, "", quoted, false, false, false), false;
    if p.dryRun {
      return o.(simulated := true), tokenMade;
    }
    var token := w.GenerateToken();
    tokenMade := token;
    if !token {
      var ok := w.SaveFailedRecord();
      AfterOne(Idle, old(w.trace), SaveFailed(ok));
      return o.(failed := true), tokenMade;
    }
    var saved := w.SavePendingRecord();
    AfterOne(Idle, old(w.trace), SavePending(saved));
    return o.(failed := !saved), tokenMade;
  }

  // ---- The whole run ----------------------------------------------------------------------

  datatype RunResult = RunResult(completed: seq<Outcome>, pending: seq<Outcome>, failures: seq<Outcome>,
                                 skipped: seq<Skip>)

  datatype RunError = InvalidMode | CancelFailed

  function OutcomesFor(os: seq<Outcome>, source: nat): nat {
    if os == [] then 0 else OutcomesFor(os[..|os| - 1], source) + (if os[|os| - 1].source == source then 1 else 0)
  }

  function SkipsFor(ss: seq<Skip>, source: nat): nat {
    if ss == [] then 0 else SkipsFor(ss[..|ss| - 1], source) + (if ss[|ss| - 1].source == source then 1 else 0)
  }

  /** How often a recommendation appears over all lists of a result. */
  function Reported(r: RunResult, source: nat): nat {
    OutcomesFor(r.completed, source) + OutcomesFor(r.pending, source) + OutcomesFor(r.failures, source)
    + SkipsFor(r.skipped, source)
  }

  datatype Filing = FileCompleted(o: Outcome) | FilePending(o: Outcome) | FileFailed(o: Outcome) | FileSkipped(s: Skip)

  function SourceOf(f: Filing): nat {
    if f.FileSkipped? then f.s.source else f.o.source
  }

  function File(r: RunResult, f: Filing): RunResult {
    match f
    case FileCompleted(o) => r.(completed := r.completed + [o])
    case FilePending(o) => r.(pending := r.pending + [o])
    case FileFailed(o) => r.(failures := r.failures + [o])
    case FileSkipped(s) => r.(skipped := r.skipped + [s])
  }

  lemma FiledOnce(r: RunResult, f: Filing, source: nat)
    ensures Reported(File(r, f), source) == Reported(r, source) + (if SourceOf(f) == source then 1 else 0)
  {
    if f.FileSkipped? {
      assert (r.skipped + [f.s])[..|r.skipped|] == r.skipped;
    } else {
      assert (r.completed + [f.o])[..|r.completed|] == r.completed;
      assert (r.pending + [f.o])[..|r.pending|] == r.pending;
      assert (r.failures + [f.o])[..|r.failures|] == r.failures;
    }
  }

  /** A recommendation that may be exchanged: a target, known metadata, a matching offering, and a
      valid dollar quote within the per-exchange cap. */
  ghost predicate Exchangeable(p: Params, rec: Rec, found: bool, quote: Option<Quote>) {
    rec.hasTarget && rec.hasMetadata && found && QuotedWithin(quote, p.perExchangeCap)
  }

  /** The validated quote of a recommendation, or why it is skipped. */
  method GetValidatedQuote(w: World, p: Params, rec: Rec)
    returns (r: Result<real, SkipReason>, ghost found: bool, ghost quote: Option<Quote>)
    ensures r.Success? <==> Exchangeable(p, rec, found, quote)
    ensures r.Success? ==> Some(r.value) == quote.value.paymentDue
    ensures r == Failure(NoTarget) <==> !rec.hasTarget
    ensures r == Failure(MissingMetadata) <==> rec.hasTarget && !rec.hasMetadata
    ensures r == Failure(NoOffering) <==> rec.hasTarget && rec.hasMetadata && !found
    ensures r == Failure(QuoteFailed) <==> found && quote.None?
    ensures r == Failure(InvalidExchange) <==> quote.Some? && !quote.value.valid
    ensures r == Failure(NoUsdAmount) <==>
      quote.Some? && quote.value.valid && (quote.value.paymentDue.None? || quote.value.currency != "USD")
    ensures r == Failure(OverCap) <==>
      && quote.Some? && quote.value.valid && quote.value.currency == "USD"
      && quote.value.paymentDue.Some? && p.perExchangeCap < quote.value.paymentDue.value
  {
    found, quote := false, None;
    if !rec.hasTarget {
      return Failure(NoTarget), found, quote;
    }
    if !rec.hasMetadata {
      return Failure(MissingMetadata), found, quote;
    }
    var offering := w.LookupOffering();
    found := offering;
    if !offering {
      return Failure(NoOffering), found, quote;
    }
    var q := w.GetQuote();
    quote := q;
    if q.None? {
      return Failure(QuoteFailed), found, quote;
    }
    if !q.value.valid {
      return Failure(InvalidExchange), found, quote;
    }
    var payment := UsdPayment(q.value);
    if payment.None? {
      return Failure(NoUsdAmount), found, quote;
    }
    if payment.value > p.perExchangeCap {
      return Failure(OverCap), found, quote;
    }
    return Success(payment.value), found, quote;
  }

  /** Events that neither reserve money nor move it. */
  predicate Harmless(e: Event) {
    e.CancelPending? || e.SavePending? || e.SaveFailed?
  }

  /** What one recommendation did to the trace, and whether the run stops. */
  ghost predicate TraceStep(p: Params, before: seq<Event>, now: seq<Event>, halt: bool) {
    && before <= now
    && After(Idle, now).Some? && (if halt then After(Idle, now).value.Halted? else After(Idle, now).value == Idle)
    && ReservesWithin(p, before, now)
    && (p.dryRun ==> now == before)
    && (p.mode.Manual? ==> forall i :: |before| <= i < |now| ==> Harmless(now[i]))
  }

  /** Where one recommendation is filed. */
  ghost predicate FiledStep(p: Params, source: nat, before: seq<Event>, now: seq<Event>, f: Filing, halt: bool) {
    && SourceOf(f) == source
    && (!f.FileSkipped? ==> f.o.simulated == p.dryRun)
    && (p.mode.Manual? ==> !f.FileCompleted?)
    && (!p.mode.Manual? ==> !f.FilePending?)
    && (!f.FileSkipped? ==> (f.o.failed <==> f.FileFailed?))
    && (p.mode.Manual? && !p.dryRun ==> (f.FilePending? <==> now == before + [SavePending(true)]))
    && (!p.dryRun ==> Settled(now) == if f.FileCompleted? then Settled(before) + [ReceiptOf(f.o)] else Settled(before))
    && (!f.FileSkipped? && f.o.outcomeUnknown ==> f.FileFailed? && halt)
  }

  method ProcessRecommendation(w: World, p: Params, source: nat)
    returns (f: Filing, halt: bool, ghost found: bool, ghost quote: Option<Quote>)
    requires !p.mode.OtherMode? && source < |p.recs| && After(Idle, w.trace) == Some(Idle)
    modifies w
    ensures TraceStep(p, old(w.trace), w.trace, halt)
    ensures FiledStep(p, source, old(w.trace), w.trace, f, halt)
    ensures f.FileSkipped? <==> !Exchangeable(p, p.recs[source], found, quote)
  {
    var payment;
    payment, found, quote := GetValidatedQuote(w, p, p.recs[source]);
    halt := false;
    if payment.Failure? {
      f := FileSkipped(Skip(source, payment.error));
    } else if p.mode.Manual? {
      f := FileManual(w, p, source, RoundMicros(payment.value));
    } else {
      f, halt := FileAuto(w, p, source, RoundMicros(payment.value));
    }
  }

  method FileManual(w: World, p: Params, source: nat, quoted: int) returns (f: Filing)
    requires p.mode.Manual? && After(Idle, w.trace) == Some(Idle)
    modifies w
    ensures TraceStep(p, old(w.trace), w.trace, false)
    ensures FiledStep(p, source, old(w.trace), w.trace, f, false)
    ensures !f.FileSkipped?
  {
    var o;
    ghost var tokenMade;
    o, tokenMade := ProcessManualExchange(w, p, source, quoted);
    if !p.dryRun {
      var e := w.trace[|old(w.trace)|];
      assert w.trace == old(w.trace) + [e];
      HarmlessStep(p, old(w.trace), e);
    }
    return if o.failed then FileFailed(o) else FilePending(o);
  }

  lemma HarmlessStep(p: Params, before: seq<Event>, e: Event)
    requires !p.dryRun && After(Idle, before) == Some(Idle) && (e.SavePending? || e.SaveFailed?)
    ensures TraceStep(p, before, before + [e], false)
    ensures Settled(before + [e]) == Settled(before)
  {
    AfterOne(Idle, before, e);
    MoreSettled(before, e);
  }

  method FileAuto(w: World, p: Params, source: nat, quoted: int) returns (f: Filing, halt: bool)
    requires p.mode.Auto? && After(Idle, w.trace) == Some(Idle)
    modifies w
    ensures TraceStep(p, old(w.trace), w.trace, halt)
    ensures FiledStep(p, source, old(w.trace), w.trace, f, halt)
    ensures !f.FileSkipped?
  {
    var o;
    o, halt := ProcessAutoExchange(w, p, source, Some(quoted));
    f := if o.failed then FileFailed(o) else FileCompleted(o);
  }

  /** What a run reports after its first n recommendations. */
  ghost predicate ReportSoFar(p: Params, start: seq<Event>, now: seq<Event>, r: RunResult, n: nat, halt: bool) {
    && (forall i: nat :: Reported(r, i) == if i < n then 1 else 0)
    && (!p.dryRun ==> Settled(now) == Settled(start) + Receipts(r.completed))
    && (p.mode.Manual? ==> r.completed == [])
    && (p.mode.Auto? ==> r.pending == [])
    && (forall o :: o in r.completed + r.pending ==> !o.failed)
    && (forall o :: o in r.failures ==> o.failed)
    && (forall o :: o in r.completed + r.pending + r.failures ==> o.simulated == p.dryRun)
    && (forall o :: o in r.completed + r.pending + r.failures ==>
          o.outcomeUnknown ==> o in r.failures && o.source == n - 1 && halt)
  }

  lemma NothingReported(p: Params, start: seq<Event>, now: seq<Event>)
    requires !p.dryRun ==> Settled(now) == Settled(start)
    ensures ReportSoFar(p, start, now, RunResult([], [], [], []), 0, false)
  {
    assert Receipts([]) == [];
  }

  lemma ReportGrows(p: Params, start: seq<Event>, before: seq<Event>, now: seq<Event>, r: RunResult, n: nat,
                    f: Filing, halt: bool)
    requires !p.mode.OtherMode?
    requires ReportSoFar(p, start, before, r, n, false) && FiledStep(p, n, before, now, f, halt)
    ensures ReportSoFar(p, start, now, File(r, f), n + 1, halt)
  {
    forall i: nat ensures Reported(File(r, f), i) == if i < n + 1 then 1 else 0 {
      FiledOnce(r, f, i);
    }
    var r' := File(r, f);
    if f.FileCompleted? {
      assert Receipts(r'.completed) == Receipts(r.completed) + [ReceiptOf(f.o)];
    }
    forall o | o in r'.completed + r'.pending + r'.failures
      ensures o.simulated == p.dryRun && (o.outcomeUnknown ==> o in r'.failures && o.source == n && halt)
    {
      assert o in r.completed + r.pending + r.failures || (!f.FileSkipped? && o == f.o);
    }
  }

  /** Handles recommendations in order and stops at the first halt. */
  method RunAutoExchange(w: World, p: Params) returns (r: Result<RunResult, RunError>, ghost processed: nat)
    requires After(Idle, w.trace) == Some(Idle)
    modifies w
    ensures old(w.trace) <= w.trace
    ensures After(Idle, w.trace).Some? && AtRest(After(Idle, w.trace).value)
    ensures r.Failure? <==> p.mode.OtherMode? || (!p.dryRun && w.trace == old(w.trace) + [CancelPending(false)])
    ensures p.dryRun ==> w.trace == old(w.trace)
    ensures ReservesWithin(p, old(w.trace), w.trace)
    ensures p.mode.Manual? ==> forall i :: |old(w.trace)| <= i < |w.trace| ==> Harmless(w.trace[i])
    ensures r.Success? ==>
      && processed <= |p.recs| && (processed < |p.recs| ==> After(Idle, w.trace).value.Halted?)
      && ReportSoFar(p, old(w.trace), w.trace, r.value, processed, After(Idle, w.trace).value.Halted?)
  {
    processed := 0;
    if p.mode.OtherMode? {
      return Failure(InvalidMode), processed;
    }
    if !p.dryRun {
      var ok := w.CancelPendingByOrigin();
      AfterOne(Idle, old(w.trace), CancelPending(ok));
      MoreSettled(old(w.trace), CancelPending(ok));
      if !ok {
        return Failure(CancelFailed), processed;
      }
    }
    var result := RunResult([], [], [], []);
    NothingReported(p, old(w.trace), w.trace);
    var halt := false;
    var i := 0;
    while i < |p.recs| && !halt
      invariant 0 <= i <= |p.recs|
      invariant TraceStep(p, old(w.trace), w.trace, halt)
      invariant !p.dryRun ==> w.trace != old(w.trace) && w.trace[|old(w.trace)|] == CancelPending(true)
      invariant ReportSoFar(p, old(w.trace), w.trace, result, i, halt)
      decreases |p.recs| - i
    {
      ghost var before := w.trace;
      var f;
      ghost var found, quote;
      f, halt, found, quote := ProcessRecommendation(w, p, i);
      ReportGrows(p, old(w.trace), before, w.trace, result, i, f, halt);
      TraceGrows(p, old(w.trace), before, w.trace, halt);
      result := File(result, f);
      i := i + 1;
    }
    processed := i;
    return Success(result), processed;
  }

  lemma TraceGrows(p: Params, start: seq<Event>, before: seq<Event>, now: seq<Event>, halt: bool)
    requires TraceStep(p, start, before, false) && TraceStep(p, before, now, halt)
    ensures TraceStep(p, start, now, halt)
  {
    forall i | |start| <= i < |now|
      ensures now[i].Reserve? ==>
        now[i].dailyCap == FloorMicros(p.dailyCap) && now[i].perExchangeCap == FloorMicros(p.perExchangeCap)
      ensures p.mode.Manual? ==> Harmless(now[i])
    {
      assert i < |before| ==> now[i] == before[i];
    }
  }
}
