/** The order in which an exchange run may talk to its ledger and to the cloud. */
module ExchangeProtocol {
  import opened Wrappers
  import opened ExchangeMoney

  /** What is known of an accept error: its API status and code, and whether it was marked unknown. */
  datatype AcceptError = AcceptError(markedUnknown: bool, api: bool, throttled: bool, status: int)

  datatype AcceptReply = AcceptOk(exchangeId: string) | AcceptFailed(error: AcceptError)

  datatype Classified = DefinitelyRejected | OutcomeUnknown

  /** Only an API error with a throttle code or a 4xx status proves that nothing happened. */
  function ClassifyAcceptError(e: AcceptError): Classified {
    if e.markedUnknown then OutcomeUnknown
    else if e.api && e.throttled then DefinitelyRejected
    else if e.api && 400 <= e.status < 500 then DefinitelyRejected
    else OutcomeUnknown
  }

  datatype AcceptOutcome = Executed(exchangeId: string) | Rejected | Unknown

  /** Rejected only with proof that nothing happened, executed only with an exchange to show for it. */
  function OutcomeOf(reply: AcceptReply): (r: AcceptOutcome)
    ensures r.Rejected? <==>
      reply.AcceptFailed? && reply.error.api && !reply.error.markedUnknown
      && (reply.error.throttled || 400 <= reply.error.status <= 499)
    ensures r.Executed? <==> reply.AcceptOk? && reply.exchangeId != ""
  {
    match reply
    case AcceptOk(id) => if id == "" then Unknown else Executed(id)
    case AcceptFailed(e) => if ClassifyAcceptError(e).DefinitelyRejected? then Rejected else Unknown
  }

  datatype ReserveReply = ReserveError | ReserveOk(id: Option<nat>, ceiling: Option<real>)

  /** One call that changes the ledger or moves money, with its reply. */
  datatype Event =
    | CancelPending(ok: bool)
    | SavePending(ok: bool)
    | SaveFailed(ok: bool)
    | Reserve(dailyCap: int, perExchangeCap: int, reserved: ReserveReply)
    | Accept(payment: real, reply: AcceptReply)
    | Complete(id: nat, paid: int, ok: bool)
    | Fail(id: nat, ok: bool)

  const MAX_LEDGER_ATTEMPTS := 3

  /** Where a run stands. Holding a reservation, nothing was accepted; once paid, only settling it
      is allowed; nothing is allowed once halted. */
  datatype Phase =
    | Idle
    | Holding(id: nat, ceiling: real)
    | Unusable(id: nat)
    | Paid(id: nat, ceiling: real, paid: int, attempts: nat)
    | Halted(held: Option<nat>)

  function Advance(p: Phase, e: Event): Option<Phase> {
    match e
    case CancelPending(_) => if p.Idle? then Some(Idle) else None
    case SavePending(_) => if p.Idle? then Some(Idle) else None
    case SaveFailed(_) => if p.Idle? then Some(Idle) else None
    case Reserve(_, _, reply) => if p.Idle? then Some(AfterReserve(reply)) else None
    case Accept(payment, reply) =>
      if p.Holding? && payment <= p.ceiling then Some(AfterAccept(p.id, p.ceiling, payment, OutcomeOf(reply))) else None
    case Complete(id, paid, ok) =>
      if p.Paid? && p.id == id && p.paid == paid && p.attempts < MAX_LEDGER_ATTEMPTS
      then Some(if ok then Idle
                else if p.attempts + 1 < MAX_LEDGER_ATTEMPTS then p.(attempts := p.attempts + 1)
                else Halted(Some(id)))
      else None
    case Fail(id, ok) =>
      if p.Holding? && p.id == id then Some(if ok then Idle else Halted(Some(id)))
      else if p.Unusable? && p.id == id then Some(Halted(Some(id)))
      else None
  }

  function AfterReserve(reply: ReserveReply): Phase {
    match reply
    case ReserveError => Idle
    case ReserveOk(None, _) => Halted(None)
    case ReserveOk(Some(id), None) => Unusable(id)
    case ReserveOk(Some(id), Some(ceiling)) => if ceiling < 0.0 then Unusable(id) else Holding(id, ceiling)
  }

  function AfterAccept(id: nat, ceiling: real, payment: real, outcome: AcceptOutcome): Phase {
    match outcome
    case Executed(_) => Paid(id, ceiling, RoundMicros(payment), 0)
    case Rejected => Holding(id, ceiling)
    case Unknown => Halted(Some(id))
  }

  /** The phase after a sequence of events, when the protocol allows it. */
  function After(p: Phase, es: seq<Event>): Option<Phase> {
    if es == [] then Some(p)
    else
      match After(p, es[..|es| - 1])
      case None => None
      case Some(q) => Advance(q, es[|es| - 1])
  }

  lemma AfterOne(p: Phase, es: seq<Event>, e: Event)
    ensures After(p, es + [e]) == match After(p, es) case None => None case Some(q) => Advance(q, e)
  {
    assert (es + [e])[..|es|] == es;
  }

  lemma {:induction false} AfterConcat(p: Phase, a: seq<Event>, b: seq<Event>)
    ensures After(p, a + b) == match After(p, a) case None => None case Some(q) => After(q, b)
  {
    if b == [] {
      assert a + b == a;
    } else {
      AfterConcat(p, a, b[..|b| - 1]);
      assert (a + b)[..|a + b| - 1] == a + b[..|b| - 1];
    }
  }

  lemma {:induction false} AllowedPrefix(p: Phase, es: seq<Event>, n: nat)
    requires After(p, es).Some? && n <= |es|
    ensures After(p, es[..n]).Some?
    ensures After(After(p, es[..n]).value, es[n..]) == After(p, es)
  {
    assert es == es[..n] + es[n..];
    AfterConcat(p, es[..n], es[n..]);
  }

  /** The phases before and after one event of an allowed sequence. */
  lemma PhasesAt(es: seq<Event>, i: nat) returns (p: Phase, q: Phase)
    requires After(Idle, es).Some? && i < |es|
    ensures After(Idle, es[..i]) == Some(p) && Advance(p, es[i]) == Some(q)
    ensures After(q, es[i + 1..]) == After(Idle, es)
  {
    AllowedPrefix(Idle, es, i);
    AllowedPrefix(Idle, es, i + 1);
    assert es[..i + 1] == es[..i] + [es[i]];
    AfterOne(Idle, es[..i], es[i]);
    p, q := After(Idle, es[..i]).value, After(Idle, es[..i + 1]).value;
  }

  // ---- What every allowed sequence keeps --------------------------------------------------

  /** Nothing at all follows a halt. */
  lemma HaltIsFinal(id: Option<nat>, es: seq<Event>)
    requires After(Halted(id), es).Some?
    ensures es == []
  {
    if es != [] {
      AllowedPrefix(Halted(id), es, 1);
      assert es[..1] == [] + [es[0]];
      AfterOne(Halted(id), [], es[0]);
    }
  }

  /** The first n events are failed settlement attempts of one payment. */
  predicate Attempts(es: seq<Event>, n: int, id: nat, paid: int) {
    n <= |es| && forall i :: 0 <= i < n ==> es[i] == Complete(id, paid, false)
  }

  /** The payment is settled by event n, after n failed attempts. */
  predicate SettledAt(es: seq<Event>, n: int, id: nat, paid: int) {
    && 0 <= n < |es|
    && Attempts(es, n, id, paid)
    && es[n] == Complete(id, paid, true)
  }

  predicate SettledWithin(es: seq<Event>, left: int, id: nat, paid: int) {
    exists n :: 0 <= n < left && SettledAt(es, n, id, paid)
  }

  /** How the events after a payment go on: it is settled with exactly the rounded amount after
      fewer than three failed attempts, or three failed attempts are all that follows. */
  predicate SettledOrHalted(es: seq<Event>, id: nat, paid: int) {
    || SettledWithin(es, 3, id, paid)
    || (|es| == 3 && Attempts(es, |es|, id, paid))
  }

  /** Nothing but failed attempts so far, and the payment is open while some are left. */
  predicate StillFailing(p: Phase, es: seq<Event>, left: int, id: nat, paid: int)
    requires After(p, es).Some?
  {
    && |es| <= left
    && Attempts(es, |es|, id, paid)
    && (|es| < left ==> After(p, es).value.Paid?)
  }

  /** One failed attempt in front of what follows it. */
  lemma OneMoreAttempt(es: seq<Event>, n: int, id: nat, paid: int)
    requires es != [] && es[0] == Complete(id, paid, false)
    ensures Attempts(es[1..], n, id, paid) ==> Attempts(es, n + 1, id, paid)
    ensures SettledAt(es[1..], n, id, paid) ==> SettledAt(es, n + 1, id, paid)
  {
    if Attempts(es[1..], n, id, paid) {
      forall i | 0 <= i < n + 1 ensures es[i] == Complete(id, paid, false) {
        assert i > 0 ==> es[i] == es[1..][i - 1];
      }
    }
  }

  /** The first event after a payment, and where it leads. */
  lemma FirstAttempt(p: Phase, es: seq<Event>) returns (q: Phase)
    requires p.Paid? && es != [] && After(p, es).Some?
    ensures es[0].Complete? && es[0] == Complete(p.id, p.paid, es[0].ok)
    ensures Advance(p, es[0]) == Some(q) && After(q, es[1..]) == After(p, es)
  {
    AllowedPrefix(p, es, 1);
    AfterOne(p, [], es[0]);
    assert es[..1] == [] + [es[0]];
    q := After(p, es[..1]).value;
  }

  lemma {:induction false} AfterPayment(id: nat, ceiling: real, paid: int, attempts: nat, es: seq<Event>)
    requires attempts < MAX_LEDGER_ATTEMPTS && After(Paid(id, ceiling, paid, attempts), es).Some?
    ensures || SettledWithin(es, MAX_LEDGER_ATTEMPTS - attempts, id, paid)
            || StillFailing(Paid(id, ceiling, paid, attempts), es, MAX_LEDGER_ATTEMPTS - attempts, id, paid)
    decreases |es|
  {
    var p, left := Paid(id, ceiling, paid, attempts), MAX_LEDGER_ATTEMPTS - attempts;
    if es != [] {
      var q := FirstAttempt(p, es);
      if es[0].ok {
        assert SettledAt(es, 0, id, paid);
      } else if 1 < left {
        AfterPayment(id, ceiling, paid, attempts + 1, es[1..]);
        if SettledWithin(es[1..], left - 1, id, paid) {
          var n :| 0 <= n < left - 1 && SettledAt(es[1..], n, id, paid);
          OneMoreAttempt(es, n, id, paid);
        } else {
          OneMoreAttempt(es, |es| - 1, id, paid);
        }
      } else {
        HaltIsFinal(Some(id), es[1..]);
      }
    }
  }

  /** Between runs no payment is left open. */
  predicate AtRest(p: Phase) {
    p.Idle? || p.Halted?
  }

  /** Event r reserved the record id, and every event from there on is a definitely rejected accept. */
  predicate OnlyRejectedSince(es: seq<Event>, r: int, id: nat) {
    && 0 <= r < |es| && es[r].Reserve?
    && es[r].reserved.ReserveOk? && es[r].reserved.id == Some(id)
    && forall j :: r < j < |es| ==> es[j].Accept? && OutcomeOf(es[j].reply).Rejected?
  }

  lemma {:induction false} HeldMeansNotAccepted(es: seq<Event>, id: nat) returns (r: nat)
    requires After(Idle, es) == Some(Unusable(id))
             || (After(Idle, es).Some? && After(Idle, es).value.Holding? && After(Idle, es).value.id == id)
    ensures OnlyRejectedSince(es, r, id)
  {
    var last := |es| - 1;
    var p, q := PhasesAt(es, last);
    assert es[last + 1..] == [];
    if p.Idle? {
      r := last;
    } else {
      r := HeldMeansNotAccepted(es[..last], id);
      forall j | r < j < |es| ensures es[j].Accept? && OutcomeOf(es[j].reply).Rejected? {
        assert j < last ==> es[j] == es[..last][j];
      }
    }
  }

  /** In every finished run an executed exchange belongs to the record reserved for it, and what
      follows settles that record for exactly the rounded re-quoted amount within three attempts, or
      is three failed attempts at that. */
  lemma ExecutedSettlesOrHalts(es: seq<Event>, i: nat) returns (r: nat, id: nat)
    requires After(Idle, es).Some? && AtRest(After(Idle, es).value) && i < |es|
    requires es[i].Accept? && OutcomeOf(es[i].reply).Executed?
    ensures OnlyRejectedSince(es[..i], r, id)
    ensures SettledOrHalted(es[i + 1..], id, RoundMicros(es[i].payment))
  {
    var p, q := PhasesAt(es, i);
    id := p.id;
    r := HeldMeansNotAccepted(es[..i], id);
    AfterPayment(p.id, p.ceiling, RoundMicros(es[i].payment), 0, es[i + 1..]);
  }

  /** An exchange whose outcome is unknown is the last thing a run does. */
  lemma UnknownIsLast(es: seq<Event>, i: nat)
    requires After(Idle, es).Some? && i < |es|
    requires es[i].Accept? && OutcomeOf(es[i].reply).Unknown?
    ensures i == |es| - 1 && After(Idle, es).value.Halted?
  {
    var p, q := PhasesAt(es, i);
    HaltIsFinal(Some(p.id), es[i + 1..]);
  }

  /** A record is failed only when every accept since its reservation was definitely rejected. */
  lemma FailedOnlyWhenNothingAccepted(es: seq<Event>, i: nat) returns (r: nat)
    requires After(Idle, es).Some? && i < |es| && es[i].Fail?
    ensures OnlyRejectedSince(es[..i], r, es[i].id)
  {
    var p, q := PhasesAt(es, i);
    r := HeldMeansNotAccepted(es[..i], es[i].id);
  }
}
