/**
 * What lies behind a row and a credit, in terms of the events of a run alone: the link that made
 * the row, the provider's answer that confirmed it, and what every answer comes to.
 */
module PaymentHistory {
  import opened Options
  import opened Money
  import opened Settlement

  function After(dedupe: bool, es: seq<Event>): State {
    Run(dedupe, START, es)
  }

  /** What was recorded of a run is of every longer one. */
  lemma Earlier(es: seq<Event>, e: Event, n: nat)
    requires n < |es|
    ensures (es + [e])[n] == es[n] && (es + [e])[..n] == es[..n]
  {
  }

  // ----- the link behind a row ---------------------------------------------------------------

  /** This event asked for a link for just this mode, amount and currency. */
  predicate MadeAt(es: seq<Event>, n: nat, id: PaymentId, mode: Mode, amountMinor: int, currency: string) {
    && n < |es| && es[n].Create? && es[n].id == id && es[n].mode == mode
    && es[n].balance > 0.0 && amountMinor == ToMinor(es[n].balance, es[n].currency) && amountMinor > 0
    && currency == Upper(es[n].currency)
  }

  ghost predicate RowMade(es: seq<Event>, id: PaymentId, p: Payment) {
    exists n: nat :: MadeAt(es, n, id, p.mode, p.amountMinor, p.currency)
  }

  lemma MadeBefore(es: seq<Event>, e: Event, id: PaymentId, p: Payment)
    requires RowMade(es, id, p)
    ensures RowMade(es + [e], id, p)
  {
    var n: nat :| MadeAt(es, n, id, p.mode, p.amountMinor, p.currency);
    assert MadeAt(es + [e], n, id, p.mode, p.amountMinor, p.currency);
  }

  /** Every row is the one an event asked for: its mode, its bill in units, its currency. */
  lemma {:induction false} RowIsItsLink(dedupe: bool, es: seq<Event>, id: PaymentId)
    requires id in After(dedupe, es).payments
    ensures RowMade(es, id, After(dedupe, es).payments[id])
  {
    var before, e := es[..|es| - 1], es[|es| - 1];
    var s := After(dedupe, before);
    assert es == before + [e];
    if id in s.payments {
      RunKeepsInv(dedupe, before);
      RowIsItsLink(dedupe, before, id);
      AmountStands(dedupe, s, e, id);
      MadeBefore(before, e, id, s.payments[id]);
    } else {
      NewRow(dedupe, s, e, id);
      MadeNow(before, e, id);
    }
  }

  lemma MadeNow(es: seq<Event>, e: Event, id: PaymentId)
    requires e.Create? && e.id == id && e.balance > 0.0 && ToMinor(e.balance, e.currency) > 0
    ensures MadeAt(es + [e], |es|, id, e.mode, ToMinor(e.balance, e.currency), Upper(e.currency))
  {
  }

  lemma NewRow(dedupe: bool, s: State, e: Event, id: PaymentId)
    requires id !in s.payments && id in Next(dedupe, s, e).payments
    ensures e.Create? && e.id == id && e.balance > 0.0 && ToMinor(e.balance, e.currency) > 0
    ensures var p := Next(dedupe, s, e).payments[id];
            p.mode == e.mode && p.amountMinor == ToMinor(e.balance, e.currency) && p.currency == Upper(e.currency)
    ensures Next(dedupe, s, e).confirmed == s.confirmed && Next(dedupe, s, e).saidExpired == s.saidExpired
  {
  }

  // ----- the answer behind a status and a credit ---------------------------------------------

  /** Asked about this payment, the provider reported just this amount and currency paid for it. */
  predicate ReportedAt(dedupe: bool, es: seq<Event>, n: nat, id: PaymentId, minor: int, currency: string) {
    && n < |es| && es[n].Answer? && PhaseOf(After(dedupe, es[..n]), es[n].who) == Asking(id)
    && (es[n].remote == Paid(minor, currency, None) || es[n].remote == Paid(minor, currency, Some(id)))
  }

  ghost predicate Reported(dedupe: bool, es: seq<Event>, id: PaymentId, minor: int, currency: string) {
    exists n: nat :: ReportedAt(dedupe, es, n, id, minor, currency)
  }

  predicate SaidExpiredAt(dedupe: bool, es: seq<Event>, n: nat, id: PaymentId) {
    && n < |es| && es[n].Answer? && PhaseOf(After(dedupe, es[..n]), es[n].who) == Asking(id)
    && es[n].remote == RemoteExpired
  }

  ghost predicate SaidExpired(dedupe: bool, es: seq<Event>, id: PaymentId) {
    exists n: nat :: SaidExpiredAt(dedupe, es, n, id)
  }

  lemma ReportedBefore(dedupe: bool, es: seq<Event>, e: Event, id: PaymentId, minor: int, currency: string)
    ensures Reported(dedupe, es, id, minor, currency) ==> Reported(dedupe, es + [e], id, minor, currency)
    ensures SaidExpired(dedupe, es, id) ==> SaidExpired(dedupe, es + [e], id)
  {
    if n: nat :| ReportedAt(dedupe, es, n, id, minor, currency) {
      Earlier(es, e, n);
      assert ReportedAt(dedupe, es + [e], n, id, minor, currency);
    }
    if n: nat :| SaidExpiredAt(dedupe, es, n, id) {
      Earlier(es, e, n);
      assert SaidExpiredAt(dedupe, es + [e], n, id);
    }
  }

  /** What this run's last answer adds. */
  lemma ReportedNow(dedupe: bool, es: seq<Event>, e: Event, id: PaymentId)
    requires var s, t := After(dedupe, es), Next(dedupe, After(dedupe, es), e);
             id in s.payments && (id in t.confirmed - s.confirmed || id in t.saidExpired - s.saidExpired)
    ensures var s, t := After(dedupe, es), Next(dedupe, After(dedupe, es), e);
            && (id in t.confirmed - s.confirmed ==>
                  Reported(dedupe, es + [e], id, s.payments[id].amountMinor, s.payments[id].currency))
            && (id in t.saidExpired - s.saidExpired ==> SaidExpired(dedupe, es + [e], id))
  {
    var s, t := After(dedupe, es), Next(dedupe, After(dedupe, es), e);
    assert (es + [e])[|es|] == e && (es + [e])[..|es|] == es;
    if id in t.confirmed - s.confirmed {
      assert ReportedAt(dedupe, es + [e], |es|, id, s.payments[id].amountMinor, s.payments[id].currency);
    } else {
      assert SaidExpiredAt(dedupe, es + [e], |es|, id);
    }
  }

  /** What the provider is known to have said of a payment, an answer said. */
  ghost predicate KnownIsSaid(dedupe: bool, es: seq<Event>, id: PaymentId) {
    var s := After(dedupe, es);
    && id in s.payments
    && (id in s.confirmed ==> Reported(dedupe, es, id, s.payments[id].amountMinor, s.payments[id].currency))
    && (id in s.saidExpired ==> SaidExpired(dedupe, es, id))
  }

  lemma KnownIsSaidStill(dedupe: bool, es: seq<Event>, e: Event, id: PaymentId)
    requires KnownIsSaid(dedupe, es, id) && id in After(dedupe, es).balances
    ensures KnownIsSaid(dedupe, es + [e], id)
  {
    var s := After(dedupe, es);
    RunOne(dedupe, START, es, e);
    AmountStands(dedupe, s, e, id);
    ReportedBefore(dedupe, es, e, id, s.payments[id].amountMinor, s.payments[id].currency);
    if id in Next(dedupe, s, e).confirmed - s.confirmed || id in Next(dedupe, s, e).saidExpired - s.saidExpired {
      ReportedNow(dedupe, es, e, id);
    }
  }

  lemma {:induction false} ConfirmedMeansReported(dedupe: bool, es: seq<Event>, id: PaymentId)
    requires id in After(dedupe, es).payments
    ensures KnownIsSaid(dedupe, es, id)
  {
    var before, e := es[..|es| - 1], es[|es| - 1];
    assert es == before + [e];
    if id in After(dedupe, before).payments {
      RunKeepsInv(dedupe, before);
      ConfirmedMeansReported(dedupe, before, id);
      KnownIsSaidStill(dedupe, before, e, id);
    } else {
      NothingSaidOfStrangers(dedupe, before, id);
      NewRow(dedupe, After(dedupe, before), e, id);
    }
  }

  lemma {:induction false} NothingSaidOfStrangers(dedupe: bool, es: seq<Event>, id: PaymentId)
    requires id !in After(dedupe, es).payments
    ensures id !in After(dedupe, es).confirmed && id !in After(dedupe, es).saidExpired
  {
    if |es| > 0 {
      SaidOfRows(dedupe, After(dedupe, es[..|es| - 1]), es[|es| - 1]);
      NothingSaidOfStrangers(dedupe, es[..|es| - 1], id);
    }
  }

  lemma SaidOfRows(dedupe: bool, s: State, e: Event)
    ensures s.payments.Keys <= Next(dedupe, s, e).payments.Keys
    ensures Next(dedupe, s, e).confirmed - s.confirmed <= s.payments.Keys
    ensures Next(dedupe, s, e).saidExpired - s.saidExpired <= s.payments.Keys
  {
  }

  /**
   * Behind every credit there is an answer, to a caller who had asked about that payment, that
   * reported exactly the credited amount in the credited currency paid, for this payment or for
   * none named.
   */
  lemma {:induction false} CreditWasReported(dedupe: bool, es: seq<Event>, i: nat)
    requires i < |After(dedupe, es).ledger|
    ensures var credit := After(dedupe, es).ledger[i];
            && Reported(dedupe, es, credit.requestId, credit.minor, credit.currency)
            && credit.requestId in After(dedupe, es).payments
  {
    RunKeepsInv(dedupe, es);
    var s := After(dedupe, es);
    assert CreditBacked(s, s.ledger[i]);
    ConfirmedMeansReported(dedupe, es, s.ledger[i].requestId);
  }

  /** So it is behind every success, of the amount of the row; behind every expiry there is one that said so. */
  lemma {:induction false} StatusWasReported(dedupe: bool, es: seq<Event>, id: PaymentId)
    requires id in After(dedupe, es).payments
    ensures var p := After(dedupe, es).payments[id];
            && (p.status == Succeeded ==> Reported(dedupe, es, id, p.amountMinor, p.currency))
            && (p.status == Expired ==> SaidExpired(dedupe, es, id))
  {
    RunKeepsInv(dedupe, es);
    var s := After(dedupe, es);
    assert Earned(s, id, s.payments[id]);
    ConfirmedMeansReported(dedupe, es, id);
  }

  // ----- what an answer comes to -------------------------------------------------------------

  /** The amount, the currency or the payment named is another. */
  predicate Differs(remote: Remote, id: PaymentId, p: Payment) {
    remote.Paid? && (remote.minor != p.amountMinor || remote.currency != p.currency
                     || (remote.reference.Some? && remote.reference.value != id))
  }

  /** The caller has this answer in hand, or has dropped it as saying nothing. */
  predicate InHand(s: State, c: Caller, id: PaymentId, remote: Remote) {
    PhaseOf(s, c) == if remote.Unreachable? || remote.Unpaid? then Idle else Answered(id, remote)
  }

  lemma {:induction false} OthersWait(dedupe: bool, s: State, c: Caller, id: PaymentId, more: seq<Event>)
    requires Inv(s) && id in s.payments && forall e <- more :: e.who != c
    ensures var t := Run(dedupe, s, more);
            && Inv(t) && PhaseOf(t, c) == PhaseOf(s, c) && id in t.payments
            && t.payments[id].amountMinor == s.payments[id].amountMinor
            && t.payments[id].currency == s.payments[id].currency && t.payments[id].mode == s.payments[id].mode
  {
    if |more| > 0 {
      var t := Run(dedupe, s, more[..|more| - 1]);
      assert more[|more| - 1] in more;
      OthersWait(dedupe, s, c, id, more[..|more| - 1]);
      StepKeepsInv(dedupe, t, more[|more| - 1]);
      OthersStandAlways(dedupe, t, more[|more| - 1]);
      AmountStands(dedupe, t, more[|more| - 1], id);
    }
  }

  /** After the answer and anything others do, acting on it comes to this. */
  ghost predicate Decided(s: State, u: State, c: Caller, id: PaymentId, remote: Remote)
    requires id in s.payments
  {
    var p := s.payments[id];
    if remote.Unreachable? || remote.Unpaid? then u == s
    else if remote.RemoteExpired? then
      PhaseOf(u, c) == Idle && u.payments == s.payments[id := p.(status := Expired)] && u.ledger == s.ledger
    else if Differs(remote, id, p) then
      PhaseOf(u, c) == Idle && u.payments == s.payments[id := p.(status := NeedsReview)] && u.ledger == s.ledger
    else if p.mode == Test then
      PhaseOf(u, c) == Idle && u.payments == s.payments[id := p.(status := Succeeded)] && u.ledger == s.ledger
    else if !p.applied && (p.status == Created || p.status == NeedsReview) then
      PhaseOf(u, c) == Claimed(id) && u.payments == s.payments[id := p.(applied := true)] && u.ledger == s.ledger
    else
      PhaseOf(u, c) == Idle && u.payments == s.payments && u.ledger == s.ledger
  }

  /**
   * What every answer comes to, whatever others do before it is acted on: only a payment reported
   * in its own amount and currency, and under no other name, is claimed, and then exactly when it
   * is live, open and unclaimed; one reported otherwise goes to review, an expired one expires,
   * and one not known to be either is left alone.
   */
  lemma {:induction false} AnswerDecides(dedupe: bool, es: seq<Event>, c: Caller, id: PaymentId, remote: Remote, more: seq<Event>)
    requires PhaseOf(After(dedupe, es), c) == Asking(id) && id in After(dedupe, es).payments
    requires forall e <- more :: e.who != c
    ensures var s := After(dedupe, es + [Answer(c, remote)] + more);
            && id in s.payments && InHand(s, c, id, remote)
            && Decided(s, Next(dedupe, s, Act(c)), c, id, remote)
  {
    var heard := es + [Answer(c, remote)];
    RunOne(dedupe, START, es, Answer(c, remote));
    RunConcat(dedupe, START, heard, more);
    RunKeepsInv(dedupe, heard);
    OthersWait(dedupe, After(dedupe, heard), c, id, more);
    ActDecides(dedupe, After(dedupe, heard + more), c, id, remote);
  }

  lemma ActDecides(dedupe: bool, s: State, c: Caller, id: PaymentId, remote: Remote)
    requires id in s.payments && InHand(s, c, id, remote)
    ensures Decided(s, Next(dedupe, s, Act(c)), c, id, remote)
  {
  }

  // ----- what is asked about, and by whom it is closed ---------------------------------------

  /** A look is taken up exactly for a linked payment that is new or under review. */
  lemma LookIsForOpenOnes(dedupe: bool, s: State, c: Caller, id: PaymentId)
    requires PhaseOf(s, c) == Idle
    ensures var t := Next(dedupe, s, Look(c, id));
            && t.payments == s.payments && t.ledger == s.ledger
            && (PhaseOf(t, c) == Asking(id) <==>
                  id in s.payments && s.payments[id].hasRef
                  && (s.payments[id].status == Created || s.payments[id].status == NeedsReview))
            && (PhaseOf(t, c) != Asking(id) ==> t == s)
  {
  }

  // ----- what the other statements come to ---------------------------------------------------

  /** A caller under way begins nothing else. */
  lemma BusyCallersGoOn(dedupe: bool, s: State, c: Caller, id: PaymentId, mode: Mode, balance: real, currency: string)
    requires PhaseOf(s, c) != Idle
    ensures Next(dedupe, s, Look(c, id)) == s && Next(dedupe, s, Create(c, id, mode, balance, currency)) == s
  {
  }

  /** A link is asked for exactly for a new payment of something; its row is new, unlinked and unclaimed. */
  lemma CreateDecides(dedupe: bool, s: State, c: Caller, id: PaymentId, mode: Mode, balance: real, currency: string)
    requires PhaseOf(s, c) == Idle
    ensures var t := Next(dedupe, s, Create(c, id, mode, balance, currency));
            && (PhaseOf(t, c) == Linking(id) <==> id !in s.payments && ToMinor(balance, currency) > 0)
            && (PhaseOf(t, c) != Linking(id) ==> t == s)
            && (PhaseOf(t, c) == Linking(id) ==>
                  t.payments == s.payments[id := Payment(mode, ToMinor(balance, currency), Upper(currency), Created, false, false)])
  {
  }

  /** A reference saved is kept, whatever is reported of it; a link that was lost has failed. */
  lemma LinkDecides(dedupe: bool, s: State, c: Caller, id: PaymentId, outcome: Outcome)
    requires id in s.payments
    ensures PhaseOf(s, c) == Linking(id) ==>
              var t := Next(dedupe, s, SaveLink(c, outcome));
              && t.payments == s.payments[id := s.payments[id].(hasRef := s.payments[id].hasRef || outcome != Refused)]
              && PhaseOf(t, c) == if outcome == Committed then Idle else LinkLost(id)
    ensures PhaseOf(s, c) == LinkLost(id) ==>
              var t := Next(dedupe, s, LinkFailed(c));
              t.payments == s.payments[id := s.payments[id].(status := Failed)] && PhaseOf(t, c) == Idle
  {
  }

  /** With repeats looked for, checkout credits exactly what is not credited yet, if it commits. */
  lemma CheckoutDecides(s: State, c: Caller, id: PaymentId, outcome: Outcome)
    requires Inv(s) && PhaseOf(s, c).CheckingOut? && PhaseOf(s, c).id == id
    ensures var t := Next(true, s, Checkout(c, outcome));
            && id in s.payments && t.payments == s.payments
            && t.ledger == (if outcome != Refused && Credits(s.ledger, id) == 0
                            then s.ledger + [Credit(id, s.payments[id].amountMinor, s.payments[id].currency)] else s.ledger)
            && PhaseOf(t, c) == if outcome == Committed then CheckedOut(id) else Rejected(id)
  {
    assert Holds(PhaseOf(s, c), id);
  }

  /** A payment checked out is marked; one that is rejected goes to review, its claim released. */
  lemma EndDecides(dedupe: bool, s: State, c: Caller, id: PaymentId, outcome: Outcome)
    requires id in s.payments
    ensures PhaseOf(s, c) == CheckedOut(id) ==>
              var t := Next(dedupe, s, MarkSucceeded(c, outcome));
              && t.payments == (if outcome == Refused then s.payments
                                else s.payments[id := s.payments[id].(status := Succeeded)])
              && t.ledger == s.ledger && PhaseOf(t, c) == if outcome == Committed then Idle else Rejected(id)
    ensures PhaseOf(s, c) == Rejected(id) ==>
              var t := Next(dedupe, s, Release(c));
              && t.payments == s.payments[id := s.payments[id].(status := NeedsReview, applied := false)]
              && t.ledger == s.ledger && PhaseOf(t, c) == Idle
  {
  }
}
