/**
 * The service itself: the payment rows and the order's ledger, and the calls that change them.
 * At every point where a call waits, other callers may take any number of steps. Each database
 * statement is shown to be the corresponding step of the protocol in module Settlement, so every
 * state the service can be in is one that module's results speak about.
 */
module GatewayPayments {
  import opened Options
  import opened Money
  import opened Settlement
  import opened PaymentHistory

  const MIN_REFRESH_GAP_MS := 2_000
  const LAST_FETCH_LIMIT := 5_000

  /** `after` continues `before` with steps of callers other than `me`. */
  ghost predicate OthersOnly(before: seq<Event>, after: seq<Event>, me: Caller) {
    before <= after && forall i :: |before| <= i < |after| ==> after[i].who != me
  }

  /** The protocol is in this state after these steps. */
  ghost predicate Reached(trace: seq<Event>, s: State) {
    forall es :: es == trace ==> Run(true, START, es) == s
  }

  lemma ReachedIs(trace: seq<Event>, s: State)
    ensures Reached(trace, s) <==> s == Run(true, START, trace)
  {
  }

  lemma ReachedNext(trace: seq<Event>, s: State, e: Event)
    requires Reached(trace, s)
    ensures Reached(trace + [e], Next(true, s, e))
  {
    ReachedIs(trace, s);
    assert (trace + [e])[..|trace|] == trace;
    ReachedIs(trace + [e], Next(true, s, e));
  }

  predicate SameBill(p: Payment, q: Payment) {
    p.mode == q.mode && p.amountMinor == q.amountMinor && p.currency == q.currency
  }

  lemma BillStands(s: State, e: Event, id: PaymentId)
    requires Inv(s) && id in s.payments
    ensures id in Next(true, s, e).payments && SameBill(Next(true, s, e).payments[id], s.payments[id])
  {
    AmountStands(true, s, e, id);
  }

  /** What others cannot change: where a caller stands, which rows exist, and their bills. */
  lemma {:induction false} OthersLeave(before: seq<Event>, after: seq<Event>, me: Caller)
    requires OthersOnly(before, after, me)
    ensures var s, t := Run(true, START, before), Run(true, START, after);
            && PhaseOf(t, me) == PhaseOf(s, me)
            && (forall id <- s.payments :: id in t.payments && SameBill(t.payments[id], s.payments[id]))
  {
    if |before| < |after| {
      var shorter, e := after[..|after| - 1], after[|after| - 1];
      OthersLeave(before, shorter, me);
      OneOtherLeaves(Run(true, START, before), Run(true, START, shorter), e, me) by {
        RunKeepsInv(true, shorter);
      }
    } else {
      assert before == after;
    }
  }

  lemma OneOtherLeaves(s: State, t: State, e: Event, me: Caller)
    requires Inv(t) && e.who != me
    requires forall id <- s.payments :: id in t.payments && SameBill(t.payments[id], s.payments[id])
    ensures var u := Next(true, t, e);
            && PhaseOf(u, me) == PhaseOf(t, me)
            && (forall id <- s.payments :: id in u.payments && SameBill(u.payments[id], s.payments[id]))
  {
    OthersStandAlways(true, t, e);
    forall id <- s.payments
      ensures id in Next(true, t, e).payments && SameBill(Next(true, t, e).payments[id], s.payments[id])
    {
      BillStands(t, e, id);
    }
  }

  /** What the provider's answer makes of a payment, the claim aside. */
  function StatusFor(remote: Remote, id: PaymentId, p: Payment): Status {
    if remote.RemoteExpired? then Expired else if !Matches(remote, id, p) then NeedsReview else Succeeded
  }

  class Service {
    var payments: map<PaymentId, Payment>
    var ledger: seq<Credit>
    var lastFetch: map<PaymentId, int>
    var events: set<string>              // webhook events handled before
    ghost var trace: seq<Event>
    ghost var view: State

    /** The rows and the ledger are those of the protocol after the steps taken so far. */
    ghost predicate Valid()
      reads this
    {
      payments == view.payments && ledger == view.ledger && Reached(trace, view)
    }

    ghost predicate Stands(me: Caller, phase: Phase)
      reads this
    {
      Valid() && PhaseOf(view, me) == phase
    }

    constructor ()
      ensures Valid() && trace == []
    {
      payments, ledger, lastFetch, events, trace, view := map[], [], map[], {}, [], START;
      new;
      ReachedIs([], START);
    }

    /** An await: anything other callers may do happens here, and nothing else is known. */
    method Others(ghost me: Caller)
      requires Valid()
      modifies this
      ensures Valid() && OthersOnly(old(trace), trace, me)
    {
    }

    method Await(ghost me: Caller, id: PaymentId)
      requires Valid() && id in payments
      modifies this
      ensures Valid() && old(trace) <= trace && PhaseOf(view, me) == old(PhaseOf(view, me))
      ensures id in payments && SameBill(payments[id], old(payments[id]))
    {
      Others(me);
      ReachedIs(old(trace), old(view));
      ReachedIs(trace, view);
      OthersLeave(old(trace), trace, me);
    }

    /** One more step of the protocol. */
    ghost method Took(e: Event)
      requires Reached(trace, view)
      modifies this`trace, this`view
      ensures trace == old(trace) + [e] && view == Next(true, old(view), e) && Reached(trace, view)
    {
      ReachedNext(trace, view, e);
      trace, view := trace + [e], Next(true, view, e);
    }

    // ----- database statements and answers -----

    ghost method Looked(me: Caller, id: PaymentId)
      requires Stands(me, Idle) && id in payments && payments[id].hasRef && payments[id].Open()
      modifies this`trace, this`view
      ensures Stands(me, Asking(id)) && trace == old(trace) + [Look(me, id)]
    {
      Took(Look(me, id));
    }

    ghost method Heard(me: Caller, id: PaymentId, remote: Remote)
      requires Stands(me, Asking(id)) && id in payments
      modifies this`trace, this`view
      ensures Stands(me, if remote.Unreachable? || remote.Unpaid? then Idle else Answered(id, remote))
      ensures old(trace) <= trace
    {
      Took(Answer(me, remote));
    }

    /** update: expired, to be reviewed, or a test payment's success. */
    method WriteStatus(ghost me: Caller, id: PaymentId, ghost remote: Remote, status: Status)
      requires Stands(me, Answered(id, remote)) && id in payments
      requires status == StatusFor(remote, id, payments[id])
      requires status == Succeeded ==> payments[id].mode == Test
      modifies this
      ensures Stands(me, Idle) && old(trace) <= trace
      ensures payments == old(payments)[id := old(payments[id]).(status := status)] && ledger == old(ledger)
    {
      payments := payments[id := payments[id].(status := status)];
      Took(Act(me));
    }

    /** updateMany: the conditional claim. */
    method Claim(ghost me: Caller, id: PaymentId, ghost remote: Remote) returns (won: bool)
      requires Stands(me, Answered(id, remote)) && id in payments
      requires Matches(remote, id, payments[id]) && payments[id].mode == Live
      modifies this
      ensures Stands(me, if won then Claimed(id) else Idle) && trace == old(trace) + [Act(me)] && ledger == old(ledger)
      ensures won <==> !old(payments[id]).applied && old(payments[id]).Open()
      ensures payments == if won then old(payments)[id := old(payments[id]).(applied := true)] else old(payments)
    {
      won := !payments[id].applied && payments[id].Open();
      if won {
        payments := payments[id := payments[id].(applied := true)];
      }
      Took(Act(me));
    }

    /** Checkout reads the order's payments for a repeat. */
    method FindReplay(ghost me: Caller, id: PaymentId) returns (replay: bool)
      requires Stands(me, Claimed(id)) && id in payments
      modifies this`trace, this`view
      ensures Stands(me, CheckingOut(id, replay)) && old(trace) <= trace
    {
      replay := Credits(ledger, id) > 0;
      Took(ReadOrder(me));
    }

    /** Checkout's transaction: refused, or an insert under the unique request id. */
    method InsertCredit(ghost me: Caller, id: PaymentId, replay: bool, outcome: Outcome)
      requires Stands(me, CheckingOut(id, replay)) && id in payments
      modifies this
      ensures Stands(me, if outcome == Committed then CheckedOut(id) else Rejected(id)) && old(trace) <= trace
      ensures payments == old(payments)
    {
      if outcome != Refused && !replay && Credits(ledger, id) == 0 {
        ledger := ledger + [Credit(id, payments[id].amountMinor, payments[id].currency)];
      }
      assert view.ledger + [] == view.ledger;
      Took(Checkout(me, outcome));
    }

    /** The transaction clashes on an index that is not the request id's: rolled back, and taken for a repeat. */
    method ClashElsewhere(ghost me: Caller, id: PaymentId)
      requires Stands(me, CheckingOut(id, false)) && id in payments
      modifies this`trace, this`view
      ensures Stands(me, CheckedOut(id)) && old(trace) <= trace
    {
      Took(OtherClash(me));
    }

    method Mark(ghost me: Caller, id: PaymentId, outcome: Outcome)
      requires Stands(me, CheckedOut(id)) && id in payments
      modifies this
      ensures Stands(me, if outcome == Committed then Idle else Rejected(id)) && old(trace) <= trace
      ensures payments == if outcome == Refused then old(payments)
                          else old(payments)[id := old(payments[id]).(status := Succeeded)]
    {
      if outcome != Refused {
        payments := payments[id := payments[id].(status := Succeeded)];
      }
      Took(MarkSucceeded(me, outcome));
    }

    method ReleaseClaim(ghost me: Caller, id: PaymentId)
      requires Stands(me, Rejected(id)) && id in payments
      modifies this
      ensures Stands(me, Idle) && old(trace) <= trace
      ensures payments == old(payments)[id := old(payments[id]).(status := NeedsReview, applied := false)]
    {
      payments := payments[id := payments[id].(status := NeedsReview, applied := false)];
      Took(Release(me));
    }

    // ----- the calls -----

    /** What may be said about a payment that is shown to a caller. */
    lemma Shown(id: PaymentId)
      requires Valid() && id in payments
      ensures payments[id].status == Succeeded && payments[id].mode == Live ==>
                Credits(ledger, id) == 1 || id in view.mistaken
      ensures payments[id].mode == Test ==> Credits(ledger, id) == 0
    {
      ReachedIs(trace, view);
      StatusMeansCredit(trace, id);
    }

    /** Linked, open, and not looked at just now. */
    predicate MayLook(id: PaymentId, now: int)
      reads this
    {
      id in payments && payments[id].hasRef && payments[id].Open()
      && now - (if id in lastFetch then lastFetch[id] else 0) >= MIN_REFRESH_GAP_MS
    }

    /**
     * Looks at a payment, asks the provider and acts on its answer. The parameters are what the
     * clock, the provider, the checkout and the final update turn out to say. A live payment that
     * is shown as succeeded has been credited exactly once, but for a clash taken for a repeat; a
     * test payment never.
     */
    method Refresh(ghost me: Caller, id: PaymentId, now: int, remote: Remote, checkout: Outcome, otherClash: bool, saved: Outcome)
      returns (shown: Option<Payment>)
      requires Stands(me, Idle)
      modifies this
      ensures Stands(me, Idle) && old(trace) <= trace
      ensures shown.None? <==> id !in old(payments)
      ensures shown.Some? && shown.value.status == Succeeded && shown.value.mode == Live ==>
                Credits(ledger, id) == 1 || id in view.mistaken
      ensures old(MayLook(id, now)) ==> |old(trace)| < |trace| && trace[|old(trace)|] == Look(me, id)
      ensures !old(MayLook(id, now)) ==> trace == old(trace) && payments == old(payments) && ledger == old(ledger)
      ensures shown.Some? && shown.value.mode == Test ==> Credits(ledger, id) == 0
      ensures trace != old(trace) <==>
                && id in old(payments) && old(payments)[id].hasRef
                && (old(payments)[id].status == Created || old(payments)[id].status == NeedsReview)
                && now - (if id in old(lastFetch) then old(lastFetch)[id] else 0) >= 2_000
      ensures shown.Some? ==>
                id in payments && id in old(payments) &&
                shown.value == if old(MayLook(id, now)) && (remote.Paid? || remote.RemoteExpired?) then payments[id] else old(payments)[id]
      ensures old(MayLook(id, now)) && remote.RemoteExpired? ==> shown.value.status == Expired
      ensures old(MayLook(id, now)) && Differs(remote, id, old(payments)[id]) ==> shown.value.status == NeedsReview
      ensures old(MayLook(id, now)) && remote.Paid? && !Differs(remote, id, old(payments)[id]) && shown.value.mode == Test ==>
                shown.value.status == Succeeded
    {
      if id !in payments {
        return None;
      }
      var p := payments[id];
      if !MayLook(id, now) {
        Shown(id);
        return Some(p);
      }
      lastFetch := lastFetch[id := now];
      if |lastFetch| > LAST_FETCH_LIMIT {
        lastFetch := map[];
      }
      AskProvider(me, id, remote);
      if !(remote.Unreachable? || remote.Unpaid?) {
        ActOn(me, id, remote, checkout, otherClash, saved);
        p := payments[id];
      }
      Shown(id);
      shown := Some(p);
    }

    /**
     * A verified webhook event about a payment, or about none of ours: it prompts a look, so
     * the throttle is lifted. An event handled before is left alone; any other is recorded, even
     * when the look came to nothing.
     */
    method Webhook(ghost me: Caller, eventId: string, about: Option<PaymentId>, now: int, remote: Remote,
                   checkout: Outcome, otherClash: bool, saved: Outcome)
      returns (duplicate: bool)
      requires Stands(me, Idle)
      modifies this
      ensures Stands(me, Idle) && old(trace) <= trace
      ensures duplicate <==> eventId in old(events)
      ensures eventId in events
      ensures duplicate ==> payments == old(payments) && ledger == old(ledger) && trace == old(trace)
      ensures !duplicate && about.Some? && about.value in old(payments) && old(payments)[about.value].hasRef
              && old(payments)[about.value].Open() && now >= MIN_REFRESH_GAP_MS ==>
                |old(trace)| < |trace| && trace[|old(trace)|] == Look(me, about.value)
    {
      if eventId in events {
        return true;
      }
      if about.Some? {
        lastFetch := lastFetch - {about.value};
        var shown := Refresh(me, about.value, now, remote, checkout, otherClash, saved);
      }
      events := events + {eventId};
      duplicate := false;
    }

    method AskProvider(ghost me: Caller, id: PaymentId, remote: Remote)
      requires Stands(me, Idle) && id in payments && payments[id].hasRef && payments[id].Open()
      modifies this
      ensures Stands(me, if remote.Unreachable? || remote.Unpaid? then Idle else Answered(id, remote))
      ensures old(trace) + [Look(me, id)] <= trace && id in payments && SameBill(payments[id], old(payments[id]))
    {
      Looked(me, id);
      Await(me, id);
      Heard(me, id, remote);
    }

    /** What follows from the provider's own answer; nothing a caller says enters here. */
    method ActOn(ghost me: Caller, id: PaymentId, remote: Remote, checkout: Outcome, otherClash: bool, saved: Outcome)
      requires Stands(me, Answered(id, remote)) && id in payments
      modifies this
      ensures Stands(me, Idle) && old(trace) <= trace
      ensures id in payments && payments[id].mode == old(payments[id]).mode
      ensures remote.RemoteExpired? ==> payments[id].status == Expired
      ensures Differs(remote, id, old(payments[id])) ==> payments[id].status == NeedsReview
      ensures remote.Paid? && !Differs(remote, id, old(payments[id])) && payments[id].mode == Test ==>
                payments[id].status == Succeeded
    {
      Await(me, id);
      if remote.RemoteExpired? {
        WriteStatus(me, id, remote, Expired);
      } else if !Matches(remote, id, payments[id]) {
        WriteStatus(me, id, remote, NeedsReview);
      } else {
        Apply(me, id, remote, checkout, otherClash, saved);
      }
    }

    /** Of the callers that get here with a live payment, the claim lets one settle the order. */
    method Apply(ghost me: Caller, id: PaymentId, ghost remote: Remote, checkout: Outcome, otherClash: bool, saved: Outcome)
      requires Stands(me, Answered(id, remote)) && id in payments && Matches(remote, id, payments[id])
      modifies this
      ensures Stands(me, Idle) && old(trace) <= trace && id in payments
      ensures payments[id].mode == old(payments[id]).mode
      ensures payments[id].mode == Test ==>
                ledger == old(ledger) && payments == old(payments)[id := old(payments[id]).(status := Succeeded)]
      ensures payments[id].mode == Live && (old(payments[id]).applied || !old(payments[id]).Open()) ==>
                ledger == old(ledger) && payments == old(payments) && trace == old(trace) + [Act(me)]
      ensures payments[id].mode == Live && !old(payments[id]).applied
              && (old(payments[id]).status == Created || old(payments[id]).status == NeedsReview) ==>
                && (checkout == Committed && saved == Committed ==> payments[id].status == Succeeded)
                && (saved != Committed || (checkout != Committed && !otherClash) ==>
                      payments[id].status == NeedsReview && !payments[id].applied)
    {
      if payments[id].mode == Test {
        WriteStatus(me, id, remote, Succeeded);
        return;
      }
      var won := Claim(me, id, remote);
      if won {
        var reported := Settle(me, id, checkout, otherClash, saved);
      }
    }

    /** Checkout with the payment's id as request id; `reported` says it came back without a failure. */
    method CheckOut(ghost me: Caller, id: PaymentId, checkout: Outcome, otherClash: bool) returns (reported: bool)
      requires Stands(me, Claimed(id)) && id in payments
      modifies this
      ensures Stands(me, if reported then CheckedOut(id) else Rejected(id)) && old(trace) <= trace
      ensures id in payments && payments[id].mode == old(payments[id]).mode
      ensures checkout == Committed ==> reported
      ensures reported ==> checkout == Committed || otherClash
    {
      Await(me, id);
      var replay := FindReplay(me, id);
      Await(me, id);
      reported := checkout == Committed || (otherClash && !replay);
      if otherClash && !replay {
        ClashElsewhere(me, id);
      } else {
        InsertCredit(me, id, replay, checkout);
      }
    }

    /** The winner of the claim: check out, then mark the payment or release it. */
    method Settle(ghost me: Caller, id: PaymentId, checkout: Outcome, otherClash: bool, saved: Outcome)
      returns (reported: bool)
      requires Stands(me, Claimed(id)) && id in payments
      modifies this
      ensures Stands(me, Idle) && old(trace) <= trace && id in payments
      ensures payments[id].mode == old(payments[id]).mode
      ensures checkout == Committed ==> reported
      ensures reported ==> checkout == Committed || otherClash
      ensures reported && saved == Committed ==> payments[id].status == Succeeded
      ensures !(reported && saved == Committed) ==> payments[id].status == NeedsReview && !payments[id].applied
    {
      reported := CheckOut(me, id, checkout, otherClash);
      Await(me, id);
      if reported {
        Mark(me, id, saved);
        if saved == Committed {
          return;
        }
        Await(me, id);
      }
      ReleaseClaim(me, id);
    }

    // ----- making links -----

    method InsertRow(ghost me: Caller, id: PaymentId, mode: Mode, balance: real, currency: string)
      requires Stands(me, Idle) && id !in payments && balance > 0.0 && ToMinor(balance, currency) > 0
      modifies this
      ensures Stands(me, Linking(id)) && old(trace) <= trace
      ensures payments == old(payments)[id := Payment(mode, ToMinor(balance, currency), Upper(currency), Created, false, false)]
    {
      payments := payments[id := Payment(mode, ToMinor(balance, currency), Upper(currency), Created, false, false)];
      Took(Create(me, id, mode, balance, currency));
    }

    method StoreLink(ghost me: Caller, id: PaymentId, link: Outcome)
      requires Stands(me, Linking(id)) && id in payments
      modifies this
      ensures Stands(me, if link == Committed then Idle else LinkLost(id)) && old(trace) <= trace
      ensures payments == if link == Refused then old(payments)
                          else old(payments)[id := old(payments[id]).(hasRef := true)]
    {
      if link != Refused {
        payments := payments[id := payments[id].(hasRef := true)];
      }
      Took(SaveLink(me, link));
    }

    method StoreFailure(ghost me: Caller, id: PaymentId)
      requires Stands(me, LinkLost(id)) && id in payments
      modifies this
      ensures Stands(me, Idle) && old(trace) <= trace
      ensures payments == old(payments)[id := old(payments[id]).(status := Failed)]
    {
      payments := payments[id := payments[id].(status := Failed)];
      Took(LinkFailed(me));
    }

    /** Makes a link for the server-side bill, or hands back an open one for the same bill. */
    method CreateLink(ghost me: Caller, newId: PaymentId, mode: Mode, balance: real, currency: string, link: Outcome)
      returns (made: Option<PaymentId>)
      requires Stands(me, Idle) && newId !in payments
      modifies this
      ensures Stands(me, Idle) && old(trace) <= trace
      ensures balance <= 0.0 || ToMinor(balance, currency) <= 0 ==> made.None? && payments == old(payments)
      ensures made.Some? ==>
                made.value in payments
                && payments[made.value].amountMinor == ToMinor(balance, currency)
                && payments[made.value].currency == Upper(currency) && payments[made.value].mode == mode
                && payments[made.value].hasRef
      ensures made.None? && balance > 0.0 && ToMinor(balance, currency) > 0 ==>
                link != Committed && newId in payments && payments[newId].status == Failed
    {
      if balance <= 0.0 || ToMinor(balance, currency) <= 0 {
        return None;
      }
      if id :| id in payments && Reusable(payments[id], mode, ToMinor(balance, currency), Upper(currency)) {
        return Some(id);
      }
      InsertRow(me, newId, mode, balance, currency);
      Await(me, newId);
      StoreLink(me, newId, link);
      if link == Committed {
        return Some(newId);
      }
      Await(me, newId);
      StoreFailure(me, newId);
      made := None;
    }

    predicate Reusable(p: Payment, mode: Mode, amountMinor: int, currency: string) {
      p.status == Created && p.hasRef && p.mode == mode && p.amountMinor == amountMinor && p.currency == currency
    }
  }
}
