/**
 * Which requests are one request, and what each call comes to, told by the requests themselves:
 * their API keys, idempotency keys, kiosk ids and platform ids, without the stored keys.
 */
module OrderHistory {
  import opened Options
  import opened UniqueOrders

  /** One website's idempotency key twice, one kiosk id, or one platform's order. */
  predicate SameAsk(r: Request, q: Request) {
    match r
    case Online(keyId, idempotencyKey, _) =>
      q.Online? && q.keyId == keyId && q.idempotencyKey == idempotencyKey && idempotencyKey != ""
    case Kiosk(requestId, _) => q.Kiosk? && q.requestId == requestId
    case Platform(source, orderId, _) => q.Platform? && q.source == source && q.orderId == orderId
  }

  /** A website that sent no idempotency key. */
  predicate Unkeyed(r: Request) {
    r.Online? && r.idempotencyKey == ""
  }

  /** Platforms' ids may be anything. */
  lemma WellFormedIff(r: Request)
    ensures WellFormed(r) <==> (r.Online? ==> ':' !in r.idempotencyKey) && (r.Kiosk? ==> ':' !in r.requestId)
  {
  }

  /** Stored keys meet exactly for requests that are one, and only a website's can be without. */
  lemma KeysMeetIff(r: Request, q: Request)
    requires WellFormed(r) && WellFormed(q)
    ensures KeyOf(r).Some? && KeyOf(q) == KeyOf(r) <==> SameAsk(r, q)
    ensures KeyOf(r).None? <==> Unkeyed(r)
  {
    if r.Online? {
      ScopedHasColon(r.keyId, r.idempotencyKey);
    }
    if q.Online? {
      ScopedHasColon(q.keyId, q.idempotencyKey);
    }
    if r.Online? && q.Online? {
      ScopedKeysApart(r.keyId, r.idempotencyKey, q.keyId, q.idempotencyKey);
    }
  }

  /** The lookup finds exactly the orders of that request. */
  lemma FindsIff(r: Request, o: Order)
    requires WellFormed(r) && WellFormed(o.from)
    ensures Finds(r, o) <==> SameAsk(r, o.from)
  {
    KeysMeetIff(r, o.from);
  }

  lemma TakenIff(o: Order, other: Order)
    requires WellFormed(o.from) && WellFormed(other.from)
    ensures Taken(o, other) <==> SameAsk(o.from, other.from) || other.number == o.number
  {
    KeysMeetIff(o.from, other.from);
  }

  // ----- one step ----------------------------------------------------------------------------

  /** Some order is of this request. */
  ghost predicate HasOrder(s: State, r: Request) {
    exists i :: 0 <= i < |s.orders| && SameAsk(r, s.orders[i].from)
  }

  ghost predicate HasNumber(s: State, number: nat) {
    exists i :: 0 <= i < |s.orders| && s.orders[i].number == number
  }

  lemma FindIff(s: State, r: Request)
    requires OnlyWellFormed(s) && WellFormed(r)
    ensures Find(r, s.orders).Some? <==> HasOrder(s, r)
  {
    forall i | 0 <= i < |s.orders| ensures Finds(r, s.orders[i]) <==> SameAsk(r, s.orders[i].from) {
      FindsIff(r, s.orders[i]);
    }
  }

  lemma BlockedIff(s: State, r: Request, number: nat)
    requires OnlyWellFormed(s) && WellFormed(r)
    ensures Blocked(Order(r, number), s.orders) <==> HasOrder(s, r) || HasNumber(s, number)
  {
    forall i | 0 <= i < |s.orders|
      ensures Taken(Order(r, number), s.orders[i]) <==> SameAsk(r, s.orders[i].from) || s.orders[i].number == number
    {
      TakenIff(Order(r, number), s.orders[i]);
    }
  }

  /** A request without a key goes straight to its insert, any other looks first. */
  lemma BeginDecides(s: State, c: Caller, r: Request)
    requires WellFormed(r) && PhaseOf(s, c) == Idle
    ensures var t := Next(s, Begin(c, r));
            t.orders == s.orders && PhaseOf(t, c) == if Unkeyed(r) then Placing(r, 1) else Checking(r)
  {
    KeysMeetIff(r, r);
  }

  /**
   * An insert goes in unless the request has an order or the number is taken, or it failed before;
   * the call has placed it exactly if it went in and was acknowledged.
   */
  lemma InsertDecides(s: State, c: Caller, number: nat, outcome: Outcome)
    requires OnlyWellFormed(s) && PhaseOf(s, c).Placing?
    ensures var r, attempt := PhaseOf(s, c).r, PhaseOf(s, c).attempt;
            var free := !HasOrder(s, r) && !HasNumber(s, number);
            var t := Next(s, Insert(c, number, outcome));
            && t.orders == s.orders + (if free && (outcome == Stored || outcome == Clash(true) || outcome == Throw(true))
                                       then [Order(r, number)] else [])
            && PhaseOf(t, c) == (if outcome.Throw? then Done(r, Failed)
                                 else if outcome == Stored && free then Done(r, Placed(|s.orders|))
                                 else Clashed(r, attempt))
            && InsertsOf(t, c) == InsertsOf(s, c) + 1
  {
    BlockedIff(s, PhaseOf(s, c).r, number);
    assert s.orders + [] == s.orders;
  }

  /** While the request has no order a lookup lets the call insert, three times in all. */
  lemma FreeKeyGoesOn(s: State, c: Caller)
    requires OnlyWellFormed(s) && (PhaseOf(s, c).Checking? || PhaseOf(s, c).Clashed?)
    requires !HasOrder(s, PhaseOf(s, c).r)
    ensures var p := PhaseOf(s, c);
            && (p.Checking? ==> PhaseOf(Next(s, LookUp(c)), c) == Placing(p.r, 1))
            && (p.Clashed? ==> PhaseOf(Next(s, LookAgain(c)), c) ==
                                 if p.attempt < 3 then Placing(p.r, p.attempt + 1) else Done(p.r, Failed))
  {
    FindIff(s, PhaseOf(s, c).r);
  }

  // ----- over every run ----------------------------------------------------------------------

  /** What an answer says, in terms of the requests. */
  ghost predicate Says(r: Request, answer: Answer, orders: seq<Order>) {
    match answer
    case Placed(i) => i < |orders| && orders[i].from == r
    case Replayed(i) => i < |orders| && SameAsk(r, orders[i].from) && (r.Online? ==> orders[i].from.body == r.body)
    case DifferentBody =>
      r.Online? && exists i :: 0 <= i < |orders| && SameAsk(r, orders[i].from) && orders[i].from.body != r.body
    case Failed => true
  }

  lemma TruthfulSays(r: Request, answer: Answer, orders: seq<Order>)
    requires WellFormed(r) && Truthful(r, answer, orders) && forall i :: 0 <= i < |orders| ==> WellFormed(orders[i].from)
    ensures Says(r, answer, orders)
  {
    forall i | 0 <= i < |orders| ensures Finds(r, orders[i]) <==> SameAsk(r, orders[i].from) {
      FindsIff(r, orders[i]);
    }
  }

  /**
   * However calls interleave, an order handed back is one of that very request, from a website of
   * that very body; and a refusal for another body means the request has an order with another.
   */
  lemma {:induction false} AnswersAreOfTheRequest(es: seq<Event>, c: Caller)
    requires AllWellFormed(es) && PhaseOf(Run(START, es), c).Done?
    ensures var s := Run(START, es); Says(PhaseOf(s, c).r, PhaseOf(s, c).answer, s.orders)
  {
    var s := Run(START, es);
    RunKeepsInv(es);
    RunWellFormed(es);
    assert PhaseSound(s, c, PhaseOf(s, c));
    TruthfulSays(PhaseOf(s, c).r, PhaseOf(s, c).answer, s.orders);
  }

  /** A website that sends no key is never handed back an older order, nor refused for one. */
  lemma {:induction false} UnkeyedIsNeverReplayed(es: seq<Event>, c: Caller)
    requires PhaseOf(Run(START, es), c).Done? && Unkeyed(PhaseOf(Run(START, es), c).r)
    ensures var answer := PhaseOf(Run(START, es), c).answer; answer.Placed? || answer.Failed?
  {
    RunKeepsInv(es);
    assert PhaseSound(Run(START, es), c, PhaseOf(Run(START, es), c));
  }

  ghost predicate PlacedOnce(s: State) {
    forall c: Caller, d: Caller ::
      PhaseOf(s, c).Done? && PhaseOf(s, c).answer.Placed? && PhaseOf(s, d).Done? && PhaseOf(s, d).answer == PhaseOf(s, c).answer ==>
        c == d
  }

  lemma StepPlacesOnce(s: State, e: Event)
    requires Inv(s) && PlacedOnce(s)
    ensures PlacedOnce(Next(s, e))
  {
    var t := Next(s, e);
    assert forall d: Caller :: d != e.who ==> PhaseOf(t, d) == PhaseOf(s, d);
    forall d: Caller | PhaseOf(s, d).Done? && PhaseOf(s, d).answer.Placed? ensures PhaseOf(s, d).answer.order < |s.orders| {
      assert PhaseSound(s, d, PhaseOf(s, d));
    }
    var q := PhaseOf(t, e.who);
    if q.Done? && q.answer.Placed? {
      assert PhaseOf(s, e.who) == q || q.answer.order == |s.orders|;
    }
  }

  lemma {:induction false} RunPlacesOnce(es: seq<Event>)
    ensures PlacedOnce(Run(START, es))
  {
    if |es| > 0 {
      RunPlacesOnce(es[..|es| - 1]);
      RunKeepsInv(es[..|es| - 1]);
      StepPlacesOnce(Run(START, es[..|es| - 1]), es[|es| - 1]);
    }
  }

  /** So two of its calls that succeed, with whatever bodies, got two orders. */
  lemma {:induction false} UnkeyedGetTheirOwn(es: seq<Event>, c: Caller, d: Caller)
    requires var s := Run(START, es);
             && c != d && Succeeded(PhaseOf(s, c)) && Succeeded(PhaseOf(s, d))
             && Unkeyed(PhaseOf(s, c).r) && Unkeyed(PhaseOf(s, d).r)
    ensures var s := Run(START, es); PhaseOf(s, c).answer.order != PhaseOf(s, d).answer.order
  {
    UnkeyedIsNeverReplayed(es, c);
    UnkeyedIsNeverReplayed(es, d);
    RunPlacesOnce(es);
  }

  // ----- why a call fails --------------------------------------------------------------------

  /** The call was cut off, its insert threw, or it clashed three times. */
  ghost predicate HadReason(es: seq<Event>, c: Caller) {
    || Crash(c) in es
    || (exists n :: 0 <= n < |es| && es[n].Insert? && es[n].who == c && es[n].outcome.Throw?)
    || InsertsOf(Run(START, es), c) == 3
  }

  lemma ReasonStays(es: seq<Event>, e: Event, c: Caller)
    requires HadReason(es, c) && PhaseOf(Run(START, es), c).Done?
    ensures HadReason(es + [e], c)
  {
    assert (es + [e])[..|es|] == es;
    if n :| 0 <= n < |es| && es[n].Insert? && es[n].who == c && es[n].outcome.Throw? {
      assert (es + [e])[n] == es[n];
    }
  }

  /** A call fails only for a reason. */
  lemma {:induction false} FailureHasReason(es: seq<Event>, c: Caller)
    requires PhaseOf(Run(START, es), c).Done? && PhaseOf(Run(START, es), c).answer == Failed
    ensures HadReason(es, c)
  {
    var before, e := es[..|es| - 1], es[|es| - 1];
    var s := Run(START, before);
    assert es == before + [e];
    RunKeepsInv(before);
    assert PhaseSound(s, c, PhaseOf(s, c));
    if PhaseOf(s, c) == PhaseOf(Run(START, es), c) {
      FailureHasReason(before, c);
      ReasonStays(before, e, c);
    } else {
      assert e in es && e.who == c;
      assert e.Insert? && e.outcome.Throw? ==> es[|before|] == e;
    }
  }
}
