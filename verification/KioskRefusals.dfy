/**
 * Which refusals let the order rows come to hold two orders of one guest: exactly those that come
 * while something the guest sent can still be stored by the server's calls, or is.
 */
module KioskRefusals {
  import opened Options
  import opened Uuid
  import opened KioskBasket
  import opened KioskServer
  import Flow = KioskFlow
  import Net = KioskNetwork
  import Rows = UniqueOrders

  lemma {:induction false} RunConcat(s: Site, a: seq<Event>, b: seq<Event>)
    ensures Run(s, a + b) == Run(Run(s, a), b)
    ensures CarefulRun(s, a + b) <==> CarefulRun(s, a) && CarefulRun(Run(s, a), b)
  {
    if |b| == 0 {
      assert a + b == a;
    } else {
      RunConcat(s, a, b[..|b| - 1]);
      assert (a + b)[..|a + b| - 1] == a + b[..|b| - 1];
    }
  }

  lemma OneEvent(s: Site, e: Event)
    ensures Run(s, [e]) == Next(s, e) && (CarefulRun(s, [e]) <==> Careful(s, e))
  {
    assert [e][..0] == [];
  }

  /** The kiosk is told nothing. */
  ghost predicate NothingTold(es: seq<Event>) {
    forall e <- es :: e.Kiosk? ==> !e.step.Receive?
  }

  lemma {:induction false} NothingToldIsCareful(s: Site, es: seq<Event>)
    requires NothingTold(es)
    ensures CarefulRun(s, es)
  {
    if |es| > 0 {
      assert es[|es| - 1] in es;
      NothingToldIsCareful(s, es[..|es| - 1]);
    }
  }

  /** Calls went on; the kiosk did nothing, and rows were only added. */
  ghost predicate OnlyServed(s: Site, t: Site) {
    Front(t) == Front(s) && s.server.orders <= t.server.orders
  }

  lemma {:induction false} UnusedNumber(rows: seq<Rows.Order>) returns (number: nat)
    ensures forall k :: 0 <= k < |rows| ==> rows[k].number < number
  {
    if |rows| == 0 {
      number := 0;
    } else {
      number := UnusedNumber(rows[..|rows| - 1]);
      var last := rows[|rows| - 1].number;
      number := if last < number then number else last + 1;
    }
  }

  /** While no order has its key, a call's lookup finds none and no index refuses its row. */
  lemma NothingInTheWay(s: Site, i: nat, number: nat)
    requires Inv(s) && i < |s.attempts| && IsUuid(s.attempts[i].body.requestId)
    requires s.attempts[i].body.requestId !in View(s).orders
    ensures Rows.Find(RequestOf(s, i), s.server.orders).None?
    ensures (forall k :: 0 <= k < |s.server.orders| ==> s.server.orders[k].number < number) ==>
              !Rows.Blocked(Rows.Order(RequestOf(s, i), number), s.server.orders)
  {
    forall k | 0 <= k < |s.server.orders|
      ensures Rows.KeyOf(s.server.orders[k].from) != Some(Rows.RequestKey(s.attempts[i].body.requestId))
    {
      if Rows.KeyOf(s.server.orders[k].from) == Some(Rows.RequestKey(s.attempts[i].body.requestId)) {
        KeyIsTheKiosks(s, k, s.attempts[i].body.requestId);
      }
    }
  }

  lemma PlacingStores(s: Site, i: nat) returns (e: Event)
    requires Inv(s) && CanStore(s, i) && PhaseOf(s, i).Placing? && s.attempts[i].body.requestId !in View(s).orders
    ensures e.Serve? && OnlyServed(s, Next(s, e))
    ensures var o := Next(s, e).server.orders;
            |o| == |s.server.orders| + 1 && o[|o| - 1].from == RequestOf(s, i)
  {
    var number := UnusedNumber(s.server.orders);
    assert CallSound(s, i);
    NothingInTheWay(s, i, number);
    e := Serve(Rows.Insert(CallerOf(i), number, Rows.Stored));
  }

  /** How many steps a call is from its insert. */
  function StepsToGo(phase: Rows.Phase): nat {
    match phase
    case Idle => 2
    case Checking(_) => 1
    case Clashed(_, _) => 1
    case _ => 0
  }

  /** Until then each step of the call brings it nearer. */
  lemma CallComesNearer(s: Site, i: nat) returns (e: Event)
    requires Inv(s) && CanStore(s, i) && !PhaseOf(s, i).Placing? && s.attempts[i].body.requestId !in View(s).orders
    ensures !e.Kiosk? && Front(Next(s, e)) == Front(s) && Next(s, e).server.orders == s.server.orders
    ensures CanStore(Next(s, e), i) && StepsToGo(PhaseOf(Next(s, e), i)) < StepsToGo(PhaseOf(s, i))
  {
    assert CallSound(s, i);
    NothingInTheWay(s, i, 0);
    match PhaseOf(s, i)
    case Idle => e := Arrive(i);
    case Checking(_) => e := Serve(Rows.LookUp(CallerOf(i)));
    case Clashed(_, _) => e := Serve(Rows.LookAgain(CallerOf(i)));
  }

  /** What can still be stored is, when the server is left to it. */
  lemma {:induction false} CallStores(s: Site, i: nat) returns (es: seq<Event>)
    requires Inv(s) && CanStore(s, i) && s.attempts[i].body.requestId !in View(s).orders
    ensures NothingTold(es) && OnlyServed(s, Run(s, es))
    ensures var o := Run(s, es).server.orders;
            |o| == |s.server.orders| + 1 && o[|o| - 1].from == RequestOf(s, i)
    decreases StepsToGo(PhaseOf(s, i))
  {
    if PhaseOf(s, i).Placing? {
      var e := PlacingStores(s, i);
      es := [e];
      OneEvent(s, e);
    } else {
      var e := CallComesNearer(s, i);
      StepKeepsInv(s, e);
      var rest := CallStores(Next(s, e), i);
      es := [e] + rest;
      RunConcat(s, [e], rest);
      OneEvent(s, e);
    }
  }

  lemma RowsOfKey(s: Site, id: Flow.RequestId, session: nat, j: nat) returns (k: nat)
    requires Inv(s) && Net.KeysSound(View(s)) && id in View(s).orders
    requires j < |s.attempts| && s.attempts[j].session == session && s.attempts[j].body.requestId == id
    ensures RowOf(s, k, session)
  {
    k := OrderHasRow(s.server.orders, s.attempts, id);
    var b := s.server.orders[k].from.body;
    assert View(s).attempts[b].body.requestId == View(s).attempts[j].body.requestId;
    assert View(s).attempts[b].session == View(s).attempts[j].session;
  }

  /** What is open comes to be a row. */
  lemma OpenBecomesRow(s: Site, body: Flow.Body) returns (es: seq<Event>, k: nat)
    requires Inv(s) && Net.KeysSound(View(s)) && Net.Open(View(s), s.session, body)
    ensures NothingTold(es) && OnlyServed(s, Run(s, es)) && RowOf(Run(s, es), k, s.session)
  {
    var j := Net.OpenAttempt(View(s), body);
    var id := s.attempts[j].body.requestId;
    if id in View(s).orders {
      es := [];
      k := RowsOfKey(s, id, s.session, j);
    } else {
      es := CallStores(s, j);
      k := |s.server.orders|;
    }
  }

  /** The kiosk's own steps leave the server alone. */
  lemma KioskRun(s: Site, k: Net.Event)
    requires AtKiosk(k)
    ensures Front(Next(s, Kiosk(k))) == Net.Next(Front(s), k) && Next(s, Kiosk(k)).server == s.server
  {
  }

  /** An edit, a look at the review, and a submit. */
  function Retry(choice: Choice, newId: Flow.RequestId): seq<Event> {
    [Kiosk(Net.Guest(Flow.Add(choice)))] + [Kiosk(Net.Guest(Flow.Goto(Flow.Review)))] + [Kiosk(Net.SubmitTap(newId))]
  }

  lemma RetryRuns(s: Site, choice: Choice, newId: Flow.RequestId)
    ensures var t := Run(s, Retry(choice, newId));
            t.server == s.server && Front(t) == Net.SubmitTapStep(Net.Reviewed(Front(s), choice), newId)
  {
    var add, look, tap := Net.Guest(Flow.Add(choice)), Net.Guest(Flow.Goto(Flow.Review)), Net.SubmitTap(newId);
    var s1 := Next(s, Kiosk(add));
    var s2 := Next(s1, Kiosk(look));
    OneEvent(s, Kiosk(add));
    OneEvent(s1, Kiosk(look));
    OneEvent(s2, Kiosk(tap));
    RunConcat(s, [Kiosk(add)], [Kiosk(look)]);
    RunConcat(s, [Kiosk(add)] + [Kiosk(look)], [Kiosk(tap)]);
    KioskRun(s, add);
    KioskRun(s1, look);
    KioskRun(s2, tap);
  }

  /** What a retry sends meets the schema, if all that is in the basket fits it. */
  lemma RetryFits(screen: Flow.State, choice: Choice, newId: Flow.RequestId)
    requires Flow.Valid(screen) && !Flow.IsBasketLocked(screen) && screen.service.Some?
    requires screen.step == Flow.Review || screen.step == Flow.Menu
    requires Flow.ChoicesFit(screen.basket) && Flow.IdsFit(choice.itemId, choice.modifierIds) && IsUuid(newId)
    ensures var q := Flow.Reduce(Flow.Reduce(Flow.Reduce(screen, Flow.Add(choice)), Flow.Goto(Flow.Review)), Flow.SubmitStart(newId));
            q.requestId == Some(newId) && q.service.Some? && Flow.MeetsSchema(Flow.BodyOf(q))
  {
    var p := Flow.Reduce(screen, Flow.Add(choice));
    Flow.AddKeepsFit(screen.basket, choice);
    Flow.ActionKeepsValid(screen, Flow.Add(choice));
    assert p.basket != [];
    Flow.SchemaIsChoices(Flow.Reduce(Flow.Reduce(p, Flow.Goto(Flow.Review)), Flow.SubmitStart(newId)));
  }

  /** The guest's next try is an attempt that can be stored. */
  lemma RetryCanStore(s: Site, choice: Choice, newId: Flow.RequestId)
    requires Inv(s) && Net.Unlocked(Front(s)) && Flow.Valid(s.screen) && Net.Fresh(Front(s), newId)
    requires Flow.ChoicesFit(s.screen.basket) && Flow.IdsFit(choice.itemId, choice.modifierIds) && IsUuid(newId)
    ensures var t, n := Run(s, Retry(choice, newId)), |s.attempts|;
            && CanStore(t, n) && t.server == s.server && t.session == s.session
            && |t.attempts| == n + 1 && t.attempts[..n] == s.attempts && t.attempts[n].session == s.session
            && t.attempts[n].body.requestId == newId
  {
    RetryRuns(s, choice, newId);
    Net.ReviewedIsReady(Front(s), choice);
    RetryFits(s.screen, choice, newId);
    assert CallSound(s, |s.attempts|);
  }

  lemma OrderWasSent(s: Site, id: Flow.RequestId)
    requires Inv(s) && id in OrdersOf(s.server.orders, s.attempts)
    ensures !Net.Fresh(Front(s), id)
  {
    var k := OrderHasRow(s.server.orders, s.attempts, id);
    assert Front(s).attempts[s.server.orders[k].from.body].body.requestId == id;
  }

  lemma FreshHasNoOrder(s: Site, t: Site, id: Flow.RequestId)
    requires Inv(s) && Net.Fresh(Front(s), id) && t.server == s.server && SameBodies(s.attempts, t.attempts)
    ensures id !in View(t).orders
  {
    OrdersStay(s.server.orders, s.attempts, t.attempts);
    if id in View(t).orders {
      OrderWasSent(s, id);
    }
  }

  const ANY_CHOICE := Choice("item", "", [])

  /** With one order in, the next try makes a second. */
  lemma RetryMakesRow(s: Site, newId: Flow.RequestId, k: nat) returns (es: seq<Event>)
    requires Inv(s) && Net.Unlocked(Front(s)) && Flow.Valid(s.screen) && Net.Fresh(Front(s), newId)
    requires Flow.ChoicesFit(s.screen.basket) && IsUuid(newId) && RowOf(s, k, s.session)
    ensures NothingTold(es) && TwoRows(Run(s, es), s.session)
  {
    var retry := Retry(ANY_CHOICE, newId);
    var t := Run(s, retry);
    RetryCanStore(s, ANY_CHOICE, newId);
    RunKeepsInv(s, retry);
    FreshHasNoOrder(s, t, newId);
    var rest := CallStores(t, |s.attempts|);
    RunConcat(s, retry, rest);
    es := retry + rest;
    assert t.attempts[s.server.orders[k].from.body] == s.attempts[s.server.orders[k].from.body];
    assert RowOf(Run(t, rest), k, s.session) && RowOf(Run(t, rest), |s.server.orders|, s.session);
  }

  /** The answer changes the screen, and nothing the server or KioskNetwork knows of attempts. */
  lemma AnswerSeen(s: Site, e: Net.Event)
    requires Inv(s) && e.Receive?
    ensures var u := Next(s, Kiosk(e));
            && View(u) == Net.Next(View(s), e) && Front(u) == Net.Next(Front(s), e)
            && u.attempts == s.attempts && u.server == s.server && u.session == s.session
  {
    var u := Next(s, Kiosk(e));
    KioskStepAlike(s, e);
    KioskRun(s, e);
    assert u.attempts == s.attempts;
    OthersAsBefore(s, u, |s.attempts|);
    assert View(u).attempts == View(s).attempts;
  }

  lemma AnswerKeepsValid(s: Net.System, e: Net.Event)
    requires Flow.Valid(s.screen) && e.Receive?
    ensures Flow.Valid(Net.Next(s, e).screen)
  {
    if Net.Answered(s) {
      Flow.ActionKeepsValid(s.screen, Net.ActionFor(s.attempts[s.inFlight.value].reply.value, e.orderNumber, e.names));
    }
  }

  /** A refusal leaves the screen open to edits, and what was open as it was. */
  lemma RefusalSeen(s: Site, e: Net.Event)
    requires Inv(s) && Net.Inv(View(s)) && Net.Refusal(View(s), e)
    ensures var u := Next(s, Kiosk(e));
            && Net.Unlocked(Front(u)) && Flow.Valid(u.screen)
            && Net.KeysSound(View(u)) && (forall body :: Net.Open(View(u), s.session, body) <==> Net.Open(View(s), s.session, body))
  {
    AnswerSeen(s, e);
    Net.RefusalUnlocks(View(s), e);
    AnswerKeepsValid(View(s), e);
    Net.KeysCarryOver(View(s), View(Next(s, Kiosk(e))));
    Net.SameOpen(View(s), View(Next(s, Kiosk(e))));
  }

  /** After this answer the rows can come to hold two of the guest's orders, with no carelessness later. */
  ghost predicate CanDouble(s: Site, e: Net.Event) {
    exists more :: CarefulRun(Next(s, Kiosk(e)), more) && TwoRows(Run(Next(s, Kiosk(e)), more), s.session)
  }

  /** From an unlocked screen, with something open, the rows come to hold two of the guest's orders. */
  lemma OpenDoubles(s: Site, body: Flow.Body, newId: Flow.RequestId) returns (more: seq<Event>)
    requires Inv(s) && Net.KeysSound(View(s)) && Net.Open(View(s), s.session, body)
    requires Net.Unlocked(Front(s)) && Flow.Valid(s.screen) && Flow.ChoicesFit(s.screen.basket)
    requires Net.Fresh(Front(s), newId) && IsUuid(newId)
    ensures NothingTold(more) && TwoRows(Run(s, more), s.session)
  {
    var first, k := OpenBecomesRow(s, body);
    var t := Run(s, first);
    RunKeepsInv(s, first);
    assert Front(t) == Front(s);
    var second := RetryMakesRow(t, newId, k);
    RunConcat(s, first, second);
    more := first + second;
  }

  lemma CarelessDoubles(s: Site, e: Net.Event, newId: Flow.RequestId)
    requires Inv(s) && Net.Inv(View(s)) && Net.Refusal(View(s), e) && !Net.Careful(View(s), e)
    requires Net.Fresh(Front(s), newId) && IsUuid(newId) && Flow.ChoicesFit(Next(s, Kiosk(e)).screen.basket)
    ensures CanDouble(s, e)
  {
    var u := Next(s, Kiosk(e));
    AnswerSeen(s, e);
    RefusalSeen(s, e);
    StepKeepsInv(s, Kiosk(e));
    var body :| Net.Open(View(s), s.session, body);
    var more := OpenDoubles(u, body, newId);
    NothingToldIsCareful(u, more);
  }

  /**
   * The condition is exact for the rows as well. After any careful run, a refusal that arrives
   * while something this guest sent can still be stored, or is, lets the rows come to hold two of
   * the guest's orders, with no further carelessness; otherwise no careful run does. A fresh id
   * is at hand, and what is left in the basket fits the schema.
   */
  lemma {:induction false} CarelessRefusalCanDouble(es: seq<Event>, e: Net.Event, newId: Flow.RequestId)
    requires CarefulRun(START, es) && Net.Refusal(View(Run(START, es)), e)
    requires IsUuid(newId) && Net.Fresh(Front(Run(START, es)), newId)
    requires Flow.ChoicesFit(Next(Run(START, es), Kiosk(e)).screen.basket)
    ensures !Careful(Run(START, es), Kiosk(e)) <==> CanDouble(Run(START, es), e)
  {
    var s := Run(START, es);
    SeenIsSound(es);
    if !Careful(s, Kiosk(e)) {
      CarelessDoubles(s, e, newId);
    } else {
      forall more | CarefulRun(Next(s, Kiosk(e)), more) ensures !TwoRows(Run(Next(s, Kiosk(e)), more), s.session) {
        OneEvent(s, Kiosk(e));
        RunConcat(START, es, [Kiosk(e)]);
        RunConcat(START, es + [Kiosk(e)], more);
        OneRowPerSession(es + [Kiosk(e)] + more, s.session);
      }
    }
  }

  // ----- and such a refusal comes about ------------------------------------------------------

  /** A submit times out before it arrives, and its retry meets the rate limit. */
  function RateLimitedRetry(choice: Choice, id: Flow.RequestId, other: Flow.RequestId): seq<Event> {
    [Kiosk(Net.Guest(Flow.Start(true, false)))] + (Retry(choice, id) + Refused(other))
  }

  function Refused(other: Flow.RequestId): seq<Event> {
    [Kiosk(Net.TimeOut)] + ([Kiosk(Net.SubmitTap(other))] + [TurnAway(1, Net.Deny(Flow.Rate))])
  }

  lemma RefusedRuns(s: Site, other: Flow.RequestId)
    ensures Run(s, Refused(other))
            == TurnAwayStep(KioskStep(KioskStep(s, Net.TimeOut), Net.SubmitTap(other)), 1, Net.Deny(Flow.Rate))
  {
    var tap, away := Kiosk(Net.SubmitTap(other)), TurnAway(1, Net.Deny(Flow.Rate));
    var s1 := Next(s, Kiosk(Net.TimeOut));
    RunConcat(s, [Kiosk(Net.TimeOut)], [tap] + [away]);
    RunConcat(s1, [tap], [away]);
    OneEvent(s, Kiosk(Net.TimeOut));
    OneEvent(s1, tap);
    OneEvent(Next(s1, tap), away);
  }

  /** A time-out and a retry: two submits, the second waited for. */
  lemma TriedTwice(s: Site, other: Flow.RequestId)
    requires |s.attempts| == 1 && s.attempts[0].session == s.session && s.attempts[0].body.requestId != other
    requires s.inFlight == Some(0) && s.screen.submit == Flow.Pending && Flow.Valid(s.screen)
    ensures var t := KioskStep(KioskStep(s, Net.TimeOut), Net.SubmitTap(other));
            && |t.attempts| == 2 && t.attempts[0] == s.attempts[0] && t.server == s.server
            && t.attempts[1].session == t.session == s.session && t.attempts[1].live && t.attempts[1].reply.None?
            && t.inFlight == Some(1)
  {
    var s1 := KioskStep(s, Net.TimeOut);
    assert Net.CanSubmit(Front(s1)) && Net.Fresh(Front(s1), other);
  }

  /** What is waited for is turned away while something else can still be stored. */
  lemma TurnedAwayCarelessly(s: Site)
    requires |s.attempts| == 2 && s.inFlight == Some(1) && CanTurnAway(s, 1, Net.Deny(Flow.Rate))
    requires s.attempts[0].session == s.session && s.attempts[1].session == s.session && CanStore(s, 0)
    ensures var t := TurnAwayStep(s, 1, Net.Deny(Flow.Rate));
            Net.Refusal(View(t), Net.Receive("", [])) && !Careful(t, Kiosk(Net.Receive("", [])))
  {
    var t := TurnAwayStep(s, 1, Net.Deny(Flow.Rate));
    assert PhaseOf(t, 0) == PhaseOf(s, 0) && t.attempts[0] == s.attempts[0];
    assert CanStore(t, 0) && SeenAttempts(t)[0].live;
    assert Net.Coming(View(t), t.session, View(t).attempts[0].body);
    assert Net.Open(View(t), t.session, View(t).attempts[0].body);
  }

  /** The retry is refused while the submit before it can still be stored. */
  lemma RefusedCarelessly(s: Site, other: Flow.RequestId)
    requires Inv(s) && |s.attempts| == 1 && CanStore(s, 0) && s.attempts[0].session == s.session
    requires s.inFlight == Some(0) && s.screen.submit == Flow.Pending && Flow.Valid(s.screen)
    requires s.attempts[0].body.requestId != other
    ensures var t := Run(s, Refused(other));
            Net.Refusal(View(t), Net.Receive("", [])) && !Careful(t, Kiosk(Net.Receive("", [])))
  {
    RefusedRuns(s, other);
    TriedTwice(s, other);
    assert CallSound(s, 1);
    TurnedAwayCarelessly(KioskStep(KioskStep(s, Net.TimeOut), Net.SubmitTap(other)));
  }

  lemma RetryIsPending(s: Site, choice: Choice, newId: Flow.RequestId)
    requires Inv(s) && Net.Unlocked(Front(s)) && Flow.Valid(s.screen) && Net.Fresh(Front(s), newId)
    ensures var t := Run(s, Retry(choice, newId));
            t.inFlight == Some(|s.attempts|) && t.screen.submit == Flow.Pending && Flow.Valid(t.screen)
  {
    RetryRuns(s, choice, newId);
    Net.ReviewedIsReady(Front(s), choice);
    var p := Flow.Reduce(s.screen, Flow.Add(choice));
    Flow.ActionKeepsValid(s.screen, Flow.Add(choice));
    Flow.ActionKeepsValid(p, Flow.Goto(Flow.Review));
    Flow.ActionKeepsValid(Flow.Reduce(p, Flow.Goto(Flow.Review)), Flow.SubmitStart(newId));
  }

  /** A submit on a fresh screen, and its retry. */
  lemma RetryRefused(s: Site, choice: Choice, id: Flow.RequestId, other: Flow.RequestId)
    requires Inv(s) && Net.Unlocked(Front(s)) && Flow.Valid(s.screen) && s.attempts == [] && s.screen.basket == []
    requires Flow.IdsFit(choice.itemId, choice.modifierIds) && IsUuid(id) && other != id
    ensures var t := Run(s, Retry(choice, id) + Refused(other));
            Net.Refusal(View(t), Net.Receive("", [])) && !Careful(t, Kiosk(Net.Receive("", [])))
  {
    var t := Run(s, Retry(choice, id));
    RunConcat(s, Retry(choice, id), Refused(other));
    RetryCanStore(s, choice, id);
    RetryIsPending(s, choice, id);
    RunKeepsInv(s, Retry(choice, id));
    RefusedCarelessly(t, other);
  }

  lemma FirstScreen()
    ensures var s := Next(START, Kiosk(Net.Guest(Flow.Start(true, false))));
            Inv(s) && Net.Unlocked(Front(s)) && Flow.Valid(s.screen) && s.attempts == [] && s.screen.basket == []
  {
    StartIsSound();
    StepKeepsInv(START, Kiosk(Net.Guest(Flow.Start(true, false))));
  }

  lemma RetryTellsNothing(choice: Choice, id: Flow.RequestId, other: Flow.RequestId)
    ensures NothingTold(RateLimitedRetry(choice, id, other))
  {
  }

  /** It happens to a submit like any other, by the network alone. */
  lemma CarelessRefusalHappens(choice: Choice, id: Flow.RequestId, other: Flow.RequestId)
    requires Flow.IdsFit(choice.itemId, choice.modifierIds) && IsUuid(id) && other != id
    ensures CarefulRun(START, RateLimitedRetry(choice, id, other))
    ensures var t := Run(START, RateLimitedRetry(choice, id, other));
            Net.Refusal(View(t), Net.Receive("", [])) && !Careful(t, Kiosk(Net.Receive("", [])))
  {
    var begin := Kiosk(Net.Guest(Flow.Start(true, false)));
    OneEvent(START, begin);
    RunConcat(START, [begin], Retry(choice, id) + Refused(other));
    RetryTellsNothing(choice, id, other);
    NothingToldIsCareful(START, RateLimitedRetry(choice, id, other));
    FirstScreen();
    RetryRefused(Next(START, begin), choice, id, other);
  }
}
