/**
 * The kiosk and the server with a bad network between them. A submit may be lost, delayed past
 * its time-out, retried, or handled with its answer lost. Storing an order and answering are
 * steps of their own; the server keeps at most one order per request id. Module KioskServer shows
 * that the server of module UniqueOrders does just this.
 */
module KioskNetwork {
  import opened Options
  import opened KioskBasket
  import opened KioskFlow

  datatype Reply =
    | Accepted
    | Denied(kind: Failure)          // over the rate limit, or invalid
    | SoldOut(ids: seq<string>)
    | Broken                         // a 5xx

  /** How the server answers a request that reached it; any of these may come after a store. */
  datatype Verdict =
    | Handle
    | Deny(kind: Failure)
    | SaySoldOut(ids: seq<string>)
    | Break

  /** One submit: `live` while the server may still come to store it. */
  datatype Attempt = Attempt(session: nat, body: Body, live: bool, reply: Option<Reply>)

  datatype System = System(
    screen: State,
    session: nat,                    // counts the guests: one more at every start over
    inFlight: Option<nat>,           // the attempt the screen waits for
    attempts: seq<Attempt>,
    orders: map<RequestId, Body>)

  const START := System(INITIAL, 0, None, [], map[])

  datatype Event =
    | Guest(action: Action)
    | SubmitTap(newId: RequestId)
    | Store(attempt: nat)
    | Respond(attempt: nat, verdict: Verdict)
    | Lose(attempt: nat)
    | Receive(orderNumber: string, names: seq<string>)
    | TimeOut

  function GuestStep(s: System, a: Action): System {
    if a.Reset? then s.(screen := Reduce(s.screen, a), session := s.session + 1)
    else if ByGuest(a) && !a.SubmitStart? then s.(screen := Reduce(s.screen, a))
    else s
  }

  predicate Fresh(s: System, id: RequestId) {
    forall i :: 0 <= i < |s.attempts| ==> s.attempts[i].body.requestId != id
  }

  /** The button is on the review screen, off while the basket is empty or an answer is due. */
  predicate CanSubmit(s: System) {
    s.inFlight.None? && s.screen.step == Review && s.screen.basket != [] && s.screen.service.Some? && s.screen.submit != Pending
  }

  function SubmitTapStep(s: System, newId: RequestId): System {
    if !CanSubmit(s) || !Fresh(s, newId) then s
    else
      var screen := Reduce(s.screen, SubmitStart(newId));
      s.(screen := screen, inFlight := Some(|s.attempts|),
         attempts := s.attempts + [Attempt(s.session, BodyOf(screen), true, None)])
  }

  /** The server creates the order, unless there is one under its key. */
  function StoreStep(s: System, i: nat): System {
    if i >= |s.attempts| || !s.attempts[i].live || s.attempts[i].body.requestId in s.orders then s
    else s.(orders := s.orders[s.attempts[i].body.requestId := s.attempts[i].body])
  }

  function ReplyTo(v: Verdict): Reply {
    match v
    case Handle => Accepted
    case Deny(kind) => Denied(kind)
    case SaySoldOut(ids) => SoldOut(ids)
    case Break => Broken
  }

  /** An acceptance needs an order under the key; a denial is over the rate limit, or invalid. */
  predicate MayRespond(s: System, i: nat, v: Verdict) {
    && i < |s.attempts| && s.attempts[i].reply.None?
    && (v.Handle? ==> s.attempts[i].body.requestId in s.orders)
    && (v.Deny? ==> v.kind == Rate || v.kind == Validation)
  }

  function RespondStep(s: System, i: nat, v: Verdict): System {
    if !MayRespond(s, i, v) then s
    else s.(attempts := s.attempts[i := s.attempts[i].(live := false, reply := Some(ReplyTo(v)))])
  }

  /** A submit gets lost, or its handling comes to where it stores nothing. */
  function LoseStep(s: System, i: nat): System {
    if i >= |s.attempts| then s else s.(attempts := s.attempts[i := s.attempts[i].(live := false)])
  }

  function ActionFor(r: Reply, orderNumber: string, names: seq<string>): Action {
    match r
    case Accepted => SubmitOk(orderNumber)
    case Denied(kind) => SubmitFail(kind)
    case SoldOut(ids) => ItemsUnavailable(ids, names)
    case Broken => SubmitFail(ServerError)
  }

  predicate Answered(s: System) {
    s.inFlight.Some? && s.inFlight.value < |s.attempts| && s.attempts[s.inFlight.value].reply.Some?
  }

  function ReceiveStep(s: System, orderNumber: string, names: seq<string>): System {
    if !Answered(s) then s
    else
      var reply := s.attempts[s.inFlight.value].reply.value;
      s.(screen := Reduce(s.screen, ActionFor(reply, orderNumber, names)), inFlight := None)
  }

  function TimeOutStep(s: System): System {
    if s.inFlight.None? then s else s.(screen := Reduce(s.screen, SubmitFail(Network)), inFlight := None)
  }

  function Next(s: System, e: Event): System {
    match e
    case Guest(a) => GuestStep(s, a)
    case SubmitTap(newId) => SubmitTapStep(s, newId)
    case Store(i) => StoreStep(s, i)
    case Respond(i, v) => RespondStep(s, i, v)
    case Lose(i) => LoseStep(s, i)
    case Receive(orderNumber, names) => ReceiveStep(s, orderNumber, names)
    case TimeOut => TimeOutStep(s)
  }

  function Run(s: System, es: seq<Event>): System {
    if |es| == 0 then s else Next(Run(s, es[..|es| - 1]), es[|es| - 1])
  }

  // ----- the condition on answers ------------------------------------------------------------

  /** A submit of this session may still become this order. */
  ghost predicate Coming(s: System, session: nat, body: Body) {
    exists i :: 0 <= i < |s.attempts| && s.attempts[i].session == session && s.attempts[i].live && s.attempts[i].body == body
  }

  /** A submit of this session has this order under its key. */
  ghost predicate Made(s: System, session: nat, body: Body) {
    exists i :: 0 <= i < |s.attempts| && s.attempts[i].session == session
                && s.attempts[i].body.requestId in s.orders && s.orders[s.attempts[i].body.requestId] == body
  }

  /** An order that a guest's session has, or may still get, out of what it already sent. */
  ghost predicate Open(s: System, session: nat, body: Body) {
    Coming(s, session, body) || Made(s, session, body)
  }

  /** The screen is about to be told, of its own session's submit, that it was refused. */
  predicate Refusal(s: System, e: Event) {
    && e.Receive? && Answered(s)
    && s.attempts[s.inFlight.value].session == s.session
    && (s.attempts[s.inFlight.value].reply.value.Denied? || s.attempts[s.inFlight.value].reply.value.SoldOut?)
  }

  /** A refusal comes only when nothing sent before can still become, or is, an order. */
  ghost predicate Careful(s: System, e: Event) {
    Refusal(s, e) ==> forall body :: !Open(s, s.session, body)
  }

  ghost predicate CarefulRun(s: System, es: seq<Event>) {
    |es| > 0 ==> CarefulRun(s, es[..|es| - 1]) && Careful(Run(s, es[..|es| - 1]), es[|es| - 1])
  }

  // ----- what every careful step keeps -------------------------------------------------------

  ghost predicate KeysSound(s: System) {
    && (forall i, j :: 0 <= i < |s.attempts| && 0 <= j < |s.attempts|
                       && s.attempts[i].body.requestId == s.attempts[j].body.requestId ==>
                         s.attempts[i].session == s.attempts[j].session)
    && (forall i :: 0 <= i < |s.attempts| ==> s.attempts[i].session <= s.session)
    && (forall id <- s.orders :: !Fresh(s, id) && s.orders[id].requestId == id)
    && (s.screen.requestId.Some? ==>
          exists i :: 0 <= i < |s.attempts| && s.attempts[i].session == s.session
                      && s.attempts[i].body.requestId == s.screen.requestId.value)
  }

  ghost predicate RepliesSound(s: System) {
    forall i :: 0 <= i < |s.attempts| && s.attempts[i].reply.Some? ==>
                  !s.attempts[i].live
                  && (s.attempts[i].reply.value.Accepted? ==> s.attempts[i].body.requestId in s.orders)
                  && (s.attempts[i].reply.value.Denied? ==>
                        s.attempts[i].reply.value.kind == Rate || s.attempts[i].reply.value.kind == Validation)
  }

  /** The screen waits for its own session's attempt, or for one sent before it was reset. */
  ghost predicate FlightSound(s: System) {
    && (s.screen.submit == Pending ==> s.inFlight.Some? && s.inFlight.value < |s.attempts|
                                       && s.attempts[s.inFlight.value].session == s.session)
    && (s.inFlight.Some? ==>
          && s.inFlight.value < |s.attempts|
          && (s.attempts[s.inFlight.value].session == s.session ==>
                s.screen.submit == Pending && s.screen.service.Some? && s.screen.requestId.Some?
                && s.attempts[s.inFlight.value].body == BodyOf(s.screen))
          && (s.attempts[s.inFlight.value].session != s.session ==>
                forall i :: 0 <= i < |s.attempts| ==> s.attempts[i].session != s.session))
  }

  /** A session has one order at most, and the screen still shows it, locked, or is done. */
  ghost predicate OrdersSound(s: System) {
    && (forall session, a, b :: Open(s, session, a) && Open(s, session, b) ==> a == b)
    && (forall b :: Open(s, s.session, b) ==>
                      s.screen.step == Finished
                      || (IsBasketLocked(s.screen) && s.screen.service.Some? && s.screen.requestId.Some? && BodyOf(s.screen) == b))
  }

  ghost predicate Inv(s: System) {
    Valid(s.screen) && KeysSound(s) && RepliesSound(s) && FlightSound(s) && OrdersSound(s)
  }

  /** The same things were sent, by the same sessions. */
  predicate SameSent(s: System, t: System) {
    && |t.attempts| == |s.attempts| && t.session == s.session
    && forall i :: 0 <= i < |s.attempts| ==>
                     t.attempts[i].session == s.attempts[i].session && t.attempts[i].body == s.attempts[i].body
  }

  lemma KeysCarryOver(s: System, t: System)
    requires KeysSound(s) && SameSent(s, t) && t.orders == s.orders
    requires t.screen.requestId.Some? ==> t.screen.requestId == s.screen.requestId
    ensures KeysSound(t)
  {
    forall id | id in t.orders ensures !Fresh(t, id) {
      var i :| 0 <= i < |s.attempts| && s.attempts[i].body.requestId == id;
      assert t.attempts[i].body.requestId == id;
    }
  }

  /** With attempts and orders as they were, and fewer chances, no session has more open. */
  lemma OpenShrinks(s: System, t: System, session: nat, body: Body)
    requires t.orders == s.orders && |t.attempts| == |s.attempts|
    requires forall i :: 0 <= i < |s.attempts| ==>
                           t.attempts[i].session == s.attempts[i].session && t.attempts[i].body == s.attempts[i].body
                           && (t.attempts[i].live ==> s.attempts[i].live)
    requires Open(t, session, body)
    ensures Open(s, session, body)
  {
    if i :| 0 <= i < |t.attempts| && t.attempts[i].session == session && t.attempts[i].live && t.attempts[i].body == body {
      assert s.attempts[i].live;
    } else {
      var i :| 0 <= i < |t.attempts| && t.attempts[i].session == session
               && t.attempts[i].body.requestId in t.orders && t.orders[t.attempts[i].body.requestId] == body;
      assert s.attempts[i].session == session;
    }
  }

  /** No attempt of a new session can have been sent. */
  lemma NothingOpenYet(s: System, session: nat, body: Body)
    requires forall i :: 0 <= i < |s.attempts| ==> s.attempts[i].session != session
    ensures !Open(s, session, body)
  {
  }

  lemma GuestKeeps(s: System, a: Action)
    requires Inv(s)
    ensures Inv(GuestStep(s, a))
  {
    var t := GuestStep(s, a);
    if a.Reset? {
      ActionKeepsValid(s.screen, a);
      forall body ensures !Open(t, t.session, body) {
        NothingOpenYet(t, t.session, body);
      }
      ResetKeepsOpen(s, t);
    } else if t != s {
      ActionKeepsValid(s.screen, a);
      GuestKeepsScreen(s.screen, a);
      ScreenMoves(s, t);
    }
  }

  lemma ResetKeepsOpen(s: System, t: System)
    requires OrdersSound(s) && t.attempts == s.attempts && t.orders == s.orders
    ensures forall session, a, b :: Open(t, session, a) && Open(t, session, b) ==> a == b
  {
    forall session, a, b | Open(t, session, a) && Open(t, session, b) ensures a == b {
      OpenShrinks(s, t, session, a);
      OpenShrinks(s, t, session, b);
    }
  }

  /** What a guest's action may do to a screen: nothing while it is locked. */
  ghost predicate GuestMay(p: State, q: State) {
    && (IsBasketLocked(p) ==> IsBasketLocked(q) && SameOrder(p, q) && q.submit == p.submit)
    && (q.submit == Pending ==> p.submit == Pending)
    && (q.requestId.Some? ==> q.requestId == p.requestId)
    && (p.step == Finished ==> q.step == Finished)
  }

  lemma GuestKeepsScreen(p: State, a: Action)
    requires Valid(p) && ByGuest(a) && !a.SubmitStart?
    ensures GuestMay(p, Reduce(p, a))
  {
  }

  lemma ScreenMoves(s: System, t: System)
    requires Inv(s) && t == s.(screen := t.screen) && Valid(t.screen) && GuestMay(s.screen, t.screen)
    ensures Inv(t)
  {
    assert KeysSound(t);
    assert FlightSound(t);
    ResetKeepsOpen(s, t);
    forall b | Open(t, t.session, b)
      ensures t.screen.step == Finished
              || (IsBasketLocked(t.screen) && t.screen.service.Some? && t.screen.requestId.Some? && BodyOf(t.screen) == b)
    {
      OpenShrinks(s, t, t.session, b);
    }
  }

  // ----- submitting --------------------------------------------------------------------------

  lemma SubmitOpens(s: System, newId: RequestId, session: nat, body: Body)
    requires Inv(s) && CanSubmit(s) && Fresh(s, newId)
    requires Open(SubmitTapStep(s, newId), session, body)
    ensures Open(s, session, body) || (session == s.session && body == BodyOf(Reduce(s.screen, SubmitStart(newId))))
  {
    var t := SubmitTapStep(s, newId);
    var n := |s.attempts|;
    if i :| 0 <= i < |t.attempts| && t.attempts[i].session == session && t.attempts[i].live && t.attempts[i].body == body {
      assert i < n ==> s.attempts[i] == t.attempts[i];
    } else {
      var i :| 0 <= i < |t.attempts| && t.attempts[i].session == session
               && t.attempts[i].body.requestId in t.orders && t.orders[t.attempts[i].body.requestId] == body;
      if i < n {
        assert s.attempts[i] == t.attempts[i];
      } else {
        SubmittedBefore(s, newId);
      }
    }
  }

  /** A key that has an order already was sent before, in this session. */
  lemma SubmittedBefore(s: System, newId: RequestId)
    requires Inv(s) && CanSubmit(s) && Fresh(s, newId)
    ensures var id := BodyOf(Reduce(s.screen, SubmitStart(newId))).requestId;
            id in s.orders && s.screen.requestId.Some? ==> Open(s, s.session, s.orders[id])
    ensures BodyOf(Reduce(s.screen, SubmitStart(newId))).requestId
         == if s.screen.requestId.Some? then s.screen.requestId.value else newId
  {
  }

  lemma SubmitKeepsKeys(s: System, newId: RequestId)
    requires Inv(s) && CanSubmit(s) && Fresh(s, newId)
    ensures KeysSound(SubmitTapStep(s, newId))
  {
    var t := SubmitTapStep(s, newId);
    var n := |s.attempts|;
    assert forall i :: 0 <= i < n ==> t.attempts[i] == s.attempts[i];
    assert t.attempts[n].session == t.session && t.attempts[n].body.requestId == t.screen.requestId.value;
    forall id | id in t.orders ensures !Fresh(t, id) && t.orders[id].requestId == id {
      var i :| 0 <= i < n && s.attempts[i].body.requestId == id;
      assert t.attempts[i].body.requestId == id;
    }
  }

  lemma SubmitKeeps(s: System, newId: RequestId)
    requires Inv(s)
    ensures Inv(SubmitTapStep(s, newId))
  {
    var t := SubmitTapStep(s, newId);
    if CanSubmit(s) && Fresh(s, newId) {
      ActionKeepsValid(s.screen, SubmitStart(newId));
      SubmitKeepsKeys(s, newId);
      forall session, a, b | Open(t, session, a) && Open(t, session, b) ensures a == b {
        SubmitOpens(s, newId, session, a);
        SubmitOpens(s, newId, session, b);
      }
      forall b | Open(t, t.session, b) ensures BodyOf(t.screen) == b {
        SubmitOpens(s, newId, t.session, b);
      }
    }
  }

  // ----- the server --------------------------------------------------------------------------

  /** Storing a live request opens nothing that was not open. */
  lemma StoreOpens(s: System, i: nat, session: nat, body: Body)
    requires KeysSound(s) && Open(StoreStep(s, i), session, body)
    ensures Open(s, session, body)
  {
    var t := StoreStep(s, i);
    if j :| 0 <= j < |t.attempts| && t.attempts[j].session == session && t.attempts[j].body.requestId !in s.orders
            && t.attempts[j].body.requestId in t.orders && t.orders[t.attempts[j].body.requestId] == body {
      assert s.attempts[i].session == session && s.attempts[i].live && s.attempts[i].body == body;
    }
  }

  lemma StoreKeepsKeys(s: System, i: nat)
    requires KeysSound(s)
    ensures KeysSound(StoreStep(s, i))
  {
    var t := StoreStep(s, i);
    forall id | id in t.orders ensures !Fresh(t, id) && t.orders[id].requestId == id {
      if id in s.orders {
        var j :| 0 <= j < |s.attempts| && s.attempts[j].body.requestId == id;
        assert t.attempts[j].body.requestId == id;
      } else {
        assert t.attempts[i].body.requestId == id;
      }
    }
  }

  lemma FewerOpen(s: System, t: System)
    requires OrdersSound(s) && t.screen == s.screen && t.session == s.session
    requires forall session, body :: Open(t, session, body) ==> Open(s, session, body)
    ensures OrdersSound(t)
  {
  }

  lemma StoreKeeps(s: System, i: nat)
    requires Inv(s)
    ensures Inv(StoreStep(s, i))
  {
    var t := StoreStep(s, i);
    StoreKeepsKeys(s, i);
    forall session, body | Open(t, session, body) ensures Open(s, session, body) {
      StoreOpens(s, i, session, body);
    }
    FewerOpen(s, t);
    assert RepliesSound(t);
    assert FlightSound(t);
  }

  lemma RespondKeepsReplies(s: System, i: nat, v: Verdict)
    requires RepliesSound(s) && FlightSound(s)
    ensures RepliesSound(RespondStep(s, i, v)) && FlightSound(RespondStep(s, i, v))
  {
    assert SameSent(s, RespondStep(s, i, v));
  }

  lemma RespondKeeps(s: System, i: nat, v: Verdict)
    requires Inv(s)
    ensures Inv(RespondStep(s, i, v))
  {
    var t := RespondStep(s, i, v);
    RespondKeepsReplies(s, i, v);
    KeysCarryOver(s, t);
    forall session, body | Open(t, session, body) ensures Open(s, session, body) {
      OpenShrinks(s, t, session, body);
    }
    FewerOpen(s, t);
  }

  lemma LoseKeeps(s: System, i: nat)
    requires Inv(s)
    ensures Inv(LoseStep(s, i))
  {
    var t := LoseStep(s, i);
    assert SameSent(s, t);
    KeysCarryOver(s, t);
    forall session, body | Open(t, session, body) ensures Open(s, session, body) {
      OpenShrinks(s, t, session, body);
    }
    FewerOpen(s, t);
    assert FlightSound(t);
  }

  // ----- answers -----------------------------------------------------------------------------

  lemma SameOpen(s: System, t: System)
    requires t.attempts == s.attempts && t.orders == s.orders
    ensures forall session, body :: Open(t, session, body) <==> Open(s, session, body)
  {
    forall session, body ensures Open(t, session, body) <==> Open(s, session, body) {
      if Open(t, session, body) {
        OpenShrinks(s, t, session, body);
      }
      if Open(s, session, body) {
        OpenShrinks(t, s, session, body);
      }
    }
  }

  /** The screen is told something; attempts and orders stay. */
  lemma AnswerKeeps(s: System, t: System, a: Action)
    requires Inv(s) && s.inFlight.Some? && t == s.(screen := Reduce(s.screen, a), inFlight := None)
    requires a.SubmitOk? || a.SubmitFail? || a.ItemsUnavailable?
    requires a.SubmitOk? || (a.SubmitFail? && (a.kind == Network || a.kind == ServerError))
             || (forall body :: !Open(s, s.session, body))
    ensures Inv(t)
  {
    ActionKeepsValid(s.screen, a);
    assert SameSent(s, t);
    KeysCarryOver(s, t);
    assert FlightSound(t);
    SameOpen(s, t);
    AnswerKeepsScreen(s.screen, a);
    assert OrdersSound(t);
  }

  /** Told it went through, a waiting screen is done; told nothing definite, it stays locked. */
  lemma AnswerKeepsScreen(p: State, a: Action)
    requires Valid(p)
    ensures a.SubmitOk? || (a.SubmitFail? && (a.kind == Network || a.kind == ServerError)) ==>
              var q := Reduce(p, a);
              q.step == Finished || ((IsBasketLocked(p) ==> IsBasketLocked(q)) && SameOrder(p, q))
  {
  }

  lemma ReceiveKeeps(s: System, e: Event)
    requires Inv(s) && e.Receive? && Careful(s, e)
    ensures Inv(Next(s, e))
  {
    if Answered(s) {
      var i := s.inFlight.value;
      var a := ActionFor(s.attempts[i].reply.value, e.orderNumber, e.names);
      if s.attempts[i].session != s.session {
        forall body ensures !Open(s, s.session, body) {
          NothingOpenYet(s, s.session, body);
        }
      }
      AnswerKeeps(s, Next(s, e), a);
    }
  }

  lemma StepKeepsInv(s: System, e: Event)
    requires Inv(s) && Careful(s, e)
    ensures Inv(Next(s, e))
  {
    match e
    case Guest(a) => GuestKeeps(s, a);
    case SubmitTap(newId) => SubmitKeeps(s, newId);
    case Store(i) => StoreKeeps(s, i);
    case Respond(i, v) => RespondKeeps(s, i, v);
    case Lose(i) => LoseKeeps(s, i);
    case Receive(_, _) => ReceiveKeeps(s, e);
    case TimeOut =>
      if s.inFlight.Some? {
        AnswerKeeps(s, Next(s, e), SubmitFail(Network));
      }
  }

  lemma {:induction false} RunKeepsInv(s: System, es: seq<Event>)
    requires Inv(s) && CarefulRun(s, es)
    ensures Inv(Run(s, es))
  {
    if |es| > 0 {
      RunKeepsInv(s, es[..|es| - 1]);
      StepKeepsInv(Run(s, es[..|es| - 1]), es[|es| - 1]);
    }
  }

  lemma StartIsSound()
    ensures Inv(START)
  {
  }

  // ----- results -----------------------------------------------------------------------------

  /** An attempt of this session has an order under its key. */
  predicate HasOrder(s: System, session: nat, i: nat) {
    i < |s.attempts| && s.attempts[i].session == session && s.attempts[i].body.requestId in s.orders
  }

  /** Two orders out of one session. */
  ghost predicate TwoOrders(s: System, session: nat) {
    exists i: nat, j: nat :: HasOrder(s, session, i) && HasOrder(s, session, j)
                             && s.attempts[i].body.requestId != s.attempts[j].body.requestId
  }

  lemma SoundHasOneOrder(s: System, session: nat)
    requires Inv(s)
    ensures !TwoOrders(s, session)
  {
    forall i: nat, j: nat | HasOrder(s, session, i) && HasOrder(s, session, j)
      ensures s.attempts[i].body.requestId == s.attempts[j].body.requestId
    {
      assert Open(s, session, s.orders[s.attempts[i].body.requestId]);
      assert Open(s, session, s.orders[s.attempts[j].body.requestId]);
    }
  }

  /**
   * Between two starts over the server holds at most one order from the kiosk, for this guest and
   * for every guest before, whatever was lost, late, retried or tapped twice.
   */
  lemma {:induction false} OneOrderPerSession(es: seq<Event>, session: nat)
    requires CarefulRun(START, es)
    ensures !TwoOrders(Run(START, es), session)
  {
    StartIsSound();
    RunKeepsInv(START, es);
    SoundHasOneOrder(Run(START, es), session);
  }

  /** Until the guest is told, that order is what the locked screen shows. */
  lemma {:induction false} OrderIsTheLockedBasket(es: seq<Event>, i: nat)
    requires CarefulRun(START, es) && HasOrder(Run(START, es), Run(START, es).session, i)
    requires Run(START, es).screen.step != Finished
    ensures var s := Run(START, es);
            && IsBasketLocked(s.screen) && s.screen.requestId.Some? && s.screen.service.Some?
            && s.orders[s.attempts[i].body.requestId] == BodyOf(s.screen)
  {
    StartIsSound();
    RunKeepsInv(START, es);
    var s := Run(START, es);
    assert Open(s, s.session, s.orders[s.attempts[i].body.requestId]);
  }

  /** Only the acceptance of its own session's submit finishes a screen. */
  lemma FinishedByAcceptance(s: System, e: Event)
    requires Inv(s) && e.Receive? && s.screen.step != Finished && Next(s, e).screen.step == Finished
    ensures s.screen.submit == Pending && Answered(s) && s.attempts[s.inFlight.value].reply.value == Accepted
    ensures s.attempts[s.inFlight.value].session == s.session
    ensures s.screen.service.Some?
            && Next(s, e).screen.confirmation == Some(Confirmation(e.orderNumber, s.screen.service.value))
  {
  }

  /** And when the guest is told it went through, the server has that very order. */
  lemma {:induction false} ConfirmedIsOrdered(es: seq<Event>, e: Event)
    requires CarefulRun(START, es) && e.Receive?
    requires var s := Run(START, es); s.screen.step != Finished && Next(s, e).screen.step == Finished
    ensures var s := Run(START, es);
            && s.screen.requestId.Some? && s.screen.service.Some?
            && s.screen.requestId.value in s.orders && s.orders[s.screen.requestId.value] == BodyOf(s.screen)
            && Next(s, e).screen.confirmation == Some(Confirmation(e.orderNumber, s.screen.service.value))
  {
    StartIsSound();
    RunKeepsInv(START, es);
    FinishedByAcceptance(Run(START, es), e);
    OrderIsTheLockedBasket(es, Run(START, es).inFlight.value);
  }

  // ----- the condition is exact --------------------------------------------------------------

  lemma RunSingle(s: System, e: Event)
    ensures Run(s, [e]) == Next(s, e)
  {
    assert [e][..0] == [];
  }

  lemma {:induction false} RunConcat(s: System, a: seq<Event>, b: seq<Event>)
    ensures Run(s, a + b) == Run(Run(s, a), b)
  {
    if |b| == 0 {
      assert a + b == a;
    } else {
      RunConcat(s, a, b[..|b| - 1]);
      assert (a + b)[..|a + b| - 1] == a + b[..|b| - 1];
    }
  }

  lemma {:induction false} CarefulConcat(s: System, a: seq<Event>, b: seq<Event>)
    requires CarefulRun(s, a) && CarefulRun(Run(s, a), b)
    ensures CarefulRun(s, a + b)
  {
    if |b| == 0 {
      assert a + b == a;
    } else {
      CarefulConcat(s, a, b[..|b| - 1]);
      RunConcat(s, a, b[..|b| - 1]);
      assert (a + b)[..|a + b| - 1] == a + b[..|b| - 1];
    }
  }

  lemma {:induction false} RunOne(s: System, es: seq<Event>, e: Event)
    ensures Run(s, es + [e]) == Next(Run(s, es), e)
  {
    assert (es + [e])[..|es|] == es;
  }

  /** A guest who is told no: edits, goes to the review, and submits again. */
  function SecondTry(n: nat, j: nat, choice: Choice, newId: RequestId): seq<Event> {
    [] + [Store(j)] + [Guest(Add(choice))] + [Guest(Goto(Review))] + [SubmitTap(newId)] + [Store(n)]
  }

  /** A screen that was just refused. */
  predicate Unlocked(s: System) {
    && s.inFlight.None? && s.screen.service.Some? && !IsBasketLocked(s.screen)
    && (s.screen.step == Review || s.screen.step == Menu)
  }

  lemma SecondTryRuns(s: System, n: nat, j: nat, choice: Choice, newId: RequestId)
    ensures Run(s, SecondTry(n, j, choice, newId))
         == StoreStep(SubmitTapStep(Reviewed(StoreStep(s, j), choice), newId), n)
  {
    var e1 := [] + [Store(j)];
    var e2 := e1 + [Guest(Add(choice))];
    var e3 := e2 + [Guest(Goto(Review))];
    RunOne(s, [], Store(j));
    RunOne(s, e1, Guest(Add(choice)));
    RunOne(s, e2, Guest(Goto(Review)));
    RunOne(s, e3, SubmitTap(newId));
    RunOne(s, e3 + [SubmitTap(newId)], Store(n));
  }

  /** An edit and a look at the review. */
  function Reviewed(s: System, choice: Choice): System {
    GuestStep(GuestStep(s, Add(choice)), Goto(Review))
  }

  lemma ReviewedIsReady(s: System, choice: Choice)
    requires Unlocked(s)
    ensures var t := Reviewed(s, choice);
            && CanSubmit(t) && t.screen.requestId.None? && t == s.(screen := t.screen)
  {
    assert AddToBasket(s.screen.basket, choice) != [];
  }

  /** A new submit is stored while an earlier one has its order. */
  lemma NewSubmitOrders(s: System, j: nat, newId: RequestId)
    requires CanSubmit(s) && s.screen.requestId.None? && Fresh(s, newId) && newId !in s.orders
    requires HasOrder(s, s.session, j)
    ensures TwoOrders(StoreStep(SubmitTapStep(s, newId), |s.attempts|), s.session)
  {
    var n := |s.attempts|;
    var t := SubmitTapStep(s, newId);
    assert t.attempts[n] == Attempt(s.session, BodyOf(t.screen), true, None) && t.attempts[n].body.requestId == newId;
    var u := StoreStep(t, n);
    assert t.attempts[j] == s.attempts[j] && u.attempts[j] == s.attempts[j];
    assert HasOrder(u, s.session, n) && HasOrder(u, s.session, j);
  }

  lemma SecondTryOrders(s: System, j: nat, choice: Choice, newId: RequestId)
    requires Unlocked(s) && Fresh(s, newId) && newId !in s.orders
    requires HasOrder(StoreStep(s, j), s.session, j)
    ensures TwoOrders(Run(s, SecondTry(|s.attempts|, j, choice, newId)), s.session)
  {
    var s1 := StoreStep(s, j);
    SecondTryRuns(s, |s.attempts|, j, choice, newId);
    ReviewedIsReady(s1, choice);
    assert forall i :: 0 <= i < |s.attempts| ==> s1.attempts[i].body == s.attempts[i].body;
    assert Fresh(Reviewed(s1, choice), newId);
    NewSubmitOrders(Reviewed(s1, choice), j, newId);
  }

  /** A refusal leaves the screen open to edits. */
  lemma RefusalUnlocks(s: System, e: Event)
    requires Inv(s) && Refusal(s, e)
    ensures Unlocked(Next(s, e)) && Next(s, e) == s.(screen := Next(s, e).screen, inFlight := None)
  {
  }

  lemma {:induction false} CarelessDoubles(s: System, e: Event, newId: RequestId) returns (more: seq<Event>)
    requires Inv(s) && Refusal(s, e) && !Careful(s, e) && Fresh(s, newId)
    ensures CarefulRun(Next(s, e), more) && TwoOrders(Run(Next(s, e), more), s.session) && Draws(more, iset{newId})
  {
    var u := Next(s, e);
    RefusalUnlocks(s, e);
    KeysCarryOver(s, u);
    var body :| Open(s, s.session, body);
    SameOpen(s, u);
    more := TriesAgain(u, body, newId);
  }

  /** After a refusal nobody had to give, the guest's next try makes a second order. */
  lemma TriesAgain(s: System, body: Body, newId: RequestId) returns (more: seq<Event>)
    requires Unlocked(s) && Open(s, s.session, body) && KeysSound(s) && Fresh(s, newId)
    ensures CarefulRun(s, more) && TwoOrders(Run(s, more), s.session) && Draws(more, iset{newId})
  {
    var j := OpenAttempt(s, body);
    more := SecondTry(|s.attempts|, j, Choice("", "", []), newId);
    SecondTryOrders(s, j, Choice("", "", []), newId);
    NoReceives(s, more);
  }

  lemma {:induction false} NoReceives(s: System, es: seq<Event>)
    requires forall n :: 0 <= n < |es| ==> !es[n].Receive?
    ensures CarefulRun(s, es)
  {
    if |es| > 0 {
      NoReceives(s, es[..|es| - 1]);
    }
  }

  lemma CarefulNeverDoubles(s: System, e: Event, more: seq<Event>)
    requires Inv(s) && Careful(s, e) && CarefulRun(Next(s, e), more)
    ensures !TwoOrders(Run(Next(s, e), more), s.session)
  {
    StepKeepsInv(s, e);
    RunKeepsInv(Next(s, e), more);
    SoundHasOneOrder(Run(Next(s, e), more), s.session);
  }

  /** Every id drawn is one of these. */
  ghost predicate Draws(es: seq<Event>, ids: iset<RequestId>) {
    forall e <- es :: e.SubmitTap? ==> e.newId in ids
  }

  /** After this answer the guest can end up with two orders, with no carelessness later. */
  ghost predicate CanDouble(s: System, e: Event, ids: iset<RequestId>) {
    exists more :: CarefulRun(Next(s, e), more) && Draws(more, ids) && TwoOrders(Run(Next(s, e), more), s.session)
  }

  lemma DoublesIffCareless(s: System, e: Event, ids: iset<RequestId>, newId: RequestId)
    requires Inv(s) && Refusal(s, e) && newId in ids && Fresh(s, newId)
    ensures !Careful(s, e) <==> CanDouble(s, e, ids)
  {
    if !Careful(s, e) {
      var more := CarelessDoubles(s, e, newId);
      assert Draws(more, ids);
    } else {
      forall more | CarefulRun(Next(s, e), more) ensures !TwoOrders(Run(Next(s, e), more), s.session) {
        CarefulNeverDoubles(s, e, more);
      }
    }
  }

  /**
   * The condition on refusals is exact. After any careful run, a refusal that arrives while
   * something sent before may still become an order, or is one, lets the guest end up with two
   * orders, with no further carelessness; if nothing sent before can, no careful run does. That
   * is so whatever ids the kiosk draws from, as long as one of them is unused.
   */
  lemma {:induction false} CarelessRefusalCanDouble(es: seq<Event>, e: Event, ids: iset<RequestId>, newId: RequestId)
    requires CarefulRun(START, es) && Refusal(Run(START, es), e)
    requires newId in ids && Fresh(Run(START, es), newId)
    ensures !Careful(Run(START, es), e) <==> CanDouble(Run(START, es), e, ids)
  {
    StartIsSound();
    RunKeepsInv(START, es);
    DoublesIffCareless(Run(START, es), e, ids, newId);
  }

  lemma OpenAttempt(s: System, body: Body) returns (j: nat)
    requires Open(s, s.session, body)
    ensures HasOrder(StoreStep(s, j), s.session, j)
  {
    if i :| 0 <= i < |s.attempts| && s.attempts[i].session == s.session && s.attempts[i].live && s.attempts[i].body == body {
      j := i;
    } else {
      var i :| 0 <= i < |s.attempts| && s.attempts[i].session == s.session
               && s.attempts[i].body.requestId in s.orders && s.orders[s.attempts[i].body.requestId] == body;
      j := i;
    }
  }

  /** A submit times out but is still on its way, and its retry meets the rate limit. */
  function RateLimitedRetry(choice: Choice, id: RequestId, other: RequestId): seq<Event> {
    [] + [Guest(Start(true, false))] + [Guest(Add(choice))] + [Guest(Goto(Review))] + [SubmitTap(id)] + [TimeOut]
    + [SubmitTap(other)] + [Respond(1, Deny(Rate))]
  }

  lemma {:induction false} RateLimitedRetryRuns(choice: Choice, id: RequestId, other: RequestId)
    ensures Run(START, RateLimitedRetry(choice, id, other))
         == RespondStep(SubmitTapStep(TimeOutStep(SubmitTapStep(Reviewed(GuestStep(START, Start(true, false)), choice), id)), other),
                        1, Deny(Rate))
  {
    var e1 := [] + [Guest(Start(true, false))];
    var e2 := e1 + [Guest(Add(choice))];
    var e3 := e2 + [Guest(Goto(Review))];
    var e4 := e3 + [SubmitTap(id)];
    var e5 := e4 + [TimeOut];
    RunOne(START, [], Guest(Start(true, false)));
    RunOne(START, e1, Guest(Add(choice)));
    RunOne(START, e2, Guest(Goto(Review)));
    RunOne(START, e3, SubmitTap(id));
    RunOne(START, e4, TimeOut);
    RunOne(START, e5, SubmitTap(other));
    RunOne(START, e5 + [SubmitTap(other)], Respond(1, Deny(Rate)));
  }

  /** After a time-out and a retry, two submits are on their way under one key. */
  lemma TimedOutAndRetried(s: System, id: RequestId, other: RequestId)
    requires CanSubmit(s) && s.attempts == [] && s.screen.requestId.None? && other != id
    ensures var t := SubmitTapStep(TimeOutStep(SubmitTapStep(s, id)), other);
            && |t.attempts| == 2 && t.inFlight == Some(1) && t.session == s.session && t.orders == s.orders
            && (forall i :: 0 <= i < 2 ==> t.attempts[i].session == s.session && t.attempts[i].live && t.attempts[i].reply.None?)
  {
    var s3 := SubmitTapStep(s, id);
    assert s3.attempts == [Attempt(s.session, BodyOf(s3.screen), true, None)];
    var s4 := TimeOutStep(s3);
    assert CanSubmit(s4) && Fresh(s4, other);
  }

  /** The retry is refused while the first submit is still on its way. */
  lemma RefusedWhileComing(s: System)
    requires |s.attempts| == 2 && s.inFlight == Some(1)
    requires forall i :: 0 <= i < 2 ==> s.attempts[i].session == s.session && s.attempts[i].live && s.attempts[i].reply.None?
    ensures var t := RespondStep(s, 1, Deny(Rate)); Refusal(t, Receive("", [])) && !Careful(t, Receive("", []))
  {
    var t := RespondStep(s, 1, Deny(Rate));
    assert t.attempts[0] == s.attempts[0];
    assert Coming(t, t.session, t.attempts[0].body) && Open(t, t.session, t.attempts[0].body);
  }

  lemma RateLimitedRetryIsCareful(choice: Choice, id: RequestId, other: RequestId)
    ensures CarefulRun(START, RateLimitedRetry(choice, id, other))
  {
    NoReceives(START, RateLimitedRetry(choice, id, other));
  }

  /** Such a refusal does come about, by the network alone, whatever the guest ordered. */
  lemma CarelessRefusalHappens(choice: Choice, id: RequestId, other: RequestId)
    requires other != id
    ensures CarefulRun(START, RateLimitedRetry(choice, id, other))
    ensures var s := Run(START, RateLimitedRetry(choice, id, other)); Refusal(s, Receive("", [])) && !Careful(s, Receive("", []))
  {
    RateLimitedRetryIsCareful(choice, id, other);
    var s0 := GuestStep(START, Start(true, false));
    var s1 := Reviewed(s0, choice);
    ReviewedIsReady(s0, choice);
    RateLimitedRetryRuns(choice, id, other);
    TwoComing(s1, id, other);
  }

  lemma TwoComing(s: System, id: RequestId, other: RequestId)
    requires CanSubmit(s) && s.attempts == [] && s.screen.requestId.None? && other != id
    ensures var t := RespondStep(SubmitTapStep(TimeOutStep(SubmitTapStep(s, id)), other), 1, Deny(Rate));
            Refusal(t, Receive("", [])) && !Careful(t, Receive("", []))
  {
    TimedOutAndRetried(s, id, other);
    RefusedWhileComing(SubmitTapStep(TimeOutStep(SubmitTapStep(s, id)), other));
  }
}
