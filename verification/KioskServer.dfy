/**
 * The kiosk against the server it talks to: every submit that arrives is a call of the protocol in
 * module UniqueOrders, with its lookup, its inserts and its lookups after a clash as steps of
 * their own, among the calls of websites and delivery platforms. What the kiosk can see of it is
 * shown to be what module KioskNetwork assumes, so that module's results hold of the order rows.
 */
module KioskServer {
  import opened Options
  import opened Uuid
  import opened KioskBasket
  import Flow = KioskFlow
  import Net = KioskNetwork
  import Rows = UniqueOrders

  /** The kiosk and the network as in KioskNetwork; the server with its rows and its calls. */
  datatype Site = Site(
    screen: Flow.State, session: nat, inFlight: Option<nat>, attempts: seq<Net.Attempt>, server: Rows.State)

  const START := Site(Flow.INITIAL, 0, None, [], Rows.START)

  datatype Event =
    | Kiosk(step: Net.Event)                        // the guest, a submit, an answer or a time-out
    | Arrive(attempt: nat)                          // a submit reaches the server
    | Serve(call: Rows.Event)                       // a step of any call
    | Answer(attempt: nat, refused: bool)           // a call that ended answers
    | TurnAway(attempt: nat, verdict: Net.Verdict)  // refused before its insert
    | Lose(attempt: nat)                            // a submit or an answer gets lost

  /** Attempts are the even callers; the odd ones come from elsewhere. */
  function CallerOf(attempt: nat): Rows.Caller {
    2 * attempt
  }

  function PhaseOf(s: Site, attempt: nat): Rows.Phase {
    Rows.PhaseOf(s.server, CallerOf(attempt))
  }

  /** A kiosk request's contents are those of its attempt. */
  function RequestOf(s: Site, attempt: nat): Rows.Request
    requires attempt < |s.attempts|
  {
    Rows.Kiosk(s.attempts[attempt].body.requestId, attempt)
  }

  /** The orders among the rows that came from the kiosk, by their keys. */
  function OrdersOf(rows: seq<Rows.Order>, attempts: seq<Net.Attempt>): map<Flow.RequestId, Flow.Body> {
    if |rows| == 0 then map[]
    else
      var rest, from := OrdersOf(rows[..|rows| - 1], attempts), rows[|rows| - 1].from;
      if from.Kiosk? && from.body < |attempts| then rest[from.requestId := attempts[from.body].body] else rest
  }

  /** The attempt may still come to be stored: not answered, and its call not past its last insert. */
  predicate CanStore(s: Site, i: nat) {
    i < |s.attempts| && s.attempts[i].live &&
    match PhaseOf(s, i)
    case Idle => Flow.MeetsSchema(s.attempts[i].body)
    case Checking(_) => true
    case Placing(_, _) => true
    case Clashed(_, attempt) => attempt < Rows.MAX_ATTEMPTS
    case Done(_, _) => false
  }

  function SeenAttempts(s: Site): (r: seq<Net.Attempt>)
    ensures |r| == |s.attempts|
    ensures forall i :: 0 <= i < |r| ==> r[i] == s.attempts[i].(live := CanStore(s, i))
  {
    seq(|s.attempts|, i requires 0 <= i < |s.attempts| => s.attempts[i].(live := CanStore(s, i)))
  }

  /** What KioskNetwork sees of a site. */
  function View(s: Site): Net.System {
    Net.System(s.screen, s.session, s.inFlight, SeenAttempts(s), OrdersOf(s.server.orders, s.attempts))
  }

  // ----- one step ----------------------------------------------------------------------------

  predicate AtKiosk(e: Net.Event) {
    e.Guest? || e.SubmitTap? || e.Receive? || e.TimeOut?
  }

  /** All but the server. */
  function Front(s: Site): Net.System {
    Net.System(s.screen, s.session, s.inFlight, s.attempts, map[])
  }

  function KioskStep(s: Site, e: Net.Event): Site {
    if !AtKiosk(e) then s
    else
      var n := Net.Next(Front(s), e);
      s.(screen := n.screen, session := n.session, inFlight := n.inFlight, attempts := n.attempts)
  }

  predicate CanArrive(s: Site, i: nat) {
    i < |s.attempts| && s.attempts[i].live && PhaseOf(s, i).Idle? && Flow.MeetsSchema(s.attempts[i].body)
  }

  /** A submit that meets the schema becomes a call. */
  function ArriveStep(s: Site, i: nat): Site {
    if CanArrive(s, i) then s.(server := Rows.Next(s.server, Rows.Begin(CallerOf(i), RequestOf(s, i)))) else s
  }

  /** Calls begin at the kiosk with an arrival; those of others are well-formed and not the kiosk's. */
  predicate CanServe(e: Rows.Event) {
    e.Begin? ==> e.who % 2 == 1 && !e.r.Kiosk? && Rows.WellFormed(e.r)
  }

  function ServeStep(s: Site, e: Rows.Event): Site {
    if CanServe(e) then s.(server := Rows.Next(s.server, e)) else s
  }

  predicate CanAnswer(s: Site, i: nat) {
    i < |s.attempts| && s.attempts[i].live && PhaseOf(s, i).Done?
  }

  function Respond(s: Site, i: nat, v: Net.Verdict): Site
    requires i < |s.attempts|
  {
    s.(attempts := s.attempts[i := s.attempts[i].(live := false, reply := Some(Net.ReplyTo(v)))])
  }

  /** A call that failed breaks or is refused, whatever it left behind. */
  function AnswerTo(answer: Rows.Answer, refused: bool): Net.Verdict {
    if answer.Placed? || answer.Replayed? then Net.Handle
    else if refused then Net.Deny(Flow.Validation)
    else Net.Break
  }

  function AnswerStep(s: Site, i: nat, refused: bool): Site {
    if CanAnswer(s, i) then Respond(s, i, AnswerTo(PhaseOf(s, i).answer, refused)) else s
  }

  predicate CanTurnAway(s: Site, i: nat, v: Net.Verdict) {
    && i < |s.attempts| && s.attempts[i].live
    && (PhaseOf(s, i).Idle? || PhaseOf(s, i).Checking? || PhaseOf(s, i).Placing?)
    && ((v.Deny? && (v.kind == Flow.Rate || v.kind == Flow.Validation)) || v.SaySoldOut?)
  }

  /** Over the rate limit, invalid, or sold out: the call ends there. */
  function TurnAwayStep(s: Site, i: nat, v: Net.Verdict): Site {
    if CanTurnAway(s, i, v) then Respond(s.(server := Rows.Next(s.server, Rows.Crash(CallerOf(i)))), i, v) else s
  }

  predicate CanLose(s: Site, i: nat) {
    i < |s.attempts| && (PhaseOf(s, i).Idle? || PhaseOf(s, i).Done?)
  }

  /** A submit that has not arrived, or an answer; a call under way goes on whoever listens. */
  function LoseStep(s: Site, i: nat): Site {
    if CanLose(s, i) then s.(attempts := s.attempts[i := s.attempts[i].(live := false)]) else s
  }

  function Next(s: Site, e: Event): Site {
    match e
    case Kiosk(k) => KioskStep(s, k)
    case Arrive(i) => ArriveStep(s, i)
    case Serve(r) => ServeStep(s, r)
    case Answer(i, refused) => AnswerStep(s, i, refused)
    case TurnAway(i, v) => TurnAwayStep(s, i, v)
    case Lose(i) => LoseStep(s, i)
  }

  function Run(s: Site, es: seq<Event>): Site {
    if |es| == 0 then s else Next(Run(s, es[..|es| - 1]), es[|es| - 1])
  }

  // ----- the orders among the rows -----------------------------------------------------------

  predicate SameBodies(a: seq<Net.Attempt>, b: seq<Net.Attempt>) {
    |a| <= |b| && forall i :: 0 <= i < |a| ==> b[i].body == a[i].body
  }

  /** Every kiosk row is of an attempt that was made. */
  ghost predicate RowsMade(rows: seq<Rows.Order>, attempts: seq<Net.Attempt>) {
    forall k :: 0 <= k < |rows| && rows[k].from.Kiosk? ==>
                  rows[k].from.body < |attempts| && rows[k].from.requestId == attempts[rows[k].from.body].body.requestId
  }

  /** This row is the kiosk's, under this key. */
  predicate IsRow(rows: seq<Rows.Order>, k: nat, id: Flow.RequestId) {
    k < |rows| && rows[k].from.Kiosk? && rows[k].from.requestId == id
  }

  lemma {:induction false} OrdersStay(rows: seq<Rows.Order>, a: seq<Net.Attempt>, b: seq<Net.Attempt>)
    requires SameBodies(a, b) && RowsMade(rows, a)
    ensures OrdersOf(rows, b) == OrdersOf(rows, a)
  {
    if |rows| > 0 {
      OrdersStay(rows[..|rows| - 1], a, b);
    }
  }

  lemma {:induction false} RowHasOrder(rows: seq<Rows.Order>, attempts: seq<Net.Attempt>, k: nat)
    requires RowsMade(rows, attempts) && k < |rows| && rows[k].from.Kiosk?
    ensures rows[k].from.requestId in OrdersOf(rows, attempts)
  {
    if k < |rows| - 1 {
      RowHasOrder(rows[..|rows| - 1], attempts, k);
    }
  }

  lemma {:induction false} OrderHasRow(rows: seq<Rows.Order>, attempts: seq<Net.Attempt>, id: Flow.RequestId) returns (k: nat)
    requires RowsMade(rows, attempts) && id in OrdersOf(rows, attempts)
    ensures IsRow(rows, k, id) && OrdersOf(rows, attempts)[id] == attempts[rows[k].from.body].body
  {
    var n := |rows| - 1;
    if rows[n].from.Kiosk? && rows[n].from.requestId == id {
      k := n;
    } else {
      k := OrderHasRow(rows[..n], attempts, id);
    }
  }

  // ----- what every step keeps ---------------------------------------------------------------

  /** A call under way is of an attempt made, in its name, and still listened to. */
  predicate CallSound(s: Site, i: nat) {
    var phase := PhaseOf(s, i);
    !phase.Idle? ==>
      && i < |s.attempts| && phase.r == RequestOf(s, i) && IsUuid(s.attempts[i].body.requestId)
      && (!phase.Done? ==> s.attempts[i].live)
  }

  ghost predicate OthersSound(s: Site) {
    forall c: Rows.Caller :: c % 2 == 1 && !Rows.PhaseOf(s.server, c).Idle? ==> !Rows.PhaseOf(s.server, c).r.Kiosk?
  }

  ghost predicate CallsSound(s: Site) {
    forall i: nat :: CallSound(s, i)
  }

  ghost predicate Inv(s: Site) {
    && Rows.Inv(s.server) && Rows.OnlyWellFormed(s.server)
    && CallsSound(s) && OthersSound(s) && RowsMade(s.server.orders, s.attempts)
    && forall i :: 0 <= i < |s.attempts| && s.attempts[i].live ==> s.attempts[i].reply.None?
  }

  // ----- the server's side -------------------------------------------------------------------

  lemma OneRowMore(rows: seq<Rows.Order>, o: Rows.Order, attempts: seq<Net.Attempt>)
    ensures OrdersOf(rows + [o], attempts) ==
              if o.from.Kiosk? && o.from.body < |attempts|
              then OrdersOf(rows, attempts)[o.from.requestId := attempts[o.from.body].body]
              else OrdersOf(rows, attempts)
  {
    assert (rows + [o])[..|rows|] == rows;
  }

  /** A call's step adds the row of its request, or none. */
  lemma RowsGrow(s: Rows.State, e: Rows.Event)
    ensures var t := Rows.Next(s, e);
            t.orders == s.orders
            || (e.Insert? && Rows.PhaseOf(s, e.who).Placing? &&
                var o := Rows.Order(Rows.PhaseOf(s, e.who).r, e.number);
                t.orders == s.orders + [o] && !Rows.Blocked(o, s.orders))
  {
  }

  /** The step stores an order of the kiosk's. */
  predicate Stores(s: Site, e: Rows.Event) {
    e.Insert? && e.who % 2 == 0 && Rows.Next(s.server, e).orders != s.server.orders
  }

  lemma OrderBlocks(s: Site, i: nat, number: nat)
    requires Inv(s) && i < |s.attempts| && s.attempts[i].body.requestId in OrdersOf(s.server.orders, s.attempts)
    ensures Rows.Blocked(Rows.Order(RequestOf(s, i), number), s.server.orders)
  {
    var k := OrderHasRow(s.server.orders, s.attempts, s.attempts[i].body.requestId);
    assert Rows.Taken(Rows.Order(RequestOf(s, i), number), s.server.orders[k]);
  }

  lemma KeyIsFree(s: Site, i: nat, number: nat)
    requires Inv(s) && i < |s.attempts| && !Rows.Blocked(Rows.Order(RequestOf(s, i), number), s.server.orders)
    ensures s.attempts[i].body.requestId !in OrdersOf(s.server.orders, s.attempts)
  {
    var id := s.attempts[i].body.requestId;
    if id in OrdersOf(s.server.orders, s.attempts) {
      OrderBlocks(s, i, number);
    }
  }

  lemma CallersAreAttempts(s: Site, e: Rows.Event)
    requires Inv(s) && e.who % 2 == 0 && !Rows.PhaseOf(s.server, e.who).Idle?
    ensures var i := e.who / 2; CallerOf(i) == e.who && CallSound(s, i)
  {
    assert CallSound(s, e.who / 2);
  }

  // ----- Inv over the steps ------------------------------------------------------------------

  lemma OthersStand(s: Rows.State, e: Rows.Event)
    ensures forall d: Rows.Caller :: d != e.who ==> Rows.PhaseOf(Rows.Next(s, e), d) == Rows.PhaseOf(s, d)
  {
  }

  /** A call that is not begun anew keeps its request and, once it is done, is done. */
  lemma CallGoesOn(s: Rows.State, e: Rows.Event)
    requires !e.Begin?
    ensures var p, q := Rows.PhaseOf(s, e.who), Rows.PhaseOf(Rows.Next(s, e), e.who);
            && (p.Idle? <==> q.Idle?) && (!p.Idle? ==> q.r == p.r) && (p.Done? ==> q.Done?)
  {
  }

  lemma RowsStayMade(s: Site, e: Rows.Event)
    requires Inv(s)
    ensures RowsMade(Rows.Next(s.server, e).orders, s.attempts)
  {
    RowsGrow(s.server, e);
    if Rows.Next(s.server, e).orders != s.server.orders && e.who % 2 == 0 {
      CallersAreAttempts(s, e);
    }
  }

  lemma ServeKeeps(s: Site, e: Rows.Event)
    requires Inv(s)
    ensures Inv(ServeStep(s, e))
  {
    if CanServe(e) {
      var t := ServeStep(s, e);
      Rows.StepKeepsInv(s.server, e);
      Rows.StepWellFormed(s.server, e);
      OthersStand(s.server, e);
      RowsStayMade(s, e);
      if !e.Begin? {
        CallGoesOn(s.server, e);
      }
      forall i: nat ensures CallSound(t, i) {
        assert CallSound(s, i);
      }
    }
  }

  lemma ArriveKeeps(s: Site, i: nat)
    requires Inv(s)
    ensures Inv(ArriveStep(s, i))
  {
    if CanArrive(s, i) {
      var t, e := ArriveStep(s, i), Rows.Begin(CallerOf(i), RequestOf(s, i));
      UuidHasNoColon(s.attempts[i].body.requestId);
      Rows.StepKeepsInv(s.server, e);
      Rows.StepWellFormed(s.server, e);
      OthersStand(s.server, e);
      forall j: nat ensures CallSound(t, j) {
        assert CallSound(s, j);
      }
    }
  }

  /** Attempts are added or answered; calls and rows stay. */
  lemma AttemptsChange(s: Site, t: Site)
    requires Inv(s) && t.server == s.server && SameBodies(s.attempts, t.attempts)
    requires forall i: nat :: i < |s.attempts| && s.attempts[i].live && !t.attempts[i].live ==>
                              PhaseOf(s, i).Idle? || PhaseOf(s, i).Done?
    requires forall i :: 0 <= i < |t.attempts| && t.attempts[i].live ==> t.attempts[i].reply.None?
    ensures Inv(t)
  {
    forall i: nat ensures CallSound(t, i) {
      assert CallSound(s, i);
    }
  }

  lemma KioskLeavesAttempts(s: Site, e: Net.Event)
    requires AtKiosk(e)
    ensures var t := KioskStep(s, e);
            && SameBodies(s.attempts, t.attempts) && t.server == s.server
            && (forall i :: 0 <= i < |s.attempts| ==> t.attempts[i] == s.attempts[i])
            && |t.attempts| <= |s.attempts| + 1
            && (|t.attempts| > |s.attempts| ==> t.attempts[|s.attempts|].live && t.attempts[|s.attempts|].reply.None?)
  {
  }

  lemma CrashFrees(s: Rows.State, c: Rows.Caller)
    ensures var p := Rows.PhaseOf(Rows.Next(s, Rows.Crash(c)), c); p.Idle? || p.Done?
  {
  }

  lemma StepKeepsInv(s: Site, e: Event)
    requires Inv(s)
    ensures Inv(Next(s, e))
  {
    match e
    case Kiosk(k) =>
      if AtKiosk(k) {
        KioskLeavesAttempts(s, k);
        AttemptsChange(s, Next(s, e));
      }
    case Arrive(i) => ArriveKeeps(s, i);
    case Serve(r) => ServeKeeps(s, r);
    case Answer(_, _) => AttemptsChange(s, Next(s, e));
    case TurnAway(i, v) =>
      if CanTurnAway(s, i, v) {
        var crash := Rows.Crash(CallerOf(i));
        ServeKeeps(s, crash);
        CrashFrees(s.server, CallerOf(i));
        AttemptsChange(ServeStep(s, crash), Next(s, e));
      }
    case Lose(_) => AttemptsChange(s, Next(s, e));
  }

  // ----- what the kiosk sees -----------------------------------------------------------------

  /** What a step comes to in KioskNetwork. */
  function Steps(s: Site, e: Event): seq<Net.Event> {
    match e
    case Kiosk(k) => if AtKiosk(k) then [k] else []
    case Arrive(_) => []
    case Serve(r) => if Stores(s, r) then [Net.Store(r.who / 2)] else []
    case Answer(i, refused) => if CanAnswer(s, i) then [Net.Respond(i, AnswerTo(PhaseOf(s, i).answer, refused))] else []
    case TurnAway(i, v) => if CanTurnAway(s, i, v) then [Net.Respond(i, v)] else []
    case Lose(_) => []
  }

  /** The attempt a step is about; for a step of the kiosk, the one it may make. */
  function About(s: Site, e: Event): nat {
    match e
    case Kiosk(_) => |s.attempts|
    case Arrive(i) => i
    case Serve(r) => r.who / 2
    case Answer(i, _) => i
    case TurnAway(i, _) => i
    case Lose(i) => i
  }

  /** One attempt is past storing anything, if it was not before. */
  function LossOf(n: Net.System, t: Net.System, i: nat): seq<Net.Event> {
    if i < |n.attempts| && i < |t.attempts| && n.attempts[i].live && !t.attempts[i].live then [Net.Lose(i)] else []
  }

  function Losses(s: Site, e: Event): seq<Net.Event> {
    LossOf(Net.Run(View(s), Steps(s, e)), View(Next(s, e)), About(s, e))
  }

  function Seen(s: Site, e: Event): seq<Net.Event> {
    Steps(s, e) + Losses(s, e)
  }

  function SeenRun(s: Site, es: seq<Event>): seq<Net.Event> {
    if |es| == 0 then []
    else SeenRun(s, es[..|es| - 1]) + Seen(Run(s, es[..|es| - 1]), es[|es| - 1])
  }

  /** The same but for what the attempt `i` may still become. */
  ghost predicate SameButFor(n: Net.System, t: Net.System, i: nat) {
    && n == t.(attempts := n.attempts) && |n.attempts| == |t.attempts|
    && forall j :: 0 <= j < |t.attempts| ==>
                     n.attempts[j] == t.attempts[j] || (j == i && n.attempts[j] == t.attempts[j].(live := true))
  }

  lemma LossMakesUp(n: Net.System, t: Net.System, i: nat)
    requires SameButFor(n, t, i)
    ensures Net.Run(n, LossOf(n, t, i)) == t
  {
    if LossOf(n, t, i) == [] {
      assert n.attempts == t.attempts;
    } else {
      Net.RunSingle(n, Net.Lose(i));
      assert n.attempts[i := n.attempts[i].(live := false)] == t.attempts;
    }
  }

  lemma LossesMakeUp(s: Site, e: Event)
    requires SameButFor(Net.Run(View(s), Steps(s, e)), View(Next(s, e)), About(s, e))
    ensures Net.Run(View(s), Seen(s, e)) == View(Next(s, e))
  {
    Net.RunConcat(View(s), Steps(s, e), Losses(s, e));
    LossMakesUp(Net.Run(View(s), Steps(s, e)), View(Next(s, e)), About(s, e));
  }

  /** Attempts whose calls stand where they stood may become what they might. */
  lemma OthersAsBefore(s: Site, t: Site, i: nat)
    requires |s.attempts| <= |t.attempts|
    requires forall j: nat :: j < |s.attempts| && j != i ==>
                                t.attempts[j] == s.attempts[j] && PhaseOf(t, j) == PhaseOf(s, j)
    ensures forall j: nat :: j < |s.attempts| && j != i ==> SeenAttempts(t)[j] == SeenAttempts(s)[j]
  {
    forall j: nat | j < |s.attempts| && j != i ensures CanStore(t, j) == CanStore(s, j) {
    }
  }

  lemma KioskRefines(s: Site, k: Net.Event)
    requires Inv(s) && AtKiosk(k)
    ensures SameButFor(Net.Next(View(s), k), View(KioskStep(s, k)), |s.attempts|)
  {
    var t := KioskStep(s, k);
    KioskLeavesAttempts(s, k);
    OrdersStay(s.server.orders, s.attempts, t.attempts);
    OthersAsBefore(s, t, |s.attempts|);
    KioskStepAlike(s, k);
  }

  /** The kiosk's steps look neither at the orders nor at what attempts may still become. */
  lemma KioskStepAlike(s: Site, k: Net.Event)
    requires AtKiosk(k)
    ensures var t, n := KioskStep(s, k), Net.Next(View(s), k);
            && n.screen == t.screen && n.session == t.session && n.inFlight == t.inFlight && n.orders == View(s).orders
            && |n.attempts| == |t.attempts|
            && (forall j :: 0 <= j < |s.attempts| ==> n.attempts[j] == View(s).attempts[j])
            && (forall j :: |s.attempts| <= j < |t.attempts| ==> n.attempts[j] == t.attempts[j])
  {
    assert forall id :: Net.Fresh(View(s), id) <==> Net.Fresh(Front(s), id);
  }

  /** A call's step never brings an attempt back. */
  lemma NeverBack(s: Site, e: Rows.Event, i: nat)
    requires Inv(s) && CanServe(e) && CanStore(ServeStep(s, e), i)
    ensures CanStore(s, i)
  {
    var t := ServeStep(s, e);
    OthersStand(s.server, e);
    assert CallSound(s, i);
    assert Rows.PhaseSound(s.server, CallerOf(i), PhaseOf(s, i));
    if e.who == CallerOf(i) {
      CallGoesOn(s.server, e);
    }
  }

  /** Of a call's step the kiosk sees a store, or nothing, and perhaps that it is past storing. */
  lemma ServeRefines(s: Site, e: Rows.Event)
    requires Inv(s) && CanServe(e)
    ensures SameButFor(if Stores(s, e) then Net.StoreStep(View(s), e.who / 2) else View(s), View(ServeStep(s, e)), e.who / 2)
  {
    var t := ServeStep(s, e);
    OthersStand(s.server, e);
    ServeOrders(s, e);
    OthersAsBefore(s, t, e.who / 2);
    forall j: nat | j < |s.attempts| ensures CanStore(t, j) ==> CanStore(s, j) {
      if CanStore(t, j) {
        NeverBack(s, e, j);
      }
    }
  }

  lemma ServeOrders(s: Site, e: Rows.Event)
    requires Inv(s) && CanServe(e)
    ensures var t, i := ServeStep(s, e), e.who / 2;
            && (Stores(s, e) ==> i < |s.attempts| && CanStore(s, i) && s.attempts[i].body.requestId !in View(s).orders)
            && View(t).orders == if Stores(s, e) then View(s).orders[s.attempts[i].body.requestId := s.attempts[i].body]
                                 else View(s).orders
  {
    var t := Rows.Next(s.server, e);
    RowsGrow(s.server, e);
    if t.orders != s.server.orders {
      var o := Rows.Order(Rows.PhaseOf(s.server, e.who).r, e.number);
      OneRowMore(s.server.orders, o, s.attempts);
      if e.who % 2 == 0 {
        CallersAreAttempts(s, e);
        KeyIsFree(s, e.who / 2, e.number);
      }
    }
  }

  /** A call begun is an attempt that may be stored as before. */
  lemma ArriveRefines(s: Site, i: nat)
    requires Inv(s) && CanArrive(s, i)
    ensures SameButFor(View(s), View(ArriveStep(s, i)), i)
  {
    var t := ArriveStep(s, i);
    OthersStand(s.server, Rows.Begin(CallerOf(i), RequestOf(s, i)));
    OthersAsBefore(s, t, i);
  }

  /** The key is taken by the kiosk's own order if by any. */
  lemma KeyIsTheKiosks(s: Site, k: nat, id: Flow.RequestId)
    requires Inv(s) && IsUuid(id) && k < |s.server.orders| && Rows.KeyOf(s.server.orders[k].from) == Some(Rows.RequestKey(id))
    ensures IsRow(s.server.orders, k, id) && id in OrdersOf(s.server.orders, s.attempts)
  {
    var from := s.server.orders[k].from;
    if from.Online? {
      Rows.ScopedHasColon(from.keyId, from.idempotencyKey);
      UuidHasNoColon(id);
    }
    RowHasOrder(s.server.orders, s.attempts, k);
  }

  /** A call that ended well has an order under its key. */
  lemma AcceptedIsStored(s: Site, i: nat)
    requires Inv(s) && PhaseOf(s, i).Done? && (PhaseOf(s, i).answer.Placed? || PhaseOf(s, i).answer.Replayed?)
    ensures i < |s.attempts| && s.attempts[i].body.requestId in OrdersOf(s.server.orders, s.attempts)
  {
    assert CallSound(s, i);
    assert Rows.PhaseSound(s.server, CallerOf(i), PhaseOf(s, i));
    KeyIsTheKiosks(s, PhaseOf(s, i).answer.order, s.attempts[i].body.requestId);
  }

  lemma RespondRefines(s: Site, i: nat, v: Net.Verdict)
    requires Inv(s) && i < |s.attempts| && Net.MayRespond(View(s), i, v)
    ensures View(Respond(s, i, v)) == Net.RespondStep(View(s), i, v)
  {
    var t := Respond(s, i, v);
    OrdersStay(s.server.orders, s.attempts, t.attempts);
    OthersAsBefore(s, t, i);
    assert View(t).attempts == Net.RespondStep(View(s), i, v).attempts;
  }

  lemma AnswerRefines(s: Site, i: nat, refused: bool)
    requires Inv(s) && CanAnswer(s, i)
    ensures View(AnswerStep(s, i, refused)) == Net.RespondStep(View(s), i, AnswerTo(PhaseOf(s, i).answer, refused))
  {
    if PhaseOf(s, i).answer.Placed? || PhaseOf(s, i).answer.Replayed? {
      AcceptedIsStored(s, i);
    }
    RespondRefines(s, i, AnswerTo(PhaseOf(s, i).answer, refused));
  }

  lemma CrashStoresNothing(s: Site, i: nat)
    requires Inv(s)
    ensures var t := ServeStep(s, Rows.Crash(CallerOf(i)));
            Inv(t) && t.attempts == s.attempts && SameButFor(View(s), View(t), i)
  {
    ServeKeeps(s, Rows.Crash(CallerOf(i)));
    ServeRefines(s, Rows.Crash(CallerOf(i)));
  }

  lemma TurnAwayRefines(s: Site, i: nat, v: Net.Verdict)
    requires Inv(s) && CanTurnAway(s, i, v)
    ensures View(TurnAwayStep(s, i, v)) == Net.RespondStep(View(s), i, v)
  {
    var t := ServeStep(s, Rows.Crash(CallerOf(i)));
    CrashStoresNothing(s, i);
    RespondRefines(t, i, v);
    assert Net.RespondStep(View(t), i, v).attempts == Net.RespondStep(View(s), i, v).attempts;
  }

  lemma LoseRefines(s: Site, i: nat)
    requires Inv(s) && CanLose(s, i)
    ensures SameButFor(View(s), View(LoseStep(s, i)), i)
  {
    var t := LoseStep(s, i);
    OrdersStay(s.server.orders, s.attempts, t.attempts);
    OthersAsBefore(s, t, i);
  }

  lemma StepsRefine(s: Site, e: Event)
    requires Inv(s)
    ensures SameButFor(Net.Run(View(s), Steps(s, e)), View(Next(s, e)), About(s, e))
  {
    if Steps(s, e) != [] {
      Net.RunSingle(View(s), Steps(s, e)[0]);
    }
    match e
    case Kiosk(k) =>
      if AtKiosk(k) {
        KioskRefines(s, k);
      }
    case Arrive(i) =>
      if CanArrive(s, i) {
        ArriveRefines(s, i);
      }
    case Serve(r) =>
      if CanServe(r) {
        ServeRefines(s, r);
      }
    case Answer(i, refused) =>
      if CanAnswer(s, i) {
        AnswerRefines(s, i, refused);
      }
    case TurnAway(i, v) =>
      if CanTurnAway(s, i, v) {
        TurnAwayRefines(s, i, v);
      }
    case Lose(i) =>
      if CanLose(s, i) {
        LoseRefines(s, i);
      }
  }

  /** Whatever happens at the site is to the kiosk a few steps of KioskNetwork. */
  lemma StepRefines(s: Site, e: Event)
    requires Inv(s)
    ensures View(Next(s, e)) == Net.Run(View(s), Seen(s, e))
  {
    StepsRefine(s, e);
    LossesMakeUp(s, e);
  }

  // ----- how a submit is answered ------------------------------------------------------------

  /** A submit that arrives is a call of its own, for its key. */
  lemma ArrivalIsACall(s: Site, i: nat)
    requires i < |s.attempts| && s.attempts[i].live && PhaseOf(s, i) == Rows.Idle && Flow.MeetsSchema(s.attempts[i].body)
    ensures var t := Next(s, Arrive(i));
            && t == s.(server := t.server) && t.server.orders == s.server.orders
            && PhaseOf(t, i) == Rows.Checking(Rows.Kiosk(s.attempts[i].body.requestId, i))
  {
  }

  /** A call that got its order is accepted; one that failed broke, or was refused for what it threw. */
  lemma AnswerTells(s: Site, i: nat, refused: bool)
    requires i < |s.attempts| && s.attempts[i].live && PhaseOf(s, i).Done?
    ensures var t, answer := Next(s, Answer(i, refused)), PhaseOf(s, i).answer;
            && t == s.(attempts := t.attempts) && |t.attempts| == |s.attempts|
            && (forall j :: 0 <= j < |s.attempts| && j != i ==> t.attempts[j] == s.attempts[j])
            && t.attempts[i] == s.attempts[i].(live := false,
                 reply := Some(match answer
                               case Placed(_) => Net.Accepted
                               case Replayed(_) => Net.Accepted
                               case _ => if refused then Net.Denied(Flow.Validation) else Net.Broken))
  {
  }

  /** One that is turned away is told so, and its call is over without an insert of its own. */
  lemma TurningAwayTells(s: Site, i: nat, v: Net.Verdict)
    requires Inv(s) && i < |s.attempts| && s.attempts[i].live
    requires PhaseOf(s, i) == Rows.Idle || PhaseOf(s, i).Checking? || PhaseOf(s, i).Placing?
    requires v == Net.Deny(Flow.Rate) || v == Net.Deny(Flow.Validation) || v.SaySoldOut?
    ensures var t := Next(s, TurnAway(i, v));
            && t.server.orders == s.server.orders && !PhaseOf(t, i).Placing? && !PhaseOf(t, i).Checking?
            && !t.attempts[i].live
            && t.attempts[i].reply == Some(match v
                                           case Deny(kind) => Net.Denied(kind)
                                           case SaySoldOut(ids) => Net.SoldOut(ids)
                                           case _ => Net.Broken)
  {
  }

  /** Once its insert has clashed, or it has ended, a call is not turned away any more. */
  lemma TooLateToTurnAway(s: Site, i: nat, v: Net.Verdict)
    requires PhaseOf(s, i).Clashed? || PhaseOf(s, i).Done?
    ensures Next(s, TurnAway(i, v)) == s
  {
  }

  /** What gets lost has not arrived, or has its call behind it; then nothing more comes of it. */
  lemma LosingTells(s: Site, i: nat)
    requires i < |s.attempts|
    ensures PhaseOf(s, i) == Rows.Idle || PhaseOf(s, i).Done? ==>
              var t := Next(s, Lose(i));
              && t == s.(attempts := s.attempts[i := s.attempts[i].(live := false)])
              && Next(t, Arrive(i)) == t && forall refused :: Next(t, Answer(i, refused)) == t
    ensures PhaseOf(s, i) != Rows.Idle && !PhaseOf(s, i).Done? ==> Next(s, Lose(i)) == s
  {
  }

  /** Others' calls begin like any, in no attempt's name. */
  lemma OthersBegin(s: Site, c: Rows.Caller, r: Rows.Request)
    requires Rows.PhaseOf(s.server, c) == Rows.Idle && !r.Kiosk? && Rows.WellFormed(r)
    ensures var t := Next(s, Serve(Rows.Begin(c, r)));
            if c % 2 == 1 then t == s.(server := t.server) && Rows.PhaseOf(t.server, c) != Rows.Idle else t == s
  {
  }

  // ----- over whole runs ---------------------------------------------------------------------

  /** A refusal comes only when nothing this guest sent can still be stored, or is. */
  ghost predicate Careful(s: Site, e: Event) {
    e.Kiosk? ==> Net.Careful(View(s), e.step)
  }

  ghost predicate CarefulRun(s: Site, es: seq<Event>) {
    |es| > 0 ==> CarefulRun(s, es[..|es| - 1]) && Careful(Run(s, es[..|es| - 1]), es[|es| - 1])
  }

  lemma {:induction false} RunKeepsInv(s: Site, es: seq<Event>)
    requires Inv(s)
    ensures Inv(Run(s, es))
  {
    if |es| > 0 {
      RunKeepsInv(s, es[..|es| - 1]);
      StepKeepsInv(Run(s, es[..|es| - 1]), es[|es| - 1]);
    }
  }

  lemma StartIsSound()
    ensures Inv(START) && View(START) == Net.START
  {
  }

  /** Only the kiosk's own step can be a refusal, and it is the first that is seen. */
  lemma SeenIsCareful(s: Site, e: Event)
    requires Careful(s, e)
    ensures Net.CarefulRun(View(s), Seen(s, e))
  {
    if Steps(s, e) != [] {
      assert Steps(s, e)[..0] == [];
    }
    Net.NoReceives(Net.Run(View(s), Steps(s, e)), Losses(s, e));
    Net.CarefulConcat(View(s), Steps(s, e), Losses(s, e));
  }

  /** Every run at the site is, to the kiosk, a run of KioskNetwork, and a careful one if it is careful. */
  lemma {:induction false} SiteRefinesNetwork(s: Site, es: seq<Event>)
    requires Inv(s)
    ensures View(Run(s, es)) == Net.Run(View(s), SeenRun(s, es))
    ensures CarefulRun(s, es) ==> Net.CarefulRun(View(s), SeenRun(s, es))
  {
    if |es| > 0 {
      var before, e := es[..|es| - 1], es[|es| - 1];
      SiteRefinesNetwork(s, before);
      RunKeepsInv(s, before);
      StepRefines(Run(s, before), e);
      Net.RunConcat(View(s), SeenRun(s, before), Seen(Run(s, before), e));
      if CarefulRun(s, es) {
        SeenIsCareful(Run(s, before), e);
        Net.CarefulConcat(View(s), SeenRun(s, before), Seen(Run(s, before), e));
      }
    }
  }

  // ----- results about the rows --------------------------------------------------------------

  /** The row came from this session's submits. */
  predicate RowOf(s: Site, k: nat, session: nat) {
    k < |s.server.orders| && s.server.orders[k].from.Kiosk? && s.server.orders[k].from.body < |s.attempts|
    && s.attempts[s.server.orders[k].from.body].session == session
  }

  /** Two rows from one guest. */
  ghost predicate TwoRows(s: Site, session: nat) {
    exists k: nat, l: nat :: k != l && RowOf(s, k, session) && RowOf(s, l, session)
  }

  lemma KeysDiffer(rows: seq<Rows.Order>, k: nat, l: nat)
    requires Rows.Distinct(rows) && k < |rows| && l < |rows| && k != l && rows[k].from.Kiosk? && rows[l].from.Kiosk?
    ensures rows[k].from.requestId != rows[l].from.requestId
  {
    var first, later := if k < l then k else l, if k < l then l else k;
    assert !Rows.Taken(rows[later], rows[first]);
  }

  /** Two rows of one guest are two orders to the kiosk. */
  lemma TwoRowsAreTwoOrders(s: Site, session: nat)
    requires Inv(s) && TwoRows(s, session)
    ensures Net.TwoOrders(View(s), session)
  {
    var k: nat, l: nat :| k != l && RowOf(s, k, session) && RowOf(s, l, session);
    var i, j := s.server.orders[k].from.body, s.server.orders[l].from.body;
    RowHasOrder(s.server.orders, s.attempts, k);
    RowHasOrder(s.server.orders, s.attempts, l);
    KeysDiffer(s.server.orders, k, l);
    assert Net.HasOrder(View(s), session, i) && Net.HasOrder(View(s), session, j);
  }

  /**
   * However calls interleave, the rows hold at most one order from each guest, as long as no
   * refusal comes while something that guest sent can still be stored, or is.
   */
  lemma {:induction false} OneRowPerSession(es: seq<Event>, session: nat)
    requires CarefulRun(START, es)
    ensures !TwoRows(Run(START, es), session)
  {
    StartIsSound();
    RunKeepsInv(START, es);
    SiteRefinesNetwork(START, es);
    Net.OneOrderPerSession(SeenRun(START, es), session);
    if TwoRows(Run(START, es), session) {
      TwoRowsAreTwoOrders(Run(START, es), session);
    }
  }

  /** After a careful run the kiosk sees a sound network. */
  lemma {:induction false} SeenIsSound(es: seq<Event>)
    requires CarefulRun(START, es)
    ensures Inv(Run(START, es)) && Net.Inv(View(Run(START, es)))
  {
    StartIsSound();
    RunKeepsInv(START, es);
    SiteRefinesNetwork(START, es);
    Net.StartIsSound();
    Net.RunKeepsInv(Net.START, SeenRun(START, es));
  }

  /** When the screen says done, one of the rows is the very order that was shown. */
  lemma {:induction false} ConfirmedIsRow(es: seq<Event>, e: Net.Event) returns (k: nat)
    requires CarefulRun(START, es) && e.Receive?
    requires var s := Run(START, es);
             s.screen.step != Flow.Finished && Next(s, Kiosk(e)).screen.step == Flow.Finished
    ensures var s := Run(START, es);
            && RowOf(s, k, s.session) && s.screen.requestId.Some? && s.screen.service.Some?
            && s.attempts[s.server.orders[k].from.body].body == Flow.BodyOf(s.screen)
  {
    var s := Run(START, es);
    SeenIsSound(es);
    StartIsSound();
    SiteRefinesNetwork(START, es);
    KioskStepAlike(s, e);
    Net.ConfirmedIsOrdered(SeenRun(START, es), e);
    k := OrderHasRow(s.server.orders, s.attempts, s.screen.requestId.value);
    assert Net.KeysSound(View(s));
    var i :| 0 <= i < |s.attempts| && View(s).attempts[i].session == s.session
             && View(s).attempts[i].body.requestId == s.screen.requestId.value;
    assert View(s).attempts[s.server.orders[k].from.body].session == s.session;
  }
}
