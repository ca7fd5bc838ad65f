/**
 * What the kiosk's screen shows, told from the actions of a run: each field is what the last
 * action that speaks of it said. Module KioskFlow has it the other way round, action by action.
 */
module KioskHistory {
  import opened Options
  import opened KioskBasket
  import opened KioskFlow
  import Net = KioskNetwork
  import Site = KioskServer

  function Before(actions: seq<Action>): State
    requires |actions| > 0
  {
    Play(INITIAL, actions[..|actions| - 1])
  }

  function LastOf(actions: seq<Action>): Action
    requires |actions| > 0
  {
    actions[|actions| - 1]
  }

  function Front(actions: seq<Action>): seq<Action>
    requires |actions| > 0
  {
    actions[..|actions| - 1]
  }

  // ----- which actions count -----------------------------------------------------------------

  /** An answer is due, or the last one left open whether there is an order. */
  predicate OutcomeOpen(s: State) {
    s.submit == Pending || s.submit == Error(Network) || s.submit == Error(ServerError)
  }

  /** The guest is done with: a start over, or an order that went through. */
  predicate Ends(s: State, a: Action) {
    a == Reset || (a.SubmitOk? && s.submit == Pending && s.service.Some?)
  }

  predicate Edits(s: State, a: Action) {
    (a.Add? || a.ChangeQty? || a.Remove?) && !OutcomeOpen(s)
  }

  predicate Submits(s: State, a: Action) {
    a.SubmitStart? && s.step == Review && s.submit != Pending && s.basket != [] && s.service.Some?
  }

  /** The service the guest taps, or the only one on offer at the start. */
  function Tapped(s: State, a: Action): Option<Service> {
    if a.ChooseServiceType? && s.step == ChooseService then Some(a.service)
    else if a == Start(true, false) && s.step == Welcome then Some(DineIn)
    else if (a == Start(false, true) || a == Start(false, false)) && s.step == Welcome then Some(Takeaway)
    else None
  }

  /** The screen moves between the middle steps only; not to an empty review, nor off one that waits. */
  predicate Moves(s: State, a: Action) {
    && a.Goto? && a.step in {ChooseService, Menu, Review} && s.step in {ChooseService, Menu, Review}
    && (a.step == Review ==> s.basket != []) && (OutcomeOpen(s) ==> a.step == Review)
  }

  // ----- each field by itself ----------------------------------------------------------------

  function ServiceTapped(actions: seq<Action>): Option<Service> {
    if |actions| == 0 || Ends(Before(actions), LastOf(actions)) then None
    else if Tapped(Before(actions), LastOf(actions)).Some? then Tapped(Before(actions), LastOf(actions))
    else ServiceTapped(Front(actions))
  }

  /** The first key drawn since the basket was last changed. */
  function KeyInUse(actions: seq<Action>): Option<RequestId> {
    if |actions| == 0 then None
    else
      var s, a := Before(actions), LastOf(actions);
      if Ends(s, a) || Edits(s, a) || a.ItemsUnavailable? then None
      else if Submits(s, a) && KeyInUse(Front(actions)).None? then Some(a.newRequestId)
      else KeyInUse(Front(actions))
  }

  /** What became of the last submit, since the basket was last changed. */
  function LastOutcome(actions: seq<Action>): Submit {
    if |actions| == 0 then Submit.Idle
    else
      var s, a := Before(actions), LastOf(actions);
      if Ends(s, a) || Edits(s, a) || a.ItemsUnavailable? then Submit.Idle
      else if Submits(s, a) then Pending
      else if a.SubmitFail? && LastOutcome(Front(actions)) == Pending then Error(a.kind)
      else LastOutcome(Front(actions))
  }

  /** The names last reported sold out, until the guest does something. */
  function NamesGone(actions: seq<Action>): seq<string> {
    if |actions| == 0 then []
    else
      var s, a := Before(actions), LastOf(actions);
      if Ends(s, a) || Edits(s, a) || Moves(s, a) then []
      else if a.ItemsUnavailable? then a.names
      else NamesGone(Front(actions))
  }

  function ScreenShown(actions: seq<Action>): Step {
    if |actions| == 0 then Welcome
    else
      var s, a := Before(actions), LastOf(actions);
      if a == Reset then Welcome
      else if Ends(s, a) then Finished
      else if a.ItemsUnavailable? then Menu
      else if a == Start(true, true) && ScreenShown(Front(actions)) == Welcome then ChooseService
      else if Tapped(s, a).Some? then Menu
      else if Moves(s, a) then a.step
      else ScreenShown(Front(actions))
  }

  /** The number of the order that went through, and the service it was for. */
  function LastConfirmed(actions: seq<Action>): Option<Confirmation> {
    if |actions| == 0 || LastOf(actions) == Reset then None
    else if Ends(Before(actions), LastOf(actions)) then
      (match ServiceTapped(Front(actions))
       case Some(service) => Some(Confirmation(LastOf(actions).orderNumber, service))
       case None => None)
    else LastConfirmed(Front(actions))
  }

  /** The basket changes by edits and by what is sold out, and is gone with the guest. */
  function BasketLeft(actions: seq<Action>): Basket {
    if |actions| == 0 || Ends(Before(actions), LastOf(actions)) then []
    else
      var basket, a := BasketLeft(Front(actions)), LastOf(actions);
      if a.ItemsUnavailable? then RemoveItems(basket, a.ids)
      else if !Edits(Before(actions), a) then basket
      else if a.Add? then AddToBasket(basket, a.choice)
      else if a.ChangeQty? then ChangeQuantity(basket, a.key, a.delta)
      else RemoveLine(basket, a.key)
  }

  lemma {:induction false} ServiceIsTheTapped(actions: seq<Action>)
    ensures Play(INITIAL, actions).service == ServiceTapped(actions)
  {
    if |actions| > 0 {
      ServiceIsTheTapped(Front(actions));
    }
  }

  lemma {:induction false} KeyIsTheFirst(actions: seq<Action>)
    ensures Play(INITIAL, actions).requestId == KeyInUse(actions)
  {
    if |actions| > 0 {
      KeyIsTheFirst(Front(actions));
    }
  }

  lemma {:induction false} OutcomeIsTheLast(actions: seq<Action>)
    ensures Play(INITIAL, actions).submit == LastOutcome(actions)
  {
    if |actions| > 0 {
      OutcomeIsTheLast(Front(actions));
    }
  }

  lemma {:induction false} NamesAreTheLast(actions: seq<Action>)
    ensures Play(INITIAL, actions).unavailable == NamesGone(actions)
  {
    if |actions| > 0 {
      NamesAreTheLast(Front(actions));
    }
  }

  lemma {:induction false} ScreenIsTheLast(actions: seq<Action>)
    ensures Play(INITIAL, actions).step == ScreenShown(actions)
  {
    if |actions| > 0 {
      ScreenIsTheLast(Front(actions));
    }
  }

  lemma {:induction false} BasketIsWhatIsLeft(actions: seq<Action>)
    ensures Play(INITIAL, actions).basket == BasketLeft(actions)
  {
    if |actions| > 0 {
      BasketIsWhatIsLeft(Front(actions));
    }
  }

  /**
   * Whatever is done, in whatever order: the service is the one last tapped, the key the first one
   * drawn for this basket, the outcome that of the last submit with the failure it was given, the
   * names those last reported, the screen where the last move led, and the basket what the edits
   * made of it.
   */
  lemma ScreenIsItsHistory(actions: seq<Action>)
    ensures var s := Play(INITIAL, actions);
            && s.service == ServiceTapped(actions) && s.requestId == KeyInUse(actions) && s.submit == LastOutcome(actions)
            && s.unavailable == NamesGone(actions) && s.step == ScreenShown(actions) && s.basket == BasketLeft(actions)
  {
    ServiceIsTheTapped(actions);
    KeyIsTheFirst(actions);
    OutcomeIsTheLast(actions);
    NamesAreTheLast(actions);
    ScreenIsTheLast(actions);
    BasketIsWhatIsLeft(actions);
  }

  /** While it is confirmed, the number is the server's and the service the one that was tapped. */
  lemma {:induction false} ConfirmationIsItsHistory(actions: seq<Action>)
    ensures Play(INITIAL, actions).confirmation == LastConfirmed(actions)
  {
    if |actions| > 0 {
      ConfirmationIsItsHistory(Front(actions));
      ServiceIsTheTapped(Front(actions));
    }
  }

  // ----- what is sent ------------------------------------------------------------------------

  /** How many units of a choice, by its key, a body orders. */
  function UnitsOrdered(items: seq<Item>, key: string): int {
    if |items| == 0 then 0
    else
      var last := items[|items| - 1];
      UnitsOrdered(items[..|items| - 1], key)
      + if LineKey(Choice(last.itemId, "", last.modifierIds)) == key then last.quantity else 0
  }

  lemma NotInFront(basket: Basket)
    requires UniqueKeys(basket) && |basket| > 0
    ensures !HasKey(basket[..|basket| - 1], basket[|basket| - 1].key)
  {
  }

  lemma FrontSound(basket: Basket)
    requires Sound(basket) && |basket| > 0
    ensures Sound(basket[..|basket| - 1])
  {
  }

  /** A line's key does not depend on the name shown. */
  lemma KeyOfLine(basket: Basket)
    requires Sound(basket) && |basket| > 0
    ensures var choice := basket[|basket| - 1].choice;
            LineKey(Choice(choice.itemId, "", choice.modifierIds)) == basket[|basket| - 1].key
  {
  }

  lemma {:induction false} UnitsAreQuantities(basket: Basket, key: string)
    requires Sound(basket)
    ensures UnitsOrdered(ToOrderItems(basket), key) == Quantity(basket, key)
  {
    if |basket| > 0 {
      var front, last := basket[..|basket| - 1], basket[|basket| - 1];
      FrontSound(basket);
      KeyOfLine(basket);
      UnitsAreQuantities(front, key);
      assert ToOrderItems(basket)[..|basket| - 1] == ToOrderItems(front);
      if last.key == key {
        NotInFront(basket);
        QuantityAbsent(front, key);
      }
    }
  }

  /**
   * What a pending submit sent: the service the guest tapped, the key in use, and of every choice
   * as many units as the basket that the edits made.
   */
  lemma BodyIsWhatWasChosen(actions: seq<Action>, key: string)
    requires Play(INITIAL, actions).submit == Pending
    ensures var s := Play(INITIAL, actions);
            && s.requestId.Some? && s.service.Some?
            && Some(BodyOf(s).service) == ServiceTapped(actions) && Some(BodyOf(s).requestId) == KeyInUse(actions)
            && UnitsOrdered(BodyOf(s).items, key) == Quantity(BasketLeft(actions), key)
  {
    EveryStateIsValid(actions);
    ScreenIsItsHistory(actions);
    UnitsAreQuantities(Play(INITIAL, actions).basket, key);
  }

  // ----- over the network --------------------------------------------------------------------

  /** On the review, with a service and a basket, and with no answer due to this guest or to one before. */
  predicate MaySubmit(s: Net.System) {
    s.inFlight.None? && s.screen.submit != Pending && s.screen.step == Review && s.screen.basket != [] && s.screen.service.Some?
  }

  predicate NeverSent(s: Net.System, id: RequestId) {
    forall i :: 0 <= i < |s.attempts| ==> s.attempts[i].body.requestId != id
  }

  /** What the screen waits for was answered. */
  predicate HasAnswer(s: Net.System) {
    s.inFlight.Some? && s.inFlight.value < |s.attempts| && s.attempts[s.inFlight.value].reply != None
  }

  /** What a step of the network dispatches to the screen. */
  function Dispatched(s: Net.System, e: Net.Event): seq<Action> {
    match e
    case Guest(a) => if a.SubmitStart? || a.SubmitOk? || a.SubmitFail? || a.ItemsUnavailable? then [] else [a]
    case SubmitTap(newId) => if MaySubmit(s) && NeverSent(s, newId) then [SubmitStart(newId)] else []
    case Receive(orderNumber, names) =>
      if !HasAnswer(s) then []
      else
        (match s.attempts[s.inFlight.value].reply.value
         case Accepted => [SubmitOk(orderNumber)]
         case Denied(kind) => [SubmitFail(kind)]
         case SoldOut(ids) => [ItemsUnavailable(ids, names)]
         case Broken => [SubmitFail(ServerError)])
    case TimeOut => if s.inFlight.Some? then [SubmitFail(Network)] else []
    case _ => []
  }

  function Actions(es: seq<Net.Event>): seq<Action> {
    if |es| == 0 then []
    else
      Actions(es[..|es| - 1]) + Dispatched(Net.Run(Net.START, es[..|es| - 1]), es[|es| - 1])
  }

  lemma PlayMore(actions: seq<Action>, more: seq<Action>)
    requires |more| <= 1
    ensures Play(INITIAL, actions + more)
            == if more == [] then Play(INITIAL, actions) else Reduce(Play(INITIAL, actions), more[0])
  {
    if more == [] {
      assert actions + more == actions;
    } else {
      assert (actions + more)[..|actions|] == actions;
    }
  }

  lemma OneDispatched(s: Net.System, e: Net.Event)
    ensures |Dispatched(s, e)| <= 1
    ensures Net.Next(s, e).screen == if Dispatched(s, e) == [] then s.screen else Reduce(s.screen, Dispatched(s, e)[0])
  {
  }

  /**
   * A submit taken up is one more attempt, of this guest, with what the screen then holds, and it
   * is waited for; nothing else makes one.
   */
  lemma SubmitSends(s: Net.System, e: Net.Event)
    ensures var t := Net.Next(s, e);
            if e.SubmitTap? && MaySubmit(s) && NeverSent(s, e.newId) then
              && |t.attempts| == |s.attempts| + 1 && t.attempts[..|s.attempts|] == s.attempts
              && t.inFlight == Some(|s.attempts|) && t.session == s.session && t.orders == s.orders
              && t.screen.requestId.Some? && t.screen.service.Some?
              && t.attempts[|s.attempts|] == Net.Attempt(s.session, BodyOf(t.screen), true, None)
            else |t.attempts| == |s.attempts|
  {
  }

  /** The order under a key is that of the first attempt stored under it, and stays. */
  lemma StoredStays(s: Net.System, e: Net.Event, id: RequestId)
    ensures id in s.orders ==> id in Net.Next(s, e).orders && Net.Next(s, e).orders[id] == s.orders[id]
    ensures id !in s.orders && id in Net.Next(s, e).orders ==>
              e.Store? && e.attempt < |s.attempts| && s.attempts[e.attempt].live
              && s.attempts[e.attempt].body.requestId == id && Net.Next(s, e).orders[id] == s.attempts[e.attempt].body
  {
  }

  /** An attempt is answered once, as the server says, and only with an order there as accepted. */
  lemma AnsweredOnce(s: Net.System, e: Net.Event, i: nat)
    requires i < |s.attempts|
    ensures var t := Net.Next(s, e);
            && i < |t.attempts| && (s.attempts[i].reply.Some? ==> t.attempts[i].reply == s.attempts[i].reply)
            && (t.attempts[i].reply != s.attempts[i].reply ==>
                  && e.Respond? && e.attempt == i && !t.attempts[i].live
                  && match e.verdict
                     case Handle => t.attempts[i].reply == Some(Net.Accepted) && s.attempts[i].body.requestId in s.orders
                     case Deny(kind) => t.attempts[i].reply == Some(Net.Denied(kind)) && (kind == Rate || kind == Validation)
                     case SaySoldOut(ids) => t.attempts[i].reply == Some(Net.SoldOut(ids))
                     case Break => t.attempts[i].reply == Some(Net.Broken))
  {
  }

  /** The guest is counted on at every start over, and then only. */
  lemma StartingOverCounts(s: Net.System, e: Net.Event)
    ensures Net.Next(s, e).session > s.session <==> e == Net.Guest(Reset)
    ensures e != Net.Guest(Reset) ==> Net.Next(s, e).session == s.session
  {
  }

  /** The screen is what the actions dispatched make of it. */
  lemma {:induction false} ScreenIsPlayed(es: seq<Net.Event>)
    ensures Net.Run(Net.START, es).screen == Play(INITIAL, Actions(es))
  {
    if |es| > 0 {
      ScreenIsPlayed(es[..|es| - 1]);
      OneDispatched(Net.Run(Net.START, es[..|es| - 1]), es[|es| - 1]);
      PlayMore(Actions(es[..|es| - 1]), Dispatched(Net.Run(Net.START, es[..|es| - 1]), es[|es| - 1]));
    }
  }

  /** The order is the guest's: the service tapped, and as many units of every choice as were chosen. */
  ghost predicate OrderIsChosen(order: Body, actions: seq<Action>) {
    && Some(order.service) == ServiceTapped(actions) && Some(order.requestId) == KeyInUse(actions)
    && forall key :: UnitsOrdered(order.items, key) == Quantity(BasketLeft(actions), key)
  }

  lemma LockedIsChosen(actions: seq<Action>)
    requires var s := Play(INITIAL, actions); s.requestId.Some? && s.service.Some?
    ensures OrderIsChosen(BodyOf(Play(INITIAL, actions)), actions)
  {
    EveryStateIsValid(actions);
    ScreenIsItsHistory(actions);
    forall key {
      UnitsAreQuantities(Play(INITIAL, actions).basket, key);
    }
  }

  /** Until the guest is told, the order the server has is what the guest's taps chose. */
  lemma {:induction false} OrderIsWhatWasTapped(es: seq<Net.Event>, i: nat)
    requires Net.CarefulRun(Net.START, es) && Net.HasOrder(Net.Run(Net.START, es), Net.Run(Net.START, es).session, i)
    requires Net.Run(Net.START, es).screen.step != Finished
    ensures var s := Net.Run(Net.START, es);
            OrderIsChosen(s.orders[s.attempts[i].body.requestId], Actions(es))
  {
    Net.OrderIsTheLockedBasket(es, i);
    ScreenIsPlayed(es);
    LockedIsChosen(Actions(es));
  }

  /** And when the guest is told it went through, it is that order, under the number the server gave. */
  lemma {:induction false} ConfirmedIsWhatWasTapped(es: seq<Net.Event>, e: Net.Event)
    requires Net.CarefulRun(Net.START, es) && e.Receive?
    requires var s := Net.Run(Net.START, es); s.screen.step != Finished && Net.Next(s, e).screen.step == Finished
    ensures var s := Net.Run(Net.START, es);
            && s.screen.requestId.Some? && s.screen.requestId.value in s.orders
            && OrderIsChosen(s.orders[s.screen.requestId.value], Actions(es))
            && ServiceTapped(Actions(es)).Some?
            && Net.Next(s, e).screen.confirmation == Some(Confirmation(e.orderNumber, ServiceTapped(Actions(es)).value))
  {
    Net.ConfirmedIsOrdered(es, e);
    ScreenIsPlayed(es);
    ScreenIsItsHistory(Actions(es));
    LockedIsChosen(Actions(es));
  }

  /** So it is of the order rows: when the screen says done, one of them is what was tapped. */
  lemma {:induction false} ConfirmedRowIsWhatWasTapped(es: seq<Site.Event>, e: Net.Event) returns (k: nat)
    requires Site.CarefulRun(Site.START, es) && e.Receive?
    requires var s := Site.Run(Site.START, es);
             s.screen.step != Finished && Site.Next(s, Site.Kiosk(e)).screen.step == Finished
    ensures var s := Site.Run(Site.START, es);
            && Site.RowOf(s, k, s.session)
            && OrderIsChosen(s.attempts[s.server.orders[k].from.body].body, Actions(Site.SeenRun(Site.START, es)))
  {
    k := Site.ConfirmedIsRow(es, e);
    Site.StartIsSound();
    Site.SiteRefinesNetwork(Site.START, es);
    ScreenIsPlayed(Site.SeenRun(Site.START, es));
    LockedIsChosen(Actions(Site.SeenRun(Site.START, es)));
  }
}
