/** The kiosk's order flow: what a guest, and the answers to a submit, may do to the screen. */
module KioskFlow {
  import opened Options
  import opened KioskBasket
  import opened Uuid

  type RequestId = string

  datatype Step = Welcome | ChooseService | Menu | Review | Finished
  datatype Service = DineIn | Takeaway
  datatype Failure = Network | ServerError | Validation | Rate
  datatype Submit = Idle | Pending | Error(kind: Failure)
  datatype Confirmation = Confirmation(orderNumber: string, service: Service)

  datatype State = State(
    step: Step, service: Option<Service>, basket: Basket, requestId: Option<RequestId>,
    submit: Submit, confirmation: Option<Confirmation>, unavailable: seq<string>)

  const INITIAL := State(Welcome, None, [], None, Idle, None, [])

  datatype Action =
    | Start(dineIn: bool, takeaway: bool)
    | ChooseServiceType(service: Service)
    | Add(choice: Choice)
    | ChangeQty(key: string, delta: int)
    | Remove(key: string)
    | Goto(step: Step)
    | SubmitStart(newRequestId: RequestId)
    | SubmitOk(orderNumber: string)
    | SubmitFail(kind: Failure)
    | ItemsUnavailable(ids: seq<string>, names: seq<string>)
    | Reset

  /** An answer that leaves open whether there is an order now. */
  predicate IsAmbiguous(s: State) {
    s.submit == Error(Network) || s.submit == Error(ServerError)
  }

  predicate IsBasketLocked(s: State) {
    s.submit == Pending || IsAmbiguous(s)
  }

  function Edited(s: State, basket: Basket): State {
    s.(basket := basket, requestId := None, submit := Idle, unavailable := [])
  }

  function Reduce(s: State, a: Action): State {
    match a
    case Start(dineIn, takeaway) =>
      if s.step != Welcome then s
      else if dineIn && takeaway then s.(step := ChooseService)
      else s.(step := Menu, service := Some(if dineIn then DineIn else Takeaway))
    case ChooseServiceType(service) =>
      if s.step != ChooseService then s else s.(step := Menu, service := Some(service))
    case Add(choice) =>
      if IsBasketLocked(s) then s else Edited(s, AddToBasket(s.basket, choice))
    case ChangeQty(key, delta) =>
      if IsBasketLocked(s) then s else Edited(s, ChangeQuantity(s.basket, key, delta))
    case Remove(key) =>
      if IsBasketLocked(s) then s else Edited(s, RemoveLine(s.basket, key))
    case Goto(step) => GotoStep(s, step)
    case SubmitStart(newRequestId) =>
      if s.step != Review || s.submit == Pending || s.basket == [] || s.service.None? then s
      else s.(requestId := Some(if s.requestId.Some? then s.requestId.value else newRequestId), submit := Pending)
    case SubmitOk(orderNumber) =>
      if s.submit != Pending || s.service.None? then s
      else INITIAL.(step := Finished, confirmation := Some(Confirmation(orderNumber, s.service.value)))
    case SubmitFail(kind) =>
      if s.submit != Pending then s else s.(submit := Error(kind))
    case ItemsUnavailable(ids, names) =>
      s.(basket := RemoveItems(s.basket, ids), requestId := None, submit := Idle, step := Menu, unavailable := names)
    case Reset => INITIAL
  }

  /** A guest moves between the middle steps only, and with the basket locked only to the review. */
  function GotoStep(s: State, step: Step): State {
    if s.step == Welcome || s.step == Finished || step == Welcome || step == Finished then s
    else if step == Review && s.basket == [] then s
    else if IsBasketLocked(s) && step != Review then s
    else s.(step := step, unavailable := [])
  }

  function Play(s: State, actions: seq<Action>): State {
    if |actions| == 0 then s else Reduce(Play(s, actions[..|actions| - 1]), actions[|actions| - 1])
  }

  // ----- what every action keeps -------------------------------------------------------------

  /** There is a request id exactly after a submit, and a locked screen shows what was submitted. */
  predicate ScreenSound(s: State) {
    && (s.requestId.Some? <==> s.submit != Idle)
    && (IsBasketLocked(s) ==> s.step == Review && s.service.Some? && s.basket != [])
  }

  ghost predicate Valid(s: State) {
    Sound(s.basket) && ScreenSound(s)
  }

  lemma EditKeepsSound(s: State, a: Action)
    requires Sound(s.basket)
    ensures a.Add? ==> Sound(AddToBasket(s.basket, a.choice))
    ensures a.ChangeQty? ==> Sound(ChangeQuantity(s.basket, a.key, a.delta))
    ensures a.Remove? ==> Sound(RemoveLine(s.basket, a.key))
    ensures a.ItemsUnavailable? ==> Sound(RemoveItems(s.basket, a.ids))
  {
    match a
    case Add(choice) => AddSound(s.basket, choice);
    case ChangeQty(key, delta) => ChangeSound(s.basket, key, delta);
    case Remove(key) => RemoveLineRemovesIt(s.basket, key, "");
    case ItemsUnavailable(ids, _) => FilterSound(s.basket, (l: Line) => l.choice.itemId !in ids);
    case _ =>
  }

  lemma ActionKeepsScreenSound(s: State, a: Action)
    requires ScreenSound(s)
    ensures ScreenSound(Reduce(s, a))
  {
  }

  lemma ActionKeepsValid(s: State, a: Action)
    requires Valid(s)
    ensures Valid(Reduce(s, a))
  {
    EditKeepsSound(s, a);
    ActionKeepsScreenSound(s, a);
  }

  /** Whatever happens, in whatever order, answers out of turn included. */
  lemma {:induction false} EveryStateIsValid(actions: seq<Action>)
    ensures Valid(Play(INITIAL, actions))
  {
    if |actions| > 0 {
      EveryStateIsValid(actions[..|actions| - 1]);
      ActionKeepsValid(Play(INITIAL, actions[..|actions| - 1]), actions[|actions| - 1]);
    }
  }

  // ----- what is sent ------------------------------------------------------------------------

  datatype Item = Item(itemId: string, quantity: int, modifierIds: seq<string>)

  datatype Body = Body(requestId: RequestId, service: Service, items: seq<Item>)

  function ToOrderItems(basket: Basket): (items: seq<Item>)
    ensures |items| == |basket|
    ensures forall i :: 0 <= i < |basket| ==>
                          items[i] == Item(basket[i].choice.itemId, basket[i].quantity, basket[i].choice.modifierIds)
  {
    if |basket| == 0 then []
    else
      var last := basket[|basket| - 1];
      ToOrderItems(basket[..|basket| - 1]) + [Item(last.choice.itemId, last.quantity, last.choice.modifierIds)]
  }

  function BodyOf(s: State): Body
    requires s.requestId.Some? && s.service.Some?
  {
    Body(s.requestId.value, s.service.value, ToOrderItems(s.basket))
  }

  /** What the server's schema asks of ids and options. */
  predicate IdsFit(itemId: string, modifierIds: seq<string>) {
    1 <= |itemId| <= 64 && |modifierIds| <= 30 && forall m <- modifierIds :: |m| <= 64
  }

  /** What the server's schema asks of a body. */
  predicate MeetsSchema(b: Body) {
    && IsUuid(b.requestId)
    && 1 <= |b.items| <= 50
    && forall i :: 0 <= i < |b.items| ==>
                     1 <= b.items[i].quantity <= 20 && IdsFit(b.items[i].itemId, b.items[i].modifierIds)
  }

  /** The schema, bound by bound. */
  lemma TheSchema(b: Body)
    ensures MeetsSchema(b) <==>
            && IsUuid(b.requestId) && |b.items| != 0 && |b.items| < 51
            && forall item <- b.items ::
                 && 0 < item.quantity < 21 && item.itemId != "" && |item.itemId| < 65
                 && |item.modifierIds| < 31 && forall m <- item.modifierIds :: |m| < 65
  {
    if MeetsSchema(b) {
      forall item <- b.items ensures 1 <= item.quantity <= 20 && IdsFit(item.itemId, item.modifierIds) {
        var i :| 0 <= i < |b.items| && b.items[i] == item;
      }
    } else if forall item <- b.items :: 0 < item.quantity < 21 && IdsFit(item.itemId, item.modifierIds) {
      assert forall i :: 0 <= i < |b.items| ==> b.items[i] in b.items;
    }
  }

  predicate ChoicesFit(basket: Basket) {
    forall line <- basket :: IdsFit(line.choice.itemId, line.choice.modifierIds)
  }

  /**
   * While a submit is pending the review screen is shown and what was sent has a key, a service
   * and between one and fifty lines of one to twenty; no line repeats another's choice; and it
   * meets the whole schema if and only if the choices in the basket and the request id do.
   */
  lemma EveryBodyMeetsTheSchema(actions: seq<Action>)
    requires Play(INITIAL, actions).submit == Pending
    ensures var s := Play(INITIAL, actions);
            && s.step == Review && s.requestId.Some? && s.service.Some?
            && 1 <= |s.basket| <= 50 && (forall line <- s.basket :: 1 <= line.quantity <= 20)
            && (MeetsSchema(BodyOf(s)) <==> ChoicesFit(s.basket) && IsUuid(s.requestId.value))
    ensures var items := ToOrderItems(Play(INITIAL, actions).basket);
            forall i, j :: 0 <= i < j < |items| ==>
                             LineKey(Choice(items[i].itemId, "", items[i].modifierIds))
                             != LineKey(Choice(items[j].itemId, "", items[j].modifierIds))
  {
    EveryStateIsValid(actions);
    var s := Play(INITIAL, actions);
    SchemaIsChoices(s);
    KeysTell(s.basket);
  }

  lemma SchemaIsChoices(s: State)
    requires Sound(s.basket) && s.basket != [] && s.requestId.Some? && s.service.Some?
    ensures MeetsSchema(BodyOf(s)) <==> ChoicesFit(s.basket) && IsUuid(s.requestId.value)
  {
    var items := BodyOf(s).items;
    if MeetsSchema(BodyOf(s)) {
      forall line | line in s.basket ensures IdsFit(line.choice.itemId, line.choice.modifierIds) {
        var i :| 0 <= i < |s.basket| && s.basket[i] == line;
        assert IdsFit(items[i].itemId, items[i].modifierIds);
      }
    }
    if ChoicesFit(s.basket) {
      forall i | 0 <= i < |items|
        ensures 1 <= items[i].quantity <= 20 && IdsFit(items[i].itemId, items[i].modifierIds)
      {
        assert s.basket[i] in s.basket;
      }
    }
  }

  lemma KeysTell(basket: Basket)
    requires Sound(basket)
    ensures var items := ToOrderItems(basket);
            forall i, j :: 0 <= i < j < |items| ==>
                             LineKey(Choice(items[i].itemId, "", items[i].modifierIds))
                             != LineKey(Choice(items[j].itemId, "", items[j].modifierIds))
  {
    forall i, j | 0 <= i < j < |basket|
      ensures LineKey(Choice(basket[i].choice.itemId, "", basket[i].choice.modifierIds))
              != LineKey(Choice(basket[j].choice.itemId, "", basket[j].choice.modifierIds))
    {
      assert basket[i].key != basket[j].key;
    }
  }

  lemma AddKeepsFit(basket: Basket, choice: Choice)
    requires ChoicesFit(basket) && IdsFit(choice.itemId, choice.modifierIds)
    ensures ChoicesFit(AddToBasket(basket, choice))
  {
    AdjustedKeepsFit(basket, LineKey(choice), 1);
  }

  lemma AdjustedKeepsFit(basket: Basket, key: string, delta: int)
    requires ChoicesFit(basket)
    ensures ChoicesFit(Adjusted(basket, key, delta))
  {
    var changed := Adjusted(basket, key, delta);
    forall line | line in changed ensures IdsFit(line.choice.itemId, line.choice.modifierIds) {
      var i :| 0 <= i < |changed| && changed[i] == line;
      assert basket[i] in basket && basket[i].choice == line.choice;
    }
  }

  lemma {:induction false} FilterKeepsFit(basket: Basket, keep: Line -> bool)
    requires ChoicesFit(basket)
    ensures ChoicesFit(Filter(basket, keep))
  {
    if |basket| > 0 {
      assert forall line <- basket[..|basket| - 1] :: line in basket;
      assert basket[|basket| - 1] in basket;
      FilterKeepsFit(basket[..|basket| - 1], keep);
    }
  }

  /** When every choice offered fits, so does every body sent. */
  lemma {:induction false} OfferedChoicesFit(actions: seq<Action>)
    requires forall a <- actions :: a.Add? ==> IdsFit(a.choice.itemId, a.choice.modifierIds)
    ensures ChoicesFit(Play(INITIAL, actions).basket)
  {
    if |actions| > 0 {
      var s, a := Play(INITIAL, actions[..|actions| - 1]), actions[|actions| - 1];
      assert a in actions;
      OfferedChoicesFit(actions[..|actions| - 1]);
      match a
      case Add(choice) => AddKeepsFit(s.basket, choice);
      case ChangeQty(key, delta) =>
        AdjustedKeepsFit(s.basket, key, delta);
        FilterKeepsFit(Adjusted(s.basket, key, delta), (l: Line) => l.quantity > 0);
      case Remove(key) => FilterKeepsFit(s.basket, (l: Line) => l.key != key);
      case ItemsUnavailable(ids, _) => FilterKeepsFit(s.basket, (l: Line) => l.choice.itemId !in ids);
      case _ =>
    }
  }

  /** When every id drawn has the form, so has the one that is sent. */
  lemma {:induction false} DrawnIdsFit(actions: seq<Action>)
    requires forall a <- actions :: a.SubmitStart? ==> IsUuid(a.newRequestId)
    ensures var s := Play(INITIAL, actions); s.requestId.Some? ==> IsUuid(s.requestId.value)
  {
    if |actions| > 0 {
      DrawnIdsFit(actions[..|actions| - 1]);
      assert actions[|actions| - 1] in actions;
    }
  }

  // ----- the lock ----------------------------------------------------------------------------

  /** What a guest can do other than start over. */
  predicate ByGuest(a: Action) {
    a.Start? || a.ChooseServiceType? || a.Add? || a.ChangeQty? || a.Remove? || a.Goto? || a.SubmitStart?
  }

  /** What is at stake in a submit. */
  predicate SameOrder(s: State, t: State) {
    t.basket == s.basket && t.service == s.service && t.requestId == s.requestId && t.step == s.step
  }

  /** Until an answer comes or the guest starts over, nothing the guest does changes the order. */
  lemma {:induction false} LockHolds(s: State, actions: seq<Action>)
    requires Valid(s) && IsBasketLocked(s) && forall a <- actions :: ByGuest(a)
    ensures IsBasketLocked(Play(s, actions)) && SameOrder(s, Play(s, actions))
  {
    if |actions| > 0 {
      LockHolds(s, actions[..|actions| - 1]);
      assert actions[|actions| - 1] in actions;
    }
  }
}
