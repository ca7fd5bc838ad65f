/**
 * Kitchen steps taken with no connection: what a cook's taps queue, and what the server makes of
 * them when they are sent. A request may fail before or after the server applied it.
 */
module KitchenQueue {
  import opened Options
  import opened Outbox
  import opened KotLifecycle
  import KitchenBoard

  /** How a request fails or not: refused and accepted requests are both answered. */
  datatype Outcome = Heard | AnswerLost | NotReached

  datatype Phone = Phone(
    server: map<TicketId, KotStatus>,
    cached: map<TicketId, KotStatus>,    // the tickets of the last refresh
    queue: seq<Item>,
    added: nat,
    refused: nat)                        // updates the server turned down

  datatype Event =
    | Tap(id: TicketId, reached: bool)   // the next step; the request itself failed, perhaps after it was applied
    | Star(id: TicketId, isPriority: bool)
    | Send(outcome: Outcome)             // the head of the queue
    | Refresh

  // ----- the server's rule -------------------------------------------------------------------

  /** A ticket that has the status already, or may move to it. */
  predicate Takes(status: KotStatus, target: KotStatus) {
    Forward(target) && (status == target || CanTransition(status, target))
  }

  predicate Allows(server: map<TicketId, KotStatus>, update: Update) {
    match update
    case SetStatus(id, status) => id in server && Takes(server[id], status)
    case SetPriority(id, _) => id in server
    case Other(_) => true
  }

  function Serve(server: map<TicketId, KotStatus>, update: Update): map<TicketId, KotStatus> {
    if update.SetStatus? && Allows(server, update) then server[update.id := update.status] else server
  }

  // ----- the phone ---------------------------------------------------------------------------

  /** The steps of one ticket that wait to be sent. */
  function Waiting(queue: seq<Item>, id: TicketId): seq<KotStatus> {
    if |queue| == 0 then []
    else
      var last := queue[|queue| - 1].update;
      Waiting(queue[..|queue| - 1], id) + if last.SetStatus? && last.id == id then [last.status] else []
  }

  /** What the board shows for a ticket. */
  function Displayed(p: Phone, id: TicketId): KotStatus
    requires id in p.cached
  {
    KitchenBoard.Or(KitchenBoard.LastStatus(p.queue, id), p.cached[id])
  }

  predicate CanTap(p: Phone, id: TicketId) {
    id in p.cached && NextStatus(Displayed(p, id)).Some?
  }

  function TapStep(p: Phone, id: TicketId, reached: bool): Phone {
    if !CanTap(p, id) then p
    else
      var update := SetStatus(id, NextStatus(Displayed(p, id)).value);
      p.(server := if reached then Serve(p.server, update) else p.server,
         queue := p.queue + [Item(p.added, None, update, "")], added := p.added + 1)
  }

  function StarStep(p: Phone, id: TicketId, isPriority: bool): Phone {
    if id !in p.cached then p
    else
      var group := Some("kot-priority:" + id);
      p.(queue := WithoutGroup(p.queue, group) + [Item(p.added, group, SetPriority(id, isPriority), "")],
         added := p.added + 1)
  }

  function SendStep(p: Phone, outcome: Outcome): Phone {
    if |p.queue| == 0 || outcome.NotReached? then p
    else
      var update := p.queue[0].update;
      var q := p.(server := Serve(p.server, update));
      if outcome.AnswerLost? then q
      else q.(queue := p.queue[1..], refused := p.refused + if Allows(p.server, update) then 0 else 1)
  }

  function Next(p: Phone, e: Event): Phone {
    match e
    case Tap(id, reached) => TapStep(p, id, reached)
    case Star(id, isPriority) => StarStep(p, id, isPriority)
    case Send(outcome) => SendStep(p, outcome)
    case Refresh => p.(cached := map id | id in p.server && IsActive(p.server[id]) :: p.server[id])
  }

  function Run(p: Phone, es: seq<Event>): Phone {
    if |es| == 0 then p else Next(Run(p, es[..|es| - 1]), es[|es| - 1])
  }

  /** The board as last refreshed, nothing waiting. */
  function Start(server: map<TicketId, KotStatus>): Phone {
    Phone(server, map id | id in server && IsActive(server[id]) :: server[id], [], 0, 0)
  }

  /** Sends everything, every request answered. */
  function Drain(p: Phone): Phone
    decreases |p.queue|
  {
    if |p.queue| == 0 then p else Drain(SendStep(p, Heard))
  }

  // ----- legal chains ------------------------------------------------------------------------

  ghost predicate Linked(steps: seq<KotStatus>) {
    forall i :: 0 <= i < |steps| - 1 ==> NextStatus(steps[i]) == Some(steps[i + 1])
  }

  /** Legal from this status; a first step that was applied already does no harm. */
  ghost predicate Chain(status: KotStatus, steps: seq<KotStatus>) {
    steps != [] ==> Linked(steps) && Takes(status, steps[0])
  }

  /** No step is left out between what the server has and what the board shows. */
  lemma {:induction false} LinkedRanks(steps: seq<KotStatus>, i: nat)
    requires Linked(steps) && i < |steps| && Forward(steps[0])
    ensures Forward(steps[i]) && Rank(steps[i]) == Some(Rank(steps[0]).value + i)
  {
    if i > 0 {
      LinkedRanks(steps, i - 1);
      assert NextStatus(steps[i - 1]) == Some(steps[i - 1 + 1]);
    }
  }

  lemma {:induction false} LastIsLastWaiting(queue: seq<Item>, id: TicketId)
    ensures KitchenBoard.LastStatus(queue, id)
         == if Waiting(queue, id) == [] then None else Some(Waiting(queue, id)[|Waiting(queue, id)| - 1])
  {
    if |queue| > 0 {
      LastIsLastWaiting(queue[..|queue| - 1], id);
    }
  }

  lemma WaitingAppend(queue: seq<Item>, item: Item, id: TicketId)
    ensures Waiting(queue + [item], id)
         == Waiting(queue, id) + if item.update.SetStatus? && item.update.id == id then [item.update.status] else []
  {
    assert (queue + [item])[..|queue|] == queue;
  }

  lemma {:induction false} WaitingHead(queue: seq<Item>, id: TicketId)
    requires |queue| > 0
    ensures Waiting(queue, id)
         == (if queue[0].update.SetStatus? && queue[0].update.id == id then [queue[0].update.status] else [])
            + Waiting(queue[1..], id)
  {
    if |queue| > 1 {
      var front := queue[..|queue| - 1];
      WaitingHead(front, id);
      assert front[1..] == queue[1..][..|queue| - 2];
      assert queue[1..][|queue| - 2] == queue[|queue| - 1];
    } else {
      assert queue[1..] == [] && queue[..0] == [];
    }
  }

  lemma {:induction false} WithoutGroupFewer(queue: seq<Item>, group: Option<string>)
    ensures forall x <- WithoutGroup(queue, group) :: x in queue
  {
    if |queue| > 0 {
      WithoutGroupFewer(queue[..|queue| - 1], group);
    }
  }

  /** Replacing a star leaves every step in its place. */
  lemma {:induction false} WaitingWithoutGroup(queue: seq<Item>, group: string, id: TicketId)
    requires forall x <- queue :: x.update.SetStatus? ==> x.group.None?
    ensures Waiting(WithoutGroup(queue, Some(group)), id) == Waiting(queue, id)
  {
    if |queue| > 0 {
      var front, last := queue[..|queue| - 1], queue[|queue| - 1];
      assert last in queue && forall x <- front :: x in queue;
      WaitingWithoutGroup(front, group, id);
      var kept := WithoutGroup(front, Some(group));
      if last.group == Some(group) {
        assert WithoutGroup(queue, Some(group)) == kept;
        assert Waiting(queue, id) == Waiting(front, id) + [];
      } else {
        assert WithoutGroup(queue, Some(group)) == kept + [last];
        WaitingAppend(kept, last, id);
      }
    }
  }

  // ----- what every careful step keeps -------------------------------------------------------

  ghost predicate ItemsSound(p: Phone) {
    forall x <- p.queue ::
      && (x.update.SetStatus? ==> x.group.None? && x.update.id in p.server)
      && (x.update.SetPriority? ==> x.update.id in p.server)
      && !x.update.Other?
  }

  ghost predicate ChainsSound(p: Phone) {
    forall id <- p.server :: Chain(p.server[id], Waiting(p.queue, id))
  }

  ghost predicate Inv(p: Phone) {
    && p.refused == 0 && p.cached.Keys <= p.server.Keys
    && (forall id <- p.cached :: IsActive(p.cached[id]))
    && ItemsSound(p) && ChainsSound(p)
  }

  /**
   * A tap is safe when the board is at most one step behind the server; with steps waiting, when
   * the tap's own request does not slip through to a server that already shows the last of them.
   */
  predicate Safe(p: Phone, id: TicketId, reached: bool)
    requires id in p.cached && id in p.server
  {
    if Waiting(p.queue, id) == []
    then p.server[id] == p.cached[id] || NextStatus(p.cached[id]) == Some(p.server[id])
    else !(reached && p.server[id] == Displayed(p, id))
  }

  ghost predicate Careful(p: Phone, e: Event) {
    e.Tap? && e.id in p.cached && e.id in p.server && CanTap(p, e.id) ==> Safe(p, e.id, e.reached)
  }

  ghost predicate CarefulRun(p: Phone, es: seq<Event>) {
    |es| > 0 ==> CarefulRun(p, es[..|es| - 1]) && Careful(Run(p, es[..|es| - 1]), es[|es| - 1])
  }

  /** A ticket that takes a step is at it or one before it. */
  lemma OneStepAtATime(status: KotStatus, target: KotStatus)
    requires Takes(status, target)
    ensures Rank(status).Some? && Rank(target).Some?
            && Rank(status).value <= Rank(target).value <= Rank(status).value + 1
  {
  }

  /** One more step extends the chain; the server takes it early only if it is at the last one. */
  lemma ChainExtends(status: KotStatus, steps: seq<KotStatus>, target: KotStatus)
    requires steps != [] && Chain(status, steps) && NextStatus(steps[|steps| - 1]) == Some(target)
    ensures Chain(status, steps + [target])
    ensures Takes(status, target) <==> status == steps[|steps| - 1]
    ensures !Takes(target, steps[0])
  {
    var more := steps + [target];
    forall i | 0 <= i < |more| - 1 ensures NextStatus(more[i]) == Some(more[i + 1]) {
      if i < |steps| - 1 {
        assert NextStatus(steps[i]) == Some(steps[i + 1]);
      }
    }
    LinkedRanks(steps, |steps| - 1);
    OneStepAtATime(status, steps[0]);
  }

  /** The tapped ticket's own chain stays legal exactly when the tap was safe. */
  lemma TapChain(p: Phone, id: TicketId, reached: bool)
    requires Inv(p) && CanTap(p, id)
    ensures var q := TapStep(p, id, reached);
            Chain(q.server[id], Waiting(q.queue, id)) <==> Safe(p, id, reached)
  {
    var steps := Waiting(p.queue, id);
    var target := NextStatus(Displayed(p, id)).value;
    TapWaits(p, id, reached);
    if steps != [] {
      ChainExtends(p.server[id], steps, target);
    } else {
      assert [] + [target] == [target];
    }
  }

  lemma {:induction false} TapWaits(p: Phone, id: TicketId, reached: bool)
    requires Inv(p) && CanTap(p, id)
    ensures var steps, q := Waiting(p.queue, id), TapStep(p, id, reached);
            var target := NextStatus(Displayed(p, id)).value;
            && Waiting(q.queue, id) == steps + [target]
            && Displayed(p, id) == (if steps == [] then p.cached[id] else steps[|steps| - 1])
            && q.server[id] == if reached && Takes(p.server[id], target) then target else p.server[id]
  {
    LastIsLastWaiting(p.queue, id);
    WaitingAppend(p.queue, TapStep(p, id, reached).queue[|p.queue|], id);
  }

  /** A tap leaves the other tickets' chains as they were. */
  lemma TapLeavesOthers(p: Phone, id: TicketId, reached: bool, other: TicketId)
    requires CanTap(p, id) && other != id && other in p.server
    ensures var q := TapStep(p, id, reached);
            other in q.server && q.server[other] == p.server[other] && Waiting(q.queue, other) == Waiting(p.queue, other)
  {
    WaitingAppend(p.queue, TapStep(p, id, reached).queue[|p.queue|], other);
  }

  lemma TapKeeps(p: Phone, id: TicketId, reached: bool)
    requires Inv(p) && CanTap(p, id) && Safe(p, id, reached)
    ensures Inv(TapStep(p, id, reached))
  {
    var q := TapStep(p, id, reached);
    TapChain(p, id, reached);
    forall other | other in q.server ensures Chain(q.server[other], Waiting(q.queue, other)) {
      if other != id {
        TapLeavesOthers(p, id, reached, other);
        assert Chain(p.server[other], Waiting(p.queue, other));
      }
    }
  }

  lemma {:induction false} StarKeeps(p: Phone, id: TicketId, isPriority: bool)
    requires Inv(p)
    ensures Inv(StarStep(p, id, isPriority))
  {
    var q := StarStep(p, id, isPriority);
    if id in p.cached {
      var group := "kot-priority:" + id;
      WithoutGroupFewer(p.queue, Some(group));
      forall other | other in q.server ensures Chain(q.server[other], Waiting(q.queue, other)) {
        WaitingWithoutGroup(p.queue, group, other);
        WaitingAppend(WithoutGroup(p.queue, Some(group)), Item(p.added, Some(group), SetPriority(id, isPriority), ""), other);
      }
    }
  }

  lemma ChainTail(steps: seq<KotStatus>)
    requires steps != [] && Linked(steps)
    ensures Chain(steps[0], steps[1..])
  {
    assert forall i :: 0 <= i < |steps| - 1 ==> steps[1..][i] == steps[i + 1];
    if |steps| > 1 {
      assert NextStatus(steps[0]) == Some(steps[0 + 1]);
    }
  }

  /** The head is acceptable, and what follows it is legal after it. */
  lemma SendKeeps(p: Phone, outcome: Outcome)
    requires Inv(p)
    ensures Inv(SendStep(p, outcome))
  {
    if |p.queue| > 0 && !outcome.NotReached? {
      var update, q := p.queue[0].update, SendStep(p, outcome);
      assert p.queue[0] in p.queue;
      if update.SetStatus? {
        WaitingHead(p.queue, update.id);
      }
      assert Allows(p.server, update);
      forall id | id in q.server ensures Chain(q.server[id], Waiting(q.queue, id)) {
        WaitingHead(p.queue, id);
        var steps := Waiting(p.queue, id);
        if update.SetStatus? && update.id == id {
          assert Waiting(p.queue[1..], id) == steps[1..];
          ChainTail(steps);
        } else {
          assert Waiting(p.queue[1..], id) == steps;
        }
      }
    }
  }

  lemma StepKeepsInv(p: Phone, e: Event)
    requires Inv(p) && Careful(p, e)
    ensures Inv(Next(p, e))
  {
    match e
    case Tap(id, reached) =>
      if CanTap(p, id) {
        TapKeeps(p, id, reached);
      }
    case Star(id, isPriority) => StarKeeps(p, id, isPriority);
    case Send(outcome) => SendKeeps(p, outcome);
    case Refresh =>
  }

  lemma {:induction false} RunKeepsInv(p: Phone, es: seq<Event>)
    requires Inv(p) && CarefulRun(p, es)
    ensures Inv(Run(p, es))
  {
    if |es| > 0 {
      RunKeepsInv(p, es[..|es| - 1]);
      StepKeepsInv(Run(p, es[..|es| - 1]), es[|es| - 1]);
    }
  }

  // ----- results -----------------------------------------------------------------------------

  /**
   * Whatever is tapped and starred, and however often sending fails before or after the server
   * applied an update: nothing is refused, and each ticket's waiting steps lead by legal moves
   * from the server's status to the one shown.
   */
  lemma {:induction false} QueuedStepsAreLegal(server: map<TicketId, KotStatus>, es: seq<Event>, id: TicketId)
    requires CarefulRun(Start(server), es) && id in Run(Start(server), es).server
    ensures var p := Run(Start(server), es);
            var steps := Waiting(p.queue, id);
            && p.refused == 0 && Chain(p.server[id], steps)
            && (steps != [] && id in p.cached ==> Displayed(p, id) == steps[|steps| - 1])
  {
    RunKeepsInv(Start(server), es);
    LastIsLastWaiting(Run(Start(server), es).queue, id);
  }

  lemma {:induction false} DrainKeeps(p: Phone)
    requires Inv(p)
    ensures Inv(Drain(p)) && Drain(p).queue == []
    ensures forall id <- p.server :: id in Drain(p).server
              && Drain(p).server[id] == KitchenBoard.Or(KitchenBoard.LastStatus(p.queue, id), p.server[id])
    decreases |p.queue|
  {
    if |p.queue| > 0 {
      SendKeeps(p, Heard);
      DrainKeeps(SendStep(p, Heard));
      assert p.queue[0] in p.queue;
      forall id | id in p.server
        ensures id in Drain(p).server
                && Drain(p).server[id] == KitchenBoard.Or(KitchenBoard.LastStatus(p.queue, id), p.server[id])
      {
        KitchenBoard.LastOfRest(p.queue, id);
        WaitingHead(p.queue, id);
      }
    }
  }

  /** Then sending everything, every request answered, brings the server to what is shown. */
  lemma {:induction false} DrainReachesTheBoard(server: map<TicketId, KotStatus>, es: seq<Event>, id: TicketId)
    requires CarefulRun(Start(server), es)
    requires id in Run(Start(server), es).cached && Waiting(Run(Start(server), es).queue, id) != []
    ensures var p := Run(Start(server), es);
            id in Drain(p).server && Drain(p).server[id] == Displayed(p, id) && Drain(p).refused == 0
  {
    var p := Run(Start(server), es);
    RunKeepsInv(Start(server), es);
    DrainKeeps(p);
    LastIsLastWaiting(p.queue, id);
  }

  // ----- the condition is exact --------------------------------------------------------------

  lemma {:induction false} RefusedStays(p: Phone)
    ensures Drain(p).refused >= p.refused
    decreases |p.queue|
  {
    if |p.queue| > 0 {
      RefusedStays(SendStep(p, Heard));
    }
  }

  /** A first step the server does not take is refused, whatever waits before it. */
  lemma {:induction false} BadFirstStepIsRefused(p: Phone, id: TicketId)
    requires id in p.server && Waiting(p.queue, id) != [] && !Takes(p.server[id], Waiting(p.queue, id)[0])
    ensures Drain(p).refused > p.refused
    decreases |p.queue|
  {
    if |p.queue| > 0 {
      WaitingHead(p.queue, id);
      if p.queue[0].update.SetStatus? && p.queue[0].update.id == id {
        RefusedStays(SendStep(p, Heard));
      } else {
        BadFirstStepIsRefused(SendStep(p, Heard), id);
      }
    }
  }

  lemma UnsafeTapBreaksFirstStep(p: Phone, id: TicketId, reached: bool)
    requires Inv(p) && CanTap(p, id) && !Safe(p, id, reached)
    ensures var q := TapStep(p, id, reached);
            id in q.server && Waiting(q.queue, id) != [] && !Takes(q.server[id], Waiting(q.queue, id)[0])
  {
    var steps := Waiting(p.queue, id);
    TapWaits(p, id, reached);
    if steps != [] {
      ChainExtends(p.server[id], steps, NextStatus(Displayed(p, id)).value);
    }
  }

  /** After any careful run a tap's update drains unrefused exactly when the tap is safe. */
  lemma {:induction false} TapIsAcceptedIffSafe(server: map<TicketId, KotStatus>, es: seq<Event>, id: TicketId, reached: bool)
    requires CarefulRun(Start(server), es) && CanTap(Run(Start(server), es), id) && id in Run(Start(server), es).server
    ensures var p := Run(Start(server), es);
            Safe(p, id, reached) <==> Drain(TapStep(p, id, reached)).refused == 0
  {
    var p := Run(Start(server), es);
    RunKeepsInv(Start(server), es);
    if Safe(p, id, reached) {
      TapKeeps(p, id, reached);
      DrainKeeps(TapStep(p, id, reached));
    } else {
      UnsafeTapBreaksFirstStep(p, id, reached);
      BadFirstStepIsRefused(TapStep(p, id, reached), id);
    }
  }

  // ----- one offline stretch, and what goes beyond it ----------------------------------------

  /** Requests that reach nothing, stars, and sends whose answers are not heard. */
  predicate Offline(es: seq<Event>) {
    forall i :: 0 <= i < |es| ==>
                  match es[i]
                  case Tap(_, reached) => !reached
                  case Star(_, _) => true
                  case Send(outcome) => !outcome.Heard?
                  case Refresh => false
  }

  /** A ticket with nothing waiting is where the board last saw it. */
  ghost predicate UpToDate(p: Phone) {
    forall id <- p.cached :: id in p.server && (Waiting(p.queue, id) == [] ==> p.server[id] == p.cached[id])
  }

  lemma OfflineStep(p: Phone, e: Event)
    requires Inv(p) && UpToDate(p) && Offline([e])
    ensures Careful(p, e) && UpToDate(Next(p, e))
  {
    assert [e][0] == e;
    var q := Next(p, e);
    forall id | id in q.cached
      ensures id in q.server && (Waiting(q.queue, id) == [] ==> q.server[id] == q.cached[id])
    {
      match e
      case Tap(tapped, _) =>
        if CanTap(p, tapped) {
          WaitingAppend(p.queue, q.queue[|p.queue|], id);
        }
      case Star(starred, isPriority) =>
        if starred in p.cached {
          StarKeepsWaiting(p, starred, isPriority, id);
        }
      case Send(_) =>
        if |p.queue| > 0 {
          WaitingHead(p.queue, id);
        }
      case Refresh =>
    }
  }

  lemma StarKeepsWaiting(p: Phone, starred: TicketId, isPriority: bool, id: TicketId)
    requires ItemsSound(p)
    ensures Waiting(StarStep(p, starred, isPriority).queue, id) == Waiting(p.queue, id)
  {
    var group := "kot-priority:" + starred;
    WaitingWithoutGroup(p.queue, group, id);
    WaitingAppend(WithoutGroup(p.queue, Some(group)), Item(p.added, Some(group), SetPriority(starred, isPriority), ""), id);
  }

  lemma {:induction false} OfflineStretchIsCareful(server: map<TicketId, KotStatus>, es: seq<Event>)
    requires Offline(es)
    ensures CarefulRun(Start(server), es) && UpToDate(Run(Start(server), es))
  {
    if |es| > 0 {
      var front := es[..|es| - 1];
      OfflineStretchIsCareful(server, front);
      RunKeepsInv(Start(server), front);
      OfflineStep(Run(Start(server), front), es[|es| - 1]);
    }
  }

  /** So in one offline stretch nothing more is needed: the steps are legal, and drain unrefused. */
  lemma {:induction false} OfflineStepsDrain(server: map<TicketId, KotStatus>, es: seq<Event>, id: TicketId)
    requires Offline(es) && id in Run(Start(server), es).server
    ensures SoundlyWaiting(Run(Start(server), es), id)
  {
    OfflineStretchIsCareful(server, es);
    RunKeepsInv(Start(server), es);
    InvIsSoundlyWaiting(Run(Start(server), es), id);
  }

  /** A ticket's steps are legal, all drains unrefused, and what the board shows is reached. */
  ghost predicate SoundlyWaiting(p: Phone, id: TicketId)
    requires id in p.server
  {
    && Chain(p.server[id], Waiting(p.queue, id)) && Drain(p).refused == 0 && id in Drain(p).server
    && (id in p.cached && Waiting(p.queue, id) != [] ==> Drain(p).server[id] == Displayed(p, id))
  }

  lemma InvIsSoundlyWaiting(p: Phone, id: TicketId)
    requires Inv(p) && id in p.server
    ensures SoundlyWaiting(p, id)
  {
    DrainKeeps(p);
    LastIsLastWaiting(p.queue, id);
  }

  lemma {:induction false} RunOne(p: Phone, es: seq<Event>, e: Event)
    ensures Run(p, es + [e]) == Next(Run(p, es), e)
  {
    assert (es + [e])[..|es|] == es;
  }

  /** A tap whose request was applied and whose answer was lost makes the next such tap unsafe. */
  lemma LostAnswerThenLostAnswer(id: TicketId)
    ensures var start := Start(map[id := New]);
            var p := Run(start, [] + [Tap(id, true)]);
            CarefulRun(start, [] + [Tap(id, true)]) && CanTap(p, id) && !Safe(p, id, true)
  {
    var start := Start(map[id := New]);
    RunOne(start, [], Tap(id, true));
    var es := [] + [Tap(id, true)];
    assert es[..0] == [];
    assert Displayed(start, id) == New;
    var p := TapStep(start, id, true);
    assert p.queue == [Item(0, None, SetStatus(id, Accepted), "")];
    assert p.queue[..0] == [];
  }

  /** Two steps sent and heard, and no refresh: the board is two steps behind. */
  function SentUnrefreshed(id: TicketId): seq<Event> {
    [] + [Tap(id, false)] + [Tap(id, false)] + [Send(Heard)] + [Send(Heard)]
  }

  lemma SentUnrefreshedRuns(p: Phone, id: TicketId)
    ensures Run(p, SentUnrefreshed(id)) == SendStep(SendStep(TapStep(TapStep(p, id, false), id, false), Heard), Heard)
  {
    RunOne(p, [], Tap(id, false));
    RunOne(p, [] + [Tap(id, false)], Tap(id, false));
    RunOne(p, [] + [Tap(id, false)] + [Tap(id, false)], Send(Heard));
    RunOne(p, [] + [Tap(id, false)] + [Tap(id, false)] + [Send(Heard)], Send(Heard));
  }

  lemma TwoTapsWait(id: TicketId)
    ensures var p := TapStep(TapStep(Start(map[id := New]), id, false), id, false);
            && p.queue == [Item(0, None, SetStatus(id, Accepted), ""), Item(1, None, SetStatus(id, Preparing), "")]
            && p.server == map[id := New] && p.cached == map[id := New]
  {
    var p1 := TapStep(Start(map[id := New]), id, false);
    assert p1.queue == [Item(0, None, SetStatus(id, Accepted), "")];
    assert p1.queue[..0] == [] && Displayed(p1, id) == Accepted;
  }

  lemma SentUnrefreshedIsCareful(id: TicketId)
    ensures CarefulRun(Start(map[id := New]), SentUnrefreshed(id))
  {
    var taps := [] + [Tap(id, false)] + [Tap(id, false)];
    OfflineStretchIsCareful(map[id := New], taps);
    SendsAreCareful(Start(map[id := New]), taps, Heard);
    SendsAreCareful(Start(map[id := New]), taps + [Send(Heard)], Heard);
  }

  lemma TwoSends(p: Phone, id: TicketId)
    requires p.queue == [Item(0, None, SetStatus(id, Accepted), ""), Item(1, None, SetStatus(id, Preparing), "")]
    requires p.server == map[id := New]
    ensures var q := SendStep(SendStep(p, Heard), Heard);
            q.queue == [] && q.server == map[id := Preparing] && q.cached == p.cached
  {
    var p1 := SendStep(p, Heard);
    assert p1.server == map[id := Accepted];
    assert p1.queue == [Item(1, None, SetStatus(id, Preparing), "")];
  }

  /** A board two steps behind comes about, by careful steps, and then any tap is unsafe. */
  lemma UnrefreshedBoardIsUnsafe(id: TicketId, reached: bool)
    ensures var start := Start(map[id := New]);
            var p := Run(start, SentUnrefreshed(id));
            CarefulRun(start, SentUnrefreshed(id)) && CanTap(p, id) && id in p.server && !Safe(p, id, reached)
  {
    SentUnrefreshedIsCareful(id);
    SentUnrefreshedRuns(Start(map[id := New]), id);
    TwoTapsWait(id);
    TwoSends(TapStep(TapStep(Start(map[id := New]), id, false), id, false), id);
  }

  lemma {:induction false} SendsAreCareful(p: Phone, es: seq<Event>, outcome: Outcome)
    requires CarefulRun(p, es)
    ensures CarefulRun(p, es + [Send(outcome)])
  {
    assert (es + [Send(outcome)])[..|es|] == es;
  }

  // ----- a refresh ---------------------------------------------------------------------------

  /** The board then has just the tickets the server still works on, at the server's status. */
  lemma RefreshShowsTheServer(p: Phone, id: TicketId)
    ensures var q := Next(p, Refresh);
            && q == p.(cached := q.cached)
            && (id in q.cached <==> id in p.server && p.server[id] in {New, Accepted, Preparing, Ready})
            && (id in q.cached ==> q.cached[id] == p.server[id])
  {
  }

  /** And with no step of a ticket waiting, every tap on it is safe, whatever came before. */
  lemma {:induction false} RefreshMakesSafe(server: map<TicketId, KotStatus>, es: seq<Event>, id: TicketId, reached: bool)
    requires CarefulRun(Start(server), es) && Waiting(Run(Start(server), es).queue, id) == []
    requires id in Run(Start(server), es + [Refresh]).cached
    ensures var p := Run(Start(server), es + [Refresh]);
            && CarefulRun(Start(server), es + [Refresh]) && id in p.server && CanTap(p, id)
            && Safe(p, id, reached) && Drain(TapStep(p, id, reached)).refused == 0
  {
    RunOne(Start(server), es, Refresh);
    assert (es + [Refresh])[..|es|] == es;
    var p := Run(Start(server), es + [Refresh]);
    LastIsLastWaiting(p.queue, id);
    TapIsAcceptedIffSafe(server, es + [Refresh], id, reached);
  }
}
