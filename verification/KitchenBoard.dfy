/**
 * The kitchen board on a phone: the server's tickets with the changes that still wait to be sent
 * laid over them.
 */
module KitchenBoard {
  import opened Options
  import opened Outbox
  import opened KotLifecycle

  datatype Ticket = Ticket(id: TicketId, status: KotStatus, isPriority: bool, savedOnPhone: bool)

  /** What waits for one ticket. */
  datatype Change = Change(status: Option<KotStatus>, isPriority: Option<bool>)

  const NO_CHANGE := Change(None, None)

  function Lookup(pending: map<TicketId, Change>, id: TicketId): Change {
    if id in pending then pending[id] else NO_CHANGE
  }

  function Noted(pending: map<TicketId, Change>, update: Update): map<TicketId, Change> {
    match update
    case SetStatus(id, status) => pending[id := Lookup(pending, id).(status := Some(status))]
    case SetPriority(id, isPriority) => pending[id := Lookup(pending, id).(isPriority := Some(isPriority))]
    case Other(_) => pending
  }

  /** The last status, and the last priority, that waits for a ticket. */
  function LastStatus(queue: seq<Item>, id: TicketId): Option<KotStatus> {
    if |queue| == 0 then None
    else
      var last := queue[|queue| - 1].update;
      if last.SetStatus? && last.id == id then Some(last.status) else LastStatus(queue[..|queue| - 1], id)
  }

  function LastPriority(queue: seq<Item>, id: TicketId): Option<bool> {
    if |queue| == 0 then None
    else
      var last := queue[|queue| - 1].update;
      if last.SetPriority? && last.id == id then Some(last.isPriority) else LastPriority(queue[..|queue| - 1], id)
  }

  function Or<T>(o: Option<T>, otherwise: T): T {
    if o.Some? then o.value else otherwise
  }

  /** A ticket as the board shows it. */
  function ShownTicket(t: Ticket, queue: seq<Item>): Ticket {
    Ticket(t.id, Or(LastStatus(queue, t.id), t.status), Or(LastPriority(queue, t.id), t.isPriority),
           LastStatus(queue, t.id).Some? || LastPriority(queue, t.id).Some?)
  }

  /** The board: every ticket as it will be, without those that will have been served. */
  function Overlay(tickets: seq<Ticket>, queue: seq<Item>): seq<Ticket> {
    if |tickets| == 0 then []
    else
      var shown := ShownTicket(tickets[|tickets| - 1], queue);
      Overlay(tickets[..|tickets| - 1], queue) + if shown.status != Served then [shown] else []
  }

  /** Fills the pending changes from the queue, one item after another, and lays them over. */
  method BoardTickets(tickets: Option<seq<Ticket>>, queue: seq<Item>) returns (list: seq<Ticket>)
    ensures list == Overlay(Or(tickets, []), queue)
  {
    var pending: map<TicketId, Change> := map[];
    for i := 0 to |queue|
      invariant forall id :: Lookup(pending, id) == Change(LastStatus(queue[..i], id), LastPriority(queue[..i], id))
      invariant forall id <- pending :: pending[id] != NO_CHANGE
    {
      pending := Noted(pending, queue[i].update);
      assert queue[..i + 1][..i] == queue[..i];
    }
    assert queue[..|queue|] == queue;
    list := [];
    var all := Or(tickets, []);
    for i := 0 to |all|
      invariant list == Overlay(all[..i], queue)
    {
      var t := all[i];
      var change := Lookup(pending, t.id);
      var shown := if t.id in pending
                   then Ticket(t.id, Or(change.status, t.status), Or(change.isPriority, t.isPriority), true)
                   else t.(savedOnPhone := false);
      assert shown == ShownTicket(t, queue);
      if shown.status != Served {
        list := list + [shown];
      }
      assert all[..i + 1][..i] == all[..i];
    }
    assert all[..|all|] == all;
  }

  // ----- the server's side -------------------------------------------------------------------

  /** What the server makes of an update it accepts. */
  function TicketAfter(t: Ticket, update: Update): Ticket {
    match update
    case SetStatus(id, status) => if t.id == id then t.(status := status) else t
    case SetPriority(id, isPriority) => if t.id == id then t.(isPriority := isPriority) else t
    case Other(_) => t
  }

  function AfterAccepting(tickets: seq<Ticket>, update: Update): seq<Ticket> {
    if |tickets| == 0 then []
    else AfterAccepting(tickets[..|tickets| - 1], update) + [TicketAfter(tickets[|tickets| - 1], update)]
  }

  function AfterAll(tickets: seq<Ticket>, queue: seq<Item>): seq<Ticket>
    decreases |queue|
  {
    if |queue| == 0 then tickets else AfterAll(AfterAccepting(tickets, queue[0].update), queue[1..])
  }

  /** The list the server sends: tickets the kitchen still works on. */
  function Active(tickets: seq<Ticket>): seq<Ticket> {
    if |tickets| == 0 then []
    else
      var last := tickets[|tickets| - 1];
      Active(tickets[..|tickets| - 1]) + if IsActive(last.status) then [last] else []
  }

  /** What a cook sees: the mark that something waits is a different matter. */
  function Seen(tickets: seq<Ticket>): seq<Ticket> {
    if |tickets| == 0 then []
    else Seen(tickets[..|tickets| - 1]) + [tickets[|tickets| - 1].(savedOnPhone := false)]
  }

  lemma {:induction false} LastOfRest(queue: seq<Item>, id: TicketId)
    requires |queue| > 0
    ensures LastStatus(queue, id)
         == if LastStatus(queue[1..], id).Some? then LastStatus(queue[1..], id)
            else if queue[0].update.SetStatus? && queue[0].update.id == id then Some(queue[0].update.status) else None
    ensures LastPriority(queue, id)
         == if LastPriority(queue[1..], id).Some? then LastPriority(queue[1..], id)
            else if queue[0].update.SetPriority? && queue[0].update.id == id then Some(queue[0].update.isPriority) else None
  {
    if |queue| > 1 {
      var front := queue[..|queue| - 1];
      LastOfRest(front, id);
      assert front[1..] == queue[1..][..|queue| - 2];
      assert queue[1..][|queue| - 2] == queue[|queue| - 1];
    } else {
      assert queue[1..] == [];
    }
  }

  lemma SeenAppend(a: seq<Ticket>, t: Ticket)
    ensures Seen(a + [t]) == Seen(a) + [t.(savedOnPhone := false)]
  {
    assert (a + [t])[..|a|] == a;
  }

  lemma SeenOverlayLast(tickets: seq<Ticket>, queue: seq<Item>)
    requires |tickets| > 0
    ensures var shown := ShownTicket(tickets[|tickets| - 1], queue);
            Seen(Overlay(tickets, queue)) == Seen(Overlay(tickets[..|tickets| - 1], queue))
                                             + if shown.status != Served then [shown.(savedOnPhone := false)] else []
  {
    var front := Overlay(tickets[..|tickets| - 1], queue);
    SeenAppend(front, ShownTicket(tickets[|tickets| - 1], queue));
    assert front + [] == front;
  }

  lemma SeenOverlayAppend(front: seq<Ticket>, last: Ticket, queue: seq<Item>)
    ensures var shown := ShownTicket(last, queue);
            Seen(Overlay(front + [last], queue)) == Seen(Overlay(front, queue))
                                                    + if shown.status != Served then [shown.(savedOnPhone := false)] else []
  {
    assert (front + [last])[..|front|] == front;
    SeenOverlayLast(front + [last], queue);
  }

  lemma ShownEitherWay(t: Ticket, queue: seq<Item>)
    requires |queue| > 0
    ensures ShownTicket(t, queue).(savedOnPhone := false)
         == ShownTicket(TicketAfter(t, queue[0].update), queue[1..]).(savedOnPhone := false)
  {
    LastOfRest(queue, t.id);
  }

  /**
   * Sending an update does not change what the board shows: the whole queue over the server's
   * tickets looks like the rest of the queue over the tickets after the server took the first.
   */
  lemma {:induction false} SendingChangesNothing(tickets: seq<Ticket>, queue: seq<Item>)
    requires |queue| > 0
    ensures Seen(Overlay(tickets, queue)) == Seen(Overlay(AfterAccepting(tickets, queue[0].update), queue[1..]))
  {
    if |tickets| > 0 {
      var front, last := tickets[..|tickets| - 1], tickets[|tickets| - 1];
      var rest, after := queue[1..], AfterAccepting(front, queue[0].update);
      SendingChangesNothing(front, queue);
      ShownEitherWay(last, queue);
      SeenOverlayLast(tickets, queue);
      SeenOverlayAppend(after, TicketAfter(last, queue[0].update), rest);
    }
  }

  /** So the board already shows the tickets as they will be after everything is sent. */
  lemma {:induction false} BoardShowsTheDrainedState(tickets: seq<Ticket>, queue: seq<Item>)
    ensures Seen(Overlay(tickets, queue)) == Seen(Overlay(AfterAll(tickets, queue), []))
    decreases |queue|
  {
    if |queue| > 0 {
      SendingChangesNothing(tickets, queue);
      BoardShowsTheDrainedState(AfterAccepting(tickets, queue[0].update), queue[1..]);
    }
  }

  /** Statuses a board can queue. */
  predicate OnlyForward(queue: seq<Item>) {
    forall i :: 0 <= i < |queue| && queue[i].update.SetStatus? ==> Forward(queue[i].update.status)
  }

  /** Neither withdrawn. */
  predicate Live(tickets: seq<Ticket>) {
    forall i :: 0 <= i < |tickets| ==> tickets[i].status != Cancelled && tickets[i].status != Rejected
  }

  lemma {:induction false} OverlayOfActive(tickets: seq<Ticket>)
    requires Live(tickets)
    ensures Seen(Overlay(tickets, [])) == Seen(Active(tickets))
  {
    if |tickets| > 0 {
      var front, last := tickets[..|tickets| - 1], tickets[|tickets| - 1];
      OverlayOfActive(front);
      SeenAppend(Overlay(front, []), ShownTicket(last, []));
      SeenAppend(Active(front), last);
      assert Overlay(front, []) + [] == Overlay(front, []) && Active(front) + [] == Active(front);
    }
  }

  lemma {:induction false} AcceptingKeepsLive(tickets: seq<Ticket>, update: Update)
    requires Live(tickets) && (update.SetStatus? ==> Forward(update.status))
    ensures Live(AfterAccepting(tickets, update)) && |AfterAccepting(tickets, update)| == |tickets|
  {
    if |tickets| > 0 {
      AcceptingKeepsLive(tickets[..|tickets| - 1], update);
    }
  }

  /** And the list a refresh then brings is what the board showed all along. */
  lemma {:induction false} RefreshAfterDrainShowsTheSame(tickets: seq<Ticket>, queue: seq<Item>)
    requires Live(tickets) && OnlyForward(queue)
    ensures Seen(Overlay(tickets, queue)) == Seen(Active(AfterAll(tickets, queue)))
    decreases |queue|
  {
    if |queue| == 0 {
      OverlayOfActive(tickets);
    } else {
      SendingChangesNothing(tickets, queue);
      AcceptingKeepsLive(tickets, queue[0].update);
      RefreshAfterDrainShowsTheSame(AfterAccepting(tickets, queue[0].update), queue[1..]);
    }
  }
}
