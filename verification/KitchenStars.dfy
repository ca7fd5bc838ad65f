/**
 * Stars set with no connection: of all that a cook set and unset on a ticket, one update waits,
 * and it is the last.
 */
module KitchenStars {
  import opened Options
  import Outbox
  import opened KitchenQueue
  import KitchenBoard

  /** The stars of one ticket that wait to be sent. */
  function StarsWaiting(queue: seq<Outbox.Item>, id: Outbox.TicketId): seq<bool> {
    if |queue| == 0 then []
    else
      var last := queue[|queue| - 1].update;
      StarsWaiting(queue[..|queue| - 1], id) + if last.SetPriority? && last.id == id then [last.isPriority] else []
  }

  /** Whether one waits, of all that happened: set, and not yet sent and answered. */
  function StarLeft(p: Phone, es: seq<Event>, id: Outbox.TicketId): Option<bool> {
    if |es| == 0 then None
    else
      var q, left := Run(p, es[..|es| - 1]), StarLeft(p, es[..|es| - 1], id);
      match es[|es| - 1]
      case Star(starred, isPriority) => if starred == id && id in q.cached then Some(isPriority) else left
      case Send(outcome) => if outcome == Heard && SendsStarOf(q, id) then None else left
      case _ => left
  }

  predicate SendsStarOf(p: Phone, id: Outbox.TicketId) {
    |p.queue| > 0 && p.queue[0].update.SetPriority? && p.queue[0].update.id == id
  }

  function Group(id: Outbox.TicketId): string {
    "kot-priority:" + id
  }

  lemma GroupsApart(id: Outbox.TicketId, other: Outbox.TicketId)
    ensures Group(id) == Group(other) <==> id == other
  {
    assert id == Group(id)[|"kot-priority:"|..] && other == Group(other)[|"kot-priority:"|..];
  }

  /** Stars wait under their ticket's group, steps under none. */
  ghost predicate Grouped(queue: seq<Outbox.Item>) {
    forall x <- queue ::
      && (x.update.SetPriority? ==> x.group == Some(Group(x.update.id)))
      && (x.update.SetStatus? ==> x.group.None?) && !x.update.Other?
  }

  lemma StarsAppend(queue: seq<Outbox.Item>, item: Outbox.Item, id: Outbox.TicketId)
    ensures StarsWaiting(queue + [item], id) ==
              if item.update.SetPriority? && item.update.id == id then StarsWaiting(queue, id) + [item.update.isPriority]
              else StarsWaiting(queue, id)
  {
    assert (queue + [item])[..|queue|] == queue;
  }

  lemma {:induction false} StarsHead(queue: seq<Outbox.Item>, id: Outbox.TicketId)
    requires |queue| > 0
    ensures StarsWaiting(queue, id) ==
              if queue[0].update.SetPriority? && queue[0].update.id == id
              then [queue[0].update.isPriority] + StarsWaiting(queue[1..], id)
              else StarsWaiting(queue[1..], id)
  {
    if |queue| > 1 {
      var front := queue[..|queue| - 1];
      StarsHead(front, id);
      assert front[1..] == queue[1..][..|queue| - 2];
      assert queue[1..][|queue| - 2] == queue[|queue| - 1];
    } else {
      assert queue[1..] == [] && queue[..0] == [];
    }
  }

  /** A new star takes the place of the ticket's waiting ones, and of no other's. */
  lemma {:induction false} WithoutStars(queue: seq<Outbox.Item>, id: Outbox.TicketId, other: Outbox.TicketId)
    requires Grouped(queue)
    ensures var kept := Outbox.WithoutGroup(queue, Some(Group(id)));
            Grouped(kept) && StarsWaiting(kept, other) == if other == id then [] else StarsWaiting(queue, other)
  {
    if |queue| > 0 {
      var front, last := queue[..|queue| - 1], queue[|queue| - 1];
      assert last in queue && forall x <- front :: x in queue;
      WithoutStars(front, id, other);
      if last.update.SetPriority? {
        GroupsApart(last.update.id, id);
      }
      var kept := Outbox.WithoutGroup(front, Some(Group(id)));
      StarsAppend(kept, last, other);
      assert kept + [] == kept;
    }
  }

  ghost predicate StarsAre(p: Phone, id: Outbox.TicketId, left: Option<bool>) {
    Grouped(p.queue) && StarsWaiting(p.queue, id) == if left.Some? then [left.value] else []
  }

  lemma StarStars(p: Phone, starred: Outbox.TicketId, isPriority: bool, id: Outbox.TicketId, left: Option<bool>)
    requires StarsAre(p, id, left)
    ensures StarsAre(StarStep(p, starred, isPriority), id, if starred == id && id in p.cached then Some(isPriority) else left)
  {
    if starred in p.cached {
      var kept, q := Outbox.WithoutGroup(p.queue, Some(Group(starred))), StarStep(p, starred, isPriority);
      WithoutStars(p.queue, starred, id);
      assert q.queue == kept + [q.queue[|kept|]];
      StarsAppend(kept, q.queue[|kept|], id);
    }
  }

  lemma TapAppends(p: Phone, tapped: Outbox.TicketId, reached: bool)
    requires CanTap(p, tapped)
    ensures var queue := TapStep(p, tapped, reached).queue;
            && |queue| == |p.queue| + 1 && queue == p.queue + [queue[|p.queue|]]
            && queue[|p.queue|].update.SetStatus? && queue[|p.queue|].group.None?
  {
  }

  lemma TapStars(p: Phone, tapped: Outbox.TicketId, reached: bool, id: Outbox.TicketId, left: Option<bool>)
    requires StarsAre(p, id, left)
    ensures StarsAre(TapStep(p, tapped, reached), id, left)
  {
    if CanTap(p, tapped) {
      TapAppends(p, tapped, reached);
      StarsAppend(p.queue, TapStep(p, tapped, reached).queue[|p.queue|], id);
    }
  }

  lemma SendStars(p: Phone, outcome: Outcome, id: Outbox.TicketId, left: Option<bool>)
    requires StarsAre(p, id, left)
    ensures StarsAre(SendStep(p, outcome), id, if outcome == Heard && SendsStarOf(p, id) then None else left)
  {
    if |p.queue| > 0 {
      StarsHead(p.queue, id);
      assert forall x <- p.queue[1..] :: x in p.queue;
    }
  }

  lemma {:induction false} RunStars(server: map<Outbox.TicketId, Outbox.KotStatus>, es: seq<Event>, id: Outbox.TicketId)
    ensures StarsAre(Run(Start(server), es), id, StarLeft(Start(server), es, id))
  {
    if |es| > 0 {
      var p, left := Run(Start(server), es[..|es| - 1]), StarLeft(Start(server), es[..|es| - 1], id);
      RunStars(server, es[..|es| - 1], id);
      match es[|es| - 1]
      case Tap(tapped, reached) => TapStars(p, tapped, reached, id, left);
      case Star(starred, isPriority) => StarStars(p, starred, isPriority, id, left);
      case Send(outcome) => SendStars(p, outcome, id, left);
      case Refresh =>
    }
  }

  lemma {:induction false} LastIsLastStar(queue: seq<Outbox.Item>, id: Outbox.TicketId)
    ensures KitchenBoard.LastPriority(queue, id)
         == if StarsWaiting(queue, id) == [] then None else Some(StarsWaiting(queue, id)[|StarsWaiting(queue, id)| - 1])
  {
    if |queue| > 0 {
      LastIsLastStar(queue[..|queue| - 1], id);
    }
  }

  /**
   * Whatever is tapped, starred, sent or refreshed: of each ticket's stars at most one waits, the
   * last that was set, until it has been sent and answered, and it is the one the board shows.
   */
  lemma {:induction false} LastStarWaits(server: map<Outbox.TicketId, Outbox.KotStatus>, es: seq<Event>, id: Outbox.TicketId)
    ensures var p, left := Run(Start(server), es), StarLeft(Start(server), es, id);
            && StarsWaiting(p.queue, id) == (if left.Some? then [left.value] else [])
            && KitchenBoard.LastPriority(p.queue, id) == left
  {
    RunStars(server, es, id);
    LastIsLastStar(Run(Start(server), es).queue, id);
  }

  // ----- the queue itself --------------------------------------------------------------------

  ghost predicate KeysRise(p: Phone) {
    && (forall i, j :: 0 <= i < j < |p.queue| ==> p.queue[i].key < p.queue[j].key)
    && (forall x <- p.queue :: x.key < p.added)
  }

  lemma {:induction false} WithoutGroupRises(queue: seq<Outbox.Item>, group: Option<string>)
    requires forall i, j :: 0 <= i < j < |queue| ==> queue[i].key < queue[j].key
    ensures var kept := Outbox.WithoutGroup(queue, group);
            && (forall i, j :: 0 <= i < j < |kept| ==> kept[i].key < kept[j].key)
            && (forall x <- kept :: x in queue)
  {
    if |queue| > 0 {
      var front := queue[..|queue| - 1];
      WithoutGroupRises(front, group);
      forall x | x in front ensures x.key < queue[|queue| - 1].key {
        var i :| 0 <= i < |front| && front[i] == x;
        assert queue[i] == x;
      }
    }
  }

  lemma StarKeysRise(p: Phone, id: Outbox.TicketId, isPriority: bool)
    requires KeysRise(p)
    ensures KeysRise(StarStep(p, id, isPriority))
  {
    WithoutGroupRises(p.queue, Some(Group(id)));
  }

  /** No two waiting updates share a key, and they wait in the order they were made. */
  lemma {:induction false} RunKeysRise(server: map<Outbox.TicketId, Outbox.KotStatus>, es: seq<Event>)
    ensures KeysRise(Run(Start(server), es))
  {
    if |es| > 0 {
      var p, e := Run(Start(server), es[..|es| - 1]), es[|es| - 1];
      RunKeysRise(server, es[..|es| - 1]);
      match e
      case Star(id, isPriority) => StarKeysRise(p, id, isPriority);
      case Tap(id, reached) =>
        if CanTap(p, id) {
          TapAppends(p, id, reached);
        }
      case _ =>
    }
  }
}
