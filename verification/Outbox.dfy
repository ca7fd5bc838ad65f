/**
 * The queue of updates made with no connection, and what becomes of each once the server can be
 * reached. Updates may be added while a send is going on; a newer one replaces a waiting one of
 * its group. Each add, each answer and each end of a send is one step, in any order.
 */
module Outbox {
  import opened Options

  type TicketId = string

  datatype KotStatus = New | Accepted | Preparing | Ready | Served | Cancelled | Rejected

  /** What an update means. */
  datatype Update =
    | SetStatus(id: TicketId, status: KotStatus)
    | SetPriority(id: TicketId, isPriority: bool)
    | Other(path: string)

  /** `key` stands for the fresh random id; all that is used of it is that no two are equal. */
  datatype Item = Item(key: nat, group: Option<string>, update: Update, text: string)

  datatype Answer = Accepts | Refuses | Unreachable | SignedOut

  const KEPT_NOTICES := 10

  /** A send going on: the rest of the snapshot, what was refused, how many were added before it. */
  datatype Flight = Flight(rest: seq<Item>, turnedDown: seq<string>, start: nat)

  datatype State = State(
    queue: seq<Item>,
    flight: Option<Flight>,
    lastRefused: seq<string>,
    added: seq<Item>,      // everything ever added
    sent: seq<Item>,       // what the server acknowledged, in that order
    refused: seq<Item>)

  const START := State([], None, [], [], [], [])

  datatype Event =
    | Add(group: Option<string>, update: Update, text: string)
    | Begin
    | Hear(answer: Answer)     // the answer to the next item of the snapshot
    | Finish
    | ClearRefused

  function WithoutGroup(queue: seq<Item>, group: Option<string>): seq<Item> {
    if |queue| == 0 then []
    else
      var last := queue[|queue| - 1];
      WithoutGroup(queue[..|queue| - 1], group) + if group.Some? && last.group == group then [] else [last]
  }

  function WithoutKey(queue: seq<Item>, key: nat): seq<Item> {
    if |queue| == 0 then []
    else
      var last := queue[|queue| - 1];
      WithoutKey(queue[..|queue| - 1], key) + if last.key == key then [] else [last]
  }

  function LastTen(notices: seq<string>): seq<string> {
    if |notices| <= KEPT_NOTICES then notices else notices[|notices| - KEPT_NOTICES..]
  }

  function AddStep(s: State, item: Item): State {
    s.(queue := WithoutGroup(s.queue, item.group) + [item], added := s.added + [item])
  }

  function HearStep(s: State, answer: Answer): State {
    if s.flight.None? || s.flight.value.rest == [] then s
    else
      var f := s.flight.value;
      var item := f.rest[0];
      match answer
      case Accepts =>
        s.(queue := WithoutKey(s.queue, item.key), sent := s.sent + [item], flight := Some(f.(rest := f.rest[1..])))
      case Refuses =>
        s.(queue := WithoutKey(s.queue, item.key), refused := s.refused + [item],
           flight := Some(f.(rest := f.rest[1..], turnedDown := f.turnedDown + [item.text])))
      case Unreachable => s.(flight := Some(f.(rest := [])))
      case SignedOut => s.(flight := Some(f.(rest := [])))
  }

  function FinishStep(s: State): State {
    if s.flight.None? || s.flight.value.rest != [] then s
    else
      s.(flight := None,
         lastRefused := if s.flight.value.turnedDown == [] then s.lastRefused
                        else LastTen(s.lastRefused + s.flight.value.turnedDown))
  }

  function Next(s: State, e: Event): State {
    match e
    case Add(group, update, text) => AddStep(s, Item(|s.added|, group, update, text))
    case Begin => if s.flight.Some? then s else s.(flight := Some(Flight(s.queue, [], |s.added|)))
    case Hear(answer) => HearStep(s, answer)
    case Finish => FinishStep(s)
    case ClearRefused => s.(lastRefused := [])
  }

  function Run(s: State, es: seq<Event>): State {
    if |es| == 0 then s else Next(Run(s, es[..|es| - 1]), es[|es| - 1])
  }

  // ----- what every step keeps ---------------------------------------------------------------

  ghost predicate InOrder(items: seq<Item>) {
    forall i, j :: 0 <= i < j < |items| ==> items[i].key < items[j].key
  }

  ghost predicate Known(added: seq<Item>, items: seq<Item>) {
    forall x <- items :: x.key < |added| && added[x.key] == x
  }

  /** Everything in the first was added before everything in the second. */
  ghost predicate Before(first: seq<Item>, second: seq<Item>) {
    forall x <- first, y <- second :: x.key < y.key
  }

  /** A later update of the same group was added. */
  predicate Superseded(added: seq<Item>, item: Item) {
    item.group.Some? && exists j :: item.key < j < |added| && added[j].group == item.group
  }

  ghost predicate QueueSound(s: State) {
    && Known(s.added, s.queue) && InOrder(s.queue)
    && (forall x <- s.queue :: !Superseded(s.added, x))
  }

  /** What was settled was settled in order, before what still waits. */
  ghost predicate SettledSound(added: seq<Item>, settled: seq<Item>, queue: seq<Item>) {
    Known(added, settled) && InOrder(settled) && Before(settled, queue)
  }

  ghost predicate FlightSound(s: State, f: Flight) {
    && Known(s.added, f.rest) && InOrder(f.rest) && f.start <= |s.added|
    && (forall x <- f.rest :: x.key < f.start)
    && Before(s.sent, f.rest) && Before(s.refused, f.rest)
    && (f.rest != [] ==> forall x <- s.queue :: x in f.rest || x.key >= f.start)
  }

  /** What can have become of an update. */
  predicate Accounted(s: State, item: Item) {
    item in s.queue || item in s.sent || item in s.refused || Superseded(s.added, item)
  }

  ghost predicate AllAccounted(s: State) {
    && (forall i :: 0 <= i < |s.added| ==> s.added[i].key == i)
    && (forall i :: 0 <= i < |s.added| ==> Accounted(s, s.added[i]))
  }

  ghost predicate Inv(s: State) {
    && QueueSound(s) && AllAccounted(s)
    && SettledSound(s.added, s.sent, s.queue) && SettledSound(s.added, s.refused, s.queue)
    && (s.flight.Some? ==> FlightSound(s, s.flight.value))
  }

  lemma {:induction false} WithoutGroupIs(queue: seq<Item>, group: Option<string>)
    requires InOrder(queue)
    ensures forall x :: x in WithoutGroup(queue, group) <==> x in queue && (group.None? || x.group != group)
    ensures InOrder(WithoutGroup(queue, group))
  {
    if |queue| > 0 {
      var front, last := queue[..|queue| - 1], queue[|queue| - 1];
      WithoutGroupIs(front, group);
      assert queue == front + [last];
      KeysBelow(front, last, WithoutGroup(front, group));
    }
  }

  lemma {:induction false} WithoutKeyIs(queue: seq<Item>, key: nat)
    requires InOrder(queue)
    ensures forall x :: x in WithoutKey(queue, key) <==> x in queue && x.key != key
    ensures InOrder(WithoutKey(queue, key))
  {
    if |queue| > 0 {
      var front, last := queue[..|queue| - 1], queue[|queue| - 1];
      WithoutKeyIs(front, key);
      assert queue == front + [last];
      KeysBelow(front, last, WithoutKey(front, key));
    }
  }

  lemma KeysBelow(front: seq<Item>, last: Item, kept: seq<Item>)
    requires InOrder(front + [last]) && forall x :: x in kept ==> x in front
    ensures forall i :: 0 <= i < |kept| ==> kept[i].key < last.key
  {
    forall i | 0 <= i < |kept| ensures kept[i].key < last.key {
      assert kept[i] in front;
      var j :| 0 <= j < |front| && front[j] == kept[i];
      assert (front + [last])[j] == kept[i] && (front + [last])[|front|] == last;
    }
  }

  lemma SupersededStays(added: seq<Item>, item: Item, x: Item)
    requires item.key == |added|
    ensures Superseded(added + [item], x)
            <==> Superseded(added, x) || (x.group.Some? && x.group == item.group && x.key < item.key)
  {
    var more := added + [item];
    if Superseded(added, x) {
      var j :| x.key < j < |added| && added[j].group == x.group;
      assert more[j].group == x.group;
    }
    if Superseded(more, x) {
      var j :| x.key < j < |more| && more[j].group == x.group;
      assert j < |added| ==> added[j].group == x.group;
    }
    assert more[|added|] == item;
  }

  lemma AddQueueSound(s: State, item: Item)
    requires Inv(s) && item.key == |s.added|
    ensures QueueSound(AddStep(s, item))
    ensures forall x <- AddStep(s, item).queue :: x == item || x in s.queue
  {
    WithoutGroupIs(s.queue, item.group);
    var t := AddStep(s, item);
    forall x | x in t.queue ensures (x == item || x in s.queue) && !Superseded(t.added, x) {
      SupersededStays(s.added, item, x);
    }
  }

  lemma AddAccounts(s: State, item: Item)
    requires Inv(s) && item.key == |s.added|
    ensures AllAccounted(AddStep(s, item))
  {
    WithoutGroupIs(s.queue, item.group);
    var t := AddStep(s, item);
    forall i | 0 <= i < |t.added| ensures Accounted(t, t.added[i]) {
      if i < |s.added| {
        assert Accounted(s, s.added[i]);
        SupersededStays(s.added, item, s.added[i]);
      }
    }
  }

  lemma AddKeeps(s: State, item: Item)
    requires Inv(s) && item.key == |s.added|
    ensures Inv(AddStep(s, item))
  {
    AddQueueSound(s, item);
    AddAccounts(s, item);
    var t := AddStep(s, item);
    assert SettledSound(t.added, t.sent, t.queue);
    assert SettledSound(t.added, t.refused, t.queue);
  }

  lemma RestTail(rest: seq<Item>)
    requires InOrder(rest) && rest != []
    ensures InOrder(rest[1..]) && (forall x :: x in rest <==> x == rest[0] || x in rest[1..])
    ensures forall x <- rest[1..] :: rest[0].key < x.key
  {
    assert rest == [rest[0]] + rest[1..];
  }

  /** The head of the snapshot leaves the queue; what waits comes after it. */
  lemma HeadLeaves(s: State, f: Flight)
    requires QueueSound(s) && FlightSound(s, f) && f.rest != []
    ensures var queue := WithoutKey(s.queue, f.rest[0].key);
            && (forall x :: x in queue <==> x in s.queue && x != f.rest[0])
            && InOrder(queue)
            && (forall x <- queue :: f.rest[0].key < x.key && (x in f.rest[1..] || x.key >= f.start))
  {
    var item := f.rest[0];
    RestTail(f.rest);
    WithoutKeyIs(s.queue, item.key);
    forall x | x in s.queue && x.key == item.key ensures x == item {
      assert s.added[x.key] == x;
    }
  }

  lemma SettleOne(added: seq<Item>, settled: seq<Item>, item: Item, queue: seq<Item>)
    requires SettledSound(added, settled, [item]) && Known(added, [item]) && forall y <- queue :: item.key < y.key
    ensures SettledSound(added, settled + [item], queue)
  {
    assert item in [item];
    forall x, y | x in settled + [item] && y in queue ensures x.key < y.key {
    }
    forall i | 0 <= i < |settled| ensures settled[i].key < item.key {
      assert settled[i] in settled;
    }
  }

  lemma FewerWait(added: seq<Item>, settled: seq<Item>, queue: seq<Item>, fewer: seq<Item>)
    requires SettledSound(added, settled, queue) && forall x <- fewer :: x in queue
    ensures SettledSound(added, settled, fewer)
  {
  }

  lemma HearAccounts(s: State, t: State)
    requires AllAccounted(s) && t.added == s.added
    requires forall x :: x in s.queue || x in s.sent || x in s.refused ==> x in t.queue || x in t.sent || x in t.refused
    ensures AllAccounted(t)
  {
    forall i | 0 <= i < |t.added| ensures Accounted(t, t.added[i]) {
      assert Accounted(s, s.added[i]);
    }
  }

  lemma HearFlight(s: State, f: Flight, t: State, g: Flight)
    requires QueueSound(s) && FlightSound(s, f) && f.rest != []
    requires g.rest == f.rest[1..] && g.start == f.start && t.added == s.added
    requires t.queue == WithoutKey(s.queue, f.rest[0].key)
    requires forall x :: (x in t.sent || x in t.refused) ==> x in s.sent || x in s.refused || x == f.rest[0]
    ensures FlightSound(t, g) && QueueSound(t)
  {
    HeadLeaves(s, f);
    RestTail(f.rest);
    assert Before(t.sent, g.rest) by {
      assert forall x <- f.rest[1..] :: x in f.rest;
    }
    assert Before(t.refused, g.rest) by {
      assert forall x <- f.rest[1..] :: x in f.rest;
    }
  }

  lemma HearSettles(s: State, f: Flight, settled: seq<Item>, other: seq<Item>)
    requires QueueSound(s) && FlightSound(s, f) && f.rest != [] && Before(settled, f.rest)
    requires SettledSound(s.added, settled, s.queue) && SettledSound(s.added, other, s.queue)
    ensures var queue := WithoutKey(s.queue, f.rest[0].key);
            SettledSound(s.added, settled + [f.rest[0]], queue) && SettledSound(s.added, other, queue)
  {
    var item := f.rest[0];
    HeadLeaves(s, f);
    assert item in f.rest;
    SettleOne(s.added, settled, item, WithoutKey(s.queue, item.key));
    FewerWait(s.added, other, s.queue, WithoutKey(s.queue, item.key));
  }

  lemma HearKeeps(s: State, answer: Answer)
    requires Inv(s)
    ensures Inv(HearStep(s, answer))
  {
    var t := HearStep(s, answer);
    if s.flight.Some? && s.flight.value.rest != [] && (answer.Accepts? || answer.Refuses?) {
      var f := s.flight.value;
      HeadLeaves(s, f);
      HearAccounts(s, t);
      HearFlight(s, f, t, t.flight.value);
      if answer.Accepts? {
        HearSettles(s, f, s.sent, s.refused);
      } else {
        HearSettles(s, f, s.refused, s.sent);
      }
    }
  }

  lemma {:induction false} StepKeepsInv(s: State, e: Event)
    requires Inv(s)
    ensures Inv(Next(s, e))
  {
    match e
    case Add(group, update, text) => AddKeeps(s, Item(|s.added|, group, update, text));
    case Hear(answer) => HearKeeps(s, answer);
    case Begin =>
      HearAccounts(s, Next(s, e));
    case Finish =>
      HearAccounts(s, Next(s, e));
    case ClearRefused =>
      HearAccounts(s, Next(s, e));
  }

  lemma {:induction false} RunKeepsInv(es: seq<Event>)
    ensures Inv(Run(START, es))
  {
    if |es| > 0 {
      RunKeepsInv(es[..|es| - 1]);
      StepKeepsInv(Run(START, es[..|es| - 1]), es[|es| - 1]);
    }
  }

  // ----- results over every run --------------------------------------------------------------

  /** Every update is still waiting, acknowledged, refused, or superseded by a later one. */
  lemma {:induction false} NothingIsForgotten(es: seq<Event>, i: nat)
    requires i < |Run(START, es).added|
    ensures Accounted(Run(START, es), Run(START, es).added[i])
  {
    RunKeepsInv(es);
  }

  /**
   * What the server acknowledged it acknowledged in the order added, nothing twice, and all of it
   * was added before anything that still waits; no group waits twice.
   */
  lemma {:induction false} SentInOrder(es: seq<Event>)
    ensures var s := Run(START, es);
            && InOrder(s.sent) && InOrder(s.queue) && Before(s.sent, s.queue)
            && (forall x <- s.sent :: x.key < |s.added| && s.added[x.key] == x)
            && (forall x <- s.queue, y <- s.queue :: x.group.Some? && x.group == y.group ==> x == y)
  {
    RunKeepsInv(es);
    var s := Run(START, es);
    forall x, y | x in s.queue && y in s.queue && x.group.Some? && x.group == y.group ensures x == y {
      OnePerGroup(s, x, y);
      OnePerGroup(s, y, x);
    }
  }

  lemma OnePerGroup(s: State, x: Item, y: Item)
    requires QueueSound(s) && x in s.queue && y in s.queue && x.group.Some? && x.group == y.group
    ensures x.key >= y.key
  {
    assert s.added[y.key] == y;
    assert x.key < y.key ==> Superseded(s.added, x);
  }

  /**
   * Once the queue is empty and nothing was refused, the last update of every group is the last
   * one of that group the server acknowledged, and every update without a group was acknowledged.
   */
  lemma {:induction false} DrainedMeansUpToDate(es: seq<Event>, item: Item)
    requires var s := Run(START, es); s.queue == [] && s.refused == [] && item in s.added && !Superseded(s.added, item)
    ensures var s := Run(START, es);
            item in s.sent && (item.group.Some? ==> forall x <- s.sent :: x.group == item.group ==> x.key <= item.key)
  {
    RunKeepsInv(es);
    var s := Run(START, es);
    var i :| 0 <= i < |s.added| && s.added[i] == item;
    assert Accounted(s, s.added[i]);
    if item.group.Some? {
      forall x | x in s.sent && x.group == item.group ensures x.key <= item.key {
        assert s.added[x.key] == x;
      }
    }
  }
}
