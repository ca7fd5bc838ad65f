/**
 * What became of each update, told by the events of a run: what was added, and what the server
 * answered when its turn came.
 */
module OutboxHistory {
  import opened Options
  import opened Outbox

  /** The updates added, each under a key of its own. */
  function Additions(es: seq<Event>): seq<Item> {
    if |es| == 0 then []
    else
      var before := Additions(es[..|es| - 1]);
      match es[|es| - 1]
      case Add(group, update, text) => before + [Item(|before|, group, update, text)]
      case _ => before
  }

  lemma {:induction false} AddedAreTheAdditions(es: seq<Event>)
    ensures Run(START, es).added == Additions(es)
  {
    if |es| > 0 {
      AddedAreTheAdditions(es[..|es| - 1]);
    }
  }

  /** It was this update's turn. */
  predicate IsNext(s: State, item: Item) {
    s.flight.Some? && s.flight.value.rest != [] && s.flight.value.rest[0] == item
  }

  /** The server answered this to that update. */
  predicate HeardAt(es: seq<Event>, n: nat, item: Item, answer: Answer) {
    n < |es| && es[n] == Hear(answer) && IsNext(Run(START, es[..n]), item)
  }

  ghost predicate WasHeard(es: seq<Event>, item: Item, answer: Answer) {
    exists n: nat :: HeardAt(es, n, item, answer)
  }

  lemma HeardMore(es: seq<Event>, e: Event, item: Item, answer: Answer)
    ensures WasHeard(es + [e], item, answer) <==>
            WasHeard(es, item, answer) || (e == Hear(answer) && IsNext(Run(START, es), item))
  {
    var more := es + [e];
    assert more[..|es|] == es;
    if n: nat :| HeardAt(es, n, item, answer) {
      assert more[..n] == es[..n] && HeardAt(more, n, item, answer);
    }
    if e == Hear(answer) && IsNext(Run(START, es), item) {
      assert HeardAt(more, |es|, item, answer);
    }
    if n: nat :| HeardAt(more, n, item, answer) {
      assert more[..n] == es[..n];
      assert n < |es| ==> HeardAt(es, n, item, answer);
    }
  }

  /** Acknowledged is exactly what the server accepted when its turn came, refused what it refused. */
  lemma {:induction false} SettledIsHeard(es: seq<Event>, item: Item)
    ensures item in Run(START, es).sent <==> WasHeard(es, item, Accepts)
    ensures item in Run(START, es).refused <==> WasHeard(es, item, Refuses)
  {
    if |es| > 0 {
      var before, e := es[..|es| - 1], es[|es| - 1];
      assert es == before + [e];
      SettledIsHeard(before, item);
      HeardMore(before, e, item, Accepts);
      HeardMore(before, e, item, Refuses);
    }
  }

  /** A verdict takes the update, and nothing else, out of the queue. */
  lemma VerdictTakesOut(s: State, item: Item, answer: Answer)
    requires IsNext(s, item) && QueueSound(s) && FlightSound(s, s.flight.value) && (answer == Accepts || answer == Refuses)
    ensures forall x :: x in Next(s, Hear(answer)).queue <==> x in s.queue && x != item
  {
    HeadLeaves(s, s.flight.value);
    HeadGoes(s, item, answer);
  }

  lemma HeadGoes(s: State, item: Item, answer: Answer)
    requires IsNext(s, item) && (answer == Accepts || answer == Refuses)
    ensures Next(s, Hear(answer)).queue == WithoutKey(s.queue, item.key)
  {
  }

  /** It passes the turn on; no verdict ends the send and leaves the queue alone. */
  lemma VerdictPassesTurn(s: State, item: Item, answer: Answer)
    requires IsNext(s, item)
    ensures var f, t := s.flight.value, Next(s, Hear(answer));
            && t.lastRefused == s.lastRefused && t.added == s.added
            && t.flight == Some(if answer == Accepts then Flight(f.rest[1..], f.turnedDown, f.start)
                                else if answer == Refuses then Flight(f.rest[1..], f.turnedDown + [item.text], f.start)
                                else Flight([], f.turnedDown, f.start))
            && (answer == Unreachable || answer == SignedOut ==> t.queue == s.queue)
  {
  }

  // ----- a send and its notices --------------------------------------------------------------

  /** A send is going on: one began, and has not ended. */
  predicate Sending(es: seq<Event>)
    decreases |es|
  {
    if |es| == 0 then false
    else
      match es[|es| - 1]
      case Begin => true
      case Finish => Sending(es[..|es| - 1]) && Turns(es[..|es| - 1]) != []
      case _ => Sending(es[..|es| - 1])
  }

  /** The updates whose turn is still to come: what the queue held when the send began, until one
      gets no verdict. */
  function Turns(es: seq<Event>): seq<Item>
    decreases |es|
  {
    if |es| == 0 then []
    else
      var front := es[..|es| - 1];
      match es[|es| - 1]
      case Begin => if Sending(front) then Turns(front) else Run(START, front).queue
      case Hear(answer) =>
        if !Sending(front) || Turns(front) == [] then Turns(front)
        else if answer == Accepts || answer == Refuses then Turns(front)[1..] else []
      case _ => Turns(front)
  }

  /** The texts refused in the send. */
  function RefusedTexts(es: seq<Event>): seq<string> {
    if |es| == 0 then []
    else
      var front := es[..|es| - 1];
      match es[|es| - 1]
      case Begin => if Sending(front) then RefusedTexts(front) else []
      case Hear(answer) =>
        if Sending(front) && Turns(front) != [] && answer == Refuses then RefusedTexts(front) + [Turns(front)[0].text]
        else RefusedTexts(front)
      case _ => RefusedTexts(front)
  }

  function LastOnes(notices: seq<string>): seq<string> {
    if |notices| <= 10 then notices else notices[|notices| - 10..]
  }

  /** The notices shown: the last ten refused, told when a send ends, until they are dismissed. */
  function Notices(es: seq<Event>): seq<string> {
    if |es| == 0 then []
    else
      var front := es[..|es| - 1];
      match es[|es| - 1]
      case Finish =>
        if Sending(front) && Turns(front) == [] && RefusedTexts(front) != [] then LastOnes(Notices(front) + RefusedTexts(front))
        else Notices(front)
      case ClearRefused => []
      case _ => Notices(front)
  }

  ghost predicate SendIs(s: State, es: seq<Event>) {
    && s.flight.Some? == Sending(es)
    && (Sending(es) ==> s.flight.value.rest == Turns(es) && s.flight.value.turnedDown == RefusedTexts(es))
    && s.lastRefused == Notices(es)
  }

  /** A send takes what the queue held, one after another, and what is told is what it was refused. */
  lemma {:induction false} SendIsItsEvents(es: seq<Event>)
    ensures SendIs(Run(START, es), es)
  {
    if |es| > 0 {
      SendIsItsEvents(es[..|es| - 1]);
    }
  }

  // ----- a snapshot and its answers ----------------------------------------------------------

  /** Of the first so many, those that met this answer. */
  function Meeting(items: seq<Item>, answers: nat -> Answer, n: nat, answer: Answer): seq<Item>
    requires n <= |items|
  {
    if n == 0 then []
    else Meeting(items, answers, n - 1, answer) + if answers(n - 1) == answer then [items[n - 1]] else []
  }

  lemma {:induction false} MeetsItsAnswer(items: seq<Item>, answers: nat -> Answer, n: nat, k: nat)
    requires k < n <= |items|
    ensures items[k] in Meeting(items, answers, n, answers(k))
  {
    if k < n - 1 {
      MeetsItsAnswer(items, answers, n - 1, k);
    }
  }

  function Texts(items: seq<Item>): seq<string> {
    if |items| == 0 then [] else Texts(items[..|items| - 1]) + [items[|items| - 1].text]
  }

  lemma TextsAppend(items: seq<Item>, item: Item)
    ensures Texts(items + [item]) == Texts(items) + [item.text]
  {
    assert (items + [item])[..|items|] == items;
  }

  /** So far the server answered this many of them: what was acknowledged, refused and noted. */
  ghost predicate SettledSoFar(items: seq<Item>, answers: nat -> Answer, n: nat,
                               sent: seq<Item>, refused: seq<Item>, turnedDown: seq<string>)
  {
    && n <= |items| && (forall k :: 0 <= k < n ==> answers(k) == Accepts || answers(k) == Refuses)
    && sent == Meeting(items, answers, n, Accepts) && refused == Meeting(items, answers, n, Refuses)
    && turnedDown == Texts(refused) && n == |sent| + |turnedDown|
  }

  lemma OneMoreSettled(items: seq<Item>, answers: nat -> Answer, n: nat, sent: seq<Item>, refused: seq<Item>, turnedDown: seq<string>)
    requires SettledSoFar(items, answers, n, sent, refused, turnedDown) && n < |items|
    ensures answers(n) == Accepts ==> SettledSoFar(items, answers, n + 1, sent + [items[n]], refused, turnedDown)
    ensures answers(n) == Refuses ==>
              SettledSoFar(items, answers, n + 1, sent, refused + [items[n]], turnedDown + [items[n].text])
  {
    TextsAppend(refused, items[n]);
    assert sent + [] == sent && refused + [] == refused;
  }

  /** What a send comes to: how many were acknowledged, what was refused, and where it stopped. */
  ghost predicate SendComesTo(queue: seq<Item>, answers: nat -> Answer, sent: nat, turnedDown: seq<string>, before: State, after: State) {
    var settled := sent + |turnedDown|;
    && settled <= |queue|
    && (forall k :: 0 <= k < settled ==> (answers(k) == Accepts || answers(k) == Refuses) && queue[k] !in after.queue)
    && (settled < |queue| ==> answers(settled) == Unreachable || answers(settled) == SignedOut)
    && after.sent == before.sent + Meeting(queue, answers, settled, Accepts)
    && after.refused == before.refused + Meeting(queue, answers, settled, Refuses)
    && turnedDown == Texts(Meeting(queue, answers, settled, Refuses))
    && (turnedDown != [] ==> EndsWith(after.lastRefused, turnedDown))
  }

  /** The last notices are shown, ten at most, what is new coming last. */
  predicate EndsWith(notices: seq<string>, turnedDown: seq<string>) {
    if |turnedDown| <= 10
    then |turnedDown| <= |notices| <= 10 && notices[|notices| - |turnedDown|..] == turnedDown
    else notices == turnedDown[|turnedDown| - 10..]
  }
}
