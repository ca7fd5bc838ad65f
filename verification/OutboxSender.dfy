/**
 * The stored queue and the loop that sends it. While it waits for an answer other code may add
 * updates, dismiss notices or ask for another send; each statement is shown to be the
 * corresponding step of module Outbox, so that module's results hold of every stored queue.
 */
module OutboxSender {
  import opened Options
  import opened Outbox
  import opened OutboxHistory

  /** What other code may do: everything but answer or end the send that is going on. */
  ghost predicate OthersOnly(before: seq<Event>, after: seq<Event>) {
    before <= after && forall i :: |before| <= i < |after| ==> after[i].Add? || after[i].ClearRefused? || after[i].Begin?
  }

  /** The protocol is in this state after these steps. */
  ghost predicate Reached(trace: seq<Event>, s: State) {
    forall es :: es == trace ==> Run(START, es) == s
  }

  lemma ReachedIs(trace: seq<Event>, s: State)
    ensures Reached(trace, s) <==> s == Run(START, trace)
  {
  }

  lemma ReachedNext(trace: seq<Event>, s: State, e: Event)
    requires Reached(trace, s)
    ensures Reached(trace + [e], Next(s, e))
  {
    ReachedIs(trace, s);
    assert (trace + [e])[..|trace|] == trace;
    ReachedIs(trace + [e], Next(s, e));
  }

  lemma {:induction false} OthersLeave(before: seq<Event>, after: seq<Event>)
    requires OthersOnly(before, after) && Run(START, before).flight.Some?
    ensures var s, t := Run(START, before), Run(START, after);
            t.flight == s.flight && t.sent == s.sent && t.refused == s.refused && s.added <= t.added
  {
    if |before| < |after| {
      OthersLeave(before, after[..|after| - 1]);
    } else {
      assert before == after;
    }
  }

  class Sender {
    var queue: seq<Item>
    var flushing: bool
    var lastRefused: seq<string>
    ghost var trace: seq<Event>
    ghost var view: State

    ghost predicate Valid()
      reads this
    {
      && queue == view.queue && lastRefused == view.lastRefused && flushing == view.flight.Some?
      && Reached(trace, view)
    }

    constructor ()
      ensures Valid() && trace == []
    {
      queue, flushing, lastRefused, trace, view := [], false, [], [], START;
      new;
      ReachedIs([], START);
    }

    /** An await: anything other code may do happens here, and nothing else is known. */
    method Others()
      requires Valid()
      modifies this
      ensures Valid() && OthersOnly(old(trace), trace)
    {
    }

    method Await()
      requires Valid() && flushing
      modifies this
      ensures Valid() && flushing && old(trace) <= trace
      ensures view.flight == old(view.flight) && view.sent == old(view.sent) && view.refused == old(view.refused)
    {
      Others();
      ReachedIs(old(trace), old(view));
      ReachedIs(trace, view);
      OthersLeave(old(trace), trace);
    }

    ghost method Took(e: Event)
      requires Reached(trace, view)
      modifies this`trace, this`view
      ensures trace == old(trace) + [e] && view == Next(old(view), e) && Reached(trace, view)
    {
      ReachedNext(trace, view, e);
      trace, view := trace + [e], Next(view, e);
    }

    /** Puts an update at the end, in place of a waiting one of its group. */
    method Enqueue(key: nat, group: Option<string>, update: Update, text: string)
      requires Valid() && key == |view.added|
      modifies this
      ensures Valid() && old(trace) <= trace
      ensures queue == WithoutGroup(old(queue), group) + [Item(key, group, update, text)]
    {
      var kept := if group.Some? then WithoutGroup(queue, group) else queue;
      NoGroupKeepsAll(queue);
      queue := kept + [Item(key, group, update, text)];
      Took(Add(group, update, text));
    }

    method DismissNotices()
      requires Valid()
      modifies this
      ensures Valid() && old(trace) <= trace && lastRefused == [] && queue == old(queue)
    {
      lastRefused := [];
      Took(ClearRefused);
    }

    /**
     * Works through a snapshot of the queue: an update the server took or refused leaves it, and
     * the first that got no verdict ends the loop. `answers` is what each one in turn meets.
     */
    method Flush(answers: nat -> Answer) returns (sent: nat, turnedDown: seq<string>)
      requires Valid()
      modifies this
      ensures Valid() && old(trace) <= trace
      ensures old(flushing) ==> sent == 0 && turnedDown == [] && view == old(view)
      ensures !old(flushing) ==> !flushing && SendComesTo(old(queue), answers, sent, turnedDown, old(view), view)
    {
      if flushing {
        return 0, [];
      }
      flushing := true;
      Took(Begin);
      var snapshot := queue;
      ghost var before := view;
      SendBegins(snapshot, answers, before);
      sent, turnedDown := SendAll(snapshot, answers, before);
      ghost var after := view;
      EndSend(turnedDown, |before.added|);
      SendEnds(snapshot, answers, sent, turnedDown, before, after);
    }

    lemma SendBegins(snapshot: seq<Item>, answers: nat -> Answer, before: State)
      requires Valid() && flushing && before == view && view.flight == Some(Flight(snapshot, [], |view.added|))
      ensures Progress(snapshot, answers, 0, before, [], false)
    {
      assert view.sent[|before.sent|..] == [] && view.refused[|before.refused|..] == [] && snapshot[0..] == snapshot;
    }

    lemma SendEnds(snapshot: seq<Item>, answers: nat -> Answer, sent: nat, turnedDown: seq<string>, before: State, after: State)
      requires Valid() && before.sent <= after.sent && before.refused <= after.refused
      requires view.sent == after.sent && view.refused == after.refused
      requires var settled := sent + |turnedDown|;
               && SettledSoFar(snapshot, answers, settled, after.sent[|before.sent|..], after.refused[|before.refused|..], turnedDown)
               && (settled < |snapshot| ==> answers(settled) == Unreachable || answers(settled) == SignedOut)
      requires turnedDown != [] ==> EndsWith(lastRefused, turnedDown)
      ensures SendComesTo(snapshot, answers, sent, turnedDown, before, view)
    {
      assert view.sent == before.sent + after.sent[|before.sent|..];
      assert view.refused == before.refused + after.refused[|before.refused|..];
      SettledNotWaiting(snapshot, answers, sent + |turnedDown|, before.sent, before.refused);
    }

    /** So many of the snapshot are settled as the answers say, and the next is up, if any. */
    ghost predicate Progress(snapshot: seq<Item>, answers: nat -> Answer, n: nat, before: State, turnedDown: seq<string>, stopped: bool)
      reads this
    {
      && Valid() && flushing && before.sent <= view.sent && before.refused <= view.refused && n <= |snapshot|
      && view.flight == Some(Flight(if stopped then [] else snapshot[n..], turnedDown, |before.added|))
      && SettledSoFar(snapshot, answers, n, view.sent[|before.sent|..], view.refused[|before.refused|..], turnedDown)
    }

    /** The loop over the snapshot. */
    method SendAll(snapshot: seq<Item>, answers: nat -> Answer, ghost before: State) returns (sent: nat, turnedDown: seq<string>)
      requires Progress(snapshot, answers, 0, before, [], false)
      modifies this
      ensures old(trace) <= trace
      ensures var settled := sent + |turnedDown|;
              && Progress(snapshot, answers, settled, before, turnedDown, true)
              && (settled < |snapshot| ==> answers(settled) == Unreachable || answers(settled) == SignedOut)
    {
      sent, turnedDown := 0, [];
      var i := 0;
      var stopped := false;
      while i < |snapshot| && !stopped
        invariant old(trace) <= trace && i == sent + |turnedDown|
        invariant Progress(snapshot, answers, i, before, turnedDown, stopped)
        invariant stopped ==> i < |snapshot| && (answers(i) == Unreachable || answers(i) == SignedOut)
        decreases |snapshot| - i, !stopped
      {
        SendNext(snapshot, answers, i, before, turnedDown);
        match answers(i) {
          case Accepts =>
            sent, i := sent + 1, i + 1;
          case Refuses =>
            turnedDown, i := turnedDown + [snapshot[i].text], i + 1;
          case Unreachable =>
            stopped := true;
          case SignedOut =>
            stopped := true;
        }
      }
      assert i == |snapshot| ==> snapshot[i..] == [];
    }

    method SendNext(snapshot: seq<Item>, answers: nat -> Answer, n: nat, ghost before: State, ghost turnedDown: seq<string>)
      requires n < |snapshot| && Progress(snapshot, answers, n, before, turnedDown, false)
      modifies this
      ensures old(trace) <= trace
      ensures answers(n) == Accepts ==> Progress(snapshot, answers, n + 1, before, turnedDown, false)
      ensures answers(n) == Refuses ==> Progress(snapshot, answers, n + 1, before, turnedDown + [snapshot[n].text], false)
      ensures answers(n) == Unreachable || answers(n) == SignedOut ==> Progress(snapshot, answers, n, before, turnedDown, true)
    {
      ghost var sent, refused := view.sent[|before.sent|..], view.refused[|before.refused|..];
      assert snapshot[n..] == [snapshot[n]] + snapshot[n + 1..];
      OneMoreSettled(snapshot, answers, n, sent, refused, turnedDown);
      SendOne(snapshot[n], answers(n), snapshot[n + 1..], turnedDown, |before.added|);
      assert view.sent[|before.sent|..] == if answers(n) == Accepts then sent + [snapshot[n]] else sent;
      assert view.refused[|before.refused|..] == if answers(n) == Refuses then refused + [snapshot[n]] else refused;
    }

    /** One update is sent; a verdict takes it out of the queue. */
    method SendOne(item: Item, answer: Answer, ghost rest: seq<Item>, ghost turnedDown: seq<string>, ghost start: nat)
      requires Valid() && flushing && view.flight == Some(Flight([item] + rest, turnedDown, start))
      modifies this
      ensures Valid() && flushing && old(trace) <= trace
      ensures view.sent == if answer == Accepts then old(view.sent) + [item] else old(view.sent)
      ensures view.refused == if answer == Refuses then old(view.refused) + [item] else old(view.refused)
      ensures view.flight == Some(Flight(if answer == Accepts || answer == Refuses then rest else [],
                                         if answer == Refuses then turnedDown + [item.text] else turnedDown, start))
    {
      Await();
      assert ([item] + rest)[1..] == rest;
      if answer == Accepts || answer == Refuses {
        queue := WithoutKey(queue, item.key);
      }
      Took(Hear(answer));
    }

    /** The send is over; what was refused is told. */
    method EndSend(turnedDown: seq<string>, ghost start: nat)
      requires Valid() && flushing && view.flight == Some(Flight([], turnedDown, start))
      modifies this
      ensures Valid() && !flushing && old(trace) <= trace && queue == old(queue)
      ensures view.sent == old(view.sent) && view.refused == old(view.refused)
      ensures turnedDown != [] ==> EndsWith(lastRefused, turnedDown)
      ensures turnedDown == [] ==> lastRefused == old(lastRefused)
    {
      flushing := false;
      if turnedDown != [] {
        lastRefused := LastTen(lastRefused + turnedDown);
      }
      Took(Finish);
    }

    /** What was settled does not wait any more. */
    lemma SettledNotWaiting(snapshot: seq<Item>, answers: nat -> Answer, n: nat, sent: seq<Item>, refused: seq<Item>)
      requires Valid() && n <= |snapshot|
      requires view.sent == sent + Meeting(snapshot, answers, n, Accepts)
      requires view.refused == refused + Meeting(snapshot, answers, n, Refuses)
      requires forall k :: 0 <= k < n ==> answers(k) == Accepts || answers(k) == Refuses
      ensures forall k :: 0 <= k < n ==> snapshot[k] !in queue
    {
      ReachedIs(trace, view);
      RunKeepsInv(trace);
      forall k: nat | k < n ensures snapshot[k] !in queue {
        MeetsItsAnswer(snapshot, answers, n, k);
        assert snapshot[k] in view.sent || snapshot[k] in view.refused;
      }
    }

    lemma {:induction false} NoGroupKeepsAll(items: seq<Item>)
      ensures WithoutGroup(items, None) == items
    {
      if |items| > 0 {
        NoGroupKeepsAll(items[..|items| - 1]);
      }
    }
  }
}
