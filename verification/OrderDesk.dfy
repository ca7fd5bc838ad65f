/**
 * The retry loop that creates an order, over the order rows of one branch. At every wait other
 * calls may take any number of steps; each statement is shown to be the corresponding step of the
 * protocol in module UniqueOrders, so that module's results speak about every answer given here.
 */
module OrderDesk {
  import opened Options
  import opened UniqueOrders
  import opened OrderHistory

  ghost predicate OthersOnly(before: seq<Event>, after: seq<Event>, me: Caller) {
    before <= after && forall i :: |before| <= i < |after| ==> after[i].who != me
  }

  /** The protocol is in this state after these steps. */
  ghost predicate Reached(trace: seq<Event>, s: State) {
    forall es :: es == trace ==> Run(START, es) == s
  }

  lemma ReachedIs(trace: seq<Event>, s: State)
    ensures Reached(trace, s) <==> s == Run(START, trace)
  {
  }

  lemma ReachedNext(trace: seq<Event>, s: State, e: Event)
    requires Reached(trace, s)
    ensures Reached(trace + [e], Next(s, e))
  {
    ReachedIs(trace, s);
    assert (trace + [e])[..|trace|] == trace;
    ReachedIs(trace + [e], Next(s, e));
  }

  /** Others never move a caller, and never take an order away. */
  lemma {:induction false} OthersLeave(before: seq<Event>, after: seq<Event>, me: Caller)
    requires OthersOnly(before, after, me)
    ensures var s, t := Run(START, before), Run(START, after);
            PhaseOf(t, me) == PhaseOf(s, me) && InsertsOf(t, me) == InsertsOf(s, me) && s.orders <= t.orders
  {
    if |before| < |after| {
      OthersLeave(before, after[..|after| - 1], me);
    } else {
      assert before == after;
    }
  }

  class Desk {
    var orders: seq<Order>
    ghost var trace: seq<Event>
    ghost var view: State

    ghost predicate Valid()
      reads this
    {
      orders == view.orders && Reached(trace, view)
    }

    ghost predicate Stands(me: Caller, phase: Phase)
      reads this
    {
      Valid() && PhaseOf(view, me) == phase
    }

    constructor ()
      ensures Valid() && trace == []
    {
      orders, trace, view := [], [], START;
      new;
      ReachedIs([], START);
    }

    /** An await: anything other callers may do happens here, and nothing else is known. */
    method Others(ghost me: Caller)
      requires Valid()
      modifies this
      ensures Valid() && OthersOnly(old(trace), trace, me)
    {
    }

    method Await(ghost me: Caller)
      requires Valid()
      modifies this
      ensures Valid() && old(trace) <= trace && PhaseOf(view, me) == old(PhaseOf(view, me)) && old(orders) <= orders
    {
      Others(me);
      ReachedIs(old(trace), old(view));
      ReachedIs(trace, view);
      OthersLeave(old(trace), trace, me);
    }

    ghost method Took(e: Event)
      requires Reached(trace, view)
      modifies this`trace, this`view
      ensures trace == old(trace) + [e] && view == Next(old(view), e) && Reached(trace, view)
    {
      ReachedNext(trace, view, e);
      trace, view := trace + [e], Next(view, e);
    }

    lemma AnswerIsTrue(me: Caller, r: Request, answer: Answer)
      requires Stands(me, Done(r, answer))
      ensures TrueAnswer(me, r, answer)
    {
      ReachedIs(trace, view);
      RunKeepsInv(trace);
      assert PhaseSound(view, me, PhaseOf(view, me));
      if WellFormed(r) && forall i :: 0 <= i < |orders| ==> WellFormed(orders[i].from) {
        TruthfulSays(r, answer, orders);
      }
      if answer.Failed? {
        FailureHasReason(trace, me);
      }
    }

    /**
     * Among well-formed requests an order handed back is of this very request, and a refusal for
     * another body is one; without a key there is neither. Three inserts at most, and a failure
     * has its reason.
     */
    ghost predicate TrueAnswer(me: Caller, r: Request, answer: Answer)
      reads this
    {
      && (WellFormed(r) && (forall i :: 0 <= i < |orders| ==> WellFormed(orders[i].from)) ==> Says(r, answer, orders))
      && (Unkeyed(r) ==> answer.Placed? || answer.Failed?)
      && (answer.Placed? ==> answer.order < |orders| && orders[answer.order].from == r)
      && InsertsOf(view, me) <= 3
      && (answer.Failed? ==> HadReason(trace, me))
    }

    /** Looks before inserting. */
    method CheckReplay(ghost me: Caller, r: Request) returns (answer: Option<Answer>)
      requires Stands(me, Checking(r))
      modifies this`trace, this`view
      ensures old(trace) <= trace
      ensures Stands(me, if answer.Some? then Done(r, answer.value) else Placing(r, 1))
    {
      var found := Find(r, orders);
      answer := if found.Some? then Some(Reply(r, orders, found.value)) else None;
      Took(LookUp(me));
    }

    /** The insert; the answer is known unless a unique index refused, or seemed to. */
    method InsertOrder(ghost me: Caller, r: Request, ghost attempt: nat, number: nat, outcome: Outcome)
      returns (answer: Option<Answer>)
      requires Stands(me, Placing(r, attempt))
      modifies this
      ensures old(trace) <= trace
      ensures Stands(me, if answer.Some? then Done(r, answer.value) else Clashed(r, attempt))
      ensures orders == old(orders) + (if !Blocked(Order(r, number), old(orders)) && (outcome.Stored? || outcome.committed)
                                       then [Order(r, number)] else [])
      ensures answer.Some? <==> outcome.Throw? || (outcome.Stored? && !Blocked(Order(r, number), old(orders)))
      ensures answer.Some? ==> answer.value == if outcome.Throw? then Failed else Placed(|old(orders)|)
    {
      var o := Order(r, number);
      var before := orders;
      var blocked := exists i :: 0 <= i < |orders| && Taken(o, orders[i]);
      if !blocked && (outcome.Stored? || outcome.committed) {
        orders := orders + [o];
      }
      answer := if outcome.Throw? then Some(Failed)
                else if outcome.Stored? && !blocked then Some(Placed(|before|))
                else None;
      Took(Insert(me, number, outcome));
    }

    /** After a clash: the order that took the key, or another attempt, at most three in all. */
    method CheckClash(ghost me: Caller, r: Request, attempt: nat) returns (answer: Option<Answer>)
      requires Stands(me, Clashed(r, attempt))
      modifies this`trace, this`view
      ensures old(trace) <= trace
      ensures Stands(me, if answer.Some? then Done(r, answer.value) else Placing(r, attempt + 1))
      ensures answer.None? ==> attempt < MAX_ATTEMPTS
    {
      var found := Find(r, orders);
      answer := if found.Some? then Some(Reply(r, orders, found.value))
                else if attempt < MAX_ATTEMPTS then None
                else Some(Failed);
      Took(LookAgain(me));
    }

    /**
     * Creates the order, or hands back the one that holds the request's key. The numbers and
     * outcomes are what the database turns out to say at each attempt.
     */
    method CreateOrder(ghost me: Caller, r: Request, numbers: seq<nat>, outcomes: seq<Outcome>)
      returns (answer: Answer)
      requires Stands(me, Idle) && |numbers| == |outcomes| == MAX_ATTEMPTS
      modifies this
      ensures Stands(me, Done(r, answer)) && old(trace) <= trace
      ensures TrueAnswer(me, r, answer)
    {
      Took(Begin(me, r));
      if KeyOf(r).Some? {
        Await(me);
        var replay := CheckReplay(me, r);
        if replay.Some? {
          AnswerIsTrue(me, r, replay.value);
          return replay.value;
        }
      }
      var attempt := 1;
      while true
        invariant 1 <= attempt <= MAX_ATTEMPTS && Stands(me, Placing(r, attempt)) && old(trace) <= trace
        decreases MAX_ATTEMPTS - attempt
      {
        Await(me);
        var tried := InsertOrder(me, r, attempt, numbers[attempt - 1], outcomes[attempt - 1]);
        if tried.Some? {
          AnswerIsTrue(me, r, tried.value);
          return tried.value;
        }
        Await(me);
        tried := CheckClash(me, r, attempt);
        if tried.Some? {
          AnswerIsTrue(me, r, tried.value);
          return tried.value;
        }
        attempt := attempt + 1;
      }
    }
  }
}
