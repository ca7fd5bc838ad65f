/**
 * The refund call itself, over the refund rows of one settled payment and the order's books. At
 * every wait other callers may take any number of steps; each statement is shown to be the
 * corresponding step of the protocol in module Refunds.
 */
module RefundService {
  import opened Options
  import opened Refunds
  import RefundHistory
  import opened Money

  /** Why a call ends before a row is reserved: told apart by the message. */
  datatype Reason = NotRefundable | OverOrder | LockTimeout | OverPayment

  datatype Result = Rejected(why: Reason) | Done(row: nat) | TurnedAway(row: nat) | UnderReview(row: nat)

  /** What the rows read before a refund say about payment, gateway and order. */
  datatype Standing = Standing(found: bool, test: bool, settled: bool, gatewayRefunds: bool, orderPaid: bool)

  /** A real, settled payment of a paid order, at a gateway that takes refunds. */
  predicate MayRefund(s: Standing) {
    s.found && !s.test && s.settled && s.gatewayRefunds && s.orderPaid
  }

  ghost predicate OthersOnly(before: seq<Event>, after: seq<Event>, me: Caller) {
    before <= after && forall i :: |before| <= i < |after| ==> after[i].who != me
  }

  /** The protocol is in this state after these steps. */
  ghost predicate Reached(exponent: nat, paidCents: nat, orderTotal: nat, trace: seq<Event>, s: State) {
    forall es :: es == trace ==> Run(true, Start(exponent, paidCents, orderTotal), es) == s
  }

  lemma ReachedIs(exponent: nat, paidCents: nat, orderTotal: nat, trace: seq<Event>, s: State)
    ensures Reached(exponent, paidCents, orderTotal, trace, s) <==> s == Run(true, Start(exponent, paidCents, orderTotal), trace)
  {
  }

  lemma ReachedNext(exponent: nat, paidCents: nat, orderTotal: nat, trace: seq<Event>, s: State, e: Event)
    requires Reached(exponent, paidCents, orderTotal, trace, s)
    ensures Reached(exponent, paidCents, orderTotal, trace + [e], Next(true, s, e))
  {
    ReachedIs(exponent, paidCents, orderTotal, trace, s);
    assert (trace + [e])[..|trace|] == trace;
    ReachedIs(exponent, paidCents, orderTotal, trace + [e], Next(true, s, e));
  }

  /** What a caller may rely on while it waits: its own place, its own row, its own lock. */
  ghost predicate Mine(s: State, t: State, me: Caller) {
    && PhaseOf(t, me) == PhaseOf(s, me)
    && (s.lock == Some(me) ==> t.lock == Some(me))
    && (Works(PhaseOf(s, me)).Some? ==>
          var i := Works(PhaseOf(s, me)).value;
          i < |s.rows| && i < |t.rows| && t.rows[i] == s.rows[i] && Records(t.books, i) == Records(s.books, i))
  }

  /** No other caller works on my row, so its steps neither rewrite nor record it. */
  lemma RowLeft(s: State, e: Event, me: Caller, i: nat)
    requires Inv(s) && e.who != me && Works(PhaseOf(s, me)) == Some(i)
    ensures i < |s.rows| && i < |Next(true, s, e).rows| && Next(true, s, e).rows[i] == s.rows[i]
  {
    assert Works(PhaseOf(s, e.who)) != Some(i);
  }

  lemma RecordsLeft(s: State, e: Event, me: Caller, i: nat)
    requires Inv(s) && e.who != me && Works(PhaseOf(s, me)) == Some(i)
    ensures Records(Next(true, s, e).books, i) == Records(s.books, i)
  {
    assert Works(PhaseOf(s, e.who)) != Some(i);
    match e
    case Record(c, _) =>
      if PhaseOf(s, c).Sent? && PhaseOf(s, c).row < |s.rows| {
        BooksAppend(s.books, Local(Some(PhaseOf(s, c).row), s.rows[PhaseOf(s, c).row].cents), i);
      }
    case StaffRefund(_, cents) => BooksAppend(s.books, Local(None, cents), i);
    case _ =>
  }

  lemma LockLeft(s: State, e: Event, me: Caller)
    requires LockSound(s) && e.who != me && s.lock == Some(me)
    ensures Next(true, s, e).lock == Some(me)
  {
  }

  lemma {:induction false} OneOther(s: State, e: Event, me: Caller)
    requires Inv(s) && e.who != me
    ensures Mine(s, Next(true, s, e), me)
  {
    OthersStandAlways(s, e);
    if s.lock == Some(me) {
      LockLeft(s, e, me);
    }
    if Works(PhaseOf(s, me)).Some? {
      RowLeft(s, e, me, Works(PhaseOf(s, me)).value);
      RecordsLeft(s, e, me, Works(PhaseOf(s, me)).value);
    }
  }

  lemma {:induction false} OthersLeave(exponent: nat, paidCents: nat, orderTotal: nat, before: seq<Event>, after: seq<Event>, me: Caller)
    requires OthersOnly(before, after, me)
    ensures Mine(Run(true, Start(exponent, paidCents, orderTotal), before), Run(true, Start(exponent, paidCents, orderTotal), after), me)
  {
    RunKeepsInv(exponent, paidCents, orderTotal, before);
    if |before| < |after| {
      var shorter := after[..|after| - 1];
      OthersLeave(exponent, paidCents, orderTotal, before, shorter, me);
      RunKeepsInv(exponent, paidCents, orderTotal, shorter);
      OneOther(Run(true, Start(exponent, paidCents, orderTotal), shorter), after[|after| - 1], me);
    } else {
      assert before == after;
    }
  }

  predicate SameAmount(row: Row, was: Row) {
    row.minor == was.minor && row.cents == was.cents
  }

  /** Only the status was written. */
  predicate Marked(row: Row, was: Row) {
    row == was.(status := row.status)
  }

  // ----- what a call's own steps did ---------------------------------------------------------

  /** None of the caller's own steps from here on touched a row or the books. */
  ghost predicate LeavesAll(start: State, trace: seq<Event>, from: nat, me: Caller) {
    forall n :: from <= n < |trace| && trace[n].who == me ==> LeavesAllAt(start, trace, n)
  }

  ghost predicate LeavesAllAt(start: State, trace: seq<Event>, n: nat)
    requires n < |trace|
  {
    var s := Run(true, start, trace[..n]);
    Next(true, s, trace[n]).rows == s.rows && Next(true, s, trace[n]).books == s.books
  }

  lemma LeavesAllOn(start: State, trace: seq<Event>, more: seq<Event>, from: nat, me: Caller)
    requires from <= |trace| && trace <= more
    requires LeavesAll(start, trace, from, me) && LeavesAll(start, more, |trace|, me)
    ensures LeavesAll(start, more, from, me)
  {
    forall n | from <= n < |more| && more[n].who == me ensures LeavesAllAt(start, more, n) {
      if n < |trace| {
        assert LeavesAllAt(start, trace, n) && more[..n] == trace[..n];
      }
    }
  }

  lemma OneLeavesAll(start: State, trace: seq<Event>, e: Event, me: Caller)
    requires var s := Run(true, start, trace); Next(true, s, e).rows == s.rows && Next(true, s, e).books == s.books
    ensures LeavesAll(start, trace + [e], |trace|, me)
  {
    assert (trace + [e])[..|trace|] == trace;
  }

  /** At this point the caller added up what is held, and the amount was more than the rest. */
  ghost predicate TooMuchAt(start: State, trace: seq<Event>, n: nat, me: Caller, minor: int) {
    n < |trace| && trace[n] == SumHeld(me) &&
    var s := Run(true, start, trace[..n]);
    minor > s.paid - Total(Held, s.rows)
  }

  lemma TooMuchStays(start: State, trace: seq<Event>, more: seq<Event>, n: nat, me: Caller, minor: int)
    requires TooMuchAt(start, trace, n, me, minor) && trace <= more
    ensures TooMuchAt(start, more, n, me, minor)
  {
    assert more[..n] == trace[..n];
  }

  /** At this point the caller's refund no longer fitted into what was left of the order. */
  ghost predicate NoRoomAt(start: State, trace: seq<Event>, n: nat, me: Caller, cents: int) {
    n < |trace| && trace[n] == Record(me, Committed) &&
    var s := Run(true, start, trace[..n]);
    cents > s.orderTotal - BookTotal(s.books)
  }

  lemma NoRoomStays(start: State, trace: seq<Event>, more: seq<Event>, n: nat, me: Caller, cents: int)
    requires NoRoomAt(start, trace, n, me, cents) && trace <= more
    ensures NoRoomAt(start, more, n, me, cents)
  {
    assert more[..n] == trace[..n];
  }

  /** At this point the caller gave up on a lock that was taken. */
  ghost predicate StillTakenAt(start: State, trace: seq<Event>, n: nat, me: Caller) {
    n < |trace| && trace[n] == Crash(me) && Run(true, start, trace[..n]).lock.Some?
  }

  class Service {
    const exponent: nat      // decimals of the payment's currency
    const paidCents: nat     // the bill it was made for
    const paid: int          // and in the provider's units
    const orderTotal: nat
    var rows: seq<Row>
    var books: seq<Local>
    var lock: Option<Caller>
    ghost var trace: seq<Event>
    ghost var view: State

    ghost predicate Valid()
      reads this
    {
      && rows == view.rows && books == view.books && lock == view.lock
      && view.exponent == exponent && view.paid == paid && view.orderTotal == orderTotal
      && Reached(exponent, paidCents, orderTotal, trace, view)
    }

    /** None of this caller's steps since then touched a row or the books. */
    ghost predicate LeftAll(from: nat, me: Caller)
      reads this
    {
      from <= |trace| && LeavesAll(Start(exponent, paidCents, orderTotal), trace, from, me)
    }

    /** Since then this caller found the amount to be more than what is left of the payment. */
    ghost predicate FoundTooMuch(from: nat, me: Caller, minor: int)
      reads this
    {
      exists n :: from <= n && TooMuchAt(Start(exponent, paidCents, orderTotal), trace, n, me, minor)
    }

    /** A rejection leaves rows and books alone, and one for the payment's limit was found to be right. */
    ghost predicate RejectedFor(why: Reason, from: nat, me: Caller, minor: int)
      reads this
    {
      LeftAll(from, me) && (why == OverPayment ==> FoundTooMuch(from, me, minor))
    }

    /** Since then this caller found no room for its refund in the books. */
    ghost predicate FoundNoRoom(from: nat, me: Caller, cents: int)
      reads this
    {
      exists n :: from <= n && NoRoomAt(Start(exponent, paidCents, orderTotal), trace, n, me, cents)
    }

    predicate OverOrders(books: seq<Local>, cents: int) {
      !(0 < cents <= orderTotal - BookTotal(books))
    }

    ghost predicate Stands(me: Caller, phase: Phase)
      reads this
    {
      Valid() && PhaseOf(view, me) == phase
    }

    constructor (exponent: nat, paidCents: nat, orderTotal: nat)
      ensures Valid() && trace == [] && this.paidCents == paidCents && this.orderTotal == orderTotal
      ensures this.exponent == exponent && paid == MinorOfCents(paidCents, exponent)
    {
      this.exponent, this.paidCents, this.orderTotal := exponent, paidCents, orderTotal;
      paid := MinorOfCents(paidCents, exponent);
      rows, books, lock, trace, view := [], [], None, [], Start(exponent, paidCents, orderTotal);
      new;
      ReachedIs(exponent, paidCents, orderTotal, [], Start(exponent, paidCents, orderTotal));
    }

    /** An await: anything other callers may do happens here, and nothing else is known. */
    method Others(ghost me: Caller)
      requires Valid()
      modifies this
      ensures Valid() && OthersOnly(old(trace), trace, me)
    {
    }

    method Await(ghost me: Caller)
      requires Valid()
      modifies this
      ensures Valid() && old(trace) <= trace && Mine(old(view), view, me) && LeftAll(|old(trace)|, me)
    {
      Others(me);
      ReachedIs(exponent, paidCents, orderTotal, old(trace), old(view));
      ReachedIs(exponent, paidCents, orderTotal, trace, view);
      OthersLeave(exponent, paidCents, orderTotal, old(trace), trace, me);
    }

    ghost method Took(e: Event)
      requires Reached(exponent, paidCents, orderTotal, trace, view)
      modifies this`trace, this`view
      ensures trace == old(trace) + [e] && view == Next(true, old(view), e)
      ensures Reached(exponent, paidCents, orderTotal, trace, view)
      ensures view.rows == old(view.rows) && view.books == old(view.books) ==> LeftAll(|old(trace)|, e.who)
    {
      ReachedIs(exponent, paidCents, orderTotal, trace, view);
      if Next(true, view, e).rows == view.rows && Next(true, view, e).books == view.books {
        OneLeavesAll(Start(exponent, paidCents, orderTotal), trace, e, e.who);
      }
      ReachedNext(exponent, paidCents, orderTotal, trace, view, e);
      trace, view := trace + [e], Next(true, view, e);
    }

    lemma StillLeftAll(earlier: seq<Event>, from: nat, me: Caller)
      requires from <= |earlier| && earlier <= trace
      requires LeavesAll(Start(exponent, paidCents, orderTotal), earlier, from, me) && LeftAll(|earlier|, me)
      ensures LeftAll(from, me)
    {
      LeavesAllOn(Start(exponent, paidCents, orderTotal), earlier, trace, from, me);
    }

    lemma StillTooMuch(earlier: seq<Event>, from: nat, me: Caller, minor: int)
      requires earlier <= trace
      requires exists n :: from <= n && TooMuchAt(Start(exponent, paidCents, orderTotal), earlier, n, me, minor)
      ensures FoundTooMuch(from, me, minor)
    {
      var n :| from <= n && TooMuchAt(Start(exponent, paidCents, orderTotal), earlier, n, me, minor);
      TooMuchStays(Start(exponent, paidCents, orderTotal), earlier, trace, n, me, minor);
    }

    lemma StillNoRoom(earlier: seq<Event>, from: nat, me: Caller, cents: int)
      requires earlier <= trace
      requires exists n :: from <= n && NoRoomAt(Start(exponent, paidCents, orderTotal), earlier, n, me, cents)
      ensures FoundNoRoom(from, me, cents)
    {
      var n :| from <= n && NoRoomAt(Start(exponent, paidCents, orderTotal), earlier, n, me, cents);
      NoRoomStays(Start(exponent, paidCents, orderTotal), earlier, trace, n, me, cents);
    }

    /** The cents the books hold for a row: what it was asked for once it is in them, else none. */
    lemma BooksAreExact(i: nat)
      requires Valid() && i < |rows|
      ensures RefundHistory.CentsUnder(books, Some(i)) == if Records(books, i) == 1 then rows[i].cents else 0
    {
      ReachedIs(exponent, paidCents, orderTotal, trace, view);
      RefundHistory.BooksHoldTheAmount(exponent, paidCents, orderTotal, trace, i);
    }

    lemma RowIsSound(i: nat)
      requires Valid() && i < |rows|
      ensures RowSound(rows[i], Records(books, i))
    {
      ReachedIs(exponent, paidCents, orderTotal, trace, view);
      RunKeepsInv(exponent, paidCents, orderTotal, trace);
    }

    // ----- database statements and answers -----

    /** The order's own limit, before anything is reserved or sent. */
    method CheckOrder(ghost me: Caller, minor: int, cents: int) returns (ok: bool)
      requires Stands(me, Idle) && minor == MinorOfCents(cents, exponent)
      modifies this`trace, this`view
      ensures Stands(me, if ok then Checked(minor, cents) else Idle)
      ensures trace == old(trace) + [Begin(me, cents)] && LeftAll(|old(trace)|, me)
      ensures ok <==> minor > 0 && 0 < cents <= orderTotal - BookTotal(books)
    {
      ok := minor > 0 && 0 < cents <= orderTotal - BookTotal(books);
      Took(Begin(me, cents));
    }

    /** The update that takes the row lock; it gives up when the lock stays taken too long. */
    method LockPayment(me: Caller, ghost minor: int, ghost cents: int, patience: nat) returns (got: bool)
      requires Stands(me, Checked(minor, cents))
      modifies this
      ensures old(trace) <= trace && LeftAll(|old(trace)|, me)
      ensures Stands(me, if got then Locked(minor, cents) else Idle)
      ensures old(lock).None? ==> got
      ensures !got ==> exists n :: |old(trace)| <= n && StillTakenAt(Start(exponent, paidCents, orderTotal), trace, n, me)
    {
      ghost var from := |trace|;
      var left := patience;
      while left > 0 && lock.Some?
        invariant Stands(me, Checked(minor, cents)) && old(trace) <= trace && LeftAll(from, me)
        invariant old(lock).None? ==> lock.None?
      {
        ghost var earlier := trace;
        Await(me);
        StillLeftAll(earlier, from, me);
        left := left - 1;
      }
      ghost var waited := trace;
      got := lock.None?;
      if got {
        lock := Some(me);
        Took(Lock(me));
      } else {
        if lock == Some(me) {
          lock := None;
        }
        ReachedIs(exponent, paidCents, orderTotal, trace, view);
        Took(Crash(me));
        assert trace[..|waited|] == waited;
        assert StillTakenAt(Start(exponent, paidCents, orderTotal), trace, |waited|, me);
      }
      StillLeftAll(waited, from, me);
    }

    method SumReserved(ghost me: Caller, ghost minor: int, ghost cents: int) returns (held: int)
      requires Stands(me, Locked(minor, cents))
      modifies this`trace, this`view
      ensures Stands(me, Summed(minor, cents, held)) && old(trace) <= trace && LeftAll(|old(trace)|, me)
      ensures minor > paid - held ==> FoundTooMuch(|old(trace)|, me, minor)
    {
      held := Total(Held, rows);
      ReachedIs(exponent, paidCents, orderTotal, trace, view);
      Took(SumHeld(me));
      assert trace[..|old(trace)|] == old(trace);
      assert minor > paid - held ==>
          TooMuchAt(Start(exponent, paidCents, orderTotal), trace, |old(trace)|, me, minor);
    }

    /** Insert and commit, or throw and roll back. */
    method InsertRow(ghost me: Caller, minor: int, cents: int, held: int) returns (row: Option<nat>)
      requires Stands(me, Summed(minor, cents, held))
      modifies this
      ensures old(trace) <= trace && lock == None && books == old(books)
      ensures row.None? <==> minor > paid - held
      ensures row.None? ==> Stands(me, Idle) && rows == old(rows) && LeftAll(|old(trace)|, me)
      ensures row.Some? ==> Stands(me, Reserved(row.value)) && row.value == |old(rows)|
                            && rows == old(rows) + [Row(minor, cents, Pending, 0, false, false)]
    {
      lock := None;
      if minor > paid - held {
        row := None;
      } else {
        row := Some(|rows|);
        rows := rows + [Row(minor, cents, Pending, 0, false, false)];
      }
      Took(Reserve(me));
    }

    method CallProvider(ghost me: Caller, i: nat, answer: Answer)
      requires Stands(me, Reserved(i)) && i < |rows|
      modifies this
      ensures old(trace) <= trace && |rows| == |old(rows)| && rows[i] == Asked(old(rows)[i], answer)
      ensures Stands(me, if answer.Accepted? then Sent(i) else if answer.Refusal? then TurnedDown(i) else Unclear(i))
    {
      rows := rows[i := Asked(rows[i], answer)];
      Took(Send(me, answer));
    }

    method RecordInBooks(ghost me: Caller, i: nat, outcome: Outcome) returns (ok: bool)
      requires Stands(me, Sent(i)) && i < |rows|
      modifies this
      ensures Stands(me, if ok then Recorded(i) else Unrecorded(i)) && old(trace) <= trace && rows == old(rows)
      ensures ok ==> outcome == Committed
      ensures !ok && outcome == Committed ==> FoundNoRoom(|old(trace)|, me, rows[i].cents)
    {
      ok := outcome == Committed && rows[i].cents <= orderTotal - BookTotal(books);
      if outcome != Refused && rows[i].cents <= orderTotal - BookTotal(books) {
        books := books + [Local(Some(i), rows[i].cents)];
      }
      ReachedIs(exponent, paidCents, orderTotal, trace, view);
      Took(Record(me, outcome));
      assert trace[..|old(trace)|] == old(trace);
      assert !ok && outcome == Committed ==>
          NoRoomAt(Start(exponent, paidCents, orderTotal), trace, |old(trace)|, me, rows[i].cents);
    }

    method WriteDone(ghost me: Caller, i: nat, outcome: Outcome)
      requires Stands(me, Recorded(i)) && i < |rows|
      modifies this
      ensures Stands(me, if outcome == Committed then Idle else Unrecorded(i)) && old(trace) <= trace
      ensures |rows| == |old(rows)| && Marked(rows[i], old(rows)[i])
      ensures outcome == Committed ==> rows[i].status == Succeeded
    {
      if outcome != Refused {
        rows := rows[i := rows[i].(status := Succeeded)];
      }
      Took(WriteSucceeded(me, outcome));
    }

    method WriteFailure(ghost me: Caller, i: nat)
      requires Stands(me, TurnedDown(i)) && i < |rows|
      modifies this
      ensures Stands(me, Idle) && old(trace) <= trace && |rows| == |old(rows)| && rows[i].status == Failed
      ensures Marked(rows[i], old(rows)[i])
    {
      rows := rows[i := rows[i].(status := Failed)];
      Took(WriteFailed(me));
    }

    method WriteForReview(ghost me: Caller, i: nat)
      requires (Stands(me, Unclear(i)) || Stands(me, Unrecorded(i))) && i < |rows|
      modifies this
      ensures Stands(me, Idle) && old(trace) <= trace && |rows| == |old(rows)| && rows[i].status == NeedsReview
      ensures Marked(rows[i], old(rows)[i])
    {
      rows := rows[i := rows[i].(status := NeedsReview)];
      Took(WriteReview(me));
    }

    // ----- the call -----

    /** Takes the lock, sums up what is held and adds a pending row if it fits. */
    method ReserveUnderLock(me: Caller, minor: int, cents: int, patience: nat) returns (row: Option<nat>, why: Reason)
      requires Stands(me, Checked(minor, cents))
      modifies this
      ensures old(trace) <= trace
      ensures Stands(me, if row.Some? then Reserved(row.value) else Idle)
      ensures row.Some? ==> row.value < |rows| && rows[row.value] == Row(minor, cents, Pending, 0, false, false)
      ensures row.None? ==> LeftAll(|old(trace)|, me)
      ensures row.None? ==> why == LockTimeout || (why == OverPayment && FoundTooMuch(|old(trace)|, me, minor))
    {
      ghost var from := |trace|;
      var got := LockPayment(me, minor, cents, patience);
      if !got {
        return None, LockTimeout;
      }
      ghost var locked := trace;
      Await(me);
      StillLeftAll(locked, from, me);
      locked := trace;
      var held := SumReserved(me, minor, cents);
      StillLeftAll(locked, from, me);
      ghost var summed := trace;
      Await(me);
      StillLeftAll(summed, from, me);
      ghost var waited := trace;
      row := InsertRow(me, minor, cents, held);
      why := OverPayment;
      if row.None? {
        StillLeftAll(waited, from, me);
        StillTooMuch(summed, from, me, minor);
      }
    }

    /** The order's limit first, then the payment's. */
    method ReserveAmount(me: Caller, minor: int, cents: int, patience: nat) returns (row: Option<nat>, why: Reason)
      requires Stands(me, Idle) && minor == MinorOfCents(cents, exponent)
      modifies this
      ensures old(trace) <= trace
      ensures Stands(me, if row.Some? then Reserved(row.value) else Idle)
      ensures row.Some? ==> row.value < |rows| && rows[row.value] == Row(minor, cents, Pending, 0, false, false)
      ensures row.None? ==> LeftAll(|old(trace)|, me)
      ensures row.None? ==> (why == OverOrder <==> minor <= 0 || OverOrders(old(books), cents))
      ensures row.None? && why == OverPayment ==> FoundTooMuch(|old(trace)|, me, minor)
      ensures row.None? ==> why != NotRefundable
      ensures minor <= 0 || OverOrders(old(books), cents) ==>
                row.None? && rows == old(rows) && books == old(books)
    {
      ghost var from := |trace|;
      var ok := CheckOrder(me, minor, cents);
      if !ok {
        return None, OverOrder;
      }
      ghost var checked := trace;
      Await(me);
      StillLeftAll(checked, from, me);
      ghost var waited := trace;
      row, why := ReserveUnderLock(me, minor, cents, patience);
      if row.None? {
        StillLeftAll(waited, from, me);
      }
    }

    /** The provider accepted: record it, or park it for a person. */
    method Finish(ghost me: Caller, i: nat, booked: Outcome, saved: Outcome) returns (ok: bool)
      requires Stands(me, Sent(i)) && i < |rows|
      modifies this
      ensures Stands(me, Idle) && old(trace) <= trace && i < |rows|
      ensures rows[i].status == (if ok then Succeeded else NeedsReview) && Marked(rows[i], old(rows)[i])
      ensures ok ==> booked == Committed && saved == Committed
      ensures !ok && booked == Committed && saved == Committed ==> FoundNoRoom(|old(trace)|, me, rows[i].cents)
    {
      Await(me);
      ok := RecordInBooks(me, i, booked);
      ghost var recorded := trace;
      Await(me);
      if ok {
        WriteDone(me, i, saved);
        if saved == Committed {
          return;
        }
        ok := false;
        Await(me);
      }
      WriteForReview(me, i);
      if booked == Committed && saved == Committed {
        StillNoRoom(recorded, |old(trace)|, me, rows[i].cents);
      }
    }

    /**
     * One refund, in the provider's units and the books' cents. A refund reported done moved the
     * money and is in the books exactly once; one turned away is in no book, and if money moved it
     * was behind a refusal; anything else that reached the provider is under review.
     */
    method RefundInUnits(me: Caller, minor: int, cents: int, patience: nat, answer: Answer, booked: Outcome, saved: Outcome)
      returns (r: Result)
      requires Stands(me, Idle) && minor == MinorOfCents(cents, exponent)
      modifies this
      ensures Stands(me, Idle) && old(trace) <= trace
      ensures r.Rejected? ==> RejectedFor(r.why, |old(trace)|, me, minor) && r.why != NotRefundable
      ensures minor <= 0 || OverOrders(old(books), cents) ==>
                r == Rejected(OverOrder) && rows == old(rows) && books == old(books)
      ensures r == Rejected(OverOrder) ==> minor <= 0 || OverOrders(old(books), cents)
      ensures !r.Rejected? ==> r.row < |rows| && rows[r.row].calls == 1
                               && rows[r.row].minor == minor && rows[r.row].cents == cents
      ensures r.Done? ==> answer.Accepted? && rows[r.row].status == Succeeded && rows[r.row].moved
                          && Records(books, r.row) == 1 && RefundHistory.CentsUnder(books, Some(r.row)) == cents
      ensures r.TurnedAway? <==> !r.Rejected? && answer.Refusal?
      ensures r.TurnedAway? ==> rows[r.row].status == Failed && Records(books, r.row) == 0
                                && RefundHistory.CentsUnder(books, Some(r.row)) == 0
      ensures !r.Rejected? ==> (rows[r.row].moved <==> RefundHistory.Moves(answer))
      ensures r.UnderReview? ==> rows[r.row].status == NeedsReview && !answer.Refusal?
      ensures r.Done? ==> booked == Committed && saved == Committed
      ensures r.UnderReview? && answer.Accepted? && booked == Committed && saved == Committed ==>
                FoundNoRoom(|old(trace)|, me, cents)
    {
      var row, why := ReserveAmount(me, minor, cents, patience);
      if row.None? {
        return Rejected(why);
      }
      var i := row.value;
      r := SendAndRecord(me, i, answer, booked, saved);
      RowIsSound(i);
      BooksAreExact(i);
    }

    method SendAndRecord(ghost me: Caller, i: nat, answer: Answer, booked: Outcome, saved: Outcome)
      returns (r: Result)
      requires Stands(me, Reserved(i)) && i < |rows|
      modifies this
      ensures Stands(me, Idle) && old(trace) <= trace && i < |rows|
      ensures r == UnderReview(i) || r == (if answer.Refusal? then TurnedAway(i) else Done(i))
      ensures r.UnderReview? ==> !answer.Refusal?
      ensures r.Done? ==> answer.Accepted? && booked == Committed && saved == Committed
      ensures r.UnderReview? && answer.Accepted? && booked == Committed && saved == Committed ==>
                FoundNoRoom(|old(trace)|, me, rows[i].cents)
      ensures rows[i].moved <==> RefundHistory.Moves(answer)
      ensures rows[i].status == if r.Done? then Succeeded else if r.TurnedAway? then Failed else NeedsReview
      ensures rows[i].calls == 1 && SameAmount(rows[i], old(rows)[i])
    {
      Await(me);
      CallProvider(me, i, answer);
      if answer.Accepted? {
        var ok := Finish(me, i, booked, saved);
        r := if ok then Done(i) else UnderReview(i);
      } else {
        Await(me);
        if answer.Refusal? {
          WriteFailure(me, i);
          r := TurnedAway(i);
        } else {
          WriteForReview(me, i);
          r := UnderReview(i);
        }
      }
      RowIsSound(i);
    }

    /**
     * A refund of a figure in the payment's currency, once what was read first allows it. A rejection
     * for the amount comes exactly from the order's limit, or after the lock from the payment's,
     * and none of this call's steps touched a row or the books.
     */
    method Refund(me: Caller, standing: Standing, amount: real, currency: string, patience: nat, answer: Answer,
                  booked: Outcome, saved: Outcome)
      returns (r: Result)
      requires Stands(me, Idle) && exponent == CurrencyExponent(currency)
      modifies this
      ensures Stands(me, Idle) && old(trace) <= trace
      ensures r == Rejected(NotRefundable) <==> !MayRefund(standing) || ToMinor(amount, currency) <= 0
      ensures r == Rejected(NotRefundable) ==> view == old(view)
      ensures r == Rejected(OverOrder) <==>
                MayRefund(standing) && ToMinor(amount, currency) > 0 && OverOrders(old(books), MathRound(amount * 100.0))
      ensures r == Rejected(OverOrder) ==> rows == old(rows) && books == old(books)
      ensures r.Rejected? ==> RejectedFor(r.why, |old(trace)|, me, ToMinor(amount, currency))
      ensures !r.Rejected? ==> r.row < |rows| && rows[r.row].calls == 1 && rows[r.row].minor == ToMinor(amount, currency)
                               && (rows[r.row].moved <==> RefundHistory.Moves(answer))
      ensures r.Done? ==> answer.Accepted? && rows[r.row].status == Succeeded && rows[r.row].moved && Records(books, r.row) == 1
                          && RefundHistory.CentsUnder(books, Some(r.row)) == MathRound(amount * 100.0)
      ensures r.TurnedAway? <==> !r.Rejected? && answer.Refusal?
      ensures r.TurnedAway? ==> rows[r.row].status == Failed && RefundHistory.CentsUnder(books, Some(r.row)) == 0
      ensures r.UnderReview? ==> !answer.Refusal? && rows[r.row].status == NeedsReview
      ensures r.Done? ==> booked == Committed && saved == Committed
      ensures r.UnderReview? && answer.Accepted? && booked == Committed && saved == Committed ==>
                FoundNoRoom(|old(trace)|, me, MathRound(amount * 100.0))
    {
      var minor := ToMinor(amount, currency);
      if !MayRefund(standing) || minor <= 0 {
        return Rejected(NotRefundable);
      }
      ToMinorOfCents(amount, currency);
      r := RefundInUnits(me, minor, MathRound(amount * 100.0), patience, answer, booked, saved);
    }
  }
}
