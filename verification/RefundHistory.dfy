/**
 * What the refund rows and the books hold, told from the events of a run alone: what each row was
 * asked for, what the provider did with it, and what each refund takes off the order.
 */
module RefundHistory {
  import opened Options
  import opened Money
  import opened Refunds

  function After(exponent: nat, paidCents: nat, orderTotal: nat, es: seq<Event>): State {
    Run(true, Start(exponent, paidCents, orderTotal), es)
  }

  lemma Earlier(es: seq<Event>, e: Event, n: nat)
    requires n < |es|
    ensures (es + [e])[n] == es[n] && (es + [e])[..n] == es[..n]
  {
  }

  // ----- what the books hold -----------------------------------------------------------------

  /** The cents the books hold under a row, or, under none, as refunds by staff. */
  function CentsUnder(books: seq<Local>, row: Option<nat>): int {
    if |books| == 0 then 0
    else CentsUnder(books[..|books| - 1], row) + if books[|books| - 1].row == row then books[|books| - 1].cents else 0
  }

  lemma UnderAppend(books: seq<Local>, entry: Local, row: Option<nat>)
    ensures CentsUnder(books + [entry], row) == CentsUnder(books, row) + if entry.row == row then entry.cents else 0
  {
    assert (books + [entry])[..|books|] == books;
  }

  function RowCents(s: State, i: nat): int {
    if i < |s.rows| && Records(s.books, i) == 1 then s.rows[i].cents else 0
  }

  ghost predicate BooksExact(s: State) {
    forall i: nat :: CentsUnder(s.books, Some(i)) == RowCents(s, i)
  }

  /** Rows are added and rewritten, and what each was asked for stays. */
  lemma CentsStay(s: State, e: Event, i: nat)
    requires i < |s.rows|
    ensures var t := Next(true, s, e);
            i < |t.rows| && t.rows[i].cents == s.rows[i].cents && t.rows[i].minor == s.rows[i].minor
  {
  }

  /** Either the books stay, or one entry is added. */
  lemma OneEntry(s: State, e: Event)
    ensures var t := Next(true, s, e);
            || t.books == s.books
            || (e.StaffRefund? && 0 < e.cents <= s.orderTotal - BookTotal(s.books)
                && t.books == s.books + [Local(None, e.cents)] && t.rows == s.rows)
            || (e.Record? && e.outcome != Refused && PhaseOf(s, e.who).Sent? && PhaseOf(s, e.who).row < |s.rows|
                && t.books == s.books + [Local(Some(PhaseOf(s, e.who).row), s.rows[PhaseOf(s, e.who).row].cents)]
                && t.rows == s.rows)
  {
  }

  lemma StepKeepsExact(s: State, e: Event)
    requires Inv(s) && BooksExact(s)
    ensures BooksExact(Next(true, s, e))
  {
    var t := Next(true, s, e);
    OneEntry(s, e);
    forall i: nat ensures CentsUnder(t.books, Some(i)) == RowCents(t, i) {
      assert CentsUnder(s.books, Some(i)) == RowCents(s, i);
      if i < |s.rows| {
        CentsStay(s, e, i);
      }
      if t.books != s.books {
        EntryIsExact(s, t, t.books[|s.books|], e.who, i);
      }
    }
  }

  lemma EntryIsExact(s: State, t: State, entry: Local, c: Caller, i: nat)
    requires Inv(s) && CentsUnder(s.books, Some(i)) == RowCents(s, i)
    requires t.books == s.books + [entry] && t.rows == s.rows
    requires entry.row.Some? ==>
               PhaseOf(s, c) == Sent(entry.row.value) && entry.row.value < |s.rows|
               && entry.cents == s.rows[entry.row.value].cents
    ensures CentsUnder(t.books, Some(i)) == RowCents(t, i)
  {
    UnderAppend(s.books, entry, Some(i));
    BooksAppend(s.books, entry, i);
    if entry.row == Some(i) {
      assert Works(PhaseOf(s, c)) == Some(i);
    }
  }

  lemma {:induction false} RunKeepsExact(exponent: nat, paidCents: nat, orderTotal: nat, es: seq<Event>)
    ensures BooksExact(After(exponent, paidCents, orderTotal, es))
  {
    if |es| > 0 {
      RunKeepsExact(exponent, paidCents, orderTotal, es[..|es| - 1]);
      RunKeepsInv(exponent, paidCents, orderTotal, es[..|es| - 1]);
      StepKeepsExact(After(exponent, paidCents, orderTotal, es[..|es| - 1]), es[|es| - 1]);
    }
  }

  /** The books hold a refund at exactly what it was asked for, once it is in them, and at nothing before. */
  lemma {:induction false} BooksHoldTheAmount(exponent: nat, paidCents: nat, orderTotal: nat, es: seq<Event>, i: nat)
    requires i < |After(exponent, paidCents, orderTotal, es).rows|
    ensures var s := After(exponent, paidCents, orderTotal, es);
            CentsUnder(s.books, Some(i)) == if Records(s.books, i) == 1 then s.rows[i].cents else 0
  {
    RunKeepsExact(exponent, paidCents, orderTotal, es);
  }

  // ----- what is taken off the order ---------------------------------------------------------

  /** The cents of the first so many rows that are in the books. */
  function RecordedCents(s: State, n: nat): int {
    if n == 0 then 0 else RecordedCents(s, n - 1) + RowCents(s, n - 1)
  }

  /** The staff's refunds that were within the order's limit when they came. */
  function StaffCents(exponent: nat, paidCents: nat, orderTotal: nat, es: seq<Event>): int {
    if |es| == 0 then 0
    else
      var s, e := After(exponent, paidCents, orderTotal, es[..|es| - 1]), es[|es| - 1];
      StaffCents(exponent, paidCents, orderTotal, es[..|es| - 1])
      + if e.StaffRefund? && 0 < e.cents <= orderTotal - BookTotal(s.books) then e.cents else 0
  }

  function UnderRows(books: seq<Local>, n: nat): int {
    if n == 0 then 0 else UnderRows(books, n - 1) + CentsUnder(books, Some(n - 1))
  }

  lemma {:induction false} UnderRowsAppend(books: seq<Local>, entry: Local, n: nat)
    ensures UnderRows(books + [entry], n)
            == UnderRows(books, n) + if entry.row.Some? && entry.row.value < n then entry.cents else 0
  {
    if n > 0 {
      UnderRowsAppend(books, entry, n - 1);
      UnderAppend(books, entry, Some(n - 1));
    }
  }

  lemma {:induction false} NoneUnder(n: nat)
    ensures UnderRows([], n) == 0
  {
    if n > 0 {
      NoneUnder(n - 1);
    }
  }

  lemma {:induction false} TotalIsUnder(books: seq<Local>, n: nat)
    requires forall k :: 0 <= k < |books| && books[k].row.Some? ==> books[k].row.value < n
    ensures BookTotal(books) == UnderRows(books, n) + CentsUnder(books, None)
  {
    if |books| == 0 {
      NoneUnder(n);
    } else {
      var front, entry := books[..|books| - 1], books[|books| - 1];
      assert front + [entry] == books;
      TotalIsUnder(front, n);
      UnderRowsAppend(front, entry, n);
      UnderAppend(front, entry, None);
      BooksAppend(front, entry, 0);
    }
  }

  lemma {:induction false} EntryCountsOnce(books: seq<Local>, k: nat)
    requires k < |books| && books[k].row.Some?
    ensures Records(books, books[k].row.value) > 0
  {
    if k < |books| - 1 {
      EntryCountsOnce(books[..|books| - 1], k);
    }
  }

  lemma {:induction false} UnderRowsIsRecorded(s: State, n: nat)
    requires BooksExact(s)
    ensures UnderRows(s.books, n) == RecordedCents(s, n)
  {
    if n > 0 {
      UnderRowsIsRecorded(s, n - 1);
      assert CentsUnder(s.books, Some(n - 1)) == RowCents(s, n - 1);
    }
  }

  lemma {:induction false} StaffIsUnderNone(exponent: nat, paidCents: nat, orderTotal: nat, es: seq<Event>)
    ensures CentsUnder(After(exponent, paidCents, orderTotal, es).books, None) == StaffCents(exponent, paidCents, orderTotal, es)
  {
    if |es| > 0 {
      var before := es[..|es| - 1];
      var s, e := After(exponent, paidCents, orderTotal, before), es[|es| - 1];
      var t := Next(true, s, e);
      StaffIsUnderNone(exponent, paidCents, orderTotal, before);
      RunLimits(true, Start(exponent, paidCents, orderTotal), before);
      OneEntry(s, e);
      if t.books != s.books {
        UnderAppend(s.books, t.books[|s.books|], None);
      }
    }
  }

  /**
   * What is taken off the order is exactly what the refunds in its books were asked for, each
   * once, and what staff refunded.
   */
  lemma {:induction false} BookTotalIsRefunds(exponent: nat, paidCents: nat, orderTotal: nat, es: seq<Event>)
    ensures var s := After(exponent, paidCents, orderTotal, es);
            BookTotal(s.books) == RecordedCents(s, |s.rows|) + StaffCents(exponent, paidCents, orderTotal, es)
  {
    var s := After(exponent, paidCents, orderTotal, es);
    RunKeepsInv(exponent, paidCents, orderTotal, es);
    RunKeepsExact(exponent, paidCents, orderTotal, es);
    forall k | 0 <= k < |s.books| && s.books[k].row.Some? ensures s.books[k].row.value < |s.rows| {
      EntryCountsOnce(s.books, k);
    }
    TotalIsUnder(s.books, |s.rows|);
    UnderRowsIsRecorded(s, |s.rows|);
    StaffIsUnderNone(exponent, paidCents, orderTotal, es);
  }

  // ----- what a row was asked for ------------------------------------------------------------

  /** Here a caller asked for so many cents, within what was left of the order. */
  predicate AskedAt(exponent: nat, paidCents: nat, orderTotal: nat, es: seq<Event>, n: nat, c: Caller, cents: int) {
    && n < |es| && es[n] == Begin(c, cents)
    && PhaseOf(After(exponent, paidCents, orderTotal, es[..n]), c) == Idle
    && 0 < cents <= orderTotal - BookTotal(After(exponent, paidCents, orderTotal, es[..n]).books)
  }

  ghost predicate Requested(exponent: nat, paidCents: nat, orderTotal: nat, es: seq<Event>, c: Caller, minor: int, cents: int) {
    && minor == MinorOfCents(cents, exponent) && minor > 0
    && exists n: nat :: AskedAt(exponent, paidCents, orderTotal, es, n, c, cents)
  }

  lemma RequestedBefore(exponent: nat, paidCents: nat, orderTotal: nat, es: seq<Event>, e: Event, c: Caller, minor: int, cents: int)
    requires Requested(exponent, paidCents, orderTotal, es, c, minor, cents)
    ensures Requested(exponent, paidCents, orderTotal, es + [e], c, minor, cents)
  {
    var n: nat :| AskedAt(exponent, paidCents, orderTotal, es, n, c, cents);
    Earlier(es, e, n);
    assert AskedAt(exponent, paidCents, orderTotal, es + [e], n, c, cents);
  }

  /** On the way to a row a caller carries what it asked for. */
  ghost predicate Carries(exponent: nat, paidCents: nat, orderTotal: nat, es: seq<Event>, c: Caller, phase: Phase) {
    match phase
    case Checked(minor, cents) => Requested(exponent, paidCents, orderTotal, es, c, minor, cents)
    case Locked(minor, cents) => Requested(exponent, paidCents, orderTotal, es, c, minor, cents)
    case Summed(minor, cents, _) => Requested(exponent, paidCents, orderTotal, es, c, minor, cents)
    case _ => true
  }

  lemma {:induction false} CallsCarry(exponent: nat, paidCents: nat, orderTotal: nat, es: seq<Event>, c: Caller)
    ensures Carries(exponent, paidCents, orderTotal, es, c, PhaseOf(After(exponent, paidCents, orderTotal, es), c))
  {
    if |es| > 0 {
      var before, e := es[..|es| - 1], es[|es| - 1];
      var s := After(exponent, paidCents, orderTotal, before);
      var p, q := PhaseOf(s, c), PhaseOf(Next(true, s, e), c);
      assert es == before + [e];
      CallsCarry(exponent, paidCents, orderTotal, before, c);
      RunLimits(true, Start(exponent, paidCents, orderTotal), before);
      OthersStandAlways(s, e);
      if e.Begin? && e.who == c && q != p {
        assert AskedAt(exponent, paidCents, orderTotal, es, |before|, c, e.cents);
      } else if p.Checked? || p.Locked? || p.Summed? {
        RequestedBefore(exponent, paidCents, orderTotal, before, e, c, p.minor, p.cents);
      }
    }
  }

  /** Every row is for what some call asked, in the currency's units. */
  lemma {:induction false} RowIsItsRequest(exponent: nat, paidCents: nat, orderTotal: nat, es: seq<Event>, i: nat)
    requires i < |After(exponent, paidCents, orderTotal, es).rows|
    ensures var row := After(exponent, paidCents, orderTotal, es).rows[i];
            exists c: Caller :: Requested(exponent, paidCents, orderTotal, es, c, row.minor, row.cents)
  {
    var before, e := es[..|es| - 1], es[|es| - 1];
    var s := After(exponent, paidCents, orderTotal, before);
    assert es == before + [e];
    if i < |s.rows| {
      RowIsItsRequest(exponent, paidCents, orderTotal, before, i);
      CentsStay(s, e, i);
      var c: Caller :| Requested(exponent, paidCents, orderTotal, before, c, s.rows[i].minor, s.rows[i].cents);
      RequestedBefore(exponent, paidCents, orderTotal, before, e, c, s.rows[i].minor, s.rows[i].cents);
    } else {
      var phase := PhaseOf(s, e.who);
      CallsCarry(exponent, paidCents, orderTotal, before, e.who);
      assert e.Reserve? && phase.Summed? && i == |s.rows|;
      RequestedBefore(exponent, paidCents, orderTotal, before, e, e.who, phase.minor, phase.cents);
      var row := After(exponent, paidCents, orderTotal, es).rows[i];
      assert Requested(exponent, paidCents, orderTotal, es, e.who, row.minor, row.cents);
    }
  }

  // ----- what the provider did with it -------------------------------------------------------

  /** Here the provider was asked for a row, and this is what it answered and did. */
  predicate SentAt(exponent: nat, paidCents: nat, orderTotal: nat, es: seq<Event>, n: nat, i: nat, answer: Answer) {
    n < |es| && es[n].Send? && es[n].answer == answer
    && PhaseOf(After(exponent, paidCents, orderTotal, es[..n]), es[n].who) == Reserved(i)
  }

  ghost predicate WasSent(exponent: nat, paidCents: nat, orderTotal: nat, es: seq<Event>, i: nat, answer: Answer) {
    exists n: nat :: SentAt(exponent, paidCents, orderTotal, es, n, i, answer)
  }

  lemma SentBefore(exponent: nat, paidCents: nat, orderTotal: nat, es: seq<Event>, e: Event, i: nat, answer: Answer)
    requires WasSent(exponent, paidCents, orderTotal, es, i, answer)
    ensures WasSent(exponent, paidCents, orderTotal, es + [e], i, answer)
  {
    var n: nat :| SentAt(exponent, paidCents, orderTotal, es, n, i, answer);
    Earlier(es, e, n);
    assert SentAt(exponent, paidCents, orderTotal, es + [e], n, i, answer);
  }

  predicate Moves(answer: Answer) {
    answer == Accepted || answer == Refusal(true) || answer == NoAnswer(true)
  }

  /** A row's fate, and how far its call has come, are what this answer makes of them. */
  predicate FateIs(row: Row, answer: Answer) {
    && row.calls == 1 && (row.moved <==> Moves(answer)) && (row.lost <==> answer == Refusal(true))
    && (row.status == Succeeded ==> answer == Accepted)
    && (row.status == Failed ==> answer.Refusal?)
    && (row.status == NeedsReview ==> !answer.Refusal?)
  }

  predicate PhaseIs(phase: Phase, answer: Answer) {
    match phase
    case Sent(_) => answer == Accepted
    case Recorded(_) => answer == Accepted
    case Unrecorded(_) => answer == Accepted
    case TurnedDown(_) => answer.Refusal?
    case Unclear(_) => answer.NoAnswer?
    case _ => true
  }

  /** The answer behind a row the provider was asked for, and behind every phase of its call. */
  ghost predicate Answered(exponent: nat, paidCents: nat, orderTotal: nat, es: seq<Event>, s: State, i: nat, answer: Answer) {
    && i < |s.rows| && WasSent(exponent, paidCents, orderTotal, es, i, answer) && FateIs(s.rows[i], answer)
    && forall c: Caller :: Works(PhaseOf(s, c)) == Some(i) ==> PhaseIs(PhaseOf(s, c), answer)
  }

  lemma {:induction false} AnsweredOnce(exponent: nat, paidCents: nat, orderTotal: nat, es: seq<Event>, i: nat) returns (answer: Answer)
    requires var s := After(exponent, paidCents, orderTotal, es); i < |s.rows| && s.rows[i].calls > 0
    ensures Answered(exponent, paidCents, orderTotal, es, After(exponent, paidCents, orderTotal, es), i, answer)
  {
    var before, e := es[..|es| - 1], es[|es| - 1];
    var s := After(exponent, paidCents, orderTotal, before);
    assert es == before + [e];
    RunKeepsInv(exponent, paidCents, orderTotal, before);
    if i < |s.rows| && s.rows[i].calls > 0 {
      answer := AnsweredOnce(exponent, paidCents, orderTotal, before, i);
      SentBefore(exponent, paidCents, orderTotal, before, e, i, answer);
      FateStands(s, e, i, answer);
    } else {
      answer := e.answer;
      assert SentAt(exponent, paidCents, orderTotal, es, |before|, i, answer);
      FateFalls(s, e, i);
    }
  }

  lemma FateStands(s: State, e: Event, i: nat, answer: Answer)
    requires Inv(s) && i < |s.rows| && FateIs(s.rows[i], answer)
    requires forall c: Caller :: Works(PhaseOf(s, c)) == Some(i) ==> PhaseIs(PhaseOf(s, c), answer)
    ensures var t := Next(true, s, e);
            && i < |t.rows| && FateIs(t.rows[i], answer)
            && forall c: Caller :: Works(PhaseOf(t, c)) == Some(i) ==> PhaseIs(PhaseOf(t, c), answer)
  {
    var t := Next(true, s, e);
    OthersStandAlways(s, e);
    OwnWork(s, e);
    assert Works(PhaseOf(s, e.who)) == Some(i) ==> PhaseIs(PhaseOf(s, e.who), answer);
  }

  lemma FateFalls(s: State, e: Event, i: nat)
    requires Inv(s) && e.Send? && PhaseOf(s, e.who) == Reserved(i) && i < |s.rows|
    ensures var t := Next(true, s, e);
            && i < |t.rows| && FateIs(t.rows[i], e.answer)
            && forall c: Caller :: Works(PhaseOf(t, c)) == Some(i) ==> PhaseIs(PhaseOf(t, c), e.answer)
  {
    OthersStandAlways(s, e);
    assert RowSound(s.rows[i], Records(s.books, i)) && PhaseSound(PhaseOf(s, e.who), s.rows[i], Records(s.books, i));
  }

  /**
   * A row's fate is what the provider did: it was asked for the row once, the money moved exactly
   * if it says so or did so without saying, a success was accepted, a failure refused, and what is
   * under review was never refused. A row it was not asked for is pending and nothing moved.
   */
  lemma {:induction false} FateIsTheAnswer(exponent: nat, paidCents: nat, orderTotal: nat, es: seq<Event>, i: nat)
    requires i < |After(exponent, paidCents, orderTotal, es).rows|
    ensures var row := After(exponent, paidCents, orderTotal, es).rows[i];
            if row.calls == 0 then row.status == Pending && !row.moved && !row.lost
            else exists answer :: WasSent(exponent, paidCents, orderTotal, es, i, answer) && FateIs(row, answer)
  {
    var s := After(exponent, paidCents, orderTotal, es);
    RunKeepsInv(exponent, paidCents, orderTotal, es);
    assert RowSound(s.rows[i], Records(s.books, i));
    if s.rows[i].calls > 0 {
      var answer := AnsweredOnce(exponent, paidCents, orderTotal, es, i);
    }
  }

  // ----- what the statements come to ---------------------------------------------------------

  /** A call goes on within the order's limit, waits while the row is locked, and sums up what is held. */
  lemma LimitDecides(s: State, c: Caller, cents: int)
    ensures PhaseOf(s, c) == Idle ==>
              PhaseOf(Next(true, s, Begin(c, cents)), c) ==
                if MinorOfCents(cents, s.exponent) > 0 && cents <= s.orderTotal - BookTotal(s.books)
                then Checked(MinorOfCents(cents, s.exponent), cents) else Idle
    ensures PhaseOf(s, c).Checked? ==>
              var p, t := PhaseOf(s, c), Next(true, s, Lock(c));
              if s.lock.Some? then t == s else PhaseOf(t, c) == Locked(p.minor, p.cents) && t.lock == Some(c) && t.rows == s.rows
    ensures PhaseOf(s, c).Locked? ==>
              var p, t := PhaseOf(s, c), Next(true, s, SumHeld(c));
              PhaseOf(t, c) == Summed(p.minor, p.cents, Total(Held, s.rows)) && t.lock == s.lock
  {
  }

  /** A row is added exactly for what fits; the lock is free again, as it is after a crash. */
  lemma ReserveDecides(s: State, c: Caller)
    ensures PhaseOf(s, c).Summed? ==>
              var p, t := PhaseOf(s, c), Next(true, s, Reserve(c));
              && t.lock == None
              && (p.minor <= s.paid - p.held ==>
                    PhaseOf(t, c) == Reserved(|s.rows|)
                    && t.rows == s.rows + [Row(p.minor, p.cents, Pending, 0, false, false)])
              && (p.minor > s.paid - p.held ==> PhaseOf(t, c) == Idle && t.rows == s.rows)
    ensures PhaseOf(Next(true, s, Crash(c)), c) == Idle && Next(true, s, Crash(c)).lock != Some(c)
    ensures s.lock != Some(c) ==> Next(true, s, Crash(c)).lock == s.lock
  {
  }

  /** The answer leads to the books, to a failure or to review; what is recorded, and what is left of the order, to which. */
  lemma AnswerLeads(s: State, c: Caller, i: nat, answer: Answer, outcome: Outcome)
    requires i < |s.rows|
    ensures PhaseOf(s, c) == Reserved(i) ==>
              PhaseOf(Next(true, s, Send(c, answer)), c) ==
                if answer == Accepted then Sent(i) else if answer.Refusal? then TurnedDown(i) else Unclear(i)
    ensures PhaseOf(s, c) == Sent(i) ==>
              var fits := s.rows[i].cents <= s.orderTotal - BookTotal(s.books);
              var t := Next(true, s, Record(c, outcome));
              && PhaseOf(t, c) == (if outcome == Committed && fits then Recorded(i) else Unrecorded(i))
              && t.books == (if outcome != Refused && fits then s.books + [Local(Some(i), s.rows[i].cents)] else s.books)
    ensures PhaseOf(s, c) == Recorded(i) ==>
              PhaseOf(Next(true, s, WriteSucceeded(c, outcome)), c) == if outcome == Committed then Idle else Unrecorded(i)
  {
  }

  /** The status written last. */
  lemma StatusWritten(s: State, c: Caller, i: nat, outcome: Outcome)
    requires i < |s.rows|
    ensures PhaseOf(s, c) == Recorded(i) && outcome != Refused ==>
              Next(true, s, WriteSucceeded(c, outcome)).rows == s.rows[i := s.rows[i].(status := Succeeded)]
    ensures PhaseOf(s, c) == TurnedDown(i) ==>
              var t := Next(true, s, WriteFailed(c));
              t.rows == s.rows[i := s.rows[i].(status := Failed)] && PhaseOf(t, c) == Idle
    ensures PhaseOf(s, c) == Unclear(i) || PhaseOf(s, c) == Unrecorded(i) ==>
              var t := Next(true, s, WriteReview(c));
              t.rows == s.rows[i := s.rows[i].(status := NeedsReview)] && PhaseOf(t, c) == Idle
  {
  }
}
