/**
 * Refunds of an online payment: reserve, call the provider once, record locally. Anything that
 * ends unclearly is parked for a person. Every database statement, provider answer and crash is
 * one step, taken by any caller in any order.
 */
module Refunds {
  import opened Options
  import opened Money

  type Caller = nat

  datatype Status = Pending | Succeeded | NeedsReview | Failed

  /** A refund row; the last three fields are what became of it outside the table. */
  datatype Row = Row(
    minor: int, cents: int, status: Status,
    calls: nat,       // times the provider was asked
    moved: bool,      // the provider sent the money
    lost: bool        // the provider sent it and answered with a refusal
  )

  /** A refund in the order's books, for a gateway refund or by staff directly. */
  datatype Local = Local(row: Option<nat>, cents: int)

  /** A definite refusal carries a status; anything else is unclear. `moved` is what happened. */
  datatype Answer = Accepted | Refusal(moved: bool) | NoAnswer(moved: bool)

  datatype Outcome = Refused | Committed | CommittedThenFailed

  datatype Phase =
    | Idle
    | Checked(minor: int, cents: int)             // within the order's limit
    | Locked(minor: int, cents: int)              // holds the payment's row lock
    | Summed(minor: int, cents: int, held: int)   // has read what other refunds hold
    | Reserved(row: nat)
    | Sent(row: nat)                              // the provider accepted
    | TurnedDown(row: nat)                        // the provider refused
    | Unclear(row: nat)                           // no usable answer
    | Recorded(row: nat)                          // the books have it
    | Unrecorded(row: nat)                        // accepted, but something after it threw

  datatype Event =
    | Begin(who: Caller, cents: int)
    | Lock(who: Caller)
    | SumHeld(who: Caller)
    | Reserve(who: Caller)
    | Send(who: Caller, answer: Answer)
    | Record(who: Caller, outcome: Outcome)
    | WriteSucceeded(who: Caller, outcome: Outcome)
    | WriteFailed(who: Caller)
    | WriteReview(who: Caller)
    | StaffRefund(who: Caller, cents: int)
    | Crash(who: Caller)

  /** The payment in the provider's units, the order in cents, the currency's decimals. */
  datatype State = State(
    exponent: nat, paid: int, orderTotal: int,
    rows: seq<Row>, books: seq<Local>, lock: Option<Caller>, callers: map<Caller, Phase>)

  /** A payment is made for a bill in whole cents. */
  function Start(exponent: nat, paidCents: int, orderTotal: int): State {
    State(exponent, MinorOfCents(paidCents, exponent), orderTotal, [], [], None, map[])
  }

  function PhaseOf(s: State, c: Caller): Phase {
    if c in s.callers then s.callers[c] else Idle
  }

  function Go(s: State, c: Caller, phase: Phase): State {
    s.(callers := s.callers[c := phase])
  }

  function PutRow(s: State, i: nat, row: Row): State {
    if i < |s.rows| then s.(rows := s.rows[i := row]) else s
  }

  /** What is added up: reserved money, money that moved, money that moved for a failed row, and
      reserved money that did not move. */
  datatype Measure = Held | Moved | Lost | Stuck

  function Weight(m: Measure, row: Row): int {
    match m
    case Held => if row.status == Failed then 0 else row.minor
    case Moved => if row.moved then row.minor else 0
    case Lost => if row.status == Failed && row.moved then row.minor else 0
    case Stuck => if row.status != Failed && !row.moved then row.minor else 0
  }

  function Total(m: Measure, rows: seq<Row>): int {
    if |rows| == 0 then 0 else Total(m, rows[..|rows| - 1]) + Weight(m, rows[|rows| - 1])
  }

  function BookTotal(books: seq<Local>): int {
    if |books| == 0 then 0 else BookTotal(books[..|books| - 1]) + books[|books| - 1].cents
  }

  /** How often the books hold a gateway refund. */
  function Records(books: seq<Local>, row: nat): nat {
    if |books| == 0 then 0
    else Records(books[..|books| - 1], row) + if books[|books| - 1].row == Some(row) then 1 else 0
  }

  // ----- one step ----------------------------------------------------------------------------

  /** One amount, in cents for the books and in units for the provider. */
  function BeginStep(s: State, c: Caller, cents: int): State {
    var minor := MinorOfCents(cents, s.exponent);
    if PhaseOf(s, c) == Idle && minor > 0 && 0 < cents <= s.orderTotal - BookTotal(s.books)
    then Go(s, c, Checked(minor, cents)) else s
  }

  /** Without locking the statement goes ahead whoever holds the row. */
  function LockStep(locking: bool, s: State, c: Caller): State {
    match PhaseOf(s, c)
    case Checked(minor, cents) =>
      if locking && s.lock.Some? then s else Go(s, c, Locked(minor, cents)).(lock := Some(c))
    case _ => s
  }

  function SumStep(s: State, c: Caller): State {
    match PhaseOf(s, c)
    case Locked(minor, cents) => Go(s, c, Summed(minor, cents, Total(Held, s.rows)))
    case _ => s
  }

  /** Insert and commit, or throw and roll back; the lock goes either way. */
  function ReserveStep(s: State, c: Caller): State {
    match PhaseOf(s, c)
    case Summed(minor, cents, held) =>
      if minor > s.paid - held then Go(s, c, Idle).(lock := None)
      else
        Go(s, c, Reserved(|s.rows|)).(
          rows := s.rows + [Row(minor, cents, Pending, 0, false, false)], lock := None)
    case _ => s
  }

  /** The provider is asked once more; what it did is in its answer. */
  function Asked(row: Row, answer: Answer): Row {
    row.(calls := row.calls + 1, moved := answer.Accepted? || answer.moved, lost := answer.Refusal? && answer.moved)
  }

  function SendStep(s: State, c: Caller, answer: Answer): State {
    match PhaseOf(s, c)
    case Reserved(i) =>
      if i >= |s.rows| then s
      else
        Go(PutRow(s, i, Asked(s.rows[i], answer)), c,
           if answer.Accepted? then Sent(i) else if answer.Refusal? then TurnedDown(i) else Unclear(i))
    case _ => s
  }

  /** The books' own transaction checks the order's limit again. */
  function RecordStep(s: State, c: Caller, outcome: Outcome): State {
    match PhaseOf(s, c)
    case Sent(i) =>
      if i >= |s.rows| then s
      else if outcome == Refused || s.rows[i].cents > s.orderTotal - BookTotal(s.books) then Go(s, c, Unrecorded(i))
      else
        Go(s, c, if outcome == Committed then Recorded(i) else Unrecorded(i)).(
          books := s.books + [Local(Some(i), s.rows[i].cents)])
    case _ => s
  }

  function WriteSucceededStep(s: State, c: Caller, outcome: Outcome): State {
    match PhaseOf(s, c)
    case Recorded(i) =>
      if i >= |s.rows| then s
      else if outcome == Refused then Go(s, c, Unrecorded(i))
      else
        Go(PutRow(s, i, s.rows[i].(status := Succeeded)), c, if outcome == Committed then Idle else Unrecorded(i))
    case _ => s
  }

  function WriteFailedStep(s: State, c: Caller): State {
    match PhaseOf(s, c)
    case TurnedDown(i) => if i >= |s.rows| then s else Go(PutRow(s, i, s.rows[i].(status := Failed)), c, Idle)
    case _ => s
  }

  function WriteReviewStep(s: State, c: Caller): State {
    match PhaseOf(s, c)
    case Unclear(i) => if i >= |s.rows| then s else Go(PutRow(s, i, s.rows[i].(status := NeedsReview)), c, Idle)
    case Unrecorded(i) => if i >= |s.rows| then s else Go(PutRow(s, i, s.rows[i].(status := NeedsReview)), c, Idle)
    case _ => s
  }

  function StaffRefundStep(s: State, cents: int): State {
    if 0 < cents <= s.orderTotal - BookTotal(s.books) then s.(books := s.books + [Local(None, cents)]) else s
  }

  /** A crash rolls back an open transaction, which frees its lock. */
  function CrashStep(s: State, c: Caller): State {
    Go(s, c, Idle).(lock := if s.lock == Some(c) then None else s.lock)
  }

  function Next(locking: bool, s: State, e: Event): State {
    match e
    case Begin(c, cents) => BeginStep(s, c, cents)
    case Lock(c) => LockStep(locking, s, c)
    case SumHeld(c) => SumStep(s, c)
    case Reserve(c) => ReserveStep(s, c)
    case Send(c, answer) => SendStep(s, c, answer)
    case Record(c, outcome) => RecordStep(s, c, outcome)
    case WriteSucceeded(c, outcome) => WriteSucceededStep(s, c, outcome)
    case WriteFailed(c) => WriteFailedStep(s, c)
    case WriteReview(c) => WriteReviewStep(s, c)
    case StaffRefund(c, cents) => StaffRefundStep(s, cents)
    case Crash(c) => CrashStep(s, c)
  }

  function Run(locking: bool, s: State, es: seq<Event>): State {
    if |es| == 0 then s else Next(locking, Run(locking, s, es[..|es| - 1]), es[|es| - 1])
  }

  // ----- sums --------------------------------------------------------------------------------

  lemma {:induction false} TotalPut(m: Measure, rows: seq<Row>, i: nat, row: Row)
    requires i < |rows|
    ensures Total(m, rows[i := row]) == Total(m, rows) - Weight(m, rows[i]) + Weight(m, row)
  {
    var n := |rows| - 1;
    if i == n {
      assert rows[i := row][..n] == rows[..n];
    } else {
      TotalPut(m, rows[..n], i, row);
      assert rows[i := row][..n] == rows[..n][i := row];
    }
  }

  lemma TotalAppend(m: Measure, rows: seq<Row>, row: Row)
    ensures Total(m, rows + [row]) == Total(m, rows) + Weight(m, row)
  {
    assert (rows + [row])[..|rows|] == rows;
  }

  lemma BooksAppend(books: seq<Local>, entry: Local, i: nat)
    ensures BookTotal(books + [entry]) == BookTotal(books) + entry.cents
    ensures Records(books + [entry], i) == Records(books, i) + if entry.row == Some(i) then 1 else 0
  {
    assert (books + [entry])[..|books|] == books;
  }

  // ----- what every step keeps ---------------------------------------------------------------

  /** The row a call is working on. */
  function Works(phase: Phase): Option<nat> {
    match phase
    case Reserved(i) => Some(i)
    case Sent(i) => Some(i)
    case TurnedDown(i) => Some(i)
    case Unclear(i) => Some(i)
    case Recorded(i) => Some(i)
    case Unrecorded(i) => Some(i)
    case _ => None
  }

  /** A row's status and its fate outside the table agree. */
  predicate RowSound(row: Row, records: nat) {
    && row.minor > 0 && row.calls <= 1 && records <= 1
    && (row.moved || row.status != Pending ==> row.calls == 1)
    && (row.lost ==> row.moved)
    && (records > 0 ==> row.moved && !row.lost)
    && (row.status == Succeeded ==> row.moved && records == 1)
    && (row.status == Failed ==> records == 0 && row.moved == row.lost)
    && (row.status == NeedsReview ==> !row.lost)
  }

  /** What a phase says about its row. */
  predicate PhaseSound(phase: Phase, row: Row, records: nat) {
    match phase
    case Reserved(_) => row.status == Pending && row.calls == 0 && records == 0
    case Sent(_) => row.status == Pending && row.moved && !row.lost && records == 0
    case TurnedDown(_) => row.status == Pending && row.calls == 1 && records == 0 && row.moved == row.lost
    case Unclear(_) => row.status == Pending && row.calls == 1 && records == 0 && !row.lost
    case Recorded(_) => row.status == Pending && row.moved && !row.lost && records == 1
    case Unrecorded(_) => row.status != Failed && row.moved && !row.lost
    case _ => true
  }

  ghost predicate LockSound(s: State) {
    && (forall c: Caller :: PhaseOf(s, c).Locked? || PhaseOf(s, c).Summed? ==> s.lock == Some(c))
    && (forall c: Caller :: PhaseOf(s, c).Summed? ==> Total(Held, s.rows) <= PhaseOf(s, c).held)
    && (forall c: Caller :: PhaseOf(s, c).Checked? ==> PhaseOf(s, c).minor > 0)
    && (forall c: Caller :: PhaseOf(s, c).Locked? ==> PhaseOf(s, c).minor > 0)
    && (forall c: Caller :: PhaseOf(s, c).Summed? ==> PhaseOf(s, c).minor > 0)
    && Total(Held, s.rows) <= s.paid
  }

  ghost predicate RowsSound(s: State) {
    forall i :: 0 <= i < |s.rows| ==> RowSound(s.rows[i], Records(s.books, i))
  }

  ghost predicate WorkSound(s: State) {
    && (forall c: Caller :: Works(PhaseOf(s, c)).Some? ==>
          var i := Works(PhaseOf(s, c)).value;
          i < |s.rows| && PhaseSound(PhaseOf(s, c), s.rows[i], Records(s.books, i)))
    && (forall c: Caller, d: Caller :: Works(PhaseOf(s, c)).Some? && Works(PhaseOf(s, c)) == Works(PhaseOf(s, d)) ==> c == d)
  }

  ghost predicate BooksSound(s: State) {
    && BookTotal(s.books) <= s.orderTotal
    && (forall i: nat :: i >= |s.rows| ==> Records(s.books, i) == 0)
  }

  ghost predicate Inv(s: State) {
    LockSound(s) && RowsSound(s) && WorkSound(s) && BooksSound(s)
  }

  ghost predicate OthersStand(s: State, t: State, c: Caller) {
    forall d: Caller :: d != c ==> PhaseOf(t, d) == PhaseOf(s, d)
  }

  /** A call rewrites the row it works on and moves on. */
  lemma RowStep(s: State, c: Caller, i: nat, row: Row, phase: Phase)
    requires Inv(s) && i < |s.rows| && Works(PhaseOf(s, c)) == Some(i)
    requires Works(phase) == Some(i) || phase == Idle
    requires Weight(Held, row) <= Weight(Held, s.rows[i])
    requires RowSound(row, Records(s.books, i)) && PhaseSound(phase, row, Records(s.books, i))
    ensures Inv(Go(PutRow(s, i, row), c, phase))
  {
    var t := Go(PutRow(s, i, row), c, phase);
    TotalPut(Held, s.rows, i, row);
    assert OthersStand(s, t, c) && PhaseOf(t, c) == phase;
    assert LockSound(t);
    forall k | 0 <= k < |t.rows| ensures RowSound(t.rows[k], Records(t.books, k)) {
      assert RowSound(s.rows[k], Records(s.books, k));
    }
    assert WorkSound(t);
  }

  /** A call moves on without writing. */
  lemma PhaseStep(s: State, c: Caller, phase: Phase)
    requires Inv(s)
    requires Works(phase).Some? && Works(phase) == Works(PhaseOf(s, c))
    requires PhaseSound(phase, s.rows[Works(phase).value], Records(s.books, Works(phase).value))
    ensures Inv(Go(s, c, phase))
  {
    var t := Go(s, c, phase);
    assert OthersStand(s, t, c) && PhaseOf(t, c) == phase;
  }

  /** Who holds the lock, and with what figures, changes; rows and books do not. */
  lemma LockMoves(s: State, t: State, c: Caller)
    requires Inv(s) && t == s.(callers := t.callers, lock := t.lock) && OthersStand(s, t, c)
    requires Works(PhaseOf(t, c)).None? && Works(PhaseOf(s, c)).None?
    requires s.lock == None || s.lock == Some(c) || t.lock == s.lock
    requires PhaseOf(t, c).Locked? || PhaseOf(t, c).Summed? ==> t.lock == Some(c) && PhaseOf(t, c).minor > 0
    requires PhaseOf(t, c).Summed? ==> Total(Held, s.rows) <= PhaseOf(t, c).held
    requires PhaseOf(t, c).Checked? ==> PhaseOf(t, c).minor > 0
    requires s.lock.Some? && s.lock != Some(c) ==> t.lock == s.lock
    ensures Inv(t)
  {
    assert LockSound(t);
  }

  /** The new row is held within what was left when it was summed up. */
  lemma ReserveKeepsLock(s: State, c: Caller)
    requires LockSound(s) && PhaseOf(s, c).Summed? && PhaseOf(s, c).minor <= s.paid - PhaseOf(s, c).held
    ensures LockSound(ReserveStep(s, c))
  {
    var phase, t := PhaseOf(s, c), ReserveStep(s, c);
    TotalAppend(Held, s.rows, Row(phase.minor, phase.cents, Pending, 0, false, false));
    assert OthersStand(s, t, c) && PhaseOf(t, c) == Reserved(|s.rows|);
  }

  lemma ReserveKeepsWork(s: State, c: Caller)
    requires WorkSound(s) && BooksSound(s) && PhaseOf(s, c).Summed? && PhaseOf(s, c).minor <= s.paid - PhaseOf(s, c).held
    ensures WorkSound(ReserveStep(s, c))
  {
    assert OthersStand(s, ReserveStep(s, c), c) && PhaseOf(ReserveStep(s, c), c) == Reserved(|s.rows|);
  }

  lemma ReserveKeepsRows(s: State, c: Caller)
    requires LockSound(s) && RowsSound(s) && BooksSound(s)
    requires PhaseOf(s, c).Summed? && PhaseOf(s, c).minor <= s.paid - PhaseOf(s, c).held
    ensures RowsSound(ReserveStep(s, c))
  {
    var t := ReserveStep(s, c);
    forall k | 0 <= k < |t.rows| ensures RowSound(t.rows[k], Records(t.books, k)) {
      if k < |s.rows| {
        assert RowSound(s.rows[k], Records(s.books, k));
      }
    }
  }

  lemma ReserveKeeps(s: State, c: Caller)
    requires Inv(s)
    ensures Inv(ReserveStep(s, c))
  {
    var phase, t := PhaseOf(s, c), ReserveStep(s, c);
    if phase.Summed? {
      if phase.minor > s.paid - phase.held {
        assert OthersStand(s, t, c);
        LockMoves(s, t, c);
      } else {
        ReserveKeepsLock(s, c);
        ReserveKeepsWork(s, c);
        ReserveKeepsRows(s, c);
      }
    }
  }

  /** An entry for a row is its first, and the row's money has moved. */
  ghost predicate Entry(s: State, t: State, entry: Local, c: Caller) {
    && t == s.(callers := t.callers, books := s.books + [entry]) && OthersStand(s, t, c)
    && entry.cents <= s.orderTotal - BookTotal(s.books)
    && (entry.row.None? ==> PhaseOf(t, c) == PhaseOf(s, c))
    && (entry.row.Some? ==>
          PhaseOf(s, c) == Sent(entry.row.value)
          && (PhaseOf(t, c) == Recorded(entry.row.value) || PhaseOf(t, c) == Unrecorded(entry.row.value)))
  }

  lemma EntryCounts(s: State, t: State, entry: Local, c: Caller)
    requires Entry(s, t, entry, c)
    ensures BookTotal(t.books) <= t.orderTotal
    ensures forall i: nat :: Records(t.books, i) == Records(s.books, i) + if entry.row == Some(i) then 1 else 0
  {
    forall i: nat ensures Records(t.books, i) == Records(s.books, i) + if entry.row == Some(i) then 1 else 0 {
      BooksAppend(s.books, entry, i);
    }
    BooksAppend(s.books, entry, 0);
  }

  lemma EntryRows(s: State, t: State, entry: Local, c: Caller)
    requires Inv(s) && Entry(s, t, entry, c)
    ensures RowsSound(t)
  {
    EntryCounts(s, t, entry, c);
    forall k | 0 <= k < |t.rows| ensures RowSound(t.rows[k], Records(t.books, k)) {
      assert RowSound(s.rows[k], Records(s.books, k));
      if entry.row == Some(k) {
        assert Works(PhaseOf(s, c)) == Some(k);
      }
    }
  }

  lemma EntryWork(s: State, t: State, entry: Local, c: Caller)
    requires Inv(s) && Entry(s, t, entry, c)
    ensures WorkSound(t)
  {
    EntryCounts(s, t, entry, c);
    if entry.row.Some? {
      assert Works(PhaseOf(s, c)) == entry.row;
    }
  }

  lemma BooksGrow(s: State, t: State, entry: Local, c: Caller)
    requires Inv(s) && Entry(s, t, entry, c)
    ensures Inv(t)
  {
    EntryRows(s, t, entry, c);
    EntryWork(s, t, entry, c);
    EntryCounts(s, t, entry, c);
    if entry.row.Some? {
      assert Works(PhaseOf(s, c)) == entry.row;
    }
  }

  lemma {:induction false} RecordKeeps(s: State, c: Caller, outcome: Outcome)
    requires Inv(s)
    ensures Inv(RecordStep(s, c, outcome))
  {
    var phase, t := PhaseOf(s, c), RecordStep(s, c, outcome);
    if phase.Sent? && phase.row < |s.rows| {
      assert Works(phase) == Some(phase.row);
      if t.books == s.books {
        PhaseStep(s, c, Unrecorded(phase.row));
      } else {
        BooksGrow(s, t, Local(Some(phase.row), s.rows[phase.row].cents), c);
      }
    }
  }

  lemma CrashKeeps(s: State, c: Caller)
    requires Inv(s)
    ensures Inv(CrashStep(s, c))
  {
    var t := CrashStep(s, c);
    assert OthersStand(s, t, c) && PhaseOf(t, c) == Idle;
    assert LockSound(t);
    assert WorkSound(t);
  }

  lemma StepKeepsInv(s: State, e: Event)
    requires Inv(s)
    ensures Inv(Next(true, s, e))
  {
    var c := e.who;
    var phase := PhaseOf(s, c);
    if Works(phase).Some? {
      assert RowSound(s.rows[Works(phase).value], Records(s.books, Works(phase).value));
    }
    match e
    case Begin(_, cents) =>
      if BeginStep(s, c, cents) != s {
        LockMoves(s, BeginStep(s, c, cents), c);
      }
    case Lock(_) =>
      if LockStep(true, s, c) != s {
        LockMoves(s, LockStep(true, s, c), c);
      }
    case SumHeld(_) =>
      if phase.Locked? {
        LockMoves(s, SumStep(s, c), c);
      }
    case Reserve(_) => ReserveKeeps(s, c);
    case Send(_, answer) =>
      if phase.Reserved? {
        RowStep(s, c, phase.row, Asked(s.rows[phase.row], answer), PhaseOf(SendStep(s, c, answer), c));
      }
    case Record(_, outcome) => RecordKeeps(s, c, outcome);
    case WriteSucceeded(_, outcome) =>
      if phase.Recorded? {
        if outcome == Refused {
          PhaseStep(s, c, Unrecorded(phase.row));
        } else {
          RowStep(s, c, phase.row, s.rows[phase.row].(status := Succeeded),
                  if outcome == Committed then Idle else Unrecorded(phase.row));
        }
      }
    case WriteFailed(_) =>
      if phase.TurnedDown? {
        RowStep(s, c, phase.row, s.rows[phase.row].(status := Failed), Idle);
      }
    case WriteReview(_) =>
      if phase.Unclear? || phase.Unrecorded? {
        RowStep(s, c, phase.row, s.rows[phase.row].(status := NeedsReview), Idle);
      }
    case StaffRefund(_, cents) =>
      if StaffRefundStep(s, cents) != s {
        BooksGrow(s, StaffRefundStep(s, cents), Local(None, cents), c);
      }
    case Crash(_) => CrashKeeps(s, c);
  }

  lemma {:induction false} RunKeepsInv(exponent: nat, paidCents: nat, orderTotal: nat, es: seq<Event>)
    ensures Inv(Run(true, Start(exponent, paidCents, orderTotal), es))
  {
    if |es| > 0 {
      RunKeepsInv(exponent, paidCents, orderTotal, es[..|es| - 1]);
      StepKeepsInv(Run(true, Start(exponent, paidCents, orderTotal), es[..|es| - 1]), es[|es| - 1]);
    }
  }

  // ----- results over every run --------------------------------------------------------------

  /** The refundable figure shown for the payment. */
  function RefundableMinor(s: State): int {
    s.paid - Total(Held, s.rows)
  }

  lemma {:induction false} RunLimits(locking: bool, s: State, es: seq<Event>)
    ensures Run(locking, s, es).paid == s.paid && Run(locking, s, es).orderTotal == s.orderTotal
    ensures Run(locking, s, es).exponent == s.exponent
  {
    if |es| > 0 {
      RunLimits(locking, s, es[..|es| - 1]);
    }
  }

  /** Reserved refunds never exceed the payment, nor the books the order, in any interleaving. */
  lemma {:induction false} ReservedWithinPaid(exponent: nat, paidCents: nat, orderTotal: nat, es: seq<Event>)
    ensures var s := Run(true, Start(exponent, paidCents, orderTotal), es);
            && s.paid == MinorOfCents(paidCents, exponent) && Total(Held, s.rows) <= s.paid
            && 0 <= RefundableMinor(s) && BookTotal(s.books) <= orderTotal
  {
    RunKeepsInv(exponent, paidCents, orderTotal, es);
    RunLimits(true, Start(exponent, paidCents, orderTotal), es);
  }

  lemma {:induction false} MovedIsHeldOrLost(rows: seq<Row>)
    requires forall i :: 0 <= i < |rows| ==> rows[i].minor > 0
    ensures Total(Moved, rows) <= Total(Held, rows) + Total(Lost, rows)
  {
    if |rows| > 0 {
      MovedIsHeldOrLost(rows[..|rows| - 1]);
    }
  }

  /**
   * What the provider sends back is at most the payment and what it sent behind a refusal; with
   * no such refusal it is at most the payment.
   */
  lemma {:induction false} SentWithinPaid(exponent: nat, paidCents: nat, orderTotal: nat, es: seq<Event>)
    ensures var s := Run(true, Start(exponent, paidCents, orderTotal), es);
            && Total(Moved, s.rows) <= s.paid + Total(Lost, s.rows)
            && ((forall e <- es :: Plain(e)) ==> Total(Moved, s.rows) <= s.paid)
  {
    var s := Run(true, Start(exponent, paidCents, orderTotal), es);
    ReservedWithinPaid(exponent, paidCents, orderTotal, es);
    RunKeepsInv(exponent, paidCents, orderTotal, es);
    forall i | 0 <= i < |s.rows| ensures s.rows[i].minor > 0 {
      assert RowSound(s.rows[i], Records(s.books, i));
    }
    MovedIsHeldOrLost(s.rows);
    if forall e <- es :: Plain(e) {
      PlainRunLosesNothing(Start(exponent, paidCents, orderTotal), es);
      forall i | 0 <= i < |s.rows| ensures Weight(Lost, s.rows[i]) == 0 {
        assert RowSound(s.rows[i], Records(s.books, i));
      }
      NoWeight(Lost, s.rows);
    }
  }

  /** A definite refusal that sent nothing. */
  predicate Plain(e: Event) {
    e.Send? && e.answer.Refusal? ==> !e.answer.moved
  }

  lemma {:induction false} NoWeight(m: Measure, rows: seq<Row>)
    requires forall i :: 0 <= i < |rows| ==> Weight(m, rows[i]) == 0
    ensures Total(m, rows) == 0
  {
    if |rows| > 0 {
      NoWeight(m, rows[..|rows| - 1]);
    }
  }

  lemma {:induction false} PlainRunLosesNothing(s: State, es: seq<Event>)
    requires s.rows == [] && forall e <- es :: Plain(e)
    ensures forall row <- Run(true, s, es).rows :: !row.lost
  {
    if |es| > 0 {
      PlainRunLosesNothing(s, es[..|es| - 1]);
      assert es[|es| - 1] in es;
    }
  }

  /**
   * No refunded money is lost track of. In every reachable state each row reached the provider at
   * most once; a row whose money moved, other than behind a refusal, is pending, under review or
   * succeeded; a succeeded row's money moved and the books hold it exactly once; whatever the
   * books hold for a row did move; and a failed row sent money only behind a refusal.
   */
  lemma {:induction false} NothingLostTrackOf(exponent: nat, paidCents: nat, orderTotal: nat, es: seq<Event>, i: nat)
    requires i < |Run(true, Start(exponent, paidCents, orderTotal), es).rows|
    ensures var s := Run(true, Start(exponent, paidCents, orderTotal), es);
            var row, records := s.rows[i], Records(s.books, i);
            && row.calls <= 1 && records <= 1
            && (row.status != Pending ==> row.calls == 1)
            && (row.moved ==> row.calls == 1 && (row.status != Failed || row.lost))
            && (row.status == Succeeded ==> row.moved && records == 1)
            && (records == 1 ==> row.moved && row.status != Failed)
            && (row.status == Failed ==> (row.moved <==> row.lost))
            && ((forall e <- es :: Plain(e)) ==> (row.status == Failed ==> !row.moved))
  {
    var s := Run(true, Start(exponent, paidCents, orderTotal), es);
    RunKeepsInv(exponent, paidCents, orderTotal, es);
    assert RowSound(s.rows[i], Records(s.books, i));
    if forall e <- es :: Plain(e) {
      PlainRunLosesNothing(Start(exponent, paidCents, orderTotal), es);
      assert s.rows[i] in s.rows;
    }
  }

  // ----- why each precaution is there --------------------------------------------------------

  lemma {:induction false} RunConcat(locking: bool, s: State, a: seq<Event>, b: seq<Event>)
    ensures Run(locking, s, a + b) == Run(locking, Run(locking, s, a), b)
  {
    if |b| == 0 {
      assert a + b == a;
    } else {
      RunConcat(locking, s, a, b[..|b| - 1]);
      assert (a + b)[..|a + b| - 1] == a + b[..|b| - 1];
    }
  }

  lemma {:induction false} RunOne(locking: bool, s: State, es: seq<Event>, e: Event)
    ensures Run(locking, s, es + [e]) == Next(locking, Run(locking, s, es), e)
  {
    assert (es + [e])[..|es|] == es;
  }

  function ReserveRound(c: Caller, cents: int): seq<Event> {
    [Begin(c, cents)] + [Lock(c)] + [SumHeld(c)] + [Reserve(c)]
  }

  /** Nothing stands in the way of a refund of so many cents. */
  predicate Refundable(s: State, c: Caller, cents: int) {
    && PhaseOf(s, c) == Idle && s.lock == None && 0 < cents <= s.orderTotal - BookTotal(s.books)
    && 0 < MinorOfCents(cents, s.exponent) <= RefundableMinor(s)
  }

  lemma ReserveRoundRuns(s: State, c: Caller, cents: int)
    ensures Run(true, s, ReserveRound(c, cents)) == ReserveStep(SumStep(LockStep(true, BeginStep(s, c, cents), c), c), c)
  {
    assert [] + [Begin(c, cents)] == [Begin(c, cents)];
    RunOne(true, s, [], Begin(c, cents));
    RunOne(true, s, [Begin(c, cents)], Lock(c));
    RunOne(true, s, [Begin(c, cents)] + [Lock(c)], SumHeld(c));
    RunOne(true, s, [Begin(c, cents)] + [Lock(c)] + [SumHeld(c)], Reserve(c));
  }

  lemma ReserveRoundEnds(s: State, c: Caller, cents: int)
    requires Refundable(s, c, cents)
    ensures var t := Run(true, s, ReserveRound(c, cents));
            t == s.(callers := t.callers,
                    rows := s.rows + [Row(MinorOfCents(cents, s.exponent), cents, Pending, 0, false, false)])
            && PhaseOf(t, c) == Reserved(|s.rows|)
  {
    ReserveRoundRuns(s, c, cents);
    var minor := MinorOfCents(cents, s.exponent);
    var s1 := BeginStep(s, c, cents);
    assert PhaseOf(s1, c) == Checked(minor, cents);
    var s2 := LockStep(true, s1, c);
    assert PhaseOf(s2, c) == Locked(minor, cents);
    var s3 := SumStep(s2, c);
    assert PhaseOf(s3, c) == Summed(minor, cents, Total(Held, s.rows));
  }

  function RefusedRound(c: Caller, cents: int): seq<Event> {
    ReserveRound(c, cents) + [Send(c, Refusal(true))] + [WriteFailed(c)]
  }

  /** A refund the provider sends and yet refuses leaves everything free for the next one. */
  lemma RefusedRoundMoves(s: State, c: Caller, cents: int)
    requires Refundable(s, c, cents)
    ensures var t := Run(true, s, RefusedRound(c, cents));
            && Refundable(t, c, cents) && t.exponent == s.exponent
            && Total(Moved, t.rows) == Total(Moved, s.rows) + MinorOfCents(cents, s.exponent)
  {
    var reserve := ReserveRound(c, cents);
    var s4 := Run(true, s, reserve);
    ReserveRoundEnds(s, c, cents);
    RunOne(true, s, reserve, Send(c, Refusal(true)));
    RunOne(true, s, reserve + [Send(c, Refusal(true))], WriteFailed(c));
    var s6 := WriteFailedStep(SendStep(s4, c, Refusal(true)), c);
    var failed := Row(MinorOfCents(cents, s.exponent), cents, Failed, 1, true, true);
    assert s6.rows == s.rows + [failed];
    TotalAppend(Held, s.rows, failed);
    TotalAppend(Moved, s.rows, failed);
  }

  /**
   * The condition on refusals is needed: for every payment, and an order that covers it, two
   * refunds of the whole that were sent and then refused with a status return twice the amount.
   */
  lemma RefusalsThatSendOverpay(exponent: nat, paidCents: nat, orderTotal: nat)
    requires MinorOfCents(paidCents, exponent) > 0 && paidCents <= orderTotal
    ensures exists es :: var s := Run(true, Start(exponent, paidCents, orderTotal), es);
                         Total(Moved, s.rows) == 2 * MinorOfCents(paidCents, exponent)
  {
    var s := Start(exponent, paidCents, orderTotal);
    var round := RefusedRound(0, paidCents);
    RefusedRoundMoves(s, 0, paidCents);
    RefusedRoundMoves(Run(true, s, round), 0, paidCents);
    RunConcat(true, s, round, round);
  }

  function Prepare(c: Caller, cents: int): seq<Event> {
    [Begin(c, cents)] + [Lock(c)] + [SumHeld(c)]
  }

  /** Without the lock a call reads what is held, whoever else is reading. */
  lemma {:induction false} PrepareEnds(s: State, c: Caller, cents: int)
    requires PhaseOf(s, c) == Idle && MinorOfCents(cents, s.exponent) > 0 && 0 < cents <= s.orderTotal - BookTotal(s.books)
    ensures var t := Run(false, s, Prepare(c, cents));
            && t == s.(callers := t.callers, lock := Some(c))
            && PhaseOf(t, c) == Summed(MinorOfCents(cents, s.exponent), cents, Total(Held, s.rows)) && OthersStand(s, t, c)
  {
    var minor := MinorOfCents(cents, s.exponent);
    var s1 := BeginStep(s, c, cents);
    var s2 := LockStep(false, s1, c);
    var s3 := SumStep(s2, c);
    assert s2 == s.(callers := s2.callers, lock := Some(c)) && PhaseOf(s2, c) == Locked(minor, cents);
    assert s3 == s2.(callers := s3.callers) && PhaseOf(s3, c) == Summed(minor, cents, Total(Held, s.rows));
    assert OthersStand(s, s3, c);
    assert Run(false, s, Prepare(c, cents)) == s3 by {
      assert [] + [Begin(c, cents)] == [Begin(c, cents)];
      RunOne(false, s, [], Begin(c, cents));
      RunOne(false, s, [Begin(c, cents)], Lock(c));
      RunOne(false, s, [Begin(c, cents)] + [Lock(c)], SumHeld(c));
    }
  }

  lemma PrepareBoth(s: State, cents: int)
    requires s.callers == map[] && s.rows == [] && MinorOfCents(cents, s.exponent) > 0
    requires 0 < cents <= s.orderTotal - BookTotal(s.books)
    ensures var t := Run(false, s, Prepare(0, cents) + Prepare(1, cents));
            && t.rows == [] && t.paid == s.paid
            && PhaseOf(t, 0) == Summed(MinorOfCents(cents, s.exponent), cents, 0)
            && PhaseOf(t, 1) == Summed(MinorOfCents(cents, s.exponent), cents, 0)
  {
    PrepareEnds(s, 0, cents);
    PrepareEnds(Run(false, s, Prepare(0, cents)), 1, cents);
    RunConcat(false, s, Prepare(0, cents), Prepare(1, cents));
  }

  /** The row lock is needed: without it two refunds reserve the whole payment each. */
  lemma WithoutLockBothReserve(exponent: nat, paidCents: nat, orderTotal: nat)
    requires MinorOfCents(paidCents, exponent) > 0 && paidCents <= orderTotal
    ensures exists es :: var s := Run(false, Start(exponent, paidCents, orderTotal), es);
                         Total(Held, s.rows) == 2 * MinorOfCents(paidCents, exponent)
  {
    var s := Start(exponent, paidCents, orderTotal);
    var both := Prepare(0, paidCents) + Prepare(1, paidCents);
    PrepareBoth(s, paidCents);
    RunOne(false, s, both, Reserve(0));
    RunOne(false, s, both + [Reserve(0)], Reserve(1));
    BothReserve(Run(false, s, both), 0, 1, s.paid, paidCents);
  }

  lemma BothReserve(s: State, c: Caller, d: Caller, minor: int, cents: int)
    requires c != d && minor <= s.paid
    requires PhaseOf(s, c) == Summed(minor, cents, 0) && PhaseOf(s, d) == Summed(minor, cents, 0)
    ensures Total(Held, ReserveStep(ReserveStep(s, c), d).rows) == Total(Held, s.rows) + 2 * minor
  {
    var row := Row(minor, cents, Pending, 0, false, false);
    TotalAppend(Held, s.rows, row);
    TotalAppend(Held, s.rows + [row], row);
  }

  // ----- exactly when more can go back than was paid -----------------------------------------

  /** No call is under way. */
  ghost predicate Quiet(s: State) {
    forall c: Caller :: PhaseOf(s, c) == Idle
  }

  /** Whoever has the lock is between taking it and reserving. */
  predicate LockInUse(s: State) {
    s.lock.Some? ==> PhaseOf(s, s.lock.value).Locked? || PhaseOf(s, s.lock.value).Summed?
  }

  lemma StepKeepsLockInUse(s: State, e: Event)
    requires LockSound(s) && LockInUse(s)
    ensures LockInUse(Next(true, s, e))
  {
  }

  /** Amounts are those the currency has. */
  predicate Sized(exponent: nat, minor: int, cents: int) {
    minor == MinorOfCents(cents, exponent)
  }

  predicate PhaseSized(exponent: nat, phase: Phase) {
    match phase
    case Checked(minor, cents) => Sized(exponent, minor, cents)
    case Locked(minor, cents) => Sized(exponent, minor, cents)
    case Summed(minor, cents, _) => Sized(exponent, minor, cents)
    case _ => true
  }

  ghost predicate AllSized(s: State) {
    && (forall i :: 0 <= i < |s.rows| ==> Sized(s.exponent, s.rows[i].minor, s.rows[i].cents))
    && (forall c: Caller :: PhaseSized(s.exponent, PhaseOf(s, c)))
  }

  lemma StepKeepsSized(s: State, e: Event)
    requires AllSized(s)
    ensures AllSized(Next(true, s, e))
  {
    var t := Next(true, s, e);
    assert PhaseSized(s.exponent, PhaseOf(s, e.who));
    OthersStandAlways(s, e);
    forall c: Caller ensures PhaseSized(t.exponent, PhaseOf(t, c)) {
      assert PhaseSized(s.exponent, PhaseOf(s, c));
    }
  }

  lemma OthersStandAlways(s: State, e: Event)
    ensures OthersStand(s, Next(true, s, e), e.who)
  {
  }

  lemma {:induction false} RunKeepsSized(exponent: nat, paidCents: nat, orderTotal: nat, es: seq<Event>)
    ensures AllSized(Run(true, Start(exponent, paidCents, orderTotal), es))
    ensures LockInUse(Run(true, Start(exponent, paidCents, orderTotal), es))
  {
    if |es| > 0 {
      var s := Run(true, Start(exponent, paidCents, orderTotal), es[..|es| - 1]);
      RunKeepsSized(exponent, paidCents, orderTotal, es[..|es| - 1]);
      RunKeepsInv(exponent, paidCents, orderTotal, es[..|es| - 1]);
      StepKeepsSized(s, es[|es| - 1]);
      StepKeepsLockInUse(s, es[|es| - 1]);
    }
  }

  lemma {:induction false} TotalInTens(m: Measure, rows: seq<Row>)
    requires forall i :: 0 <= i < |rows| ==> rows[i].minor % 10 == 0
    ensures Total(m, rows) % 10 == 0
  {
    if |rows| > 0 {
      TotalInTens(m, rows[..|rows| - 1]);
    }
  }

  lemma LeftInTens(s: State)
    requires AllSized(s) && s.exponent != 2 && s.exponent != 0 && s.paid % 10 == 0
    ensures RefundableMinor(s) % 10 == 0
  {
    forall i | 0 <= i < |s.rows| ensures s.rows[i].minor % 10 == 0 {
      assert Sized(s.exponent, s.rows[i].minor, s.rows[i].cents);
    }
    TotalInTens(Held, s.rows);
  }

  /** What is left of a payment is an amount its currency has. */
  lemma LeftIsSized(s: State, paidCents: nat)
    requires AllSized(s) && Sized(s.exponent, s.paid, paidCents)
    ensures var left := RefundableMinor(s);
            MinorOfCents(CentsFor(left, s.exponent), s.exponent) == left && (left > 0 ==> CentsFor(left, s.exponent) > 0)
  {
    if s.exponent != 2 && s.exponent != 0 {
      LeftInTens(s);
    }
    CentsForGives(RefundableMinor(s), s.exponent);
  }

  /** What is reserved or was lost is what moved or is stuck. */
  lemma {:induction false} HeldAndLost(rows: seq<Row>)
    ensures Total(Held, rows) + Total(Lost, rows) == Total(Moved, rows) + Total(Stuck, rows)
  {
    if |rows| > 0 {
      HeldAndLost(rows[..|rows| - 1]);
    }
  }

  lemma {:induction false} TotalConcat(m: Measure, a: seq<Row>, b: seq<Row>)
    ensures Total(m, a + b) == Total(m, a) + Total(m, b)
  {
    if |b| == 0 {
      assert a + b == a;
    } else {
      TotalConcat(m, a, b[..|b| - 1]);
      assert (a + b)[..|a + b| - 1] == a + b[..|b| - 1];
    }
  }

  /** Rows that were there stay as they were, and newer ones lose nothing. */
  ghost predicate Beyond(s: State, t: State) {
    && s.rows <= t.rows
    && (forall c: Caller :: Works(PhaseOf(t, c)).Some? ==> Works(PhaseOf(t, c)).value >= |s.rows|)
    && (forall i :: |s.rows| <= i < |t.rows| ==> !t.rows[i].lost)
  }

  lemma BeyondStep(s: State, t: State, e: Event)
    requires Beyond(s, t) && Plain(e)
    ensures Beyond(s, Next(true, t, e))
  {
    var u := Next(true, t, e);
    OthersStandAlways(t, e);
    assert Works(PhaseOf(t, e.who)).Some? ==> Works(PhaseOf(t, e.who)).value >= |s.rows|;
    OwnWork(t, e);
    forall c: Caller | Works(PhaseOf(u, c)).Some? ensures Works(PhaseOf(u, c)).value >= |s.rows| {
      assert c != e.who ==> PhaseOf(u, c) == PhaseOf(t, c);
    }
  }

  /** A call goes on with its row, or with the one it adds. */
  lemma OwnWork(s: State, e: Event)
    ensures var phase := PhaseOf(Next(true, s, e), e.who);
            Works(phase).Some? ==> Works(phase) == Works(PhaseOf(s, e.who)) || Works(phase) == Some(|s.rows|)
  {
  }

  lemma {:induction false} BeyondRun(s: State, es: seq<Event>)
    requires Inv(s) && Quiet(s) && forall e <- es :: Plain(e)
    ensures Beyond(s, Run(true, s, es)) && Inv(Run(true, s, es))
  {
    if |es| > 0 {
      BeyondRun(s, es[..|es| - 1]);
      assert es[|es| - 1] in es;
      BeyondStep(s, Run(true, s, es[..|es| - 1]), es[|es| - 1]);
      StepKeepsInv(Run(true, s, es[..|es| - 1]), es[|es| - 1]);
    }
  }

  /** From a quiet state, with plain answers only, no more moves than is left to reserve. */
  lemma {:induction false} PlainRunMovesWhatIsLeft(s: State, es: seq<Event>)
    requires Inv(s) && Quiet(s) && forall e <- es :: Plain(e)
    ensures Total(Moved, Run(true, s, es).rows) <= Total(Moved, s.rows) + RefundableMinor(s)
  {
    var t := Run(true, s, es);
    BeyondRun(s, es);
    RunLimits(true, s, es);
    var newer := t.rows[|s.rows|..];
    assert t.rows == s.rows + newer;
    TotalConcat(Held, s.rows, newer);
    TotalConcat(Moved, s.rows, newer);
    forall i | 0 <= i < |newer| ensures newer[i].minor > 0 && Weight(Lost, newer[i]) == 0 {
      assert newer[i] == t.rows[|s.rows| + i];
      assert RowSound(t.rows[|s.rows| + i], Records(t.books, |s.rows| + i));
    }
    NoWeight(Lost, newer);
    MovedIsHeldOrLost(newer);
  }

  function AcceptedRound(c: Caller, cents: int): seq<Event> {
    ReserveRound(c, cents) + [Send(c, Accepted)]
  }

  lemma AcceptedRoundMoves(s: State, c: Caller, cents: int)
    requires Refundable(s, c, cents)
    ensures var t := Run(true, s, AcceptedRound(c, cents));
            Total(Moved, t.rows) == Total(Moved, s.rows) + MinorOfCents(cents, s.exponent)
    ensures forall e <- AcceptedRound(c, cents) :: Plain(e)
  {
    var s4 := Run(true, s, ReserveRound(c, cents));
    ReserveRoundEnds(s, c, cents);
    RunOne(true, s, ReserveRound(c, cents), Send(c, Accepted));
    var row := Row(MinorOfCents(cents, s.exponent), cents, Pending, 1, true, false);
    assert SendStep(s4, c, Accepted).rows == s.rows + [row];
    TotalAppend(Moved, s.rows, row);
  }

  /** With no more wrong refusals, more than was paid can still end up sent. */
  ghost predicate CanOverpay(s: State) {
    exists more :: (forall e <- more :: Plain(e)) && Total(Moved, Run(true, s, more).rows) > s.paid
  }

  /**
   * Exactly when more goes back than was paid: after any run with no call under way, and enough of
   * the order left in the books, plain refunds can exceed the payment if and only if more was lost
   * behind refusals than is stuck in reserved rows whose money never moved.
   */
  lemma {:induction false} OverpaysIffMoreLostThanStuck(exponent: nat, paidCents: nat, orderTotal: nat, es: seq<Event>)
    requires var s := Run(true, Start(exponent, paidCents, orderTotal), es);
             Quiet(s) && CentsFor(RefundableMinor(s), exponent) <= s.orderTotal - BookTotal(s.books)
    ensures var s := Run(true, Start(exponent, paidCents, orderTotal), es);
            CanOverpay(s) <==> Total(Lost, s.rows) > Total(Stuck, s.rows)
  {
    var s := Run(true, Start(exponent, paidCents, orderTotal), es);
    RunKeepsInv(exponent, paidCents, orderTotal, es);
    ReservedWithinPaid(exponent, paidCents, orderTotal, es);
    RunKeepsSized(exponent, paidCents, orderTotal, es);
    RunLimits(true, Start(exponent, paidCents, orderTotal), es);
    LeftIsSized(s, paidCents);
    HeldAndLost(s.rows);
    OverpaysFrom(s);
  }

  lemma OverpaysFrom(s: State)
    requires Inv(s) && Quiet(s) && s.lock == None
    requires var left := RefundableMinor(s);
             && CentsFor(left, s.exponent) <= s.orderTotal - BookTotal(s.books) && 0 <= left
             && MinorOfCents(CentsFor(left, s.exponent), s.exponent) == left && (left > 0 ==> CentsFor(left, s.exponent) > 0)
    ensures CanOverpay(s) <==> Total(Moved, s.rows) + RefundableMinor(s) > s.paid
  {
    forall more | forall e <- more :: Plain(e)
      ensures Total(Moved, Run(true, s, more).rows) <= Total(Moved, s.rows) + RefundableMinor(s)
    {
      PlainRunMovesWhatIsLeft(s, more);
    }
    if RefundableMinor(s) > 0 {
      AcceptedRoundMoves(s, 0, CentsFor(RefundableMinor(s), s.exponent));
    } else {
      assert Run(true, s, []) == s;
    }
  }
}
