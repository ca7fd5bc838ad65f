/**
 * The second factor told from the events of a run: which codes were counted wrong, which steps
 * accepted, what the row holds, and when the user is locked out.
 */
module TwoFactorHistory {
  import opened Options
  import opened TwoFactor

  // ----- the lock ----------------------------------------------------------------------------

  /** How many wrong codes came in a row, none a quarter of an hour after the one before. */
  function Streak(times: seq<int>): nat {
    var n := |times|;
    if n == 0 then 0
    else if n == 1 || times[n - 1] >= times[n - 2] + 900_000 then 1
    else Streak(times[..n - 1]) + 1
  }

  /** Five in a row, the last less than a quarter of an hour ago. */
  predicate LockedOut(times: seq<int>, now: int) {
    Streak(times) >= 5 && now < times[|times| - 1] + 900_000
  }

  /** The step matched comes after the one the row holds. */
  predicate After(step: Option<int>, row: Row) {
    step.Some? && (row.lastStep.Some? ==> step.value > row.lastStep.value) && (row.lastStep.None? ==> step.value > 0)
  }

  // ----- wrong codes -------------------------------------------------------------------------

  /** The code is wrong, and counted. */
  predicate IsWrong(s: State, e: Event) {
    match e
    case Verify(c, step, now) =>
      PhaseOf(s, c).Holding? && now >= s.clock && !LockedOut(s.checks, now) && !After(step, PhaseOf(s, c).row)
    case VerifyFirst(c, step, now) =>
      PhaseOf(s, c).Holding? && now >= s.clock && !LockedOut(s.checks, now) && !PhaseOf(s, c).row.enabled && step.None?
    case Settle(c, now) => PhaseOf(s, c) == Settling(false) && now >= s.clock
    case _ => false
  }

  /** A success, the end of an enrolment, or clearing. */
  predicate Forgives(s: State, e: Event) {
    match e
    case Settle(c, now) => PhaseOf(s, c) == Settling(true) && now >= s.clock
    case EndEnable(c) => PhaseOf(s, c) == Enabled
    case Unlock => true
    case _ => false
  }

  function Reached(start: int, es: seq<Event>): State {
    Run(Start(start), es)
  }

  function WrongTimes(start: int, es: seq<Event>): seq<int> {
    if |es| == 0 then []
    else
      var s, e := Reached(start, es[..|es| - 1]), es[|es| - 1];
      if Forgives(s, e) then []
      else if IsWrong(s, e) then WrongTimes(start, es[..|es| - 1]) + [e.now]
      else WrongTimes(start, es[..|es| - 1])
  }

  /** The counter is what its wrong codes make it. */
  ghost predicate CounterOf(counter: Option<Failures>, times: seq<int>) {
    if times == [] then counter == None
    else counter == Some(Failures(Streak(times), times[|times| - 1] + 900_000))
  }

  ghost predicate CounterIs(s: State) {
    CounterOf(s.failures, s.checks)
  }

  lemma CounterLocks(s: State, now: int)
    requires CounterIs(s)
    ensures Locked(s.failures, now) <==> LockedOut(s.checks, now)
  {
  }

  lemma FailCounts(counter: Option<Failures>, times: seq<int>, now: int)
    requires CounterOf(counter, times)
    ensures CounterOf(Some(AfterFailure(counter, now)), times + [now])
  {
    assert (times + [now])[..|times|] == times;
  }

  /** A step counts a wrong code, forgives them all, or leaves them. */
  lemma StepCounts(s: State, e: Event)
    requires CounterIs(s)
    ensures var t := Next(s, e);
            if Forgives(s, e) then t.checks == [] && t.failures == None
            else if IsWrong(s, e) then t.checks == s.checks + [e.now] && t.failures == Some(AfterFailure(s.failures, e.now))
            else t.checks == s.checks && t.failures == s.failures
  {
    if e.Verify? || e.VerifyFirst? || e.Settle? {
      CounterLocks(s, e.now);
    }
  }

  lemma StepKeepsCounter(s: State, e: Event)
    requires CounterIs(s)
    ensures CounterIs(Next(s, e))
    ensures Next(s, e).checks == if Forgives(s, e) then [] else if IsWrong(s, e) then s.checks + [e.now] else s.checks
  {
    StepCounts(s, e);
    if !Forgives(s, e) && IsWrong(s, e) {
      FailCounts(s.failures, s.checks, e.now);
    }
  }

  /** The codes counted are exactly the wrong ones since the last success, and they make the lock. */
  lemma {:induction false} CountedAreTheWrong(start: int, es: seq<Event>)
    ensures var s := Reached(start, es);
            && s.checks == WrongTimes(start, es) && CounterIs(s)
            && forall now :: Locked(s.failures, now) <==> LockedOut(WrongTimes(start, es), now)
  {
    var s := Reached(start, es);
    if |es| > 0 {
      CountedAreTheWrong(start, es[..|es| - 1]);
      StepKeepsCounter(Reached(start, es[..|es| - 1]), es[|es| - 1]);
    }
    forall now {
      CounterLocks(s, now);
    }
  }

  // ----- the row -----------------------------------------------------------------------------

  /** The conditional update goes through: the row's step is absent or behind. */
  predicate Advances(s: State, e: Event) {
    e.Advance? && PhaseOf(s, e.who).Advancing?
    && (s.row.lastStep.None? || s.row.lastStep.value < PhaseOf(s, e.who).step)
  }

  predicate Enrols(s: State, e: Event) {
    e.Enable? && PhaseOf(s, e.who).Enabling?
  }

  /** The steps accepted since the user was enrolled, the enrolment's first. */
  function AcceptedSteps(start: int, es: seq<Event>): seq<int> {
    if |es| == 0 then []
    else
      var s, e := Reached(start, es[..|es| - 1]), es[|es| - 1];
      var before := AcceptedSteps(start, es[..|es| - 1]);
      if e.ClearRow? then []
      else if Advances(s, e) then before + [PhaseOf(s, e.who).step]
      else if Enrols(s, e) && !IsEnrolled(start, es[..|es| - 1]) then [PhaseOf(s, e.who).step]
      else before
  }

  /** An enrolment ended since the user was last cleared. */
  predicate IsEnrolled(start: int, es: seq<Event>) {
    if |es| == 0 then false
    else
      var s, e := Reached(start, es[..|es| - 1]), es[|es| - 1];
      !e.ClearRow? && (Enrols(s, e) || IsEnrolled(start, es[..|es| - 1]))
  }

  /** The step last written to the row, by a login or an enrolment. */
  function LastWritten(start: int, es: seq<Event>): Option<int> {
    if |es| == 0 then None
    else
      var s, e := Reached(start, es[..|es| - 1]), es[|es| - 1];
      if e.ClearRow? then None
      else if Advances(s, e) || Enrols(s, e) then Some(PhaseOf(s, e.who).step)
      else LastWritten(start, es[..|es| - 1])
  }

  /** The row says what was last written, and the steps accepted are those the events accepted. */
  lemma {:induction false} RowIsWhatWasWritten(start: int, es: seq<Event>)
    ensures var s := Reached(start, es);
            && s.row == Row(IsEnrolled(start, es), LastWritten(start, es))
            && s.accepted == AcceptedSteps(start, es)
  {
    if |es| > 0 {
      RowIsWhatWasWritten(start, es[..|es| - 1]);
    }
  }

  // ----- what a call comes to ----------------------------------------------------------------

  /** A call looks at the row it read, and at the lock now. */
  lemma CodeDecides(s: State, c: Caller, step: Option<int>, now: int)
    requires CounterIs(s) && PhaseOf(s, c).Holding? && now >= s.clock
    ensures var row, locked := PhaseOf(s, c).row, LockedOut(s.checks, now);
            && PhaseOf(Next(s, Verify(c, step, now)), c) == (if !locked && After(step, row) then Advancing(step.value) else Idle)
            && PhaseOf(Next(s, TryRecovery(c, now)), c) == (if locked then Idle else Recovering)
            && PhaseOf(Next(s, VerifyFirst(c, step, now)), c) ==
               (if !locked && !row.enabled && step.Some? then Enabling(step.value) else Idle)
  {
    CounterLocks(s, now);
  }

  /** And is settled by what the row, or the list of recovery codes, then says. */
  lemma UpdateDecides(s: State, c: Caller, good: bool)
    ensures PhaseOf(s, c).Advancing? ==> PhaseOf(Next(s, Advance(c)), c) == Settling(Advances(s, Advance(c)))
    ensures PhaseOf(s, c) == Recovering ==> PhaseOf(Next(s, Recover(c, good)), c) == Settling(good)
    ensures PhaseOf(s, c) == Idle ==> PhaseOf(Next(s, Read(c)), c) == Holding(s.row)
  {
  }

  /** A settled call is over, whether it won or not; an enrolment ends in two parts. */
  lemma CallEnds(s: State, c: Caller, now: int)
    ensures PhaseOf(s, c).Settling? && now >= s.clock ==> PhaseOf(Next(s, Settle(c, now)), c) == Idle
    ensures PhaseOf(s, c).Enabling? ==> PhaseOf(Next(s, Enable(c)), c) == Enabled
    ensures PhaseOf(s, c) == Enabled ==> PhaseOf(Next(s, EndEnable(c)), c) == Idle
  {
  }

  /** Time never goes back, and is that of the last part that looked at it. */
  lemma ClockMoves(s: State, e: Event)
    ensures var looked := (e.Verify? && PhaseOf(s, e.who).Holding?) || (e.TryRecovery? && PhaseOf(s, e.who).Holding?)
                          || (e.VerifyFirst? && PhaseOf(s, e.who).Holding?) || (e.Settle? && PhaseOf(s, e.who).Settling?);
            Next(s, e).clock == if looked && e.now >= s.clock then e.now else s.clock
  {
  }
}
