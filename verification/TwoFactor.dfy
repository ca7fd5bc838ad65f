/**
 * The second factor of one user: the row with the last accepted step, and the counter of wrong
 * codes. Any number of logins and enrolments may be under way at once; each part of one that runs
 * without waiting is one step.
 */
module TwoFactor {
  import opened Options
  import Numbers

  type Caller = nat

  const MAX_FAILURES := 5
  const LOCK_MS := 900_000

  datatype Row = Row(enabled: bool, lastStep: Option<int>)

  /** The counter: `until` moves with every wrong code. */
  datatype Failures = Failures(count: nat, until: int)

  datatype Phase =
    | Idle
    | Holding(row: Row)       // has read the row
    | Advancing(step: int)    // a valid code for a newer step: about to advance the row
    | Recovering              // comparing with the recovery codes
    | Settling(won: bool)     // knows whether the code counts
    | Enabling(step: int)     // a first valid code: about to enable
    | Enabled

  datatype Event =
    | Read(who: Caller)
    | Verify(who: Caller, step: Option<int>, now: int)           // a six-digit code, and the step it matches
    | TryRecovery(who: Caller, now: int)
    | Advance(who: Caller)                                       // the conditional update
    | Recover(who: Caller, good: bool)
    | Settle(who: Caller, now: int)
    | VerifyFirst(who: Caller, step: Option<int>, now: int)      // enrolment's first code
    | Enable(who: Caller)
    | EndEnable(who: Caller)
    | Unlock                                                     // clearing drops the counter first
    | ClearRow

  /** `checks` holds the times of wrong codes since the counter was last dropped, `accepted` the
      steps accepted since the row was last cleared or enrolled, the enrolment step first. */
  datatype State = State(
    row: Row, failures: Option<Failures>, clock: int,
    checks: seq<int>, accepted: seq<int>, callers: map<Caller, Phase>)

  function Start(now: int): State {
    State(Row(false, None), None, now, [], [], map[])
  }

  function PhaseOf(s: State, c: Caller): Phase {
    if c in s.callers then s.callers[c] else Idle
  }

  function Go(s: State, c: Caller, phase: Phase): State {
    s.(callers := s.callers[c := phase])
  }

  // ----- the counter -------------------------------------------------------------------------

  predicate Locked(f: Option<Failures>, now: int) {
    f.Some? && f.value.count >= MAX_FAILURES && now < f.value.until
  }

  function AfterFailure(f: Option<Failures>, now: int): Failures {
    var again := f.None? || now >= f.value.until;
    Failures(if again then 1 else f.value.count + 1, now + LOCK_MS)
  }

  function Fail(s: State, now: int): State {
    s.(failures := Some(AfterFailure(s.failures, now)), checks := s.checks + [now], clock := now)
  }

  function DropCounter(s: State): State {
    s.(failures := None, checks := [])
  }

  // ----- one step ----------------------------------------------------------------------------

  predicate Newer(step: int, last: Option<int>) {
    step > if last.Some? then last.value else 0
  }

  function VerifyStep(s: State, c: Caller, step: Option<int>, now: int): State {
    match PhaseOf(s, c)
    case Holding(row) =>
      if now < s.clock then s
      else if Locked(s.failures, now) then Go(s, c, Idle).(clock := now)
      else if step.Some? && Newer(step.value, row.lastStep) then Go(s, c, Advancing(step.value)).(clock := now)
      else Go(Fail(s, now), c, Idle)
    case _ => s
  }

  function TryRecoveryStep(s: State, c: Caller, now: int): State {
    match PhaseOf(s, c)
    case Holding(row) =>
      if now < s.clock then s
      else Go(s, c, if Locked(s.failures, now) then Idle else Recovering).(clock := now)
    case _ => s
  }

  /** Only a row whose step is behind is advanced. */
  function AdvanceStep(s: State, c: Caller): State {
    match PhaseOf(s, c)
    case Advancing(step) =>
      if s.row.lastStep.None? || s.row.lastStep.value < step
      then Go(s, c, Settling(true)).(row := s.row.(lastStep := Some(step)), accepted := s.accepted + [step])
      else Go(s, c, Settling(false))
    case _ => s
  }

  function SettleStep(s: State, c: Caller, now: int): State {
    match PhaseOf(s, c)
    case Settling(won) =>
      if now < s.clock then s
      else if won then Go(DropCounter(s), c, Idle).(clock := now)
      else Go(Fail(s, now), c, Idle)
    case _ => s
  }

  function VerifyFirstStep(s: State, c: Caller, step: Option<int>, now: int): State {
    match PhaseOf(s, c)
    case Holding(row) =>
      if now < s.clock then s
      else if row.enabled || Locked(s.failures, now) then Go(s, c, Idle).(clock := now)
      else if step.Some? then Go(s, c, Enabling(step.value)).(clock := now)
      else Go(Fail(s, now), c, Idle)
    case _ => s
  }

  /** The enrolment's update is not conditional. A row that was enabled keeps its history. */
  function EnableStep(s: State, c: Caller): State {
    match PhaseOf(s, c)
    case Enabling(step) =>
      Go(s, c, Enabled).(
        row := Row(true, Some(step)),
        accepted := if s.row.enabled then s.accepted else [step])
    case _ => s
  }

  function Next(s: State, e: Event): State {
    match e
    case Read(c) => if PhaseOf(s, c) == Idle then Go(s, c, Holding(s.row)) else s
    case Verify(c, step, now) => VerifyStep(s, c, step, now)
    case TryRecovery(c, now) => TryRecoveryStep(s, c, now)
    case Advance(c) => AdvanceStep(s, c)
    case Recover(c, good) => if PhaseOf(s, c) == Recovering then Go(s, c, Settling(good)) else s
    case Settle(c, now) => SettleStep(s, c, now)
    case VerifyFirst(c, step, now) => VerifyFirstStep(s, c, step, now)
    case Enable(c) => EnableStep(s, c)
    case EndEnable(c) => if PhaseOf(s, c) == Enabled then Go(DropCounter(s), c, Idle) else s
    case Unlock => DropCounter(s)
    case ClearRow => s.(row := Row(false, None), accepted := [])
  }

  function Run(s: State, es: seq<Event>): State {
    if |es| == 0 then s else Next(Run(s, es[..|es| - 1]), es[|es| - 1])
  }

  // ----- steps are accepted once -------------------------------------------------------------

  ghost predicate Increasing(xs: seq<int>) {
    forall i, j :: 0 <= i < j < |xs| ==> xs[i] < xs[j]
  }

  /** The row's step is never behind what was accepted. */
  ghost predicate StepsSound(s: State) {
    && Increasing(s.accepted)
    && (s.accepted == [] <==> s.row.lastStep.None?)
    && (s.accepted != [] ==> s.accepted[|s.accepted| - 1] <= s.row.lastStep.value)
    && (s.row.enabled ==> s.row.lastStep.Some?)
  }

  /** No enrolment ends, with a step behind the last one accepted, while the user is enrolled. */
  predicate NoOlderEnable(s: State, e: Event) {
    e.Enable? && PhaseOf(s, e.who).Enabling? && s.row.enabled && s.accepted != [] ==>
      s.accepted[|s.accepted| - 1] <= PhaseOf(s, e.who).step
  }

  lemma StepKeepsSteps(s: State, e: Event)
    requires StepsSound(s) && NoOlderEnable(s, e)
    ensures StepsSound(Next(s, e))
  {
  }

  ghost predicate OrderlyEnables(s: State, es: seq<Event>) {
    |es| > 0 ==> OrderlyEnables(s, es[..|es| - 1]) && NoOlderEnable(Run(s, es[..|es| - 1]), es[|es| - 1])
  }

  lemma {:induction false} RunKeepsSteps(s: State, es: seq<Event>)
    requires StepsSound(s) && OrderlyEnables(s, es)
    ensures StepsSound(Run(s, es))
  {
    if |es| > 0 {
      RunKeepsSteps(s, es[..|es| - 1]);
      StepKeepsSteps(Run(s, es[..|es| - 1]), es[|es| - 1]);
    }
  }

  lemma Rising(xs: seq<int>, i: nat, j: nat)
    requires Increasing(xs) && i < j < |xs|
    ensures xs[i] < xs[j] && xs[0] <= xs[i]
  {
  }

  /**
   * However many logins are under way, the steps accepted while a user stays enrolled rise
   * strictly from the enrolment step, so none is accepted twice.
   */
  lemma {:induction false} NoStepTwice(now: int, es: seq<Event>, i: nat, j: nat)
    requires OrderlyEnables(Start(now), es) && i < j < |Run(Start(now), es).accepted|
    ensures var accepted := Run(Start(now), es).accepted; accepted[i] < accepted[j] && accepted[0] <= accepted[i]
  {
    RunKeepsSteps(Start(now), es);
    Rising(Run(Start(now), es).accepted, i, j);
  }

  lemma {:induction false} RunOne(s: State, es: seq<Event>, e: Event)
    ensures Run(s, es + [e]) == Next(Run(s, es), e)
  {
    assert (es + [e])[..|es|] == es;
  }

  /** A login that reads the row, sends the code of this step, and advances the row. */
  function Login(c: Caller, step: int, now: int): seq<Event> {
    [] + [Read(c)] + [Verify(c, Some(step), now)] + [Advance(c)]
  }

  lemma LoginAdvances(s: State, c: Caller, step: int, now: int)
    requires PhaseOf(s, c) == Idle && !Locked(s.failures, now) && now >= s.clock
    requires s.row.lastStep.Some? && step > s.row.lastStep.value
    ensures var t := Run(s, Login(c, step, now));
            && t.accepted == s.accepted + [step] && t.row == s.row.(lastStep := Some(step))
            && t.failures == s.failures && t.clock == now
            && (forall d: Caller :: d != c ==> PhaseOf(t, d) == PhaseOf(s, d))
  {
    RunOne(s, [], Read(c));
    RunOne(s, [] + [Read(c)], Verify(c, Some(step), now));
    RunOne(s, [] + [Read(c)] + [Verify(c, Some(step), now)], Advance(c));
    var s1 := Next(s, Read(c));
    assert PhaseOf(s1, c) == Holding(s.row);
    var s2 := Next(s1, Verify(c, Some(step), now));
    assert PhaseOf(s2, c) == Advancing(step);
  }

  /** Some step was accepted a second time. */
  ghost predicate AcceptedTwice(s: State) {
    exists i, j :: 0 <= i < j < |s.accepted| && s.accepted[i] == s.accepted[j]
  }

  /** With no older enrolment ending from here on, a step can still be accepted twice. */
  ghost predicate CanReplay(s: State) {
    exists more :: OrderlyEnables(s, more) && AcceptedTwice(Run(s, more))
  }

  lemma {:induction false} WithoutEnablesOrderly(s: State, es: seq<Event>)
    requires forall i :: 0 <= i < |es| ==> !es[i].Enable?
    ensures OrderlyEnables(s, es)
  {
    if |es| > 0 {
      WithoutEnablesOrderly(s, es[..|es| - 1]);
    }
  }

  /** A time from which the counter does not stand in the way. */
  function Unlocked(s: State): (now: int)
    ensures now >= s.clock && !Locked(s.failures, now)
  {
    if s.failures.Some? && s.failures.value.until > s.clock then s.failures.value.until else s.clock
  }

  /** When the row has fallen behind the last step accepted, that step is accepted again. */
  lemma FallenBehindReplays(s: State)
    requires s.accepted != [] && s.row.lastStep.Some? && s.row.lastStep.value < s.accepted[|s.accepted| - 1]
    ensures CanReplay(s)
  {
    var n := |s.accepted| - 1;
    var last, now := s.accepted[n], Unlocked(s);
    var d := Numbers.Unused(s.callers.Keys);
    LoginAdvances(s, d, last, now);
    WithoutEnablesOrderly(s, Login(d, last, now));
    var t := Run(s, Login(d, last, now));
    assert t.accepted[n] == last && t.accepted[n + 1] == last;
    assert AcceptedTwice(t);
  }

  lemma SoundNeverReplays(s: State)
    requires StepsSound(s)
    ensures !CanReplay(s)
  {
    forall more | OrderlyEnables(s, more) ensures !AcceptedTwice(Run(s, more)) {
      RunKeepsSteps(s, more);
    }
  }

  /**
   * The condition is exact: after any orderly run, with the user enrolled and another enrolment
   * about to end, its end lets a step be accepted twice, with nothing disorderly later, if and
   * only if its step is behind the last one accepted.
   */
  lemma {:induction false} ReplaysIffOlder(now: int, es: seq<Event>, c: Caller)
    requires OrderlyEnables(Start(now), es)
    requires Run(Start(now), es).row.enabled && PhaseOf(Run(Start(now), es), c).Enabling?
    ensures var s := Run(Start(now), es);
            && s.accepted != []
            && (PhaseOf(s, c).step < s.accepted[|s.accepted| - 1] <==> CanReplay(Next(s, Enable(c))))
  {
    var s := Run(Start(now), es);
    RunKeepsSteps(Start(now), es);
    if PhaseOf(s, c).step < s.accepted[|s.accepted| - 1] {
      FallenBehindReplays(Next(s, Enable(c)));
    } else {
      StepKeepsSteps(s, Enable(c));
      SoundNeverReplays(Next(s, Enable(c)));
    }
  }

  function Enrol(c: Caller, step: int, now: int): seq<Event> {
    [] + [Read(c)] + [VerifyFirst(c, Some(step), now)]
  }

  lemma EnrolWaits(s: State, c: Caller, step: int, now: int)
    requires PhaseOf(s, c) == Idle && !s.row.enabled && s.failures.None? && now >= s.clock
    ensures Run(s, Enrol(c, step, now)) == Go(Go(s, c, Holding(s.row)), c, Enabling(step)).(clock := now)
  {
    RunOne(s, [], Read(c));
    RunOne(s, [] + [Read(c)], VerifyFirst(c, Some(step), now));
    var s1 := Go(s, c, Holding(s.row));
    assert Next(s, Read(c)) == s1 && PhaseOf(s1, c) == Holding(s.row);
  }

  lemma {:induction false} RunConcat(s: State, a: seq<Event>, b: seq<Event>)
    ensures Run(s, a + b) == Run(Run(s, a), b)
  {
    if |b| == 0 {
      assert a + b == a;
    } else {
      RunConcat(s, a, b[..|b| - 1]);
      assert (a + b)[..|a + b| - 1] == a + b[..|b| - 1];
    }
  }

  /** Two enrolments begun at once, the first of which has ended. */
  function TwoEnrolments(step: int, now: int): seq<Event> {
    Enrol(0, step, now) + Enrol(1, step, now) + [Enable(0)]
  }

  lemma TwoEnrolmentsEnd(step: int, now: int)
    ensures var s := Run(Start(now), TwoEnrolments(step, now));
            && s.row == Row(true, Some(step)) && s.accepted == [step] && s.failures == None && s.clock == now
            && PhaseOf(s, 1) == Enabling(step) && PhaseOf(s, 2) == Idle && PhaseOf(s, 3) == Idle
  {
    var s0 := Start(now);
    var s1 := Run(s0, Enrol(0, step, now));
    EnrolWaits(s0, 0, step, now);
    EnrolWaits(s1, 1, step, now);
    RunConcat(s0, Enrol(0, step, now), Enrol(1, step, now));
    RunOne(s0, Enrol(0, step, now) + Enrol(1, step, now), Enable(0));
  }

  /** Such an enrolment can come about: a login comes between the ends of the two. */
  lemma OlderEnableHappens(step: int, now: int)
    ensures var s := Run(Start(now), TwoEnrolments(step, now) + Login(2, step + 1, now));
            && s.row.enabled && PhaseOf(s, 1) == Enabling(step) && s.accepted == [step, step + 1]
            && CanReplay(Next(s, Enable(1)))
  {
    TwoEnrolmentsEnd(step, now);
    LoginAdvances(Run(Start(now), TwoEnrolments(step, now)), 2, step + 1, now);
    RunConcat(Start(now), TwoEnrolments(step, now), Login(2, step + 1, now));
    FallenBehindReplays(Next(Run(Start(now), TwoEnrolments(step, now) + Login(2, step + 1, now)), Enable(1)));
  }

  // ----- at most five wrong codes in any quarter of an hour ----------------------------------

  ghost predicate Sorted(h: seq<int>) {
    forall i, j :: 0 <= i < j < |h| ==> h[i] <= h[j]
  }

  /** Six wrong codes span at least the lock's time. */
  ghost predicate Spread(h: seq<int>) {
    forall i, j :: 0 <= i && j == i + MAX_FAILURES && j < |h| ==> h[i] + LOCK_MS <= h[j]
  }

  /** The counter counts the latest wrong codes, all the earlier ones being long before them. */
  ghost predicate CounterSound(f: Option<Failures>, h: seq<int>) {
    && Sorted(h) && Spread(h)
    && (f.None? <==> h == [])
    && (f.Some? ==>
          && 1 <= f.value.count <= |h|
          && f.value.until == h[|h| - 1] + LOCK_MS
          && forall i :: 0 <= i < |h| - f.value.count ==> h[i] + LOCK_MS <= h[|h| - f.value.count])
  }

  ghost predicate LockSound(s: State) {
    CounterSound(s.failures, s.checks) && (s.checks != [] ==> s.checks[|s.checks| - 1] <= s.clock)
  }

  /** Fewer than five of the wrong codes so far are within the lock's time of now. */
  predicate RoomFor(h: seq<int>, now: int) {
    |h| >= MAX_FAILURES ==> h[|h| - MAX_FAILURES] + LOCK_MS <= now
  }

  /** Whoever is not locked out has room for a wrong code. */
  lemma UnlockedHasRoom(f: Option<Failures>, h: seq<int>, now: int)
    requires CounterSound(f, h) && !Locked(f, now) && (h != [] ==> h[|h| - 1] <= now)
    ensures RoomFor(h, now)
  {
    if |h| >= MAX_FAILURES {
      var i := |h| - MAX_FAILURES;
      if now < f.value.until {
        assert h[i] + LOCK_MS <= h[|h| - f.value.count];
      }
    }
  }

  lemma FailureSpreads(h: seq<int>, now: int)
    requires Sorted(h) && Spread(h) && (h != [] ==> h[|h| - 1] <= now)
    ensures Sorted(h + [now])
    ensures Spread(h + [now]) <==> RoomFor(h, now)
  {
    var more := h + [now];
    if RoomFor(h, now) {
      forall i, j | 0 <= i && j == i + MAX_FAILURES && j < |more| ensures more[i] + LOCK_MS <= more[j] {
        if j < |h| {
          assert h[i] + LOCK_MS <= h[j];
        }
      }
    } else {
      var i, j := |h| - MAX_FAILURES, |h|;
      assert j == i + MAX_FAILURES && !(more[i] + LOCK_MS <= more[j]);
    }
  }

  lemma FailureKeeps(f: Option<Failures>, h: seq<int>, now: int)
    requires CounterSound(f, h) && RoomFor(h, now) && (h != [] ==> h[|h| - 1] <= now)
    ensures CounterSound(Some(AfterFailure(f, now)), h + [now])
  {
    FailureSpreads(h, now);
    var more, count := h + [now], AfterFailure(f, now).count;
    forall i | 0 <= i < |more| - count ensures more[i] + LOCK_MS <= more[|more| - count] {
      if count == 1 {
        assert h[i] <= h[|h| - 1];
      }
    }
  }

  /** A code that was waited for is counted wrong only when there is room for it. */
  predicate Timely(s: State, e: Event) {
    e.Settle? && PhaseOf(s, e.who) == Settling(false) && e.now >= s.clock ==> RoomFor(s.checks, e.now)
  }

  /** A step counts a wrong code, drops the counter, or leaves both alone. */
  lemma CountsOrNot(s: State, e: Event)
    ensures var t := Next(s, e);
            || (t.checks == s.checks && t.failures == s.failures && t.clock >= s.clock)
            || (t.checks == [] && t.failures == None)
            || Counts(s, e)
  {
  }

  /** A code is counted wrong at the end of a wait, or by a call that is not locked out. */
  predicate Counts(s: State, e: Event) {
    (e.Settle? || e.Verify? || e.VerifyFirst?) && e.now >= s.clock &&
    var t := Next(s, e);
    && t.checks == s.checks + [e.now] && t.failures == Some(AfterFailure(s.failures, e.now)) && t.clock == e.now
    && ((e.Settle? && PhaseOf(s, e.who) == Settling(false)) || !Locked(s.failures, e.now))
  }

  lemma {:induction false} StepKeepsLock(s: State, e: Event)
    requires LockSound(s) && Timely(s, e)
    ensures LockSound(Next(s, e))
  {
    CountsOrNot(s, e);
    if Counts(s, e) {
      if !Locked(s.failures, e.now) {
        UnlockedHasRoom(s.failures, s.checks, e.now);
      }
      FailureKeeps(s.failures, s.checks, e.now);
    }
  }

  lemma UntimelyCounts(s: State, e: Event)
    requires !Timely(s, e)
    ensures Next(s, e).checks == s.checks + [e.now] && e.now >= s.clock && !RoomFor(s.checks, e.now)
  {
  }

  ghost predicate TimelyRun(s: State, es: seq<Event>) {
    |es| > 0 ==> TimelyRun(s, es[..|es| - 1]) && Timely(Run(s, es[..|es| - 1]), es[|es| - 1])
  }

  lemma {:induction false} RunKeepsLock(now: int, es: seq<Event>)
    requires TimelyRun(Start(now), es)
    ensures LockSound(Run(Start(now), es))
  {
    if |es| > 0 {
      var front := es[..|es| - 1];
      RunKeepsLock(now, front);
      StepKeepsLock(Run(Start(now), front), es[|es| - 1]);
    }
  }

  /** How many wrong codes fall in the quarter of an hour from here. */
  function InWindow(h: seq<int>, from: int): nat {
    if |h| == 0 then 0
    else InWindow(h[..|h| - 1], from) + if from <= h[|h| - 1] < from + LOCK_MS then 1 else 0
  }

  lemma {:induction false} FiveInARow(h: seq<int>, from: int, k: nat)
    requires forall i :: 0 <= i < |h| ==> (i < k ==> h[i] < from) && (i >= k + MAX_FAILURES ==> from + LOCK_MS <= h[i])
    ensures InWindow(h, from) <= if |h| <= k then 0 else if |h| <= k + MAX_FAILURES then |h| - k else MAX_FAILURES
  {
    if |h| > 0 {
      FiveInARow(h[..|h| - 1], from, k);
    }
  }

  lemma WindowHoldsFive(h: seq<int>, from: int)
    requires Sorted(h) && Spread(h)
    ensures InWindow(h, from) <= MAX_FAILURES
  {
    var k := 0;
    while k < |h| && h[k] < from
      invariant k <= |h| && forall i :: 0 <= i < k ==> h[i] < from
    {
      k := k + 1;
    }
    assert k + MAX_FAILURES < |h| ==> h[k] + LOCK_MS <= h[k + MAX_FAILURES];
    forall i | k + MAX_FAILURES <= i < |h| ensures from + LOCK_MS <= h[i] {
    }
    FiveInARow(h, from, k);
  }

  /** No quarter of an hour holds more than five. */
  ghost predicate WithinLimit(h: seq<int>) {
    forall from :: InWindow(h, from) <= MAX_FAILURES
  }

  lemma {:induction false} SixInARow(h: seq<int>, from: int, n: nat)
    requires n <= |h| && forall i :: |h| - n <= i < |h| ==> from <= h[i] < from + LOCK_MS
    ensures InWindow(h, from) >= n
  {
    if n > 0 {
      SixInARow(h[..|h| - 1], from, n - 1);
    }
  }

  /** Counting one more keeps the limit exactly when there is room. */
  lemma LimitNeedsRoom(h: seq<int>, now: int)
    requires Sorted(h) && Spread(h) && (h != [] ==> h[|h| - 1] <= now)
    ensures WithinLimit(h + [now]) <==> RoomFor(h, now)
  {
    FailureSpreads(h, now);
    if RoomFor(h, now) {
      forall from ensures InWindow(h + [now], from) <= MAX_FAILURES {
        WindowHoldsFive(h + [now], from);
      }
    } else {
      SixInARow(h + [now], h[|h| - MAX_FAILURES], MAX_FAILURES + 1);
    }
  }

  /**
   * Over runs of any length no quarter of an hour holds more than five wrong codes since the last
   * success, as long as every code that was waited for is counted wrong only when there is room.
   */
  lemma {:induction false} AtMostFiveInAnyWindow(now: int, es: seq<Event>)
    requires TimelyRun(Start(now), es)
    ensures WithinLimit(Run(Start(now), es).checks)
  {
    RunKeepsLock(now, es);
    SoundIsWithinLimit(Run(Start(now), es));
  }

  lemma SoundIsWithinLimit(s: State)
    requires LockSound(s)
    ensures WithinLimit(s.checks)
  {
    forall from ensures InWindow(s.checks, from) <= MAX_FAILURES {
      WindowHoldsFive(s.checks, from);
    }
  }

  lemma UntimelyBreaks(s: State, e: Event)
    requires LockSound(s) && !Timely(s, e)
    ensures !WithinLimit(Next(s, e).checks)
  {
    UntimelyCounts(s, e);
    LimitNeedsRoom(s.checks, e.now);
  }

  /** The condition is exact at every step: after such a run the limit breaks where it does. */
  lemma {:induction false} LimitBreaksIffUntimely(now: int, es: seq<Event>, e: Event)
    requires TimelyRun(Start(now), es)
    ensures WithinLimit(Next(Run(Start(now), es), e).checks) <==> Timely(Run(Start(now), es), e)
  {
    var s := Run(Start(now), es);
    RunKeepsLock(now, es);
    if Timely(s, e) {
      StepKeepsLock(s, e);
      SoundIsWithinLimit(Next(s, e));
    } else {
      UntimelyBreaks(s, e);
    }
  }

  /** Every state on the way is within the limit. */
  ghost predicate AlwaysWithinLimit(s: State, es: seq<Event>) {
    WithinLimit(Run(s, es).checks) && (|es| > 0 ==> AlwaysWithinLimit(s, es[..|es| - 1]))
  }

  /** And so over whole runs: the limit is kept all the way exactly by the runs that meet it. */
  lemma {:induction false} LimitKeptIffTimely(now: int, es: seq<Event>)
    ensures AlwaysWithinLimit(Start(now), es) <==> TimelyRun(Start(now), es)
  {
    if |es| == 0 {
      AtMostFiveInAnyWindow(now, es);
    } else {
      var front := es[..|es| - 1];
      LimitKeptIffTimely(now, front);
      if TimelyRun(Start(now), front) {
        LimitBreaksIffUntimely(now, front, es[|es| - 1]);
      }
    }
  }

  // ----- calls run one at a time -------------------------------------------------------------

  predicate By(e: Event, c: Caller) {
    !e.Unlock? && !e.ClearRow? && e.who == c
  }

  /** No other call is under way when a call takes a step. */
  ghost predicate Alone(s: State, e: Event) {
    forall c: Caller :: !By(e, c) && !e.Unlock? && !e.ClearRow? ==> PhaseOf(s, c) == Idle
  }

  ghost predicate SerialRun(s: State, es: seq<Event>) {
    |es| > 0 ==> SerialRun(s, es[..|es| - 1]) && Alone(Run(s, es[..|es| - 1]), es[|es| - 1])
  }

  predicate Waits(phase: Phase) {
    phase.Advancing? || phase.Recovering? || phase.Settling?
  }

  /** While a call waits for its code, the user is not locked out. */
  ghost predicate OpenWhileWaiting(s: State) {
    forall c: Caller :: Waits(PhaseOf(s, c)) ==> !Locked(s.failures, s.clock)
  }

  lemma SerialStep(s: State, e: Event)
    requires LockSound(s) && OpenWhileWaiting(s) && Alone(s, e)
    ensures OpenWhileWaiting(Next(s, e)) && Timely(s, e)
  {
    var t := Next(s, e);
    forall c: Caller | Waits(PhaseOf(t, c)) ensures !Locked(t.failures, t.clock) {
      assert Waits(PhaseOf(s, c)) ==> !Locked(s.failures, s.clock);
      if By(e, c) {
        OwnStep(s, e);
      } else {
        OthersStand(s, e, c);
      }
    }
    if e.Settle? && e.now >= s.clock && PhaseOf(s, e.who) == Settling(false) {
      assert Waits(PhaseOf(s, e.who));
      UnlockedHasRoom(s.failures, s.checks, e.now);
    }
  }

  lemma OthersStand(s: State, e: Event, d: Caller)
    requires !By(e, d)
    ensures PhaseOf(Next(s, e), d) == PhaseOf(s, d)
  {
  }

  lemma OwnStep(s: State, e: Event)
    requires !e.Unlock? && !e.ClearRow?
    requires Waits(PhaseOf(s, e.who)) ==> !Locked(s.failures, s.clock)
    ensures Waits(PhaseOf(Next(s, e), e.who)) ==> !Locked(Next(s, e).failures, Next(s, e).clock)
  {
  }

  lemma {:induction false} SerialRunIsTimely(now: int, es: seq<Event>)
    requires SerialRun(Start(now), es)
    ensures TimelyRun(Start(now), es) && OpenWhileWaiting(Run(Start(now), es))
  {
    if |es| > 0 {
      var front := es[..|es| - 1];
      SerialRunIsTimely(now, front);
      RunKeepsLock(now, front);
      SerialStep(Run(Start(now), front), es[|es| - 1]);
    }
  }

  /** With calls run one at a time nothing more is needed. */
  lemma {:induction false} FiveWhenOneAtATime(now: int, es: seq<Event>)
    requires SerialRun(Start(now), es)
    ensures WithinLimit(Run(Start(now), es).checks)
  {
    SerialRunIsTimely(now, es);
    AtMostFiveInAnyWindow(now, es);
  }

  // ----- wrong authenticator codes at once ---------------------------------------------------

  /** Calls that read the row and send six digits no step matches. */
  predicate WrongCodes(es: seq<Event>) {
    forall i :: 0 <= i < |es| ==> es[i].Read? || (es[i].Verify? && es[i].step.None?)
  }

  lemma {:induction false} WrongCodesAreTimely(s: State, es: seq<Event>)
    requires WrongCodes(es)
    ensures TimelyRun(s, es)
  {
    if |es| > 0 {
      WrongCodesAreTimely(s, es[..|es| - 1]);
    }
  }

  /** They are counted without a wait, so the limit holds however many calls run at once. */
  lemma {:induction false} WrongCodesAtOnceAreLimited(now: int, es: seq<Event>)
    requires WrongCodes(es)
    ensures WithinLimit(Run(Start(now), es).checks)
  {
    WrongCodesAreTimely(Start(now), es);
    AtMostFiveInAnyWindow(now, es);
  }

  // ----- recovery codes guessed at once ------------------------------------------------------

  /** A call that reads the row and compares a wrong recovery code. */
  function Guess(c: Caller, now: int): seq<Event> {
    [] + [Read(c)] + [TryRecovery(c, now)] + [Recover(c, false)]
  }

  function Guesses(n: nat, now: int): seq<Event> {
    if n == 0 then [] else Guesses(n - 1, now) + Guess(n - 1, now)
  }

  function Settles(n: nat, now: int): seq<Event> {
    if n == 0 then [] else Settles(n - 1, now) + [Settle(n - 1, now)]
  }

  lemma GuessWaits(s: State, c: Caller, now: int)
    requires PhaseOf(s, c) == Idle && s.failures == None && s.clock == now
    ensures var t := Run(s, Guess(c, now));
            t == s.(callers := t.callers) && PhaseOf(t, c) == Settling(false)
            && forall d: Caller :: d != c ==> PhaseOf(t, d) == PhaseOf(s, d)
  {
    RunOne(s, [], Read(c));
    RunOne(s, [] + [Read(c)], TryRecovery(c, now));
    RunOne(s, [] + [Read(c)] + [TryRecovery(c, now)], Recover(c, false));
    var s1 := Next(s, Read(c));
    assert PhaseOf(s1, c) == Holding(s.row);
    var s2 := Next(s1, TryRecovery(c, now));
    assert PhaseOf(s2, c) == Recovering;
  }

  lemma {:induction false} GuessesWait(n: nat, now: int)
    ensures var s := Run(Start(now), Guesses(n, now));
            && s.failures == None && s.checks == [] && s.clock == now
            && forall c: Caller :: PhaseOf(s, c) == if c < n then Settling(false) else Idle
  {
    if n > 0 {
      GuessesWait(n - 1, now);
      GuessWaits(Run(Start(now), Guesses(n - 1, now)), n - 1, now);
      RunConcat(Start(now), Guesses(n - 1, now), Guess(n - 1, now));
    }
  }

  lemma {:induction false} SettlesCount(s: State, n: nat, now: int)
    requires s.checks == [] && s.clock == now && forall c: Caller :: c < n ==> PhaseOf(s, c) == Settling(false)
    ensures var t := Run(s, Settles(n, now));
            InWindow(t.checks, now) == n && t.clock == now
            && forall c: Caller :: c >= n ==> PhaseOf(t, c) == PhaseOf(s, c)
  {
    if n > 0 {
      SettlesCount(s, n - 1, now);
      var t := Run(s, Settles(n - 1, now));
      RunOne(s, Settles(n - 1, now), Settle(n - 1, now));
      assert (t.checks + [now])[..|t.checks|] == t.checks;
    }
  }

  /**
   * With calls at once the limit does not hold: any number of recovery codes can be counted wrong
   * in the same instant, since each is compared after the lock was looked at.
   */
  lemma GuessesAtOnceAreNotLimited(n: nat, now: int)
    ensures InWindow(Run(Start(now), Guesses(n, now) + Settles(n, now)).checks, now) == n
  {
    GuessesWait(n, now);
    SettlesCount(Run(Start(now), Guesses(n, now)), n, now);
    RunConcat(Start(now), Guesses(n, now), Settles(n, now));
  }
}
