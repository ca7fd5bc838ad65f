/**
 * The second factor's calls, over one user's row and the counters of wrong codes. At every wait
 * other calls may take any number of steps; each part that runs without waiting is shown to be
 * the corresponding step of module TwoFactor.
 */
module TwoFactorService {
  import opened Options
  import opened TwoFactor
  import History = TwoFactorHistory

  type UserId = string

  ghost predicate OthersOnly(before: seq<Event>, after: seq<Event>, me: Caller) {
    before <= after && forall i :: |before| <= i < |after| ==> !By(after[i], me)
  }

  /** The protocol is in this state after these steps. */
  ghost predicate Reached(start: int, trace: seq<Event>, s: State) {
    forall es :: es == trace ==> Run(Start(start), es) == s
  }

  lemma ReachedIs(start: int, trace: seq<Event>, s: State)
    ensures Reached(start, trace, s) <==> s == Run(Start(start), trace)
  {
  }

  lemma ReachedNext(start: int, trace: seq<Event>, s: State, e: Event)
    requires Reached(start, trace, s)
    ensures Reached(start, trace + [e], Next(s, e))
  {
    ReachedIs(start, trace, s);
    assert (trace + [e])[..|trace|] == trace;
    ReachedIs(start, trace + [e], Next(s, e));
  }

  lemma {:induction false} OthersLeave(start: int, before: seq<Event>, after: seq<Event>, me: Caller)
    requires OthersOnly(before, after, me)
    ensures PhaseOf(Run(Start(start), after), me) == PhaseOf(Run(Start(start), before), me)
  {
    if |before| < |after| {
      OthersLeave(start, before, after[..|after| - 1], me);
      OthersStand(Run(Start(start), after[..|after| - 1]), after[|after| - 1], me);
    } else {
      assert before == after;
    }
  }

  /** At this point of a run the caller advanced a row whose step was absent or behind. */
  ghost predicate AdvancedAt(start: int, trace: seq<Event>, n: nat, me: Caller, step: int) {
    n < |trace| && trace[n] == Advance(me) &&
    var last := Run(Start(start), trace[..n]).row.lastStep;
    last.None? || last.value < step
  }

  lemma AdvancedStays(start: int, trace: seq<Event>, more: seq<Event>, n: nat, me: Caller, step: int)
    requires AdvancedAt(start, trace, n, me, step) && trace <= more
    ensures AdvancedAt(start, more, n, me, step)
  {
    assert more[..n] == trace[..n];
  }

  /** At this point of a run the caller enabled the row with the step its first code matched. */
  ghost predicate EnabledAt(start: int, trace: seq<Event>, n: nat, me: Caller, step: int) {
    n < |trace| && trace[n] == Enable(me) && Next(Run(Start(start), trace[..n]), trace[n]).row == Row(true, Some(step))
  }

  lemma EnabledStays(start: int, trace: seq<Event>, more: seq<Event>, n: nat, me: Caller, step: int)
    requires EnabledAt(start, trace, n, me, step) && trace <= more
    ensures EnabledAt(start, more, n, me, step)
  {
    assert more[..n] == trace[..n];
  }

  /** At this point of a run the caller, about to have its code looked at, was locked out. */
  ghost predicate LockedOutAt(start: int, trace: seq<Event>, n: nat, me: Caller) {
    n < |trace| && (trace[n].Verify? || trace[n].TryRecovery? || trace[n].VerifyFirst?) && trace[n].who == me
    && History.LockedOut(Run(Start(start), trace[..n]).checks, trace[n].now)
  }

  /** At this point the caller's step was no longer ahead of the row. */
  ghost predicate OvertakenAt(start: int, trace: seq<Event>, n: nat, me: Caller, step: int) {
    n < |trace| && trace[n] == Advance(me) &&
    var last := Run(Start(start), trace[..n]).row.lastStep;
    last.Some? && last.value >= step
  }

  lemma ReasonStays(start: int, trace: seq<Event>, more: seq<Event>, n: nat, me: Caller, step: int)
    requires trace <= more
    ensures LockedOutAt(start, trace, n, me) ==> LockedOutAt(start, more, n, me)
    ensures OvertakenAt(start, trace, n, me, step) ==> OvertakenAt(start, more, n, me, step)
  {
    if n < |trace| {
      assert more[..n] == trace[..n];
    }
  }

  class Service {
    const user: UserId
    const start: int
    var row: Row
    var counters: map<UserId, Failures>
    var clock: int
    ghost var trace: seq<Event>
    ghost var view: State

    function Counter(): Option<Failures>
      reads this
    {
      if user in counters then Some(counters[user]) else None
    }

    ghost predicate Valid()
      reads this
    {
      && row == view.row && Counter() == view.failures && clock == view.clock
      && Reached(start, trace, view)
    }

    ghost predicate Stands(me: Caller, phase: Phase)
      reads this
    {
      Valid() && PhaseOf(view, me) == phase
    }

    constructor (user: UserId, start: int)
      ensures Valid() && trace == []
    {
      this.user, this.start := user, start;
      row, counters, clock, trace, view := Row(false, None), map[], start, [], Start(start);
      new;
      ReachedIs(start, [], Start(start));
    }

    /** An await: anything other calls may do happens here, and nothing else is known. */
    method Others(ghost me: Caller)
      requires Valid()
      modifies this
      ensures Valid() && OthersOnly(old(trace), trace, me)
    {
    }

    method Await(ghost me: Caller)
      requires Valid()
      modifies this
      ensures Valid() && old(trace) <= trace && PhaseOf(view, me) == old(PhaseOf(view, me))
      ensures OthersOnly(old(trace), trace, me)
    {
      Others(me);
      ReachedIs(start, old(trace), old(view));
      ReachedIs(start, trace, view);
      OthersLeave(start, old(trace), trace, me);
    }

    ghost method Took(e: Event)
      requires Reached(start, trace, view)
      modifies this`trace, this`view
      ensures trace == old(trace) + [e] && view == Next(old(view), e) && Reached(start, trace, view)
    {
      ReachedNext(start, trace, view, e);
      trace, view := trace + [e], Next(view, e);
    }

    /** The counter locks exactly after five wrong codes in a row. */
    lemma LockIsItsCodes(now: int)
      requires Valid()
      ensures Locked(Counter(), now) <==> History.LockedOut(view.checks, now)
    {
      ReachedIs(start, trace, view);
      History.CountedAreTheWrong(start, trace);
      History.CounterLocks(view, now);
    }

    // ----- the counter -----

    method IsLocked() returns (locked: bool)
      ensures locked == Locked(Counter(), clock)
    {
      locked := user in counters && counters[user].count >= MAX_FAILURES && clock < counters[user].until;
    }

    /** Counts a wrong code; no other user's counter is touched. */
    method CountFailure()
      modifies this`counters
      ensures counters == old(counters)[user := AfterFailure(old(Counter()), clock)]
    {
      var again := user !in counters || clock >= counters[user].until;
      counters := counters[user := Failures(if again then 1 else counters[user].count + 1, clock + LOCK_MS)];
    }

    // ----- login -----

    /** Reads the row a login then works with. */
    method ReadRow(ghost me: Caller) returns (r: Row)
      requires Stands(me, Idle)
      modifies this`trace, this`view
      ensures Stands(me, Holding(r)) && r == row && trace == old(trace) + [Read(me)]
    {
      r := row;
      Took(Read(me));
    }

    /**
     * A six-digit code, and the step it matches: wrong at once, or about to advance the row. The
     * clock has moved on by `ticks`.
     */
    method CheckCode(ghost me: Caller, held: Row, step: Option<int>, ticks: nat) returns (goOn: bool)
      requires Stands(me, Holding(held))
      modifies this
      ensures goOn <==> !History.LockedOut(old(view.checks), clock) && History.After(step, held)
      ensures Stands(me, if goOn then Advancing(step.value) else Idle)
      ensures clock == old(clock) + ticks && trace == old(trace) + [Verify(me, step, clock)] && row == old(row)
      ensures view.checks == if History.LockedOut(old(view.checks), clock) || goOn then old(view.checks)
                             else old(view.checks) + [clock]
      ensures History.LockedOut(old(view.checks), clock) ==> LockedOutAt(start, trace, |old(trace)|, me)
    {
      LockIsItsCodes(clock + ticks);
      ReachedIs(start, trace, view);
      clock := clock + ticks;
      ghost var now := clock;
      var locked := IsLocked();
      goOn := !locked && step.Some? && step.value > (if held.lastStep.Some? then held.lastStep.value else 0);
      if !locked && !goOn {
        CountFailure();
      }
      Took(Verify(me, step, now));
      assert trace[..|old(trace)|] == old(trace);
    }

    /** updateMany: only a row whose step is behind is advanced. */
    method AdvanceRow(ghost me: Caller, step: int) returns (count: nat)
      requires Stands(me, Advancing(step))
      modifies this
      ensures Stands(me, Settling(count == 1)) && old(trace) <= trace
      ensures count == 1 ==> AdvancedAt(start, trace, |old(trace)|, me, step)
      ensures count != 1 ==> OvertakenAt(start, trace, |old(trace)|, me, step)
      ensures count == 1 <==> old(row).lastStep.None? || old(row).lastStep.value < step
      ensures row == if count == 1 then old(row).(lastStep := Some(step)) else old(row)
    {
      ReachedIs(start, trace, view);
      count := if row.lastStep.None? || row.lastStep.value < step then 1 else 0;
      if count == 1 {
        row := row.(lastStep := Some(step));
      }
      Took(Advance(me));
      assert trace[..|old(trace)|] == old(trace);
    }

    method SettleCode(ghost me: Caller, won: bool, ticks: nat)
      requires Stands(me, Settling(won))
      modifies this
      ensures Stands(me, Idle) && old(trace) <= trace && row == old(row)
      ensures won ==> Counter() == None
      ensures view.checks == if won then [] else old(view.checks) + [clock]
    {
      clock := clock + ticks;
      ghost var now := clock;
      if won {
        counters := counters - {user};
      } else {
        CountFailure();
      }
      Took(Settle(me, now));
    }

    method TryRecoveryCodes(ghost me: Caller, ghost held: Row, ticks: nat) returns (goOn: bool)
      requires Stands(me, Holding(held))
      modifies this
      ensures Stands(me, if goOn then Recovering else Idle) && old(trace) <= trace && view.checks == old(view.checks)
      ensures goOn <==> !History.LockedOut(old(view.checks), clock)
      ensures !goOn ==> LockedOutAt(start, trace, |old(trace)|, me)
    {
      LockIsItsCodes(clock + ticks);
      ReachedIs(start, trace, view);
      clock := clock + ticks;
      ghost var now := clock;
      var locked := IsLocked();
      goOn := !locked;
      Took(TryRecovery(me, now));
      assert trace[..|old(trace)|] == old(trace);
    }

    ghost method Compared(me: Caller, good: bool)
      requires Stands(me, Recovering)
      modifies this`trace, this`view
      ensures Stands(me, Settling(good)) && old(trace) <= trace
    {
      Took(Recover(me, good));
    }

    /** A six-digit code: let in exactly when this call advanced the row. */
    method LoginByCode(ghost me: Caller, held: Row, step: Option<int>, ticks: nat, later: nat) returns (ok: bool)
      requires Stands(me, Holding(held))
      modifies this
      ensures Stands(me, Idle) && old(trace) <= trace
      ensures ok ==> Counter().None? && History.After(step, held)
                     && exists n :: |old(trace)| <= n && AdvancedAt(start, trace, n, me, step.value)
      ensures !ok && History.After(step, held) ==>
                exists n :: |old(trace)| <= n && (LockedOutAt(start, trace, n, me) || OvertakenAt(start, trace, n, me, step.value))
    {
      var goOn := CheckCode(me, held, step, ticks);
      if !goOn {
        return false;
      }
      Await(me);
      ghost var n := |trace|;
      var count := AdvanceRow(me, step.value);
      ghost var advanced := trace;
      Await(me);
      SettleCode(me, count == 1, later);
      ReasonStays(start, advanced, trace, n, me, step.value);
      if count == 1 {
        AdvancedStays(start, advanced, trace, n, me, step.value);
      }
      ok := count == 1;
    }

    /**
     * Second factor at login. `step` is the step a six-digit code matches, `recovery` whether
     * another code is an unused recovery code. A login let in by a code's step advanced the row.
     */
    method VerifyLogin(ghost me: Caller, sixDigits: bool, step: Option<int>, recovery: bool, ticks: nat, later: nat)
      returns (ok: bool)
      requires Stands(me, Idle)
      modifies this
      ensures Stands(me, Idle) && old(trace) <= trace
      ensures ok ==> Counter().None?
      ensures ok && sixDigits ==>
                step.Some? && exists n :: |old(trace)| <= n && AdvancedAt(start, trace, n, me, step.value)
      ensures ok && !sixDigits ==> recovery
      ensures ok && sixDigits ==> History.After(step, old(row))
      ensures !ok && sixDigits && History.After(step, old(row)) ==>
                exists n :: |old(trace)| <= n && (LockedOutAt(start, trace, n, me) || OvertakenAt(start, trace, n, me, step.value))
      ensures !ok && !sixDigits && recovery ==> exists n :: |old(trace)| <= n && LockedOutAt(start, trace, n, me)
    {
      var held := ReadRow(me);
      Await(me);
      if sixDigits {
        ok := LoginByCode(me, held, step, ticks, later);
        return;
      }
      var goOn := TryRecoveryCodes(me, held, ticks);
      if !goOn {
        return false;
      }
      Await(me);
      Compared(me, recovery);
      SettleCode(me, recovery, later);
      ok := recovery;
    }

    // ----- enrolment -----

    method CheckFirstCode(ghost me: Caller, held: Row, step: Option<int>, ticks: nat) returns (goOn: bool)
      requires Stands(me, Holding(held))
      modifies this
      ensures clock == old(clock) + ticks
      ensures goOn <==> !held.enabled && !History.LockedOut(old(view.checks), clock) && step.Some?
      ensures History.LockedOut(old(view.checks), clock) ==> LockedOutAt(start, trace, |old(trace)|, me)
      ensures view.checks == if held.enabled || History.LockedOut(old(view.checks), clock) || step.Some? then old(view.checks)
                             else old(view.checks) + [clock]
      ensures Stands(me, if goOn then Enabling(step.value) else Idle)
      ensures trace == old(trace) + [VerifyFirst(me, step, clock)] && row == old(row)
    {
      LockIsItsCodes(clock + ticks);
      ReachedIs(start, trace, view);
      clock := clock + ticks;
      ghost var now := clock;
      var locked := IsLocked();
      goOn := !held.enabled && !locked && step.Some?;
      if !held.enabled && !locked && step.None? {
        CountFailure();
      }
      Took(VerifyFirst(me, step, now));
      assert trace[..|old(trace)|] == old(trace);
    }

    /** The update that enables is not conditional. */
    method WriteEnabled(ghost me: Caller, step: int)
      requires Stands(me, Enabling(step))
      modifies this
      ensures Stands(me, Enabled) && trace == old(trace) + [Enable(me)] && row == Row(true, Some(step))
      ensures EnabledAt(start, trace, |old(trace)|, me, step)
    {
      ReachedIs(start, trace, view);
      row := Row(true, Some(step));
      Took(Enable(me));
      assert trace[..|old(trace)|] == old(trace);
    }

    method DropCounterOf(ghost me: Caller)
      requires Stands(me, Enabled)
      modifies this
      ensures Stands(me, Idle) && old(trace) <= trace && Counter().None? && row == old(row)
    {
      counters := counters - {user};
      Took(EndEnable(me));
    }

    /**
     * Turns the second factor on: a call that succeeds wrote the step its code matched into the
     * row, one that fails never wrote it.
     */
    method EnableTwoFactor(ghost me: Caller, step: Option<int>, ticks: nat) returns (ok: bool)
      requires Stands(me, Idle)
      modifies this
      ensures Stands(me, Idle) && old(trace) <= trace
      ensures ok ==> step.Some? && !old(row).enabled && Counter().None?
      ensures ok ==> exists n :: |old(trace)| <= n && EnabledAt(start, trace, n, me, step.value)
      ensures !ok ==> Enable(me) !in trace[|old(trace)|..]
      ensures !ok && step.Some? && !old(row).enabled ==> exists n :: |old(trace)| <= n && LockedOutAt(start, trace, n, me)
    {
      var held := ReadRow(me);
      Await(me);
      ok := CheckFirstCode(me, held, step, ticks);
      if ok {
        FinishEnabling(me, step.value);
      }
    }

    method FinishEnabling(ghost me: Caller, step: int)
      requires Stands(me, Enabling(step))
      modifies this
      ensures Stands(me, Idle) && old(trace) <= trace && Counter().None?
      ensures exists n :: |old(trace)| <= n && EnabledAt(start, trace, n, me, step)
    {
      Await(me);
      ghost var n := |trace|;
      WriteEnabled(me, step);
      ghost var enabled := trace;
      Await(me);
      DropCounterOf(me);
      EnabledStays(start, enabled, trace, n, me, step);
    }

    /** Turning it off: the counter goes first, the row after a wait. */
    method Clear(ghost me: Caller)
      requires Stands(me, Idle)
      modifies this
      ensures Stands(me, Idle) && old(trace) <= trace && row == Row(false, None)
    {
      counters := counters - {user};
      Took(Unlock);
      Await(me);
      row := Row(false, None);
      Took(ClearRow);
    }
  }
}
