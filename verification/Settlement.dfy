/**
 * Settling an online payment. A webhook, the return page and a poll may all look at one payment
 * at the same time; each looks at the row, asks the provider, and acts on the answer. Every
 * database statement, provider answer and crash is one step, taken by any caller in any order.
 */
module Settlement {
  import opened Options
  import opened Money
  import Numbers

  type PaymentId = string
  type Caller = nat

  datatype Mode = Test | Live
  datatype Status = Created | Succeeded | Expired | NeedsReview | Failed

  datatype Payment = Payment(
    mode: Mode, amountMinor: int, currency: string, status: Status,
    hasRef: bool,    // the provider's reference was saved
    applied: bool    // the claim: appliedAt is set
  ) {
    predicate Open() { status == Created || status == NeedsReview }
  }

  /** A payment recorded on the order, under the request id of the checkout that made it. */
  datatype Credit = Credit(requestId: PaymentId, minor: int, currency: string) {
    function Amount(): real { FromMinor(minor, currency) }
  }

  /** What the provider answers; `Unpaid` covers its pending and failed states. */
  datatype Remote =
    | Unreachable
    | Unpaid
    | RemoteExpired
    | Paid(minor: int, currency: string, reference: Option<PaymentId>)

  /** How far a call has come. */
  datatype Phase =
    | Idle
    | Linking(id: PaymentId)                        // create: the row is made, a link is asked for
    | LinkLost(id: PaymentId)                       // create: about to mark the row failed
    | Asking(id: PaymentId)                         // the row was open, the provider is asked
    | Answered(id: PaymentId, remote: Remote)
    | Claimed(id: PaymentId)                        // won the claim
    | CheckingOut(id: PaymentId, replay: bool)      // checkout has read the order's payments
    | CheckedOut(id: PaymentId)                     // checkout returned
    | Rejected(id: PaymentId)                       // checkout or the final update threw

  /** How a checkout ends: it may commit and still report a failure. */
  datatype Outcome = Refused | Committed | CommittedThenFailed

  datatype Event =
    | Create(who: Caller, id: PaymentId, mode: Mode, balance: real, currency: string)
    | SaveLink(who: Caller, outcome: Outcome)
    | LinkFailed(who: Caller)
    | Look(who: Caller, id: PaymentId)
    | Answer(who: Caller, remote: Remote)
    | Act(who: Caller)
    | ReadOrder(who: Caller)
    | Checkout(who: Caller, outcome: Outcome)
    | OtherClash(who: Caller)     // checkout's transaction clashed on an index that is not the request id's
    | MarkSucceeded(who: Caller, outcome: Outcome)
    | Release(who: Caller)
    | Crash(who: Caller)

  datatype State = State(
    payments: map<PaymentId, Payment>,
    ledger: seq<Credit>,                  // the order's payments
    callers: map<Caller, Phase>,
    balances: map<PaymentId, real>,       // the bill each link was made for
    confirmed: set<PaymentId>,            // the provider reported exactly this payment paid
    saidExpired: set<PaymentId>,          // the provider reported it expired
    mistaken: set<PaymentId>              // checkout reported a repeat that was none
  )

  const START := State(map[], [], map[], map[], {}, {}, {})

  function PhaseOf(s: State, c: Caller): Phase {
    if c in s.callers then s.callers[c] else Idle
  }

  function Go(s: State, c: Caller, phase: Phase): State {
    s.(callers := s.callers[c := phase])
  }

  function Put(s: State, id: PaymentId, p: Payment): State {
    s.(payments := s.payments[id := p])
  }

  function Credits(ledger: seq<Credit>, id: PaymentId): nat {
    if |ledger| == 0 then 0
    else Credits(ledger[..|ledger| - 1], id) + if ledger[|ledger| - 1].requestId == id then 1 else 0
  }

  predicate Matches(remote: Remote, id: PaymentId, p: Payment) {
    remote.Paid? && remote.currency == p.currency && remote.minor == p.amountMinor
    && (remote.reference.None? || remote.reference == Some(id))
  }

  // ----- one step ----------------------------------------------------------------------------

  function CreateRow(s: State, c: Caller, id: PaymentId, mode: Mode, balance: real, currency: string): State {
    if PhaseOf(s, c) != Idle || id in s.payments || balance <= 0.0 || ToMinor(balance, currency) <= 0 then s
    else
      var p := Payment(mode, ToMinor(balance, currency), Upper(currency), Created, false, false);
      Go(Put(s, id, p), c, Linking(id)).(balances := s.balances[id := balance])
  }

  function SaveLinkStep(s: State, c: Caller, outcome: Outcome): State {
    match PhaseOf(s, c)
    case Linking(id) =>
      if id !in s.payments then s
      else if outcome == Refused then Go(s, c, LinkLost(id))
      else
        Go(Put(s, id, s.payments[id].(hasRef := true)), c,
           if outcome == Committed then Idle else LinkLost(id))
    case _ => s
  }

  function LinkFailedStep(s: State, c: Caller): State {
    match PhaseOf(s, c)
    case LinkLost(id) =>
      if id !in s.payments then s else Go(Put(s, id, s.payments[id].(status := Failed)), c, Idle)
    case _ => s
  }

  function LookStep(s: State, c: Caller, id: PaymentId): State {
    if PhaseOf(s, c) == Idle && id in s.payments && s.payments[id].hasRef && s.payments[id].Open()
    then Go(s, c, Asking(id))
    else s
  }

  function AnswerStep(s: State, c: Caller, remote: Remote): State {
    match PhaseOf(s, c)
    case Asking(id) =>
      if id !in s.payments then s
      else if remote.Unreachable? || remote.Unpaid? then Go(s, c, Idle)
      else
        Go(s, c, Answered(id, remote)).(
          confirmed := if Matches(remote, id, s.payments[id]) then s.confirmed + {id} else s.confirmed,
          saidExpired := if remote.RemoteExpired? then s.saidExpired + {id} else s.saidExpired)
    case _ => s
  }

  /** Expire, flag, mark a test payment, or try to claim a live one with one conditional update. */
  function ActStep(s: State, c: Caller): State {
    match PhaseOf(s, c)
    case Answered(id, remote) =>
      if id !in s.payments then s
      else
        var p := s.payments[id];
        if remote.RemoteExpired? then Go(Put(s, id, p.(status := Expired)), c, Idle)
        else if !Matches(remote, id, p) then Go(Put(s, id, p.(status := NeedsReview)), c, Idle)
        else if p.mode == Test then Go(Put(s, id, p.(status := Succeeded)), c, Idle)
        else if !p.applied && p.Open() then Go(Put(s, id, p.(applied := true)), c, Claimed(id))
        else Go(s, c, Idle)
    case _ => s
  }

  function ReadOrderStep(dedupe: bool, s: State, c: Caller): State {
    match PhaseOf(s, c)
    case Claimed(id) => Go(s, c, CheckingOut(id, dedupe && Credits(s.ledger, id) > 0))
    case _ => s
  }

  /** The transaction inserts a payment row; a unique key on the request id makes it a replay. */
  function CheckoutStep(dedupe: bool, s: State, c: Caller, outcome: Outcome): State {
    match PhaseOf(s, c)
    case CheckingOut(id, replay) =>
      if id !in s.payments then s
      else if outcome == Refused then Go(s, c, Rejected(id))
      else
        var p := s.payments[id];
        var insert := !replay && !(dedupe && Credits(s.ledger, id) > 0);
        Go(s, c, if outcome == Committed then CheckedOut(id) else Rejected(id)).(
          ledger := s.ledger + if insert then [Credit(id, p.amountMinor, p.currency)] else [])
    case _ => s
  }

  /**
   * Any clash of a transaction that has a request id is taken for a repeat of that id: it is
   * rolled back and reported as a success.
   */
  function OtherClashStep(dedupe: bool, s: State, c: Caller): State {
    match PhaseOf(s, c)
    case CheckingOut(id, replay) =>
      if id !in s.payments || replay then s
      else if dedupe then Go(s, c, CheckedOut(id)).(mistaken := s.mistaken + {id})
      else Go(s, c, Rejected(id))
    case _ => s
  }

  function MarkStep(s: State, c: Caller, outcome: Outcome): State {
    match PhaseOf(s, c)
    case CheckedOut(id) =>
      if id !in s.payments then s
      else if outcome == Refused then Go(s, c, Rejected(id))
      else
        Go(Put(s, id, s.payments[id].(status := Succeeded)), c,
           if outcome == Committed then Idle else Rejected(id))
    case _ => s
  }

  function ReleaseStep(s: State, c: Caller): State {
    match PhaseOf(s, c)
    case Rejected(id) =>
      if id !in s.payments then s
      else Go(Put(s, id, s.payments[id].(status := NeedsReview, applied := false)), c, Idle)
    case _ => s
  }

  /**
   * One step of the system; a step that is not enabled changes nothing. `dedupe` says whether
   * checkout answers a repeated request id with the original result.
   */
  function Next(dedupe: bool, s: State, e: Event): State {
    match e
    case Create(c, id, mode, balance, currency) => CreateRow(s, c, id, mode, balance, currency)
    case SaveLink(c, outcome) => SaveLinkStep(s, c, outcome)
    case LinkFailed(c) => LinkFailedStep(s, c)
    case Look(c, id) => LookStep(s, c, id)
    case Answer(c, remote) => AnswerStep(s, c, remote)
    case Act(c) => ActStep(s, c)
    case ReadOrder(c) => ReadOrderStep(dedupe, s, c)
    case Checkout(c, outcome) => CheckoutStep(dedupe, s, c, outcome)
    case OtherClash(c) => OtherClashStep(dedupe, s, c)
    case MarkSucceeded(c, outcome) => MarkStep(s, c, outcome)
    case Release(c) => ReleaseStep(s, c)
    case Crash(c) => Go(s, c, Idle)
  }

  function Run(dedupe: bool, s: State, es: seq<Event>): State {
    if |es| == 0 then s else Next(dedupe, Run(dedupe, s, es[..|es| - 1]), es[|es| - 1])
  }

  // ----- what every step keeps ---------------------------------------------------------------

  /** Between winning the claim and giving it up or finishing. */
  predicate Holds(phase: Phase, id: PaymentId) {
    match phase
    case Claimed(i) => i == id
    case CheckingOut(i, _) => i == id
    case CheckedOut(i) => i == id
    case Rejected(i) => i == id
    case _ => false
  }

  /** At most one caller holds a payment; the claim is set and the payment live while one does. */
  ghost predicate ClaimIsExclusive(s: State) {
    && (forall c, id :: Holds(PhaseOf(s, c), id) ==>
                          id in s.payments && s.payments[id].applied && s.payments[id].mode == Live && id in s.confirmed)
    && (forall c, d, id :: Holds(PhaseOf(s, c), id) && Holds(PhaseOf(s, d), id) ==> c == d)
  }

  ghost predicate AnswersRecorded(s: State) {
    forall c :: PhaseOf(s, c).Answered? ==>
                  var Answered(id, remote) := PhaseOf(s, c);
                  id in s.payments
                  && (Matches(remote, id, s.payments[id]) ==> id in s.confirmed)
                  && (remote.RemoteExpired? ==> id in s.saidExpired)
  }

  predicate CreditBacked(s: State, credit: Credit) {
    var id := credit.requestId;
    id in s.payments && id in s.confirmed && s.payments[id].mode == Live
    && credit.minor == s.payments[id].amountMinor && credit.currency == s.payments[id].currency
  }

  ghost predicate LedgerHonest(s: State) {
    forall i :: 0 <= i < |s.ledger| ==> CreditBacked(s, s.ledger[i])
  }

  /** The ledger has it, or checkout said so without looking. */
  predicate Vouched(s: State, id: PaymentId) {
    Credits(s.ledger, id) > 0 || id in s.mistaken
  }

  /** A status is only given for a reason. */
  predicate Earned(s: State, id: PaymentId, p: Payment) {
    && (p.status == Succeeded ==> id in s.confirmed)
    && (p.status == Succeeded && p.mode == Live ==> Vouched(s, id))
    && (p.status == Expired ==> id in s.saidExpired)
  }

  ghost predicate StatusesEarned(s: State) {
    && (forall c :: PhaseOf(s, c).CheckedOut? ==> Vouched(s, PhaseOf(s, c).id))
    && (forall c :: PhaseOf(s, c).CheckingOut? && PhaseOf(s, c).replay ==> Credits(s.ledger, PhaseOf(s, c).id) > 0)
    && (forall id <- s.payments :: Earned(s, id, s.payments[id]))
  }

  ghost predicate Inv(s: State) {
    s.payments.Keys == s.balances.Keys && ClaimIsExclusive(s) && AnswersRecorded(s) && LedgerHonest(s) && StatusesEarned(s)
  }

  lemma CreditsAppend(ledger: seq<Credit>, credit: Credit, id: PaymentId)
    ensures Credits(ledger + [credit], id) == Credits(ledger, id) + if credit.requestId == id then 1 else 0
  {
    assert (ledger + [credit])[..|ledger|] == ledger;
  }

  /** Every caller but one stands where it stood. */
  ghost predicate OthersStand(s: State, t: State, c: Caller) {
    forall d :: d != c ==> PhaseOf(t, d) == PhaseOf(s, d)
  }

  /** One row is rewritten and its caller moves on. */
  ghost predicate Rewrites(s: State, c: Caller, id: PaymentId, p: Payment, phase: Phase) {
    && id in s.payments
    && p == s.payments[id].(status := p.status, hasRef := p.hasRef, applied := p.applied)
    && (phase == Idle || phase == LinkLost(id) || phase == Claimed(id) || phase == Rejected(id))
    && (Holds(phase, id) ==> p.applied && p.mode == Live && id in s.confirmed)
    && (s.payments[id].applied && !p.applied ==> Holds(PhaseOf(s, c), id) && phase == Idle)
    && (Holds(phase, id) && !Holds(PhaseOf(s, c), id) ==> !s.payments[id].applied)
    && Earned(s, id, p)
  }

  lemma RowClaims(s: State, c: Caller, id: PaymentId, p: Payment, phase: Phase)
    requires ClaimIsExclusive(s) && Rewrites(s, c, id, p, phase)
    ensures ClaimIsExclusive(Go(Put(s, id, p), c, phase))
  {
    var t := Go(Put(s, id, p), c, phase);
    forall d ensures PhaseOf(t, d) == if d == c then phase else PhaseOf(s, d) {
    }
  }

  lemma RowAnswers(s: State, c: Caller, id: PaymentId, p: Payment, phase: Phase)
    requires AnswersRecorded(s) && Rewrites(s, c, id, p, phase)
    ensures AnswersRecorded(Go(Put(s, id, p), c, phase))
  {
    var t := Go(Put(s, id, p), c, phase);
    forall d ensures PhaseOf(t, d) == if d == c then phase else PhaseOf(s, d) {
    }
  }

  lemma RowStatuses(s: State, c: Caller, id: PaymentId, p: Payment, phase: Phase)
    requires StatusesEarned(s) && Rewrites(s, c, id, p, phase)
    ensures StatusesEarned(Go(Put(s, id, p), c, phase))
  {
    var t := Go(Put(s, id, p), c, phase);
    forall d ensures PhaseOf(t, d) == if d == c then phase else PhaseOf(s, d) {
    }
  }

  lemma RowRewritten(s: State, c: Caller, id: PaymentId, p: Payment, phase: Phase)
    requires Inv(s) && Rewrites(s, c, id, p, phase)
    ensures Inv(Go(Put(s, id, p), c, phase))
  {
    RowClaims(s, c, id, p, phase);
    RowAnswers(s, c, id, p, phase);
    RowStatuses(s, c, id, p, phase);
    var t := Go(Put(s, id, p), c, phase);
    assert t.payments.Keys == s.payments.Keys;
    forall i | 0 <= i < |t.ledger| ensures CreditBacked(t, t.ledger[i]) {
      assert CreditBacked(s, s.ledger[i]);
    }
  }

  /** A caller moves on; rows and ledger stay. */
  lemma CallerMoves(s: State, c: Caller, phase: Phase)
    requires Inv(s)
    requires !phase.Answered? && !phase.CheckedOut?
    requires phase.CheckingOut? ==> phase.replay ==> Credits(s.ledger, phase.id) > 0
    requires forall id :: Holds(phase, id) ==> Holds(PhaseOf(s, c), id)
    ensures Inv(Go(s, c, phase))
  {
    assert OthersStand(s, Go(s, c, phase), c);
  }

  function Added(s: State, c: Caller, id: PaymentId, p: Payment, balance: real): State {
    Go(Put(s, id, p), c, Linking(id)).(balances := s.balances[id := balance])
  }

  lemma AddedClaims(s: State, c: Caller, id: PaymentId, p: Payment, balance: real)
    requires ClaimIsExclusive(s) && id !in s.payments
    ensures ClaimIsExclusive(Added(s, c, id, p, balance))
  {
    var t := Added(s, c, id, p, balance);
    forall d ensures PhaseOf(t, d) == if d == c then Linking(id) else PhaseOf(s, d) {
    }
  }

  lemma AddedAnswers(s: State, c: Caller, id: PaymentId, p: Payment, balance: real)
    requires AnswersRecorded(s) && id !in s.payments
    ensures AnswersRecorded(Added(s, c, id, p, balance))
  {
    var t := Added(s, c, id, p, balance);
    forall d ensures PhaseOf(t, d) == if d == c then Linking(id) else PhaseOf(s, d) {
    }
  }

  lemma AddedStatuses(s: State, c: Caller, id: PaymentId, p: Payment, balance: real)
    requires StatusesEarned(s) && id !in s.payments && p.status == Created
    ensures StatusesEarned(Added(s, c, id, p, balance))
  {
    var t := Added(s, c, id, p, balance);
    forall d ensures PhaseOf(t, d) == if d == c then Linking(id) else PhaseOf(s, d) {
    }
    forall i <- t.payments ensures Earned(t, i, t.payments[i]) {
      assert i != id ==> Earned(s, i, s.payments[i]);
    }
  }

  /** A row is added; its caller goes on to link it. */
  lemma RowAdded(s: State, c: Caller, id: PaymentId, p: Payment, balance: real)
    requires Inv(s) && id !in s.payments && p.status == Created
    ensures Inv(Added(s, c, id, p, balance))
  {
    var t := Added(s, c, id, p, balance);
    AddedClaims(s, c, id, p, balance);
    AddedAnswers(s, c, id, p, balance);
    AddedStatuses(s, c, id, p, balance);
    forall i | 0 <= i < |t.ledger| ensures CreditBacked(t, t.ledger[i]) {
      assert CreditBacked(s, s.ledger[i]);
    }
  }

  lemma CreateKeeps(s: State, c: Caller, id: PaymentId, mode: Mode, balance: real, currency: string)
    requires Inv(s)
    ensures Inv(CreateRow(s, c, id, mode, balance, currency))
  {
    if CreateRow(s, c, id, mode, balance, currency) != s {
      RowAdded(s, c, id, Payment(mode, ToMinor(balance, currency), Upper(currency), Created, false, false), balance);
    }
  }

  lemma SaveLinkKeeps(s: State, c: Caller, outcome: Outcome)
    requires Inv(s)
    ensures Inv(SaveLinkStep(s, c, outcome))
  {
    var phase := PhaseOf(s, c);
    if phase.Linking? && phase.id in s.payments {
      if outcome == Refused {
        CallerMoves(s, c, LinkLost(phase.id));
      } else {
        RowRewritten(s, c, phase.id, s.payments[phase.id].(hasRef := true),
                     if outcome == Committed then Idle else LinkLost(phase.id));
      }
    }
  }

  lemma LinkFailedKeeps(s: State, c: Caller)
    requires Inv(s)
    ensures Inv(LinkFailedStep(s, c))
  {
    var phase := PhaseOf(s, c);
    if phase.LinkLost? && phase.id in s.payments {
      RowRewritten(s, c, phase.id, s.payments[phase.id].(status := Failed), Idle);
    }
  }

  lemma LookKeeps(s: State, c: Caller, id: PaymentId)
    requires Inv(s)
    ensures Inv(LookStep(s, c, id))
  {
    CallerMoves(s, c, Asking(id));
  }

  lemma AnswerKeeps(s: State, c: Caller, remote: Remote)
    requires Inv(s)
    ensures Inv(AnswerStep(s, c, remote))
  {
    assert OthersStand(s, AnswerStep(s, c, remote), c);
  }

  lemma ActKeeps(s: State, c: Caller)
    requires Inv(s)
    ensures Inv(ActStep(s, c))
  {
    var phase := PhaseOf(s, c);
    if phase.Answered? && phase.id in s.payments {
      var id, p := phase.id, s.payments[phase.id];
      if phase.remote.RemoteExpired? {
        RowRewritten(s, c, id, p.(status := Expired), Idle);
      } else if !Matches(phase.remote, id, p) {
        RowRewritten(s, c, id, p.(status := NeedsReview), Idle);
      } else if p.mode == Test {
        RowRewritten(s, c, id, p.(status := Succeeded), Idle);
      } else if !p.applied && p.Open() {
        RowRewritten(s, c, id, p.(applied := true), Claimed(id));
      } else {
        CallerMoves(s, c, Idle);
      }
    }
  }

  lemma ReadOrderKeeps(dedupe: bool, s: State, c: Caller)
    requires Inv(s)
    ensures Inv(ReadOrderStep(dedupe, s, c))
  {
    var phase := PhaseOf(s, c);
    if phase.Claimed? {
      CallerMoves(s, c, CheckingOut(phase.id, dedupe && Credits(s.ledger, phase.id) > 0));
    }
  }

  /** Checkout commits: the ledger holds a credit for the payment, and the caller moves on. */
  lemma CheckoutCommits(s: State, t: State, c: Caller, id: PaymentId)
    requires Inv(s) && Holds(PhaseOf(s, c), id)
    requires PhaseOf(t, c) == CheckedOut(id) || PhaseOf(t, c) == Rejected(id)
    requires OthersStand(s, t, c) && t == s.(callers := t.callers, ledger := t.ledger)
    requires t.ledger == s.ledger + [Credit(id, s.payments[id].amountMinor, s.payments[id].currency)]
             || (t.ledger == s.ledger && Credits(s.ledger, id) > 0)
    ensures Inv(t)
  {
    LedgerGrows(s, t, id);
    assert ClaimIsExclusive(t);
    assert AnswersRecorded(t);
    forall i | 0 <= i < |t.ledger| ensures CreditBacked(t, t.ledger[i]) {
      if i < |s.ledger| {
        assert CreditBacked(s, s.ledger[i]);
      }
    }
    EarnedStays(s, t);
  }

  lemma EarnedStays(s: State, t: State)
    requires StatusesEarned(s)
    requires t.payments == s.payments && t.confirmed == s.confirmed && t.saidExpired == s.saidExpired
    requires s.mistaken <= t.mistaken
    requires forall i :: Credits(s.ledger, i) <= Credits(t.ledger, i)
    ensures forall id <- t.payments :: Earned(t, id, t.payments[id])
  {
    forall id <- t.payments ensures Earned(t, id, t.payments[id]) {
      assert Earned(s, id, s.payments[id]);
    }
  }

  lemma CheckoutKeeps(dedupe: bool, s: State, c: Caller, outcome: Outcome)
    requires Inv(s)
    ensures Inv(CheckoutStep(dedupe, s, c, outcome))
  {
    var phase := PhaseOf(s, c);
    if phase.CheckingOut? && phase.id in s.payments {
      var id, t := phase.id, CheckoutStep(dedupe, s, c, outcome);
      if outcome == Refused {
        CallerMoves(s, c, Rejected(id));
      } else {
        assert s.ledger + [] == s.ledger;
        CheckoutCommits(s, t, c, id);
      }
    }
  }

  lemma OtherClashKeeps(dedupe: bool, s: State, c: Caller)
    requires Inv(s)
    ensures Inv(OtherClashStep(dedupe, s, c))
  {
    var phase, t := PhaseOf(s, c), OtherClashStep(dedupe, s, c);
    if t != s {
      assert Holds(phase, phase.id);
      if dedupe {
        assert OthersStand(s, t, c) && PhaseOf(t, c) == CheckedOut(phase.id);
        EarnedStays(s, t);
      } else {
        CallerMoves(s, c, Rejected(phase.id));
      }
    }
  }

  lemma LedgerGrows(s: State, t: State, id: PaymentId)
    requires id in s.payments
    requires var credit := Credit(id, s.payments[id].amountMinor, s.payments[id].currency);
             t.ledger == s.ledger + [credit] || t.ledger == s.ledger
    ensures forall i :: Credits(s.ledger, i) <= Credits(t.ledger, i)
    ensures t.ledger != s.ledger ==> Credits(t.ledger, id) == Credits(s.ledger, id) + 1
    ensures forall i :: i != id ==> Credits(t.ledger, i) == Credits(s.ledger, i)
  {
    var credit := Credit(id, s.payments[id].amountMinor, s.payments[id].currency);
    forall i ensures Credits(s.ledger + [credit], i) == Credits(s.ledger, i) + if i == id then 1 else 0 {
      CreditsAppend(s.ledger, credit, i);
    }
  }

  lemma MarkKeeps(s: State, c: Caller, outcome: Outcome)
    requires Inv(s)
    ensures Inv(MarkStep(s, c, outcome))
  {
    var phase := PhaseOf(s, c);
    if phase.CheckedOut? && phase.id in s.payments {
      assert Holds(phase, phase.id);
      if outcome == Refused {
        CallerMoves(s, c, Rejected(phase.id));
      } else {
        RowRewritten(s, c, phase.id, s.payments[phase.id].(status := Succeeded),
                     if outcome == Committed then Idle else Rejected(phase.id));
      }
    }
  }

  lemma ReleaseKeeps(s: State, c: Caller)
    requires Inv(s)
    ensures Inv(ReleaseStep(s, c))
  {
    var phase := PhaseOf(s, c);
    if phase.Rejected? && phase.id in s.payments {
      assert Holds(phase, phase.id);
      RowRewritten(s, c, phase.id, s.payments[phase.id].(status := NeedsReview, applied := false), Idle);
    }
  }

  lemma StepKeepsInv(dedupe: bool, s: State, e: Event)
    requires Inv(s)
    ensures Inv(Next(dedupe, s, e))
  {
    match e
    case Create(c, id, mode, balance, currency) => CreateKeeps(s, c, id, mode, balance, currency);
    case SaveLink(c, outcome) => SaveLinkKeeps(s, c, outcome);
    case LinkFailed(c) => LinkFailedKeeps(s, c);
    case Look(c, id) => LookKeeps(s, c, id);
    case Answer(c, remote) => AnswerKeeps(s, c, remote);
    case Act(c) => ActKeeps(s, c);
    case ReadOrder(c) => ReadOrderKeeps(dedupe, s, c);
    case Checkout(c, outcome) => CheckoutKeeps(dedupe, s, c, outcome);
    case OtherClash(c) => OtherClashKeeps(dedupe, s, c);
    case MarkSucceeded(c, outcome) => MarkKeeps(s, c, outcome);
    case Release(c) => ReleaseKeeps(s, c);
    case Crash(c) => CallerMoves(s, c, Idle);
  }

  lemma {:induction false} RunKeepsInv(dedupe: bool, es: seq<Event>)
    ensures Inv(Run(dedupe, START, es))
  {
    if |es| > 0 {
      RunKeepsInv(dedupe, es[..|es| - 1]);
      StepKeepsInv(dedupe, Run(dedupe, START, es[..|es| - 1]), es[|es| - 1]);
    }
  }

  // ----- credited at most once ---------------------------------------------------------------

  /** Only a checkout adds to the ledger, for the payment its caller holds. */
  lemma LedgerStep(dedupe: bool, s: State, e: Event)
    ensures var t := Next(dedupe, s, e);
            t.ledger == s.ledger
            || (e.Checkout? && e.outcome != Refused && PhaseOf(s, e.who).CheckingOut? &&
                var id := PhaseOf(s, e.who).id;
                id in s.payments
                && t.ledger == s.ledger + [Credit(id, s.payments[id].amountMinor, s.payments[id].currency)]
                && (dedupe ==> Credits(s.ledger, id) == 0))
  {
    assert s.ledger + [] == s.ledger;
  }

  /** In every run a payment is credited at most once when checkout answers repeats. */
  lemma {:induction false} CreditedAtMostOnce(es: seq<Event>, id: PaymentId)
    ensures Credits(Run(true, START, es).ledger, id) <= 1
  {
    if |es| > 0 {
      var s := Run(true, START, es[..|es| - 1]);
      CreditedAtMostOnce(es[..|es| - 1], id);
      LedgerStep(true, s, es[|es| - 1]);
      if Run(true, START, es).ledger != s.ledger {
        LedgerGrows(s, Run(true, START, es), PhaseOf(s, es[|es| - 1].who).id);
      }
    }
  }

  /** No step commits and then reports a failure. */
  predicate Honest(e: Event) {
    && (e.Checkout? ==> e.outcome != CommittedThenFailed)
    && (e.MarkSucceeded? ==> e.outcome == Committed)
  }

  /** Holding a payment, checkout not yet committed. */
  predicate BeforeCommit(phase: Phase, id: PaymentId) {
    Holds(phase, id) && !phase.CheckedOut?
  }

  predicate Free(s: State, id: PaymentId) {
    id !in s.payments || !s.payments[id].applied
  }

  /** A payment that can still be claimed or checked out has not been credited. */
  ghost predicate UncreditedWhileOpen(s: State) {
    && (forall id :: Credits(s.ledger, id) <= 1)
    && (forall id :: Free(s, id) ==> Credits(s.ledger, id) == 0)
    && (forall c, id :: BeforeCommit(PhaseOf(s, c), id) ==> Credits(s.ledger, id) == 0)
  }

  /** When nothing is added, a caller only comes to the stage before a commit from an open payment. */
  lemma HonestMoves(s: State, e: Event, id: PaymentId)
    requires Inv(s) && Honest(e)
    ensures var t := Next(false, s, e);
            && (Free(t, id) ==> Free(s, id) || BeforeCommit(PhaseOf(s, e.who), id))
            && (BeforeCommit(PhaseOf(t, e.who), id) ==> Free(s, id) || BeforeCommit(PhaseOf(s, e.who), id))
            && (e.Checkout? && t.ledger != s.ledger ==> !BeforeCommit(PhaseOf(t, e.who), id))
            && t.payments.Keys >= s.payments.Keys
  {
    assert s.ledger + [] == s.ledger;
  }

  lemma OthersStandAlways(dedupe: bool, s: State, e: Event)
    ensures OthersStand(s, Next(dedupe, s, e), e.who)
  {
  }

  lemma HonestStep(s: State, e: Event)
    requires Inv(s) && UncreditedWhileOpen(s) && Honest(e)
    ensures UncreditedWhileOpen(Next(false, s, e))
  {
    var t := Next(false, s, e);
    LedgerStep(false, s, e);
    OthersStandAlways(false, s, e);
    if t.ledger != s.ledger {
      var mine := PhaseOf(s, e.who).id;
      LedgerGrows(s, t, mine);
      assert Holds(PhaseOf(s, e.who), mine);
      assert t.payments == s.payments;
    }
    forall id ensures Free(t, id) ==> Credits(t.ledger, id) == 0 {
      HonestMoves(s, e, id);
    }
    forall c, id | BeforeCommit(PhaseOf(t, c), id) ensures Credits(t.ledger, id) == 0 {
      HonestMoves(s, e, id);
    }
  }

  /** The claim alone is enough while no step commits and then reports a failure. */
  lemma {:induction false} ClaimAloneSuffices(es: seq<Event>, id: PaymentId)
    requires forall e <- es :: Honest(e)
    ensures Credits(Run(false, START, es).ledger, id) <= 1
  {
    HonestRun(es);
  }

  lemma {:induction false} HonestRun(es: seq<Event>)
    requires forall e <- es :: Honest(e)
    ensures UncreditedWhileOpen(Run(false, START, es))
  {
    if |es| > 0 {
      HonestRun(es[..|es| - 1]);
      RunKeepsInv(false, es[..|es| - 1]);
      HonestStep(Run(false, START, es[..|es| - 1]), es[|es| - 1]);
    }
  }

  lemma {:induction false} RunConcat(dedupe: bool, s: State, a: seq<Event>, b: seq<Event>)
    ensures Run(dedupe, s, a + b) == Run(dedupe, Run(dedupe, s, a), b)
  {
    if |b| == 0 {
      assert a + b == a;
    } else {
      RunConcat(dedupe, s, a, b[..|b| - 1]);
      assert (a + b)[..|a + b| - 1] == a + b[..|b| - 1];
    }
  }

  lemma RunFirst(dedupe: bool, s: State, e: Event, rest: seq<Event>)
    ensures Run(dedupe, s, [e] + rest) == Run(dedupe, Next(dedupe, s, e), rest)
  {
    RunConcat(dedupe, s, [e], rest);
    assert [e][..0] == [];
    assert Run(dedupe, s, [e]) == Next(dedupe, Run(dedupe, s, []), e);
  }

  /** A payment any caller may settle. */
  predicate Claimable(s: State, c: Caller, id: PaymentId) {
    id in s.payments && PhaseOf(s, c) == Idle &&
    var p := s.payments[id];
    p.mode == Live && p.hasRef && p.Open() && !p.applied
  }

  /** One caller goes from its first look to the end of checkout, the provider confirming. */
  function Attempt(s: State, c: Caller, id: PaymentId, outcome: Outcome): seq<Event>
    requires id in s.payments
  {
    [Look(c, id)] + ([Answer(c, Paid(s.payments[id].amountMinor, s.payments[id].currency, Some(id)))]
    + ([Act(c)] + ([ReadOrder(c)] + ([Checkout(c, outcome)] + []))))
  }

  lemma AttemptRuns(dedupe: bool, s: State, c: Caller, id: PaymentId, outcome: Outcome)
    requires id in s.payments
    ensures var remote := Paid(s.payments[id].amountMinor, s.payments[id].currency, Some(id));
            Run(dedupe, s, Attempt(s, c, id, outcome))
            == CheckoutStep(dedupe, ReadOrderStep(dedupe, ActStep(AnswerStep(LookStep(s, c, id), c, remote), c), c), c, outcome)
  {
    var remote := Paid(s.payments[id].amountMinor, s.payments[id].currency, Some(id));
    var s1 := Next(dedupe, s, Look(c, id));
    var s2 := Next(dedupe, s1, Answer(c, remote));
    var s3 := Next(dedupe, s2, Act(c));
    var s4 := Next(dedupe, s3, ReadOrder(c));
    RunFirst(dedupe, s4, Checkout(c, outcome), []);
    RunFirst(dedupe, s3, ReadOrder(c), [Checkout(c, outcome)] + []);
    RunFirst(dedupe, s2, Act(c), [ReadOrder(c)] + ([Checkout(c, outcome)] + []));
    RunFirst(dedupe, s1, Answer(c, remote), [Act(c)] + ([ReadOrder(c)] + ([Checkout(c, outcome)] + [])));
    RunFirst(dedupe, s, Look(c, id),
             [Answer(c, remote)] + ([Act(c)] + ([ReadOrder(c)] + ([Checkout(c, outcome)] + []))));
  }

  lemma AttemptClaims(s: State, c: Caller, id: PaymentId)
    requires Claimable(s, c, id)
    ensures var t := ActStep(AnswerStep(LookStep(s, c, id), c, Paid(s.payments[id].amountMinor, s.payments[id].currency, Some(id))), c);
            && PhaseOf(t, c) == Claimed(id) && t.payments == s.payments[id := s.payments[id].(applied := true)]
            && t.ledger == s.ledger && OthersStand(s, t, c)
  {
    var s1 := LookStep(s, c, id);
    assert PhaseOf(s1, c) == Asking(id);
    var s2 := AnswerStep(s1, c, Paid(s.payments[id].amountMinor, s.payments[id].currency, Some(id)));
    assert PhaseOf(s2, c) == Answered(id, Paid(s.payments[id].amountMinor, s.payments[id].currency, Some(id)));
  }

  lemma AttemptEnds(dedupe: bool, s: State, c: Caller, id: PaymentId, outcome: Outcome)
    requires Claimable(s, c, id) && outcome != Refused
    ensures var t := Run(dedupe, s, Attempt(s, c, id, outcome));
            var p := s.payments[id];
            && t.payments == s.payments[id := p.(applied := true)]
            && PhaseOf(t, c) == (if outcome == Committed then CheckedOut(id) else Rejected(id))
            && t.ledger == s.ledger + if dedupe && Credits(s.ledger, id) > 0 then []
                                      else [Credit(id, p.amountMinor, p.currency)]
  {
    var remote := Paid(s.payments[id].amountMinor, s.payments[id].currency, Some(id));
    AttemptRuns(dedupe, s, c, id, outcome);
    AttemptClaims(s, c, id);
    var s3 := ActStep(AnswerStep(LookStep(s, c, id), c, remote), c);
    assert PhaseOf(ReadOrderStep(dedupe, s3, c), c) == CheckingOut(id, dedupe && Credits(s.ledger, id) > 0);
  }

  /** A checkout that commits, reports a failure and is released: credited, and open again. */
  lemma CreditedAndReleased(s: State, c: Caller, id: PaymentId)
    requires Claimable(s, c, id)
    ensures var t := Run(false, s, Attempt(s, c, id, CommittedThenFailed) + [Release(c)]);
            Claimable(t, c, id) && Credits(t.ledger, id) == Credits(s.ledger, id) + 1
  {
    var first := Attempt(s, c, id, CommittedThenFailed);
    var s1 := Run(false, s, first);
    AttemptEnds(false, s, c, id, CommittedThenFailed);
    LedgerGrows(s, s1, id);
    assert (first + [Release(c)])[..|first|] == first;
    assert Run(false, s, first + [Release(c)]) == ReleaseStep(s1, c);
  }

  lemma CreditedByAttempt(s: State, c: Caller, id: PaymentId)
    requires Claimable(s, c, id)
    ensures Credits(Run(false, s, Attempt(s, c, id, Committed)).ledger, id) == Credits(s.ledger, id) + 1
  {
    AttemptEnds(false, s, c, id, Committed);
    LedgerGrows(s, Run(false, s, Attempt(s, c, id, Committed)), id);
  }

  /**
   * Without the repeat check the claim is not enough: from wherever a payment can be settled, a
   * checkout that commits and then reports a failure lets it be credited twice.
   */
  lemma CommitThenFailureCreditsTwice(s: State, c: Caller, id: PaymentId)
    requires Claimable(s, c, id)
    ensures exists es :: Credits(Run(false, s, es).ledger, id) == Credits(s.ledger, id) + 2
  {
    var first := Attempt(s, c, id, CommittedThenFailed) + [Release(c)];
    CreditedAndReleased(s, c, id);
    var second := Attempt(Run(false, s, first), c, id, Committed);
    CreditedByAttempt(Run(false, s, first), c, id);
    RunConcat(false, s, first, second);
  }

  /** Such a payment exists: a new live link is one, whatever the bill. */
  lemma NewLinkIsClaimable(dedupe: bool, c: Caller, id: PaymentId, balance: real, currency: string)
    requires balance > 0.0 && ToMinor(balance, currency) > 0
    ensures Claimable(Run(dedupe, START, [Create(c, id, Live, balance, currency), SaveLink(c, Committed)]), c, id)
  {
    var es := [Create(c, id, Live, balance, currency), SaveLink(c, Committed)];
    var s1 := Next(dedupe, START, es[0]);
    assert es[..1] == [es[0]] && es[..1][..0] == [];
    assert Run(dedupe, START, es[..1]) == s1;
    assert PhaseOf(s1, c) == Linking(id);
    assert Run(dedupe, START, es) == SaveLinkStep(s1, c, Committed);
  }

  // ----- what a status means -----------------------------------------------------------------

  lemma {:induction false} NoCredits(ledger: seq<Credit>, id: PaymentId)
    requires forall i :: 0 <= i < |ledger| ==> ledger[i].requestId != id
    ensures Credits(ledger, id) == 0
  {
    if |ledger| > 0 {
      NoCredits(ledger[..|ledger| - 1], id);
    }
  }

  lemma {:induction false} MistakesAreClashes(es: seq<Event>)
    requires forall e <- es :: !e.OtherClash?
    ensures Run(true, START, es).mistaken == {}
  {
    if |es| > 0 {
      MistakesAreClashes(es[..|es| - 1]);
      assert es[|es| - 1] in es;
    }
  }

  /**
   * In every reachable state: a live payment marked succeeded has been credited exactly once,
   * unless its checkout was reported a repeat for a clash on another index; a test payment never;
   * nothing is credited that the provider did not confirm, and a payment that is both expired and
   * credited was reported both paid and expired by the provider.
   */
  lemma {:induction false} StatusMeansCredit(es: seq<Event>, id: PaymentId)
    ensures var s := Run(true, START, es);
            && (id in s.payments && s.payments[id].status == Succeeded ==> id in s.confirmed)
            && (id in s.payments && s.payments[id].status == Succeeded && s.payments[id].mode == Live ==>
                  Credits(s.ledger, id) == 1 || (Credits(s.ledger, id) == 0 && id in s.mistaken))
            && ((forall e <- es :: !e.OtherClash?) ==> s.mistaken == {})
            && (id in s.payments && s.payments[id].mode == Test ==> Credits(s.ledger, id) == 0)
            && (Credits(s.ledger, id) > 0 ==> id in s.payments && id in s.confirmed)
            && (id in s.payments && s.payments[id].status == Expired && Credits(s.ledger, id) > 0 ==>
                  id in s.confirmed && id in s.saidExpired)
  {
    var s := Run(true, START, es);
    RunKeepsInv(true, es);
    CreditedAtMostOnce(es, id);
    if forall e <- es :: !e.OtherClash? {
      MistakesAreClashes(es);
    }
    if id in s.payments {
      assert Earned(s, id, s.payments[id]);
    }
    if id !in s.payments || s.payments[id].mode == Test || id !in s.confirmed {
      forall i | 0 <= i < |s.ledger| ensures s.ledger[i].requestId != id {
        assert CreditBacked(s, s.ledger[i]);
      }
      NoCredits(s.ledger, id);
    }
  }

  /** Never two callers between the claim and the end of one payment's settlement. */
  lemma {:induction false} OneCallerSettles(dedupe: bool, es: seq<Event>, c: Caller, d: Caller, id: PaymentId)
    requires var s := Run(dedupe, START, es); Holds(PhaseOf(s, c), id) && Holds(PhaseOf(s, d), id)
    ensures c == d
  {
    RunKeepsInv(dedupe, es);
  }

  ghost predicate Billed(s: State, id: PaymentId) {
    id in s.payments && id in s.balances &&
    s.payments[id].amountMinor == ToMinor(s.balances[id], s.payments[id].currency)
  }

  lemma BilledStays(dedupe: bool, s: State, e: Event, id: PaymentId)
    requires id in s.payments ==> Billed(s, id)
    ensures var t := Next(dedupe, s, e); id in t.payments ==> Billed(t, id)
  {
    var t := Next(dedupe, s, e);
    if id in s.payments {
      AmountStands(dedupe, s, e, id);
    } else if id in t.payments {
      UpperSameCurrency(e.balance, 0, e.currency);
    }
  }

  lemma AmountStands(dedupe: bool, s: State, e: Event, id: PaymentId)
    requires id in s.payments && id in s.balances
    ensures var t := Next(dedupe, s, e);
            id in t.payments && id in t.balances && t.balances[id] == s.balances[id]
            && t.payments[id].amountMinor == s.payments[id].amountMinor
            && t.payments[id].currency == s.payments[id].currency && t.payments[id].mode == s.payments[id].mode
  {
  }

  lemma {:induction false} RunBills(dedupe: bool, es: seq<Event>, id: PaymentId)
    ensures var s := Run(dedupe, START, es); id in s.payments ==> Billed(s, id)
  {
    if |es| > 0 {
      RunBills(dedupe, es[..|es| - 1], id);
      BilledStays(dedupe, Run(dedupe, START, es[..|es| - 1]), es[|es| - 1], id);
    }
  }

  /**
   * Every credit is the amount its link was made for; for a two-decimal bill in a currency with
   * decimals it is the bill's balance to the cent.
   */
  lemma {:induction false} CreditIsTheBalance(dedupe: bool, es: seq<Event>, i: nat, cents: int)
    requires i < |Run(dedupe, START, es).ledger|
    ensures var s := Run(dedupe, START, es); var credit := s.ledger[i];
            credit.requestId in s.balances &&
            var balance := s.balances[credit.requestId];
            && credit.Amount() == FromMinor(ToMinor(balance, credit.currency), credit.currency)
            && (balance == TwoDecimal(cents) && CurrencyExponent(credit.currency) != 0 ==>
                  credit.Amount() == balance)
  {
    var s := Run(dedupe, START, es);
    var credit := s.ledger[i];
    RunKeepsInv(dedupe, es);
    assert CreditBacked(s, credit);
    RunBills(dedupe, es, credit.requestId);
    TotalRoundTrip(cents, credit.currency);
  }

  // ----- recovery and its limit --------------------------------------------------------------

  lemma {:induction false} RunOne(dedupe: bool, s: State, es: seq<Event>, e: Event)
    ensures Run(dedupe, s, es + [e]) == Next(dedupe, Run(dedupe, s, es), e)
  {
    assert (es + [e])[..|es|] == es;
  }

  /** A live payment that is marked succeeded and credited once. */
  predicate Settled(s: State, id: PaymentId) {
    id in s.payments && s.payments[id].status == Succeeded && Credits(s.ledger, id) == 1
  }

  /** Some continuation ends with the payment succeeded and credited once. */
  ghost predicate CanSettle(es: seq<Event>, id: PaymentId) {
    exists more :: Settled(Run(true, START, es + more), id)
  }

  lemma SettlesFromClaimable(s: State, c: Caller, id: PaymentId)
    requires Claimable(s, c, id)
    ensures var t := Run(true, s, Attempt(s, c, id, Committed) + [MarkSucceeded(c, Committed)]);
            id in t.payments && t.payments[id].status == Succeeded && Credits(t.ledger, id) > 0
  {
    var attempt := Attempt(s, c, id, Committed);
    var s1 := Run(true, s, attempt);
    AttemptEnds(true, s, c, id, Committed);
    LedgerGrows(s, s1, id);
    RunOne(true, s, attempt, MarkSucceeded(c, Committed));
    assert Run(true, s, attempt + [MarkSucceeded(c, Committed)]) == MarkStep(s1, c, Committed);
  }

  /** After a refused checkout nothing is lost: the next look that is let through settles it. */
  lemma {:induction false} OpenPaymentCanStillSettle(es: seq<Event>, c: Caller, id: PaymentId)
    requires Claimable(Run(true, START, es), c, id)
    ensures CanSettle(es, id)
  {
    var s := Run(true, START, es);
    var more := Attempt(s, c, id, Committed) + [MarkSucceeded(c, Committed)];
    SettlesFromClaimable(s, c, id);
    RunConcat(true, START, es, more);
    CreditedAtMostOnce(es + more, id);
    assert Settled(Run(true, START, es + more), id);
  }

  /** What a holder may still do to give a payment back. */
  function LettingGo(c: Caller, phase: Phase): seq<Event> {
    match phase
    case Claimed(_) => [] + [ReadOrder(c)] + [Checkout(c, Refused)] + [Release(c)]
    case CheckingOut(_, _) => [] + [Checkout(c, Refused)] + [Release(c)]
    case CheckedOut(_) => [] + [MarkSucceeded(c, Refused)] + [Release(c)]
    case _ => [] + [Release(c)]
  }

  lemma ReleaseFrees(s: State, c: Caller, id: PaymentId)
    requires PhaseOf(s, c) == Rejected(id) && id in s.payments && s.payments[id].mode == Live && s.payments[id].hasRef
    ensures Claimable(ReleaseStep(s, c), c, id)
  {
  }

  lemma RejectedLetsGo(s: State, c: Caller, e: Event, id: PaymentId)
    requires var t := Next(true, s, e);
             PhaseOf(t, c) == Rejected(id) && id in t.payments && t.payments[id].mode == Live && t.payments[id].hasRef
    ensures Claimable(Run(true, s, [] + [e] + [Release(c)]), c, id)
  {
    RunOne(true, s, [], e);
    RunOne(true, s, [] + [e], Release(c));
    assert Run(true, s, []) == s;
    ReleaseFrees(Next(true, s, e), c, id);
  }

  lemma ReadOrderFirst(s: State, c: Caller)
    ensures Run(true, s, [] + [ReadOrder(c)] + [Checkout(c, Refused)] + [Release(c)])
            == Run(true, ReadOrderStep(true, s, c), [] + [Checkout(c, Refused)] + [Release(c)])
  {
    RunFirst(true, s, ReadOrder(c), [] + [Checkout(c, Refused)] + [Release(c)]);
    assert [] + [ReadOrder(c)] + [Checkout(c, Refused)] + [Release(c)]
           == [ReadOrder(c)] + ([] + [Checkout(c, Refused)] + [Release(c)]);
  }

  lemma ClaimedLetsGo(s: State, c: Caller, id: PaymentId)
    requires PhaseOf(s, c) == Claimed(id) && id in s.payments && s.payments[id].mode == Live && s.payments[id].hasRef
    ensures Claimable(Run(true, s, [] + [ReadOrder(c)] + [Checkout(c, Refused)] + [Release(c)]), c, id)
  {
    ReadOrderFirst(s, c);
    RejectedLetsGo(ReadOrderStep(true, s, c), c, Checkout(c, Refused), id);
  }

  lemma HolderCanLetGo(s: State, c: Caller, id: PaymentId)
    requires Holds(PhaseOf(s, c), id) && id in s.payments && s.payments[id].mode == Live && s.payments[id].hasRef
    ensures Claimable(Run(true, s, LettingGo(c, PhaseOf(s, c))), c, id)
  {
    match PhaseOf(s, c)
    case Claimed(_) => ClaimedLetsGo(s, c, id);
    case CheckingOut(_, _) => RejectedLetsGo(s, c, Checkout(c, Refused), id);
    case CheckedOut(_) => RejectedLetsGo(s, c, MarkSucceeded(c, Refused), id);
    case _ => RejectedReleases(s, c, id);
  }

  lemma RejectedReleases(s: State, c: Caller, id: PaymentId)
    requires PhaseOf(s, c) == Rejected(id) && id in s.payments && s.payments[id].mode == Live && s.payments[id].hasRef
    ensures Claimable(Run(true, s, [] + [Release(c)]), c, id)
  {
    RunOne(true, s, [], Release(c));
    assert Run(true, s, []) == s;
    ReleaseFrees(s, c, id);
  }

  /** The claim is set but nobody holds it. */
  ghost predicate Stranded(s: State, id: PaymentId) {
    id in s.payments && s.payments[id].applied && forall c :: !Holds(PhaseOf(s, c), id)
  }

  lemma HolderCrashes(dedupe: bool, s: State, c: Caller, id: PaymentId)
    requires ClaimIsExclusive(s) && Holds(PhaseOf(s, c), id)
    ensures Stranded(Next(dedupe, s, Crash(c)), id)
  {
    var t := Next(dedupe, s, Crash(c));
    forall d ensures !Holds(PhaseOf(t, d), id) {
      assert d != c ==> PhaseOf(t, d) == PhaseOf(s, d);
    }
  }

  /** A crash between the claim and its release makes one. */
  lemma {:induction false} CrashStrands(dedupe: bool, es: seq<Event>, c: Caller, id: PaymentId)
    requires Holds(PhaseOf(Run(dedupe, START, es), c), id)
    ensures Stranded(Run(dedupe, START, es + [Crash(c)]), id)
  {
    RunKeepsInv(dedupe, es);
    HolderCrashes(dedupe, Run(dedupe, START, es), c, id);
    RunOne(dedupe, START, es, Crash(c));
  }

  lemma StrandedStep(dedupe: bool, s: State, e: Event, id: PaymentId)
    requires Stranded(s, id)
    ensures Stranded(Next(dedupe, s, e), id) && Credits(Next(dedupe, s, e).ledger, id) == Credits(s.ledger, id)
  {
    var t := Next(dedupe, s, e);
    OthersStandAlways(dedupe, s, e);
    assert !Holds(PhaseOf(s, e.who), id);
    assert t.payments[id].applied && !Holds(PhaseOf(t, e.who), id);
    LedgerStep(dedupe, s, e);
    if t.ledger != s.ledger {
      LedgerGrows(s, t, PhaseOf(s, e.who).id);
    }
  }

  /** Only its holder, or a test payment's caller, marks a payment succeeded. */
  lemma StrandedStaysUnmarked(dedupe: bool, s: State, e: Event, id: PaymentId)
    requires Stranded(s, id) && s.payments[id].mode == Live && s.payments[id].status != Succeeded
    ensures var t := Next(dedupe, s, e);
            id in t.payments && t.payments[id].mode == Live && t.payments[id].status != Succeeded
  {
    assert !Holds(PhaseOf(s, e.who), id);
  }

  /**
   * A stranded payment stays so: no later look, however many, credits it, frees it again, or, if
   * it is live, marks it succeeded.
   */
  lemma {:induction false} StrandedForever(dedupe: bool, s: State, es: seq<Event>, id: PaymentId)
    requires Stranded(s, id)
    ensures var t := Run(dedupe, s, es); Stranded(t, id) && Credits(t.ledger, id) == Credits(s.ledger, id)
    ensures s.payments[id].mode == Live && s.payments[id].status != Succeeded ==>
              var t := Run(dedupe, s, es); t.payments[id].mode == Live && t.payments[id].status != Succeeded
  {
    if |es| > 0 {
      var before := Run(dedupe, s, es[..|es| - 1]);
      StrandedForever(dedupe, s, es[..|es| - 1], id);
      StrandedStep(dedupe, before, es[|es| - 1], id);
      if before.payments[id].mode == Live && before.payments[id].status != Succeeded {
        StrandedStaysUnmarked(dedupe, before, es[|es| - 1], id);
      }
    }
  }

  lemma {:induction false} CanSettleEarlier(es: seq<Event>, a: seq<Event>, id: PaymentId)
    requires CanSettle(es + a, id)
    ensures CanSettle(es, id)
  {
    var more :| Settled(Run(true, START, es + a + more), id);
    assert es + a + more == es + (a + more);
  }

  lemma {:induction false} HeldCanSettle(es: seq<Event>, c: Caller, id: PaymentId)
    requires var s := Run(true, START, es);
             Holds(PhaseOf(s, c), id) && id in s.payments && s.payments[id].mode == Live && s.payments[id].hasRef
    ensures CanSettle(es, id)
  {
    var s := Run(true, START, es);
    var letGo := LettingGo(c, PhaseOf(s, c));
    HolderCanLetGo(s, c, id);
    RunConcat(true, START, es, letGo);
    OpenPaymentCanStillSettle(es + letGo, c, id);
    CanSettleEarlier(es, letGo, id);
  }

  /**
   * Exactly when a payment can still be settled: after any run, an open, linked live payment can
   * end succeeded and credited once if and only if it is not stranded.
   */
  lemma {:induction false} SettlesIffNotStranded(es: seq<Event>, id: PaymentId)
    requires var s := Run(true, START, es);
             id in s.payments && s.payments[id].mode == Live && s.payments[id].hasRef && s.payments[id].Open()
    ensures CanSettle(es, id) <==> !Stranded(Run(true, START, es), id)
  {
    var s := Run(true, START, es);
    if Stranded(s, id) {
      forall more ensures !Settled(Run(true, START, es + more), id) {
        RunConcat(true, START, es, more);
        StrandedForever(true, s, more, id);
      }
    } else if s.payments[id].applied {
      var c :| Holds(PhaseOf(s, c), id);
      HeldCanSettle(es, c, id);
    } else {
      var c := Numbers.Unused(s.callers.Keys);
      OpenPaymentCanStillSettle(es, c, id);
    }
  }

  // ----- a clash taken for a repeat ----------------------------------------------------------

  /** A look whose checkout clashes on another index, up to the final update. */
  function MistakenAttempt(s: State, c: Caller, id: PaymentId): seq<Event>
    requires id in s.payments
  {
    [] + [Look(c, id)] + [Answer(c, Paid(s.payments[id].amountMinor, s.payments[id].currency, Some(id)))]
    + [Act(c)] + [ReadOrder(c)] + [OtherClash(c)] + [MarkSucceeded(c, Committed)]
  }

  lemma MistakenAttemptRuns(s: State, c: Caller, id: PaymentId)
    requires id in s.payments
    ensures var remote := Paid(s.payments[id].amountMinor, s.payments[id].currency, Some(id));
            Run(true, s, MistakenAttempt(s, c, id))
            == MarkStep(OtherClashStep(true, ReadOrderStep(true, ActStep(AnswerStep(LookStep(s, c, id), c, remote), c), c), c),
                        c, Committed)
  {
    var remote := Paid(s.payments[id].amountMinor, s.payments[id].currency, Some(id));
    var e1 := [] + [Look(c, id)];
    var e2 := e1 + [Answer(c, remote)];
    var e3 := e2 + [Act(c)];
    var e4 := e3 + [ReadOrder(c)];
    RunOne(true, s, [], Look(c, id));
    RunOne(true, s, e1, Answer(c, remote));
    RunOne(true, s, e2, Act(c));
    RunOne(true, s, e3, ReadOrder(c));
    RunOne(true, s, e4, OtherClash(c));
    RunOne(true, s, e4 + [OtherClash(c)], MarkSucceeded(c, Committed));
    assert Run(true, s, []) == s;
  }

  lemma MistakenAttemptEnds(s: State, c: Caller, id: PaymentId)
    requires Claimable(s, c, id) && Credits(s.ledger, id) == 0
    ensures var t := Run(true, s, MistakenAttempt(s, c, id));
            && id in t.payments && t.payments[id].mode == Live && t.payments[id].status == Succeeded
            && t.payments[id].applied && t.ledger == s.ledger && PhaseOf(t, c) == Idle
            && OthersStand(s, t, c)
  {
    var remote := Paid(s.payments[id].amountMinor, s.payments[id].currency, Some(id));
    MistakenAttemptRuns(s, c, id);
    AttemptClaims(s, c, id);
    ClaimMistaken(ActStep(AnswerStep(LookStep(s, c, id), c, remote), c), c, id);
  }

  lemma ClaimMistaken(s: State, c: Caller, id: PaymentId)
    requires PhaseOf(s, c) == Claimed(id) && id in s.payments && Credits(s.ledger, id) == 0
    ensures var t := MarkStep(OtherClashStep(true, ReadOrderStep(true, s, c), c), c, Committed);
            && t.payments == s.payments[id := s.payments[id].(status := Succeeded)]
            && t.ledger == s.ledger && PhaseOf(t, c) == Idle && OthersStand(s, t, c)
  {
    var s1 := ReadOrderStep(true, s, c);
    assert PhaseOf(s1, c) == CheckingOut(id, false);
    var s2 := OtherClashStep(true, s1, c);
    assert PhaseOf(s2, c) == CheckedOut(id);
  }

  /**
   * The exception for other clashes is real, and final: after any run, a payment that can be
   * settled and was not credited can end up succeeded and never be credited.
   */
  lemma {:induction false} MistakenRepeatIsNeverCredited(es: seq<Event>, c: Caller, id: PaymentId, later: seq<Event>)
    requires Claimable(Run(true, START, es), c, id) && Credits(Run(true, START, es).ledger, id) == 0
    ensures var t := Run(true, START, es + MistakenAttempt(Run(true, START, es), c, id));
            && id in t.payments && t.payments[id].status == Succeeded && t.payments[id].mode == Live
            && Credits(Run(true, t, later).ledger, id) == 0
  {
    var s := Run(true, START, es);
    var attempt := MistakenAttempt(s, c, id);
    RunKeepsInv(true, es);
    MistakenAttemptEnds(s, c, id);
    RunConcat(true, START, es, attempt);
    var t := Run(true, s, attempt);
    forall d ensures !Holds(PhaseOf(t, d), id) {
      assert d != c ==> PhaseOf(t, d) == PhaseOf(s, d);
    }
    StrandedForever(true, t, later, id);
  }

  // ----- and only such a clash does that -----------------------------------------------------

  predicate NoOtherClash(es: seq<Event>) {
    forall e <- es :: !e.OtherClash?
  }

  /** A live payment that is marked succeeded and not in the ledger. */
  predicate MarkedUncredited(s: State, id: PaymentId) {
    id in s.payments && s.payments[id].mode == Live && s.payments[id].status == Succeeded && Credits(s.ledger, id) == 0
  }

  /** Another index clashes while the payment is not in the ledger. */
  predicate ClashesUncredited(s: State, e: Event) {
    e.OtherClash? && PhaseOf(s, e.who).CheckingOut? && !PhaseOf(s, e.who).replay
    && PhaseOf(s, e.who).id in s.payments && Credits(s.ledger, PhaseOf(s, e.who).id) == 0
  }

  /** What is marked, or about to be, is in the ledger. */
  ghost predicate LedgerHasIt(s: State) {
    && (forall c :: PhaseOf(s, c).CheckedOut? ==> Credits(s.ledger, PhaseOf(s, c).id) > 0)
    && (forall id <- s.payments :: !MarkedUncredited(s, id))
  }

  lemma LedgerNeverShrinks(dedupe: bool, s: State, e: Event, id: PaymentId)
    ensures Credits(s.ledger, id) <= Credits(Next(dedupe, s, e).ledger, id)
  {
    LedgerStep(dedupe, s, e);
    if Next(dedupe, s, e).ledger != s.ledger {
      LedgerGrows(s, Next(dedupe, s, e), PhaseOf(s, e.who).id);
    }
  }

  /** A caller that comes out of checkout put the payment into the ledger, or found it there. */
  lemma CheckedOutHasIt(s: State, e: Event)
    requires StatusesEarned(s) && LedgerHasIt(s) && !ClashesUncredited(s, e)
    ensures var t := Next(true, s, e); PhaseOf(t, e.who).CheckedOut? ==> Credits(t.ledger, PhaseOf(t, e.who).id) > 0
  {
    var t := Next(true, s, e);
    if PhaseOf(t, e.who).CheckedOut? {
      var id := PhaseOf(t, e.who).id;
      if e.Checkout? && Credits(s.ledger, id) == 0 {
        assert PhaseOf(s, e.who).CheckingOut? && PhaseOf(s, e.who).id == id;
        LedgerGrows(s, t, id);
      } else {
        LedgerNeverShrinks(true, s, e, id);
      }
    }
  }

  /** A live payment is marked by its holder after checkout, and by nobody else. */
  lemma HolderMarks(s: State, e: Event, id: PaymentId)
    ensures var t := Next(true, s, e);
            id in t.payments && t.payments[id].mode == Live && t.payments[id].status == Succeeded ==>
              id in s.payments && s.payments[id].mode == Live
              && (s.payments[id].status == Succeeded || PhaseOf(s, e.who) == CheckedOut(id))
  {
  }

  lemma NoneMarkedUncredited(s: State, e: Event, id: PaymentId)
    requires LedgerHasIt(s)
    ensures !MarkedUncredited(Next(true, s, e), id)
  {
    HolderMarks(s, e, id);
    LedgerNeverShrinks(true, s, e, id);
    if id in s.payments {
      assert !MarkedUncredited(s, id);
    }
  }

  lemma LedgerKeepsIt(s: State, e: Event)
    requires Inv(s) && LedgerHasIt(s) && !ClashesUncredited(s, e)
    ensures LedgerHasIt(Next(true, s, e))
  {
    var t := Next(true, s, e);
    OthersStandAlways(true, s, e);
    CheckedOutHasIt(s, e);
    forall c | PhaseOf(t, c).CheckedOut? ensures Credits(t.ledger, PhaseOf(t, c).id) > 0 {
      if c != e.who {
        LedgerNeverShrinks(true, s, e, PhaseOf(t, c).id);
      }
    }
    forall id <- t.payments ensures !MarkedUncredited(t, id) {
      NoneMarkedUncredited(s, e, id);
    }
  }

  lemma {:induction false} RunKeepsIt(s: State, es: seq<Event>)
    requires Inv(s) && LedgerHasIt(s) && NoOtherClash(es)
    ensures Inv(Run(true, s, es)) && LedgerHasIt(Run(true, s, es))
  {
    if |es| > 0 {
      assert es[|es| - 1] in es;
      RunKeepsIt(s, es[..|es| - 1]);
      StepKeepsInv(true, Run(true, s, es[..|es| - 1]), es[|es| - 1]);
      LedgerKeepsIt(Run(true, s, es[..|es| - 1]), es[|es| - 1]);
    }
  }

  lemma StartIsSound()
    ensures Inv(START) && LedgerHasIt(START)
  {
  }

  /** With no other clash from here on, some live payment ends up marked and uncredited. */
  ghost predicate CanEndUncredited(s: State) {
    exists more, id :: NoOtherClash(more) && MarkedUncredited(Run(true, s, more), id)
  }

  lemma ClashEndsUncredited(s: State, e: Event)
    requires Inv(s) && ClashesUncredited(s, e)
    ensures CanEndUncredited(Next(true, s, e))
  {
    var id, t := PhaseOf(s, e.who).id, Next(true, s, e);
    assert Holds(PhaseOf(s, e.who), id) && PhaseOf(t, e.who) == CheckedOut(id);
    var more := [] + [MarkSucceeded(e.who, Committed)];
    RunOne(true, t, [], MarkSucceeded(e.who, Committed));
    assert Run(true, t, []) == t;
    assert NoOtherClash(more) && MarkedUncredited(Run(true, t, more), id);
  }

  /**
   * The exception is exactly that clash: after any run without one, the next step lets a live
   * payment end up succeeded and uncredited, with no clash later, if and only if it is a clash of
   * a checkout on another index while the payment is not in the ledger.
   */
  lemma {:induction false} UncreditedIffClash(es: seq<Event>, e: Event)
    requires NoOtherClash(es)
    ensures CanEndUncredited(Run(true, START, es + [e])) <==> ClashesUncredited(Run(true, START, es), e)
  {
    var s := Run(true, START, es);
    StartIsSound();
    RunKeepsIt(START, es);
    RunOne(true, START, es, e);
    if ClashesUncredited(s, e) {
      ClashEndsUncredited(s, e);
    } else {
      StepKeepsInv(true, s, e);
      LedgerKeepsIt(s, e);
      forall more, id | NoOtherClash(more) ensures !MarkedUncredited(Run(true, Next(true, s, e), more), id) {
        RunKeepsIt(Next(true, s, e), more);
      }
    }
  }
}
