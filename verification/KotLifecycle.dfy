/** How a kitchen ticket may move, which server and screens agree on. */
module KotLifecycle {
  import opened Options
  import opened Outbox

  function Transitions(from: KotStatus): set<KotStatus> {
    match from
    case New => {Accepted, Rejected, Cancelled}
    case Accepted => {Preparing, Rejected, Cancelled}
    case Preparing => {Ready, Rejected, Cancelled}
    case Ready => {Served, Cancelled}
    case Served => {}
    case Cancelled => {}
    case Rejected => {}
  }

  predicate CanTransition(from: KotStatus, next: KotStatus) {
    next in Transitions(from)
  }

  function NextStatus(s: KotStatus): Option<KotStatus> {
    match s
    case New => Some(Accepted)
    case Accepted => Some(Preparing)
    case Preparing => Some(Ready)
    case Ready => Some(Served)
    case _ => None
  }

  /** How far along a ticket is; none for a withdrawn one. */
  function Rank(s: KotStatus): Option<nat> {
    match s
    case New => Some(0)
    case Accepted => Some(1)
    case Preparing => Some(2)
    case Ready => Some(3)
    case Served => Some(4)
    case _ => None
  }

  /** Statuses the server lets a ticket be moved to. */
  predicate Forward(s: KotStatus) {
    s == Accepted || s == Preparing || s == Ready || s == Served
  }

  predicate IsActive(s: KotStatus) {
    s != Served && s != Cancelled && s != Rejected
  }

  /**
   * The offered step is the only forward move the server accepts, and moves go up by one: no
   * ticket comes back to where it was.
   */
  lemma OfferedStepIsTheOnlyOne(s: KotStatus, next: KotStatus)
    ensures Forward(next) ==> (CanTransition(s, next) <==> NextStatus(s) == Some(next))
    ensures CanTransition(s, next) && Rank(next).Some? ==> Rank(s).Some? && Rank(next).value == Rank(s).value + 1
    ensures CanTransition(s, next) ==> IsActive(s)
  {
  }

  /** A ticket can be cancelled until it is served, rejected until it is ready, and never after either. */
  lemma WithdrawnUntil(s: KotStatus)
    ensures CanTransition(s, Cancelled) <==> s == New || s == Accepted || s == Preparing || s == Ready
    ensures CanTransition(s, Rejected) <==> s == New || s == Accepted || s == Preparing
    ensures !CanTransition(s, New)
    ensures IsActive(s) <==> s == New || s == Accepted || s == Preparing || s == Ready
  {
  }

  /** The offered steps, one after another, are the whole way of a ticket. */
  lemma TheWholeWay()
    ensures NextStatus(New) == Some(Accepted) && NextStatus(Accepted) == Some(Preparing)
    ensures NextStatus(Preparing) == Some(Ready) && NextStatus(Ready) == Some(Served)
    ensures forall s :: NextStatus(s).None? <==> s == Served || s == Cancelled || s == Rejected
    ensures forall s :: Forward(s) <==> s == Accepted || s == Preparing || s == Ready || s == Served
  {
  }

  /** The slower of two live tickets. */
  function Slower(slowest: KotStatus, s: KotStatus): KotStatus
    requires Rank(slowest).Some? && Rank(s).Some?
  {
    if Rank(s).value < Rank(slowest).value then s else slowest
  }

  /** How far an order's kitchen work is: its least advanced live ticket. */
  function KitchenProgress(statuses: seq<KotStatus>): (r: Option<KotStatus>)
    ensures r.Some? ==> Rank(r.value).Some?
  {
    if |statuses| == 0 then None
    else
      var before, last := KitchenProgress(statuses[..|statuses| - 1]), statuses[|statuses| - 1];
      if Rank(last).None? then before
      else if before.None? then Some(last)
      else Some(Slower(before.value, last))
  }

  /** It is one of the live tickets, none of which is further behind; and the first such. */
  lemma {:induction false} ProgressIsTheSlowest(statuses: seq<KotStatus>)
    ensures KitchenProgress(statuses).None? <==> forall s <- statuses :: Rank(s).None?
    ensures KitchenProgress(statuses).Some? ==>
              && KitchenProgress(statuses).value in statuses
              && forall s <- statuses :: Rank(s).Some? ==> Rank(KitchenProgress(statuses).value).value <= Rank(s).value
  {
    if |statuses| > 0 {
      ProgressIsTheSlowest(statuses[..|statuses| - 1]);
      assert statuses == statuses[..|statuses| - 1] + [statuses[|statuses| - 1]];
    }
  }
}
