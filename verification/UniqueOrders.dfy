/**
 * Creating an order for a caller who may repeat its request. Three endpoints share one protocol:
 * look the request's key up, insert under a unique key, and after a clash look it up again, with
 * at most three inserts. Each database statement and each failure is one step, taken by any
 * number of calls in any order.
 */
module UniqueOrders {
  import opened Options

  type Caller = nat

  const MAX_ATTEMPTS := 3

  /** What the unique indexes cover. */
  datatype Key =
    | RequestKey(id: string)
    | PlatformKey(source: string, orderId: string)

  /** `body` stands for the request's contents, and for the fingerprint stored with the order. */
  datatype Request =
    | Online(keyId: string, idempotencyKey: string, body: nat)    // "" when no key was sent
    | Kiosk(requestId: string, body: nat)
    | Platform(source: string, orderId: string, body: nat)

  /** An order row keeps the columns of the request that made it. */
  datatype Order = Order(from: Request, number: nat)

  function ScopedKey(keyId: string, idempotencyKey: string): string {
    "int:" + keyId + ":" + idempotencyKey
  }

  function KeyOf(r: Request): Option<Key> {
    match r
    case Online(keyId, idempotencyKey, _) =>
      if idempotencyKey == "" then None else Some(RequestKey(ScopedKey(keyId, idempotencyKey)))
    case Kiosk(requestId, _) => Some(RequestKey(requestId))
    case Platform(source, orderId, _) => Some(PlatformKey(source, orderId))
  }

  /** The lookup: by key, and for a website only among the orders of its own API key. */
  predicate Finds(r: Request, o: Order) {
    KeyOf(r).Some? && KeyOf(o.from) == KeyOf(r) && (r.Online? ==> o.from.Online? && o.from.keyId == r.keyId)
  }

  function Find(r: Request, orders: seq<Order>): (found: Option<nat>)
    ensures found.Some? ==> found.value < |orders| && Finds(r, orders[found.value])
    ensures found.None? ==> forall i :: 0 <= i < |orders| ==> !Finds(r, orders[i])
  {
    if |orders| == 0 then None
    else if Finds(r, orders[|orders| - 1]) then Some(|orders| - 1)
    else Find(r, orders[..|orders| - 1])
  }

  /** A unique index refuses the row: its key is taken, or its number. */
  predicate Taken(o: Order, other: Order) {
    (KeyOf(o.from).Some? && KeyOf(other.from) == KeyOf(o.from)) || other.number == o.number
  }

  predicate Blocked(o: Order, orders: seq<Order>) {
    exists i :: 0 <= i < |orders| && Taken(o, orders[i])
  }

  datatype Answer =
    | Placed(order: nat)
    | Replayed(order: nat)
    | DifferentBody
    | Failed

  /** How an insert ends: a failure, or even a clash, may be reported after the row is committed. */
  datatype Outcome = Stored | Clash(committed: bool) | Throw(committed: bool)

  datatype Phase =
    | Idle
    | Checking(r: Request)
    | Placing(r: Request, attempt: nat)
    | Clashed(r: Request, attempt: nat)
    | Done(r: Request, answer: Answer)

  datatype Event =
    | Begin(who: Caller, r: Request)
    | LookUp(who: Caller)
    | Insert(who: Caller, number: nat, outcome: Outcome)   // the number was read earlier
    | LookAgain(who: Caller)
    | Crash(who: Caller)

  datatype State = State(orders: seq<Order>, callers: map<Caller, Phase>, inserts: map<Caller, nat>)

  const START := State([], map[], map[])

  function PhaseOf(s: State, c: Caller): Phase {
    if c in s.callers then s.callers[c] else Idle
  }

  function InsertsOf(s: State, c: Caller): nat {
    if c in s.inserts then s.inserts[c] else 0
  }

  function Go(s: State, c: Caller, phase: Phase): State {
    s.(callers := s.callers[c := phase])
  }

  /** An order was found under the key: hand it back, unless a website sent something else. */
  function Reply(r: Request, orders: seq<Order>, i: nat): Answer
    requires i < |orders|
  {
    if r.Online? && orders[i].from.body != r.body then DifferentBody else Replayed(i)
  }

  function BeginStep(s: State, c: Caller, r: Request): State {
    if PhaseOf(s, c) != Idle then s
    else Go(s, c, if KeyOf(r).Some? then Checking(r) else Placing(r, 1))
  }

  function LookUpStep(s: State, c: Caller): State {
    match PhaseOf(s, c)
    case Checking(r) =>
      var found := Find(r, s.orders);
      Go(s, c, if found.Some? then Done(r, Reply(r, s.orders, found.value)) else Placing(r, 1))
    case _ => s
  }

  predicate Commits(s: State, o: Order, outcome: Outcome) {
    !Blocked(o, s.orders) && (outcome.Stored? || outcome.committed)
  }

  function AfterInsert(s: State, r: Request, attempt: nat, o: Order, outcome: Outcome): Phase {
    if outcome.Throw? then Done(r, Failed)
    else if outcome.Stored? && !Blocked(o, s.orders) then Done(r, Placed(|s.orders|))
    else Clashed(r, attempt)
  }

  function InsertStep(s: State, c: Caller, number: nat, outcome: Outcome): State {
    match PhaseOf(s, c)
    case Placing(r, attempt) =>
      var o := Order(r, number);
      Go(s, c, AfterInsert(s, r, attempt, o, outcome)).(
        orders := if Commits(s, o, outcome) then s.orders + [o] else s.orders,
        inserts := s.inserts[c := InsertsOf(s, c) + 1])
    case _ => s
  }

  function LookAgainStep(s: State, c: Caller): State {
    match PhaseOf(s, c)
    case Clashed(r, attempt) =>
      var found := Find(r, s.orders);
      Go(s, c,
         if found.Some? then Done(r, Reply(r, s.orders, found.value))
         else if attempt < MAX_ATTEMPTS then Placing(r, attempt + 1)
         else Done(r, Failed))
    case _ => s
  }

  /** The caller gets an error; calls that ended keep their answer. */
  function CrashStep(s: State, c: Caller): State {
    match PhaseOf(s, c)
    case Idle => s
    case Done(_, _) => s
    case phase => Go(s, c, Done(phase.r, Failed))
  }

  function Next(s: State, e: Event): State {
    match e
    case Begin(c, r) => BeginStep(s, c, r)
    case LookUp(c) => LookUpStep(s, c)
    case Insert(c, number, outcome) => InsertStep(s, c, number, outcome)
    case LookAgain(c) => LookAgainStep(s, c)
    case Crash(c) => CrashStep(s, c)
  }

  function Run(s: State, es: seq<Event>): State {
    if |es| == 0 then s else Next(Run(s, es[..|es| - 1]), es[|es| - 1])
  }

  // ----- what every step keeps ---------------------------------------------------------------

  ghost predicate Distinct(orders: seq<Order>) {
    forall i, j :: 0 <= i < j < |orders| ==> !Taken(orders[j], orders[i])
  }

  /** What an answer says is true of the orders. */
  predicate Truthful(r: Request, answer: Answer, orders: seq<Order>) {
    match answer
    case Placed(i) => i < |orders| && orders[i].from == r
    case Replayed(i) => i < |orders| && Finds(r, orders[i]) && (r.Online? ==> orders[i].from.body == r.body)
    case DifferentBody => r.Online? && exists i :: 0 <= i < |orders| && Finds(r, orders[i]) && orders[i].from.body != r.body
    case Failed => true
  }

  predicate PhaseSound(s: State, c: Caller, phase: Phase) {
    match phase
    case Idle => InsertsOf(s, c) == 0
    case Checking(r) => InsertsOf(s, c) == 0 && KeyOf(r).Some?
    case Placing(_, attempt) => 1 <= attempt <= MAX_ATTEMPTS && InsertsOf(s, c) == attempt - 1
    case Clashed(_, attempt) => 1 <= attempt <= MAX_ATTEMPTS && InsertsOf(s, c) == attempt
    case Done(r, answer) => InsertsOf(s, c) <= MAX_ATTEMPTS && Truthful(r, answer, s.orders)
  }

  ghost predicate Inv(s: State) {
    Distinct(s.orders) && forall c: Caller :: PhaseSound(s, c, PhaseOf(s, c))
  }

  /** Orders are only ever added. */
  lemma TruthfulStays(r: Request, answer: Answer, orders: seq<Order>, more: seq<Order>)
    requires Truthful(r, answer, orders)
    ensures Truthful(r, answer, orders + more)
  {
    if answer.DifferentBody? {
      var i :| 0 <= i < |orders| && Finds(r, orders[i]) && orders[i].from.body != r.body;
      assert (orders + more)[i] == orders[i];
    }
  }

  /** One caller moves on, and orders may be added. */
  lemma CallerMoves(s: State, t: State, c: Caller)
    requires Inv(s) && Distinct(t.orders) && s.orders <= t.orders
    requires forall d: Caller :: d != c ==> PhaseOf(t, d) == PhaseOf(s, d) && InsertsOf(t, d) == InsertsOf(s, d)
    requires PhaseSound(t, c, PhaseOf(t, c))
    ensures Inv(t)
  {
    assert t.orders == s.orders + t.orders[|s.orders|..];
    forall d: Caller ensures PhaseSound(t, d, PhaseOf(t, d)) {
      assert PhaseSound(s, d, PhaseOf(s, d));
      if d != c && PhaseOf(s, d).Done? {
        TruthfulStays(PhaseOf(s, d).r, PhaseOf(s, d).answer, s.orders, t.orders[|s.orders|..]);
      }
    }
  }

  lemma InsertKeeps(s: State, c: Caller, number: nat, outcome: Outcome)
    requires Inv(s)
    ensures Inv(InsertStep(s, c, number, outcome))
  {
    var phase, t := PhaseOf(s, c), InsertStep(s, c, number, outcome);
    if phase.Placing? {
      assert PhaseSound(s, c, phase);
      var o := Order(phase.r, number);
      assert Distinct(t.orders) by {
        if Commits(s, o, outcome) {
          forall i, j | 0 <= i < j < |t.orders| ensures !Taken(t.orders[j], t.orders[i]) {
          }
        }
      }
      CallerMoves(s, t, c);
    }
  }

  lemma FoundIsTruthful(r: Request, orders: seq<Order>)
    requires Find(r, orders).Some?
    ensures Truthful(r, Reply(r, orders, Find(r, orders).value), orders)
  {
  }

  lemma StepKeepsInv(s: State, e: Event)
    requires Inv(s)
    ensures Inv(Next(s, e))
  {
    var c := e.who;
    var phase := PhaseOf(s, c);
    assert PhaseSound(s, c, phase);
    match e
    case Begin(_, r) => CallerMoves(s, BeginStep(s, c, r), c);
    case LookUp(_) =>
      if phase.Checking? && Find(phase.r, s.orders).Some? {
        FoundIsTruthful(phase.r, s.orders);
      }
      CallerMoves(s, LookUpStep(s, c), c);
    case Insert(_, number, outcome) => InsertKeeps(s, c, number, outcome);
    case LookAgain(_) =>
      if phase.Clashed? && Find(phase.r, s.orders).Some? {
        FoundIsTruthful(phase.r, s.orders);
      }
      CallerMoves(s, LookAgainStep(s, c), c);
    case Crash(_) => CallerMoves(s, CrashStep(s, c), c);
  }

  lemma {:induction false} RunKeepsInv(es: seq<Event>)
    ensures Inv(Run(START, es))
  {
    if |es| > 0 {
      RunKeepsInv(es[..|es| - 1]);
      StepKeepsInv(Run(START, es[..|es| - 1]), es[|es| - 1]);
    }
  }

  // ----- results over every run --------------------------------------------------------------

  /** However many calls run at once, a key has at most one order, and so has a number. */
  lemma {:induction false} OneOrderPerKey(es: seq<Event>, i: nat, j: nat)
    requires var orders := Run(START, es).orders;
             i < |orders| && j < |orders|
             && (orders[i].number == orders[j].number
                 || (KeyOf(orders[i].from).Some? && KeyOf(orders[i].from) == KeyOf(orders[j].from)))
    ensures i == j
  {
    RunKeepsInv(es);
    var orders := Run(START, es).orders;
    assert Taken(orders[i], orders[j]) && Taken(orders[j], orders[i]);
  }

  predicate Succeeded(phase: Phase) {
    phase.Done? && (phase.answer.Placed? || phase.answer.Replayed?)
  }

  /**
   * Every call that succeeds under one key got the same order. Two websites' calls that succeeded
   * under one stored key came from one API key, and with the same body.
   */
  lemma {:induction false} SameKeySameOrder(es: seq<Event>, c: Caller, d: Caller)
    requires var s := Run(START, es);
             && Succeeded(PhaseOf(s, c)) && Succeeded(PhaseOf(s, d))
             && KeyOf(PhaseOf(s, c).r).Some? && KeyOf(PhaseOf(s, c).r) == KeyOf(PhaseOf(s, d).r)
    ensures var p, q := PhaseOf(Run(START, es), c), PhaseOf(Run(START, es), d);
            && p.answer.order == q.answer.order
            && (p.r.Online? && q.r.Online? ==> p.r.keyId == q.r.keyId && p.r.body == q.r.body)
  {
    var s := Run(START, es);
    RunKeepsInv(es);
    var p, q := PhaseOf(s, c), PhaseOf(s, d);
    assert PhaseSound(s, c, p) && PhaseSound(s, d, q);
    OneOrderPerKey(es, p.answer.order, q.answer.order);
  }

  /** A website told that its key was used before did use it, once, for something else. */
  lemma {:induction false} DifferentBodyIsRefused(es: seq<Event>, c: Caller, d: Caller)
    requires var s := Run(START, es);
             && PhaseOf(s, c).Done? && PhaseOf(s, c).answer == DifferentBody && Succeeded(PhaseOf(s, d))
             && KeyOf(PhaseOf(s, d).r) == KeyOf(PhaseOf(s, c).r)
    ensures PhaseOf(Run(START, es), d).r.Online? ==> PhaseOf(Run(START, es), d).r.body != PhaseOf(Run(START, es), c).r.body
  {
    var s := Run(START, es);
    RunKeepsInv(es);
    var p, q := PhaseOf(s, c), PhaseOf(s, d);
    assert PhaseSound(s, c, p) && PhaseSound(s, d, q);
    var i: nat :| i < |s.orders| && Finds(p.r, s.orders[i]) && s.orders[i].from.body != p.r.body;
    OneOrderPerKey(es, i, q.answer.order);
  }

  /** A call makes at most three inserts, whatever happens around it. */
  lemma {:induction false} AtMostThreeInserts(es: seq<Event>, c: Caller)
    ensures InsertsOf(Run(START, es), c) <= MAX_ATTEMPTS
  {
    RunKeepsInv(es);
    assert PhaseSound(Run(START, es), c, PhaseOf(Run(START, es), c));
  }

  // ----- keys of different websites, and of the kiosk ----------------------------------------

  /** The schemas allow no colon in an idempotency key, nor in a kiosk's UUID. */
  predicate WellFormed(r: Request) {
    match r
    case Online(_, idempotencyKey, _) => ':' !in idempotencyKey
    case Kiosk(requestId, _) => ':' !in requestId
    case Platform(_, _, _) => true
  }

  lemma LastColon(a: string, k: string, b: string, l: string)
    requires a + ":" + k == b + ":" + l && |k| < |l|
    ensures ':' in l
  {
    var whole := a + ":" + k;
    assert whole[|a|] == ':';
    assert (b + ":" + l)[|a|] == l[|a| - |b| - 1];
  }

  lemma ColonSplits(a: string, k: string, b: string, l: string)
    requires a + ":" + k == b + ":" + l && |k| == |l|
    ensures a == b && k == l
  {
    assert |a + ":" + k| == |b + ":" + l|;
    assert a == (a + ":" + k)[..|a|] && b == (b + ":" + l)[..|b|];
    assert k == (a + ":" + k)[|a| + 1..] && l == (b + ":" + l)[|b| + 1..];
  }

  /** Without a colon in the keys, stored keys of different websites never meet. */
  lemma ScopedKeysApart(keyId: string, key: string, otherId: string, otherKey: string)
    requires ':' !in key && ':' !in otherKey
    ensures ScopedKey(keyId, key) == ScopedKey(otherId, otherKey) <==> keyId == otherId && key == otherKey
  {
    if ScopedKey(keyId, key) == ScopedKey(otherId, otherKey) {
      var a, b := "int:" + keyId, "int:" + otherId;
      assert a + ":" + key == b + ":" + otherKey;
      if |key| < |otherKey| {
        LastColon(a, key, b, otherKey);
      } else if |otherKey| < |key| {
        LastColon(b, otherKey, a, key);
      } else {
        ColonSplits(a, key, b, otherKey);
        assert keyId == a[4..] && otherId == b[4..];
      }
    }
  }

  /** A colon in a key would be enough to make two websites meet. */
  lemma ColonLetsKeysMeet(keyId: string, key: string, otherKey: string)
    ensures ScopedKey(keyId, key + ":" + otherKey) == ScopedKey(keyId + ":" + key, otherKey)
    ensures keyId != keyId + ":" + key
  {
    assert "int:" + keyId + ":" + (key + ":" + otherKey) == "int:" + (keyId + ":" + key) + ":" + otherKey;
    assert |keyId| != |keyId + ":" + key|;
  }

  lemma ScopedHasColon(keyId: string, key: string)
    ensures ':' in ScopedKey(keyId, key)
  {
    assert ScopedKey(keyId, key)[3] == ':';
  }

  /** So an order under a website's stored key is one its own lookup finds. */
  lemma KeyIsOwn(r: Request, o: Order)
    requires WellFormed(r) && WellFormed(o.from) && KeyOf(r).Some? && KeyOf(o.from) == KeyOf(r)
    ensures Finds(r, o)
  {
    if r.Online? {
      ScopedHasColon(r.keyId, r.idempotencyKey);
      if o.from.Online? {
        ScopedKeysApart(r.keyId, r.idempotencyKey, o.from.keyId, o.from.idempotencyKey);
      }
    }
  }

  predicate AllWellFormed(es: seq<Event>) {
    forall i :: 0 <= i < |es| && es[i].Begin? ==> WellFormed(es[i].r)
  }

  ghost predicate OnlyWellFormed(s: State) {
    && (forall i :: 0 <= i < |s.orders| ==> WellFormed(s.orders[i].from))
    && (forall c: Caller :: PhaseOf(s, c) != Idle ==> WellFormed(PhaseOf(s, c).r))
  }

  lemma StepWellFormed(s: State, e: Event)
    requires OnlyWellFormed(s) && (e.Begin? ==> WellFormed(e.r))
    ensures OnlyWellFormed(Next(s, e))
  {
    assert forall d: Caller :: d != e.who ==> PhaseOf(Next(s, e), d) == PhaseOf(s, d);
    assert PhaseOf(s, e.who) != Idle ==> WellFormed(PhaseOf(s, e.who).r);
  }

  lemma {:induction false} RunWellFormed(es: seq<Event>)
    requires AllWellFormed(es)
    ensures OnlyWellFormed(Run(START, es))
  {
    if |es| > 0 {
      assert AllWellFormed(es[..|es| - 1]);
      RunWellFormed(es[..|es| - 1]);
      StepWellFormed(Run(START, es[..|es| - 1]), es[|es| - 1]);
    }
  }

  /**
   * A call whose key is taken, by an earlier call that may well have reported a failure, never
   * inserts again: its next lookup ends it with the order that holds the key, or, for a website
   * that sent something else, a refusal.
   */
  lemma {:induction false} TakenKeyEndsCall(es: seq<Event>, c: Caller, i: nat, e: Event)
    requires AllWellFormed(es)
    requires var s := Run(START, es);
             && ((PhaseOf(s, c).Checking? && e == LookUp(c)) || (PhaseOf(s, c).Clashed? && e == LookAgain(c)))
             && i < |s.orders|
             && KeyOf(PhaseOf(s, c).r).Some? && KeyOf(s.orders[i].from) == KeyOf(PhaseOf(s, c).r)
    ensures var s := Run(START, es);
            var r := PhaseOf(s, c).r;
            PhaseOf(Next(s, e), c) ==
              Done(r, if r.Online? && s.orders[i].from.body != r.body then DifferentBody else Replayed(i))
  {
    var s := Run(START, es);
    RunWellFormed(es);
    var r := PhaseOf(s, c).r;
    KeyIsOwn(r, s.orders[i]);
    OneOrderPerKey(es, i, Find(r, s.orders).value);
  }
}
