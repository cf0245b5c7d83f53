/** Crediting of top-up orders under the order lock: the callbacks of controller/topup.go and
    the two handlers that share their orders. Reading a row, storing a row and running a
    transaction are atomic; every other interleaving is allowed, and each of the three may
    fail. A store or a transaction that reports an error may still have written. */
module TopUpCredit {
  import opened OrderLock

  type User = nat

  datatype Provider = Epay | Stripe | OtherProvider
  datatype Status = Pending | Success | Failed | Expired
  datatype Order = Order(user: User, provider: Provider, status: Status, paidWith: string,
                         amount: int, money: real)

  /** What a thread came for. */
  datatype Job =
    | EpayNotify(paidWith: string)  // a verified Epay callback with TRADE_SUCCESS
    | AdminComplete                 // AdminCompleteTopUp
    | StripeFailed                  // a Stripe "payment failed" event

  datatype Stage = Begin | Loaded(order: Order) | Stored(order: Order) | Finished

  datatype Work = Work(job: Job, stage: Stage)

  datatype Credit = Credit(trade: TradeNo, user: User, quota: int, job: Job)

  /** `ledger` is the list of credits in the order in which they were made; `missed` holds
      the orders that were stored as success by a callback that could not credit them. */
  datatype World = World(
    lock: OrderLock.State,
    orders: map<TradeNo, Order>,
    work: map<Tid, Work>,
    quota: map<User, int>,
    ledger: seq<Credit>,
    missed: set<TradeNo>)

  datatype Outcome = Done | Refused | RefusedButWritten

  /** IntPart: truncation toward zero. */
  function Truncate(x: real): int {
    if x >= 0.0 then x.Floor else -(-x).Floor
  }

  function QuotaOf(order: Order, perUnit: real, byMoney: bool): int {
    if byMoney then Truncate(order.money * perUnit) else Truncate(order.amount as real * perUnit)
  }

  /** The integer that is left when the fraction of `x` is dropped. */
  predicate IsWholePart(q: int, x: real) {
    if x >= 0.0 then q as real <= x < (q + 1) as real else (q - 1) as real < x <= q as real
  }

  /** An order is worth its amount, but its money when a Stripe order is completed by hand. */
  predicate ByMoney(order: Order, job: Job) {
    job.AdminComplete? && order.provider == Stripe
  }

  /** How an order is turned into quota. The machine works alike for every rate. */
  type Rate = (Order, bool) -> int

  /** The rate of the program, with the quota per unit that is configured. */
  function RateOf(perUnit: real): Rate {
    (order, byMoney) => QuotaOf(order, perUnit, byMoney)
  }

  /** It drops the fraction of money or amount times quota per unit, and is positive when that makes a whole unit. */
  lemma RateIsWholePart(perUnit: real, order: Order, byMoney: bool, x: real)
    requires x == if byMoney then order.money * perUnit else order.amount as real * perUnit
    ensures IsWholePart(RateOf(perUnit)(order, byMoney), x)
    ensures RateOf(perUnit)(order, byMoney) > 0 <==> x >= 1.0
  {
    TruncateIs(x);
  }

  lemma TruncateIs(x: real)
    ensures IsWholePart(Truncate(x), x) && (Truncate(x) > 0 <==> x >= 1.0)
  {
  }

  function Balance(quota: map<User, int>, user: User): int {
    if user in quota then quota[user] else 0
  }

  predicate Init(w: World) {
    && OrderLock.Init(w.lock)
    && w.orders == map[] && w.work == map[] && w.quota == map[]
    && w.ledger == [] && w.missed == {}
  }

  // ---------------------------------------------------------------- steps

  function Settle(w: World, trade: TradeNo, order: Order, quota: int, job: Job): World {
    w.(ledger := w.ledger + [Credit(trade, order.user, quota, job)],
       quota := w.quota[order.user := Balance(w.quota, order.user) + quota])
  }

  function Advance(w: World, t: Tid, stage: Stage): World
    requires t in w.work
  {
    w.(work := w.work[t := w.work[t].(stage := stage)])
  }

  /** One atomic action of the handler of thread `t`, which holds the order's lock. */
  function Handle(w: World, t: Tid, outcome: Outcome, rate: Rate): World
    requires t in w.work && t in w.lock.threads
  {
    var trade := w.lock.threads[t].trade;
    var Work(job, stage) := w.work[t];
    match (job, stage)
    case (EpayNotify(_), Begin) =>
      if outcome == Done && trade in w.orders && w.orders[trade].provider == Epay && w.orders[trade].status == Pending
      then Advance(w, t, Loaded(w.orders[trade]))
      else Advance(w, t, Finished)
    case (EpayNotify(paidWith), Loaded(order)) =>
      var order' := order.(status := Success, paidWith := paidWith);
      (match outcome
       case Done => Advance(w, t, Stored(order')).(orders := w.orders[trade := order'])
       case Refused => Advance(w, t, Finished)
       case RefusedButWritten =>
         Advance(w, t, Finished).(orders := w.orders[trade := order'], missed := w.missed + {trade}))
    case (EpayNotify(_), Stored(order)) =>
      if outcome != Refused then
        Settle(Advance(w, t, Finished), trade, order, rate(order, false), job)
      else
        Advance(w, t, Finished).(missed := w.missed + {trade})
    case (AdminComplete, Begin) =>
      if outcome != Refused && trade in w.orders && w.orders[trade].status == Pending then
        var order := w.orders[trade];
        var quota := rate(order, order.provider == Stripe);
        if quota <= 0 then Advance(w, t, Finished)
        else Settle(Advance(w, t, Finished).(orders := w.orders[trade := order.(status := Success)]),
                    trade, order, quota, job)
      else
        Advance(w, t, Finished)
    case (StripeFailed, Begin) =>
      if outcome == Done && trade in w.orders && w.orders[trade].provider == Stripe && w.orders[trade].status == Pending
      then Advance(w, t, Loaded(w.orders[trade]))
      else Advance(w, t, Finished)
    case (StripeFailed, Loaded(order)) =>
      if outcome == Refused then Advance(w, t, Finished)
      else Advance(w, t, Finished).(orders := w.orders[trade := order.(status := Failed)])
    case _ => w
  }

  /** A request arrives and its thread calls LockOrder. */
  predicate Arrives(w: World, w': World, t: Tid, th: Thread, job: Job) {
    && OrderLock.Calls(w.lock, w'.lock, t, th)
    && w' == w.(lock := w'.lock, work := w.work[t := Work(job, Begin)])
  }

  /** LockOrder or UnlockOrder advances; UnlockOrder is deferred until the handler returns. */
  ghost predicate MovesLock(w: World, w': World, t: Tid) {
    && t in w.work && t in w.lock.threads
    && (w.lock.threads[t].pc == Critical ==> w.work[t].stage == Finished)
    && OrderLock.Acts(w.lock, w'.lock, t)
    && w' == w.(lock := w'.lock)
  }

  predicate Handles(w: World, w': World, t: Tid, outcome: Outcome, rate: Rate) {
    && t in w.work && t in w.lock.threads
    && w.lock.threads[t].pc == Critical
    && w.work[t].stage != Finished
    && w' == Handle(w, t, outcome, rate)
  }

  /** RequestEpay and its siblings insert a pending order under a new trade number. */
  predicate Inserts(w: World, w': World, trade: TradeNo, order: Order) {
    && trade !in w.orders && order.status == Pending
    && w' == w.(orders := w.orders[trade := order])
  }

  ghost predicate Step(w: World, w': World, rate: Rate) {
    || (exists t, th, job :: Arrives(w, w', t, th, job))
    || (exists t :: MovesLock(w, w', t))
    || (exists t, outcome :: Handles(w, w', t, outcome, rate))
    || (exists trade, order :: Inserts(w, w', trade, order))
  }

  ghost predicate StepsAt(run: seq<World>, i: int, rate: Rate) {
    0 <= i < |run| - 1 && Step(run[i], run[i + 1], rate)
  }

  ghost predicate Run(run: seq<World>, rate: Rate) {
    && |run| > 0
    && Init(run[0])
    && forall i :: 0 <= i < |run| - 1 ==> StepsAt(run, i, rate)
  }

  // ---------------------------------------------------------------- invariant

  predicate Credited(w: World, trade: TradeNo) {
    exists i :: 0 <= i < |w.ledger| && w.ledger[i].trade == trade
  }

  /** Thread `t` has stored the order as success and has not credited it yet. */
  predicate AboutToCredit(w: World, t: Tid, trade: TradeNo) {
    && t in w.work && t in w.lock.threads
    && w.lock.threads[t].trade == trade
    && w.work[t].stage.Stored?
  }

  predicate WorkOk(w: World, t: Tid)
    requires t in w.work
  {
    && t in w.lock.threads
    && (w.work[t].stage.Loaded? || w.work[t].stage.Stored? ==>
          var trade, order := w.lock.threads[t].trade, w.work[t].stage.order;
          && w.lock.threads[t].pc == Critical
          && trade in w.orders && w.orders[trade] == order
          && order.status == (if w.work[t].stage.Loaded? then Pending else Success)
          && (w.work[t].stage.Stored? ==>
                w.work[t].job.EpayNotify? && trade !in w.missed && !Credited(w, trade))
          && !w.work[t].job.AdminComplete?
          && (w.work[t].job.EpayNotify? ==> order.provider == Epay))
  }

  ghost predicate TradeOk(w: World, trade: TradeNo) {
    && (Credited(w, trade) ==> trade in w.orders && w.orders[trade].status == Success)
    && (trade in w.missed ==>
          trade in w.orders && w.orders[trade].status == Success && !Credited(w, trade))
    && (trade in w.orders && w.orders[trade].status == Success ==>
          Credited(w, trade) || trade in w.missed || exists t :: AboutToCredit(w, t, trade))
  }

  predicate EntryOk(w: World, i: nat)
    requires i < |w.ledger|
  {
    var c := w.ledger[i];
    && c.trade in w.orders && w.orders[c.trade].status == Success
    && w.orders[c.trade].user == c.user
    && (c.job.EpayNotify? ==> w.orders[c.trade].provider == Epay)
    && forall j :: 0 <= j < i ==> w.ledger[j].trade != c.trade
  }

  function Total(ledger: seq<Credit>, user: User): int {
    if ledger == [] then 0
    else
      var last := ledger[|ledger| - 1];
      Total(ledger[..|ledger| - 1], user) + if last.user == user then last.quota else 0
  }

  ghost predicate Inv(w: World) {
    && OrderLock.Inv(w.lock)
    && (forall t <- w.work :: WorkOk(w, t))
    && (forall trade :: TradeOk(w, trade))
    && (forall i :: 0 <= i < |w.ledger| ==> EntryOk(w, i))
    && (forall user :: Balance(w.quota, user) == Total(w.ledger, user))
  }

  // ---------------------------------------------------------------- steps of the lock

  predicate SameBooks(w: World, w': World) {
    w'.orders == w.orders && w'.ledger == w.ledger && w'.missed == w.missed && w'.quota == w.quota
  }

  lemma TradeStays(w: World, w': World, trade: TradeNo)
    requires SameBooks(w, w') && TradeOk(w, trade)
    requires forall u :: AboutToCredit(w, u, trade) ==> AboutToCredit(w', u, trade)
    ensures TradeOk(w', trade)
  {
    if t :| AboutToCredit(w, t, trade) { assert AboutToCredit(w', t, trade); }
  }

  lemma ArriveKeepsWork(w: World, w': World, t: Tid, th: Thread, job: Job, u: Tid)
    requires Arrives(w, w', t, th, job) && u in w'.work
    requires u in w.work ==> WorkOk(w, u)
    ensures WorkOk(w', u)
  {
  }

  lemma EntryStays(w: World, w': World, i: nat)
    requires SameBooks(w, w') && i < |w.ledger| && EntryOk(w, i)
    ensures EntryOk(w', i)
  {
  }

  lemma ArriveKeepsTrade(w: World, w': World, t: Tid, th: Thread, job: Job, trade: TradeNo)
    requires Arrives(w, w', t, th, job) && TradeOk(w, trade) && (t in w.work ==> WorkOk(w, t))
    ensures TradeOk(w', trade)
  {
    TradeStays(w, w', trade);
  }

  lemma ArriveKeepsInv(w: World, w': World, t: Tid, th: Thread, job: Job)
    requires Inv(w) && Arrives(w, w', t, th, job)
    ensures Inv(w')
  {
    OrderLock.CallKeepsInv(w.lock, w'.lock, t, th);
    forall u | u in w'.work ensures WorkOk(w', u) { ArriveKeepsWork(w, w', t, th, job, u); }
    forall trade ensures TradeOk(w', trade) { ArriveKeepsTrade(w, w', t, th, job, trade); }
    forall i | 0 <= i < |w.ledger| ensures EntryOk(w', i) { EntryStays(w, w', i); }
  }

  lemma MoveLockKeepsWork(w: World, w': World, t: Tid, u: Tid)
    requires MovesLock(w, w', t) && u in w.work && WorkOk(w, u)
    ensures WorkOk(w', u)
  {
    OrderLock.ActMovesOneThread(w.lock, w'.lock, t);
  }

  lemma MoveLockKeepsTrade(w: World, w': World, t: Tid, trade: TradeNo)
    requires MovesLock(w, w', t) && TradeOk(w, trade)
    ensures TradeOk(w', trade)
  {
    OrderLock.ActMovesOneThread(w.lock, w'.lock, t);
    TradeStays(w, w', trade);
  }

  lemma MoveLockKeepsInv(w: World, w': World, t: Tid)
    requires Inv(w) && MovesLock(w, w', t)
    ensures Inv(w')
  {
    OrderLock.ActKeepsInv(w.lock, w'.lock, t);
    forall u | u in w'.work ensures WorkOk(w', u) { MoveLockKeepsWork(w, w', t, u); }
    forall trade ensures TradeOk(w', trade) { MoveLockKeepsTrade(w, w', t, trade); }
    forall i | 0 <= i < |w.ledger| ensures EntryOk(w', i) { EntryStays(w, w', i); }
  }

  lemma InsertKeepsInv(w: World, w': World, trade: TradeNo, order: Order)
    requires Inv(w) && Inserts(w, w', trade, order)
    ensures Inv(w')
  {
    forall u | u in w'.work ensures WorkOk(w', u) { assert WorkOk(w, u); }
    forall x ensures TradeOk(w', x) {
      assert TradeOk(w, x);
      assert Credited(w', x) <==> Credited(w, x);
      forall u | AboutToCredit(w, u, x) ensures AboutToCredit(w', u, x) {}
    }
    forall i | 0 <= i < |w.ledger| ensures EntryOk(w', i) { assert EntryOk(w, i); }
  }

  // ---------------------------------------------------------------- steps of a handler

  /** The lock at work: two handlers inside the same order are one. */
  lemma Alone(w: World, t: Tid, u: Tid)
    requires Inv(w) && t in w.lock.threads && u in w.lock.threads
    requires w.lock.threads[t].pc == Critical && w.lock.threads[u].pc == Critical
    requires w.lock.threads[t].trade == w.lock.threads[u].trade
    ensures t == u
  {
    assert OrderLock.ThreadOk(w.lock, t) && OrderLock.ThreadOk(w.lock, u);
  }

  lemma HandleFrame(w: World, w': World, t: Tid, outcome: Outcome, rate: Rate)
    requires Handles(w, w', t, outcome, rate)
    ensures w'.lock == w.lock
    ensures t in w'.work && w'.work == w.work[t := w'.work[t]]
  {
  }

  lemma HandleKeepsOtherRow(w: World, w': World, t: Tid, outcome: Outcome, rate: Rate, x: TradeNo)
    requires Handles(w, w', t, outcome, rate) && x != w.lock.threads[t].trade
    ensures (x in w'.orders <==> x in w.orders) && (x in w.orders ==> w'.orders[x] == w.orders[x])
    ensures x in w'.missed <==> x in w.missed
  {
  }

  lemma HandleAppends(w: World, w': World, t: Tid, outcome: Outcome, rate: Rate)
    requires Handles(w, w', t, outcome, rate)
    ensures w'.ledger == w.ledger || (|w'.ledger| == |w.ledger| + 1 && w'.ledger[..|w.ledger|] == w.ledger
                                      && w'.ledger[|w.ledger|].trade == w.lock.threads[t].trade)
  {
  }

  lemma HandleKeepsOtherCredit(w: World, w': World, t: Tid, outcome: Outcome, rate: Rate, x: TradeNo)
    requires Handles(w, w', t, outcome, rate) && x != w.lock.threads[t].trade
    ensures Credited(w', x) <==> Credited(w, x)
  {
    HandleAppends(w, w', t, outcome, rate);
    assert forall i :: 0 <= i < |w.ledger| ==> w'.ledger[i] == w.ledger[i];
  }

  /** A handler credits at most its own order, once, and touches no other order. */
  lemma HandleTouchesOneOrder(w: World, w': World, t: Tid, outcome: Outcome, rate: Rate, x: TradeNo)
    requires Handles(w, w', t, outcome, rate)
    requires x != w.lock.threads[t].trade
    ensures (x in w'.orders <==> x in w.orders) && (x in w.orders ==> w'.orders[x] == w.orders[x])
    ensures x in w'.missed <==> x in w.missed
    ensures Credited(w', x) <==> Credited(w, x)
    ensures forall u :: AboutToCredit(w, u, x) <==> AboutToCredit(w', u, x)
  {
    HandleKeepsOtherRow(w, w', t, outcome, rate, x);
    HandleKeepsOtherCredit(w, w', t, outcome, rate, x);
    HandleFrame(w, w', t, outcome, rate);
  }

  /** A step inside an order appends at most one credit, and only for that order. */
  lemma HandleCredits(w: World, w': World, t: Tid, outcome: Outcome, rate: Rate)
    requires Handles(w, w', t, outcome, rate)
    requires WorkOk(w, t)
    ensures w'.ledger == w.ledger ==> w'.quota == w.quota
    ensures w'.ledger != w.ledger ==>
              && w.lock.threads[t].trade in w.orders
              && var order, trade := w.orders[w.lock.threads[t].trade], w.lock.threads[t].trade;
              && var quota := rate(order, ByMoney(order, w.work[t].job));
              && w'.ledger == w.ledger + [Credit(trade, order.user, quota, w.work[t].job)]
              && w'.quota == w.quota[order.user := Balance(w.quota, order.user) + quota]
              && trade in w'.orders && w'.orders[trade] == order.(status := Success)
              && (w.work[t].job.EpayNotify? ==>
                    order.status == Success && order.provider == Epay && w.work[t].stage == Stored(order))
              && (!w.work[t].job.EpayNotify? ==> order.status == Pending)
  {
  }

  lemma HandleKeepsOwnWork(w: World, w': World, t: Tid, outcome: Outcome, rate: Rate)
    requires Handles(w, w', t, outcome, rate) && t in w'.work
    requires WorkOk(w, t) && TradeOk(w, w.lock.threads[t].trade)
    ensures WorkOk(w', t)
  {
  }

  lemma HandleKeepsOtherWork(w: World, w': World, t: Tid, outcome: Outcome, rate: Rate, u: Tid)
    requires Handles(w, w', t, outcome, rate) && u in w.work && u in w'.work && u != t
    requires WorkOk(w, u)
    requires w.work[u].stage.Loaded? || w.work[u].stage.Stored? ==>
               w.lock.threads[u].trade != w.lock.threads[t].trade
    ensures WorkOk(w', u)
  {
    HandleFrame(w, w', t, outcome, rate);
    if w.lock.threads[u].trade != w.lock.threads[t].trade {
      HandleTouchesOneOrder(w, w', t, outcome, rate, w.lock.threads[u].trade);
    }
  }

  lemma HandleKeepsWork(w: World, w': World, t: Tid, outcome: Outcome, rate: Rate)
    requires Inv(w) && Handles(w, w', t, outcome, rate)
    ensures forall u <- w'.work :: WorkOk(w', u)
  {
    HandleFrame(w, w', t, outcome, rate);
    assert WorkOk(w, t) && TradeOk(w, w.lock.threads[t].trade);
    HandleKeepsOwnWork(w, w', t, outcome, rate);
    forall u | u in w'.work && u != t ensures WorkOk(w', u) {
      assert WorkOk(w, u);
      if w.work[u].stage.Loaded? || w.work[u].stage.Stored? {
        if w.lock.threads[u].trade == w.lock.threads[t].trade { Alone(w, t, u); }
      }
      HandleKeepsOtherWork(w, w', t, outcome, rate, u);
    }
  }

  lemma HandleKeepsTrade(w: World, w': World, t: Tid, outcome: Outcome, rate: Rate)
    requires Handles(w, w', t, outcome, rate)
    requires WorkOk(w, t) && TradeOk(w, w.lock.threads[t].trade)
    requires forall u | AboutToCredit(w, u, w.lock.threads[t].trade) :: u == t
    ensures TradeOk(w', w.lock.threads[t].trade)
  {
    var trade := w.lock.threads[t].trade;
    HandleCredits(w, w', t, outcome, rate);
    if w'.ledger != w.ledger {
      assert w'.ledger[|w.ledger|].trade == trade;
    }
    if w'.work[t].stage.Stored? { assert AboutToCredit(w', t, trade); }
  }

  lemma TotalAfter(ledger: seq<Credit>, c: Credit, user: User)
    ensures Total(ledger + [c], user) == Total(ledger, user) + if c.user == user then c.quota else 0
  {
    assert (ledger + [c])[..|ledger|] == ledger;
  }

  lemma HandleKeepsEntries(w: World, w': World, t: Tid, outcome: Outcome, rate: Rate, i: nat)
    requires Handles(w, w', t, outcome, rate)
    requires WorkOk(w, t) && TradeOk(w, w.lock.threads[t].trade)
    requires i < |w'.ledger|
    requires i < |w.ledger| ==> EntryOk(w, i)
    ensures EntryOk(w', i)
  {
    var trade := w.lock.threads[t].trade;
    HandleCredits(w, w', t, outcome, rate);
    if i < |w.ledger| {
      assert Credited(w, w.ledger[i].trade);
      if w.ledger[i].trade != trade {
        HandleTouchesOneOrder(w, w', t, outcome, rate, w.ledger[i].trade);
      }
    } else {
      assert !Credited(w, trade);
    }
  }

  lemma HandleKeepsBalance(w: World, w': World, t: Tid, outcome: Outcome, rate: Rate, user: User)
    requires Handles(w, w', t, outcome, rate) && WorkOk(w, t)
    requires Balance(w.quota, user) == Total(w.ledger, user)
    ensures Balance(w'.quota, user) == Total(w'.ledger, user)
  {
    HandleCredits(w, w', t, outcome, rate);
    if w'.ledger != w.ledger { TotalAfter(w.ledger, w'.ledger[|w.ledger|], user); }
  }

  lemma HandleKeepsInv(w: World, w': World, t: Tid, outcome: Outcome, rate: Rate)
    requires Inv(w) && Handles(w, w', t, outcome, rate)
    ensures Inv(w')
  {
    var trade := w.lock.threads[t].trade;
    assert WorkOk(w, t) && TradeOk(w, trade);
    HandleKeepsWork(w, w', t, outcome, rate);
    forall u | AboutToCredit(w, u, trade) ensures u == t { assert WorkOk(w, u); Alone(w, t, u); }
    HandleKeepsTrade(w, w', t, outcome, rate);
    HandleFrame(w, w', t, outcome, rate);
    forall x | x != trade ensures TradeOk(w', x) {
      assert TradeOk(w, x);
      HandleTouchesOneOrder(w, w', t, outcome, rate, x);
    }
    forall i | 0 <= i < |w'.ledger| ensures EntryOk(w', i) {
      assert i < |w.ledger| ==> EntryOk(w, i);
      HandleKeepsEntries(w, w', t, outcome, rate, i);
    }
    forall user ensures Balance(w'.quota, user) == Total(w'.ledger, user) {
      HandleKeepsBalance(w, w', t, outcome, rate, user);
    }
  }

  lemma {:induction false} RunKeepsInv(run: seq<World>, rate: Rate, i: nat)
    requires Run(run, rate) && i < |run|
    ensures Inv(run[i])
  {
    if i > 0 {
      RunKeepsInv(run, rate, i - 1);
      var w, w' := run[i - 1], run[i];
      assert StepsAt(run, i - 1, rate);
      if t, th, job :| Arrives(w, w', t, th, job) { ArriveKeepsInv(w, w', t, th, job); }
      else if t :| MovesLock(w, w', t) { MoveLockKeepsInv(w, w', t); }
      else if t, outcome :| Handles(w, w', t, outcome, rate) { HandleKeepsInv(w, w', t, outcome, rate); }
      else { var trade, order :| Inserts(w, w', trade, order); InsertKeepsInv(w, w', trade, order); }
    }
  }

  // ---------------------------------------------------------------- what users are promised

  /** In every interleaving of callbacks, manual completions and failure events, with any
      pattern of failing stores and transactions, no order is credited twice. */
  lemma CreditedAtMostOnce(run: seq<World>, rate: Rate, i: nat, j: nat, k: nat)
    requires Run(run, rate) && i < |run|
    requires j < |run[i].ledger| && k < |run[i].ledger|
    requires run[i].ledger[j].trade == run[i].ledger[k].trade
    ensures j == k
  {
    RunKeepsInv(run, rate, i);
    assert EntryOk(run[i], j) && EntryOk(run[i], k);
  }

  /** Every balance is the sum of that user's credits: nothing is lost between the two. */
  lemma BalanceIsSumOfCredits(run: seq<World>, rate: Rate, i: nat, user: User)
    requires Run(run, rate) && i < |run|
    ensures Balance(run[i].quota, user) == Total(run[i].ledger, user)
  {
    RunKeepsInv(run, rate, i);
  }

  /** What a new credit says about the moment before it: an Epay callback credits only an
      Epay order already stored as success, a manual completion only a pending order; the
      amount is the order's own and the order was never credited before. */
  lemma CreditIsJustified(run: seq<World>, rate: Rate, i: nat)
    requires Run(run, rate) && i + 1 < |run|
    requires run[i + 1].ledger != run[i].ledger
    ensures exists c: Credit ::
              && run[i + 1].ledger == run[i].ledger + [c]
              && c.trade in run[i].orders && !Credited(run[i], c.trade)
              && var order := run[i].orders[c.trade];
              && c.user == order.user
              && c.quota == rate(order, ByMoney(order, c.job))
              && (c.job.EpayNotify? ==> order.provider == Epay && order.status == Success)
              && (!c.job.EpayNotify? ==> order.status == Pending)
              && c.trade in run[i + 1].orders && run[i + 1].orders[c.trade].status == Success
  {
    RunKeepsInv(run, rate, i);
    var w, w' := run[i], run[i + 1];
    assert StepsAt(run, i, rate);
    var t, outcome :| Handles(w, w', t, outcome, rate);
    assert WorkOk(w, t) && TradeOk(w, w.lock.threads[t].trade);
    HandleCredits(w, w', t, outcome, rate);
    var c := w'.ledger[|w.ledger|];
    assert w'.ledger == w.ledger + [c] && c.trade == w.lock.threads[t].trade;
  }

  /** When every handler has returned, an order is stored as success exactly when it was
      either credited or given up after its store, and never both. */
  lemma SuccessIsCreditedOrMissed(run: seq<World>, rate: Rate, i: nat, trade: TradeNo)
    requires Run(run, rate) && i < |run|
    requires forall t <- run[i].work :: run[i].work[t].stage == Finished
    ensures (trade in run[i].orders && run[i].orders[trade].status == Success) <==>
            (Credited(run[i], trade) || trade in run[i].missed)
    ensures !(Credited(run[i], trade) && trade in run[i].missed)
  {
    RunKeepsInv(run, rate, i);
    assert TradeOk(run[i], trade);
  }

  // ---------------------------------------------------------------- what a handler does

  predicate AtWork(w: World, t: Tid) {
    t in w.work && t in w.lock.threads && w.lock.threads[t].pc == Critical
  }

  function StepsLeft(stage: Stage): nat {
    match stage
    case Begin => 3 case Loaded(_) => 2 case Stored(_) => 1 case Finished => 0
  }

  lemma StageAdvances(w: World, w': World, t: Tid, outcome: Outcome, rate: Rate)
    requires Handles(w, w', t, outcome, rate) && WorkOk(w, t)
    ensures t in w'.work && StepsLeft(w'.work[t].stage) < StepsLeft(w.work[t].stage)
  {
  }

  /** A handler returns after at most three steps of its own, whatever fails. */
  lemma HandlerAdvances(run: seq<World>, i: nat, t: Tid, outcome: Outcome, rate: Rate)
    requires Run(run, rate) && i + 1 < |run| && Handles(run[i], run[i + 1], t, outcome, rate)
    ensures t in run[i + 1].work && StepsLeft(run[i + 1].work[t].stage) < StepsLeft(run[i].work[t].stage)
  {
    RunKeepsInv(run, rate, i);
    StageAdvances(run[i], run[i + 1], t, outcome, rate);
  }

  /** The order as a callback stores it. */
  function Paid(order: Order, job: Job): Order
    requires job.EpayNotify?
  {
    order.(status := Success, paidWith := job.paidWith)
  }

  /** The row of the thread's trade number is a pending order of this provider. */
  predicate IsPending(w: World, t: Tid, provider: Provider)
    requires AtWork(w, t)
  {
    var trade := w.lock.threads[t].trade;
    trade in w.orders && w.orders[trade].status == Pending && w.orders[trade].provider == provider
  }

  /** One new credit for the thread's order, on the balance of its user. */
  predicate CreditsOnce(w: World, w': World, t: Tid, user: User, quota: int)
    requires AtWork(w, t)
  {
    && w'.ledger == w.ledger + [Credit(w.lock.threads[t].trade, user, quota, w.work[t].job)]
    && w'.quota == w.quota[user := Balance(w.quota, user) + quota]
  }

  predicate CreditsNothing(w: World, w': World) {
    w'.ledger == w.ledger && w'.quota == w.quota
  }

  /** What an Epay callback does when nobody comes between its three steps, for all outcomes of reading the row, storing
      it and crediting the user. */
  lemma CallbackEnds(w: World, t: Tid, read: Outcome, store: Outcome, credit: Outcome, rate: Rate)
    requires AtWork(w, t) && w.work[t].stage == Begin && w.work[t].job.EpayNotify?
    ensures var trade, w1 := w.lock.threads[t].trade, Handle(w, t, read, rate);
            && AtWork(w1, t)
            && var w2 := Handle(w1, t, store, rate);
            && AtWork(w2, t)
            && var w3 := Handle(w2, t, credit, rate);
            var takes := read == Done && IsPending(w, t, Epay);
            var stored, credited := takes && store != Refused, takes && store == Done && credit != Refused;
            && w3.lock == w.lock && w3.work == w.work[t := w.work[t].(stage := Finished)]
            && w3.orders == (if stored then w.orders[trade := Paid(w.orders[trade], w.work[t].job)] else w.orders)
            && w3.missed == (if stored && !credited then w.missed + {trade} else w.missed)
            && if credited then CreditsOnce(w, w3, t, w.orders[trade].user,
                                            rate(Paid(w.orders[trade], w.work[t].job), false))
               else CreditsNothing(w, w3)
  {
    var trade, w1 := w.lock.threads[t].trade, Handle(w, t, read, rate);
    if read == Done && IsPending(w, t, Epay) {
      var order := Paid(w.orders[trade], w.work[t].job);
      assert w1 == w.(work := w.work[t := Work(w.work[t].job, Loaded(w.orders[trade]))]);
      if store == Done {
        var w2 := Handle(w1, t, store, rate);
        assert w2 == w.(work := w.work[t := Work(w.work[t].job, Stored(order))], orders := w.orders[trade := order]);
      }
    } else {
      assert w1 == w.(work := w.work[t := Work(w.work[t].job, Finished)]);
    }
  }

  /** A manual completion is one transaction. It credits a pending order exactly when the transaction is written and the
      order is worth some quota. */
  lemma CompletionEnds(w: World, t: Tid, outcome: Outcome, rate: Rate)
    requires AtWork(w, t) && w.work[t].stage == Begin && w.work[t].job.AdminComplete?
    ensures var trade, w' := w.lock.threads[t].trade, Handle(w, t, outcome, rate);
            var takes := && outcome != Refused && trade in w.orders && w.orders[trade].status == Pending
                         && rate(w.orders[trade], w.orders[trade].provider == Stripe) > 0;
            && w'.lock == w.lock && w'.work == w.work[t := w.work[t].(stage := Finished)] && w'.missed == w.missed
            && w'.orders == (if takes then w.orders[trade := w.orders[trade].(status := Success)] else w.orders)
            && if takes then CreditsOnce(w, w', t, w.orders[trade].user,
                                         rate(w.orders[trade], w.orders[trade].provider == Stripe))
               else CreditsNothing(w, w')
  {
  }

  /** A Stripe failure event marks a pending Stripe order as failed when it can, and credits nothing. */
  lemma FailureEventEnds(w: World, t: Tid, read: Outcome, store: Outcome, rate: Rate)
    requires AtWork(w, t) && w.work[t].stage == Begin && w.work[t].job.StripeFailed?
    ensures var trade, w1 := w.lock.threads[t].trade, Handle(w, t, read, rate);
            && AtWork(w1, t)
            && var w2 := Handle(w1, t, store, rate);
            var fails := read == Done && store != Refused && IsPending(w, t, Stripe);
            && w2.lock == w.lock && w2.work == w.work[t := w.work[t].(stage := Finished)] && w2.missed == w.missed
            && CreditsNothing(w, w2)
            && w2.orders == if fails then w.orders[trade := w.orders[trade].(status := Failed)] else w.orders
  {
  }

  // ---------------------------------------------------------------- between its steps

  ghost predicate StepsOnce(w: World, w': World, t: Tid, rate: Rate) {
    exists outcome :: Handles(w, w', t, outcome, rate)
  }

  /** The handler of `t` takes no step from state `i` to state `j`. */
  ghost predicate Waits(run: seq<World>, i: nat, j: nat, t: Tid, rate: Rate) {
    j < |run| && forall n | i <= n < j :: !StepsOnce(run[n], run[n + 1], t, rate)
  }

  lemma OthersLeaveWork(w: World, w': World, t: Tid, rate: Rate)
    requires Inv(w) && Step(w, w', rate) && AtWork(w, t) && w.work[t].stage != Finished
    requires !StepsOnce(w, w', t, rate)
    ensures AtWork(w', t) && w'.work[t] == w.work[t] && w'.lock.threads[t] == w.lock.threads[t]
  {
    if u, th, job :| Arrives(w, w', u, th, job) {
    } else if u :| MovesLock(w, w', u) {
      OrderLock.ActMovesOneThread(w.lock, w'.lock, u);
    } else if u, outcome :| Handles(w, w', u, outcome, rate) {
      assert StepsOnce(w, w', u, rate);
      HandleFrame(w, w', u, outcome, rate);
    }
  }

  /** What a handler at work holds stays as it is. */
  predicate Keeps(w: World, w': World, t: Tid) {
    AtWork(w, t) && w.work[t].stage != Finished ==>
      AtWork(w', t) && w'.work[t] == w.work[t] && w'.lock.threads[t] == w.lock.threads[t]
  }

  lemma StepKeeps(run: seq<World>, n: nat, t: Tid, rate: Rate)
    requires Run(run, rate) && n + 1 < |run| && !StepsOnce(run[n], run[n + 1], t, rate)
    ensures Keeps(run[n], run[n + 1], t)
  {
    RunKeepsInv(run, rate, n);
    assert StepsAt(run, n, rate);
    if AtWork(run[n], t) && run[n].work[t].stage != Finished { OthersLeaveWork(run[n], run[n + 1], t, rate); }
  }

  lemma {:induction false} KeepsAlong(worlds: seq<World>, i: nat, j: nat, t: Tid)
    requires i <= j < |worlds| && forall n | i <= n < j :: Keeps(worlds[n], worlds[n + 1], t)
    ensures Keeps(worlds[i], worlds[j], t)
    decreases j
  {
    if i < j { KeepsAlong(worlds, i, j - 1, t); }
  }

  lemma KeepsWhileWaiting(run: seq<World>, i: nat, j: nat, t: Tid, rate: Rate)
    requires Run(run, rate) && i <= j < |run| && Waits(run, i, j, t, rate)
    ensures Keeps(run[i], run[j], t)
  {
    forall n | i <= n < j ensures Keeps(run[n], run[n + 1], t) { StepKeeps(run, n, t, rate); }
    KeepsAlong(run, i, j, t);
  }

  /** While it waits, everything a handler holds stays as it was, whatever the others do. */
  lemma WorkWaits(run: seq<World>, i: nat, j: nat, t: Tid, rate: Rate)
    requires Run(run, rate) && i <= j < |run| && Waits(run, i, j, t, rate)
    requires AtWork(run[i], t) && run[i].work[t].stage != Finished
    ensures AtWork(run[j], t) && run[j].work[t] == run[i].work[t]
    ensures run[j].lock.threads[t] == run[i].lock.threads[t]
  {
    KeepsWhileWaiting(run, i, j, t, rate);
  }

  lemma LoadStep(w: World, w': World, t: Tid, rate: Rate)
    requires Handles(w, w', t, Done, rate)
    requires w.work[t].stage == Begin && w.work[t].job.EpayNotify? && IsPending(w, t, Epay)
    ensures AtWork(w', t) && w'.lock == w.lock
    ensures w'.work[t] == Work(w.work[t].job, Loaded(w.orders[w.lock.threads[t].trade]))
  {
  }

  lemma StoreStep(w: World, w': World, t: Tid, rate: Rate)
    requires Handles(w, w', t, Done, rate) && w.work[t].stage.Loaded? && w.work[t].job.EpayNotify?
    ensures var trade, order := w.lock.threads[t].trade, Paid(w.work[t].stage.order, w.work[t].job);
            && AtWork(w', t) && w'.lock == w.lock && w'.work[t] == Work(w.work[t].job, Stored(order))
            && trade in w'.orders && w'.orders[trade] == order
  {
  }

  lemma CreditStep(w: World, w': World, t: Tid, rate: Rate)
    requires Handles(w, w', t, Done, rate) && w.work[t].stage.Stored? && w.work[t].job.EpayNotify? && Inv(w)
    ensures !Credited(w, w.lock.threads[t].trade)
    ensures CreditsOnce(w, w', t, w.work[t].stage.order.user, rate(w.work[t].stage.order, false))
  {
    assert WorkOk(w, t);
  }

  lemma StoreAfterLoad(w0: World, w1: World, w2: World, w3: World, t: Tid, rate: Rate)
    requires Handles(w0, w1, t, Done, rate) && Keeps(w1, w2, t) && Handles(w2, w3, t, Done, rate)
    requires w0.work[t].stage == Begin && w0.work[t].job.EpayNotify? && IsPending(w0, t, Epay)
    ensures var trade := w0.lock.threads[t].trade;
            var order := Paid(w0.orders[trade], w0.work[t].job);
            && AtWork(w3, t) && w3.lock.threads[t].trade == trade && w3.work[t] == Work(w0.work[t].job, Stored(order))
            && trade in w3.orders && w3.orders[trade] == order
  {
    LoadStep(w0, w1, t, rate);
    StoreStep(w2, w3, t, rate);
  }

  /** In every interleaving: a callback that finds a pending Epay order, and whose first two steps succeed, has stored
      that order as success and is about to credit it, whatever the other threads do in between. */
  lemma CallbackStores(run: seq<World>, i: nat, j: nat, t: Tid, rate: Rate)
    requires Run(run, rate) && i < j < |run| - 1
    requires Handles(run[i], run[i + 1], t, Done, rate) && Waits(run, i + 1, j, t, rate)
    requires Handles(run[j], run[j + 1], t, Done, rate)
    requires run[i].work[t].stage == Begin && run[i].work[t].job.EpayNotify? && IsPending(run[i], t, Epay)
    ensures var trade := run[i].lock.threads[t].trade;
            var order := Paid(run[i].orders[trade], run[i].work[t].job);
            && AtWork(run[j + 1], t) && run[j + 1].lock.threads[t].trade == trade
            && run[j + 1].work[t] == Work(run[i].work[t].job, Stored(order))
            && trade in run[j + 1].orders && run[j + 1].orders[trade] == order
  {
    KeepsWhileWaiting(run, i + 1, j, t, rate);
    StoreAfterLoad(run[i], run[i + 1], run[j], run[j + 1], t, rate);
  }

  /** And a callback that has stored its order credits it with its next step, for the first time, when that succeeds. */
  lemma StoredIsCredited(run: seq<World>, j: nat, k: nat, t: Tid, rate: Rate)
    requires Run(run, rate) && j <= k < |run| - 1 && AtWork(run[j], t)
    requires run[j].work[t].stage.Stored? && run[j].work[t].job.EpayNotify?
    requires Waits(run, j, k, t, rate) && Handles(run[k], run[k + 1], t, Done, rate)
    ensures var trade, order := run[j].lock.threads[t].trade, run[j].work[t].stage.order;
            && AtWork(run[k], t) && run[k].lock.threads[t].trade == trade && run[k].work[t].job == run[j].work[t].job
            && !Credited(run[k], trade) && CreditsOnce(run[k], run[k + 1], t, order.user, rate(order, false))
  {
    WorkWaits(run, j, k, t, rate);
    RunKeepsInv(run, rate, k);
    CreditStep(run[k], run[k + 1], t, rate);
  }

  // ---------------------------------------------------------------- what can always happen

  lemma RunGrows(run: seq<World>, w': World, rate: Rate)
    requires Run(run, rate) && Step(run[|run| - 1], w', rate)
    ensures Run(run + [w'], rate)
  {
    var longer := run + [w'];
    forall k | 0 <= k < |longer| - 1 ensures StepsAt(longer, k, rate) {
      assert longer[k] == run[k];
      if k < |run| - 1 { assert StepsAt(run, k, rate) && longer[k + 1] == run[k + 1]; }
    }
  }

  /** In every run a pending order can be inserted under a new trade number. */
  lemma OrdersCanBeInserted(run: seq<World>, trade: TradeNo, order: Order, rate: Rate)
    requires Run(run, rate) && trade !in run[|run| - 1].orders && order.status == Pending
    ensures var w := run[|run| - 1];
            Run(run + [w.(orders := w.orders[trade := order])], rate)
  {
    var w := run[|run| - 1];
    var w' := w.(orders := w.orders[trade := order]);
    assert Inserts(w, w', trade, order);
    RunGrows(run, w', rate);
  }

  /** In every run a request of any kind can arrive for any trade number, at an idle thread or a new one. */
  lemma RequestsCanArrive(run: seq<World>, t: Tid, th: Thread, job: Job, rate: Rate)
    requires Run(run, rate) && th.pc == Enter
    requires t in run[|run| - 1].lock.threads ==> run[|run| - 1].lock.threads[t].pc == Idle
    ensures var w := run[|run| - 1];
            Run(run + [w.(lock := OrderLock.Set(w.lock, t, th), work := w.work[t := Work(job, Begin)])], rate)
  {
    var w := run[|run| - 1];
    var w' := w.(lock := OrderLock.Set(w.lock, t, th), work := w.work[t := Work(job, Begin)]);
    assert Arrives(w, w', t, th, job);
    RunGrows(run, w', rate);
  }

  /** And a handler that has the lock can always take its next step, with any outcome. */
  lemma HandlersCanStep(run: seq<World>, t: Tid, outcome: Outcome, rate: Rate)
    requires Run(run, rate) && AtWork(run[|run| - 1], t) && run[|run| - 1].work[t].stage != Finished
    ensures Run(run + [Handle(run[|run| - 1], t, outcome, rate)], rate)
  {
    var w := run[|run| - 1];
    assert Handles(w, Handle(w, t, outcome, rate), t, outcome, rate);
    RunGrows(run, Handle(w, t, outcome, rate), rate);
  }
}
