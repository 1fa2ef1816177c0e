/** One user's draws in one activity as a state machine over Redis and the shard database.
    Each Lua script and each transaction is one step; any number of requests, settlements,
    recharges, account queries, expiries and crashes interleave, over any number of days.

    Assumed of a run (`Enabled`): order ids are fresh; a request's own clock and the script's clock
    show the same day; a snapshot is loaded only when nothing is in flight or unsettled;
    counter keys do not expire; a transaction that reports an error was rolled back. */
module PartakeProtocol {
  import opened Collections
  import opened Wrappers
  import opened QuotaStore
  import Ledger

  datatype Event =
    | Start(order: RaffleOrder)                                           // a request calls the get-or-create script
    | Commit(oid: OrderId, msg: MessageId, commits: bool)                 // its order transaction ends
    | Refund(oid: OrderId)                                                // it compensates after a failed transaction
    | Award(oid: OrderId, award: int, msg: MessageId, commits: bool)      // a request that has an order saves its award
    | DropPending                                                         // and then deletes the pending hash
    | LoseCreating(oid: OrderId) | LoseFailing(oid: OrderId)              // a request dies on the way, or its raffle fails
    | LoseHolder(oid: OrderId) | LoseDropper
    | Expire                                                              // the pending hash reaches its time to live
    | Settle(oid: OrderId, commits: bool)
    | Recharge(number: BusinessNo, amounts: Amounts, commits: bool)
    | Load
    | Query(monthCreated: bool, dayCreated: bool)                         // somebody reads the account, at any time
    | Tick(date: Date)

  /** The orders minted and refunded since the last load, against the figures it loaded. */
  datatype Mints = Mints(loaded: Account, minted: set<OrderId>, refunds: seq<OrderId>)

  /** The day of the last load and the recharges since then, which Redis has not seen: all of them,
      and those that reached the loaded day's and month's rows. `spareDay` and `spareMonth` are
      account surplus that the rows did not show at the load. */
  datatype Books = Books(
    armed: Option<Date>,
    raised: Amounts,
    raisedDay: nat,
    raisedMonth: nat,
    spareDay: int,
    spareMonth: int)

  /** Requests are anonymous, so they are kept by the order they hold: inside the order transaction,
      after its failure, between having an order and saving the award, before the pending delete.
      `lost` counts units that crashed requests, or refunds that found nothing, left behind. */
  datatype State = State(
    redis: Redis,
    ledger: Ledger.State,
    now: Date,
    creating: map<OrderId, RaffleOrder>,
    failing: map<OrderId, RaffleOrder>,
    holding: multiset<OrderId>,
    dropping: nat,
    lost: nat,
    everMinted: set<OrderId>,
    everRefunded: set<OrderId>,
    mints: Mints,
    books: Books)

  const NO_QUOTA := Quota(0, 0)
  const NO_ACCOUNT := Account(NO_QUOTA, NO_QUOTA, NO_QUOTA)
  const NO_AMOUNTS := Amounts(0, 0, 0)

  function Init(now: Date): State {
    State(Redis(None, map[], map[], None), Ledger.INIT, now, map[], map[], multiset{}, 0, 0, {}, {},
          Mints(NO_ACCOUNT, {}, []), Books(None, NO_AMOUNTS, 0, 0, 0, 0))
  }

  function Without<V>(m: map<OrderId, V>, oid: OrderId): map<OrderId, V> {
    m - {oid}
  }

  // ---------------------------------------------------------------- steps

  function StartStep(s: State, o: RaffleOrder): State {
    var (redis', reply) := GetOrCreate(s.redis, o, s.now);
    match reply
    case Minted(_) =>
      s.(redis := redis', creating := s.creating[o.id := o], everMinted := s.everMinted + {o.id},
         mints := s.mints.(minted := s.mints.minted + {o.id}))
    case Reused(order) => s.(redis := redis', holding := s.holding + multiset{order.id})
    case Rejected(_) => s.(redis := redis')
  }

  function CommitStep(s: State, oid: OrderId, msg: MessageId, commits: bool): State
    requires oid in s.creating
  {
    var o := s.creating[oid];
    var ledger' := Ledger.Step(s.ledger, Ledger.CommitOrder(o, msg, commits));
    var s' := s.(ledger := ledger', creating := Without(s.creating, oid));
    match SaveLite(s.ledger.db, o, msg, commits).1
    case Ok(written) =>
      s'.(holding := s.holding + multiset{oid}, lost := if written then s.lost else s.lost + 1)
    case Err(_) => s'.(failing := s.failing[oid := o])
  }

  function RefundStep(s: State, oid: OrderId): State
    requires oid in s.failing
  {
    var (redis', done) := Compensate(s.redis, s.failing[oid]);
    s.(redis := redis', failing := Without(s.failing, oid),
       everRefunded := if done then s.everRefunded + {oid} else s.everRefunded,
       mints := if done then s.mints.(refunds := s.mints.refunds + [oid]) else s.mints,
       lost := if done then s.lost else s.lost + 1)
  }

  function AwardStep(s: State, oid: OrderId, award: int, msg: MessageId, commits: bool): State {
    var ledger' := Ledger.Step(s.ledger, Ledger.CommitAward(oid, award, msg, commits));
    s.(ledger := ledger', holding := s.holding - multiset{oid},
       dropping := s.dropping + if SaveAward(s.ledger.db, oid, award, msg, commits).1.Ok? then 1 else 0)
  }

  function RechargeStep(s: State, number: BusinessNo, a: Amounts, commits: bool): State {
    var s' := s.(ledger := Ledger.Step(s.ledger, Ledger.RechargeAccount(number, s.now, a, commits)));
    if QuotaStore.Recharge(s.ledger.db, number, s.now, a, commits).1 == Ok(true) then
      s'.(books := Raised(s.books, s.now, a))
    else s'
  }

  function Raised(b: Books, now: Date, a: Amounts): Books {
    b.(raised := Amounts(b.raised.total + a.total, b.raised.day + a.day, b.raised.month + a.month),
       raisedDay := if b.armed == Some(now) then b.raisedDay + a.day else b.raisedDay,
       raisedMonth := if b.armed.Some? && b.armed.value.month == now.month then b.raisedMonth + a.month else b.raisedMonth)
  }

  function LoadStep(s: State): State {
    var (db', r) := QueryEntity(s.ledger.db, s.now);
    match r
    case Ok(acc) =>
      s.(ledger := Ledger.Step(s.ledger, Ledger.LoadEntity(s.now, true, true)),
         redis := CacheSnapshot(s.redis, acc, s.now),
         lost := 0,
         mints := Mints(acc, {}, []),
         books := Opened(s.now, acc, s.ledger.db.account.value))
    case Err(_) => s
  }

  function Opened(now: Date, acc: Account, row: Account): Books {
    Books(Some(now), NO_AMOUNTS, 0, 0, row.day.surplus - acc.day.surplus, row.month.surplus - acc.month.surplus)
  }

  /** No order is inside its transaction, awaiting its refund, or unsettled. */
  predicate Quiet(s: State) {
    s.creating == map[] && s.failing == map[] && Unsettled(s.ledger.db.orders) == {}
  }

  predicate Enabled(s: State, e: Event) {
    match e
    case Start(o) => o.id !in s.everMinted && o.date == s.now
    case Commit(oid, _, _) => oid in s.creating
    case LoseCreating(oid) => oid in s.creating
    case Refund(oid) => oid in s.failing
    case LoseFailing(oid) => oid in s.failing
    case Award(oid, _, _, _) => oid in s.holding
    case LoseHolder(oid) => oid in s.holding
    case DropPending => 0 < s.dropping
    case LoseDropper => 0 < s.dropping
    case Load => Quiet(s)
    case Tick(date) => Before(s.now, date)
    case _ => true
  }

  function Step(s: State, e: Event): State
    requires Enabled(s, e)
  {
    match e
    case Start(o) => StartStep(s, o)
    case Commit(oid, msg, commits) => CommitStep(s, oid, msg, commits)
    case Refund(oid) => RefundStep(s, oid)
    case Award(oid, award, msg, commits) => AwardStep(s, oid, award, msg, commits)
    case DropPending => s.(redis := DeletePending(s.redis), dropping := s.dropping - 1)
    case LoseCreating(oid) => s.(creating := Without(s.creating, oid), lost := s.lost + 1)
    case LoseFailing(oid) => s.(failing := Without(s.failing, oid), lost := s.lost + 1)
    case LoseHolder(oid) => s.(holding := s.holding - multiset{oid})
    case LoseDropper => s.(dropping := s.dropping - 1)
    case Expire => s.(redis := DeletePending(s.redis))
    case Settle(oid, commits) => s.(ledger := Ledger.Step(s.ledger, Ledger.SettleOrder(oid, commits)))
    case Recharge(number, a, commits) => RechargeStep(s, number, a, commits)
    case Load => LoadStep(s)
    case Query(monthCreated, dayCreated) =>
      s.(ledger := Ledger.Step(s.ledger, Ledger.LoadEntity(s.now, monthCreated, dayCreated)))
    case Tick(date) => s.(now := date)
  }

  /** The database transaction a step performs, if any. */
  function Transaction(s: State, e: Event): Option<Ledger.Event>
    requires Enabled(s, e)
  {
    match e
    case Commit(oid, msg, commits) => Some(Ledger.CommitOrder(s.creating[oid], msg, commits))
    case Award(oid, award, msg, commits) => Some(Ledger.CommitAward(oid, award, msg, commits))
    case Settle(oid, commits) => Some(Ledger.SettleOrder(oid, commits))
    case Recharge(number, a, commits) => Some(Ledger.RechargeAccount(number, s.now, a, commits))
    case Load => Some(Ledger.LoadEntity(s.now, true, true))
    case Query(monthCreated, dayCreated) => Some(Ledger.LoadEntity(s.now, monthCreated, dayCreated))
    case _ => None
  }

  // ---------------------------------------------------------------- which queries and loads are harmless

  /** An account query finds a row missing, and creates it. */
  predicate CreatesRow(db: Db, today: Date, monthCreated: bool, dayCreated: bool) {
    db.account.Some? && if today.month !in db.monthRows then monthCreated else today !in db.dayRows && dayCreated
  }

  /** It creates no row, or no order is inside its transaction or unsettled. */
  predicate SafeQuery(s: State, monthCreated: bool, dayCreated: bool) {
    CreatesRow(s.ledger.db, s.now, monthCreated, dayCreated) ==> s.creating == map[] && Unsettled(s.ledger.db.orders) == {}
  }

  /** Today's rows, as far as they exist, show no more than the account. */
  predicate RowsFit(db: Db, today: Date) {
    db.account.Some? ==>
      && (today in db.dayRows ==> db.dayRows[today].surplus <= db.account.value.day.surplus)
      && (today.month in db.monthRows ==> db.monthRows[today.month].surplus <= db.account.value.month.surplus)
  }

  predicate ValidRun(s: State, es: seq<Event>)
    decreases |es|
  {
    es == [] || (Enabled(s, es[0]) && ValidRun(Step(s, es[0]), es[1..]))
  }

  function Run(s: State, es: seq<Event>): State
    requires ValidRun(s, es)
    decreases |es|
  {
    if es == [] then s else Run(Step(s, es[0]), es[1..])
  }

  /** Every query of the run is safe when it comes. */
  predicate SafeQueries(s: State, es: seq<Event>)
    requires ValidRun(s, es)
    decreases |es|
  {
    es == [] || ((es[0].Query? ==> SafeQuery(s, es[0].monthCreated, es[0].dayCreated))
                 && SafeQueries(Step(s, es[0]), es[1..]))
  }

  /** Every load of the run finds rows that fit. */
  predicate FittingLoads(s: State, es: seq<Event>)
    requires ValidRun(s, es)
    decreases |es|
  {
    es == [] || ((es[0].Load? ==> RowsFit(s.ledger.db, s.now)) && FittingLoads(Step(s, es[0]), es[1..]))
  }

  // ---------------------------------------------------------------- counting

  function Unsettled(orders: map<OrderId, OrderRow>): set<OrderId> {
    set o | o in orders && orders[o].sync == SyncCreate
  }

  /** Units taken from Redis that the account has not been charged for. */
  function Outstanding(s: State): nat {
    |s.creating| + |s.failing| + s.lost + |Unsettled(s.ledger.db.orders)|
  }

  /** Orders that have not been charged and still may be. */
  function Coming(s: State): nat {
    |s.creating| + |Unsettled(s.ledger.db.orders)|
  }

  lemma OneFewer<V>(m: map<OrderId, V>, oid: OrderId)
    requires oid in m
    ensures |Without(m, oid)| == |m| - 1 && Without(m, oid).Keys == m.Keys - {oid}
  {
    assert m.Keys == Without(m, oid).Keys + {oid};
  }

  lemma OneMore<V>(m: map<OrderId, V>, oid: OrderId, v: V)
    requires oid !in m
    ensures |m[oid := v]| == |m| + 1 && m[oid := v].Keys == m.Keys + {oid}
  {
    assert m[oid := v].Keys == m.Keys + {oid};
  }

  lemma SameKeys<V>(m: map<OrderId, V>, oid: OrderId, v: V)
    requires oid in m
    ensures m[oid := v].Keys == m.Keys
  {
  }

  lemma UnsettledAfterCommit(orders: map<OrderId, OrderRow>, o: OrderId, row: OrderRow)
    requires o !in orders && row.sync == SyncCreate
    ensures |Unsettled(orders[o := row])| == |Unsettled(orders)| + 1
  {
    assert Unsettled(orders[o := row]) == Unsettled(orders) + {o};
  }

  lemma UnsettledAfterSettle(orders: map<OrderId, OrderRow>, o: OrderId)
    requires o in orders && orders[o].sync == SyncCreate
    ensures |Unsettled(orders[o := orders[o].(sync := SyncCompleted)])| == |Unsettled(orders)| - 1
  {
    assert Unsettled(orders) == Unsettled(orders[o := orders[o].(sync := SyncCompleted)]) + {o};
  }

  lemma UnsettledAfterAward(orders: map<OrderId, OrderRow>, o: OrderId)
    requires o in orders
    ensures Unsettled(orders[o := orders[o].(state := OrderUsed)]) == Unsettled(orders)
  {
  }

  // ---------------------------------------------------------------- invariants

  /** Which order may be where: an order still being made has no row, and everything known was minted. */
  ghost predicate ControlInv(s: State) {
    && s.creating.Keys !! s.failing.Keys
    && s.creating.Keys + s.failing.Keys <= s.mints.minted <= s.everMinted
    && s.creating.Keys + s.failing.Keys !! s.ledger.db.orders.Keys
    && Dated(s.creating, s.books.armed) && Dated(s.failing, s.books.armed)
    && s.ledger.db.orders.Keys <= s.everMinted
  }

  ghost predicate Dated(inFlight: map<OrderId, RaffleOrder>, armed: Option<Date>) {
    forall o :: o in inFlight ==> inFlight[o].id == o && Some(inFlight[o].date) == armed
  }

  /** Every unsettled order carries the date its counters were loaded for. */
  ghost predicate DatesInv(orders: map<OrderId, OrderRow>, armed: Option<Date>) {
    forall o :: o in orders && orders[o].sync == SyncCreate ==> Some(orders[o].date) == armed
  }

  /** Awards and reuses only ever concern minted orders, and the pending order was never refunded. */
  ghost predicate OriginInv(pending: Option<Pending>, holding: multiset<OrderId>, awarded: set<OrderId>,
                            minted: set<OrderId>, refunded: set<OrderId>) {
    && (pending.Some? ==> pending.value.st == "0" && pending.value.oid in minted && pending.value.oid !in refunded)
    && refunded <= minted
    && (forall o :: o in holding ==> o in minted)
    && awarded <= minted
  }

  /** No refund is repeated, and none was for an order that is still being made or that has a row. */
  ghost predicate RefundsInv(refunds: seq<OrderId>, ever: set<OrderId>, minted: set<OrderId>, making: set<OrderId>,
                             committed: set<OrderId>) {
    && Distinct(refunds)
    && (forall o :: o in refunds ==> o in minted && o in ever)
    && ever !! making && ever !! committed
  }

  /** One ledger line: what Redis still offers, what is outstanding, what the row never offered
      and what was recharged since make up the surplus. */
  ghost predicate Balanced(counter: int, outstanding: int, spare: int, raised: int, surplus: int) {
    0 <= counter && 0 <= spare && 0 <= raised && counter + outstanding + spare + raised == surplus
  }

  /** Redis and the account: the total counter. */
  ghost predicate TotalInv(total: Option<int>, account: Option<Account>, k: int, b: Books) {
    match b.armed
    case None => total.None? && k == 0 && (if account.Some? then account.value.total.surplus else 0) == b.raised.total
    case Some(_) =>
      total.Some? && account.Some? && Balanced(total.value, k, 0, b.raised.total, account.value.total.surplus)
  }

  /** The same for the counters of the loaded day and month, which have the account above them and a row each. */
  ghost predicate PeriodsInv(redis: Redis, account: Option<Account>, dayRows: map<Date, Quota>,
                             monthRows: map<nat, Quota>, k: int, b: Books) {
    match b.armed
    case None =>
      var acc := if account.Some? then account.value else NO_ACCOUNT;
      acc.day.surplus == b.raised.day && acc.month.surplus == b.raised.month
    case Some(a) =>
      && a in redis.day && a.month in redis.month && account.Some? && a in dayRows && a.month in monthRows
      && Balanced(redis.day[a], k, b.spareDay, b.raised.day, account.value.day.surplus)
      && Balanced(redis.month[a.month], k, b.spareMonth, b.raised.month, account.value.month.surplus)
      && Balanced(redis.day[a], k, 0, b.raisedDay, dayRows[a].surplus)
      && Balanced(redis.month[a.month], k, 0, b.raisedMonth, monthRows[a.month].surplus)
  }

  predicate UpTo(d: Date, now: Date) { d == now || Before(d, now) }

  /** No counter is dated later than the last load, and no load later than today. */
  ghost predicate KeysInv(days: set<Date>, months: set<nat>, armed: Option<Date>, now: Date) {
    if armed.None? then days == {} && months == {}
    else
      && UpTo(armed.value, now)
      && (forall d :: d in days ==> UpTo(d, armed.value))
      && (forall m :: m in months ==> m <= armed.value.month)
  }

  /** No row is dated later than today. */
  ghost predicate DatedRows(days: set<Date>, months: set<nat>, now: Date) {
    (forall d :: d in days ==> UpTo(d, now)) && (forall m :: m in months ==> m <= now.month)
  }

  /** The row of a period that has not been loaded yet leaves room in the account for the orders that may still
      be charged to another period. */
  ghost predicate RowsInv(account: Option<Account>, dayRows: map<Date, Quota>, monthRows: map<nat, Quota>, coming: nat,
                          b: Books, now: Date) {
    && (if b.armed == Some(now) then b.raisedDay == b.raised.day
        else now in dayRows ==> account.Some? && dayRows[now].surplus + coming <= account.value.day.surplus)
    && (if b.armed.Some? && b.armed.value.month == now.month then b.raisedMonth == b.raised.month
        else now.month in monthRows ==>
               account.Some? && monthRows[now.month].surplus + coming <= account.value.month.surplus)
  }

  /** The three counters have moved in lockstep since the load, down once per mint and up once per refund,
      and none is negative. */
  ghost predicate LockstepInv(redis: Redis, armed: Option<Date>, m: Mints) {
    armed.Some? ==>
      && redis.total.Some? && armed.value in redis.day && armed.value.month in redis.month
      && 0 <= redis.total.value && 0 <= redis.day[armed.value] && 0 <= redis.month[armed.value.month]
      && redis.total.value + |m.minted| == m.loaded.total.surplus + |m.refunds|
      && redis.day[armed.value] + |m.minted| == m.loaded.day.surplus + |m.refunds|
      && redis.month[armed.value.month] + |m.minted| == m.loaded.month.surplus + |m.refunds|
  }

  ghost predicate OrdersInv(s: State) {
    && ControlInv(s)
    && DatesInv(s.ledger.db.orders, s.books.armed)
    && OriginInv(s.redis.pending, s.holding, s.ledger.db.records.Keys, s.everMinted, s.everRefunded)
    && RefundsInv(s.mints.refunds, s.everRefunded, s.mints.minted, s.creating.Keys + s.failing.Keys, s.ledger.db.orders.Keys)
  }

  /** What every run keeps of the quota. */
  ghost predicate UnitsInv(s: State) {
    && TotalInv(s.redis.total, s.ledger.db.account, Outstanding(s), s.books)
    && KeysInv(s.redis.day.Keys, s.redis.month.Keys, s.books.armed, s.now)
    && LockstepInv(s.redis, s.books.armed, s.mints)
    && DatedRows(s.ledger.db.dayRows.Keys, s.ledger.db.monthRows.Keys, s.now)
  }

  /** The books of the loaded day and month balance too. */
  ghost predicate PeriodInv(s: State) {
    PeriodsInv(s.redis, s.ledger.db.account, s.ledger.db.dayRows, s.ledger.db.monthRows, Outstanding(s), s.books)
  }

  /** And the next load will find rows that fit the account. */
  ghost predicate AheadInv(s: State) {
    RowsInv(s.ledger.db.account, s.ledger.db.dayRows, s.ledger.db.monthRows, Coming(s), s.books, s.now)
  }

  ghost predicate QuotaInv(s: State) {
    UnitsInv(s) && PeriodInv(s) && AheadInv(s)
  }
}
