/** Requests that read their clock before midnight and reach the script after it: the counters of the new day
    pay for an order that is dated, and settled, on the old one. */
module LateOrders {
  import opened Wrappers
  import opened QuotaStore
  import opened PartakeProtocol
  import opened PartakeSafety
  import opened PartakeDraws
  import opened FirstDay
  import Ledger

  /** The state after a late request's script and its order transaction: `o` carries an earlier date than the
      script's clock, which `Enabled` excludes from the protocol. */
  function LateOrder(s: State, o: RaffleOrder, msg: MessageId): State
    requires GetOrCreate(s.redis, o, s.now).1.Minted?
  {
    CommitStep(StartStep(s, o), o.id, msg, true)
  }

  predicate DayUsedUp(db: Db, date: Date) {
    date in db.dayRows && db.dayRows[date].surplus <= 0
  }

  predicate MonthUsedUp(db: Db, month: nat) {
    month in db.monthRows && db.monthRows[month].surplus <= 0
  }

  // ---------------------------------------------------------------- the first attempt

  lemma LateOrderIsCommitted(s: State, o: RaffleOrder, msg: MessageId)
    requires GetOrCreate(s.redis, o, s.now).1.Minted? && o.id !in s.ledger.db.orders && msg !in s.ledger.db.tasks
    ensures var db := LateOrder(s, o, msg).ledger.db;
            && db == SaveLite(s.ledger.db, o, msg, true).0
            && o.id in db.orders && db.orders[o.id] == OrderRow(o.date, o.strategy, OrderCreate, SyncCreate)
            && db.account == s.ledger.db.account && db.dayRows == s.ledger.db.dayRows && db.monthRows == s.ledger.db.monthRows
  {
    assert StartStep(s, o).ledger == s.ledger && StartStep(s, o).creating[o.id] == o;
  }

  /** A mint leaves a unit in the account, in today's row and in this month's. */
  lemma MintMeansSurplus(s: State, o: RaffleOrder)
    requires UnitsInv(s) && PeriodInv(s) && GetOrCreate(s.redis, o, s.now).1.Minted?
    ensures s.ledger.db.account.Some?
    ensures var acc := s.ledger.db.account.value; 0 < acc.total.surplus && 0 < acc.month.surplus && 0 < acc.day.surplus
    ensures !DayUsedUp(s.ledger.db, s.now) && !MonthUsedUp(s.ledger.db, s.now.month)
  {
    MintIsToday(s, o);
  }

  /** Exactly when a late order can be settled: neither the row of its own day nor that of its own month,
      which the script never looked at, is used up. */
  lemma LateOrderSettlesIff(s: State, o: RaffleOrder, msg: MessageId)
    requires UnitsInv(s) && PeriodInv(s) && GetOrCreate(s.redis, o, s.now).1.Minted?
    requires o.id !in s.ledger.db.orders && msg !in s.ledger.db.tasks
    ensures SettleOne(LateOrder(s, o, msg).ledger.db, o.id, true).1.Ok?
       <==> !DayUsedUp(s.ledger.db, o.date) && !MonthUsedUp(s.ledger.db, o.date.month)
  {
    MintMeansSurplus(s, o);
    LateOrderIsCommitted(s, o, msg);
  }

  // ---------------------------------------------------------------- every later attempt

  /** The order waits for its first settlement, and the row of its day (or, if not `byDay`, of its month) is used up. */
  predicate Stuck(db: Db, oid: OrderId, date: Date, byDay: bool) {
    && oid in db.orders && db.orders[oid].sync == SyncCreate && db.orders[oid].date == date
    && (if byDay then DayUsedUp(db, date) else MonthUsedUp(db, date.month))
  }

  /** The transaction credits no recharge to that row. */
  predicate Bypasses(e: Ledger.Event, date: Date, byDay: bool) {
    e.RechargeAccount? ==> if byDay then e.date != date else e.date.month != date.month
  }

  lemma StuckIsRefused(db: Db, oid: OrderId, date: Date, byDay: bool, commits: bool)
    requires Stuck(db, oid, date, byDay)
    ensures SettleOne(db, oid, commits).0 == db && SettleOne(db, oid, commits).1.Err?
  {
  }

  lemma SettleLeavesStuck(db: Db, other: OrderId, commits: bool, oid: OrderId, date: Date, byDay: bool)
    requires Stuck(db, oid, date, byDay)
    ensures Stuck(SettleOne(db, other, commits).0, oid, date, byDay)
  {
    if other == oid { StuckIsRefused(db, oid, date, byDay, commits); }
  }

  lemma CommitLeavesStuck(db: Db, o: RaffleOrder, msg: MessageId, commits: bool, oid: OrderId, date: Date, byDay: bool)
    requires Stuck(db, oid, date, byDay)
    ensures Stuck(SaveLite(db, o, msg, commits).0, oid, date, byDay)
  {
  }

  lemma AwardLeavesStuck(db: Db, order: OrderId, award: int, msg: MessageId, commits: bool, oid: OrderId, date: Date,
                         byDay: bool)
    requires Stuck(db, oid, date, byDay)
    ensures Stuck(SaveAward(db, order, award, msg, commits).0, oid, date, byDay)
  {
  }

  lemma RechargeLeavesStuck(db: Db, number: BusinessNo, on: Date, a: Amounts, commits: bool, oid: OrderId, date: Date,
                            byDay: bool)
    requires Stuck(db, oid, date, byDay) && (if byDay then on != date else on.month != date.month)
    ensures Stuck(QuotaStore.Recharge(db, number, on, a, commits).0, oid, date, byDay)
  {
  }

  lemma QueryLeavesStuck(db: Db, today: Date, monthCreated: bool, dayCreated: bool, oid: OrderId, date: Date,
                         byDay: bool)
    requires Stuck(db, oid, date, byDay)
    ensures Stuck(QueryEntityUpTo(db, today, monthCreated, dayCreated).0, oid, date, byDay)
  {
  }

  lemma StepLeavesStuck(l: Ledger.State, e: Ledger.Event, oid: OrderId, date: Date, byDay: bool)
    requires Stuck(l.db, oid, date, byDay) && Bypasses(e, date, byDay)
    ensures Stuck(Ledger.Step(l, e).db, oid, date, byDay)
  {
    match e
    case CommitOrder(o, msg, commits) => CommitLeavesStuck(l.db, o, msg, commits, oid, date, byDay);
    case CommitAward(order, award, msg, commits) => AwardLeavesStuck(l.db, order, award, msg, commits, oid, date, byDay);
    case SettleOrder(order, commits) => SettleLeavesStuck(l.db, order, commits, oid, date, byDay);
    case RechargeAccount(number, on, a, commits) => RechargeLeavesStuck(l.db, number, on, a, commits, oid, date, byDay);
    case LoadEntity(today, monthCreated, dayCreated) =>
      QueryLeavesStuck(l.db, today, monthCreated, dayCreated, oid, date, byDay);
  }

  lemma {:induction false} RunLeavesStuck(l: Ledger.State, es: seq<Ledger.Event>, oid: OrderId, date: Date, byDay: bool)
    requires Stuck(l.db, oid, date, byDay) && forall i :: 0 <= i < |es| ==> Bypasses(es[i], date, byDay)
    ensures Stuck(Ledger.Run(l, es).db, oid, date, byDay)
    decreases |es|
  {
    if es != [] {
      StepLeavesStuck(l, es[0], oid, date, byDay);
      RunLeavesStuck(Ledger.Step(l, es[0]), es[1..], oid, date, byDay);
    }
  }

  /** Recharges are dated today or later. */
  predicate FromNowOn(es: seq<Ledger.Event>, now: Date) {
    forall i :: 0 <= i < |es| && es[i].RechargeAccount? ==> UpTo(now, es[i].date)
  }

  /** Main result: a late order whose first settlement is refused is refused for ever, whatever orders,
      awards, settlements, recharges and loads follow, on whatever days. */
  lemma LateOrderIsRefusedForEver(s: State, o: RaffleOrder, msg: MessageId, es: seq<Ledger.Event>)
    requires UnitsInv(s) && PeriodInv(s) && GetOrCreate(s.redis, o, s.now).1.Minted? && Before(o.date, s.now)
    requires o.id !in s.ledger.db.orders && msg !in s.ledger.db.tasks && FromNowOn(es, s.now)
    requires SettleOne(LateOrder(s, o, msg).ledger.db, o.id, true).1.Err?
    ensures SettleOne(Ledger.Run(LateOrder(s, o, msg).ledger, es).db, o.id, true).1.Err?
  {
    MintMeansSurplus(s, o);
    LateOrderSettlesIff(s, o, msg);
    LateOrderIsCommitted(s, o, msg);
    var byDay := DayUsedUp(s.ledger.db, o.date);
    RunLeavesStuck(LateOrder(s, o, msg).ledger, es, o.id, o.date, byDay);
    StuckIsRefused(Ledger.Run(LateOrder(s, o, msg).ledger, es).db, o.id, o.date, byDay, true);
  }

  // ---------------------------------------------------------------- the load after a settled late order

  /** What a late order that is settled at once leaves behind: its own day's row pays for it, not today's. */
  lemma LateOrderMoves(s: State, o: RaffleOrder, msg: MessageId)
    requires GetOrCreate(s.redis, o, s.now).1.Minted? && Before(o.date, s.now) && s.ledger.db.account.Some?
    requires o.id !in s.ledger.db.orders && msg !in s.ledger.db.tasks
    requires SettleOne(LateOrder(s, o, msg).ledger.db, o.id, true).1 == Ok(true)
    ensures var acc := s.ledger.db.account.value;
            var s2 := Step(LateOrder(s, o, msg), Settle(o.id, true));
            && s2.now == s.now && s2.creating == Without(s.creating[o.id := o], o.id) && s2.failing == s.failing
            && s2.ledger.db.account == Some(Account(Spend(acc.total), Spend(acc.day), Spend(acc.month)))
            && Charge(s.ledger.db.dayRows, o.date, acc.day) == Some(s2.ledger.db.dayRows)
            && Charge(s.ledger.db.monthRows, o.date.month, acc.month) == Some(s2.ledger.db.monthRows)
            && s2.ledger.db.orders == s.ledger.db.orders[o.id := OrderRow(o.date, o.strategy, OrderCreate, SyncCompleted)]
  {
    LateOrderIsCommitted(s, o, msg);
    assert StartStep(s, o).creating == s.creating[o.id := o];
  }

  lemma LateOrderTransactions(s: State, o: RaffleOrder, msg: MessageId)
    requires GetOrCreate(s.redis, o, s.now).1.Minted?
    ensures Step(LateOrder(s, o, msg), Settle(o.id, true)).ledger
         == Ledger.Step(Ledger.Step(s.ledger, Ledger.CommitOrder(o, msg, true)), Ledger.SettleOrder(o.id, true))
  {
    assert StartStep(s, o).ledger == s.ledger && StartStep(s, o).creating[o.id] == o;
  }

  lemma TwoTransactionsKeepInv(l: Ledger.State, e1: Ledger.Event, e2: Ledger.Event)
    requires Ledger.Inv(l)
    ensures Ledger.Inv(Ledger.Step(Ledger.Step(l, e1), e2))
  {
    Ledger.StepKeepsInv(l, e1);
    Ledger.StepKeepsInv(Ledger.Step(l, e1), e2);
  }

  lemma LateOrderKeepsLedger(s: State, o: RaffleOrder, msg: MessageId)
    requires Ledger.Inv(s.ledger) && GetOrCreate(s.redis, o, s.now).1.Minted?
    ensures Ledger.Inv(Step(LateOrder(s, o, msg), Settle(o.id, true)).ledger)
  {
    LateOrderTransactions(s, o, msg);
    TwoTransactionsKeepInv(s.ledger, Ledger.CommitOrder(o, msg, true), Ledger.SettleOrder(o.id, true));
  }

  lemma LateOrderKeepsUnits(s: State, o: RaffleOrder, msg: MessageId)
    requires UnitsInv(s) && s.creating == map[] && s.failing == map[]
    requires GetOrCreate(s.redis, o, s.now).1.Minted?
    requires o.id !in s.mints.minted && o.id !in s.ledger.db.orders && msg !in s.ledger.db.tasks
    ensures UnitsInv(LateOrder(s, o, msg)) && LateOrder(s, o, msg).now == s.now
  {
    StartKeepsQuota(s, o);
    var s1 := StartStep(s, o);
    assert s1.creating == map[o.id := o] && s1.ledger == s.ledger && s1.failing == s.failing;
    CommitKeepsQuota(s1, o.id, msg, true);
  }

  lemma SettledLateOrderKeepsUnits(s: State, o: RaffleOrder, msg: MessageId)
    requires UnitsInv(s) && s.creating == map[] && s.failing == map[]
    requires GetOrCreate(s.redis, o, s.now).1.Minted? && Before(o.date, s.now)
    requires o.id !in s.mints.minted && o.id !in s.ledger.db.orders && msg !in s.ledger.db.tasks
    ensures UnitsInv(Step(LateOrder(s, o, msg), Settle(o.id, true)))
  {
    LateOrderKeepsUnits(s, o, msg);
    LateOrderIsCommitted(s, o, msg);
    SettleKeepsUnits(LateOrder(s, o, msg), o.id, true);
  }

  /** Rows fit after a settled late order exactly when there was room for it besides today's row, and this month's. */
  lemma RowsFitAfterLateOrderIff(s: State, o: RaffleOrder, msg: MessageId)
    requires GetOrCreate(s.redis, o, s.now).1.Minted? && Before(o.date, s.now)
    requires o.id !in s.ledger.db.orders && msg !in s.ledger.db.tasks
    requires s.ledger.db.account.Some? && s.now in s.ledger.db.dayRows && s.now.month in s.ledger.db.monthRows
    requires SettleOne(LateOrder(s, o, msg).ledger.db, o.id, true).1 == Ok(true) && RowsFit(s.ledger.db, s.now)
    ensures var acc := s.ledger.db.account.value;
            RowsFit(Step(LateOrder(s, o, msg), Settle(o.id, true)).ledger.db, s.now) <==>
              && s.ledger.db.dayRows[s.now].surplus < acc.day.surplus
              && (o.date.month == s.now.month || s.ledger.db.monthRows[s.now.month].surplus < acc.month.surplus)
  {
    LateOrderMoves(s, o, msg);
  }

  lemma SettledLateOrderIsQuiet(s: State, o: RaffleOrder, msg: MessageId)
    requires Quiet(s) && GetOrCreate(s.redis, o, s.now).1.Minted? && Before(o.date, s.now) && s.ledger.db.account.Some?
    requires o.id !in s.ledger.db.orders && msg !in s.ledger.db.tasks
    requires SettleOne(LateOrder(s, o, msg).ledger.db, o.id, true).1 == Ok(true)
    ensures Quiet(Step(LateOrder(s, o, msg), Settle(o.id, true)))
  {
    LateOrderMoves(s, o, msg);
    var s2 := Step(LateOrder(s, o, msg), Settle(o.id, true));
    assert s2.creating == map[];
    assert Unsettled(s2.ledger.db.orders) == Unsettled(s.ledger.db.orders);
  }

  lemma RowsOfToday(s: State, o: RaffleOrder)
    requires QuotaInv(s) && Quiet(s) && GetOrCreate(s.redis, o, s.now).1.Minted?
    ensures s.ledger.db.account.Some? && s.now in s.ledger.db.dayRows && s.now.month in s.ledger.db.monthRows
    ensures RowsFit(s.ledger.db, s.now)
  {
    MintIsToday(s, o);
    QuietRowsFit(s);
  }

  /** A late order that is settled still breaks the books for others, at the next load of that day, unless the account
      had more units for the day than today's row, and for the month unless it is the order's month too: a quiet
      load then keeps the books if and only if that is so. */
  lemma LoadAfterLateOrderIff(s: State, o: RaffleOrder, msg: MessageId)
    requires PartakeSafety.Inv(s) && QuotaInv(s) && Quiet(s)
    requires GetOrCreate(s.redis, o, s.now).1.Minted? && Before(o.date, s.now) && o.id !in s.everMinted
    requires msg !in s.ledger.db.tasks && SettleOne(LateOrder(s, o, msg).ledger.db, o.id, true).1 == Ok(true)
    ensures s.ledger.db.account.Some? && s.now in s.ledger.db.dayRows && s.now.month in s.ledger.db.monthRows
    ensures var acc := s.ledger.db.account.value;
            var s2 := Step(LateOrder(s, o, msg), Settle(o.id, true));
            && Enabled(s2, Load)
            && (QuotaInv(Step(s2, Load)) <==>
                  && s.ledger.db.dayRows[s.now].surplus < acc.day.surplus
                  && (o.date.month == s.now.month || s.ledger.db.monthRows[s.now.month].surplus < acc.month.surplus))
  {
    RowsOfToday(s, o);
    StartIsFresh(s, o);
    LateOrderKeepsLedger(s, o, msg);
    SettledLateOrderKeepsUnits(s, o, msg);
    SettledLateOrderIsQuiet(s, o, msg);
    RowsFitAfterLateOrderIff(s, o, msg);
    LateOrderMoves(s, o, msg);
    LoadKeepsBooksIff(Step(LateOrder(s, o, msg), Settle(o.id, true)));
  }

  // ---------------------------------------------------------------- it does happen

  const LATE := RaffleOrder(8, 1, FIRST)

  /** The first day's order is settled; a day later one more unit is credited and loaded. */
  const SETTLED: seq<Event> := [Settle(7, true), Expire, LoseHolder(7), Tick(SECOND)]

  /** The next morning: the first day's row is used up and nothing is pending. */
  ghost predicate NextDay(s: State) {
    && s.redis.pending == None && s.now == SECOND && InFlight(s) == 0 && s.everMinted == {7}
    && s.ledger.db.orders == map[7 := OrderRow(FIRST, 1, OrderCreate, SyncCompleted)]
    && s.ledger.db.account == Some(Account(Quota(2, 1), Quota(1, 0), Quota(2, 1)))
    && s.ledger.db.dayRows == map[FIRST := Quota(1, 0)] && s.ledger.db.monthRows == map[1 := Quota(2, 1)]
    && s.ledger.db.recharges.Keys == {1} && s.ledger.db.tasks.Keys == {0}
  }

  lemma FirstDaySettles(s: State)
    requires AfterDraw(s)
    ensures SequentialRun(s, SETTLED) && NextDay(Run(s, SETTLED))
  {
    var s1 := Step(s, Settle(7, true));
    assert s1.ledger.db.account == Some(Account(Quota(2, 1), Quota(1, 0), Quota(2, 1)));
    assert s1.ledger.db.dayRows == map[FIRST := Quota(1, 0)] && s1.ledger.db.monthRows == map[1 := Quota(2, 1)];
    assert s1.ledger.db.orders == map[7 := OrderRow(FIRST, 1, OrderCreate, SyncCompleted)];
    assert s1.holding - multiset{7} == multiset{};
    FourSteps(s, Settle(7, true), Expire, LoseHolder(7), Tick(SECOND));
  }

  /** A state in which a late request is minted and its day is used up. */
  ghost predicate Ready(s: State) {
    && s.now == SECOND && LATE.id !in s.ledger.db.orders && 1 !in s.ledger.db.tasks
    && DayUsedUp(s.ledger.db, FIRST) && GetOrCreate(s.redis, LATE, s.now).1.Minted?
  }

  const TOP_UP: Event := Recharge(2, Amounts(1, 1, 1), true)

  /** The second day's top-up is credited but not loaded. */
  ghost predicate ToppedUp(s: State) {
    && s.ledger.db.dayRows == map[FIRST := Quota(1, 0), SECOND := Quota(1, 1)] && s.ledger.db.monthRows == map[1 := Quota(3, 2)]
    && s.ledger.db.account == Some(Account(Quota(3, 2), Quota(2, 1), Quota(3, 2)))
    && s.ledger.db.orders == map[7 := OrderRow(FIRST, 1, OrderCreate, SyncCompleted)] && s.ledger.db.tasks.Keys == {0}
    && s.redis.pending == None && s.now == SECOND && Quiet(s)
  }

  lemma SecondDayRecharges(s: State)
    requires NextDay(s)
    ensures ToppedUp(Step(s, TOP_UP))
  {
    var s1 := RechargeStep(s, 2, Amounts(1, 1, 1), true);
    assert Unsettled(s1.ledger.db.orders) == {};
    assert s1.ledger.db.dayRows == map[FIRST := Quota(1, 0), SECOND := Quota(1, 1)];
  }

  lemma SecondDayLoads(s: State)
    requires ToppedUp(s)
    ensures Ready(LoadStep(s))
  {
    assert QueryEntity(s.ledger.db, SECOND).1 == Ok(Account(Quota(3, 2), Quota(1, 1), Quota(3, 2)));
  }

  /** A run of the protocol, in which every request keeps to its day, after which a request that read its clock
      the day before is granted an order that is never settled. */
  lemma LateOrderHappens()
    ensures exists es :: ValidRun(Init(FIRST), es) && StuckLater(Run(Init(FIRST), es))
  {
    SecondMorning();
    ThenLateOrderIsStuck(DRAWN + SETTLED);
  }

  lemma SecondMorning()
    ensures SequentialRun(Init(FIRST), DRAWN + SETTLED) && NextDay(Run(Init(FIRST), DRAWN + SETTLED))
    ensures NoQueries(DRAWN + SETTLED)
  {
    DrawOnFirstDay();
    FirstDaySettles(Run(Init(FIRST), DRAWN));
    SequentialJoin(Init(FIRST), DRAWN, SETTLED);
  }

  lemma ThenLateOrderIsStuck(es: seq<Event>)
    requires NoQueries(es) && SequentialRun(Init(FIRST), es) && NextDay(Run(Init(FIRST), es))
    ensures exists more :: ValidRun(Init(FIRST), more) && StuckLater(Run(Init(FIRST), more))
  {
    ThenTopsUp(es);
    ThenLoadIsReady(es + [TOP_UP]);
    LateOrderIsStuck(es + [TOP_UP] + [Load]);
  }

  lemma ThenTopsUp(es: seq<Event>)
    requires NoQueries(es) && SequentialRun(Init(FIRST), es) && NextDay(Run(Init(FIRST), es))
    ensures NoQueries(es + [TOP_UP]) && SequentialRun(Init(FIRST), es + [TOP_UP])
    ensures ToppedUp(Run(Init(FIRST), es + [TOP_UP]))
  {
    SecondDayRecharges(Run(Init(FIRST), es));
    SequentialSnoc(Init(FIRST), es, TOP_UP);
  }

  lemma ThenLoadIsReady(es: seq<Event>)
    requires NoQueries(es) && SequentialRun(Init(FIRST), es) && ToppedUp(Run(Init(FIRST), es))
    ensures NoQueries(es + [Load]) && SequentialRun(Init(FIRST), es + [Load]) && Ready(Run(Init(FIRST), es + [Load]))
  {
    SecondDayLoads(Run(Init(FIRST), es));
    SequentialSnoc(Init(FIRST), es, Load);
  }

  ghost predicate StuckLater(s: State) {
    && GetOrCreate(s.redis, LATE, s.now).1.Minted?
    && forall later :: FromNowOn(later, s.now) ==>
         SettleOne(Ledger.Run(LateOrder(s, LATE, 1).ledger, later).db, LATE.id, true).1.Err?
  }

  lemma LateOrderIsStuck(es: seq<Event>)
    requires NoQueries(es) && ValidRun(Init(FIRST), es) && Ready(Run(Init(FIRST), es))
    ensures StuckLater(Run(Init(FIRST), es))
  {
    NoQueriesIsSafe(Init(FIRST), es);
    SafeQueriesSuffice(FIRST, es);
    var s := Run(Init(FIRST), es);
    LateOrderSettlesIff(s, LATE, 1);
    forall later | FromNowOn(later, s.now)
      ensures SettleOne(Ledger.Run(LateOrder(s, LATE, 1).ledger, later).db, LATE.id, true).1.Err?
    {
      LateOrderIsRefusedForEver(s, LATE, 1, later);
    }
  }

  // ---------------------------------------------------------------- and so does the load that breaks the books

  /** The first day's units are loaded on the second. */
  const ARMED: seq<Event> := [CREDIT, Tick(SECOND), Load]

  ghost predicate SecondLoaded(s: State) {
    && s.redis == Redis(Some(2), map[SECOND := 1], map[1 := 2], None) && s.now == SECOND
    && InFlight(s) == 0 && s.everMinted == {}
    && s.ledger.db == Db(Some(Account(Quota(2, 2), Quota(1, 1), Quota(2, 2))),
                         map[FIRST := Quota(1, 1), SECOND := Quota(1, 1)], map[1 := Quota(2, 2)], map[], map[], map[], map[1 := Amounts(2, 1, 2)])
  }

  lemma FirstDayLoadedLate(s: State)
    requires OnlyCredited(s)
    ensures SecondLoaded(LoadStep(s.(now := SECOND)))
  {
    assert QueryEntity(s.ledger.db, SECOND).1 == Ok(Account(Quota(2, 2), Quota(1, 1), Quota(2, 2)));
  }

  lemma SecondDayArms()
    ensures SequentialRun(Init(FIRST), ARMED) && SecondLoaded(Run(Init(FIRST), ARMED))
  {
    FirstDayCredits();
    FirstDayLoadedLate(Step(Init(FIRST), CREDIT));
    SequentialSnoc(Init(FIRST), [], CREDIT);
    SequentialSnoc(Init(FIRST), [] + [CREDIT], Tick(SECOND));
    SequentialSnoc(Init(FIRST), [] + [CREDIT] + [Tick(SECOND)], Load);
    assert [] + [CREDIT] + [Tick(SECOND)] + [Load] == ARMED;
  }

  /** A late order is settled against the first day's row, and the next load is quiet. */
  const PAID: seq<Event> := [Settle(8, true), Expire, LoseHolder(8), Load]

  lemma LateOrderIsPaid(s: State)
    requires SecondLoaded(s)
    ensures GetOrCreate(s.redis, LATE, s.now).1.Minted?
    ensures SettleOne(LateOrder(s, LATE, 0).ledger.db, 8, true).1 == Ok(true)
    ensures SequentialRun(LateOrder(s, LATE, 0), PAID) && OverOffered(Run(LateOrder(s, LATE, 0), PAID))
  {
    MintedAndCommitted(s, LATE, 0);
    LateOrderIsSpent(s);
    LateOrderTakesUnits(s);
    ThenOverOffered(LateOrder(s, LATE, 0));
  }

  lemma LateOrderTakesUnits(s: State)
    requires SecondLoaded(s) && GetOrCreate(s.redis, LATE, s.now).1.Minted?
    ensures var s1 := LateOrder(s, LATE, 0);
            s1.redis == Redis(Some(1), map[SECOND := 0], map[1 := 1], Some(Pending(8, 1, "0")))
  {
    LateOrderMints(s, LATE, 0);
    LateOrderTakesLastUnit(s.redis);
  }

  lemma LateOrderTakesLastUnit(r: Redis)
    requires r == Redis(Some(2), map[SECOND := 1], map[1 := 2], None)
    ensures GetOrCreate(r, LATE, SECOND).0 == Redis(Some(1), map[SECOND := 0], map[1 := 1], Some(Pending(8, 1, "0")))
  {
    assert r.day[SECOND := 0] == map[SECOND := 0] && r.month[1 := 1] == map[1 := 1];
  }

  lemma LateOrderMints(s: State, o: RaffleOrder, msg: MessageId)
    requires GetOrCreate(s.redis, o, s.now).1.Minted?
    ensures LateOrder(s, o, msg).redis == GetOrCreate(s.redis, o, s.now).0
  {
  }

  lemma ThenOverOffered(s: State)
    requires s.redis == Redis(Some(1), map[SECOND := 0], map[1 := 1], Some(Pending(8, 1, "0"))) && s.now == SECOND
    requires s.holding == multiset{8} && s.creating == map[] && s.failing == map[] && s.dropping == 0 && s.everMinted == {8}
    requires SettleOne(s.ledger.db, 8, true).1 == Ok(true) && Spent(SettleOne(s.ledger.db, 8, true).0)
    ensures SequentialRun(s, PAID) && OverOffered(Run(s, PAID))
  {
    assert s.holding - multiset{8} == multiset{};
    SpentIsOverOffered(Step(Step(Step(s, Settle(8, true)), Expire), LoseHolder(8)));
    FourSteps(s, Settle(8, true), Expire, LoseHolder(8), Load);
  }

  lemma SpentIsOverOffered(s: State)
    requires Spent(s.ledger.db) && s.redis == Redis(Some(1), map[SECOND := 0], map[1 := 1], None) && s.now == SECOND
    requires InFlight(s) == 0 && s.creating == map[] && s.failing == map[] && s.everMinted == {8}
    ensures Quiet(s) && OverOffered(LoadStep(s))
  {
    assert Unsettled(s.ledger.db.orders) == {};
    assert QueryEntity(s.ledger.db, SECOND).1 == Ok(Account(Quota(2, 1), Quota(1, 1), Quota(2, 1)));
  }

  /** The first day's row has paid, and the second day's still has its unit. */
  ghost predicate Spent(db: Db) {
    && db.account == Some(Account(Quota(2, 1), Quota(1, 0), Quota(2, 1)))
    && db.dayRows == map[FIRST := Quota(1, 0), SECOND := Quota(1, 1)] && db.monthRows == map[1 := Quota(2, 1)]
    && db.orders == map[8 := OrderRow(FIRST, 1, OrderCreate, SyncCompleted)] && db.tasks.Keys == {0}
  }

  lemma LateOrderIsSpent(s: State)
    requires SecondLoaded(s) && GetOrCreate(s.redis, LATE, s.now).1.Minted?
    ensures SettleOne(LateOrder(s, LATE, 0).ledger.db, 8, true).1 == Ok(true)
    ensures Spent(SettleOne(LateOrder(s, LATE, 0).ledger.db, 8, true).0)
  {
    LateOrderIsCommitted(s, LATE, 0);
    FirstDayPays(LateOrder(s, LATE, 0).ledger.db);
  }

  lemma FirstDayPays(db: Db)
    requires db.account == Some(Account(Quota(2, 2), Quota(1, 1), Quota(2, 2)))
    requires db.dayRows == map[FIRST := Quota(1, 1), SECOND := Quota(1, 1)] && db.monthRows == map[1 := Quota(2, 2)]
    requires db.orders == map[8 := OrderRow(FIRST, 1, OrderCreate, SyncCreate)] && db.tasks.Keys == {0}
    ensures SettleOne(db, 8, true).1 == Ok(true) && Spent(SettleOne(db, 8, true).0)
  {
  }

  /** It does go wrong although the late order itself is settled: after the next, quiet load a punctual order is granted,
      committed, and refused by the account. */
  lemma LateOrderBreaksOthers()
    ensures SequentialRun(Init(FIRST), ARMED)
    ensures var s := Run(Init(FIRST), ARMED);
            && GetOrCreate(s.redis, LATE, s.now).1.Minted? && Before(LATE.date, s.now)
            && SettleOne(LateOrder(s, LATE, 0).ledger.db, 8, true).1 == Ok(true)
            && SequentialRun(LateOrder(s, LATE, 0), PAID)
            && RefusesNext(Run(LateOrder(s, LATE, 0), PAID))
  {
    SecondDayArms();
    LateOrderIsPaid(Run(Init(FIRST), ARMED));
    OverOfferedRefusesNext(Run(LateOrder(Run(Init(FIRST), ARMED), LATE, 0), PAID));
  }
}
