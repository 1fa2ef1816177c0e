/** The two stores one user's draws in one activity go through, as values.
    Redis holds three quota counters and the pending order hash; the shard database
    holds the account row, its month and day rows, orders, tasks, award records and
    recharge orders. Each Lua script and each transaction is one function here. */
module QuotaStore {
  import opened Wrappers

  // Identifiers are only compared for equality; numbers stand for the source's strings.
  type OrderId = nat
  type MessageId = nat
  type BusinessNo = nat

  /** A calendar day; the month number stands for "2006-01", the whole date for "2006-01-02". */
  datatype Date = Date(month: nat, day: nat)

  predicate Before(a: Date, b: Date) {
    a.month < b.month || (a.month == b.month && a.day < b.day)
  }

  datatype RaffleOrder = RaffleOrder(id: OrderId, strategy: int, date: Date)

  datatype Error =
    | InvalidParams | RecordNotFound | DuplicateIndex | StoreFailure
    | TotalExhausted | MonthExhausted | DayExhausted | ActivityClosed

  // ---------------------------------------------------------------- Redis

  datatype Pending = Pending(oid: OrderId, sid: int, st: string)

  datatype Redis = Redis(total: Option<int>, day: map<Date, int>, month: map<nat, int>, pending: Option<Pending>)

  datatype Reply = Minted(order: RaffleOrder) | Reused(order: RaffleOrder) | Rejected(error: Error)

  /** The script that reuses the pending order or takes one unit from each counter.
      `today` is the clock of the script call; the order carries the clock of the request. */
  function GetOrCreate(r: Redis, o: RaffleOrder, today: Date): (Redis, Reply) {
    if r.pending.Some? && r.pending.value.st == "0" then
      (r, Reused(RaffleOrder(r.pending.value.oid, r.pending.value.sid, o.date)))
    else
      var r' := r.(pending := None);
      if r.total.None? || today !in r.day || today.month !in r.month then (r', Rejected(TotalExhausted))
      else if r.total.value <= 0 then (r', Rejected(TotalExhausted))
      else if r.day[today] <= 0 then (r', Rejected(DayExhausted))
      else if r.month[today.month] <= 0 then (r', Rejected(MonthExhausted))
      else
        (Redis(Some(r.total.value - 1),
               r.day[today := r.day[today] - 1],
               r.month[today.month := r.month[today.month] - 1],
               Some(Pending(o.id, o.strategy, "0"))),
         Minted(o))
  }

  /** INCR on a key: a missing key counts as 0. */
  function Incr<K>(counters: map<K, int>, k: K): map<K, int> {
    counters[k := (if k in counters then counters[k] else 0) + 1]
  }

  /** The script that gives a failed order's units back, if that order is still the pending one. */
  function Compensate(r: Redis, o: RaffleOrder): (Redis, bool) {
    if r.pending.None? || r.pending.value.oid != o.id then (r, false)
    else if r.pending.value.st != "0" then (r, false)
    else
      (Redis(Some((if r.total.Some? then r.total.value else 0) + 1),
             Incr(r.day, o.date),
             Incr(r.month, o.date.month),
             None),
       true)
  }

  function DeletePending(r: Redis): Redis {
    r.(pending := None)
  }

  // ---------------------------------------------------------------- shard database

  datatype Quota = Quota(count: int, surplus: int)

  datatype Account = Account(total: Quota, day: Quota, month: Quota)

  datatype Amounts = Amounts(total: nat, day: nat, month: nat)

  datatype SyncState = SyncCreate | SyncCompleted

  datatype OrderState = OrderCreate | OrderUsed

  datatype OrderRow = OrderRow(date: Date, strategy: int, state: OrderState, sync: SyncState)

  /** What a task asks for. `Unroutable` is an unknown topic, or a save-order message
      that does not parse or names no order. */
  datatype Payload = SaveOrder(order: OrderId) | SendAward(award: int) | Unroutable

  datatype TaskState = TaskCreate | TaskFail | TaskCompleted

  datatype Task = Task(payload: Payload, state: TaskState)

  datatype Db = Db(
    account: Option<Account>,
    dayRows: map<Date, Quota>,
    monthRows: map<nat, Quota>,
    orders: map<OrderId, OrderRow>,
    tasks: map<MessageId, Task>,
    records: map<OrderId, int>,
    recharges: map<BusinessNo, Amounts>)

  const EMPTY_DB := Db(None, map[], map[], map[], map[], map[], map[])

  function Spend(q: Quota): Quota { q.(surplus := q.surplus - 1) }

  function Grant(q: Quota, n: int): Quota { Quota(q.count + n, q.surplus + n) }

  /** Take one unit from the row of `k`, creating it from the account's own figures if it is missing. */
  function Charge<K>(rows: map<K, Quota>, k: K, fallback: Quota): Option<map<K, Quota>> {
    if k in rows then
      if rows[k].surplus <= 0 then None else Some(rows[k := Spend(rows[k])])
    else
      Some(rows[k := Spend(fallback)])
  }

  /** Add `n` units to the row of `k`; a zero amount does not touch the table. */
  function Credit<K>(rows: map<K, Quota>, k: K, n: int): map<K, Quota> {
    if n == 0 then rows
    else if k in rows then rows[k := Grant(rows[k], n)]
    else rows[k := Quota(n, n)]
  }

  /** Create the row of `k` from the account's figures unless it is there. */
  function Ensure<K>(rows: map<K, Quota>, k: K, fallback: Quota): map<K, Quota> {
    if k in rows then rows else rows[k := fallback]
  }

  /** Order row and settlement task, both or neither. `commits` is false when the store fails
      the transaction. A duplicate key is reported as success with nothing written. */
  function SaveLite(db: Db, o: RaffleOrder, msg: MessageId, commits: bool): (Db, Result<bool, Error>) {
    if !commits then (db, Err(StoreFailure))
    else if o.id in db.orders || msg in db.tasks then (db, Ok(false))
    else
      (db.(orders := db.orders[o.id := OrderRow(o.date, o.strategy, OrderCreate, SyncCreate)],
           tasks := db.tasks[msg := Task(SaveOrder(o.id), TaskCreate)]),
       Ok(true))
  }

  /** Award record, send task and "used" order state, all or nothing; a second record for the
      same order is swallowed. Updating the state of an order row that is not there is no error. */
  function SaveAward(db: Db, oid: OrderId, award: int, msg: MessageId, commits: bool): (Db, Result<bool, Error>) {
    if !commits then (db, Err(StoreFailure))
    else if oid in db.records then (db, Ok(false))
    else if msg in db.tasks then (db, Err(DuplicateIndex))
    else
      (db.(records := db.records[oid := award],
           tasks := db.tasks[msg := Task(SendAward(award), TaskCreate)],
           orders := if oid in db.orders then db.orders[oid := db.orders[oid].(state := OrderUsed)] else db.orders),
       Ok(true))
  }

  /** Charge a committed order to the account, its month row and its day row, once.
      A message without an order id is refused. The result says whether this call did the charging. */
  function Settle(db: Db, id: Option<OrderId>, commits: bool): (Db, Result<bool, Error>) {
    if id.None? then (db, Err(InvalidParams))
    else SettleOne(db, id.value, commits)
  }

  function SettleOne(db: Db, oid: OrderId, commits: bool): (Db, Result<bool, Error>) {
    if !commits then (db, Err(StoreFailure))
    else if oid !in db.orders then (db, Err(RecordNotFound))
    else if db.orders[oid].sync == SyncCompleted then (db, Ok(false))
    else if db.account.None? then (db, Err(RecordNotFound))
    else
      var acc := db.account.value;
      var date := db.orders[oid].date;
      if acc.total.surplus <= 0 then (db, Err(TotalExhausted))
      else if acc.month.surplus <= 0 then (db, Err(MonthExhausted))
      else if acc.day.surplus <= 0 then (db, Err(DayExhausted))
      else
        var months := Charge(db.monthRows, date.month, acc.month);
        var days := Charge(db.dayRows, date, acc.day);
        if months.None? then (db, Err(MonthExhausted))
        else if days.None? then (db, Err(DayExhausted))
        else
          (db.(account := Some(Account(Spend(acc.total), Spend(acc.day), Spend(acc.month))),
               monthRows := months.value,
               dayRows := days.value,
               orders := db.orders[oid := db.orders[oid].(sync := SyncCompleted)]),
           Ok(true))
  }

  /** The account row after a credit: every figure raised, or a new row. */
  function Raise(account: Option<Account>, a: Amounts): Account {
    match account
    case Some(acc) => Account(Grant(acc.total, a.total), Grant(acc.day, a.day), Grant(acc.month, a.month))
    case None => Account(Quota(a.total, a.total), Quota(a.day, a.day), Quota(a.month, a.month))
  }

  /** Credit a recharge order, once for each business number. */
  function Recharge(db: Db, number: BusinessNo, date: Date, a: Amounts, commits: bool): (Db, Result<bool, Error>) {
    if !commits then (db, Err(StoreFailure))
    else if number in db.recharges then (db, Err(DuplicateIndex))
    else
      (db.(recharges := db.recharges[number := a],
           account := Some(Raise(db.account, a)),
           dayRows := Credit(db.dayRows, date, a.day),
           monthRows := Credit(db.monthRows, date.month, a.month)),
       Ok(true))
  }

  /** Read the account for `today`, creating the month and day rows that are missing. */
  function QueryEntity(db: Db, today: Date): (Db, Result<Account, Error>) {
    if db.account.None? then (db, Err(RecordNotFound))
    else
      var acc := db.account.value;
      var months := Ensure(db.monthRows, today.month, acc.month);
      var days := Ensure(db.dayRows, today, acc.day);
      (db.(monthRows := months, dayRows := days),
       Ok(Account(acc.total, days[today], months[today.month])))
  }

  /** Overwrite the counters of `today` with a freshly read account. */
  function CacheSnapshot(r: Redis, acc: Account, today: Date): Redis {
    r.(total := Some(acc.total.surplus),
       month := r.month[today.month := acc.month.surplus],
       day := r.day[today := acc.day.surplus])
  }

  /** The same read when creating a missing row can fail: the month row is created first, each on its own. */
  function QueryEntityUpTo(db: Db, today: Date, monthCreated: bool, dayCreated: bool): (Db, Result<Account, Error>) {
    if db.account.None? then (db, Err(RecordNotFound))
    else if today.month !in db.monthRows && !monthCreated then (db, Err(StoreFailure))
    else
      var months := Ensure(db.monthRows, today.month, db.account.value.month);
      if today !in db.dayRows && !dayCreated then (db.(monthRows := months), Err(StoreFailure)) else QueryEntity(db, today)
  }

  /** The counters when only the first `written` of the three writes get through: total, month, day. */
  function SnapshotUpTo(r: Redis, acc: Account, today: Date, written: nat): Redis {
    r.(total := if written >= 1 then Some(acc.total.surplus) else r.total,
       month := if written >= 2 then r.month[today.month := acc.month.surplus] else r.month,
       day := if written >= 3 then r.day[today := acc.day.surplus] else r.day)
  }

  /** The checks of the accounts before an order is asked for: the cached account's total, and the rows of the
      day and the month where they exist. */
  function Filter(cached: Option<Account>, db: Db, date: Date): Option<Error> {
    if cached.None? || cached.value.total.surplus <= 0 then Some(TotalExhausted)
    else if date in db.dayRows && db.dayRows[date].surplus <= 0 then Some(DayExhausted)
    else if date.month in db.monthRows && db.monthRows[date.month].surplus <= 0 then Some(MonthExhausted)
    else None
  }

  // ---------------------------------------------------------------- what one call undoes

  /** A refund puts every counter back exactly where the mint found it
      if and only if the order's own date is the date the script minted under. */
  lemma RefundUndoesMint(r: Redis, o: RaffleOrder, today: Date)
    requires GetOrCreate(r, o, today).1.Minted?
    ensures Compensate(GetOrCreate(r, o, today).0, o).1
    ensures Compensate(GetOrCreate(r, o, today).0, o).0 == r.(pending := None) <==> o.date == today
  {
    var minted := GetOrCreate(r, o, today).0;
    var back := Compensate(minted, o).0;
    if o.date == today {
      assert back.day == r.day && back.month == r.month;
    } else {
      assert back.day[today] == r.day[today] - 1;
    }
  }

  /** An order that was minted is handed out again to every request that comes before it is dropped: with its own id
      and strategy, at no cost, on whatever day. */
  lemma MintIsReused(r: Redis, o: RaffleOrder, today: Date, next: RaffleOrder, later: Date)
    requires GetOrCreate(r, o, today).1.Minted?
    ensures var minted := GetOrCreate(r, o, today).0;
            && GetOrCreate(minted, next, later) == (minted, Reused(RaffleOrder(o.id, o.strategy, next.date)))
            && GetOrCreate(r, o, today).1.order == o
  {
  }

  /** Only the order that is pending is refunded, and a second refund finds nothing. */
  lemma RefundIsOnce(r: Redis, o: RaffleOrder)
    ensures !Compensate(Compensate(r, o).0, o).1
    ensures Compensate(r, o).1 ==> r.pending.Some? && r.pending.value.oid == o.id
    ensures !Compensate(DeletePending(r), o).1
  {
  }

  /** Settling is idempotent: after a call that returned no error, any further call returns
      no error, charges nothing and leaves the database alone. */
  lemma SettleIsIdempotent(db: Db, oid: OrderId)
    requires Settle(db, Some(oid), true).1.Ok?
    ensures var (db', _) := Settle(db, Some(oid), true);
            oid in db'.orders && db'.orders[oid].sync == SyncCompleted && Settle(db', Some(oid), true) == (db', Ok(false))
  {
  }

  /** A load that failed half-way leaves nothing behind that a retry would not have written: reading the account
      again and writing the counters again gives what one undisturbed load gives. */
  lemma RetriedLoadIsTheSame(db: Db, r: Redis, today: Date, monthCreated: bool, dayCreated: bool, acc: Account,
                             written: nat)
    ensures QueryEntity(QueryEntityUpTo(db, today, monthCreated, dayCreated).0, today) == QueryEntity(db, today)
    ensures CacheSnapshot(SnapshotUpTo(r, acc, today, written), acc, today) == CacheSnapshot(r, acc, today)
  {
  }
}
