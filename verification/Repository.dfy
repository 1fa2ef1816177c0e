/** The repository as the source has it: two stores updated in place, each method a Lua script,
    a transaction with rollback, or a sequence of them. Every method is tied to the functions of
    QuotaStore, and a whole draw to a run of the partake protocol. */
module Repository {
  import opened Wrappers
  import opened QuotaStore
  import opened PartakeProtocol
  import PartakeDraws
  import Ledger

  /** All three counters of the day are there and positive. */
  predicate Offers(r: Redis, today: Date) {
    && r.total.Some? && today in r.day && today.month in r.month
    && 0 < r.total.value && 0 < r.day[today] && 0 < r.month[today.month]
  }

  /** What a request is told when they are not: a missing counter counts as a used-up total, then comes the total
      itself, then the day, then the month. */
  predicate LacksTotal(r: Redis, today: Date) {
    r.total.None? || today !in r.day || today.month !in r.month || r.total.value <= 0
  }

  function FirstLack(r: Redis, today: Date): Error {
    if LacksTotal(r, today) then TotalExhausted else if r.day[today] <= 0 then DayExhausted else MonthExhausted
  }

  /** The counter of `k` has gone up by one, from nothing if it was missing, and no other has changed. */
  ghost predicate OneUp<K(!new)>(before: map<K, int>, k: K, after: map<K, int>) {
    && k in after && after[k] == (if k in before then before[k] else 0) + 1
    && forall other :: other != k ==>
         (other in after <==> other in before) && (other in before ==> after[other] == before[other])
  }

  class RedisCache {
    var total: Option<int>
    var day: map<Date, int>
    var month: map<nat, int>
    var pending: Option<Pending>

    function Value(): Redis
      reads this
    {
      Redis(total, day, month, pending)
    }

    method GetOrCreateOrder(o: RaffleOrder, today: Date) returns (reply: Reply)
      modifies this
      ensures (Value(), reply) == GetOrCreate(old(Value()), o, today)
      ensures reply.Reused? <==> old(pending).Some? && old(pending).value.st == "0"
      ensures reply.Reused? ==> reply.order == RaffleOrder(old(pending).value.oid, old(pending).value.sid, o.date)
      ensures reply.Minted? <==> !reply.Reused? && Offers(old(Value()), today)
      ensures reply.Minted? ==>
            && reply.order == o && pending == Some(Pending(o.id, o.strategy, "0"))
            && total == Some(old(total).value - 1) && day == old(day)[today := old(day)[today] - 1]
            && month == old(month)[today.month := old(month)[today.month] - 1]
      ensures !reply.Minted? ==> total == old(total) && day == old(day) && month == old(month)
      ensures reply.Rejected? ==> pending == None && reply.error == FirstLack(old(Value()), today)
    {
      if pending.Some? {
        if pending.value.st == "0" {
          return Reused(RaffleOrder(pending.value.oid, pending.value.sid, o.date));
        }
        pending := None;
      }
      if total.None? || today !in day || today.month !in month { return Rejected(TotalExhausted); }
      if total.value <= 0 { return Rejected(TotalExhausted); }
      if day[today] <= 0 { return Rejected(DayExhausted); }
      if month[today.month] <= 0 { return Rejected(MonthExhausted); }
      total := Some(total.value - 1);
      day := day[today := day[today] - 1];
      month := month[today.month := month[today.month] - 1];
      pending := Some(Pending(o.id, o.strategy, "0"));
      return Minted(o);
    }

    method CompensateOrder(o: RaffleOrder) returns (done: bool)
      modifies this
      ensures (Value(), done) == Compensate(old(Value()), o)
      ensures done <==> old(pending).Some? && old(pending).value.oid == o.id && old(pending).value.st == "0"
      ensures done ==>
            && pending == None && total == Some(old(total).GetOr(0) + 1)
            && OneUp(old(day), o.date, day) && OneUp(old(month), o.date.month, month)
      ensures !done ==> Value() == old(Value())
    {
      if pending.None? || pending.value.oid != o.id { return false; }
      if pending.value.st != "0" { return false; }
      total := Some((if total.Some? then total.value else 0) + 1);
      day := Incr(day, o.date);
      month := Incr(month, o.date.month);
      pending := None;
      return true;
    }

    method Delete()
      modifies this
      ensures Value() == DeletePending(old(Value()))
    {
      pending := None;
    }

    /** The counters one after the other, until a write fails. */
    method CacheAccountSnapshot(acc: Account, today: Date, written: nat) returns (ok: bool)
      modifies this
      ensures ok <==> written >= 3
      ensures Value() == SnapshotUpTo(old(Value()), acc, today, written)
      ensures ok ==> Value() == CacheSnapshot(old(Value()), acc, today)
      ensures total == if written >= 1 then Some(acc.total.surplus) else old(total)
      ensures month == if written >= 2 then old(month)[today.month := acc.month.surplus] else old(month)
      ensures day == (if written >= 3 then old(day)[today := acc.day.surplus] else old(day)) && pending == old(pending)
    {
      if written < 1 { return false; }
      total := Some(acc.total.surplus);
      if written < 2 { return false; }
      month := month[today.month := acc.month.surplus];
      if written < 3 { return false; }
      day := day[today := acc.day.surplus];
      return true;
    }
  }

  /** Both figures have gone up by `n`. */
  predicate WentUp(before: Quota, n: int, after: Quota) {
    after.count == before.count + n && after.surplus == before.surplus + n
  }

  /** So have those of the row of `k`, which started from nothing if it was missing; no other row has changed, and
      nothing at all for a zero amount. */
  ghost predicate RowWentUp<K(!new)>(before: map<K, Quota>, k: K, n: nat, after: map<K, Quota>) {
    if n == 0 then after == before
    else
      && k in after && WentUp(if k in before then before[k] else NO_QUOTA, n, after[k])
      && forall other :: other != k ==>
           (other in after <==> other in before) && (other in before ==> after[other] == before[other])
  }

  /** One unit has been taken from the row of `k`, which started from `fallback` if it was missing; no other row has
      changed. */
  ghost predicate RowWentDown<K(!new)>(before: map<K, Quota>, k: K, fallback: Quota, after: map<K, Quota>) {
    && k in after
    && (var start := if k in before then before[k] else fallback;
        after[k].count == start.count && after[k].surplus == start.surplus - 1)
    && forall other :: other != k ==>
         (other in after <==> other in before) && (other in before ==> after[other] == before[other])
  }

  predicate OneLess(before: Account, after: Account) {
    && after.total == before.total.(surplus := before.total.surplus - 1)
    && after.day == before.day.(surplus := before.day.surplus - 1)
    && after.month == before.month.(surplus := before.month.surplus - 1)
  }

  predicate Positive(a: Account) {
    0 < a.total.surplus && 0 < a.day.surplus && 0 < a.month.surplus
  }

  class Shard {
    var account: Option<Account>
    var dayRows: map<Date, Quota>
    var monthRows: map<nat, Quota>
    var orders: map<OrderId, OrderRow>
    var tasks: map<MessageId, Task>
    var records: map<OrderId, int>
    var recharges: map<BusinessNo, Amounts>

    function Value(): Db
      reads this
    {
      Db(account, dayRows, monthRows, orders, tasks, records, recharges)
    }

    /** Undo everything written since `saved` was taken. */
    method Rollback(saved: Db)
      modifies this
      ensures Value() == saved
    {
      account, dayRows, monthRows := saved.account, saved.dayRows, saved.monthRows;
      orders, tasks, records, recharges := saved.orders, saved.tasks, saved.records, saved.recharges;
    }

    method CreateOrderAndTask(o: RaffleOrder, msg: MessageId, commits: bool) returns (r: Result<bool, Error>)
      modifies this
      ensures (Value(), r) == SaveLite(old(Value()), o, msg, commits)
      ensures r == Ok(true) <==> commits && o.id !in old(orders) && msg !in old(tasks)
      ensures r == Err(StoreFailure) <==> !commits
      ensures r == Ok(true) ==>
            && orders == old(orders)[o.id := OrderRow(o.date, o.strategy, OrderCreate, SyncCreate)]
            && tasks == old(tasks)[msg := Task(SaveOrder(o.id), TaskCreate)]
      ensures r != Ok(true) ==> Value() == old(Value())
    {
      var saved := Value();
      if o.id in orders { return if commits then Ok(false) else Err(StoreFailure); }
      orders := orders[o.id := OrderRow(o.date, o.strategy, OrderCreate, SyncCreate)];
      if msg in tasks {
        Rollback(saved);
        return if commits then Ok(false) else Err(StoreFailure);
      }
      tasks := tasks[msg := Task(SaveOrder(o.id), TaskCreate)];
      if !commits {
        Rollback(saved);
        return Err(StoreFailure);
      }
      return Ok(true);
    }

    method CreateAwardRecord(oid: OrderId, award: int, msg: MessageId, commits: bool) returns (r: Result<bool, Error>)
      modifies this
      ensures (Value(), r) == SaveAward(old(Value()), oid, award, msg, commits)
      ensures r == Ok(true) <==> commits && oid !in old(records) && msg !in old(tasks)
      ensures r == Ok(false) <==> commits && oid in old(records)
      ensures r == Ok(true) ==>
            && records == old(records)[oid := award] && tasks == old(tasks)[msg := Task(SendAward(award), TaskCreate)]
            && orders.Keys == old(orders).Keys && forall o :: o in orders ==>
                 orders[o] == if o == oid then old(orders)[o].(state := OrderUsed) else old(orders)[o]
      ensures r != Ok(true) ==> Value() == old(Value())
    {
      var saved := Value();
      if oid in records { return if commits then Ok(false) else Err(StoreFailure); }
      records := records[oid := award];
      if msg in tasks {
        Rollback(saved);
        return Err(if commits then DuplicateIndex else StoreFailure);
      }
      tasks := tasks[msg := Task(SendAward(award), TaskCreate)];
      if oid in orders { orders := orders[oid := orders[oid].(state := OrderUsed)]; }
      if !commits {
        Rollback(saved);
        return Err(StoreFailure);
      }
      return Ok(true);
    }

    /** Charge one row in place; false when it is used up. */
    method ChargeDay(date: Date, fallback: Quota) returns (ok: bool)
      modifies this`dayRows
      ensures ok == Charge(old(dayRows), date, fallback).Some?
      ensures dayRows == if ok then Charge(old(dayRows), date, fallback).value else old(dayRows)
    {
      if date in dayRows {
        if dayRows[date].surplus <= 0 { return false; }
        dayRows := dayRows[date := Spend(dayRows[date])];
      } else {
        dayRows := dayRows[date := Spend(fallback)];
      }
      return true;
    }

    method ChargeMonth(m: nat, fallback: Quota) returns (ok: bool)
      modifies this`monthRows
      ensures ok == Charge(old(monthRows), m, fallback).Some?
      ensures monthRows == if ok then Charge(old(monthRows), m, fallback).value else old(monthRows)
    {
      if m in monthRows {
        if monthRows[m].surplus <= 0 { return false; }
        monthRows := monthRows[m := Spend(monthRows[m])];
      } else {
        monthRows := monthRows[m := Spend(fallback)];
      }
      return true;
    }

    /** The account row is charged before the month row is even read; a late error undoes it. */
    method SettleOrder(oid: OrderId, commits: bool) returns (r: Result<bool, Error>)
      modifies this
      ensures (Value(), r) == SettleOne(old(Value()), oid, commits)
      ensures r == Ok(true) <==>
            && commits && oid in old(orders) && old(orders)[oid].sync == SyncCreate
            && old(account).Some? && Positive(old(account).value)
            && (var date := old(orders)[oid].date;
                && (date in old(dayRows) ==> 0 < old(dayRows)[date].surplus)
                && (date.month in old(monthRows) ==> 0 < old(monthRows)[date.month].surplus))
      ensures r == Ok(false) <==> commits && oid in old(orders) && old(orders)[oid].sync == SyncCompleted
      ensures r == Ok(true) ==>
            && account.Some? && OneLess(old(account).value, account.value)
            && RowWentDown(old(dayRows), old(orders)[oid].date, old(account).value.day, dayRows)
            && RowWentDown(old(monthRows), old(orders)[oid].date.month, old(account).value.month, monthRows)
            && orders == old(orders)[oid := old(orders)[oid].(sync := SyncCompleted)]
      ensures r != Ok(true) ==> Value() == old(Value())
    {
      var saved := Value();
      if !commits { return Err(StoreFailure); }
      if oid !in orders { return Err(RecordNotFound); }
      var row := orders[oid];
      if row.sync == SyncCompleted { return Ok(false); }
      if account.None? { return Err(RecordNotFound); }
      var acc := account.value;
      if acc.total.surplus <= 0 { return Err(TotalExhausted); }
      if acc.month.surplus <= 0 { return Err(MonthExhausted); }
      if acc.day.surplus <= 0 { return Err(DayExhausted); }
      account := Some(Account(Spend(acc.total), Spend(acc.day), Spend(acc.month)));
      var ok := ChargeMonth(row.date.month, acc.month);
      if !ok {
        Rollback(saved);
        return Err(MonthExhausted);
      }
      ok := ChargeDay(row.date, acc.day);
      if !ok {
        Rollback(saved);
        return Err(DayExhausted);
      }
      orders := orders[oid := row.(sync := SyncCompleted)];
      return Ok(true);
    }

    method RechargeAccount(number: BusinessNo, date: Date, a: Amounts, commits: bool) returns (r: Result<bool, Error>)
      modifies this
      ensures (Value(), r) == QuotaStore.Recharge(old(Value()), number, date, a, commits)
      ensures r.Ok? <==> commits && number !in old(recharges)
      ensures r.Err? ==> Value() == old(Value())
      ensures r.Ok? ==>
            && recharges == old(recharges)[number := a] && account.Some?
            && WentUp(old(if account.Some? then account.value.total else NO_QUOTA), a.total, account.value.total)
            && WentUp(old(if account.Some? then account.value.day else NO_QUOTA), a.day, account.value.day)
            && WentUp(old(if account.Some? then account.value.month else NO_QUOTA), a.month, account.value.month)
            && RowWentUp(old(dayRows), date, a.day, dayRows) && RowWentUp(old(monthRows), date.month, a.month, monthRows)
    {
      if !commits { return Err(StoreFailure); }
      if number in recharges { return Err(DuplicateIndex); }
      recharges := recharges[number := a];
      if account.Some? {
        var acc := account.value;
        account := Some(Account(Grant(acc.total, a.total), Grant(acc.day, a.day), Grant(acc.month, a.month)));
      } else {
        account := Some(Account(Quota(a.total, a.total), Quota(a.day, a.day), Quota(a.month, a.month)));
      }
      if a.day != 0 {
        dayRows := dayRows[date := if date in dayRows then Grant(dayRows[date], a.day) else Quota(a.day, a.day)];
      }
      if a.month != 0 {
        monthRows := monthRows[date.month := if date.month in monthRows then Grant(monthRows[date.month], a.month) else Quota(a.month, a.month)];
      }
      return Ok(true);
    }

    method UpdateTaskState(msg: MessageId, state: TaskState, written: bool) returns (ok: bool)
      modifies this
      ensures ok == written
      ensures Value()
         == if written && msg in old(tasks) then old(Value()).(tasks := old(tasks)[msg := old(tasks)[msg].(state := state)]) else old(Value())
    {
      if written && msg in tasks { tasks := tasks[msg := tasks[msg].(state := state)]; }
      return written;
    }

    method QueryAccountEntity(today: Date, monthCreated: bool, dayCreated: bool) returns (r: Result<Account, Error>)
      modifies this
      ensures (Value(), r) == QueryEntityUpTo(old(Value()), today, monthCreated, dayCreated)
      ensures r.Ok? ==> (Value(), r) == QueryEntity(old(Value()), today)
      ensures r.Ok? <==> account.Some? && today.month in monthRows && today in dayRows
      ensures r.Ok? ==> r.value == Account(account.value.total, dayRows[today], monthRows[today.month])
      ensures Value() == old(Value()).(dayRows := dayRows, monthRows := monthRows)
      ensures monthRows == if account.Some? && today.month !in old(monthRows) && monthCreated then
                             old(monthRows)[today.month := account.value.month]
                           else old(monthRows)
      ensures dayRows == if account.Some? && today.month in monthRows && today !in old(dayRows) && dayCreated then
                           old(dayRows)[today := account.value.day]
                         else old(dayRows)
    {
      if account.None? { return Err(RecordNotFound); }
      var acc := account.value;
      if today.month !in monthRows {
        if !monthCreated { return Err(StoreFailure); }
        monthRows := monthRows[today.month := acc.month];
      }
      if today !in dayRows {
        if !dayCreated { return Err(StoreFailure); }
        dayRows := dayRows[today := acc.day];
      }
      return Ok(Account(acc.total, dayRows[today], monthRows[today.month]));
    }
  }

  /** `Drawn` is a recorded award, `Repeated` one that was swallowed because the order had a record already;
      the user is told the award either way. */
  datatype DrawResult =
    | NoOrder(error: Error)
    | OrderOnly(oid: OrderId)
    | NotRecorded(oid: OrderId, reason: Error)
    | Drawn(oid: OrderId, award: int)
    | Repeated(oid: OrderId, award: int)
  {
    predicate Tells() { Drawn? || Repeated? }
  }

  /** What happens to an order whose transaction ended: after a failure the compensation script runs, or fails too. */
  function SaveEvents(db: Db, o: RaffleOrder, msg: MessageId, commits: bool, compensates: bool): seq<Event> {
    if SaveLite(db, o, msg, commits).1.Ok? then [Commit(o.id, msg, commits)]
    else [Commit(o.id, msg, commits), if compensates then Refund(o.id) else LoseFailing(o.id)]
  }

  /** What getting an order does: the script, then for a minted order its transaction and what follows. */
  function OrderEvents(s: State, o: RaffleOrder, msg: MessageId, commits: bool, compensates: bool): seq<Event> {
    if GetOrCreate(s.redis, o, s.now).1.Minted? then [Start(o)] + SaveEvents(s.ledger.db, o, msg, commits, compensates)
    else [Start(o)]
  }

  /** What saving an award does: the transaction, and the pending delete unless it failed; a delete that does
      not get through is only logged. */
  function AwardEvents(db: Db, oid: OrderId, award: int, msg: MessageId, commits: bool, deletes: bool): seq<Event> {
    if SaveAward(db, oid, award, msg, commits).1.Ok? then
      [Award(oid, award, msg, commits), if deletes then DropPending else LoseDropper]
    else [Award(oid, award, msg, commits)]
  }

  /** The last steps of a draw that has its order, or not. */
  function Ending(r: DrawResult, award: int, msg: MessageId, commits: bool, deletes: bool): seq<Event> {
    match r
    case NoOrder(_) => []
    case OrderOnly(oid) => [LoseHolder(oid)]
    case NotRecorded(oid, _) => [Award(oid, award, msg, commits)]
    case Drawn(oid, a) => [Award(oid, a, msg, commits), if deletes then DropPending else LoseDropper]
    case Repeated(oid, a) => [Award(oid, a, msg, commits), if deletes then DropPending else LoseDropper]
  }

  class Service {
    const redis: RedisCache
    const shard: Shard

    constructor (redis: RedisCache, shard: Shard)
      ensures this.redis == redis && this.shard == shard
    {
      this.redis := redis;
      this.shard := shard;
    }

    /** The two stores hold what state `s` of the protocol says. */
    ghost predicate Shows(s: State)
      reads redis, shard
    {
      redis.Value() == s.redis && shard.Value() == s.ledger.db
    }

    /** The request's history so far, from protocol state `s`, has led to what the stores hold. */
    ghost predicate Follows(s: State, es: seq<Event>)
      reads redis, shard
    {
      PartakeDraws.SequentialRun(s, es) && Shows(Run(s, es))
    }

    /** Order row and task in one transaction; when it fails, as when there is no database or no task to write
        (`commits` is false), the pending order is compensated, if that script runs. */
    method SaveLiteUserRaffleOrder(ghost s: State, ghost before: seq<Event>, o: RaffleOrder, msg: MessageId,
                                   commits: bool, compensates: bool)
        returns (r: Result<bool, Error>, ghost es: seq<Event>)
      requires Follows(s, before) && Run(s, before).creating == map[o.id := o]
      requires PartakeDraws.InFlight(Run(s, before)) == 1
      modifies redis, shard
      ensures Follows(s, es) && r == SaveLite(old(shard.Value()), o, msg, commits).1
      ensures es == before + SaveEvents(old(shard.Value()), o, msg, commits, compensates)
      ensures shard.records == old(shard.records)
      ensures r.Err? ==> PartakeDraws.InFlight(Run(s, es)) == 0
      ensures r.Ok? ==> Run(s, es).holding == multiset{o.id} && PartakeDraws.InFlight(Run(s, es)) == 1
      ensures redis.Value() == if r.Err? && compensates then Compensate(old(redis.Value()), o).0 else old(redis.Value())
    {
      ghost var g := Run(s, before);
      PartakeDraws.SequentialSnoc(s, before, Commit(o.id, msg, commits));
      es := before + [Commit(o.id, msg, commits)];
      r := shard.CreateOrderAndTask(o, msg, commits);
      assert Without(g.creating, o.id) == map[];
      if r.Err? {
        ghost var last := if compensates then Refund(o.id) else LoseFailing(o.id);
        if compensates { var _ := redis.CompensateOrder(o); }
        assert Without(g.failing[o.id := o], o.id) == map[];
        PartakeDraws.SequentialSnoc(s, es, last);
        es := es + [last];
        assert es == before + [Commit(o.id, msg, commits), last];
      }
    }

    /** doFilterAccount: whom it lets through, and what it tells the others, the total first, then the day. */
    method DoFilterAccount(cached: Option<Account>, date: Date) returns (e: Option<Error>)
      ensures e == Filter(cached, shard.Value(), date)
      ensures e == None <==>
              && cached.Some? && 0 < cached.value.total.surplus
              && (date in shard.dayRows ==> 0 < shard.dayRows[date].surplus)
              && (date.month in shard.monthRows ==> 0 < shard.monthRows[date.month].surplus)
      ensures e == Some(TotalExhausted) <==> cached.None? || cached.value.total.surplus <= 0
      ensures e == Some(DayExhausted) <==>
              && cached.Some? && 0 < cached.value.total.surplus
              && date in shard.dayRows && shard.dayRows[date].surplus <= 0
      ensures e == Some(MonthExhausted) <==>
              && cached.Some? && 0 < cached.value.total.surplus
              && (date in shard.dayRows ==> 0 < shard.dayRows[date].surplus)
              && date.month in shard.monthRows && shard.monthRows[date.month].surplus <= 0
    {
      if cached.None? || cached.value.total.surplus <= 0 { return Some(TotalExhausted); }
      if date in shard.dayRows && shard.dayRows[date].surplus <= 0 { return Some(DayExhausted); }
      if date.month in shard.monthRows && shard.monthRows[date.month].surplus <= 0 { return Some(MonthExhausted); }
      return None;
    }

    /** Reuse the pending order, or mint one and commit it. */
    method PlaceOrder(ghost s: State, o: RaffleOrder, today: Date, msg: MessageId, commits: bool, compensates: bool)
        returns (r: Result<OrderId, Error>, ghost es: seq<Event>)
      requires Shows(s) && PartakeDraws.InFlight(s) == 0 && Enabled(s, Start(o)) && today == s.now
      modifies redis, shard
      ensures Follows(s, es) && es == OrderEvents(s, o, msg, commits, compensates)
      ensures r.Ok? <==> GetOrCreate(s.redis, o, s.now).1.Reused?
                         || (GetOrCreate(s.redis, o, s.now).1.Minted? && SaveLite(s.ledger.db, o, msg, commits).1.Ok?)
      ensures shard.records == old(shard.records)
      ensures r.Err? ==> PartakeDraws.InFlight(Run(s, es)) == 0
      ensures r.Ok? ==> Run(s, es).holding == multiset{r.value} && PartakeDraws.InFlight(Run(s, es)) == 1
    {
      PartakeDraws.SequentialSnoc(s, [], Start(o));
      es := [] + [Start(o)];
      var reply := redis.GetOrCreateOrder(o, today);
      match reply
      case Rejected(error) =>
        r := Err(error);
      case Reused(order) =>
        r := Ok(order.id);
      case Minted(_) =>
        assert Step(s, Start(o)).creating == map[o.id := o];
        var saved;
        saved, es := SaveLiteUserRaffleOrder(s, es, o, msg, commits, compensates);
        r := if saved.Err? then Err(saved.error) else Ok(o.id);
    }

    /** Get an order of an open activity: check the accounts, then place it. A refused request takes no step at all. */
    method CreateOrder(ghost s: State, o: RaffleOrder, today: Date, open: bool, cached: Option<Account>,
                       msg: MessageId, commits: bool, compensates: bool)
        returns (r: Result<OrderId, Error>, ghost es: seq<Event>)
      requires Shows(s) && PartakeDraws.InFlight(s) == 0 && Enabled(s, Start(o)) && today == s.now
      modifies redis, shard
      ensures Follows(s, es)
      ensures if !open || Filter(cached, old(shard.Value()), o.date).Some? then
                r == Err(if open then Filter(cached, old(shard.Value()), o.date).value else ActivityClosed) && es == []
              else
                && es == OrderEvents(s, o, msg, commits, compensates)
                && (r.Ok? <==> GetOrCreate(s.redis, o, s.now).1.Reused?
                               || (GetOrCreate(s.redis, o, s.now).1.Minted? && SaveLite(s.ledger.db, o, msg, commits).1.Ok?))
      ensures shard.records == old(shard.records)
      ensures r.Err? ==> PartakeDraws.InFlight(Run(s, es)) == 0
      ensures r.Ok? ==> Run(s, es).holding == multiset{r.value} && PartakeDraws.InFlight(Run(s, es)) == 1
    {
      if !open { return Err(ActivityClosed), []; }
      var refused := DoFilterAccount(cached, o.date);
      if refused.Some? { return Err(refused.value), []; }
      r, es := PlaceOrder(s, o, today, msg, commits, compensates);
    }

    /** Save the award of the order in hand, then drop the pending hash, if that command gets through. */
    method SaveUserAwardRecord(ghost s: State, ghost before: seq<Event>, oid: OrderId, award: int, msg: MessageId,
                               commits: bool, deletes: bool)
        returns (r: Result<bool, Error>, ghost es: seq<Event>)
      requires Follows(s, before)
      requires Run(s, before).holding == multiset{oid} && PartakeDraws.InFlight(Run(s, before)) == 1
      modifies redis, shard
      ensures Follows(s, es) && PartakeDraws.InFlight(Run(s, es)) == 0
      ensures es == before + AwardEvents(old(shard.Value()), oid, award, msg, commits, deletes)
      ensures r == SaveAward(old(shard.Value()), oid, award, msg, commits).1
      ensures shard.Value() == SaveAward(old(shard.Value()), oid, award, msg, commits).0
      ensures redis.Value() == if r.Ok? && deletes then old(redis.Value()).(pending := None) else old(redis.Value())
    {
      PartakeDraws.SequentialSnoc(s, before, Award(oid, award, msg, commits));
      es := before + [Award(oid, award, msg, commits)];
      r := shard.CreateAwardRecord(oid, award, msg, commits);
      if r.Ok? {
        ghost var last := if deletes then DropPending else LoseDropper;
        PartakeDraws.SequentialSnoc(s, es, last);
        es := es + [last];
        if deletes { redis.Delete(); }
      }
    }

    /** Save the raffle's award and say what the user is told. */
    method Conclude(ghost s: State, ghost before: seq<Event>, oid: OrderId, award: int, msg: MessageId,
                    commits: bool, deletes: bool)
        returns (r: DrawResult, ghost es: seq<Event>)
      requires Follows(s, before)
      requires Run(s, before).holding == multiset{oid} && PartakeDraws.InFlight(Run(s, before)) == 1
      modifies redis, shard
      ensures Follows(s, es) && PartakeDraws.InFlight(Run(s, es)) == 0
      ensures !r.NoOrder? && !r.OrderOnly? && r.oid == oid && (r.Tells() ==> r.award == award)
      ensures es == before + Ending(r, award, msg, commits, deletes)
      ensures if r.Drawn? then oid !in old(shard.records) && shard.records == old(shard.records)[oid := award]
              else shard.records == old(shard.records)
      ensures r.Repeated? ==> oid in old(shard.records)
      ensures r.NotRecorded? ==> !commits || msg in shard.tasks
    {
      var recorded;
      recorded, es := SaveUserAwardRecord(s, before, oid, award, msg, commits, deletes);
      match recorded
      case Err(reason) => r := NotRecorded(oid, reason);
      case Ok(isNew) => r := if isNew then Drawn(oid, award) else Repeated(oid, award);
    }

    /** One whole draw, uninterrupted: get an order, raffle (`award` is None when the raffle fails),
        save the award. Whatever fails on the way, it is a sequential run of the protocol, and
        nothing of it is left in flight. The award the user is told is the recorded one exactly if the order
        had no record before, or a record of that same award. */
    method Draw(ghost s: State, o: RaffleOrder, today: Date, open: bool, cached: Option<Account>,
                msg: MessageId, commits: bool, compensates: bool,
                award: Option<int>, awardMsg: MessageId, awardCommits: bool, deletes: bool)
        returns (r: DrawResult, ghost es: seq<Event>)
      requires Shows(s) && PartakeDraws.InFlight(s) == 0 && Enabled(s, Start(o)) && today == s.now
      modifies redis, shard
      ensures Follows(s, es) && PartakeDraws.InFlight(Run(s, es)) == 0
      ensures es == (if !open || Filter(cached, old(shard.Value()), o.date).Some? then []
                     else OrderEvents(s, o, msg, commits, compensates))
                    + Ending(r, award.GetOr(0), awardMsg, awardCommits, deletes)
      ensures r.NoOrder? <==>
            !open || Filter(cached, old(shard.Value()), o.date).Some? || GetOrCreate(s.redis, o, s.now).1.Rejected?
                              || (GetOrCreate(s.redis, o, s.now).1.Minted? && SaveLite(s.ledger.db, o, msg, commits).1.Err?)
      ensures r.Tells() ==> award == Some(r.award) && r.oid in shard.records
                            && (shard.records[r.oid] == r.award
                                <==> r.oid !in old(shard.records) || old(shard.records)[r.oid] == r.award)
      ensures r.Drawn? ==> r.oid !in old(shard.records) && shard.records == old(shard.records)[r.oid := r.award]
      ensures !r.Drawn? ==> shard.records == old(shard.records)
      ensures r.NotRecorded? ==> award.Some?
      ensures r.OrderOnly? ==> award.None?
      ensures r.NotRecorded? ==> !awardCommits || awardMsg in shard.tasks
    {
      var order;
      order, es := CreateOrder(s, o, today, open, cached, msg, commits, compensates);
      if order.Err? {
        r := NoOrder(order.error);
      } else if award.None? {
        PartakeDraws.SequentialSnoc(s, es, LoseHolder(order.value));
        es := es + [LoseHolder(order.value)];
        r := OrderOnly(order.value);
      } else {
        r, es := Conclude(s, es, order.value, award.value, awardMsg, awardCommits, deletes);
      }
    }

    /** Read the account for the page, creating missing rows until an insert fails. */
    method QueryUserActivityAccount(ghost s: State, today: Date, monthCreated: bool, dayCreated: bool)
        returns (r: Result<Account, Error>)
      requires Shows(s) && today == s.now
      modifies shard
      ensures Enabled(s, Query(monthCreated, dayCreated)) && Shows(Step(s, Query(monthCreated, dayCreated)))
      ensures r == QueryEntityUpTo(old(shard.Value()), today, monthCreated, dayCreated).1
    {
      r := shard.QueryAccountEntity(today, monthCreated, dayCreated);
    }

    /** Load the user's quota, at any moment: read the account as above, and overwrite the counters. A load whose
        counters are all written is a load of the protocol; one that writes none was a query. */
    method AssembleActivityAccountByUserId(ghost s: State, today: Date, monthCreated: bool, dayCreated: bool,
                                           written: nat)
        returns (r: Result<Account, Error>)
      requires Shows(s) && today == s.now
      modifies redis, shard
      ensures r.Ok? ==> Shows(LoadStep(s)) && r == QueryEntity(old(shard.Value()), today).1
      ensures r.Ok? <==> QueryEntityUpTo(old(shard.Value()), today, monthCreated, dayCreated).1.Ok? && written >= 3
      ensures QueryEntityUpTo(old(shard.Value()), today, monthCreated, dayCreated).1.Err? || written == 0 ==>
            Shows(Step(s, Query(monthCreated, dayCreated)))
      ensures shard.Value() == Step(s, Query(monthCreated, dayCreated)).ledger.db
      ensures var read := QueryEntityUpTo(old(shard.Value()), today, monthCreated, dayCreated).1;
              redis.Value() == if read.Ok? then SnapshotUpTo(old(redis.Value()), read.value, today, written) else old(redis.Value())
    {
      r := QueryUserActivityAccount(s, today, monthCreated, dayCreated);
      if r.Ok? {
        var ok := redis.CacheAccountSnapshot(r.value, today, written);
        if !ok { r := Err(StoreFailure); }
      }
    }
  }
}
