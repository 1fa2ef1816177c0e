/** Every step of the partake protocol keeps its invariants, so every run does. */
module PartakeSafety {
  import opened Collections
  import opened Wrappers
  import opened QuotaStore
  import opened PartakeProtocol
  import Ledger

  // ---------------------------------------------------------------- what the books depend on

  /** A step keeps the units, and on top of them the books of the loaded periods and the rows of the next ones. */
  ghost predicate Keeps(s: State, s': State) {
    && UnitsInv(s')
    && (PeriodInv(s) ==> PeriodInv(s'))
    && (PeriodInv(s) && AheadInv(s) ==> AheadInv(s'))
  }

  /** The quota books look at nothing but these. */
  lemma QuotaFrame(s: State, s': State)
    requires UnitsInv(s)
    requires s'.redis.total == s.redis.total && s'.redis.day == s.redis.day && s'.redis.month == s.redis.month
    requires s'.ledger.db.account == s.ledger.db.account
    requires s'.ledger.db.dayRows == s.ledger.db.dayRows && s'.ledger.db.monthRows == s.ledger.db.monthRows
    requires s'.now == s.now && s'.mints == s.mints && s'.books == s.books
    requires Outstanding(s') == Outstanding(s) && Coming(s') <= Coming(s)
    ensures Keeps(s, s')
  {
  }

  lemma OrdersFrame(s: State, s': State)
    requires OrdersInv(s)
    requires s'.creating == s.creating && s'.failing == s.failing && s'.mints == s.mints
    requires s'.everMinted == s.everMinted && s'.everRefunded == s.everRefunded
    requires s'.books.armed == s.books.armed && s'.ledger.db.orders.Keys == s.ledger.db.orders.Keys
    requires DatesInv(s'.ledger.db.orders, s'.books.armed)
    requires OriginInv(s'.redis.pending, s'.holding, s'.ledger.db.records.Keys, s'.everMinted, s'.everRefunded)
    ensures OrdersInv(s')
  {
  }

  /** Rewriting a row without making it unsettled again keeps the dates. */
  lemma DatesFrame(orders: map<OrderId, OrderRow>, armed: Option<Date>, o: OrderId, row: OrderRow)
    requires DatesInv(orders, armed) && o in orders
    requires row.sync == SyncCreate ==> orders[o].sync == SyncCreate && row.date == orders[o].date
    ensures DatesInv(orders[o := row], armed)
    ensures orders[o := row].Keys == orders.Keys
  {
  }

  // ---------------------------------------------------------------- mint and reuse

  /** A mint happens only on the day the counters were loaded for. */
  lemma MintIsToday(s: State, o: RaffleOrder)
    requires UnitsInv(s) && GetOrCreate(s.redis, o, s.now).1.Minted?
    ensures s.books.armed == Some(s.now)
  {
  }

  /** A request that the script would grant a unit passes the checks in front of it, if they see the current account. */
  lemma MintPassesFilter(s: State, o: RaffleOrder)
    requires UnitsInv(s) && PeriodInv(s) && GetOrCreate(s.redis, o, s.now).1.Minted? && o.date == s.now
    ensures Filter(s.ledger.db.account, s.ledger.db, o.date) == None
  {
    MintIsToday(s, o);
  }

  lemma StartKeepsOrders(s: State, o: RaffleOrder)
    requires OrdersInv(s) && Enabled(s, Start(o))
    requires GetOrCreate(s.redis, o, s.now).1.Minted? ==> s.books.armed == Some(s.now)
    ensures OrdersInv(StartStep(s, o))
  {
  }

  lemma MintKeepsBooks(s: State, o: RaffleOrder)
    requires TotalInv(s.redis.total, s.ledger.db.account, Outstanding(s), s.books)
    requires s.books.armed == Some(s.now) && o.id !in s.creating && GetOrCreate(s.redis, o, s.now).1.Minted?
    ensures var s' := StartStep(s, o);
            TotalInv(s'.redis.total, s'.ledger.db.account, Outstanding(s'), s'.books) && (PeriodInv(s) ==> PeriodInv(s'))
  {
    OneMore(s.creating, o.id, o);
  }

  lemma MintKeepsKeysAndLockstep(s: State, o: RaffleOrder)
    requires KeysInv(s.redis.day.Keys, s.redis.month.Keys, s.books.armed, s.now)
    requires LockstepInv(s.redis, s.books.armed, s.mints)
    requires s.books.armed == Some(s.now) && o.id !in s.mints.minted && GetOrCreate(s.redis, o, s.now).1.Minted?
    ensures var s' := StartStep(s, o);
            KeysInv(s'.redis.day.Keys, s'.redis.month.Keys, s'.books.armed, s'.now) && LockstepInv(s'.redis, s'.books.armed, s'.mints)
  {
  }

  lemma MintKeepsQuota(s: State, o: RaffleOrder)
    requires UnitsInv(s) && o.id !in s.creating && o.id !in s.mints.minted && GetOrCreate(s.redis, o, s.now).1.Minted?
    ensures Keeps(s, StartStep(s, o))
  {
    MintIsToday(s, o);
    MintKeepsBooks(s, o);
    MintKeepsKeysAndLockstep(s, o);
    var s' := StartStep(s, o);
    assert s'.ledger == s.ledger && s'.books == s.books && s'.now == s.now;
  }

  lemma NoMintLeavesQuota(s: State, o: RaffleOrder)
    requires !GetOrCreate(s.redis, o, s.now).1.Minted?
    ensures var s' := StartStep(s, o);
            && s'.redis.total == s.redis.total && s'.redis.day == s.redis.day && s'.redis.month == s.redis.month
            && s'.ledger == s.ledger && s'.now == s.now && s'.mints == s.mints && s'.books == s.books
            && Outstanding(s') == Outstanding(s) && Coming(s') == Coming(s)
  {
  }

  lemma StartKeepsQuota(s: State, o: RaffleOrder)
    requires UnitsInv(s) && o.id !in s.creating && o.id !in s.mints.minted
    ensures Keeps(s, StartStep(s, o))
  {
    if GetOrCreate(s.redis, o, s.now).1.Minted? {
      MintKeepsQuota(s, o);
    } else {
      NoMintLeavesQuota(s, o);
      QuotaFrame(s, StartStep(s, o));
    }
  }

  // ---------------------------------------------------------------- order transaction

  lemma CommitKeepsOrders(s: State, oid: OrderId, msg: MessageId, commits: bool)
    requires OrdersInv(s) && oid in s.creating
    ensures OrdersInv(CommitStep(s, oid, msg, commits))
  {
  }

  lemma CommitLeavesQuotaTables(s: Ledger.State, o: RaffleOrder, msg: MessageId, commits: bool)
    ensures var s' := Ledger.Step(s, Ledger.CommitOrder(o, msg, commits));
            s'.db.account == s.db.account && s'.db.dayRows == s.db.dayRows && s'.db.monthRows == s.db.monthRows
  {
  }

  /** The order is still being made: nowhere else in flight, and without a row. */
  predicate Making(s: State, oid: OrderId) {
    oid in s.creating && s.creating[oid].id == oid && oid !in s.failing && oid !in s.ledger.db.orders
  }

  lemma CommittedKeepsOutstanding(s: State, oid: OrderId, msg: MessageId)
    requires Making(s, oid) && msg !in s.ledger.db.tasks
    ensures var s' := CommitStep(s, oid, msg, true); Outstanding(s') == Outstanding(s) && Coming(s') == Coming(s)
  {
    var o := s.creating[oid];
    OneFewer(s.creating, oid);
    UnsettledAfterCommit(s.ledger.db.orders, oid, OrderRow(o.date, o.strategy, OrderCreate, SyncCreate));
  }

  lemma FailedKeepsOutstanding(s: State, oid: OrderId, msg: MessageId, commits: bool)
    requires Making(s, oid) && (commits ==> msg in s.ledger.db.tasks)
    ensures var s' := CommitStep(s, oid, msg, commits); Outstanding(s') == Outstanding(s) && Coming(s') <= Coming(s)
  {
    OneFewer(s.creating, oid);
    OneMore(s.failing, oid, s.creating[oid]);
  }

  lemma CommitKeepsQuota(s: State, oid: OrderId, msg: MessageId, commits: bool)
    requires UnitsInv(s) && Making(s, oid)
    ensures Keeps(s, CommitStep(s, oid, msg, commits))
  {
    CommitLeavesQuotaTables(s.ledger, s.creating[oid], msg, commits);
    if commits && msg !in s.ledger.db.tasks {
      CommittedKeepsOutstanding(s, oid, msg);
    } else {
      FailedKeepsOutstanding(s, oid, msg, commits);
    }
    QuotaFrame(s, CommitStep(s, oid, msg, commits));
  }

  // ---------------------------------------------------------------- refund

  lemma RefundKeepsOrders(s: State, oid: OrderId)
    requires OrdersInv(s) && oid in s.failing
    ensures OrdersInv(RefundStep(s, oid))
  {
  }

  lemma RefundKeepsOutstanding(s: State, oid: OrderId)
    requires oid in s.failing
    ensures var (s', done) := (RefundStep(s, oid), Compensate(s.redis, s.failing[oid]).1);
            Outstanding(s') == Outstanding(s) - (if done then 1 else 0) && Coming(s') == Coming(s)
  {
    OneFewer(s.failing, oid);
  }

  /** A refund that takes effect gives one unit back to each counter of the loaded day. */
  lemma RefundedKeepsUnits(s: State, oid: OrderId)
    requires UnitsInv(s) && ControlInv(s) && oid in s.failing && Compensate(s.redis, s.failing[oid]).1
    ensures UnitsInv(RefundStep(s, oid))
  {
    RefundKeepsOutstanding(s, oid);
    assert Some(s.failing[oid].date) == s.books.armed;
  }

  lemma RefundedKeepsPeriods(s: State, oid: OrderId)
    requires PeriodInv(s) && ControlInv(s) && oid in s.failing && Compensate(s.redis, s.failing[oid]).1
    ensures PeriodInv(RefundStep(s, oid))
  {
    RefundKeepsOutstanding(s, oid);
    assert Some(s.failing[oid].date) == s.books.armed;
  }

  lemma RefundKeepsQuota(s: State, oid: OrderId)
    requires UnitsInv(s) && ControlInv(s) && oid in s.failing
    ensures Keeps(s, RefundStep(s, oid))
  {
    RefundKeepsOutstanding(s, oid);
    if Compensate(s.redis, s.failing[oid]).1 {
      RefundedKeepsUnits(s, oid);
      if PeriodInv(s) { RefundedKeepsPeriods(s, oid); }
    } else {
      QuotaFrame(s, RefundStep(s, oid));
    }
  }

  // ---------------------------------------------------------------- award

  lemma AwardKeepsOrigin(s: State, oid: OrderId, award: int, msg: MessageId, commits: bool)
    requires OriginInv(s.redis.pending, s.holding, s.ledger.db.records.Keys, s.everMinted, s.everRefunded)
    requires oid in s.holding
    ensures var s' := AwardStep(s, oid, award, msg, commits);
            OriginInv(s'.redis.pending, s'.holding, s'.ledger.db.records.Keys, s'.everMinted, s'.everRefunded)
  {
  }

  lemma AwardKeepsOrders(s: State, oid: OrderId, award: int, msg: MessageId, commits: bool)
    requires OrdersInv(s) && oid in s.holding
    ensures OrdersInv(AwardStep(s, oid, award, msg, commits))
  {
    if oid in s.ledger.db.orders { DatesFrame(s.ledger.db.orders, s.books.armed, oid, s.ledger.db.orders[oid].(state := OrderUsed)); }
    AwardKeepsOrigin(s, oid, award, msg, commits);
    OrdersFrame(s, AwardStep(s, oid, award, msg, commits));
  }

  lemma AwardKeepsQuota(s: State, oid: OrderId, award: int, msg: MessageId, commits: bool)
    requires UnitsInv(s)
    ensures Keeps(s, AwardStep(s, oid, award, msg, commits))
  {
    var s' := AwardStep(s, oid, award, msg, commits);
    assert Outstanding(s') == Outstanding(s) && Coming(s') == Coming(s) by {
      if oid in s.ledger.db.orders { UnsettledAfterAward(s.ledger.db.orders, oid); }
    }
    QuotaFrame(s, s');
  }

  // ---------------------------------------------------------------- crashes

  lemma LossKeepsOrders(s: State, e: Event)
    requires OrdersInv(s) && Enabled(s, e) && (e.LoseCreating? || e.LoseFailing?)
    ensures OrdersInv(Step(s, e))
  {
  }

  lemma LossKeepsQuota(s: State, e: Event)
    requires UnitsInv(s) && Enabled(s, e) && (e.LoseCreating? || e.LoseFailing?)
    ensures Keeps(s, Step(s, e))
  {
    match e
    case LoseCreating(oid) => OneFewer(s.creating, oid);
    case LoseFailing(oid) => OneFewer(s.failing, oid);
  }

  // ---------------------------------------------------------------- settlement

  /** Settling rewrites at most one order row, to completed, and neither tasks nor records. */
  lemma SettleTouches(db: Db, oid: OrderId, commits: bool)
    ensures var (db', r) := SettleOne(db, oid, commits);
            && db'.records == db.records && db'.tasks == db.tasks && db'.recharges == db.recharges
            && db'.orders == if r == Ok(true) then db.orders[oid := db.orders[oid].(sync := SyncCompleted)] else db.orders
  {
  }

  lemma SettleKeepsOrders(s: State, oid: OrderId, commits: bool)
    requires OrdersInv(s)
    ensures OrdersInv(Step(s, Settle(oid, commits)))
  {
    SettleTouches(s.ledger.db, oid, commits);
    if oid in s.ledger.db.orders { DatesFrame(s.ledger.db.orders, s.books.armed, oid, s.ledger.db.orders[oid].(sync := SyncCompleted)); }
    OrdersFrame(s, Step(s, Settle(oid, commits)));
  }

  lemma SettleKeepsDates(db: Db, oid: OrderId, commits: bool, now: Date)
    requires DatedRows(db.dayRows.Keys, db.monthRows.Keys, now) && (oid in db.orders ==> UpTo(db.orders[oid].date, now))
    ensures var db' := SettleOne(db, oid, commits).0; DatedRows(db'.dayRows.Keys, db'.monthRows.Keys, now)
  {
  }

  /** One unit of the account, for one order outstanding. */
  lemma SettleKeepsTotal(s: State, oid: OrderId, commits: bool)
    requires SettleOne(s.ledger.db, oid, commits).1 == Ok(true)
    requires TotalInv(s.redis.total, s.ledger.db.account, Outstanding(s), s.books)
    ensures var s' := Step(s, Settle(oid, commits));
            TotalInv(s'.redis.total, s'.ledger.db.account, Outstanding(s'), s'.books)
  {
    UnsettledAfterSettle(s.ledger.db.orders, oid);
    assert oid in Unsettled(s.ledger.db.orders);
  }

  lemma SettleKeepsUnits(s: State, oid: OrderId, commits: bool)
    requires UnitsInv(s) && (oid in s.ledger.db.orders ==> UpTo(s.ledger.db.orders[oid].date, s.now))
    ensures UnitsInv(Step(s, Settle(oid, commits)))
  {
    if SettleOne(s.ledger.db, oid, commits).1 == Ok(true) {
      SettleKeepsDates(s.ledger.db, oid, commits, s.now);
      SettleKeepsTotal(s, oid, commits);
      var s' := Step(s, Settle(oid, commits));
      assert s'.ledger.db == SettleOne(s.ledger.db, oid, commits).0 && s' == s.(ledger := s'.ledger);
    }
  }

  lemma SettleKeepsPeriods(s: State, oid: OrderId, commits: bool)
    requires UnitsInv(s) && PeriodInv(s) && DatesInv(s.ledger.db.orders, s.books.armed)
    requires SettleOne(s.ledger.db, oid, commits).1 == Ok(true)
    ensures var s' := Step(s, Settle(oid, commits)); PeriodInv(s') && (AheadInv(s) ==> AheadInv(s'))
  {
    UnsettledAfterSettle(s.ledger.db.orders, oid);
    assert oid in Unsettled(s.ledger.db.orders);
  }

  lemma SettleKeepsQuota(s: State, oid: OrderId, commits: bool)
    requires UnitsInv(s) && DatesInv(s.ledger.db.orders, s.books.armed)
    ensures Keeps(s, Step(s, Settle(oid, commits)))
  {
    if SettleOne(s.ledger.db, oid, commits).1 == Ok(true) {
      SettleKeepsUnits(s, oid, commits);
      if PeriodInv(s) { SettleKeepsPeriods(s, oid, commits); }
    }
  }

  // ---------------------------------------------------------------- recharge

  lemma RechargeKeepsRows(s: State, a: Amounts)
    requires UnitsInv(s) && PeriodInv(s) && AheadInv(s)
    ensures RowsInv(Some(Raise(s.ledger.db.account, a)), Credit(s.ledger.db.dayRows, s.now, a.day),
                    Credit(s.ledger.db.monthRows, s.now.month, a.month), Coming(s), Raised(s.books, s.now, a), s.now)
  {
  }

  lemma RechargeKeepsPeriods(s: State, a: Amounts)
    requires UnitsInv(s) && PeriodInv(s)
    ensures PeriodsInv(s.redis, Some(Raise(s.ledger.db.account, a)), Credit(s.ledger.db.dayRows, s.now, a.day),
                       Credit(s.ledger.db.monthRows, s.now.month, a.month), Outstanding(s), Raised(s.books, s.now, a))
  {
  }

  lemma RechargeKeepsUnits(s: State, number: BusinessNo, a: Amounts)
    requires UnitsInv(s) && QuotaStore.Recharge(s.ledger.db, number, s.now, a, true).1 == Ok(true)
    ensures UnitsInv(RechargeStep(s, number, a, true))
  {
  }

  lemma RechargedKeepsPeriods(s: State, number: BusinessNo, a: Amounts)
    requires UnitsInv(s) && PeriodInv(s) && QuotaStore.Recharge(s.ledger.db, number, s.now, a, true).1 == Ok(true)
    ensures var s' := RechargeStep(s, number, a, true); PeriodInv(s') && (AheadInv(s) ==> AheadInv(s'))
  {
    RechargeKeepsPeriods(s, a);
    if AheadInv(s) { RechargeKeepsRows(s, a); }
  }

  lemma RechargeKeepsQuota(s: State, number: BusinessNo, a: Amounts, commits: bool)
    requires UnitsInv(s)
    ensures Keeps(s, RechargeStep(s, number, a, commits))
  {
    if QuotaStore.Recharge(s.ledger.db, number, s.now, a, commits).1 == Ok(true) {
      RechargeKeepsUnits(s, number, a);
      if PeriodInv(s) { RechargedKeepsPeriods(s, number, a); }
    } else {
      QuotaFrame(s, RechargeStep(s, number, a, commits));
    }
  }

  // ---------------------------------------------------------------- load

  lemma LoadKeepsOrders(s: State)
    requires OrdersInv(s) && Quiet(s)
    ensures OrdersInv(LoadStep(s))
  {
    forall o | o in s.ledger.db.orders ensures s.ledger.db.orders[o].sync != SyncCreate {
      assert o !in Unsettled(s.ledger.db.orders);
    }
  }

  /** A load of an account overwrites the counters, forgets what was lost, and opens new books. */
  lemma LoadMoves(s: State)
    requires s.ledger.db.account.Some?
    ensures var (db, s') := (s.ledger.db, LoadStep(s));
            var acc := db.account.value;
            var days := Ensure(db.dayRows, s.now, acc.day);
            var months := Ensure(db.monthRows, s.now.month, acc.month);
            && s'.ledger.db == db.(dayRows := days, monthRows := months)
            && s'.redis.total == Some(acc.total.surplus) && s'.redis.day == s.redis.day[s.now := days[s.now].surplus]
            && s'.redis.month == s.redis.month[s.now.month := months[s.now.month].surplus]
            && s'.now == s.now && s'.mints == Mints(Account(acc.total, days[s.now], months[s.now.month]), {}, [])
            && s'.books == Opened(s.now, s'.mints.loaded, acc)
            && Outstanding(s') == |s.creating| + |s.failing| + |Unsettled(db.orders)|
  {
  }

  lemma NothingOverdrawn(l: Ledger.State, today: Date)
    requires Ledger.QuotaInv(l) && l.db.account.Some?
    ensures var acc := l.db.account.value; 0 <= acc.total.surplus && 0 <= acc.day.surplus && 0 <= acc.month.surplus
    ensures today in l.db.dayRows ==> 0 <= l.db.dayRows[today].surplus
    ensures today.month in l.db.monthRows ==> 0 <= l.db.monthRows[today.month].surplus
  {
  }

  /** Everything dated up to the last load is dated up to today, and so is today. */
  lemma LoadedKeys(days: set<Date>, months: set<nat>, armed: Option<Date>, now: Date)
    requires KeysInv(days, months, armed, now)
    ensures KeysInv(days + {now}, months + {now.month}, Some(now), now)
  {
  }

  lemma KeysAfter<K, V>(m: map<K, V>, k: K, v: V)
    ensures m[k := v].Keys == m.Keys + {k}
  {
  }

  lemma EnsureKeys<K>(rows: map<K, Quota>, k: K, acc: Quota)
    ensures Ensure(rows, k, acc).Keys == rows.Keys + {k}
  {
  }

  lemma LoadKeys(s: State)
    requires s.ledger.db.account.Some?
    ensures var s' := LoadStep(s);
            && s'.redis.day.Keys == s.redis.day.Keys + {s.now} && s'.redis.month.Keys == s.redis.month.Keys + {s.now.month}
            && s'.ledger.db.dayRows.Keys == s.ledger.db.dayRows.Keys + {s.now}
            && s'.ledger.db.monthRows.Keys == s.ledger.db.monthRows.Keys + {s.now.month}
            && s'.books.armed == Some(s.now) && s'.now == s.now
  {
    LoadMoves(s);
    var acc := s.ledger.db.account.value;
    KeysAfter(s.redis.day, s.now, LoadStep(s).redis.day[s.now]);
    KeysAfter(s.redis.month, s.now.month, LoadStep(s).redis.month[s.now.month]);
    EnsureKeys(s.ledger.db.dayRows, s.now, acc.day);
    EnsureKeys(s.ledger.db.monthRows, s.now.month, acc.month);
  }

  lemma DatedToday(days: set<Date>, months: set<nat>, now: Date)
    requires DatedRows(days, months, now)
    ensures DatedRows(days + {now}, months + {now.month}, now)
  {
  }

  lemma LoadOpensKeys(s: State)
    requires KeysInv(s.redis.day.Keys, s.redis.month.Keys, s.books.armed, s.now) && s.ledger.db.account.Some?
    requires DatedRows(s.ledger.db.dayRows.Keys, s.ledger.db.monthRows.Keys, s.now)
    ensures var s' := LoadStep(s);
            && KeysInv(s'.redis.day.Keys, s'.redis.month.Keys, s'.books.armed, s'.now)
            && DatedRows(s'.ledger.db.dayRows.Keys, s'.ledger.db.monthRows.Keys, s'.now)
  {
    LoadKeys(s);
    LoadedKeys(s.redis.day.Keys, s.redis.month.Keys, s.books.armed, s.now);
    DatedToday(s.ledger.db.dayRows.Keys, s.ledger.db.monthRows.Keys, s.now);
  }

  lemma LoadOpensLockstep(s: State)
    requires Ledger.QuotaInv(s.ledger) && s.ledger.db.account.Some?
    ensures var s' := LoadStep(s); LockstepInv(s'.redis, s'.books.armed, s'.mints)
  {
    LoadMoves(s);
    NothingOverdrawn(s.ledger, s.now);
  }

  lemma LoadOpensUnits(s: State)
    requires Ledger.QuotaInv(s.ledger) && UnitsInv(s) && Quiet(s) && s.ledger.db.account.Some?
    ensures UnitsInv(LoadStep(s))
  {
    LoadOpensKeys(s);
    LoadOpensLockstep(s);
    LoadMoves(s);
    NothingOverdrawn(s.ledger, s.now);
  }

  /** One opened line balances if the row shows no more than the account. */
  lemma OpenedLineIff<K>(rows: map<K, Quota>, k: K, acc: Quota)
    requires 0 <= acc.surplus && (k in rows ==> 0 <= rows[k].surplus)
    ensures var row := Ensure(rows, k, acc)[k].surplus;
            && Balanced(row, 0, 0, 0, row)
            && (Balanced(row, 0, acc.surplus - row, 0, acc.surplus) <==> (k in rows ==> rows[k].surplus <= acc.surplus))
  {
  }

  /** Nothing is outstanding after a quiet load, so its books balance if no row shows more than the account. */
  lemma LoadOpensPeriods(s: State)
    requires Ledger.QuotaInv(s.ledger) && s.ledger.db.account.Some? && Quiet(s)
    ensures PeriodInv(LoadStep(s)) <==> RowsFit(s.ledger.db, s.now)
  {
    NothingOverdrawn(s.ledger, s.now);
    OpenedLineIff(s.ledger.db.dayRows, s.now, s.ledger.db.account.value.day);
    OpenedLineIff(s.ledger.db.monthRows, s.now.month, s.ledger.db.account.value.month);
    LoadedPeriods(s);
  }

  lemma LoadedPeriods(s: State)
    requires s.ledger.db.account.Some? && Quiet(s)
    ensures var acc := s.ledger.db.account.value;
            var day := Ensure(s.ledger.db.dayRows, s.now, acc.day)[s.now].surplus;
            var month := Ensure(s.ledger.db.monthRows, s.now.month, acc.month)[s.now.month].surplus;
            PeriodInv(LoadStep(s)) <==>
              && Balanced(day, 0, acc.day.surplus - day, 0, acc.day.surplus) && Balanced(day, 0, 0, 0, day)
              && Balanced(month, 0, acc.month.surplus - month, 0, acc.month.surplus) && Balanced(month, 0, 0, 0, month)
  {
    LoadMoves(s);
  }

  lemma LoadOpensAhead(s: State)
    requires s.ledger.db.account.Some?
    ensures AheadInv(LoadStep(s))
  {
  }

  lemma LoadKeepsQuota(s: State)
    requires Ledger.QuotaInv(s.ledger) && UnitsInv(s) && Quiet(s)
    ensures UnitsInv(LoadStep(s))
    ensures PeriodInv(s) && RowsFit(s.ledger.db, s.now) ==> PeriodInv(LoadStep(s))
    ensures AheadInv(s) ==> AheadInv(LoadStep(s))
  {
    if s.ledger.db.account.Some? {
      LoadOpensUnits(s);
      LoadOpensPeriods(s);
      LoadOpensAhead(s);
    }
  }

  /** While the whole invariant holds, rows do fit. */
  lemma QuietRowsFit(s: State)
    requires QuotaInv(s) && Quiet(s)
    ensures RowsFit(s.ledger.db, s.now)
  {
  }

  /** Exactly which loads keep the books balanced: the quiet ones that find today's rows within the account.
      Loading while an order is in its transaction, awaits its refund or is unsettled offers its unit a second time,
      and a row above the account offers units of the day or month that the account does not have. */
  lemma LoadKeepsBooksIff(s: State)
    requires Ledger.QuotaInv(s.ledger) && UnitsInv(s) && s.ledger.db.account.Some?
    ensures QuotaInv(LoadStep(s)) <==> Quiet(s) && RowsFit(s.ledger.db, s.now)
    ensures var s' := LoadStep(s);
            && s'.redis.total.Some? && s'.ledger.db.account.Some?
            && s.now in s'.redis.day && s.now.month in s'.redis.month
            && var acc := s'.ledger.db.account.value;
               && (!Quiet(s) ==> acc.total.surplus < s'.redis.total.value + Outstanding(s'))
               && (!RowsFit(s.ledger.db, s.now) ==>
                     acc.day.surplus < s'.redis.day[s.now] || acc.month.surplus < s'.redis.month[s.now.month])
  {
    if Quiet(s) {
      LoadOpensUnits(s);
      LoadOpensPeriods(s);
      LoadOpensAhead(s);
    } else {
      LoudLoadOffersTwice(s);
    }
    LoadShowsRows(s);
  }

  lemma LoudLoadOffersTwice(s: State)
    requires !Quiet(s) && s.ledger.db.account.Some?
    ensures var s' := LoadStep(s);
            && s'.redis.total.Some? && s'.ledger.db.account.Some?
            && s'.ledger.db.account.value.total.surplus < s'.redis.total.value + Outstanding(s')
            && !UnitsInv(s')
  {
    LoadMoves(s);
    SomethingOutstanding(s);
  }

  lemma LoadShowsRows(s: State)
    requires s.ledger.db.account.Some?
    ensures var s' := LoadStep(s);
            && s'.redis.total.Some? && s'.ledger.db.account.Some?
            && s.now in s'.redis.day && s.now.month in s'.redis.month
            && var acc := s'.ledger.db.account.value;
               !RowsFit(s.ledger.db, s.now) ==>
                 acc.day.surplus < s'.redis.day[s.now] || acc.month.surplus < s'.redis.month[s.now.month]
  {
    LoadMoves(s);
  }

  lemma SomethingOutstanding(s: State)
    requires !Quiet(s)
    ensures 0 < |s.creating| + |s.failing| + |Unsettled(s.ledger.db.orders)|
  {
  }

  // ---------------------------------------------------------------- account queries and the clock

  /** A query adds rows for today and this month, with the account's figures, and changes no row that is there. */
  lemma QueryMoves(s: State, monthCreated: bool, dayCreated: bool)
    ensures var (db, s') := (s.ledger.db, Step(s, Query(monthCreated, dayCreated)));
            && s' == s.(ledger := s'.ledger)
            && s'.ledger.db == db.(dayRows := s'.ledger.db.dayRows, monthRows := s'.ledger.db.monthRows)
            && (if CreatesRow(db, s.now, monthCreated, dayCreated) then
                  && db.account.Some?
                  && s'.ledger.db.monthRows == Ensure(db.monthRows, s.now.month, db.account.value.month)
                  && s'.ledger.db.dayRows
                     == (if s.now in db.dayRows || dayCreated then Ensure(db.dayRows, s.now, db.account.value.day)
                         else db.dayRows)
                else s'.ledger.db == db)
            && Outstanding(s') == Outstanding(s) && Coming(s') == Coming(s)
  {
  }

  lemma QueryKeepsPeriods(s: State, monthCreated: bool, dayCreated: bool)
    requires UnitsInv(s)
    ensures var s' := Step(s, Query(monthCreated, dayCreated)); UnitsInv(s') && (PeriodInv(s) ==> PeriodInv(s'))
  {
    QueryMoves(s, monthCreated, dayCreated);
  }

  lemma QueryKeepsRowsIff(s: State, monthCreated: bool, dayCreated: bool)
    requires QuotaInv(s)
    ensures AheadInv(Step(s, Query(monthCreated, dayCreated))) <==> SafeQuery(s, monthCreated, dayCreated)
  {
    QueryMoves(s, monthCreated, dayCreated);
    assert s.creating == map[] && Unsettled(s.ledger.db.orders) == {} <==> Coming(s) == 0;
  }

  /** Exactly which account queries keep the books: those that create no row, and those that come when no order is
      inside its transaction or unsettled. Any other writes down, for a new day or month, units that orders of the
      old one are still to be charged for. */
  lemma QueryKeepsBooksIff(s: State, monthCreated: bool, dayCreated: bool)
    requires QuotaInv(s)
    ensures QuotaInv(Step(s, Query(monthCreated, dayCreated))) <==> SafeQuery(s, monthCreated, dayCreated)
  {
    QueryKeepsPeriods(s, monthCreated, dayCreated);
    QueryKeepsRowsIff(s, monthCreated, dayCreated);
  }

  lemma QueryKeepsOrders(s: State, monthCreated: bool, dayCreated: bool)
    requires OrdersInv(s)
    ensures OrdersInv(Step(s, Query(monthCreated, dayCreated)))
  {
    QueryMoves(s, monthCreated, dayCreated);
    OrdersFrame(s, Step(s, Query(monthCreated, dayCreated)));
  }

  lemma TickKeepsQuota(s: State, date: Date)
    requires UnitsInv(s) && Before(s.now, date)
    ensures Keeps(s, Step(s, Tick(date)))
  {
  }

  // ---------------------------------------------------------------- every run

  /** A step changes the database by its transaction, or not at all. */
  lemma LedgerMoves(s: State, e: Event)
    requires Enabled(s, e)
    ensures var t := Transaction(s, e);
            Step(s, e).ledger == if t.Some? then Ledger.Step(s.ledger, t.value) else s.ledger
  {
  }

  lemma StepKeepsLedger(s: State, e: Event)
    requires Ledger.Inv(s.ledger) && Enabled(s, e)
    ensures Ledger.Inv(Step(s, e).ledger)
  {
    LedgerMoves(s, e);
    if Transaction(s, e).Some? { Ledger.StepKeepsInv(s.ledger, Transaction(s, e).value); }
  }

  lemma RechargeKeepsOrders(s: State, number: BusinessNo, a: Amounts, commits: bool)
    requires OrdersInv(s)
    ensures OrdersInv(RechargeStep(s, number, a, commits))
  {
    var s' := RechargeStep(s, number, a, commits);
    assert s'.ledger.db.orders == s.ledger.db.orders && s'.ledger.db.records == s.ledger.db.records;
    OrdersFrame(s, s');
  }

  lemma BystanderKeepsOrders(s: State, e: Event)
    requires OrdersInv(s) && Enabled(s, e)
    requires e.Tick? || e.DropPending? || e.LoseHolder? || e.LoseDropper? || e.Expire?
    ensures OrdersInv(Step(s, e))
  {
    OrdersFrame(s, Step(s, e));
  }

  lemma BystanderKeepsQuota(s: State, e: Event)
    requires UnitsInv(s) && Enabled(s, e)
    requires e.DropPending? || e.LoseHolder? || e.LoseDropper? || e.Expire?
    ensures Keeps(s, Step(s, e))
  {
    QuotaFrame(s, Step(s, e));
  }

  lemma StartIsFresh(s: State, o: RaffleOrder)
    requires OrdersInv(s) && o.id !in s.everMinted
    ensures o.id !in s.creating && o.id !in s.mints.minted
  {
  }

  lemma StepKeepsOrders(s: State, e: Event)
    requires OrdersInv(s) && UnitsInv(s) && Enabled(s, e)
    ensures OrdersInv(Step(s, e))
  {
    match e
    case Start(o) =>
      if GetOrCreate(s.redis, o, s.now).1.Minted? { MintIsToday(s, o); }
      StartKeepsOrders(s, o);
    case Commit(oid, msg, commits) => CommitKeepsOrders(s, oid, msg, commits);
    case Refund(oid) => RefundKeepsOrders(s, oid);
    case Award(oid, award, msg, commits) => AwardKeepsOrders(s, oid, award, msg, commits);
    case LoseCreating(_) => LossKeepsOrders(s, e);
    case LoseFailing(_) => LossKeepsOrders(s, e);
    case Settle(oid, commits) => SettleKeepsOrders(s, oid, commits);
    case Recharge(number, a, commits) => RechargeKeepsOrders(s, number, a, commits);
    case Load => LoadKeepsOrders(s);
    case Query(monthCreated, dayCreated) => QueryKeepsOrders(s, monthCreated, dayCreated);
    case _ => BystanderKeepsOrders(s, e);
  }

  /** Every step but two kinds keeps all layers of the books. */
  lemma StepKeepsBooks(s: State, e: Event)
    requires OrdersInv(s) && UnitsInv(s) && Enabled(s, e) && !e.Load? && !e.Query?
    ensures Keeps(s, Step(s, e))
  {
    match e
    case Start(o) =>
      StartIsFresh(s, o);
      StartKeepsQuota(s, o);
    case Commit(oid, msg, commits) =>
      MakingIsFresh(s, oid);
      CommitKeepsQuota(s, oid, msg, commits);
    case Refund(oid) => RefundKeepsQuota(s, oid);
    case Award(oid, award, msg, commits) => AwardKeepsQuota(s, oid, award, msg, commits);
    case LoseCreating(_) => LossKeepsQuota(s, e);
    case LoseFailing(_) => LossKeepsQuota(s, e);
    case Settle(oid, commits) => SettleKeepsQuota(s, oid, commits);
    case Recharge(number, a, commits) => RechargeKeepsQuota(s, number, a, commits);
    case Tick(date) => TickKeepsQuota(s, date);
    case _ => BystanderKeepsQuota(s, e);
  }

  lemma MakingIsFresh(s: State, oid: OrderId)
    requires ControlInv(s) && oid in s.creating
    ensures Making(s, oid)
  {
    assert oid in s.creating.Keys + s.failing.Keys;
  }

  /** The total is kept by every step. */
  lemma StepKeepsUnits(s: State, e: Event)
    requires Ledger.Inv(s.ledger) && OrdersInv(s) && UnitsInv(s) && Enabled(s, e)
    ensures UnitsInv(Step(s, e))
  {
    if e.Load? {
      LoadKeepsQuota(s);
    } else if e.Query? {
      QueryKeepsPeriods(s, e.monthCreated, e.dayCreated);
    } else {
      StepKeepsBooks(s, e);
    }
  }

  /** Day and month are kept by every step except a load of rows that do not fit. */
  lemma StepKeepsPeriods(s: State, e: Event)
    requires Ledger.Inv(s.ledger) && OrdersInv(s) && UnitsInv(s) && PeriodInv(s) && Enabled(s, e)
    requires e.Load? ==> RowsFit(s.ledger.db, s.now)
    ensures PeriodInv(Step(s, e))
  {
    if e.Load? {
      LoadKeepsQuota(s);
    } else if e.Query? {
      QueryKeepsPeriods(s, e.monthCreated, e.dayCreated);
    } else {
      StepKeepsBooks(s, e);
    }
  }

  /** All of it is kept by every step except an unsafe query. */
  lemma StepKeepsQuota(s: State, e: Event)
    requires Ledger.Inv(s.ledger) && OrdersInv(s) && QuotaInv(s) && Enabled(s, e)
    requires e.Query? ==> SafeQuery(s, e.monthCreated, e.dayCreated)
    ensures QuotaInv(Step(s, e))
  {
    if e.Load? {
      QuietRowsFit(s);
      LoadKeepsQuota(s);
    } else if e.Query? {
      QueryKeepsBooksIff(s, e.monthCreated, e.dayCreated);
    } else {
      StepKeepsBooks(s, e);
    }
  }

  /** What every run keeps. */
  ghost predicate Inv(s: State) {
    Ledger.Inv(s.ledger) && OrdersInv(s) && UnitsInv(s)
  }

  lemma StepKeepsInv(s: State, e: Event)
    requires Inv(s) && Enabled(s, e)
    ensures Inv(Step(s, e))
  {
    StepKeepsLedger(s, e);
    StepKeepsOrders(s, e);
    StepKeepsUnits(s, e);
  }

  /** Main result: from an empty account, after any valid run, on any day. */
  lemma {:induction false} RunKeepsInv(s: State, es: seq<Event>)
    requires Inv(s) && ValidRun(s, es)
    ensures Inv(Run(s, es))
    decreases |es|
  {
    if es != [] {
      StepKeepsInv(s, es[0]);
      RunKeepsInv(Step(s, es[0]), es[1..]);
    }
  }

  lemma {:induction false} RunKeepsPeriods(s: State, es: seq<Event>)
    requires Inv(s) && PeriodInv(s) && ValidRun(s, es) && FittingLoads(s, es)
    ensures PeriodInv(Run(s, es))
    decreases |es|
  {
    if es != [] {
      StepKeepsInv(s, es[0]);
      StepKeepsPeriods(s, es[0]);
      RunKeepsPeriods(Step(s, es[0]), es[1..]);
    }
  }

  /** With safe queries every load finds rows that fit. */
  lemma {:induction false} SafeQueriesMakeLoadsFit(s: State, es: seq<Event>)
    requires Inv(s) && QuotaInv(s) && ValidRun(s, es) && SafeQueries(s, es)
    ensures FittingLoads(s, es) && QuotaInv(Run(s, es))
    decreases |es|
  {
    if es != [] {
      StepKeepsInv(s, es[0]);
      StepKeepsQuota(s, es[0]);
      if es[0].Load? { QuietRowsFit(s); }
      SafeQueriesMakeLoadsFit(Step(s, es[0]), es[1..]);
    }
  }

  predicate NoQueries(es: seq<Event>) {
    forall i :: 0 <= i < |es| ==> !es[i].Query?
  }

  lemma {:induction false} NoQueriesIsSafe(s: State, es: seq<Event>)
    requires ValidRun(s, es) && NoQueries(es)
    ensures SafeQueries(s, es)
    decreases |es|
  {
    if es != [] { NoQueriesIsSafe(Step(s, es[0]), es[1..]); }
  }

  lemma InitKeepsQuota(now: Date)
    ensures QuotaInv(Init(now))
  {
    assert Unsettled(Ledger.INIT.db.orders) == {};
  }

  lemma InitKeeps(now: Date)
    ensures Inv(Init(now)) && QuotaInv(Init(now))
  {
    InitKeepsQuota(now);
    assert Ledger.Inv(Ledger.INIT);
  }

  lemma Reachable(now: Date, es: seq<Event>)
    requires ValidRun(Init(now), es)
    ensures Inv(Run(Init(now), es))
    ensures FittingLoads(Init(now), es) ==> PeriodInv(Run(Init(now), es))
  {
    InitKeeps(now);
    RunKeepsInv(Init(now), es);
    if FittingLoads(Init(now), es) { RunKeepsPeriods(Init(now), es); }
  }

  // ---------------------------------------------------------------- what the invariants mean

  /** What Redis still offers, plus every order inside its transaction or awaiting a refund, plus
      every committed order not settled, plus what crashes lost, plus the recharges Redis has not
      been told of, is exactly the account's total surplus, after any valid run; no counter is negative.
      If every load found rows that fit, day and month stay below the account and their rows in the same way. */
  lemma QuotaIsConserved(now: Date, es: seq<Event>)
    requires ValidRun(Init(now), es) && Run(Init(now), es).books.armed.Some?
    ensures var s := Run(Init(now), es);
            var a := s.books.armed.value;
            && s.redis.total.Some? && a in s.redis.day && a.month in s.redis.month && s.ledger.db.account.Some?
            && 0 <= s.redis.total.value && 0 <= s.redis.day[a] && 0 <= s.redis.month[a.month]
            && s.redis.total.value + |s.creating| + |s.failing| + |Unsettled(s.ledger.db.orders)| + s.lost + s.books.raised.total
               == s.ledger.db.account.value.total.surplus
            && (FittingLoads(Init(now), es) ==>
                  && a in s.ledger.db.dayRows && a.month in s.ledger.db.monthRows
                  && s.redis.day[a] + Outstanding(s) <= s.ledger.db.account.value.day.surplus
                  && s.redis.month[a.month] + Outstanding(s) <= s.ledger.db.account.value.month.surplus
                  && s.redis.day[a] + Outstanding(s) <= s.ledger.db.dayRows[a].surplus
                  && s.redis.month[a.month] + Outstanding(s) <= s.ledger.db.monthRows[a.month].surplus)
  {
    Reachable(now, es);
  }

  /** Loads do fit when every account query is safe. */
  lemma SafeQueriesSuffice(now: Date, es: seq<Event>)
    requires ValidRun(Init(now), es) && SafeQueries(Init(now), es)
    ensures FittingLoads(Init(now), es) && QuotaInv(Run(Init(now), es))
  {
    InitKeeps(now);
    SafeQueriesMakeLoadsFit(Init(now), es);
  }

  /** Every unit ever credited is in exactly one place: still offered by Redis, in an order (settled or
      not), held by a request, lost to a crash, or recharged since the last load. */
  lemma EveryUnitIsInOnePlace(now: Date, es: seq<Event>)
    requires ValidRun(Init(now), es)
    ensures var s := Run(Init(now), es);
            s.redis.total.GetOr(0) + |s.ledger.db.orders| + |s.creating| + |s.failing| + s.lost + s.books.raised.total
            == Ledger.Credited(s.ledger.credits).total
  {
    Reachable(now, es);
    UnitsAddUp(Run(Init(now), es));
  }

  lemma UnitsAddUp(s: State)
    requires Ledger.QuotaInv(s.ledger)
    requires TotalInv(s.redis.total, s.ledger.db.account, Outstanding(s), s.books)
    ensures s.redis.total.GetOr(0) + |s.ledger.db.orders| + |s.creating| + |s.failing| + s.lost + s.books.raised.total
         == Ledger.Credited(s.ledger.credits).total
  {
    SettledOrNot(s.ledger.db.orders);
  }

  lemma SettledOrNot(orders: map<OrderId, OrderRow>)
    ensures |orders| == |Ledger.Completed(orders, Ledger.Ever)| + |Unsettled(orders)|
  {
    assert orders.Keys == Ledger.Completed(orders, Ledger.Ever) + Unsettled(orders);
    assert |orders| == |orders.Keys|;
  }

  /** So settling a committed order never meets a quota error, if every load found rows that fit: it is charged,
      or was already. */
  lemma SettleIsNeverRefused(now: Date, es: seq<Event>, oid: OrderId)
    requires ValidRun(Init(now), es) && FittingLoads(Init(now), es) && oid in Run(Init(now), es).ledger.db.orders
    ensures var db := Run(Init(now), es).ledger.db;
            SettleOne(db, oid, true).1 == Ok(db.orders[oid].sync == SyncCreate)
  {
    Reachable(now, es);
    var s := Run(Init(now), es);
    if s.ledger.db.orders[oid].sync == SyncCreate { UnsettledCanSettle(s, oid); }
  }

  lemma UnsettledCanSettle(s: State, oid: OrderId)
    requires UnitsInv(s) && PeriodInv(s) && DatesInv(s.ledger.db.orders, s.books.armed)
    requires oid in s.ledger.db.orders && s.ledger.db.orders[oid].sync == SyncCreate
    ensures SettleOne(s.ledger.db, oid, true).1 == Ok(true)
  {
    assert oid in Unsettled(s.ledger.db.orders);
  }

  /** Between loads the three counters fall by one per mint and rise by one per refund, together,
      and no order is refunded twice. */
  lemma CountersMoveInLockstep(now: Date, es: seq<Event>)
    requires ValidRun(Init(now), es) && Run(Init(now), es).books.armed.Some?
    ensures var s := Run(Init(now), es);
            var a := s.books.armed.value;
            && s.redis.total.Some? && a in s.redis.day && a.month in s.redis.month
            && s.redis.total.value + |s.mints.minted| == s.mints.loaded.total.surplus + |s.mints.refunds|
            && s.redis.day[a] + |s.mints.minted| == s.mints.loaded.day.surplus + |s.mints.refunds|
            && s.redis.month[a.month] + |s.mints.minted| == s.mints.loaded.month.surplus + |s.mints.refunds|
    ensures Distinct(Run(Init(now), es).mints.refunds)
    ensures forall o :: o in Run(Init(now), es).mints.refunds ==> o in Run(Init(now), es).mints.minted
  {
    Reachable(now, es);
  }

  /** However draws overlap, an award is only ever recorded for a minted order, at most one for each
      (records are keyed by order), and a refunded order never has a row. */
  lemma AwardsAreMinted(now: Date, es: seq<Event>)
    requires ValidRun(Init(now), es)
    ensures var s := Run(Init(now), es);
            s.ledger.db.records.Keys <= s.everMinted && s.ledger.db.orders.Keys <= s.everMinted
    ensures Run(Init(now), es).everRefunded !! Run(Init(now), es).ledger.db.orders.Keys
  {
    Reachable(now, es);
  }
}
