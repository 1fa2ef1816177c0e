/** The shard database under any mix of its transactions: fresh and duplicate order commits,
    awards, settlements, recharges and account reads that create rows, each one committed or rolled back, on any dates. */
module Ledger {
  import opened Wrappers
  import opened QuotaStore

  datatype Event =
    | CommitOrder(order: RaffleOrder, msg: MessageId, commits: bool)
    | CommitAward(oid: OrderId, award: int, msg: MessageId, commits: bool)
    | SettleOrder(oid: OrderId, commits: bool)
    | RechargeAccount(number: BusinessNo, date: Date, amounts: Amounts, commits: bool)
    | LoadEntity(today: Date, monthCreated: bool, dayCreated: bool)

  /** The database with its bookkeeping: which task was written for which order, which recharges
      were credited in what order, and how much of the account was spent when a row was created. */
  datatype State = State(
    db: Db,
    saveTask: map<OrderId, MessageId>,
    sendTask: map<OrderId, MessageId>,
    sentFor: map<MessageId, OrderId>,
    credits: seq<(BusinessNo, Amounts)>,
    dayBase: map<Date, int>,
    monthBase: map<nat, int>)

  const INIT := State(EMPTY_DB, map[], map[], map[], [], map[], map[])

  function Spent(q: Quota): int { q.count - q.surplus }

  function Based<K>(base: map<K, int>, k: K, v: int): map<K, int> {
    if k in base then base else base[k := v]
  }

  function Step(s: State, e: Event): State {
    match e
    case CommitOrder(o, msg, commits) =>
      var (db', r) := SaveLite(s.db, o, msg, commits);
      if r == Ok(true) then s.(db := db', saveTask := s.saveTask[o.id := msg]) else s.(db := db')
    case CommitAward(oid, award, msg, commits) =>
      var (db', r) := SaveAward(s.db, oid, award, msg, commits);
      if r == Ok(true) then s.(db := db', sendTask := s.sendTask[oid := msg], sentFor := s.sentFor[msg := oid]) else s.(db := db')
    case SettleOrder(oid, commits) =>
      var (db', r) := SettleOne(s.db, oid, commits);
      if r == Ok(true) then
        var date := s.db.orders[oid].date;
        s.(db := db',
           dayBase := Based(s.dayBase, date, Spent(s.db.account.value.day)),
           monthBase := Based(s.monthBase, date.month, Spent(s.db.account.value.month)))
      else s.(db := db')
    case RechargeAccount(number, date, a, commits) =>
      var (db', r) := Recharge(s.db, number, date, a, commits);
      if r == Ok(true) then
        s.(db := db',
           credits := s.credits + [(number, a)],
           dayBase := if a.day == 0 then s.dayBase else Based(s.dayBase, date, 0),
           monthBase := if a.month == 0 then s.monthBase else Based(s.monthBase, date.month, 0))
      else s.(db := db')
    case LoadEntity(today, monthCreated, dayCreated) =>
      var db' := QueryEntityUpTo(s.db, today, monthCreated, dayCreated).0;
      if s.db.account.None? then s
      else
        var acc := s.db.account.value;
        s.(db := db',
           dayBase := if today in db'.dayRows then Based(s.dayBase, today, Spent(acc.day)) else s.dayBase,
           monthBase := if today.month in db'.monthRows then Based(s.monthBase, today.month, Spent(acc.month)) else s.monthBase)
  }

  function Run(s: State, es: seq<Event>): State
    decreases |es|
  {
    if es == [] then s else Run(Step(s, es[0]), es[1..])
  }

  // ---------------------------------------------------------------- what is counted

  /** The span of time a quota row covers. */
  datatype Period = Ever | OnDay(date: Date) | InMonth(month: nat)

  predicate Falls(d: Date, p: Period) {
    match p
    case Ever => true
    case OnDay(date) => d == date
    case InMonth(m) => d.month == m
  }

  function Completed(orders: map<OrderId, OrderRow>, p: Period): set<OrderId> {
    set o | o in orders && orders[o].sync == SyncCompleted && Falls(orders[o].date, p)
  }

  function Credited(credits: seq<(BusinessNo, Amounts)>): Amounts {
    if credits == [] then Amounts(0, 0, 0)
    else
      var before := Credited(credits[..|credits| - 1]);
      var last := credits[|credits| - 1].1;
      Amounts(before.total + last.total, before.day + last.day, before.month + last.month)
  }

  // ---------------------------------------------------------------- invariants

  /** Count minus surplus is the number of settled orders, three times over; nothing is overdrawn;
      the counts are the sum of the credited recharges. */
  ghost predicate AccountBalances(account: Option<Account>, settled: set<OrderId>,
                                  credits: seq<(BusinessNo, Amounts)>) {
    if account.None? then
      settled == {} && credits == []
    else
      var a := account.value;
      && Spent(a.total) == Spent(a.day) == Spent(a.month) == |settled|
      && 0 <= a.total.surplus && 0 <= a.day.surplus && 0 <= a.month.surplus
      && Amounts(a.total.count, a.day.count, a.month.count) == Credited(credits)
  }

  /** A row's count minus surplus is what the account had spent when the row was created
      plus the settled orders of the row's own period. */
  ghost predicate RowBalances(row: Quota, base: int, settled: set<OrderId>) {
    0 <= row.surplus && Spent(row) == base + |settled|
  }

  /** Every row balances over its own period, and a period without a row has no settled orders. */
  ghost predicate RowsBalance<K(!new)>(rows: map<K, Quota>, base: map<K, int>, orders: map<OrderId, OrderRow>,
                                           of: K -> Period) {
    && base.Keys == rows.Keys
    && (forall k :: k in rows ==> RowBalances(rows[k], base[k], Completed(orders, of(k))))
    && (forall k :: k !in rows ==> Completed(orders, of(k)) == {})
  }

  function DayOf(d: Date): Period { OnDay(d) }

  function MonthOf(m: nat): Period { InMonth(m) }

  /** Every business number was credited once, with the amounts on its recharge order. */
  ghost predicate CreditsOnce(credits: seq<(BusinessNo, Amounts)>, recharges: map<BusinessNo, Amounts>) {
    && (forall i :: 0 <= i < |credits| ==> credits[i].0 in recharges && recharges[credits[i].0] == credits[i].1)
    && (forall i, j :: 0 <= i < j < |credits| ==> credits[i].0 != credits[j].0)
    && (forall n :: n in recharges ==> exists i :: 0 <= i < |credits| && credits[i].0 == n)
  }

  /** Order rows and settlement tasks are in bijection. */
  ghost predicate SaveTasksMatch(orders: set<OrderId>, tasks: map<MessageId, Task>, saveTask: map<OrderId, MessageId>) {
    && saveTask.Keys == orders
    && (forall o :: o in saveTask ==> saveTask[o] in tasks && tasks[saveTask[o]].payload == SaveOrder(o))
    && (forall m :: m in tasks && tasks[m].payload.SaveOrder? ==>
          tasks[m].payload.order in saveTask && saveTask[tasks[m].payload.order] == m)
  }

  /** Award records and send tasks are in bijection, and each task carries its record's award. */
  ghost predicate SendTasksMatch(records: map<OrderId, int>, tasks: map<MessageId, Task>,
                                 sendTask: map<OrderId, MessageId>, sentFor: map<MessageId, OrderId>) {
    && sendTask.Keys == records.Keys
    && (forall o :: o in sendTask ==> sendTask[o] in tasks && tasks[sendTask[o]].payload == SendAward(records[o]))
    && (forall o :: o in sendTask ==> sendTask[o] in sentFor && sentFor[sendTask[o]] == o)
    && (forall m :: m in tasks && tasks[m].payload.SendAward? ==>
          m in sentFor && sentFor[m] in sendTask && sendTask[sentFor[m]] == m)
  }

  ghost predicate UsedHasRecord(orders: map<OrderId, OrderRow>, records: map<OrderId, int>) {
    forall o :: o in orders && orders[o].state == OrderUsed ==> o in records
  }

  ghost predicate QuotaInv(s: State) {
    && AccountBalances(s.db.account, Completed(s.db.orders, Ever), s.credits)
    && RowsBalance(s.db.dayRows, s.dayBase, s.db.orders, DayOf)
    && RowsBalance(s.db.monthRows, s.monthBase, s.db.orders, MonthOf)
    && CreditsOnce(s.credits, s.db.recharges)
  }

  ghost predicate OutboxInv(s: State) {
    && SaveTasksMatch(s.db.orders.Keys, s.db.tasks, s.saveTask)
    && SendTasksMatch(s.db.records, s.db.tasks, s.sendTask, s.sentFor)
    && UsedHasRecord(s.db.orders, s.db.records)
  }

  ghost predicate Inv(s: State) {
    QuotaInv(s) && OutboxInv(s)
  }

  // ---------------------------------------------------------------- counting

  /** Writing a row that is neither newly completed nor newly dated leaves every count alone. */
  lemma SameCompleted(orders: map<OrderId, OrderRow>, o: OrderId, row: OrderRow)
    requires if o in orders then row.sync == orders[o].sync && row.date == orders[o].date else row.sync == SyncCreate
    ensures forall p :: Completed(orders[o := row], p) == Completed(orders, p)
  {
  }

  /** Completing one order adds one to the counts of its own periods and to no others. */
  lemma OneMoreCompleted(a: map<OrderId, OrderRow>, o: OrderId, p: Period)
    requires o in a && a[o].sync == SyncCreate
    ensures Completed(a[o := a[o].(sync := SyncCompleted)], p)
       == Completed(a, p) + if Falls(a[o].date, p) then {o} else {}
    ensures o !in Completed(a, p)
  {
  }

  // ---------------------------------------------------------------- preservation, table by table

  /** What the row of one key looks like once an order of period `key` is charged. */
  lemma ChargeBalancesRow<K>(rows: map<K, Quota>, base: map<K, int>, key: K, acc: Quota, k: K,
                             before: set<OrderId>, after: set<OrderId>, o: OrderId)
    requires base.Keys == rows.Keys && Charge(rows, key, acc).Some? && 0 < acc.surplus
    requires if k in rows then RowBalances(rows[k], base[k], before) else before == {}
    requires o !in before && after == before + if k == key then {o} else {}
    ensures var (rows', base') := (Charge(rows, key, acc).value, Based(base, key, Spent(acc)));
            if k in rows' then k in base' && RowBalances(rows'[k], base'[k], after) else after == {}
  {
  }

  /** Charging the row of `key`, whose period is the one of its kind that the order falls into. */
  lemma SettleKeepsRows<K(!new)>(rows: map<K, Quota>, base: map<K, int>, orders: map<OrderId, OrderRow>, o: OrderId,
                                 key: K, acc: Quota, of: K -> Period)
    requires RowsBalance(rows, base, orders, of)
    requires o in orders && orders[o].sync == SyncCreate && 0 < acc.surplus && Charge(rows, key, acc).Some?
    requires forall k :: Falls(orders[o].date, of(k)) <==> k == key
    ensures RowsBalance(Charge(rows, key, acc).value, Based(base, key, Spent(acc)),
                        orders[o := orders[o].(sync := SyncCompleted)], of)
  {
    var orders' := orders[o := orders[o].(sync := SyncCompleted)];
    var rows', base' := Charge(rows, key, acc).value, Based(base, key, Spent(acc));
    forall k
      ensures if k in rows' then k in base' && RowBalances(rows'[k], base'[k], Completed(orders', of(k)))
              else Completed(orders', of(k)) == {}
    {
      OneMoreCompleted(orders, o, of(k));
      ChargeBalancesRow(rows, base, key, acc, k, Completed(orders, of(k)), Completed(orders', of(k)), o);
    }
  }

  lemma CreditKeepsRows<K(!new)>(rows: map<K, Quota>, base: map<K, int>, orders: map<OrderId, OrderRow>, key: K, n: nat,
                                 of: K -> Period)
    requires RowsBalance(rows, base, orders, of)
    ensures RowsBalance(Credit(rows, key, n), if n == 0 then base else Based(base, key, 0), orders, of)
  {
  }

  lemma EnsureKeepsRows<K(!new)>(rows: map<K, Quota>, base: map<K, int>, orders: map<OrderId, OrderRow>, key: K,
                                 acc: Quota, of: K -> Period)
    requires RowsBalance(rows, base, orders, of) && 0 <= acc.surplus
    ensures RowsBalance(Ensure(rows, key, acc), Based(base, key, Spent(acc)), orders, of)
  {
  }

  lemma CreditKeepsOnce(credits: seq<(BusinessNo, Amounts)>, recharges: map<BusinessNo, Amounts>, number: BusinessNo,
                        a: Amounts)
    requires CreditsOnce(credits, recharges) && number !in recharges
    ensures CreditsOnce(credits + [(number, a)], recharges[number := a])
  {
    var credits' := credits + [(number, a)];
    assert credits'[|credits|].0 == number;
    forall k | k in recharges ensures exists i :: 0 <= i < |credits'| && credits'[i].0 == k {
      var i :| 0 <= i < |credits| && credits[i].0 == k;
      assert credits'[i].0 == k;
    }
  }

  lemma CreditBalancesAccount(account: Option<Account>, settled: set<OrderId>, credits: seq<(BusinessNo, Amounts)>,
                              number: BusinessNo, a: Amounts)
    requires AccountBalances(account, settled, credits)
    ensures AccountBalances(Some(Raise(account, a)), settled, credits + [(number, a)])
  {
    assert (credits + [(number, a)])[..|credits|] == credits;
  }

  lemma SettleBalancesAccount(acc: Account, orders: map<OrderId, OrderRow>, o: OrderId,
                              credits: seq<(BusinessNo, Amounts)>)
    requires AccountBalances(Some(acc), Completed(orders, Ever), credits)
    requires o in orders && orders[o].sync == SyncCreate
    requires 0 < acc.total.surplus && 0 < acc.day.surplus && 0 < acc.month.surplus
    ensures AccountBalances(Some(Account(Spend(acc.total), Spend(acc.day), Spend(acc.month))),
                            Completed(orders[o := orders[o].(sync := SyncCompleted)], Ever), credits)
  {
    OneMoreCompleted(orders, o, Ever);
  }

  /** A changed row leaves the key set alone, and an order only becomes used with its record. */
  lemma ChangedRowKeepsUsed(orders: map<OrderId, OrderRow>, records: map<OrderId, int>, o: OrderId, row: OrderRow)
    requires UsedHasRecord(orders, records) && o in orders
    requires row.state == orders[o].state || o in records
    ensures UsedHasRecord(orders[o := row], records)
    ensures orders[o := row].Keys == orders.Keys
  {
  }

  lemma OneMoreSaveTask(orders: set<OrderId>, tasks: map<MessageId, Task>, saveTask: map<OrderId, MessageId>,
                        o: OrderId, msg: MessageId)
    requires SaveTasksMatch(orders, tasks, saveTask) && o !in orders && msg !in tasks
    ensures SaveTasksMatch(orders + {o}, tasks[msg := Task(SaveOrder(o), TaskCreate)], saveTask[o := msg])
  {
  }

  lemma SaveTaskIsNoSendTask(records: map<OrderId, int>, tasks: map<MessageId, Task>,
                             sendTask: map<OrderId, MessageId>, sentFor: map<MessageId, OrderId>, o: OrderId, msg: MessageId)
    requires SendTasksMatch(records, tasks, sendTask, sentFor) && msg !in tasks
    ensures SendTasksMatch(records, tasks[msg := Task(SaveOrder(o), TaskCreate)], sendTask, sentFor)
  {
  }

  lemma OneMoreSendTask(records: map<OrderId, int>, tasks: map<MessageId, Task>,
                        sendTask: map<OrderId, MessageId>, sentFor: map<MessageId, OrderId>, o: OrderId, award: int, msg: MessageId)
    requires SendTasksMatch(records, tasks, sendTask, sentFor) && o !in records && msg !in tasks
    ensures SendTasksMatch(records[o := award], tasks[msg := Task(SendAward(award), TaskCreate)], sendTask[o := msg], sentFor[msg := o])
  {
  }

  lemma SendTaskIsNoSaveTask(orders: set<OrderId>, tasks: map<MessageId, Task>, saveTask: map<OrderId, MessageId>,
                             award: int, msg: MessageId)
    requires SaveTasksMatch(orders, tasks, saveTask) && msg !in tasks
    ensures SaveTasksMatch(orders, tasks[msg := Task(SendAward(award), TaskCreate)], saveTask)
  {
  }

  lemma UncountedOrderKeepsRows<K(!new)>(rows: map<K, Quota>, base: map<K, int>, orders: map<OrderId, OrderRow>,
                                         o: OrderId, row: OrderRow, of: K -> Period)
    requires RowsBalance(rows, base, orders, of)
    requires forall p :: Completed(orders[o := row], p) == Completed(orders, p)
    ensures RowsBalance(rows, base, orders[o := row], of)
  {
  }

  // ---------------------------------------------------------------- preservation, transaction by transaction

  lemma SettleKeepsQuota(s: State, oid: OrderId)
    requires QuotaInv(s) && SettleOne(s.db, oid, true).1 == Ok(true)
    ensures QuotaInv(Step(s, SettleOrder(oid, true)))
  {
    var acc := s.db.account.value;
    SettleBalancesAccount(acc, s.db.orders, oid, s.credits);
    SettleKeepsRows(s.db.dayRows, s.dayBase, s.db.orders, oid, s.db.orders[oid].date, acc.day, DayOf);
    SettleKeepsRows(s.db.monthRows, s.monthBase, s.db.orders, oid, s.db.orders[oid].date.month, acc.month, MonthOf);
  }

  lemma SettleLeavesOutbox(s: State, oid: OrderId)
    requires SettleOne(s.db, oid, true).1 == Ok(true)
    ensures var s' := Step(s, SettleOrder(oid, true));
            && s'.db.tasks == s.db.tasks && s'.db.records == s.db.records
            && s'.saveTask == s.saveTask && s'.sendTask == s.sendTask && s'.sentFor == s.sentFor
            && s'.db.orders == s.db.orders[oid := s.db.orders[oid].(sync := SyncCompleted)]
            && s'.db.orders.Keys == s.db.orders.Keys
  {
  }

  lemma SettleKeepsOutbox(s: State, oid: OrderId)
    requires OutboxInv(s) && SettleOne(s.db, oid, true).1 == Ok(true)
    ensures OutboxInv(Step(s, SettleOrder(oid, true)))
  {
    SettleLeavesOutbox(s, oid);
    ChangedRowKeepsUsed(s.db.orders, s.db.records, oid, s.db.orders[oid].(sync := SyncCompleted));
  }

  lemma OtherwiseSettleChangesNothing(s: State, oid: OrderId, commits: bool)
    requires SettleOne(s.db, oid, commits).1 != Ok(true)
    ensures Step(s, SettleOrder(oid, commits)) == s
  {
  }

  lemma SettleKeepsInv(s: State, oid: OrderId, commits: bool)
    requires Inv(s)
    ensures Inv(Step(s, SettleOrder(oid, commits)))
  {
    if commits && SettleOne(s.db, oid, true).1 == Ok(true) {
      SettleKeepsQuota(s, oid);
      SettleKeepsOutbox(s, oid);
    } else {
      OtherwiseSettleChangesNothing(s, oid, commits);
    }
  }

  lemma RechargeKeepsInv(s: State, number: BusinessNo, date: Date, a: Amounts, commits: bool)
    requires Inv(s)
    ensures Inv(Step(s, RechargeAccount(number, date, a, commits)))
  {
    if Recharge(s.db, number, date, a, commits).1 == Ok(true) {
      CreditBalancesAccount(s.db.account, Completed(s.db.orders, Ever), s.credits, number, a);
      CreditKeepsRows(s.db.dayRows, s.dayBase, s.db.orders, date, a.day, DayOf);
      CreditKeepsRows(s.db.monthRows, s.monthBase, s.db.orders, date.month, a.month, MonthOf);
      CreditKeepsOnce(s.credits, s.db.recharges, number, a);
    }
  }

  lemma LoadMoves(s: State, today: Date, monthCreated: bool, dayCreated: bool)
    requires s.db.account.Some?
    ensures var s' := Step(s, LoadEntity(today, monthCreated, dayCreated));
            var acc := s.db.account.value;
            && s' == s.(db := s'.db, dayBase := s'.dayBase, monthBase := s'.monthBase)
            && s'.db == s.db.(dayRows := s'.db.dayRows, monthRows := s'.db.monthRows)
            && (s'.db.dayRows, s'.dayBase)
               == (if today in s'.db.dayRows then (Ensure(s.db.dayRows, today, acc.day), Based(s.dayBase, today, Spent(acc.day)))
                   else (s.db.dayRows, s.dayBase))
            && (s'.db.monthRows, s'.monthBase)
               == (if today.month in s'.db.monthRows then
                     (Ensure(s.db.monthRows, today.month, acc.month), Based(s.monthBase, today.month, Spent(acc.month)))
                   else (s.db.monthRows, s.monthBase))
  {
  }

  lemma LoadKeepsQuota(s: State, today: Date, monthCreated: bool, dayCreated: bool)
    requires QuotaInv(s) && s.db.account.Some?
    ensures QuotaInv(Step(s, LoadEntity(today, monthCreated, dayCreated)))
  {
    LoadMoves(s, today, monthCreated, dayCreated);
    EnsureKeepsRows(s.db.dayRows, s.dayBase, s.db.orders, today, s.db.account.value.day, DayOf);
    EnsureKeepsRows(s.db.monthRows, s.monthBase, s.db.orders, today.month, s.db.account.value.month, MonthOf);
  }

  lemma LoadKeepsInv(s: State, today: Date, monthCreated: bool, dayCreated: bool)
    requires Inv(s)
    ensures Inv(Step(s, LoadEntity(today, monthCreated, dayCreated)))
  {
    if s.db.account.Some? {
      LoadMoves(s, today, monthCreated, dayCreated);
      LoadKeepsQuota(s, today, monthCreated, dayCreated);
    }
  }

  lemma CommitKeepsInv(s: State, o: RaffleOrder, msg: MessageId, commits: bool)
    requires Inv(s)
    ensures Inv(Step(s, CommitOrder(o, msg, commits)))
  {
    if SaveLite(s.db, o, msg, commits).1 == Ok(true) {
      var row := OrderRow(o.date, o.strategy, OrderCreate, SyncCreate);
      SameCompleted(s.db.orders, o.id, row);
      UncountedOrderKeepsRows(s.db.dayRows, s.dayBase, s.db.orders, o.id, row, DayOf);
      UncountedOrderKeepsRows(s.db.monthRows, s.monthBase, s.db.orders, o.id, row, MonthOf);
      OneMoreSaveTask(s.db.orders.Keys, s.db.tasks, s.saveTask, o.id, msg);
      SaveTaskIsNoSendTask(s.db.records, s.db.tasks, s.sendTask, s.sentFor, o.id, msg);
      assert s.db.orders[o.id := row].Keys == s.db.orders.Keys + {o.id};
    }
  }

  lemma AwardKeepsInv(s: State, oid: OrderId, award: int, msg: MessageId, commits: bool)
    requires Inv(s)
    ensures Inv(Step(s, CommitAward(oid, award, msg, commits)))
  {
    if SaveAward(s.db, oid, award, msg, commits).1 == Ok(true) {
      OneMoreSendTask(s.db.records, s.db.tasks, s.sendTask, s.sentFor, oid, award, msg);
      SendTaskIsNoSaveTask(s.db.orders.Keys, s.db.tasks, s.saveTask, award, msg);
      if oid in s.db.orders {
        var row := s.db.orders[oid].(state := OrderUsed);
        SameCompleted(s.db.orders, oid, row);
        UncountedOrderKeepsRows(s.db.dayRows, s.dayBase, s.db.orders, oid, row, DayOf);
        UncountedOrderKeepsRows(s.db.monthRows, s.monthBase, s.db.orders, oid, row, MonthOf);
        ChangedRowKeepsUsed(s.db.orders, s.db.records[oid := award], oid, row);
      }
    }
  }

  lemma StepKeepsInv(s: State, e: Event)
    requires Inv(s)
    ensures Inv(Step(s, e))
  {
    match e
    case CommitOrder(o, msg, commits) => CommitKeepsInv(s, o, msg, commits);
    case CommitAward(oid, award, msg, commits) => AwardKeepsInv(s, oid, award, msg, commits);
    case SettleOrder(oid, commits) => SettleKeepsInv(s, oid, commits);
    case RechargeAccount(number, date, a, commits) => RechargeKeepsInv(s, number, date, a, commits);
    case LoadEntity(today, monthCreated, dayCreated) => LoadKeepsInv(s, today, monthCreated, dayCreated);
  }

  /** Main result: whatever transactions run, in whatever order, committed or rolled back. */
  lemma {:induction false} RunKeepsInv(s: State, es: seq<Event>)
    requires Inv(s)
    ensures Inv(Run(s, es))
    decreases |es|
  {
    if es != [] {
      StepKeepsInv(s, es[0]);
      RunKeepsInv(Step(s, es[0]), es[1..]);
    }
  }

  // ---------------------------------------------------------------- what a caller reads

  /** QueryRaffleActivityAccountPartakeCount. */
  function PartakeCount(db: Db): int {
    if db.account.None? then 0 else db.account.value.total.count - db.account.value.total.surplus
  }

  /** QueryRaffleActivityAccountDayPartakeCount for `today`. */
  function DayPartakeCount(db: Db, today: Date): int {
    if today !in db.dayRows then 0 else db.dayRows[today].count - db.dayRows[today].surplus
  }

  /** The reported partake count is the number of settled orders, after any run. */
  lemma PartakeCountIsSettledOrders(es: seq<Event>)
    ensures PartakeCount(Run(INIT, es).db) == |Completed(Run(INIT, es).db.orders, Ever)|
  {
    RunKeepsInv(INIT, es);
  }

  /** The reported day count is the number of that day's settled orders if and only if nothing
      had been spent when the day's row was created, or the row is missing. */
  lemma DayPartakeCountExact(es: seq<Event>, today: Date)
    ensures var s := Run(INIT, es);
            DayPartakeCount(s.db, today) == |Completed(s.db.orders, OnDay(today))|
            <==> (today in s.dayBase ==> s.dayBase[today] == 0)
  {
    RunKeepsInv(INIT, es);
    var s := Run(INIT, es);
  }

  lemma RunTwo(s: State, e1: Event, e2: Event)
    ensures Run(s, [e1, e2]) == Step(Step(s, e1), e2)
  {
    assert [e1, e2][1..] == [e2];
    assert Run(Step(s, e1), [e2]) == Step(Step(s, e1), e2);
  }

  lemma {:induction false} RunAppend(s: State, a: seq<Event>, b: seq<Event>)
    ensures Run(s, a + b) == Run(Run(s, a), b)
    decreases |a|
  {
    if a == [] {
      assert a + b == b;
    } else {
      assert (a + b)[1..] == a[1..] + b;
      RunAppend(Step(s, a[0]), a[1..], b);
    }
  }

  const FIRST := Date(1, 1)
  const SECOND := Date(1, 2)

  /** It does go wrong: one order settled on the first day, the account loaded on the second,
      and the second day reports one draw before any was made. */
  lemma DayPartakeCountCarriesOver()
    ensures var s := Run(INIT, [RechargeAccount(9, FIRST, Amounts(5, 5, 5), true), CommitOrder(RaffleOrder(7, 1, FIRST), 0, true)]
                               + [SettleOrder(7, true), LoadEntity(SECOND, true, true)]);
            DayPartakeCount(s.db, SECOND) == 1 && Completed(s.db.orders, OnDay(SECOND)) == {}
  {
    var e1, e2 := RechargeAccount(9, FIRST, Amounts(5, 5, 5), true), CommitOrder(RaffleOrder(7, 1, FIRST), 0, true);
    var e3, e4 := SettleOrder(7, true), LoadEntity(SECOND, true, true);
    RunAppend(INIT, [e1, e2], [e3, e4]);
    RunTwo(INIT, e1, e2);
    RunTwo(Step(Step(INIT, e1), e2), e3, e4);
    OneSettledOrder();
  }

  lemma OneSettledOrder()
    ensures var s := Step(Step(INIT, RechargeAccount(9, FIRST, Amounts(5, 5, 5), true)), CommitOrder(RaffleOrder(7, 1, FIRST), 0, true));
            var s' := Step(Step(s, SettleOrder(7, true)), LoadEntity(SECOND, true, true));
            DayPartakeCount(s'.db, SECOND) == 1 && s'.db.orders == map[7 := OrderRow(FIRST, 1, OrderCreate, SyncCompleted)]
  {
    var s := Step(Step(INIT, RechargeAccount(9, FIRST, Amounts(5, 5, 5), true)), CommitOrder(RaffleOrder(7, 1, FIRST), 0, true));
    assert s.db.account == Some(Account(Quota(5, 5), Quota(5, 5), Quota(5, 5)));
    assert s.db.dayRows == map[FIRST := Quota(5, 5)];
    var settled := Step(s, SettleOrder(7, true));
    assert settled.db.account == Some(Account(Quota(5, 4), Quota(5, 4), Quota(5, 4)));
  }

  /** A duplicate delivery of a settlement or a recharge is a no-op on the whole state. */
  lemma RedeliveryChangesNothing(s: State, e: Event)
    requires (e.SettleOrder? && SettleOne(s.db, e.oid, true).1.Ok?) || e.RechargeAccount?
    requires e.commits
    ensures Step(Step(s, e), e) == Step(s, e)
  {
    if e.SettleOrder? { SettleIsIdempotent(s.db, e.oid); }
  }
}
