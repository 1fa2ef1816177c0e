/** What a user gets out of the protocol: draws that do not overlap, draws that do, and the
    schedules outside the protocol's assumptions that break its books. */
module PartakeDraws {
  import opened Collections
  import opened Wrappers
  import opened QuotaStore
  import opened PartakeProtocol
  import opened PartakeSafety
  import Ledger

  /** Requests of this user that are somewhere between the script and the pending delete. */
  function InFlight(s: State): nat {
    |s.creating| + |s.failing| + |s.holding| + s.dropping
  }

  /** A draw starts only when no other draw is under way. */
  predicate Alone(s: State, e: Event) {
    e.Start? ==> InFlight(s) == 0
  }

  predicate SequentialRun(s: State, es: seq<Event>): (ok: bool)
    ensures ok ==> ValidRun(s, es)
    decreases |es|
  {
    es == [] || (Enabled(s, es[0]) && Alone(s, es[0]) && SequentialRun(Step(s, es[0]), es[1..]))
  }

  /** A sequential run goes on by any step that is enabled and starts no second draw. */
  lemma {:induction false} SequentialSnoc(s: State, es: seq<Event>, e: Event)
    requires SequentialRun(s, es) && Enabled(Run(s, es), e) && Alone(Run(s, es), e)
    ensures SequentialRun(s, es + [e]) && Run(s, es + [e]) == Step(Run(s, es), e)
    decreases |es|
  {
    if es == [] {
      assert [e][1..] == [];
      assert es + [e] == [e];
      assert SequentialRun(Step(s, e), []);
    } else {
      assert (es + [e])[1..] == es[1..] + [e];
      SequentialSnoc(Step(s, es[0]), es[1..], e);
    }
  }

  lemma {:induction false} SequentialJoin(s: State, a: seq<Event>, b: seq<Event>)
    requires SequentialRun(s, a) && SequentialRun(Run(s, a), b)
    ensures SequentialRun(s, a + b) && Run(s, a + b) == Run(Run(s, a), b)
    decreases |a|
  {
    if a == [] {
      assert a + b == b;
    } else {
      assert (a + b)[1..] == a[1..] + b;
      SequentialJoin(Step(s, a[0]), a[1..], b);
    }
  }

  lemma FourSteps(s: State, e1: Event, e2: Event, e3: Event, e4: Event)
    requires Enabled(s, e1) && Alone(s, e1)
    requires var s1 := Step(s, e1); Enabled(s1, e2) && Alone(s1, e2)
    requires var s2 := Step(Step(s, e1), e2); Enabled(s2, e3) && Alone(s2, e3)
    requires var s3 := Step(Step(Step(s, e1), e2), e3); Enabled(s3, e4) && Alone(s3, e4)
    ensures SequentialRun(s, [e1, e2, e3, e4]) && Run(s, [e1, e2, e3, e4]) == Step(Step(Step(Step(s, e1), e2), e3), e4)
  {
    SequentialSnoc(s, [], e1);
    SequentialSnoc(s, [] + [e1], e2);
    SequentialSnoc(s, [] + [e1] + [e2], e3);
    SequentialSnoc(s, [] + [e1] + [e2] + [e3], e4);
    assert [] + [e1] + [e2] + [e3] + [e4] == [e1, e2, e3, e4];
  }

  // ---------------------------------------------------------------- draws one after another

  /** No refunded order is held or awarded, no order still being made is awarded, and an order
      row with an award record says "used". */
  ghost predicate DrawInv(s: State) {
    InFlight(s) <= 1 && Clean(s) && Unawarded(s) && AwardedIsUsed(s.ledger.db.orders, s.ledger.db.records)
  }

  ghost predicate Unawarded(s: State) {
    s.creating.Keys + s.failing.Keys !! s.ledger.db.records.Keys
  }

  ghost predicate AwardedIsUsed(orders: map<OrderId, OrderRow>, records: map<OrderId, int>) {
    forall o :: o in orders && o in records ==> orders[o].state == OrderUsed
  }

  ghost predicate Clean(s: State) {
    NoneRefunded(s.everRefunded, s.ledger.db.records.Keys, s.holding)
  }

  ghost predicate NoneRefunded(refunded: set<OrderId>, awarded: set<OrderId>, holding: multiset<OrderId>) {
    refunded !! awarded && forall o :: o in refunded ==> o !in holding
  }

  lemma CommitKeepsInFlight(s: State, oid: OrderId, msg: MessageId, commits: bool)
    requires oid in s.creating
    ensures InFlight(CommitStep(s, oid, msg, commits)) <= InFlight(s)
  {
    OneFewer(s.creating, oid);
    if oid !in s.failing { OneMore(s.failing, oid, s.creating[oid]); } else { SameKeys(s.failing, oid, s.creating[oid]); }
  }

  lemma StartKeepsInFlight(s: State, o: RaffleOrder)
    requires InFlight(s) == 0
    ensures InFlight(StartStep(s, o)) <= 1
  {
    OneMore(s.creating, o.id, o);
  }

  lemma AwardKeepsInFlight(s: State, oid: OrderId, award: int, msg: MessageId, commits: bool)
    requires oid in s.holding
    ensures InFlight(AwardStep(s, oid, award, msg, commits)) <= InFlight(s)
  {
    assert |s.holding - multiset{oid}| == |s.holding| - 1;
  }

  lemma EndKeepsInFlight(s: State, e: Event)
    requires Enabled(s, e) && !e.Start? && !e.Commit?
    ensures InFlight(Step(s, e)) <= InFlight(s)
  {
    match e
    case Refund(oid) => OneFewer(s.failing, oid);
    case LoseCreating(oid) => OneFewer(s.creating, oid);
    case LoseFailing(oid) => OneFewer(s.failing, oid);
    case Award(oid, award, msg, commits) => AwardKeepsInFlight(s, oid, award, msg, commits);
    case _ =>
  }

  lemma OnlyOne(s: State, oid: OrderId)
    requires InFlight(s) <= 1
    ensures oid in s.failing ==> s.holding == multiset{}
    ensures oid in s.holding ==> s.creating == map[] && s.failing == map[]
  {
  }

  /** The one step that can spoil cleanness is a refund that takes effect while somebody else
      holds the order or has already been awarded it; every other step keeps it. */
  lemma CleanStep(s: State, e: Event)
    requires OrdersInv(s) && Clean(s) && Enabled(s, e)
    ensures Clean(Step(s, e)) <==> !(e.Refund? && Compensate(s.redis, s.failing[e.oid]).1
                                     && (e.oid in s.holding || e.oid in s.ledger.db.records))
  {
    match e
    case Start(o) => StartKeepsClean(s, o);
    case Commit(oid, msg, commits) => CommitKeepsClean(s, oid, msg, commits);
    case Refund(oid) => RefundKeepsCleanIff(s, oid);
    case Award(oid, award, msg, commits) => AwardKeepsClean(s, oid, award, msg, commits);
    case _ => BystanderKeepsClean(s, e);
  }

  lemma StartKeepsClean(s: State, o: RaffleOrder)
    requires OrdersInv(s) && Clean(s)
    ensures Clean(StartStep(s, o))
  {
  }

  lemma CommitKeepsClean(s: State, oid: OrderId, msg: MessageId, commits: bool)
    requires OrdersInv(s) && Clean(s) && oid in s.creating
    ensures Clean(CommitStep(s, oid, msg, commits))
  {
    assert oid in s.creating.Keys + s.failing.Keys && oid !in s.everRefunded;
    RecordsGrowByAward(s.ledger, Ledger.CommitOrder(s.creating[oid], msg, commits));
  }

  lemma RefundKeepsCleanIff(s: State, oid: OrderId)
    requires Clean(s) && oid in s.failing
    ensures Clean(RefundStep(s, oid)) <==>
          !(Compensate(s.redis, s.failing[oid]).1 && (oid in s.holding || oid in s.ledger.db.records))
  {
    assert oid in RefundStep(s, oid).everRefunded || !Compensate(s.redis, s.failing[oid]).1;
  }

  lemma AwardKeepsClean(s: State, oid: OrderId, award: int, msg: MessageId, commits: bool)
    requires Clean(s) && oid in s.holding
    ensures Clean(AwardStep(s, oid, award, msg, commits))
  {
  }

  lemma BystanderKeepsClean(s: State, e: Event)
    requires Clean(s) && Enabled(s, e) && !e.Start? && !e.Commit? && !e.Refund? && !e.Award?
    ensures Clean(Step(s, e))
  {
    LedgerMoves(s, e);
    if Transaction(s, e).Some? { RecordsGrowByAward(s.ledger, Transaction(s, e).value); }
    assert Step(s, e).everRefunded == s.everRefunded && Step(s, e).holding <= s.holding;
  }

  lemma RecordsGrowByAward(l: Ledger.State, t: Ledger.Event)
    ensures Ledger.Step(l, t).db.records.Keys <= l.db.records.Keys + if t.CommitAward? then {t.oid} else {}
  {
    if t.SettleOrder? { SettleTouches(l.db, t.oid, t.commits); }
  }

  lemma MakingShrinks(s: State, e: Event)
    requires Enabled(s, e) && !e.Start?
    ensures Step(s, e).creating.Keys + Step(s, e).failing.Keys <= s.creating.Keys + s.failing.Keys
  {
  }

  lemma StartKeepsUnawarded(s: State, o: RaffleOrder)
    requires OrdersInv(s) && Unawarded(s) && Enabled(s, Start(o))
    ensures Unawarded(Step(s, Start(o)))
  {
  }

  lemma StepKeepsUnawarded(s: State, e: Event)
    requires OrdersInv(s) && Unawarded(s) && InFlight(s) <= 1 && Enabled(s, e)
    ensures Unawarded(Step(s, e))
  {
    if e.Start? {
      StartKeepsUnawarded(s, e.order);
    } else {
      MakingShrinks(s, e);
      LedgerMoves(s, e);
      if Transaction(s, e).Some? { RecordsGrowByAward(s.ledger, Transaction(s, e).value); }
      if e.Award? { OnlyOne(s, e.oid); }
    }
  }

  lemma StepKeepsAwardedUsed(s: State, e: Event)
    requires Unawarded(s) && AwardedIsUsed(s.ledger.db.orders, s.ledger.db.records) && Enabled(s, e)
    requires OrdersInv(s)
    ensures AwardedIsUsed(Step(s, e).ledger.db.orders, Step(s, e).ledger.db.records)
  {
    LedgerMoves(s, e);
    if Transaction(s, e).Some? { TransactionKeepsAwardedUsed(s.ledger, Transaction(s, e).value); }
  }

  lemma TransactionKeepsAwardedUsed(l: Ledger.State, t: Ledger.Event)
    requires AwardedIsUsed(l.db.orders, l.db.records)
    requires t.CommitOrder? ==> t.order.id !in l.db.records
    ensures AwardedIsUsed(Ledger.Step(l, t).db.orders, Ledger.Step(l, t).db.records)
  {
    match t
    case CommitOrder(o, msg, commits) => SaveLiteKeepsAwardedUsed(l.db, o, msg, commits);
    case CommitAward(oid, award, msg, commits) => SaveAwardKeepsAwardedUsed(l.db, oid, award, msg, commits);
    case SettleOrder(oid, commits) => SettleTouches(l.db, oid, commits);
    case RechargeAccount(number, date, a, commits) => RechargeTouches(l.db, number, date, a, commits);
    case LoadEntity(today, monthCreated, dayCreated) => QueryTouches(l.db, today, monthCreated, dayCreated);
  }

  lemma RechargeTouches(db: Db, number: BusinessNo, date: Date, a: Amounts, commits: bool)
    ensures var db' := QuotaStore.Recharge(db, number, date, a, commits).0;
            db'.orders == db.orders && db'.records == db.records
  {
  }

  lemma QueryTouches(db: Db, today: Date, monthCreated: bool, dayCreated: bool)
    ensures var db' := QueryEntityUpTo(db, today, monthCreated, dayCreated).0;
            db'.orders == db.orders && db'.records == db.records
  {
  }

  lemma SaveLiteKeepsAwardedUsed(db: Db, o: RaffleOrder, msg: MessageId, commits: bool)
    requires AwardedIsUsed(db.orders, db.records) && o.id !in db.records
    ensures var db' := SaveLite(db, o, msg, commits).0; AwardedIsUsed(db'.orders, db'.records)
  {
  }

  lemma SaveAwardKeepsAwardedUsed(db: Db, oid: OrderId, award: int, msg: MessageId, commits: bool)
    requires AwardedIsUsed(db.orders, db.records)
    ensures var db' := SaveAward(db, oid, award, msg, commits).0; AwardedIsUsed(db'.orders, db'.records)
  {
  }

  lemma StepKeepsInFlight(s: State, e: Event)
    requires InFlight(s) <= 1 && Enabled(s, e) && Alone(s, e)
    ensures InFlight(Step(s, e)) <= 1
  {
    match e
    case Start(o) => StartKeepsInFlight(s, o);
    case Commit(oid, msg, commits) => CommitKeepsInFlight(s, oid, msg, commits);
    case _ => EndKeepsInFlight(s, e);
  }

  lemma StepKeepsDraws(s: State, e: Event)
    requires DrawInv(s) && OrdersInv(s) && Enabled(s, e) && Alone(s, e)
    ensures DrawInv(Step(s, e))
  {
    StepKeepsInFlight(s, e);
    StepKeepsUnawarded(s, e);
    StepKeepsAwardedUsed(s, e);
    assert Clean(Step(s, e)) by {
      CleanStep(s, e);
      if e.Refund? { OnlyOne(s, e.oid); }
    }
  }

  lemma {:induction false} SequentialKeepsDraws(s: State, es: seq<Event>)
    requires PartakeSafety.Inv(s) && DrawInv(s) && SequentialRun(s, es)
    ensures ValidRun(s, es) && DrawInv(Run(s, es))
    decreases |es|
  {
    if es != [] {
      PartakeSafety.StepKeepsInv(s, es[0]);
      StepKeepsDraws(s, es[0]);
      SequentialKeepsDraws(Step(s, es[0]), es[1..]);
    }
  }

  /** When draws do not overlap, no awarded order was ever refunded, an order is "used" exactly
      when it has an award record, and the awards for orders minted since the load together with
      what each counter still offers stay within what was loaded. */
  lemma SequentialDrawsStayWithinQuota(now: Date, es: seq<Event>)
    requires SequentialRun(Init(now), es)
    ensures ValidRun(Init(now), es)
    ensures var s := Run(Init(now), es);
            && s.everRefunded !! s.ledger.db.records.Keys
            && (forall o :: o in s.ledger.db.orders ==>
                  (s.ledger.db.orders[o].state == OrderUsed <==> o in s.ledger.db.records))
            && (s.books.armed.Some? ==>
                  var a := s.books.armed.value;
                  var awarded := s.ledger.db.records.Keys * s.mints.minted;
                  && s.redis.total.Some? && a in s.redis.day && a.month in s.redis.month
                  && |awarded| + s.redis.total.value <= s.mints.loaded.total.surplus
                  && |awarded| + s.redis.day[a] <= s.mints.loaded.day.surplus
                  && |awarded| + s.redis.month[a.month] <= s.mints.loaded.month.surplus)
  {
    Reachable(now, []);
    SequentialKeepsDraws(Init(now), es);
    Reachable(now, es);
    var s := Run(Init(now), es);
    AwardsAndRefundsFit(s.ledger.db.records.Keys * s.mints.minted, s.mints.refunds, s.mints.minted);
  }

  lemma AwardsAndRefundsFit(awarded: set<OrderId>, refunds: seq<OrderId>, minted: set<OrderId>)
    requires Distinct(refunds) && forall o :: o in refunds ==> o in minted && o !in awarded
    requires awarded <= minted
    ensures |awarded| + |refunds| <= |minted|
  {
    DistinctFit(refunds, minted - awarded);
    assert minted == (minted - awarded) + awarded;
  }

  // ---------------------------------------------------------------- draws that overlap

  /** With overlap a refunded order can be awarded: a second draw reuses the pending order, then
      the first draw's transaction fails and is compensated, then the second saves its award.
      This schedule is open from every state that offers a unit and has no pending order. */
  lemma OverlapAwardsRefundedOrder(s: State, first: RaffleOrder, second: RaffleOrder, msg: MessageId, award: int)
    requires Enabled(s, Start(first)) && Enabled(s, Start(second)) && first.id != second.id
    requires s.redis.pending.None? && GetOrCreate(s.redis, first, s.now).1.Minted?
    requires first.id !in s.failing && first.id !in s.ledger.db.records && msg !in s.ledger.db.tasks
    ensures var s1 := Step(s, Start(first));
            Enabled(s1, Start(second)) &&
            var s2 := Step(s1, Start(second));
            Enabled(s2, Commit(first.id, msg, false)) &&
            var s3 := Step(s2, Commit(first.id, msg, false));
            Enabled(s3, Refund(first.id)) &&
            var s4 := Step(s3, Refund(first.id));
            Enabled(s4, Award(first.id, award, msg, true)) &&
            var s5 := Step(s4, Award(first.id, award, msg, true));
            first.id in s5.everRefunded && first.id in s5.ledger.db.records
  {
    var s1 := Step(s, Start(first));
    var s2 := Step(s1, Start(second));
    assert s2.redis == s1.redis && s2.holding == s.holding + multiset{first.id};
    var s3 := Step(s2, Commit(first.id, msg, false));
    assert s3.redis == s1.redis && s3.failing[first.id] == first;
    var s4 := Step(s3, Refund(first.id));
    assert first.id in s4.everRefunded && s4.ledger.db == s.ledger.db;
  }

  // ---------------------------------------------------------------- outside the assumptions

  /** A crash between the script and the transaction: one unit gone, the pending hash left behind. */
  lemma CrashLeavesPending(s: State, first: RaffleOrder)
    requires InFlight(s) == 0 && Quiet(s) && Enabled(s, Start(first)) && GetOrCreate(s.redis, first, s.now).1.Minted?
    ensures var s1 := Step(s, Start(first));
            Enabled(s1, LoseCreating(first.id)) &&
            var s2 := Step(s1, LoseCreating(first.id));
            && Quiet(s2) && InFlight(s2) == 0 && s2.ledger == s.ledger && s2.now == s.now && s2.holding == s.holding
            && s2.redis.pending == Some(Pending(first.id, first.strategy, "0"))
            && s2.everMinted == s.everMinted + {first.id}
  {
    var s1 := Step(s, Start(first));
    assert s1.creating == map[first.id := first];
    assert Step(s1, LoseCreating(first.id)).creating == map[];
  }

  /** Loading an unchanged database on the same day offers the same total again. */
  lemma LoadRestoresTotal(s: State, s2: State)
    requires UnitsInv(s) && Quiet(s) && s.lost == 0 && s.books.raised.total == 0 && s.books.armed.Some?
    requires s2.ledger == s.ledger && s2.now == s.now
    ensures var s3 := LoadStep(s2);
            && s3.redis.total == s.redis.total && s3.redis.pending == s2.redis.pending
            && s3.ledger.db.account == s.ledger.db.account && s3.ledger.db.orders == s.ledger.db.orders
            && s3.ledger.db.tasks == s.ledger.db.tasks && s3.ledger.db.records == s.ledger.db.records
            && s3.everMinted == s2.everMinted && s3.now == s2.now
            && s3.creating == s2.creating && s3.failing == s2.failing && s3.holding == s2.holding && s3.dropping == s2.dropping
  {
  }

  lemma AwardTouchesNoQuota(db: Db, oid: OrderId, award: int, msg: MessageId)
    requires msg !in db.tasks
    ensures var db' := SaveAward(db, oid, award, msg, true).0;
            db'.account == db.account && db'.orders.Keys == db.orders.Keys && oid in db'.records
  {
    if oid in db.orders { SameKeys(db.orders, oid, db.orders[oid].(state := OrderUsed)); }
  }

  /** Reusing a pending order costs nothing, and its award is recorded whether or not it has a row. */
  lemma ReuseIsFree(s3: State, second: RaffleOrder, msg: MessageId, award: int)
    requires Enabled(s3, Start(second)) && s3.redis.pending.Some? && s3.redis.pending.value.st == "0"
    requires msg !in s3.ledger.db.tasks
    ensures var oid := s3.redis.pending.value.oid;
            var s4 := Step(s3, Start(second));
            Enabled(s4, Award(oid, award, msg, true)) &&
            var s5 := Step(s4, Award(oid, award, msg, true));
            && s5.redis.total == s3.redis.total && s5.ledger.db.account == s3.ledger.db.account
            && s5.ledger.db.orders.Keys == s3.ledger.db.orders.Keys && oid in s5.ledger.db.records
  {
    var s4 := Step(s3, Start(second));
    assert s4.ledger == s3.ledger;
    AwardTouchesNoQuota(s3.ledger.db, s3.redis.pending.value.oid, award, msg);
  }

  /** Even draw by draw, a load after a crash hands out an award for nothing: the load returns the
      crashed order's unit while the pending hash still names the order, and the next draw reuses it.
      Total counter and account end where they started, and the user has an award without an order row. */
  lemma ReloadAfterCrashGivesAwayADraw(s: State, first: RaffleOrder, second: RaffleOrder, msg: MessageId, award: int)
    requires InFlight(s) == 0 && Quiet(s) && OrdersInv(s) && UnitsInv(s)
    requires Enabled(s, Start(first)) && Enabled(s, Start(second)) && first.id != second.id
    requires GetOrCreate(s.redis, first, s.now).1.Minted?
    requires s.lost == 0 && s.books.raised.total == 0
    requires msg !in s.ledger.db.tasks
    ensures var s1 := Step(s, Start(first));
            Enabled(s1, LoseCreating(first.id)) &&
            var s2 := Step(s1, LoseCreating(first.id));
            Enabled(s2, Load) &&
            var s3 := Step(s2, Load);
            Enabled(s3, Start(second)) && Alone(s3, Start(second)) &&
            var s4 := Step(s3, Start(second));
            Enabled(s4, Award(first.id, award, msg, true)) &&
            var s5 := Step(s4, Award(first.id, award, msg, true));
            && s5.redis.total == s.redis.total && s5.ledger.db.account == s.ledger.db.account
            && first.id !in s5.ledger.db.orders && first.id in s5.ledger.db.records
  {
    MintIsToday(s, first);
    CrashLeavesPending(s, first);
    var s2 := Step(Step(s, Start(first)), LoseCreating(first.id));
    LoadRestoresTotal(s, s2);
    ReuseIsFree(Step(s2, Load), second, msg, award);
    assert first.id !in s.ledger.db.orders;
  }

  // ---------------------------------------------------------------- what the user is told

  lemma MintedAndCommitted(s: State, o: RaffleOrder, msg: MessageId)
    requires InFlight(s) == 0 && GetOrCreate(s.redis, o, s.now).1.Minted?
    requires o.id !in s.ledger.db.orders && msg !in s.ledger.db.tasks
    ensures var s1 := StartStep(s, o);
            && o.id in s1.creating
            && var s2 := CommitStep(s1, o.id, msg, true);
               && s2.holding == multiset{o.id} && s2.creating == map[] && s2.failing == map[] && s2.dropping == 0
               && s2.redis.pending == Some(Pending(o.id, o.strategy, "0")) && s2.now == s.now
               && s2.everMinted == s.everMinted + {o.id} && s2.ledger.db.records == s.ledger.db.records
               && s2.ledger.db.tasks == s.ledger.db.tasks[msg := Task(SaveOrder(o.id), TaskCreate)]
  {
    var s1 := StartStep(s, o);
    assert s1.creating == map[o.id := o] && s1.ledger == s.ledger;
  }

  lemma RecordedAndLeft(s: State, oid: OrderId, msg: MessageId, award: int)
    requires s.holding == multiset{oid} && s.creating == map[] && s.failing == map[] && s.dropping == 0
    requires oid !in s.ledger.db.records && msg !in s.ledger.db.tasks
    ensures var s1 := AwardStep(s, oid, award, msg, true);
            && s1.dropping == 1
            && var s2 := s1.(dropping := 0);
               && InFlight(s2) == 0 && s2.redis == s.redis && s2.now == s.now && s2.everMinted == s.everMinted
               && s2.ledger.db.records == s.ledger.db.records[oid := award]
  {
    assert s.holding - multiset{oid} == multiset{};
  }

  /** A whole first draw whose pending delete is lost. */
  lemma DrawLosesDelete(s: State, first: RaffleOrder, msg: MessageId, m1: MessageId, a1: int)
    requires InFlight(s) == 0 && Enabled(s, Start(first)) && GetOrCreate(s.redis, first, s.now).1.Minted?
    requires first.id !in s.ledger.db.records && first.id !in s.ledger.db.orders
    requires msg !in s.ledger.db.tasks && m1 !in s.ledger.db.tasks && msg != m1
    ensures var es := [Start(first), Commit(first.id, msg, true), Award(first.id, a1, m1, true), LoseDropper];
            && SequentialRun(s, es)
            && var s' := Run(s, es);
               && InFlight(s') == 0 && s'.redis.pending == Some(Pending(first.id, first.strategy, "0"))
               && s'.ledger.db.records == s.ledger.db.records[first.id := a1]
               && s'.now == s.now && s'.everMinted == s.everMinted + {first.id}
  {
    MintedAndCommitted(s, first, msg);
    RecordedAndLeft(CommitStep(StartStep(s, first), first.id, msg, true), first.id, m1, a1);
    FourSteps(s, Start(first), Commit(first.id, msg, true), Award(first.id, a1, m1, true), LoseDropper);
  }

  /** When the pending delete after an award is lost, the next draw reuses the order: its award is swallowed as
      a duplicate, the record keeps the first one, and the second reply names an award that is never recorded. */
  lemma LostDeleteTellsAnother(s: State, first: RaffleOrder, second: RaffleOrder,
                               msg: MessageId, m1: MessageId, m2: MessageId, a1: int, a2: int)
    requires InFlight(s) == 0 && Enabled(s, Start(first)) && Enabled(s, Start(second)) && first.id != second.id
    requires GetOrCreate(s.redis, first, s.now).1.Minted?
    requires first.id !in s.ledger.db.records && first.id !in s.ledger.db.orders
    requires msg !in s.ledger.db.tasks && m1 !in s.ledger.db.tasks && msg != m1
    ensures var es := [Start(first), Commit(first.id, msg, true), Award(first.id, a1, m1, true), LoseDropper]
                      + [Start(second)];
            && SequentialRun(s, es) && Enabled(Run(s, es), Award(first.id, a2, m2, true))
            && var db := Run(s, es).ledger.db;
               SaveAward(db, first.id, a2, m2, true) == (db, Ok(false)) && db.records[first.id] == a1
  {
    var es := [Start(first), Commit(first.id, msg, true), Award(first.id, a1, m1, true), LoseDropper];
    DrawLosesDelete(s, first, msg, m1, a1);
    var s4 := Run(s, es);
    SequentialSnoc(s, es, Start(second));
    var s5 := StartStep(s4, second);
    assert s5.ledger == s4.ledger && s5.holding == s4.holding + multiset{first.id};
  }
}
