/** Awards against credited units: when draws do not overlap, how many awards can ever be recorded. */
module AwardBound {
  import opened Collections
  import opened Wrappers
  import opened QuotaStore
  import opened PartakeProtocol
  import opened PartakeSafety
  import opened PartakeDraws
  import Ledger

  function PendingIds(p: Option<Pending>): set<OrderId> {
    if p.Some? then {p.value.oid} else {}
  }

  function HeldIds(holding: multiset<OrderId>): set<OrderId> {
    set o | o in holding
  }

  /** The orders that have an award or can still get one: recorded, pending or held, and no longer being made. */
  function Awardable(s: State): set<OrderId> {
    Able(s.ledger.db.records.Keys, PendingIds(s.redis.pending), HeldIds(s.holding), s.creating.Keys + s.failing.Keys)
  }

  function Able(records: set<OrderId>, pending: set<OrderId>, held: set<OrderId>, making: set<OrderId>): set<OrderId> {
    records + pending + held - making
  }

  /** Every such order has a unit of its own: an order row, or a unit lost since the last load. */
  ghost predicate Funded(s: State) {
    |Awardable(s)| <= |s.ledger.db.orders| + s.lost
  }

  /** The rows alone are enough. */
  predicate Backed(s: State) {
    |Awardable(s)| <= |s.ledger.db.orders|
  }

  /** Awards and what Redis still offers stay within what was credited. */
  ghost predicate Within(s: State) {
    |s.ledger.db.records| + s.redis.total.GetOr(0) <= Ledger.Credited(s.ledger.credits).total
  }

  lemma FundedIsWithin(s: State)
    requires Ledger.Inv(s.ledger) && UnitsInv(s) && Unawarded(s) && Funded(s)
    ensures Within(s)
  {
    UnitsAddUp(s);
    assert s.ledger.db.records.Keys <= Awardable(s);
    SubsetSize(s.ledger.db.records.Keys, Awardable(s));
    assert |s.ledger.db.records.Keys| == |s.ledger.db.records|;
  }

  // ---------------------------------------------------------------- one step

  lemma HeldMore(holding: multiset<OrderId>, o: OrderId)
    ensures HeldIds(holding + multiset{o}) == HeldIds(holding) + {o}
    ensures HeldIds(holding - multiset{o}) <= HeldIds(holding)
  {
  }

  lemma FewerKeepFunded(s: State, s': State, records: set<OrderId>, pending: set<OrderId>, held: set<OrderId>,
                        making: set<OrderId>)
    requires Funded(s) && s'.ledger.db.orders.Keys == s.ledger.db.orders.Keys && s'.lost == s.lost
    requires s'.ledger.db.records.Keys == records && PendingIds(s'.redis.pending) == pending
    requires HeldIds(s'.holding) == held && s'.creating.Keys + s'.failing.Keys == making
    requires Able(records, pending, held, making) <= Awardable(s)
    ensures Funded(s')
  {
    SubsetSize(Awardable(s'), Awardable(s));
    assert |s'.ledger.db.orders| == |s'.ledger.db.orders.Keys| == |s.ledger.db.orders|;
  }

  /** Records, pending order and holders may shrink; what is being made stays. */
  lemma FrameKeepsFunded(s: State, s': State)
    requires Funded(s) && s'.ledger.db.orders.Keys == s.ledger.db.orders.Keys && s'.lost == s.lost
    requires s'.ledger.db.records.Keys <= s.ledger.db.records.Keys + HeldIds(s.holding)
    requires PendingIds(s'.redis.pending) <= PendingIds(s.redis.pending)
    requires HeldIds(s'.holding) <= HeldIds(s.holding) + PendingIds(s.redis.pending)
    requires s'.creating == s.creating && s'.failing == s.failing
    ensures Funded(s')
  {
    FewerKeepFunded(s, s', s'.ledger.db.records.Keys, PendingIds(s'.redis.pending), HeldIds(s'.holding),
                    s.creating.Keys + s.failing.Keys);
  }

  /** What the script does to pending order, holders and orders being made; it leaves the ledger alone. */
  lemma StartMoves(s: State, o: RaffleOrder)
    ensures var s' := StartStep(s, o);
            && s'.ledger == s.ledger && s'.lost == s.lost && s'.failing == s.failing
            && match GetOrCreate(s.redis, o, s.now).1
               case Minted(_) => PendingIds(s'.redis.pending) == {o.id} && s'.creating == s.creating[o.id := o] && s'.holding == s.holding
               case Reused(_) => s'.redis == s.redis && s'.creating == s.creating && s.redis.pending.Some?
                                 && s'.holding == s.holding + multiset{s.redis.pending.value.oid}
               case Rejected(_) => PendingIds(s'.redis.pending) <= PendingIds(s.redis.pending)
                                   && s'.creating == s.creating && s'.holding == s.holding
  {
  }

  lemma MintKeepsFunded(s: State, o: RaffleOrder)
    requires Funded(s) && GetOrCreate(s.redis, o, s.now).1.Minted?
    ensures Funded(StartStep(s, o))
  {
    StartMoves(s, o);
    assert s.creating[o.id := o].Keys == s.creating.Keys + {o.id};
    FewerKeepFunded(s, StartStep(s, o), s.ledger.db.records.Keys, {o.id}, HeldIds(s.holding),
                    s.creating.Keys + {o.id} + s.failing.Keys);
  }

  lemma StartKeepsFunded(s: State, o: RaffleOrder)
    requires Funded(s)
    ensures Funded(StartStep(s, o))
  {
    StartMoves(s, o);
    match GetOrCreate(s.redis, o, s.now).1 {
      case Minted(_) => MintKeepsFunded(s, o);
      case Reused(_) =>
        HeldMore(s.holding, s.redis.pending.value.oid);
        FrameKeepsFunded(s, StartStep(s, o));
      case Rejected(_) => FrameKeepsFunded(s, StartStep(s, o));
    }
  }

  /** How an order transaction ends: with a row, with the row or task already there, or with an error. */
  lemma CommitMoves(s: State, oid: OrderId, msg: MessageId, commits: bool)
    requires oid in s.creating
    ensures var s' := CommitStep(s, oid, msg, commits);
            && s'.ledger.db.records == s.ledger.db.records && s'.redis == s.redis
            && match SaveLite(s.ledger.db, s.creating[oid], msg, commits).1
               case Err(_) => s'.ledger.db.orders == s.ledger.db.orders && s'.lost == s.lost && s'.holding == s.holding
                              && s'.creating.Keys + s'.failing.Keys == s.creating.Keys + s.failing.Keys
               case Ok(written) => s'.holding == s.holding + multiset{oid} && s'.creating == Without(s.creating, oid) && s'.failing == s.failing
                                   && |s'.ledger.db.orders| + s'.lost == |s.ledger.db.orders| + s.lost + 1
  {
    var o := s.creating[oid];
    if SaveLite(s.ledger.db, o, msg, commits).1 == Ok(true) {
      OrderMore(s.ledger.db.orders, o.id, OrderRow(o.date, o.strategy, OrderCreate, SyncCreate));
    }
  }

  lemma CommitKeepsFunded(s: State, oid: OrderId, msg: MessageId, commits: bool)
    requires Funded(s) && oid in s.creating
    ensures Funded(CommitStep(s, oid, msg, commits))
  {
    var s' := CommitStep(s, oid, msg, commits);
    CommitMoves(s, oid, msg, commits);
    HeldMore(s.holding, oid);
    match SaveLite(s.ledger.db, s.creating[oid], msg, commits).1 {
      case Err(_) =>
        FewerKeepFunded(s, s', s.ledger.db.records.Keys, PendingIds(s.redis.pending), HeldIds(s.holding),
                        s.creating.Keys + s.failing.Keys);
      case Ok(_) => NewHolderIsOneMore(s, s', oid);
    }
  }

  lemma NewHolderIsOneMore(s: State, s': State, oid: OrderId)
    requires Funded(s) && |s'.ledger.db.orders| + s'.lost == |s.ledger.db.orders| + s.lost + 1
    requires s'.ledger.db.records == s.ledger.db.records && s'.redis == s.redis
    requires HeldIds(s'.holding) <= HeldIds(s.holding) + {oid}
    requires s.creating.Keys <= s'.creating.Keys + {oid} && s.failing.Keys <= s'.failing.Keys + {oid}
    ensures Funded(s')
  {
    AtMostOneMore(Awardable(s'), Awardable(s), oid);
  }

  lemma OrderMore(orders: map<OrderId, OrderRow>, o: OrderId, row: OrderRow)
    requires o !in orders
    ensures |orders[o := row]| == |orders| + 1
  {
    OneMore(orders, o, row);
  }

  /** A refund that takes effect concerns an order nobody holds and nobody was awarded, as draws do not overlap. */
  lemma RefundKeepsFunded(s: State, oid: OrderId)
    requires Funded(s) && Unawarded(s) && InFlight(s) <= 1 && oid in s.failing
    ensures Funded(RefundStep(s, oid))
  {
    var s' := RefundStep(s, oid);
    OnlyOne(s, oid);
    if Compensate(s.redis, s.failing[oid]).1 {
      assert oid in s.creating.Keys + s.failing.Keys;
      FewerKeepFunded(s, s', s.ledger.db.records.Keys, {}, {}, s.creating.Keys + (s.failing.Keys - {oid}));
    } else {
      NewHolderIsOneMore(s, s', oid);
    }
  }

  lemma SaveAwardMoves(db: Db, oid: OrderId, award: int, msg: MessageId, commits: bool)
    ensures var db' := SaveAward(db, oid, award, msg, commits).0;
            db'.orders.Keys == db.orders.Keys && db'.records.Keys <= db.records.Keys + {oid}
  {
    if oid in db.orders { SameKeys(db.orders, oid, db.orders[oid].(state := OrderUsed)); }
  }

  lemma AwardMoves(s: State, oid: OrderId, award: int, msg: MessageId, commits: bool)
    ensures var s' := AwardStep(s, oid, award, msg, commits);
            && s'.ledger.db.orders.Keys == s.ledger.db.orders.Keys && s'.ledger.credits == s.ledger.credits
            && s'.ledger.db.records.Keys <= s.ledger.db.records.Keys + {oid}
            && s'.holding == s.holding - multiset{oid}
            && s'.redis == s.redis && s'.lost == s.lost && s'.creating == s.creating && s'.failing == s.failing
            && s'.now == s.now
  {
    SaveAwardMoves(s.ledger.db, oid, award, msg, commits);
    assert AwardStep(s, oid, award, msg, commits).ledger.db == SaveAward(s.ledger.db, oid, award, msg, commits).0;
  }

  lemma AwardKeepsFunded(s: State, oid: OrderId, award: int, msg: MessageId, commits: bool)
    requires Funded(s) && oid in s.holding
    ensures Funded(AwardStep(s, oid, award, msg, commits))
  {
    AwardMoves(s, oid, award, msg, commits);
    HeldMore(s.holding, oid);
    FrameKeepsFunded(s, AwardStep(s, oid, award, msg, commits));
  }

  lemma SettleMoves(s: State, oid: OrderId, commits: bool)
    ensures var s' := Step(s, Settle(oid, commits));
            && s'.ledger.db.orders.Keys == s.ledger.db.orders.Keys && s'.ledger.db.records == s.ledger.db.records
            && s'.redis == s.redis && s'.holding == s.holding && s'.creating == s.creating && s'.failing == s.failing
            && s'.lost == s.lost
  {
    SettleTouches(s.ledger.db, oid, commits);
  }

  lemma SettleKeepsFunded(s: State, oid: OrderId, commits: bool)
    requires Funded(s)
    ensures Funded(Step(s, Settle(oid, commits)))
  {
    SettleMoves(s, oid, commits);
    FrameKeepsFunded(s, Step(s, Settle(oid, commits)));
  }

  lemma LossKeepsFunded(s: State, oid: OrderId)
    requires Funded(s)
    ensures oid in s.creating ==> Funded(Step(s, LoseCreating(oid)))
    ensures oid in s.failing ==> Funded(Step(s, LoseFailing(oid)))
  {
    if oid in s.creating { NewHolderIsOneMore(s, Step(s, LoseCreating(oid)), oid); }
    if oid in s.failing { NewHolderIsOneMore(s, Step(s, LoseFailing(oid)), oid); }
  }

  lemma LoadKeepsAwardable(s: State)
    ensures Awardable(LoadStep(s)) == Awardable(s) && LoadStep(s).ledger.db.orders == s.ledger.db.orders
    ensures LoadStep(s).ledger.credits == s.ledger.credits
  {
  }

  lemma RechargeMoves(s: State, number: BusinessNo, a: Amounts, commits: bool)
    ensures var s' := RechargeStep(s, number, a, commits);
            && s'.ledger.db.orders == s.ledger.db.orders && s'.ledger.db.records == s.ledger.db.records
            && s'.redis == s.redis && s'.holding == s.holding && s'.creating == s.creating && s'.failing == s.failing
            && s'.lost == s.lost
  {
  }

  lemma RechargeKeepsFunded(s: State, number: BusinessNo, a: Amounts, commits: bool)
    requires Funded(s)
    ensures Funded(RechargeStep(s, number, a, commits))
  {
    RechargeMoves(s, number, a, commits);
    FrameKeepsFunded(s, RechargeStep(s, number, a, commits));
  }

  lemma DropKeepsFunded(s: State, dropping: nat)
    requires Funded(s)
    ensures Funded(s.(redis := DeletePending(s.redis), dropping := dropping))
  {
    var s' := s.(redis := DeletePending(s.redis), dropping := dropping);
    assert Awardable(s') <= Awardable(s);
    SubsetSize(Awardable(s'), Awardable(s));
  }

  lemma HolderLossKeepsFunded(s: State, oid: OrderId)
    requires Funded(s)
    ensures Funded(s.(holding := s.holding - multiset{oid}))
  {
    HeldMore(s.holding, oid);
    var s' := s.(holding := s.holding - multiset{oid});
    assert Awardable(s') <= Awardable(s);
    SubsetSize(Awardable(s'), Awardable(s));
  }

  lemma IdleKeepsFunded(s: State, dropping: nat, now: Date)
    requires Funded(s)
    ensures Funded(s.(dropping := dropping)) && Funded(s.(now := now))
  {
    assert Awardable(s.(dropping := dropping)) == Awardable(s) == Awardable(s.(now := now));
  }

  lemma StepKeepsFunded(s: State, e: Event)
    requires Funded(s) && ControlInv(s) && Unawarded(s) && InFlight(s) <= 1 && Enabled(s, e)
    requires e.Load? ==> Backed(s)
    ensures Funded(Step(s, e))
  {
    match e
    case Start(o) => StartKeepsFunded(s, o);
    case Commit(oid, msg, commits) => CommitKeepsFunded(s, oid, msg, commits);
    case Refund(oid) => RefundKeepsFunded(s, oid);
    case Award(oid, award, msg, commits) => AwardKeepsFunded(s, oid, award, msg, commits);
    case LoseCreating(oid) => LossKeepsFunded(s, oid);
    case LoseFailing(oid) => LossKeepsFunded(s, oid);
    case Settle(oid, commits) => SettleKeepsFunded(s, oid, commits);
    case Recharge(number, a, commits) => RechargeKeepsFunded(s, number, a, commits);
    case Load => LoadKeepsAwardable(s);
    case Query(monthCreated, dayCreated) =>
      QueryMoves(s, monthCreated, dayCreated);
      FrameKeepsFunded(s, Step(s, e));
    case LoseHolder(oid) => HolderLossKeepsFunded(s, oid);
    case DropPending => DropKeepsFunded(s, s.dropping - 1);
    case Expire => DropKeepsFunded(s, s.dropping);
    case LoseDropper => IdleKeepsFunded(s, s.dropping - 1, s.now);
    case Tick(date) => IdleKeepsFunded(s, s.dropping, date);
  }

  // ---------------------------------------------------------------- whole runs

  /** Every load of the run meets a backed state. */
  predicate BackedLoads(s: State, es: seq<Event>)
    requires SequentialRun(s, es)
    decreases |es|
  {
    es == [] || ((es[0].Load? ==> Backed(s)) && BackedLoads(Step(s, es[0]), es[1..]))
  }

  /** Every load of the run finds that no unit was lost since the load before. */
  predicate LosslessLoads(s: State, es: seq<Event>)
    requires SequentialRun(s, es)
    decreases |es|
  {
    es == [] || ((es[0].Load? ==> s.lost == 0) && LosslessLoads(Step(s, es[0]), es[1..]))
  }

  /** What sequential runs keep. */
  ghost predicate Inv(s: State) {
    PartakeSafety.Inv(s) && DrawInv(s)
  }

  lemma StepKeepsInv(s: State, e: Event)
    requires Inv(s) && Enabled(s, e) && Alone(s, e)
    ensures Inv(Step(s, e))
  {
    PartakeSafety.StepKeepsInv(s, e);
    StepKeepsDraws(s, e);
  }

  lemma {:induction false} BackedLoadsKeepFunded(s: State, es: seq<Event>)
    requires Inv(s) && Funded(s) && SequentialRun(s, es) && BackedLoads(s, es)
    ensures Inv(Run(s, es)) && Funded(Run(s, es))
    decreases |es|
  {
    if es != [] {
      StepKeepsInv(s, es[0]);
      StepKeepsFunded(s, es[0]);
      BackedLoadsKeepFunded(Step(s, es[0]), es[1..]);
    }
  }

  lemma {:induction false} LosslessIsBacked(s: State, es: seq<Event>)
    requires Inv(s) && Funded(s) && SequentialRun(s, es) && LosslessLoads(s, es)
    ensures BackedLoads(s, es)
    decreases |es|
  {
    if es != [] {
      StepKeepsInv(s, es[0]);
      StepKeepsFunded(s, es[0]);
      LosslessIsBacked(Step(s, es[0]), es[1..]);
    }
  }

  lemma InitIsFunded(now: Date)
    ensures Inv(Init(now)) && Funded(Init(now))
  {
    assert ValidRun(Init(now), []);
    Reachable(now, []);
    assert Run(Init(now), []) == Init(now);
    assert Awardable(Init(now)) == {};
  }

  /** Main result: with draws that do not overlap, and loads only after nothing was lost, awards together
      with what Redis still offers never exceed the credited units, over any number of loads and days. */
  lemma AwardsNeverExceedCredits(now: Date, es: seq<Event>)
    requires SequentialRun(Init(now), es) && LosslessLoads(Init(now), es)
    ensures Within(Run(Init(now), es))
  {
    InitIsFunded(now);
    LosslessIsBacked(Init(now), es);
    BackedLoadsBound(now, es);
  }

  /** The same for loads that meet backed states, which is less to ask. */
  lemma BackedLoadsBound(now: Date, es: seq<Event>)
    requires SequentialRun(Init(now), es) && BackedLoads(Init(now), es)
    ensures Within(Run(Init(now), es))
  {
    InitIsFunded(now);
    BackedLoadsKeepFunded(Init(now), es);
    FundedIsWithin(Run(Init(now), es));
  }

  // ---------------------------------------------------------------- exactly which loads are safe

  /** However the user goes on from here, draw by draw and with backed loads. */
  ghost predicate StaysWithin(s: State) {
    forall es :: SequentialRun(s, es) && BackedLoads(s, es) ==> Within(Run(s, es))
  }

  lemma BackedLoadIsSafe(s: State)
    requires Inv(s) && Quiet(s) && Backed(s)
    ensures StaysWithin(Step(s, Load))
  {
    StepKeepsInv(s, Load);
    LoadKeepsAwardable(s);
    var s' := Step(s, Load);
    forall es | SequentialRun(s', es) && BackedLoads(s', es) ensures Within(Run(s', es)) {
      BackedLoadsKeepFunded(s', es);
      FundedIsWithin(Run(s', es));
    }
  }

  predicate NoLoads(es: seq<Event>) {
    forall i :: 0 <= i < |es| ==> !es[i].Load?
  }

  lemma {:induction false} NoLoadsIsBacked(s: State, es: seq<Event>)
    requires SequentialRun(s, es) && NoLoads(es)
    ensures BackedLoads(s, es)
    decreases |es|
  {
    if es != [] { NoLoadsIsBacked(Step(s, es[0]), es[1..]); }
  }

  lemma {:induction false} FreshNat(used: set<nat>) returns (n: nat)
    ensures forall x :: x in used ==> x < n
    decreases |used|
  {
    n := 0;
    if x :| x in used {
      var rest := used - {x};
      n := FreshNat(rest);
      if n <= x { n := x + 1; }
      assert forall y :: y in used ==> y == x || y in rest;
    }
  }

  /** The units on either side of the bound are the same, and nothing is being made. */
  ghost predicate SameUnits(s: State, s': State) {
    && s'.ledger.db.orders.Keys == s.ledger.db.orders.Keys && s'.ledger.credits == s.ledger.credits
    && s'.redis == s.redis && s'.now == s.now && s'.creating == map[] && s'.failing == map[]
  }

  lemma AwardStepRecords(s: State, oid: OrderId, msg: MessageId)
    requires oid in s.holding && msg !in s.ledger.db.tasks && s.creating == map[] && s.failing == map[]
    ensures var s' := AwardStep(s, oid, 1, msg, true);
            && SameUnits(s, s') && s'.ledger.db.records.Keys == s.ledger.db.records.Keys + {oid}
            && s'.holding == s.holding - multiset{oid} && s'.dropping == s.dropping + 1
  {
    AwardMoves(s, oid, 1, msg, true);
    if oid !in s.ledger.db.records {
      assert SaveAward(s.ledger.db, oid, 1, msg, true).0.records == s.ledger.db.records[oid := 1];
    }
  }

  lemma OneHolder(s: State) returns (oid: OrderId)
    requires InFlight(s) <= 1 && s.holding != multiset{}
    ensures s.holding == multiset{oid} && s.dropping == 0 && HeldIds(s.holding) == {oid}
  {
    oid :| oid in s.holding;
    assert |s.holding - multiset{oid}| == |s.holding| - 1;
  }

  /** Whoever is in flight saves an award and dies before the pending delete. */
  lemma FinishHolder(s: State) returns (es: seq<Event>)
    requires InFlight(s) <= 1 && s.creating == map[] && s.failing == map[]
    ensures SequentialRun(s, es) && NoLoads(es) && InFlight(Run(s, es)) == 0 && SameUnits(s, Run(s, es))
    ensures Run(s, es).ledger.db.records.Keys == s.ledger.db.records.Keys + HeldIds(s.holding)
  {
    es := [];
    if s.holding != multiset{} {
      var oid := OneHolder(s);
      var msg := FreshNat(s.ledger.db.tasks.Keys);
      AwardStepRecords(s, oid, msg);
      SequentialSnoc(s, [], Award(oid, 1, msg, true));
      SequentialSnoc(s, [] + [Award(oid, 1, msg, true)], LoseDropper);
      es := [] + [Award(oid, 1, msg, true)] + [LoseDropper];
    } else if s.dropping > 0 {
      SequentialSnoc(s, [], LoseDropper);
      es := [] + [LoseDropper];
    }
  }

  /** A new draw reuses the pending order and saves an award for it. */
  lemma RecordPending(s: State) returns (es: seq<Event>)
    requires InFlight(s) == 0 && s.creating == map[] && s.failing == map[]
    requires s.redis.pending.Some? && s.redis.pending.value.st == "0"
    ensures SequentialRun(s, es) && NoLoads(es) && SameUnits(s, Run(s, es))
    ensures Run(s, es).ledger.db.records.Keys == s.ledger.db.records.Keys + PendingIds(s.redis.pending)
  {
    var oid := s.redis.pending.value.oid;
    var id := FreshNat(s.everMinted);
    var o := RaffleOrder(id, 1, s.now);
    var msg := FreshNat(s.ledger.db.tasks.Keys);
    SequentialSnoc(s, [], Start(o));
    var s1 := Step(s, Start(o));
    assert s1.redis == s.redis && s1.holding == s.holding + multiset{oid} && s1.ledger == s.ledger;
    AwardStepRecords(s1, oid, msg);
    SequentialSnoc(s, [] + [Start(o)], Award(oid, 1, msg, true));
    es := [] + [Start(o)] + [Award(oid, 1, msg, true)];
  }

  /** From a state in which nothing is being made, every awardable order can get its award, with no unit moved. */
  lemma AwardThemAll(s: State) returns (es: seq<Event>)
    requires InFlight(s) <= 1 && s.creating == map[] && s.failing == map[]
    requires s.redis.pending.Some? ==> s.redis.pending.value.st == "0"
    ensures SequentialRun(s, es) && NoLoads(es) && SameUnits(s, Run(s, es))
    ensures Run(s, es).ledger.db.records.Keys == Awardable(s)
  {
    es := FinishHolder(s);
    if s.redis.pending.Some? {
      var more := RecordPending(Run(s, es));
      SequentialJoin(s, es, more);
      es := es + more;
    }
  }

  lemma UnbackedLoadBreaks(s: State)
    requires Inv(s) && Quiet(s) && s.ledger.db.account.Some? && !Backed(s)
    ensures !StaysWithin(Step(s, Load))
  {
    StepKeepsInv(s, Load);
    LoadKeepsAwardable(s);
    var s' := Step(s, Load);
    var es := AwardThemAll(s');
    NoLoadsIsBacked(s', es);
    var end := Run(s', es);
    LoadIsAccounted(s);
    assert |end.ledger.db.records| == |end.ledger.db.records.Keys| == |Awardable(s)|;
    assert !Within(end);
  }

  /** Right after a quiet load, orders and what Redis offers are all that was credited. */
  lemma LoadIsAccounted(s: State)
    requires Inv(s) && Quiet(s) && s.ledger.db.account.Some?
    ensures var s' := Step(s, Load);
            |s'.ledger.db.orders| + s'.redis.total.GetOr(0) == Ledger.Credited(s'.ledger.credits).total
  {
    StepKeepsInv(s, Load);
    UnitsAddUp(Step(s, Load));
  }

  /** Main result: a load keeps the bound, however the user goes on, if and only if the orders that are
      recorded, pending or held at that moment are no more than the order rows. */
  lemma LoadIsSafeIff(s: State)
    requires Inv(s) && Quiet(s) && s.ledger.db.account.Some?
    ensures StaysWithin(Step(s, Load)) <==> Backed(s)
  {
    if Backed(s) { BackedLoadIsSafe(s); } else { UnbackedLoadBreaks(s); }
  }

  /** In particular it is safe when no order without a row is recorded, pending or held. */
  lemma RowsBack(s: State)
    requires Awardable(s) <= s.ledger.db.orders.Keys
    ensures Backed(s)
  {
    SubsetSize(Awardable(s), s.ledger.db.orders.Keys);
    assert |s.ledger.db.orders| == |s.ledger.db.orders.Keys|;
  }

  // ---------------------------------------------------------------- a load that is not safe

  const UNIT := Amounts(1, 1, 1)

  function Crashed(now: Date): seq<Event> {
    [Recharge(1, UNIT, true), Load, Start(RaffleOrder(7, 1, now)), LoseCreating(7)]
  }

  lemma LoadOfOneUnit(now: Date)
    ensures var s := Step(Step(Init(now), Recharge(1, UNIT, true)), Load);
            && s.redis == Redis(Some(1), map[now := 1], map[now.month := 1], None) && s.now == now
            && s.creating == map[] && s.failing == map[] && s.holding == multiset{} && s.dropping == 0
            && s.everMinted == {} && s.ledger.db.orders == map[] && s.ledger.db.records == map[]
            && s.ledger.db.account == Some(Account(Quota(1, 1), Quota(1, 1), Quota(1, 1)))
  {
    var s1 := Step(Init(now), Recharge(1, UNIT, true));
    assert s1.ledger.db.account == Some(Account(Quota(1, 1), Quota(1, 1), Quota(1, 1)));
    assert s1.ledger.db.dayRows == map[now := Quota(1, 1)] && s1.ledger.db.monthRows == map[now.month := Quota(1, 1)];
    assert Unsettled(s1.ledger.db.orders) == {};
  }

  lemma CrashAfterScript(s: State, o: RaffleOrder)
    requires s.redis == Redis(Some(1), map[s.now := 1], map[s.now.month := 1], None) && o.date == s.now
    requires s.creating == map[] && s.failing == map[] && s.holding == multiset{} && s.dropping == 0
    requires s.everMinted == {} && s.ledger.db.orders == map[] && s.ledger.db.account.Some?
    ensures Enabled(s, Start(o)) && Alone(s, Start(o)) && Enabled(Step(s, Start(o)), LoseCreating(o.id))
    ensures var s' := Step(Step(s, Start(o)), LoseCreating(o.id)); Quiet(s') && !Backed(s') && s'.ledger.db.account.Some?
  {
    var s1 := StartStep(s, o);
    assert s1.creating == map[o.id := o] && s1.ledger == s.ledger && PendingIds(s1.redis.pending) == {o.id};
    var s' := s1.(creating := Without(s1.creating, o.id), lost := s1.lost + 1);
    assert s'.creating == map[] && s'.failing == map[];
    assert o.id in Awardable(s');
    assert Unsettled(s'.ledger.db.orders) == {};
  }

  /** One unit is credited and loaded, and the first draw dies right after its script. */
  lemma OneUnitCrashes(now: Date)
    ensures SequentialRun(Init(now), Crashed(now))
    ensures var s := Run(Init(now), Crashed(now)); Quiet(s) && !Backed(s) && s.ledger.db.account.Some?
  {
    var s0 := Init(now);
    var o := RaffleOrder(7, 1, now);
    LoadOfOneUnit(now);
    assert Unsettled(Step(s0, Recharge(1, UNIT, true)).ledger.db.orders) == {};
    CrashAfterScript(Step(Step(s0, Recharge(1, UNIT, true)), Load), o);
    FourSteps(s0, Recharge(1, UNIT, true), Load, Start(o), LoseCreating(7));
  }

  lemma UnbackedLoadInRun(now: Date, es: seq<Event>)
    requires SequentialRun(Init(now), es)
    requires var s := Run(Init(now), es); Quiet(s) && !Backed(s) && s.ledger.db.account.Some?
    ensures exists more :: SequentialRun(Init(now), more) && !Within(Run(Init(now), more))
  {
    InitIsFunded(now);
    SequentialKeepsDraws(Init(now), es);
    Reachable(now, es);
    var s := Run(Init(now), es);
    UnbackedLoadBreaks(s);
    SequentialSnoc(Init(now), es, Load);
    BreaksLater(Init(now), es + [Load]);
  }

  lemma BreaksLater(s: State, es: seq<Event>)
    requires SequentialRun(s, es) && !StaysWithin(Run(s, es))
    ensures exists more :: SequentialRun(s, more) && !Within(Run(s, more))
  {
    var end := Run(s, es);
    var more :| SequentialRun(end, more) && BackedLoads(end, more) && !Within(Run(end, more));
    SequentialJoin(s, es, more);
    assert !Within(Run(s, es + more));
  }

  /** So the bound does break, draw by draw: after that crash a load offers the unit again while the pending
      order can still be awarded, and awards and offers come to more than the one unit ever credited. */
  lemma LoadAfterCrashBreaks(now: Date)
    ensures exists es :: SequentialRun(Init(now), es) && !Within(Run(Init(now), es))
  {
    OneUnitCrashes(now);
    UnbackedLoadInRun(now, Crashed(now));
  }
}
