/** A small account on its first two days: two units, one of them for a day. The first draw is made and committed;
    and what it means that Redis offers a unit of the second day that the account no longer has. */
module FirstDay {
  import opened Wrappers
  import opened QuotaStore
  import opened PartakeProtocol
  import opened PartakeDraws

  const FIRST := Date(1, 1)
  const SECOND := Date(1, 2)
  const ORDER := RaffleOrder(7, 1, FIRST)

  const CREDIT: Event := Recharge(1, Amounts(2, 1, 2), true)
  const DRAWN: seq<Event> := [CREDIT, Load, Start(ORDER), Commit(7, 0, true)]

  /** The account as it is credited. */
  ghost predicate OnlyCredited(s: State) {
    && s.now == FIRST && InFlight(s) == 0 && s.everMinted == {} && s.redis == Redis(None, map[], map[], None)
    && s.ledger.db == Db(Some(Account(Quota(2, 2), Quota(1, 1), Quota(2, 2))), map[FIRST := Quota(1, 1)],
                         map[1 := Quota(2, 2)], map[], map[], map[], map[1 := Amounts(2, 1, 2)])
    && Quiet(s)
  }

  lemma FirstDayCredits()
    ensures OnlyCredited(Step(Init(FIRST), CREDIT))
  {
    var s1 := RechargeStep(Init(FIRST), 1, Amounts(2, 1, 2), true);
    assert s1.ledger.db.account == Some(Account(Quota(2, 2), Quota(1, 1), Quota(2, 2)));
    assert s1.ledger.db.dayRows == map[FIRST := Quota(1, 1)] && s1.ledger.db.monthRows == map[1 := Quota(2, 2)];
    assert s1.ledger.db.recharges == map[1 := Amounts(2, 1, 2)];
    assert Unsettled(s1.ledger.db.orders) == {};
  }

  /** The first day as it is loaded: two units, one of them for the day. */
  ghost predicate Loaded(s: State) {
    && s.redis == Redis(Some(2), map[FIRST := 1], map[1 := 2], None) && s.now == FIRST
    && InFlight(s) == 0 && s.everMinted == {}
    && s.ledger.db == Db(Some(Account(Quota(2, 2), Quota(1, 1), Quota(2, 2))), map[FIRST := Quota(1, 1)],
                         map[1 := Quota(2, 2)], map[], map[], map[], map[1 := Amounts(2, 1, 2)])
  }

  lemma FirstDayLoads(s: State)
    requires OnlyCredited(s)
    ensures Loaded(LoadStep(s))
  {
  }

  /** After the first day's draw: one unit left in Redis, the order's transaction committed. */
  ghost predicate AfterDraw(s: State) {
    && s.redis.total == Some(1) && s.redis.month == map[1 := 1] && s.now == FIRST
    && s.creating == map[] && s.failing == map[] && s.holding == multiset{7} && s.dropping == 0
    && s.everMinted == {7}
    && s.ledger.db.orders == map[7 := OrderRow(FIRST, 1, OrderCreate, SyncCreate)]
    && s.ledger.db.account == Some(Account(Quota(2, 2), Quota(1, 1), Quota(2, 2)))
    && s.ledger.db.dayRows == map[FIRST := Quota(1, 1)] && s.ledger.db.monthRows == map[1 := Quota(2, 2)]
    && s.ledger.db.recharges.Keys == {1} && s.ledger.db.tasks.Keys == {0}
  }

  lemma FirstDayDraws(s: State)
    requires Loaded(s)
    ensures Enabled(s, Start(ORDER)) && Alone(s, Start(ORDER)) && 7 in StartStep(s, ORDER).creating
    ensures AfterDraw(CommitStep(StartStep(s, ORDER), 7, 0, true))
  {
    var s1 := StartStep(s, ORDER);
    assert s1.creating == map[7 := ORDER] && s1.ledger == s.ledger;
    assert s1.redis.total == Some(1) && s1.redis.month == map[1 := 1];
    MintedAndCommitted(s, ORDER, 0);
  }

  lemma DrawOnFirstDay()
    ensures SequentialRun(Init(FIRST), DRAWN) && AfterDraw(Run(Init(FIRST), DRAWN))
  {
    FirstDayCredits();
    FirstDayLoads(Step(Init(FIRST), CREDIT));
    FirstDayDraws(Step(Step(Init(FIRST), CREDIT), Load));
    FourSteps(Init(FIRST), CREDIT, Load, Start(ORDER), Commit(7, 0, true));
  }

  // ---------------------------------------------------------------- a unit that the account does not have

  const NEXT := RaffleOrder(9, 1, SECOND)

  /** Redis offers one unit of the second day, and the account has none left for a day. */
  ghost predicate OverOffered(s: State) {
    && s.redis.total == Some(1) && SECOND in s.redis.day && s.redis.day[SECOND] == 1
    && 1 in s.redis.month && s.redis.month[1] == 1 && s.redis.pending == None
    && s.now == SECOND && InFlight(s) == 0 && NEXT.id !in s.everMinted
    && s.ledger.db.account == Some(Account(Quota(2, 1), Quota(1, 0), Quota(2, 1)))
    && NEXT.id !in s.ledger.db.orders && 1 !in s.ledger.db.tasks
  }

  /** The next punctual order is granted and committed, and its settlement is refused. */
  ghost predicate RefusesNext(s: State) {
    && Enabled(s, Start(NEXT)) && Alone(s, Start(NEXT))
    && Enabled(Step(s, Start(NEXT)), Commit(NEXT.id, 1, true))
    && var db := Step(Step(s, Start(NEXT)), Commit(NEXT.id, 1, true)).ledger.db;
       NEXT.id in db.orders && SettleOne(db, NEXT.id, true).1 == Err(DayExhausted)
  }

  lemma OverOfferedRefusesNext(s: State)
    requires OverOffered(s)
    ensures RefusesNext(s)
  {
    var s1 := StartStep(s, NEXT);
    assert s1.creating[NEXT.id] == NEXT && s1.ledger == s.ledger;
    var db := CommitStep(s1, NEXT.id, 1, true).ledger.db;
    assert db == SaveLite(s.ledger.db, NEXT, 1, true).0;
    assert db.orders[NEXT.id] == OrderRow(SECOND, 1, OrderCreate, SyncCreate) && db.account == s.ledger.db.account;
  }
}
