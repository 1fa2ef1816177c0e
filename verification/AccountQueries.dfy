/** An account query on a new day while yesterday's order is unsettled: a draw that Redis grants and the account
    refuses. */
module AccountQueries {
  import opened Wrappers
  import opened QuotaStore
  import opened PartakeProtocol
  import opened PartakeDraws
  import opened FirstDay

  /** After the first day's draw: the page is opened on the next day, and then the draw is settled. */
  const QUERIED: seq<Event> := [Tick(SECOND), Query(true, true), Settle(7, true), Expire]

  /** The second day's row still has the unit that the first day's order has been charged for since. */
  ghost predicate RowAhead(s: State) {
    && s.redis.pending == None && s.now == SECOND && s.everMinted == {7}
    && s.creating == map[] && s.failing == map[] && s.holding == multiset{7} && s.dropping == 0
    && s.ledger.db.orders == map[7 := OrderRow(FIRST, 1, OrderCreate, SyncCompleted)]
    && s.ledger.db.account == Some(Account(Quota(2, 1), Quota(1, 0), Quota(2, 1)))
    && s.ledger.db.dayRows == map[FIRST := Quota(1, 0), SECOND := Quota(1, 1)]
    && s.ledger.db.monthRows == map[1 := Quota(2, 1)] && s.ledger.db.tasks.Keys == {0}
  }

  lemma SecondDayIsQueried(s: State)
    requires AfterDraw(s)
    ensures SequentialRun(s, QUERIED) && RowAhead(Run(s, QUERIED))
    ensures !SafeQuery(Step(s, Tick(SECOND)), true, true)
  {
    var s1 := Step(s, Tick(SECOND));
    assert 7 in Unsettled(s1.ledger.db.orders);
    var s2 := Step(s1, Query(true, true));
    assert s2.ledger.db.dayRows == map[FIRST := Quota(1, 1), SECOND := Quota(1, 1)];
    assert s2.ledger.db.monthRows == map[1 := Quota(2, 2)];
    var s3 := Step(s2, Settle(7, true));
    assert s3.ledger.db.account == Some(Account(Quota(2, 1), Quota(1, 0), Quota(2, 1)));
    assert s3.ledger.db.dayRows == map[FIRST := Quota(1, 0), SECOND := Quota(1, 1)];
    assert s3.ledger.db.monthRows == map[1 := Quota(2, 1)];
    assert s3.ledger.db.orders == map[7 := OrderRow(FIRST, 1, OrderCreate, SyncCompleted)];
    FourSteps(s, Tick(SECOND), Query(true, true), Settle(7, true), Expire);
  }

  lemma SecondDayIsLoaded(s: State)
    requires RowAhead(s)
    ensures SequentialRun(s, [LoseHolder(7), Load]) && OverOffered(Run(s, [LoseHolder(7), Load]))
  {
    assert s.holding - multiset{7} == multiset{};
    var s1 := Step(s, LoseHolder(7));
    assert Unsettled(s1.ledger.db.orders) == {};
    assert QueryEntity(s1.ledger.db, SECOND).1 == Ok(Account(Quota(2, 1), Quota(1, 1), Quota(2, 1)));
    SequentialSnoc(s, [], LoseHolder(7));
    SequentialSnoc(s, [] + [LoseHolder(7)], Load);
    assert [] + [LoseHolder(7)] + [Load] == [LoseHolder(7), Load];
  }

  const BREAKS: seq<Event> := DRAWN + QUERIED + [LoseHolder(7), Load]

  /** It does go wrong, draw by draw and with quiet loads only: Redis offers a unit of the second day while the
      account has none, and the order drawn with it can be committed but not settled. */
  lemma QueryBreaksBooks()
    ensures SequentialRun(Init(FIRST), BREAKS)
    ensures var s := Run(Init(FIRST), BREAKS);
            SECOND in s.redis.day && s.redis.day[SECOND] == 1 && s.ledger.db.account.Some?
            && s.ledger.db.account.value.day.surplus == 0 && RefusesNext(s)
  {
    DrawOnFirstDay();
    SecondDayIsQueried(Run(Init(FIRST), DRAWN));
    SequentialJoin(Init(FIRST), DRAWN, QUERIED);
    SecondDayIsLoaded(Run(Init(FIRST), DRAWN + QUERIED));
    SequentialJoin(Init(FIRST), DRAWN + QUERIED, [LoseHolder(7), Load]);
    OverOfferedRefusesNext(Run(Init(FIRST), BREAKS));
  }
}
