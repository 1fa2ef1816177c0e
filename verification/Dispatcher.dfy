/** Overlapping dispatchers working off the outbox of one shard, while every other transaction goes on.
    A dispatcher takes a task, has its effect carried out, and reports; each of the three is one step,
    any number of dispatchers may hold the same task, and each may die anywhere. */
module Dispatcher {
  import opened Wrappers
  import opened QuotaStore
  import Ledger
  import Repository

  datatype Stage = Taken | Succeeded | Broken

  datatype Worker = Worker(msg: MessageId, stage: Stage)

  datatype Event =
    | Take(w: nat, msg: MessageId)
    | Route(w: nat, works: bool, reached: bool)   // a publish that reports an error may have reached the broker
    | Report(w: nat, written: bool)               // the effect succeeded: mark completed
    | GiveUp(w: nat, written: bool)               // it did not, or the report was lost: mark failed
    | Die(w: nat)
    | Database(e: Ledger.Event)

  /** `published` are the messages that reached the broker at least once. */
  datatype State = State(ledger: Ledger.State, published: set<MessageId>, workers: map<nat, Worker>)

  const INIT := State(Ledger.INIT, {}, map[])

  function Mark(l: Ledger.State, msg: MessageId, state: TaskState): Ledger.State {
    if msg in l.db.tasks then l.(db := l.db.(tasks := l.db.tasks[msg := l.db.tasks[msg].(state := state)])) else l
  }

  /** routeTaskByTopic. */
  function RouteStep(s: State, w: nat, works: bool, reached: bool): State
    requires w in s.workers && s.workers[w].msg in s.ledger.db.tasks
  {
    var msg := s.workers[w].msg;
    match s.ledger.db.tasks[msg].payload
    case SendAward(_) =>
      s.(published := if works || reached then s.published + {msg} else s.published,
         workers := s.workers[w := Worker(msg, if works then Succeeded else Broken)])
    case SaveOrder(oid) =>
      s.(ledger := Ledger.Step(s.ledger, Ledger.SettleOrder(oid, works)),
         workers := s.workers[w := Worker(msg, if SettleOne(s.ledger.db, oid, works).1.Ok? then Succeeded else Broken)])
    case Unroutable => s.(workers := s.workers[w := Worker(msg, Broken)])
  }

  /** A worker reports completion only from stage Succeeded; a lost report makes it give up. */
  predicate Enabled(s: State, e: Event) {
    match e
    case Take(w, msg) => w !in s.workers && msg in s.ledger.db.tasks
    case Route(w, _, _) => w in s.workers && s.workers[w].stage == Taken && s.workers[w].msg in s.ledger.db.tasks
    case Report(w, _) => w in s.workers && s.workers[w].stage == Succeeded
    case GiveUp(w, _) => w in s.workers && s.workers[w].stage == Broken
    case Die(w) => w in s.workers
    case Database(_) => true
  }

  function Step(s: State, e: Event): State
    requires Enabled(s, e)
  {
    match e
    case Take(w, msg) => s.(workers := s.workers[w := Worker(msg, Taken)])
    case Route(w, works, reached) => RouteStep(s, w, works, reached)
    case Report(w, written) =>
      if written then s.(ledger := Mark(s.ledger, s.workers[w].msg, TaskCompleted), workers := s.workers - {w})
      else s.(workers := s.workers[w := s.workers[w].(stage := Broken)])
    case GiveUp(w, written) =>
      s.(ledger := if written then Mark(s.ledger, s.workers[w].msg, TaskFail) else s.ledger, workers := s.workers - {w})
    case Die(w) => s.(workers := s.workers - {w})
    case Database(e) => s.(ledger := Ledger.Step(s.ledger, e))
  }

  predicate ValidRun(s: State, es: seq<Event>)
    decreases |es|
  {
    es == [] || (Enabled(s, es[0]) && ValidRun(Step(s, es[0]), es[1..]))
  }

  function Run(s: State, es: seq<Event>): State
    requires ValidRun(s, es)
    decreases |es|
  {
    if es == [] then s else Run(Step(s, es[0]), es[1..])
  }

  // ---------------------------------------------------------------- invariant

  predicate Settled(db: Db, oid: OrderId) {
    oid in db.orders && db.orders[oid].sync == SyncCompleted
  }

  /** What a task asks for has happened. */
  predicate EffectDone(db: Db, published: set<MessageId>, msg: MessageId)
    requires msg in db.tasks
  {
    match db.tasks[msg].payload
    case SendAward(_) => msg in published
    case SaveOrder(oid) => Settled(db, oid)
    case Unroutable => false
  }

  ghost predicate Inv(s: State) {
    && (forall w :: w in s.workers ==> s.workers[w].msg in s.ledger.db.tasks)
    && (forall w :: w in s.workers && s.workers[w].stage == Succeeded ==>
          EffectDone(s.ledger.db, s.published, s.workers[w].msg))
    && (forall m :: m in s.ledger.db.tasks && s.ledger.db.tasks[m].state == TaskCompleted ==>
          EffectDone(s.ledger.db, s.published, m))
  }

  /** `later` has every task of `db` with the same payload, and every settled order still settled;
      a task that is new, or whose state is not the old one, is not completed. */
  ghost predicate Extends(db: Db, later: Db) {
    && (forall m :: m in db.tasks ==> m in later.tasks && later.tasks[m].payload == db.tasks[m].payload)
    && (forall o :: Settled(db, o) ==> Settled(later, o))
    && (forall m :: m in later.tasks && later.tasks[m].state == TaskCompleted ==>
          m in db.tasks && db.tasks[m].state == TaskCompleted)
  }

  lemma CommitExtends(db: Db, o: RaffleOrder, msg: MessageId, commits: bool)
    ensures Extends(db, SaveLite(db, o, msg, commits).0)
  {
  }

  lemma AwardExtends(db: Db, oid: OrderId, award: int, msg: MessageId, commits: bool)
    ensures Extends(db, SaveAward(db, oid, award, msg, commits).0)
  {
  }

  lemma SettleExtends(db: Db, oid: OrderId, commits: bool)
    ensures Extends(db, SettleOne(db, oid, commits).0)
    ensures SettleOne(db, oid, commits).1.Ok? ==> Settled(SettleOne(db, oid, commits).0, oid)
  {
  }

  lemma RechargeExtends(db: Db, number: BusinessNo, date: Date, a: Amounts, commits: bool)
    ensures Extends(db, QuotaStore.Recharge(db, number, date, a, commits).0)
  {
  }

  lemma LoadExtends(db: Db, today: Date, monthCreated: bool, dayCreated: bool)
    ensures Extends(db, QueryEntityUpTo(db, today, monthCreated, dayCreated).0)
  {
  }

  lemma DatabaseExtends(l: Ledger.State, e: Ledger.Event)
    ensures Extends(l.db, Ledger.Step(l, e).db)
  {
    match e
    case CommitOrder(o, msg, commits) => CommitExtends(l.db, o, msg, commits);
    case CommitAward(oid, award, msg, commits) => AwardExtends(l.db, oid, award, msg, commits);
    case SettleOrder(oid, commits) => SettleExtends(l.db, oid, commits);
    case RechargeAccount(number, date, amounts, commits) => RechargeExtends(l.db, number, date, amounts, commits);
    case LoadEntity(today, monthCreated, dayCreated) => LoadExtends(l.db, today, monthCreated, dayCreated);
  }

  lemma FailExtends(l: Ledger.State, msg: MessageId)
    ensures Extends(l.db, Mark(l, msg, TaskFail).db)
  {
  }

  lemma EffectLasts(db: Db, later: Db, published: set<MessageId>, more: set<MessageId>, msg: MessageId)
    requires Extends(db, later) && published <= more && msg in db.tasks && EffectDone(db, published, msg)
    ensures EffectDone(later, more, msg)
  {
  }

  /** Anything that extends the database and publishes more keeps the invariant, provided a worker that
      is newly in stage Succeeded has its effect done. */
  lemma ExtensionKeepsInv(s: State, s': State)
    requires Inv(s) && Extends(s.ledger.db, s'.ledger.db) && s.published <= s'.published
    requires forall w :: w in s'.workers ==> s'.workers[w].msg in s.ledger.db.tasks
    requires forall w :: w in s'.workers && s'.workers[w].stage == Succeeded ==>
               EffectDone(s'.ledger.db, s'.published, s'.workers[w].msg) || EffectDone(s.ledger.db, s.published, s'.workers[w].msg)
    ensures Inv(s')
  {
    forall m | m in s.ledger.db.tasks && EffectDone(s.ledger.db, s.published, m)
      ensures EffectDone(s'.ledger.db, s'.published, m)
    {
      EffectLasts(s.ledger.db, s'.ledger.db, s.published, s'.published, m);
    }
  }

  lemma RouteOrderKeepsInv(s: State, w: nat, oid: OrderId, works: bool, reached: bool)
    requires Inv(s) && Enabled(s, Route(w, works, reached))
    requires s.ledger.db.tasks[s.workers[w].msg].payload == SaveOrder(oid)
    ensures Inv(Step(s, Route(w, works, reached)))
  {
    var s' := Step(s, Route(w, works, reached));
    SettleExtends(s.ledger.db, oid, works);
    assert s'.ledger.db == SettleOne(s.ledger.db, oid, works).0;
    ExtensionKeepsInv(s, s');
  }

  lemma RouteKeepsInv(s: State, w: nat, works: bool, reached: bool)
    requires Inv(s) && Enabled(s, Route(w, works, reached))
    ensures Inv(Step(s, Route(w, works, reached)))
  {
    match s.ledger.db.tasks[s.workers[w].msg].payload
    case SaveOrder(oid) => RouteOrderKeepsInv(s, w, oid, works, reached);
    case _ => ExtensionKeepsInv(s, Step(s, Route(w, works, reached)));
  }

  lemma ReportKeepsInv(s: State, w: nat, written: bool)
    requires Inv(s) && Enabled(s, Report(w, written))
    ensures Inv(Step(s, Report(w, written)))
  {
    var msg := s.workers[w].msg;
    var s' := Step(s, Report(w, written));
    assert EffectDone(s.ledger.db, s.published, msg);
    forall m | m in s.ledger.db.tasks && EffectDone(s.ledger.db, s.published, m)
      ensures m in s'.ledger.db.tasks && EffectDone(s'.ledger.db, s'.published, m)
    {
    }
  }

  lemma StepKeepsInv(s: State, e: Event)
    requires Inv(s) && Enabled(s, e)
    ensures Inv(Step(s, e))
  {
    match e
    case Take(_, _) => ExtensionKeepsInv(s, Step(s, e));
    case Route(w, works, reached) => RouteKeepsInv(s, w, works, reached);
    case Report(w, written) => ReportKeepsInv(s, w, written);
    case GiveUp(w, _) =>
      FailExtends(s.ledger, s.workers[w].msg);
      ExtensionKeepsInv(s, Step(s, e));
    case Die(_) => ExtensionKeepsInv(s, Step(s, e));
    case Database(d) =>
      DatabaseExtends(s.ledger, d);
      ExtensionKeepsInv(s, Step(s, e));
  }

  /** Routing succeeds exactly if the message was published without an error, or its order is settled or was already;
      it publishes nothing but award messages, and touches the database for orders alone. */
  lemma RouteDoes(s: State, w: nat, works: bool, reached: bool)
    requires Enabled(s, Route(w, works, reached))
    ensures var (msg, s') := (s.workers[w].msg, Step(s, Route(w, works, reached)));
            && s'.workers.Keys == s.workers.Keys && s'.workers[w].msg == msg
            && match s.ledger.db.tasks[msg].payload
               case SendAward(_) =>
                 && (s'.workers[w].stage == Succeeded <==> works) && s'.ledger == s.ledger
                 && s'.published == s.published + if works || reached then {msg} else {}
               case SaveOrder(oid) =>
                 && (s'.workers[w].stage == Succeeded <==> SettleOne(s.ledger.db, oid, works).1.Ok?)
                 && s'.ledger.db == SettleOne(s.ledger.db, oid, works).0 && s'.published == s.published
               case Unroutable => s'.workers[w].stage == Broken && s'.ledger == s.ledger && s'.published == s.published
  {
  }

  /** A report that gets through completes its own task, giving up that gets through fails it, and no other task's
      state changes; without either the task stays as it is. */
  lemma ReportsMark(s: State, w: nat, written: bool)
    requires w in s.workers && s.workers[w].msg in s.ledger.db.tasks
    ensures var (tasks, msg) := (s.ledger.db.tasks, s.workers[w].msg);
            && (s.workers[w].stage == Succeeded ==>
                  Step(s, Report(w, written)).ledger.db.tasks
                  == if written then tasks[msg := tasks[msg].(state := TaskCompleted)] else tasks)
            && (s.workers[w].stage == Broken ==>
                  Step(s, GiveUp(w, written)).ledger.db.tasks
                  == if written then tasks[msg := tasks[msg].(state := TaskFail)] else tasks)
  {
  }

  lemma MarkKeepsSaveTasks(l: Ledger.State, msg: MessageId, state: TaskState)
    requires Ledger.SaveTasksMatch(l.db.orders.Keys, l.db.tasks, l.saveTask)
    ensures Ledger.SaveTasksMatch(l.db.orders.Keys, Mark(l, msg, state).db.tasks, l.saveTask)
  {
  }

  lemma MarkKeepsSendTasks(l: Ledger.State, msg: MessageId, state: TaskState)
    requires Ledger.SendTasksMatch(l.db.records, l.db.tasks, l.sendTask, l.sentFor)
    ensures Ledger.SendTasksMatch(l.db.records, Mark(l, msg, state).db.tasks, l.sendTask, l.sentFor)
  {
  }

  /** No ledger invariant looks at the state of a task. */
  lemma MarkKeepsLedger(l: Ledger.State, msg: MessageId, state: TaskState)
    requires Ledger.Inv(l)
    ensures Ledger.Inv(Mark(l, msg, state))
  {
    MarkKeepsSaveTasks(l, msg, state);
    MarkKeepsSendTasks(l, msg, state);
  }

  lemma StepKeepsLedger(s: State, e: Event)
    requires Ledger.Inv(s.ledger) && Enabled(s, e)
    ensures Ledger.Inv(Step(s, e).ledger)
  {
    match e
    case Route(w, works, _) =>
      var payload := s.ledger.db.tasks[s.workers[w].msg].payload;
      if payload.SaveOrder? { Ledger.StepKeepsInv(s.ledger, Ledger.SettleOrder(payload.order, works)); }
    case Report(w, _) => MarkKeepsLedger(s.ledger, s.workers[w].msg, TaskCompleted);
    case GiveUp(w, _) => MarkKeepsLedger(s.ledger, s.workers[w].msg, TaskFail);
    case Database(d) => Ledger.StepKeepsInv(s.ledger, d);
    case _ =>
  }

  lemma {:induction false} RunKeepsInv(s: State, es: seq<Event>)
    requires Inv(s) && Ledger.Inv(s.ledger) && ValidRun(s, es)
    ensures Inv(Run(s, es)) && Ledger.Inv(Run(s, es).ledger)
    decreases |es|
  {
    if es != [] {
      StepKeepsInv(s, es[0]);
      StepKeepsLedger(s, es[0]);
      RunKeepsInv(Step(s, es[0]), es[1..]);
    }
  }

  // ---------------------------------------------------------------- what it means

  /** Main result: however dispatchers overlap and overwrite each other's states, a task in state
      completed has had its effect, and a message nobody can route is never completed. */
  lemma CompletedMeansDone(es: seq<Event>, msg: MessageId)
    requires ValidRun(INIT, es)
    requires msg in Run(INIT, es).ledger.db.tasks && Run(INIT, es).ledger.db.tasks[msg].state == TaskCompleted
    ensures EffectDone(Run(INIT, es).ledger.db, Run(INIT, es).published, msg)
  {
    RunKeepsInv(INIT, es);
  }

  /** Nothing is forgotten: an order not yet charged still has its own task, open for another try; a
      recorded award whose message never went out likewise. */
  lemma UndoneIsStillQueued(es: seq<Event>, oid: OrderId)
    requires ValidRun(INIT, es)
    ensures var s := Run(INIT, es);
            oid in s.ledger.db.orders && !Settled(s.ledger.db, oid) ==>
              exists m :: m in s.ledger.db.tasks && s.ledger.db.tasks[m].payload == SaveOrder(oid) && s.ledger.db.tasks[m].state != TaskCompleted
    ensures var s := Run(INIT, es);
            oid in s.ledger.db.records ==>
              exists m :: m in s.ledger.db.tasks && s.ledger.db.tasks[m].payload == SendAward(s.ledger.db.records[oid])
                       && m in s.ledger.sentFor && s.ledger.sentFor[m] == oid && (m in s.published || s.ledger.db.tasks[m].state != TaskCompleted)
  {
    RunKeepsInv(INIT, es);
    var s := Run(INIT, es);
    if oid in s.ledger.db.orders {
      assert s.ledger.saveTask[oid] in s.ledger.db.tasks;
    }
    if oid in s.ledger.db.records {
      assert s.ledger.sendTask[oid] in s.ledger.db.tasks;
    }
  }

  /** Once the outbox is worked off, the account is charged for every order there is, exactly once. */
  lemma WorkedOffMeansAllCharged(es: seq<Event>)
    requires ValidRun(INIT, es)
    requires forall m :: m in Run(INIT, es).ledger.db.tasks ==> Run(INIT, es).ledger.db.tasks[m].state == TaskCompleted
    ensures Ledger.PartakeCount(Run(INIT, es).ledger.db) == |Run(INIT, es).ledger.db.orders|
  {
    RunKeepsInv(INIT, es);
    AllOrdersSettled(Run(INIT, es));
    AllCharged(Run(INIT, es).ledger);
  }

  lemma AllOrdersSettled(s: State)
    requires Inv(s) && Ledger.SaveTasksMatch(s.ledger.db.orders.Keys, s.ledger.db.tasks, s.ledger.saveTask)
    requires forall m :: m in s.ledger.db.tasks ==> s.ledger.db.tasks[m].state == TaskCompleted
    ensures forall o :: o in s.ledger.db.orders ==> Settled(s.ledger.db, o)
  {
    forall o | o in s.ledger.db.orders ensures Settled(s.ledger.db, o) { OrderIsSettled(s, o); }
  }

  lemma AllCharged(l: Ledger.State)
    requires Ledger.AccountBalances(l.db.account, Ledger.Completed(l.db.orders, Ledger.Ever), l.credits)
    requires forall o :: o in l.db.orders ==> Settled(l.db, o)
    ensures Ledger.PartakeCount(l.db) == |l.db.orders|
  {
    AllCompleted(l.db);
  }

  lemma OrderIsSettled(s: State, o: OrderId)
    requires Inv(s) && Ledger.SaveTasksMatch(s.ledger.db.orders.Keys, s.ledger.db.tasks, s.ledger.saveTask)
    requires o in s.ledger.db.orders
    requires forall m :: m in s.ledger.db.tasks ==> s.ledger.db.tasks[m].state == TaskCompleted
    ensures Settled(s.ledger.db, o)
  {
    assert EffectDone(s.ledger.db, s.published, s.ledger.saveTask[o]);
  }

  lemma AllCompleted(db: Db)
    requires forall o :: o in db.orders ==> Settled(db, o)
    ensures |Ledger.Completed(db.orders, Ledger.Ever)| == |db.orders|
  {
    assert db.orders.Keys == Ledger.Completed(db.orders, Ledger.Ever);
    assert |db.orders| == |db.orders.Keys|;
  }

  // ---------------------------------------------------------------- the dispatcher itself

  lemma {:induction false} Snoc(s: State, es: seq<Event>, e: Event)
    requires ValidRun(s, es) && Enabled(Run(s, es), e)
    ensures ValidRun(s, es + [e]) && Run(s, es + [e]) == Step(Run(s, es), e)
    decreases |es|
  {
    if es == [] {
      assert (es + [e])[1..] == [];
    } else {
      assert (es + [e])[1..] == es[1..] + [e];
      Snoc(Step(s, es[0]), es[1..], e);
    }
  }

  class SendAwardMessage {
    const shard: Repository.Shard
    var published: set<MessageId>

    constructor (shard: Repository.Shard)
      ensures this.shard == shard && published == {}
    {
      this.shard := shard;
      published := {};
    }

    ghost predicate Shows(s: State)
      reads this, shard
    {
      shard.Value() == s.ledger.db && published == s.published
    }

    /** routeTaskByTopic: publish, or settle the order, or refuse the topic. */
    method RouteTaskByTopic(ghost s: State, ghost w: nat, msg: MessageId, works: bool, reached: bool) returns (ok: bool)
      requires Shows(s) && Enabled(s, Route(w, works, reached)) && s.workers[w].msg == msg
      modifies this, shard
      ensures Shows(Step(s, Route(w, works, reached)))
      ensures Step(s, Route(w, works, reached)).workers == s.workers[w := Worker(msg, if ok then Succeeded else Broken)]
    {
      match shard.tasks[msg].payload
      case SendAward(_) =>
        if works || reached { published := published + {msg}; }
        ok := works;
      case SaveOrder(oid) =>
        var r := shard.SettleOrder(oid, works);
        ok := r.Ok?;
      case Unroutable =>
        ok := false;
    }

    method MarkFailed(ghost s: State, ghost w: nat, msg: MessageId, written: bool)
      requires Shows(s) && Enabled(s, GiveUp(w, written)) && s.workers[w].msg == msg
      modifies shard
      ensures Shows(Step(s, GiveUp(w, written)))
    {
      var _ := shard.UpdateTaskState(msg, TaskFail, written);
    }

    method MarkCompleted(ghost s: State, ghost w: nat, msg: MessageId, written: bool) returns (ok: bool)
      requires Shows(s) && Enabled(s, Report(w, written)) && s.workers[w].msg == msg
      modifies shard
      ensures ok == written && Shows(Step(s, Report(w, written)))
    {
      ok := shard.UpdateTaskState(msg, TaskCompleted, written);
    }

    /** dispatchSingleTask, uninterrupted: a run of the machine that leaves no worker behind. */
    method DispatchSingleTask(ghost s: State, ghost w: nat, msg: MessageId, works: bool, reached: bool,
                              completedWritten: bool, failWritten: bool) returns (ghost es: seq<Event>)
      requires Shows(s) && w !in s.workers && msg in s.ledger.db.tasks
      modifies this, shard
      ensures ValidRun(s, es) && Shows(Run(s, es)) && Run(s, es).workers == s.workers
      ensures es == [Take(w, msg), Route(w, works, reached), GiveUp(w, failWritten)]
           || es == [Take(w, msg), Route(w, works, reached), Report(w, false), GiveUp(w, failWritten)]
           || es == [Take(w, msg), Route(w, works, reached), Report(w, true)]
    {
      ghost var taken := Step(s, Take(w, msg));
      var ok := RouteTaskByTopic(taken, w, msg, works, reached);
      ghost var now := Step(taken, Route(w, works, reached));
      es := [Take(w, msg), Route(w, works, reached)];
      RunTwo(s, es[0], es[1]);
      if ok {
        var reported := MarkCompleted(now, w, msg, completedWritten);
        Snoc(s, es, Report(w, completedWritten));
        es := es + [Report(w, completedWritten)];
        now := Step(now, Report(w, completedWritten));
        if reported { return; }
      }
      MarkFailed(now, w, msg, failWritten);
      Snoc(s, es, GiveUp(w, failWritten));
      es := es + [GiveUp(w, failWritten)];
    }
  }

  lemma RunTwo(s: State, e1: Event, e2: Event)
    requires Enabled(s, e1) && Enabled(Step(s, e1), e2)
    ensures ValidRun(s, [e1, e2]) && Run(s, [e1, e2]) == Step(Step(s, e1), e2)
  {
    assert ValidRun(s, []) && Run(s, []) == s;
    Snoc(s, [], e1);
    Snoc(s, [] + [e1], e2);
    assert [] + [e1] + [e2] == [e1, e2];
  }
}
