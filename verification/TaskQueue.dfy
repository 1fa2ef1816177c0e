/** The retry scheduler of the outbox: a scan of one shard's task table picks at most ten tasks,
    failed ones first and oldest first, and each of them is dispatched and its row touched. */
module TaskQueue {
  import opened Collections
  import opened QuotaStore

  type TaskId = nat

  datatype Row = Row(state: TaskState, updated: int)

  type Table = map<TaskId, Row>

  const LIMIT := 10

  /** Six minutes, in the seconds of the update_time column. */
  const TIMEOUT := 360

  // ---------------------------------------------------------------- the scan

  /** ORDER BY update_time, id. */
  predicate Precedes(t: Table, a: TaskId, b: TaskId)
    requires a in t && b in t
  {
    t[a].updated < t[b].updated || (t[a].updated == t[b].updated && a < b)
  }

  predicate IsFirst(t: Table, ids: set<TaskId>, first: TaskId)
    requires ids <= t.Keys
  {
    first in ids && forall i :: i in ids && i != first ==> Precedes(t, first, i)
  }

  lemma {:induction false} FirstExists(t: Table, ids: set<TaskId>)
    requires ids <= t.Keys && ids != {}
    ensures exists first :: IsFirst(t, ids, first)
    decreases |ids|
  {
    if forall x: TaskId :: x !in ids { assert false; }
    var x :| x in ids;
    var rest := ids - {x};
    assert forall i :: i in ids ==> i == x || i in rest;
    if rest == {} {
      assert forall i :: i in ids ==> i !in rest;
      assert IsFirst(t, ids, x);
    } else {
      assert |rest| < |ids|;
      FirstExists(t, rest);
      var y :| IsFirst(t, rest, y);
      var first := if Precedes(t, x, y) then x else y;
      assert first in ids;
      assert IsFirst(t, ids, first);
    }
  }

  /** The first `n` of the rows `ids`, in order. */
  function Oldest(t: Table, ids: set<TaskId>, n: nat): (found: seq<TaskId>)
    requires ids <= t.Keys
    ensures forall i :: i in found ==> i in ids
  {
    if n == 0 || ids == {} then []
    else
      FirstExists(t, ids);
      var first :| IsFirst(t, ids, first);
      [first] + Oldest(t, ids - {first}, n - 1)
  }

  function Failed(t: Table): set<TaskId> {
    set i | i in t && t[i].state == TaskFail
  }

  function TimedOut(t: Table, now: int): set<TaskId> {
    set i | i in t && t[i].state == TaskCreate && t[i].updated < now - TIMEOUT
  }

  /** QueryNoSendMessageTaskList. */
  function Scan(t: Table, now: int): (found: seq<TaskId>)
    ensures forall i :: i in found ==> i in t
  {
    var failed := Oldest(t, Failed(t), LIMIT);
    if |failed| < LIMIT then failed + Oldest(t, TimedOut(t, now), LIMIT - |failed|) else failed
  }

  // ---------------------------------------------------------------- what a scan selects

  /** The rows of `ids` in front of `id`. */
  function Ahead(t: Table, ids: set<TaskId>, id: TaskId): set<TaskId>
    requires ids <= t.Keys && id in t
  {
    set i | i in ids && Precedes(t, i, id)
  }

  lemma {:induction false} OldestIff(t: Table, ids: set<TaskId>, n: nat, id: TaskId)
    requires ids <= t.Keys && id in ids
    ensures id in Oldest(t, ids, n) <==> |Ahead(t, ids, id)| < n
    decreases n
  {
    if n > 0 {
      var first := Oldest(t, ids, n)[0];
      assert IsFirst(t, ids, first);
      if id == first {
        assert Ahead(t, ids, id) == {};
      } else {
        OldestIff(t, ids - {first}, n - 1, id);
        assert Ahead(t, ids, id) == Ahead(t, ids - {first}, id) + {first};
      }
    }
  }

  lemma {:induction false} OldestIsFull(t: Table, ids: set<TaskId>, n: nat)
    requires ids <= t.Keys
    ensures |Oldest(t, ids, n)| == (if |ids| < n then |ids| else n) && Distinct(Oldest(t, ids, n))
    decreases n
  {
    if n > 0 && ids != {} {
      OldestIsFull(t, ids - {Oldest(t, ids, n)[0]}, n - 1);
    }
  }

  /** Exactly which tasks a scan picks: a failed one with fewer than ten failed ones ahead of it, and a
      timed-out one only if the failed ones and the timed-out ones ahead of it leave it a slot. */
  lemma ScanIff(t: Table, now: int, id: TaskId)
    ensures id in Scan(t, now) <==> FailedInTurn(t, id) || TimedOutInTurn(t, now, id)
  {
    if id in Failed(t) {
      ScanIffFailed(t, now, id);
    } else if id in TimedOut(t, now) {
      ScanIffTimedOut(t, now, id);
    }
  }

  predicate FailedInTurn(t: Table, id: TaskId) {
    id in Failed(t) && |Ahead(t, Failed(t), id)| < LIMIT
  }

  predicate TimedOutInTurn(t: Table, now: int, id: TaskId) {
    id in TimedOut(t, now) && |Failed(t)| + |Ahead(t, TimedOut(t, now), id)| < LIMIT
  }

  lemma ScanIffFailed(t: Table, now: int, id: TaskId)
    requires id in Failed(t)
    ensures id in Scan(t, now) <==> FailedInTurn(t, id)
  {
    OldestIff(t, Failed(t), LIMIT, id);
    assert id !in TimedOut(t, now);
  }

  lemma ScanIffTimedOut(t: Table, now: int, id: TaskId)
    requires id in TimedOut(t, now)
    ensures id in Scan(t, now) <==> TimedOutInTurn(t, now, id)
  {
    var failed := Oldest(t, Failed(t), LIMIT);
    assert id !in failed;
    OldestIsFull(t, Failed(t), LIMIT);
    if |Failed(t)| < LIMIT {
      var free := LIMIT - |Failed(t)|;
      assert |failed| == |Failed(t)|;
      assert Scan(t, now) == failed + Oldest(t, TimedOut(t, now), free);
      OldestIff(t, TimedOut(t, now), free, id);
    } else {
      assert Scan(t, now) == failed;
    }
  }

  /** No scan picks more than ten tasks, or any twice. */
  lemma ScanIsBounded(t: Table, now: int)
    ensures |Scan(t, now)| <= LIMIT && Distinct(Scan(t, now))
  {
    var failed := Oldest(t, Failed(t), LIMIT);
    OldestIsFull(t, Failed(t), LIMIT);
    if |failed| < LIMIT {
      var timedOut := Oldest(t, TimedOut(t, now), LIMIT - |failed|);
      OldestIsFull(t, TimedOut(t, now), LIMIT - |failed|);
      assert forall i :: i in timedOut ==> i !in Failed(t);
      JoinDistinct(failed, timedOut);
    }
  }

  /** A scan with a free slot left out nothing that was due. */
  lemma ScanFillsUp(t: Table, now: int, id: TaskId)
    requires |Scan(t, now)| < LIMIT && (id in Failed(t) || id in TimedOut(t, now))
    ensures id in Scan(t, now)
  {
    OldestIsFull(t, Failed(t), LIMIT);
    if id in Failed(t) {
      AheadIsSmaller(t, Failed(t), id);
      ScanIffFailed(t, now, id);
    } else {
      OldestIsFull(t, TimedOut(t, now), LIMIT - |Failed(t)|);
      AheadIsSmaller(t, TimedOut(t, now), id);
      ScanIffTimedOut(t, now, id);
    }
  }

  lemma AheadIsSmaller(t: Table, ids: set<TaskId>, id: TaskId)
    requires ids <= t.Keys && id in t
    ensures |Ahead(t, ids, id)| <= |ids| && (id in ids ==> |Ahead(t, ids, id)| < |ids|)
  {
    SubsetSize(Ahead(t, ids, id), ids);
    if id in ids { SubsetSize(Ahead(t, ids, id), ids - {id}); }
  }

  // ---------------------------------------------------------------- runs

  /** How a dispatch ends for the row: marked completed, marked failed, or neither update went through. */
  datatype Outcome = MarkedCompleted | MarkedFailed | Lost

  datatype Event =
    | StartScan                               // ProcessTask queries the shard
    | Finish(id: TaskId, outcome: Outcome)    // one dispatched task ends
    | Foreign(id: TaskId, state: TaskState)   // anyone else updates a row
    | Insert(id: TaskId)                      // a transaction writes a new task
    | Tick

  datatype State = State(table: Table, now: int, inHand: set<TaskId>)

  /** UPDATE task SET state, update_time = now. */
  function Touch(t: Table, id: TaskId, state: TaskState, now: int): Table {
    if id in t then t[id := Row(state, now)] else t
  }

  function Finished(t: Table, id: TaskId, outcome: Outcome, now: int): Table {
    match outcome
    case MarkedCompleted => Touch(t, id, TaskCompleted, now)
    case MarkedFailed => Touch(t, id, TaskFail, now)
    case Lost => t
  }

  /** The next scan of a shard starts when every task of the one before has ended. */
  predicate Enabled(s: State, e: Event) {
    match e
    case StartScan => s.inHand == {}
    case Finish(id, _) => id in s.inHand
    case Insert(id) => id !in s.table
    case _ => true
  }

  function Step(s: State, e: Event): State {
    match e
    case StartScan => s.(inHand := set i | i in Scan(s.table, s.now))
    case Finish(id, outcome) => s.(table := Finished(s.table, id, outcome, s.now), inHand := s.inHand - {id})
    case Foreign(id, state) => s.(table := Touch(s.table, id, state, s.now))
    case Insert(id) => s.(table := s.table[id := Row(TaskCreate, s.now)])
    case Tick => s.(now := s.now + 1)
  }

  function Run(s: State, es: seq<Event>): State
    decreases |es|
  {
    if es == [] then s else Run(Step(s, es[0]), es[1..])
  }

  function Scans(es: seq<Event>): nat {
    if es == [] then 0 else (if es[0].StartScan? then 1 else 0) + Scans(es[1..])
  }

  function Losses(es: seq<Event>): nat {
    if es == [] then 0 else (if IsLoss(es[0]) then 1 else 0) + Losses(es[1..])
  }

  predicate IsLoss(e: Event) {
    e.Finish? && e.outcome.Lost?
  }

  // ---------------------------------------------------------------- no failed task waits for long

  /** Neither selected nor touched by anyone else. */
  predicate Spares(s: State, e: Event, id: TaskId) {
    match e
    case StartScan => id !in Scan(s.table, s.now)
    case Foreign(i, _) => i != id
    case _ => true
  }

  /** A valid run in which every scan passes `id` over. */
  predicate PassedOver(s: State, es: seq<Event>, id: TaskId)
    decreases |es|
  {
    es == [] || (Enabled(s, es[0]) && Spares(s, es[0], id) && PassedOver(Step(s, es[0]), es[1..], id))
  }

  /** Failed, not in hand, and the clock has moved on since it failed. */
  predicate Waits(s: State, id: TaskId) {
    id in s.table && s.table[id].state == TaskFail && s.table[id].updated < s.now && id !in s.inHand
  }

  /** The failed tasks ahead that are not already being dispatched. */
  function Queue(s: State, id: TaskId): set<TaskId>
    requires id in s.table
  {
    Ahead(s.table, Failed(s.table), id) - s.inHand
  }

  lemma ScanShortensQueue(s: State, id: TaskId)
    requires Waits(s, id) && s.inHand == {} && id !in Scan(s.table, s.now)
    ensures |Queue(Step(s, StartScan), id)| == |Queue(s, id)| - LIMIT
  {
    var t := s.table;
    var ahead := Ahead(t, Failed(t), id);
    ScanIff(t, s.now, id);
    AheadIsSmaller(t, Failed(t), id);
    OldestIsFull(t, Failed(t), LIMIT);
    var picked := Oldest(t, Failed(t), LIMIT);
    assert Scan(t, s.now) == picked;
    var inHand := set i | i in picked;
    SizeOfElements(picked, inHand);
    forall i | i in picked ensures i in ahead { PickedAreAhead(t, Failed(t), LIMIT, id, i); }
    assert ahead == (ahead - inHand) + inHand;
    assert Queue(s, id) == ahead;
  }

  /** Touching a row now takes it out of the queue of a task that failed earlier; nothing can jump in. */
  lemma TouchKeepsQueue(t: Table, i: TaskId, state: TaskState, now: int, id: TaskId)
    requires id in t && t[id].updated < now && i != id
    ensures Ahead(Touch(t, i, state, now), Failed(Touch(t, i, state, now)), id) == Ahead(t, Failed(t), id) - {i}
  {
  }

  lemma InsertKeepsQueue(t: Table, i: TaskId, now: int, id: TaskId)
    requires id in t && i !in t
    ensures Ahead(t[i := Row(TaskCreate, now)], Failed(t[i := Row(TaskCreate, now)]), id) == Ahead(t, Failed(t), id)
  {
  }

  lemma LossKeepsQueue(s: State, i: TaskId, id: TaskId)
    requires id in s.table
    ensures |Queue(Step(s, Finish(i, Lost)), id)| <= |Queue(s, id)| + 1
  {
    SubsetSize(Queue(Step(s, Finish(i, Lost)), id), Queue(s, id) + {i});
  }

  lemma EndedKeepsQueue(s: State, i: TaskId, outcome: Outcome, id: TaskId)
    requires Waits(s, id) && i in s.inHand && !outcome.Lost?
    ensures Queue(Step(s, Finish(i, outcome)), id) == Queue(s, id)
  {
    TouchKeepsQueue(s.table, i, if outcome.MarkedFailed? then TaskFail else TaskCompleted, s.now, id);
  }

  lemma ForeignKeepsQueue(s: State, i: TaskId, state: TaskState, id: TaskId)
    requires Waits(s, id) && i != id
    ensures |Queue(Step(s, Foreign(i, state)), id)| <= |Queue(s, id)|
  {
    TouchKeepsQueue(s.table, i, state, s.now, id);
    SubsetSize(Queue(Step(s, Foreign(i, state)), id), Queue(s, id));
  }

  lemma StepKeepsWaiting(s: State, e: Event, id: TaskId)
    requires Waits(s, id) && Enabled(s, e) && Spares(s, e, id)
    ensures Waits(Step(s, e), id)
  {
  }

  lemma StepShortensQueue(s: State, e: Event, id: TaskId)
    requires Waits(s, id) && Enabled(s, e) && Spares(s, e, id)
    ensures id in Step(s, e).table
    ensures |Queue(Step(s, e), id)| + (if e.StartScan? then LIMIT else 0) <= |Queue(s, id)| + (if IsLoss(e) then 1 else 0)
  {
    match e
    case StartScan => ScanShortensQueue(s, id);
    case Finish(i, outcome) => if outcome.Lost? { LossKeepsQueue(s, i, id); } else { EndedKeepsQueue(s, i, outcome, id); }
    case Foreign(i, state) => ForeignKeepsQueue(s, i, state, id);
    case Insert(i) => InsertKeepsQueue(s.table, i, s.now, id);
    case Tick =>
  }

  lemma {:induction false} RunShortensQueue(s: State, es: seq<Event>, id: TaskId)
    requires Waits(s, id) && PassedOver(s, es, id)
    ensures LIMIT * Scans(es) <= |Queue(s, id)| + Losses(es)
    decreases |es|
  {
    if es != [] {
      StepKeepsWaiting(s, es[0], id);
      StepShortensQueue(s, es[0], id);
      RunShortensQueue(Step(s, es[0]), es[1..], id);
    }
  }

  predicate ValidRun(s: State, es: seq<Event>)
    decreases |es|
  {
    es == [] || (Enabled(s, es[0]) && ValidRun(Step(s, es[0]), es[1..]))
  }

  /** Nobody but a dispatcher updates the task. */
  predicate Untouched(es: seq<Event>, id: TaskId) {
    forall i :: 0 <= i < |es| ==> !(es[i].Foreign? && es[i].id == id)
  }

  /** Event `i` of the run is a scan that picks the task. */
  predicate PickedAt(s: State, es: seq<Event>, i: nat, id: TaskId) {
    i < |es| && es[i].StartScan? && id in Scan(Run(s, es[..i]).table, Run(s, es[..i]).now)
  }

  /** A valid run that does not pass an untouched task over has a scan that picks it. */
  lemma {:induction false} PickedOrPassedOver(s: State, es: seq<Event>, id: TaskId)
    requires ValidRun(s, es) && Untouched(es, id) && !PassedOver(s, es, id)
    ensures exists i: nat :: PickedAt(s, es, i, id)
    decreases |es|
  {
    if Spares(s, es[0], id) {
      var s', rest := Step(s, es[0]), es[1..];
      assert forall j :: 0 <= j < |rest| ==> rest[j] == es[j + 1];
      PickedOrPassedOver(s', rest, id);
      var i: nat :| PickedAt(s', rest, i, id);
      assert es[..i + 1][1..] == rest[..i];
      assert PickedAt(s, es, i + 1, id);
    } else {
      assert es[..0] == [];
      assert PickedAt(s, es, 0, id);
    }
  }

  /** Main result: with the clock past its own failure, a failed task with k failed tasks ahead of it is
      picked within floor((k + l) / 10) + 1 scans, l being the dispatches whose row updates were lost,
      whatever else is inserted, failed or updated meanwhile. Without losses, floor(k / 10) + 1. */
  lemma DispatchedInTime(s: State, es: seq<Event>, id: TaskId)
    requires Waits(s, id) && ValidRun(s, es) && Untouched(es, id)
    requires Scans(es) >= (|Ahead(s.table, Failed(s.table), id)| + Losses(es)) / LIMIT + 1
    ensures exists i: nat :: PickedAt(s, es, i, id)
  {
    SubsetSize(Queue(s, id), Ahead(s.table, Failed(s.table), id));
    NotPassedOver(s, es, id);
    PickedOrPassedOver(s, es, id);
  }

  lemma NotPassedOver(s: State, es: seq<Event>, id: TaskId)
    requires Waits(s, id) && LIMIT * Scans(es) > |Queue(s, id)| + Losses(es)
    ensures !PassedOver(s, es, id)
  {
    if PassedOver(s, es, id) { RunShortensQueue(s, es, id); }
  }

  // ---------------------------------------------------------------- how long a new task waits

  /** A task in state create that has timed out and is not in hand. */
  predicate WaitsDue(s: State, id: TaskId) {
    id in s.table && s.table[id].state == TaskCreate && s.table[id].updated < s.now - TIMEOUT && id !in s.inHand
  }

  function CreatedAhead(t: Table, id: TaskId): set<TaskId>
    requires id in t
  {
    set i | i in t && t[i].state == TaskCreate && Precedes(t, i, id)
  }

  /** What a timed-out task stands behind: every failed task and the older created ones, but not those in hand. */
  function InFront(s: State, id: TaskId): set<TaskId>
    requires id in s.table
  {
    (Failed(s.table) + CreatedAhead(s.table, id)) - s.inHand
  }

  lemma {:induction false} PickedAreAhead(t: Table, ids: set<TaskId>, n: nat, id: TaskId, i: TaskId)
    requires ids <= t.Keys && id in ids && id !in Oldest(t, ids, n) && i in Oldest(t, ids, n)
    ensures i in Ahead(t, ids, id)
  {
    OldestIff(t, ids, n, id);
    OldestIff(t, ids, n, i);
    if i !in Ahead(t, ids, id) { SubsetSize(Ahead(t, ids, id), Ahead(t, ids, i)); }
  }

  lemma DueIsBehindCreated(s: State, id: TaskId)
    requires WaitsDue(s, id)
    ensures id in TimedOut(s.table, s.now) && Ahead(s.table, TimedOut(s.table, s.now), id) == CreatedAhead(s.table, id)
  {
  }

  /** A scan that passes a timed-out task over takes ten tasks from in front of it. */
  lemma FullScanIsBefore(s: State, id: TaskId)
    requires WaitsDue(s, id) && s.inHand == {} && id !in Scan(s.table, s.now)
    ensures |Scan(s.table, s.now)| == LIMIT
    ensures forall i :: i in Scan(s.table, s.now) ==> i in InFront(s, id)
  {
    var t := s.table;
    var failed := Oldest(t, Failed(t), LIMIT);
    DueIsBehindCreated(s, id);
    ScanIffTimedOut(t, s.now, id);
    OldestIsFull(t, Failed(t), LIMIT);
    if |failed| < LIMIT {
      var free := LIMIT - |failed|;
      var more := Oldest(t, TimedOut(t, s.now), free);
      OldestIsFull(t, TimedOut(t, s.now), free);
      AheadIsSmaller(t, TimedOut(t, s.now), id);
      assert Scan(t, s.now) == failed + more;
      forall i | i in more ensures i in CreatedAhead(t, id) { PickedAreAhead(t, TimedOut(t, s.now), free, id, i); }
    }
  }

  lemma ScanShortensBefore(s: State, id: TaskId)
    requires WaitsDue(s, id) && s.inHand == {} && id !in Scan(s.table, s.now)
    ensures |InFront(Step(s, StartScan), id)| == |InFront(s, id)| - LIMIT
  {
    FullScanIsBefore(s, id);
    ScanIsBounded(s.table, s.now);
    var inHand := set i | i in Scan(s.table, s.now);
    SizeOfElements(Scan(s.table, s.now), inHand);
    assert InFront(s, id) == (InFront(s, id) - inHand) + inHand;
    assert InFront(Step(s, StartScan), id) == InFront(s, id) - inHand;
  }

  /** The events that can put one more task in front: a lost update, or a task marked failed. */
  predicate IsSetback(e: Event) {
    (e.Finish? && !e.outcome.MarkedCompleted?) || (e.Foreign? && e.state == TaskFail)
  }

  function Setbacks(es: seq<Event>): nat {
    if es == [] then 0 else (if IsSetback(es[0]) then 1 else 0) + Setbacks(es[1..])
  }

  lemma TouchKeepsBefore(t: Table, i: TaskId, state: TaskState, now: int, id: TaskId)
    requires id in t && t[id].updated < now && i != id
    ensures CreatedAhead(Touch(t, i, state, now), id) == CreatedAhead(t, id) - {i}
    ensures Failed(Touch(t, i, state, now)) <= Failed(t) - {i} + (if state == TaskFail then {i} else {})
  {
  }

  lemma FrontGrowsByOne(f: set<TaskId>, c: set<TaskId>, f': set<TaskId>, c': set<TaskId>,
                        inHand: set<TaskId>, inHand': set<TaskId>, i: TaskId, more: set<TaskId>)
    requires c' == c - {i} && f' <= f - {i} + more && (inHand' == inHand || inHand' == inHand - {i})
    ensures (f' + c') - inHand' <= ((f + c) - inHand) + more
  {
  }

  lemma TouchStepKeepsFront(s: State, s': State, i: TaskId, state: TaskState, id: TaskId)
    requires WaitsDue(s, id) && i != id && (s'.inHand == s.inHand || s'.inHand == s.inHand - {i})
    requires s'.table == Touch(s.table, i, state, s.now)
    ensures id in s'.table && InFront(s', id) <= InFront(s, id) + (if state == TaskFail then {i} else {})
  {
    TouchKeepsBefore(s.table, i, state, s.now, id);
    FrontGrowsByOne(Failed(s.table), CreatedAhead(s.table, id), Failed(s'.table), CreatedAhead(s'.table, id),
                    s.inHand, s'.inHand, i, if state == TaskFail then {i} else {});
  }

  lemma TouchStepKeepsBefore(s: State, s': State, i: TaskId, state: TaskState, id: TaskId)
    requires WaitsDue(s, id) && i != id && (s'.inHand == s.inHand || s'.inHand == s.inHand - {i})
    requires s'.table == Touch(s.table, i, state, s.now)
    ensures id in s'.table && |InFront(s', id)| <= |InFront(s, id)| + (if state == TaskFail then 1 else 0)
  {
    TouchStepKeepsFront(s, s', i, state, id);
    if state == TaskFail {
      AtMostOneMore(InFront(s', id), InFront(s, id), i);
    } else {
      SubsetSize(InFront(s', id), InFront(s, id));
    }
  }

  lemma LossKeepsBefore(s: State, i: TaskId, id: TaskId)
    requires WaitsDue(s, id)
    ensures |InFront(Step(s, Finish(i, Lost)), id)| <= |InFront(s, id)| + 1
  {
    SubsetSize(InFront(Step(s, Finish(i, Lost)), id), InFront(s, id) + {i});
  }

  lemma InsertKeepsBefore(s: State, i: TaskId, id: TaskId)
    requires WaitsDue(s, id) && i !in s.table
    ensures InFront(Step(s, Insert(i)), id) == InFront(s, id)
  {
  }

  lemma OtherStepsKeepBefore(s: State, e: Event, id: TaskId)
    requires WaitsDue(s, id) && Enabled(s, e) && Spares(s, e, id) && !e.StartScan?
    ensures WaitsDue(Step(s, e), id)
    ensures |InFront(Step(s, e), id)| <= |InFront(s, id)| + (if IsSetback(e) then 1 else 0)
  {
    match e
    case Finish(i, MarkedCompleted) => TouchStepKeepsBefore(s, Step(s, e), i, TaskCompleted, id);
    case Finish(i, MarkedFailed) => TouchStepKeepsBefore(s, Step(s, e), i, TaskFail, id);
    case Finish(i, Lost) => LossKeepsBefore(s, i, id);
    case Foreign(i, state) => TouchStepKeepsBefore(s, Step(s, e), i, state, id);
    case Insert(i) => InsertKeepsBefore(s, i, id);
    case Tick => assert InFront(Step(s, Tick), id) == InFront(s, id);
  }

  lemma {:induction false} RunShortensBefore(s: State, es: seq<Event>, id: TaskId)
    requires WaitsDue(s, id) && PassedOver(s, es, id)
    ensures LIMIT * Scans(es) <= |InFront(s, id)| + Setbacks(es)
    decreases |es|
  {
    if es != [] {
      if es[0].StartScan? { ScanShortensBefore(s, id); } else { OtherStepsKeepBefore(s, es[0], id); }
      RunShortensBefore(Step(s, es[0]), es[1..], id);
    }
  }

  /** A timed-out task with k failed tasks and m older created ones in the table is picked within
      floor((k + m + f) / 10) + 1 scans, f being the dispatches lost or ending in failure, and the tasks
      failed by others, meanwhile. */
  lemma DueDispatchedInTime(s: State, es: seq<Event>, id: TaskId)
    requires WaitsDue(s, id) && ValidRun(s, es) && Untouched(es, id)
    requires Scans(es) >= (|Failed(s.table)| + |CreatedAhead(s.table, id)| + Setbacks(es)) / LIMIT + 1
    ensures exists i: nat :: PickedAt(s, es, i, id)
  {
    BeforeIsSmaller(s, id);
    if PassedOver(s, es, id) {
      RunShortensBefore(s, es, id);
      assert false;
    }
    PickedOrPassedOver(s, es, id);
  }

  lemma BeforeIsSmaller(s: State, id: TaskId)
    requires id in s.table
    ensures |InFront(s, id)| <= |Failed(s.table)| + |CreatedAhead(s.table, id)|
  {
    SubsetSize(InFront(s, id), Failed(s.table) + CreatedAhead(s.table, id));
  }

  // ---------------------------------------------------------------- why the clock has to move

  function AllFail(ids: seq<TaskId>): seq<Event> {
    seq(|ids|, i requires 0 <= i < |ids| => Finish(ids[i], MarkedFailed))
  }

  /** A scan whose tasks all fail again. */
  function FailingRound(t: Table, now: int): seq<Event> {
    [StartScan] + AllFail(Scan(t, now))
  }

  function Repeat(es: seq<Event>, n: nat): seq<Event> {
    if n == 0 then [] else es + Repeat(es, n - 1)
  }

  /** Every failed task was stamped this very second. */
  predicate Stalled(s: State) {
    s.inHand == {} && forall i :: i in Failed(s.table) ==> s.table[i].updated == s.now
  }

  lemma {:induction false} RefailingChangesNothing(s: State, ids: seq<TaskId>, id: TaskId)
    requires Distinct(ids) && forall i :: i in s.inHand <==> i in ids
    requires forall i :: i in ids ==> i in s.table && s.table[i] == Row(TaskFail, s.now)
    ensures Run(s, AllFail(ids)) == s.(inHand := {}) && PassedOver(s, AllFail(ids), id) && Scans(AllFail(ids)) == 0
    decreases |ids|
  {
    var es := AllFail(ids);
    if ids == [] {
      assert s.inHand == {};
    } else {
      var s' := Step(s, es[0]);
      assert s'.table == s.table;
      assert ids == [ids[0]] + ids[1..];
      assert es[1..] == AllFail(ids[1..]);
      RefailingChangesNothing(s', ids[1..], id);
    }
  }

  lemma {:induction false} RunJoin(s: State, a: seq<Event>, b: seq<Event>, id: TaskId)
    ensures Run(s, a + b) == Run(Run(s, a), b)
    ensures PassedOver(s, a + b, id) <==> PassedOver(s, a, id) && PassedOver(Run(s, a), b, id)
    ensures Scans(a + b) == Scans(a) + Scans(b)
    decreases |a|
  {
    if a == [] {
      assert a + b == b;
    } else {
      assert (a + b)[1..] == a[1..] + b;
      RunJoin(Step(s, a[0]), a[1..], b, id);
    }
  }

  lemma OneFailingRound(s: State, id: TaskId)
    requires Stalled(s) && id in Failed(s.table) && LIMIT <= |Ahead(s.table, Failed(s.table), id)|
    ensures var round := FailingRound(s.table, s.now);
            Run(s, round) == s && PassedOver(s, round, id) && Scans(round) == 1
  {
    var found := Scan(s.table, s.now);
    ScanIff(s.table, s.now, id);
    ScanIsBounded(s.table, s.now);
    OldestIsFull(s.table, Failed(s.table), LIMIT);
    AheadIsSmaller(s.table, Failed(s.table), id);
    var round := FailingRound(s.table, s.now);
    assert round[1..] == AllFail(found);
    RefailingChangesNothing(Step(s, StartScan), found, id);
  }

  /** While the clock stands still the bound fails: a task with ten failed ones ahead of it can be passed
      over by any number of scans, because the ten it waits for fail again in the same second. */
  lemma {:induction false} StalledClockStarves(s: State, id: TaskId, n: nat)
    requires Stalled(s) && id in Failed(s.table) && LIMIT <= |Ahead(s.table, Failed(s.table), id)|
    ensures var rounds := Repeat(FailingRound(s.table, s.now), n);
            PassedOver(s, rounds, id) && Scans(rounds) == n
  {
    if n > 0 {
      var round := FailingRound(s.table, s.now);
      OneFailingRound(s, id);
      StalledClockStarves(s, id, n - 1);
      RunJoin(s, round, Repeat(round, n - 1), id);
    }
  }

  // ---------------------------------------------------------------- why failures have to stop

  /** While ten tasks stay failed, no scan picks a task that never failed, however old it is. */
  lemma CrowdedOut(t: Table, now: int, id: TaskId)
    requires id in t && t[id].state == TaskCreate && LIMIT <= |Failed(t)|
    ensures id !in Scan(t, now)
    ensures forall i :: i in Scan(t, now) ==> i in Failed(t)
  {
    ScanIff(t, now, id);
    OldestIsFull(t, Failed(t), LIMIT);
  }

  lemma {:induction false} RefailingKeepsFailed(s: State, ids: seq<TaskId>, id: TaskId)
    requires Distinct(ids) && forall i :: i in s.inHand <==> i in ids
    requires (forall i :: i in ids ==> i in Failed(s.table)) && id !in ids && id in s.table
    ensures var s' := Run(s, AllFail(ids));
            && Failed(s'.table) == Failed(s.table) && s'.inHand == {} && s'.now == s.now
            && id in s'.table && s'.table[id] == s.table[id]
    ensures PassedOver(s, AllFail(ids), id) && Scans(AllFail(ids)) == 0
    decreases |ids|
  {
    var es := AllFail(ids);
    if ids == [] {
      assert s.inHand == {};
    } else {
      var s' := Step(s, es[0]);
      assert ids == [ids[0]] + ids[1..];
      assert ids[0] in ids;
      assert Failed(s'.table) == Failed(s.table);
      assert es[1..] == AllFail(ids[1..]);
      RefailingKeepsFailed(s', ids[1..], id);
    }
  }

  /** Rounds in which every task found fails again, a second apart. */
  function TickingRounds(s: State, n: nat): seq<Event>
    decreases n
  {
    if n == 0 then []
    else
      var round := FailingRound(s.table, s.now) + [Tick];
      round + TickingRounds(Run(s, round), n - 1)
  }

  predicate Crowded(s: State, id: TaskId) {
    s.inHand == {} && id in s.table && s.table[id].state == TaskCreate && LIMIT <= |Failed(s.table)|
  }

  lemma OneCrowdedRound(s: State, id: TaskId)
    requires Crowded(s, id)
    ensures var round := FailingRound(s.table, s.now) + [Tick];
            && Crowded(Run(s, round), id) && Run(s, round).now == s.now + 1
            && PassedOver(s, round, id) && Scans(round) == 1
  {
    var found := Scan(s.table, s.now);
    CrowdedOut(s.table, s.now, id);
    ScanIsBounded(s.table, s.now);
    var failing := FailingRound(s.table, s.now);
    assert failing[1..] == AllFail(found);
    RefailingKeepsFailed(Step(s, StartScan), found, id);
    RunJoin(s, failing, [Tick], id);
    var after := Run(s, failing);
    assert [Tick][1..] == [];
    assert Run(after, [Tick]) == Step(after, Tick);
    assert PassedOver(Step(after, Tick), [], id);
  }

  /** So a new task can starve although the clock moves on: with ten tasks that keep failing, any number of
      scans, a second apart each, passes it over. */
  lemma {:induction false} FailuresStarveCreated(s: State, id: TaskId, n: nat)
    requires Crowded(s, id)
    ensures var rounds := TickingRounds(s, n);
            PassedOver(s, rounds, id) && Scans(rounds) == n && Run(s, rounds).now == s.now + n
    decreases n
  {
    if n > 0 {
      var round := FailingRound(s.table, s.now) + [Tick];
      OneCrowdedRound(s, id);
      FailuresStarveCreated(Run(s, round), id, n - 1);
      RunJoin(s, round, TickingRounds(Run(s, round), n - 1), id);
    }
  }

  // ---------------------------------------------------------------- the job itself

  /** What happens to one dispatched task: whether its effect succeeded, and whether each update got through. */
  datatype Reply = Reply(routed: bool, completedWritten: bool, failWritten: bool)

  function OutcomeOf(r: Reply): Outcome {
    if r.routed && r.completedWritten then MarkedCompleted
    else if r.failWritten then MarkedFailed
    else Lost
  }

  function Endings(ids: seq<TaskId>, replies: TaskId -> Reply): seq<Event> {
    seq(|ids|, i requires 0 <= i < |ids| => Finish(ids[i], OutcomeOf(replies(ids[i]))))
  }

  /** A failed task comes before one that never failed; otherwise the earlier update does, and of two in the same second
      the smaller id. */
  predicate Earlier(t: Table, a: TaskId, b: TaskId) {
    && a in t && b in t
    && ((t[a].state == TaskFail && t[b].state != TaskFail)
        || (t[a].state == t[b].state
            && (t[a].updated < t[b].updated || (t[a].updated == t[b].updated && a < b))))
  }

  ghost predicate Sorted(t: Table, ids: seq<TaskId>) {
    forall i, j :: 0 <= i < j < |ids| ==> Earlier(t, ids[i], ids[j])
  }

  lemma {:induction false} OldestIsSorted(t: Table, ids: set<TaskId>, n: nat)
    requires ids <= t.Keys && forall a, b :: a in ids && b in ids ==> t[a].state == t[b].state
    ensures Sorted(t, Oldest(t, ids, n))
    decreases n
  {
    if n > 0 && ids != {} {
      var all := Oldest(t, ids, n);
      OldestIsSorted(t, ids - {all[0]}, n - 1);
      OldestIsFull(t, ids, n);
      assert IsFirst(t, ids, all[0]);
      forall j | 0 < j < |all| ensures Earlier(t, all[0], all[j]) { assert all[j] in all; }
      assert all == [all[0]] + Oldest(t, ids - {all[0]}, n - 1);
    }
  }

  lemma SortedJoin(t: Table, a: seq<TaskId>, b: seq<TaskId>)
    requires Sorted(t, a) && Sorted(t, b) && forall x, y :: x in a && y in b ==> Earlier(t, x, y)
    ensures Sorted(t, a + b)
  {
    assert forall i :: 0 <= i < |a| ==> a[i] in a;
    assert forall i :: 0 <= i < |b| ==> b[i] in b;
  }

  lemma ScanIsSorted(t: Table, now: int)
    ensures Sorted(t, Scan(t, now))
  {
    var failed := Oldest(t, Failed(t), LIMIT);
    OldestIsSorted(t, Failed(t), LIMIT);
    if |failed| < LIMIT {
      OldestIsSorted(t, TimedOut(t, now), LIMIT - |failed|);
      SortedJoin(t, failed, Oldest(t, TimedOut(t, now), LIMIT - |failed|));
    }
  }

  /** Never failed, and not updated for more than six minutes. */
  predicate Overdue(t: Table, id: TaskId, now: int) {
    id in t && t[id].state == TaskCreate && t[id].updated < now - 360
  }

  /** A failed task with fewer than ten failed ones before it, or an overdue one with fewer than ten tasks that failed or
      are overdue and before it. */
  predicate InTurn(t: Table, id: TaskId, now: int) {
    && id in t
    && if t[id].state == TaskFail then
         |set i | i in t && t[i].state == TaskFail && Precedes(t, i, id)| < 10
       else
         && Overdue(t, id, now)
         && |set i | i in t && t[i].state == TaskFail| + |set i | i in t && Overdue(t, i, now) && Precedes(t, i, id)| < 10
  }

  lemma PickedInTurn(t: Table, now: int, id: TaskId)
    ensures id in Scan(t, now) <==> InTurn(t, id, now)
  {
    ScanIff(t, now, id);
    if id in t {
      assert Ahead(t, Failed(t), id) == set i | i in t && t[i].state == TaskFail && Precedes(t, i, id);
      assert Ahead(t, TimedOut(t, now), id) == set i | i in t && Overdue(t, i, now) && Precedes(t, i, id);
      assert Failed(t) == set i | i in t && t[i].state == TaskFail;
    }
  }

  /** What one dispatch must leave of the row: completed if its effect and that update both succeeded, else failed if
      that update went through, else what it was. */
  ghost predicate LeftAs(before: Row, after: Row, r: Reply, now: int) {
    && (r.routed && r.completedWritten ==> after == Row(TaskCompleted, now))
    && ((!r.routed || !r.completedWritten) && r.failWritten ==> after == Row(TaskFail, now))
    && ((!r.routed || !r.completedWritten) && !r.failWritten ==> after == before)
  }

  /** One shard's task table. */
  class TaskTable {
    var rows: Table

    constructor (rows: Table)
      ensures this.rows == rows
    {
      this.rows := rows;
    }

    /** Exactly the tasks whose turn it is, each once: the failed ones first, and those updated longest ago first. */
    method QueryNoSendMessageTaskList(now: int) returns (result: seq<TaskId>)
      ensures result == Scan(rows, now)
      ensures Distinct(result) && forall id :: id in result <==> InTurn(rows, id, now)
      ensures forall i, j :: 0 <= i < j < |result| ==> Earlier(rows, result[i], result[j])
    {
      ScanIsSorted(rows, now);
      ScanIsBounded(rows, now);
      forall id ensures id in Scan(rows, now) <==> InTurn(rows, id, now) { PickedInTurn(rows, now, id); }
      var tasks := Oldest(rows, Failed(rows), LIMIT);
      if |tasks| < LIMIT {
        var createTasks := Oldest(rows, TimedOut(rows, now), LIMIT - |tasks|);
        tasks := tasks + createTasks;
      }
      result := [];
      for i := 0 to |tasks|
        invariant result == tasks[..i]
      {
        result := result + [tasks[i]];
      }
    }

    method UpdateTaskSendMessageCompleted(id: TaskId, now: int, written: bool) returns (ok: bool)
      modifies this
      ensures ok == written && rows == if written then Touch(old(rows), id, TaskCompleted, now) else old(rows)
    {
      if written && id in rows { rows := rows[id := Row(TaskCompleted, now)]; }
      return written;
    }

    method UpdateTaskSendMessageFail(id: TaskId, now: int, written: bool) returns (ok: bool)
      modifies this
      ensures ok == written && rows == if written then Touch(old(rows), id, TaskFail, now) else old(rows)
    {
      if written && id in rows { rows := rows[id := Row(TaskFail, now)]; }
      return written;
    }
  }

  /** dispatchSingleTask: the state of the row ends completed only after the effect succeeded. */
  method DispatchSingleTask(table: TaskTable, id: TaskId, now: int, r: Reply)
    modifies table
    ensures table.rows == Finished(old(table.rows), id, OutcomeOf(r), now)
    ensures table.rows.Keys == old(table.rows).Keys
    ensures id in old(table.rows) ==> LeftAs(old(table.rows)[id], table.rows[id], r, now)
    ensures forall other :: other in table.rows && other != id ==> table.rows[other] == old(table.rows)[other]
  {
    if !r.routed {
      var _ := table.UpdateTaskSendMessageFail(id, now, r.failWritten);
      return;
    }
    var ok := table.UpdateTaskSendMessageCompleted(id, now, r.completedWritten);
    if !ok {
      var _ := table.UpdateTaskSendMessageFail(id, now, r.failWritten);
    }
  }

  /** What a table looks like after one scan and the dispatch of what it found. */
  function AfterRound(t: Table, now: int, replies: TaskId -> Reply): Table {
    Run(State(t, now, {}), [StartScan] + Endings(Scan(t, now), replies)).table
  }

  lemma {:induction false} EndingsLeave(s: State, ids: seq<TaskId>, replies: TaskId -> Reply)
    requires Distinct(ids) && forall i :: i in ids ==> i in s.table
    ensures var t := Run(s, Endings(ids, replies)).table;
            && t.Keys == s.table.Keys
            && (forall i :: i in ids ==> LeftAs(s.table[i], t[i], replies(i), s.now))
            && (forall i :: i in s.table && i !in ids ==> t[i] == s.table[i])
    decreases |ids|
  {
    if ids != [] {
      var es := Endings(ids, replies);
      assert es[1..] == Endings(ids[1..], replies);
      assert ids == [ids[0]] + ids[1..];
      EndingsLeave(Step(s, es[0]), ids[1..], replies);
    }
  }

  /** What a round must leave of a table: the tasks picked end as their replies say, and no other row changes. */
  ghost predicate Worked(before: Table, after: Table, now: int, replies: TaskId -> Reply) {
    && after.Keys == before.Keys
    && (forall id :: id in Scan(before, now) ==> LeftAs(before[id], after[id], replies(id), now))
    && (forall id :: id in before && id !in Scan(before, now) ==> after[id] == before[id])
  }

  lemma RoundWorks(t: Table, now: int, replies: TaskId -> Reply)
    ensures Worked(t, AfterRound(t, now, replies), now, replies)
  {
    var s := Step(State(t, now, {}), StartScan);
    var endings := Endings(Scan(t, now), replies);
    assert ([StartScan] + endings)[1..] == endings;
    ScanIsBounded(t, now);
    EndingsLeave(s, Scan(t, now), replies);
  }

  /** In whatever order the workers of a round end, the table is the same. */
  lemma AnyOrderIsTheSame(t: Table, now: int, replies: TaskId -> Reply, ids: seq<TaskId>)
    requires Distinct(ids) && forall i :: i in ids <==> i in Scan(t, now)
    ensures Run(Step(State(t, now, {}), StartScan), Endings(ids, replies)).table == AfterRound(t, now, replies)
  {
    RoundWorks(t, now, replies);
    EndingsLeave(Step(State(t, now, {}), StartScan), ids, replies);
    var a, b := Run(Step(State(t, now, {}), StartScan), Endings(ids, replies)).table, AfterRound(t, now, replies);
    forall i | i in t ensures a[i] == b[i] {
      if i in ids { OneWayLeft(t[i], a[i], b[i], replies(i), now); }
    }
  }

  lemma OneWayLeft(before: Row, a: Row, b: Row, r: Reply, now: int)
    requires LeftAs(before, a, r, now) && LeftAs(before, b, r, now)
    ensures a == b
  {
  }

  /** The job gets as far as shard `i`. */
  predicate GetsTo(queried: seq<bool>, i: nat)
    requires i < |queried|
  {
    forall j :: 0 <= j <= i ==> queried[j]
  }

  /** ProcessTask: scan the shards in order and dispatch everything found; a shard that cannot be queried
      ends the job, with the shards before it done and those after it untouched. */
  method ProcessTask(tables: seq<TaskTable>, now: int, queried: seq<bool>, replies: TaskId -> Reply) returns (ok: bool)
    requires |queried| == |tables| && forall i, j :: 0 <= i < j < |tables| ==> tables[i] != tables[j]
    modifies tables
    ensures ok <==> forall i :: 0 <= i < |tables| ==> queried[i]
    ensures forall i :: 0 <= i < |tables| && GetsTo(queried, i) ==>
              tables[i].rows == AfterRound(old(tables[i].rows), now, replies)
    ensures forall i :: 0 <= i < |tables| && GetsTo(queried, i) ==>
              Worked(old(tables[i].rows), tables[i].rows, now, replies)
    ensures forall i :: 0 <= i < |tables| && !GetsTo(queried, i) ==> tables[i].rows == old(tables[i].rows)
  {
    for i := 0 to |tables|
      invariant forall j :: 0 <= j < i ==> queried[j]
      invariant forall j :: 0 <= j < i ==> tables[j].rows == AfterRound(old(tables[j].rows), now, replies)
      invariant forall j :: 0 <= j < i ==> Worked(old(tables[j].rows), tables[j].rows, now, replies)
      invariant forall j :: i <= j < |tables| ==> tables[j].rows == old(tables[j].rows)
    {
      if !queried[i] { return false; }
      DispatchShard(tables[i], now, replies);
    }
    return true;
  }

  method DispatchShard(table: TaskTable, now: int, replies: TaskId -> Reply)
    modifies table
    ensures table.rows == AfterRound(old(table.rows), now, replies)
    ensures Worked(old(table.rows), table.rows, now, replies)
  {
    RoundWorks(table.rows, now, replies);
    var found := table.QueryNoSendMessageTaskList(now);
    ghost var scanned := Step(State(table.rows, now, {}), StartScan);
    ghost var endings := Endings(found, replies);
    assert ([StartScan] + endings)[1..] == endings;
    for i := 0 to |found|
      invariant Run(scanned, endings[..i]).table == table.rows && Run(scanned, endings[..i]).now == now
    {
      DispatchSingleTask(table, found[i], now, replies(found[i]));
      RunSnoc(scanned, endings, i);
    }
    assert endings[..|found|] == endings;
  }

  lemma RunSnoc(s: State, es: seq<Event>, i: nat)
    requires i < |es|
    ensures Run(s, es[..i + 1]) == Step(Run(s, es[..i]), es[i])
  {
    assert es[..i + 1] == es[..i] + [es[i]];
    RunJoin(s, es[..i], [es[i]], 0);
    assert Run(Run(s, es[..i]), [es[i]]) == Step(Run(s, es[..i]), es[i]);
  }
}
