/** The stock of one award. A call decrements a Redis counter and then, as a second command,
    takes a lock named after the value it got. Calls interleave between the two commands, die
    there, or never hear the answer; an operator may set the counter back at any time. */
module AwardStock {
  import opened Collections
  import opened Wrappers

  /** Counter, locks taken, values of calls between their two commands, values whose call returned true. */
  datatype State = State(counter: int, locks: set<int>, inFlight: multiset<int>, granted: seq<int>)

  datatype Event =
    | Decr                    // first command of a call
    | Lock(value: int)        // second command of the call that got `value`
    | Abandon(value: int)     // that call dies, or its lock command fails
    | LoseAnswer(value: int)  // the lock is taken but the call does not learn it
    | Restore(value: int)     // the counter is set by hand

  function Init(n: nat): State {
    State(n, {}, multiset{}, [])
  }

  predicate Enabled(s: State, e: Event, n: nat) {
    match e
    case Decr => true
    case Restore(v) => v <= n
    case Lock(v) => v in s.inFlight
    case Abandon(v) => v in s.inFlight
    case LoseAnswer(v) => v in s.inFlight
  }

  function Step(s: State, e: Event): State {
    match e
    case Decr =>
      var surplus := s.counter - 1;
      s.(counter := surplus, inFlight := if surplus < 0 then s.inFlight else s.inFlight + multiset{surplus})
    case Lock(v) =>
      var s' := s.(inFlight := s.inFlight - multiset{v});
      if v in s.locks then s' else s'.(locks := s.locks + {v}, granted := s.granted + [v])
    case Abandon(v) => s.(inFlight := s.inFlight - multiset{v})
    case LoseAnswer(v) => s.(inFlight := s.inFlight - multiset{v}, locks := s.locks + {v})
    case Restore(v) => s.(counter := v)
  }

  predicate ValidRun(s: State, es: seq<Event>, n: nat)
    decreases |es|
  {
    es == [] || (Enabled(s, es[0], n) && ValidRun(Step(s, es[0]), es[1..], n))
  }

  function Run(s: State, es: seq<Event>): State
    decreases |es|
  {
    if es == [] then s else Run(Step(s, es[0]), es[1..])
  }

  // ---------------------------------------------------------------- no overselling

  ghost predicate Inv(s: State, n: nat) {
    && s.counter <= n
    && (forall v :: v in s.inFlight ==> 0 <= v < n)
    && (forall v :: v in s.locks ==> 0 <= v < n)
    && (forall v :: v in s.granted ==> v in s.locks)
    && Distinct(s.granted)
  }

  lemma StepKeepsInv(s: State, e: Event, n: nat)
    requires Inv(s, n) && Enabled(s, e, n)
    ensures Inv(Step(s, e), n)
  {
    if e.Lock? && e.value !in s.locks {
      var granted' := s.granted + [e.value];
      assert Step(s, e).granted == granted';
      assert e.value !in s.granted;
      forall i, j | 0 <= i < j < |granted'| ensures granted'[i] != granted'[j] {
        assert j < |s.granted| ==> granted'[j] == s.granted[j];
        assert i < |s.granted| && granted'[i] == s.granted[i];
      }
    }
  }

  lemma {:induction false} RunKeepsInv(s: State, es: seq<Event>, n: nat)
    requires Inv(s, n) && ValidRun(s, es, n)
    ensures Inv(Run(s, es), n)
    decreases |es|
  {
    if es != [] {
      StepKeepsInv(s, es[0], n);
      RunKeepsInv(Step(s, es[0]), es[1..], n);
    }
  }

  /** Pigeonhole: distinct values below n are at most n. */
  lemma {:induction false} Pigeonhole(xs: seq<int>, n: nat)
    requires Distinct(xs) && forall i :: 0 <= i < |xs| ==> 0 <= xs[i] < n
    ensures |xs| <= n
    decreases n
  {
    if xs != [] {
      assert 0 <= xs[0] < n;
      if i :| 0 <= i < |xs| && xs[i] == n - 1 {
        var rest := xs[..i] + xs[i + 1..];
        assert forall k :: 0 <= k < |rest| ==> rest[k] == xs[if k < i then k else k + 1];
        Pigeonhole(rest, n - 1);
      } else {
        Pigeonhole(xs, n - 1);
      }
    }
  }

  lemma AtMost(s: State, n: nat)
    requires Inv(s, n)
    ensures |s.granted| <= n
  {
    forall i | 0 <= i < |s.granted| ensures 0 <= s.granted[i] < n {
      assert s.granted[i] in s.granted;
    }
    Pigeonhole(s.granted, n);
  }

  /** However calls interleave, die, or are repeated after the counter was set back, at most N of
      them return true, each for its own value in [0, N). */
  lemma NeverOversold(n: nat, es: seq<Event>)
    requires ValidRun(Init(n), es, n)
    ensures var granted := Run(Init(n), es).granted;
            |granted| <= n && Distinct(granted) && forall v :: v in granted ==> 0 <= v < n
  {
    RunKeepsInv(Init(n), es, n);
    AtMost(Run(Init(n), es), n);
  }

  /** A call that never hears the answer still holds its value: whatever follows, restores included, no other call is
      granted it. */
  lemma LostIsNeverGranted(s: State, v: int, es: seq<Event>, n: nat)
    requires Inv(s, n) && v in s.inFlight && v !in s.granted && ValidRun(Step(s, LoseAnswer(v)), es, n)
    ensures v !in Run(Step(s, LoseAnswer(v)), es).granted
  {
    LockedStaysUngranted(Step(s, LoseAnswer(v)), v, es);
  }

  lemma {:induction false} LockedStaysUngranted(s: State, v: int, es: seq<Event>)
    requires v in s.locks && v !in s.granted
    ensures v !in Run(s, es).granted
    decreases |es|
  {
    if es != [] { LockedStaysUngranted(Step(s, es[0]), v, es[1..]); }
  }

  // ---------------------------------------------------------------- no underselling

  function Decrs(es: seq<Event>): nat {
    if es == [] then 0 else Decrs(es[1..]) + if es[0].Decr? then 1 else 0
  }

  /** Calls that died before their lock, or never heard that they had it. */
  function Gone(es: seq<Event>): nat {
    if es == [] then 0 else Gone(es[1..]) + if es[0].Abandon? || es[0].LoseAnswer? then 1 else 0
  }

  function Floor(counter: int): nat {
    if counter < 0 then 0 else counter
  }

  /** With no restore, the values handed out lie above the counter, each for one call, and every unit is granted, on its
      way to its lock, still in the counter, or gone with its call. */
  ghost predicate Exact(s: State, gone: nat, n: nat) {
    && s.counter <= n
    && (forall v :: v in s.locks || v in s.inFlight ==> Floor(s.counter) <= v < n)
    && (forall v :: v in s.inFlight ==> v !in s.locks && s.inFlight[v] == 1)
    && |s.granted| + |s.inFlight| + Floor(s.counter) + gone == n
  }

  lemma StepKeepsExact(s: State, e: Event, gone: nat, n: nat)
    requires Exact(s, gone, n) && Enabled(s, e, n) && !e.Restore?
    ensures Exact(Step(s, e), gone + if e.Abandon? || e.LoseAnswer? then 1 else 0, n)
    ensures Step(s, e).counter == s.counter - if e.Decr? then 1 else 0
    ensures e.Lock? ==> Step(s, e).granted == s.granted + [e.value]
  {
    match e {
      case Decr => if 0 < s.counter { assert s.counter - 1 !in s.inFlight; }
      case Lock(v) => EndKeepsExact(s, Step(s, e), v, gone, gone, n);
      case Abandon(v) => EndKeepsExact(s, Step(s, e), v, gone, gone + 1, n);
      case LoseAnswer(v) => EndKeepsExact(s, Step(s, e), v, gone, gone + 1, n);
      case Restore(_) =>
    }
  }

  /** A call ends: its value leaves the flight, perhaps for the locks, and is granted or gone. */
  lemma EndKeepsExact(s: State, s': State, v: int, gone: nat, gone': nat, n: nat)
    requires Exact(s, gone, n) && v in s.inFlight && s'.inFlight == s.inFlight - multiset{v} && s'.counter == s.counter
    requires s.locks <= s'.locks <= s.locks + {v}
    requires |s'.granted| + gone' == |s.granted| + gone + 1
    ensures Exact(s', gone', n)
  {
    assert |s'.inFlight| == |s.inFlight| - 1;
    assert v !in s'.inFlight;
  }

  lemma {:induction false} RunKeepsExact(s: State, es: seq<Event>, gone: nat, n: nat)
    requires Exact(s, gone, n) && ValidRun(s, es, n) && forall e :: e in es ==> !e.Restore?
    ensures Exact(Run(s, es), gone + Gone(es), n) && Run(s, es).counter == s.counter - Decrs(es)
    decreases |es|
  {
    if es != [] {
      assert es[0] in es;
      StepKeepsExact(s, es[0], gone, n);
      RunKeepsExact(Step(s, es[0]), es[1..], gone + if es[0].Abandon? || es[0].LoseAnswer? then 1 else 0, n);
    }
  }

  /** Conversely nothing is withheld: without restores, when all calls have ended, those that returned true and those that
      died on the way are together as many as were made, or N if there were more. So a crash costs one unit, and
      nothing else does. */
  lemma NeverUndersold(n: nat, es: seq<Event>)
    requires ValidRun(Init(n), es, n) && (forall e :: e in es ==> !e.Restore?) && Run(Init(n), es).inFlight == multiset{}
    ensures |Run(Init(n), es).granted| + Gone(es) == if Decrs(es) < n then Decrs(es) else n
  {
    RunKeepsExact(Init(n), es, 0, n);
  }

  // ---------------------------------------------------------------- the database row behind it

  /** Every grant puts one message on the queue, unless the enqueue fails; a message takes one unit
      from the award row if the row has one, and is retried otherwise. A worker that dies after the update and before
      the acknowledgement leaves its message on the queue; `repeated` counts the units taken that way. */
  datatype Persisted = Persisted(stock: State, row: int, queued: nat, consumed: nat, repeated: nat)

  datatype RowEvent = StockEvent(event: Event, enqueued: bool) | Consume | ConsumeUnacknowledged

  predicate RowEnabled(p: Persisted, e: RowEvent, n: nat) {
    match e
    case StockEvent(event, _) => Enabled(p.stock, event, n)
    case _ => 0 < p.queued
  }

  function UpdateStock(row: int): Option<int> {
    if 0 < row then Some(row - 1) else None
  }

  function RowStep(p: Persisted, e: RowEvent): Persisted
    requires !e.StockEvent? ==> 0 < p.queued
  {
    match e
    case StockEvent(event, enqueued) =>
      var stock' := Step(p.stock, event);
      p.(stock := stock', queued := if enqueued && |stock'.granted| > |p.stock.granted| then p.queued + 1 else p.queued)
    case Consume =>
      if UpdateStock(p.row).None? then p
      else p.(row := UpdateStock(p.row).value, queued := p.queued - 1, consumed := p.consumed + 1)
    case ConsumeUnacknowledged =>
      if UpdateStock(p.row).None? then p else p.(row := UpdateStock(p.row).value, repeated := p.repeated + 1)
  }

  predicate ValidRowRun(p: Persisted, es: seq<RowEvent>, n: nat)
    decreases |es|
  {
    es == [] || (RowEnabled(p, es[0], n) && ValidRowRun(RowStep(p, es[0]), es[1..], n))
  }

  function RowRun(p: Persisted, es: seq<RowEvent>, n: nat): Persisted
    requires ValidRowRun(p, es, n)
    decreases |es|
  {
    if es == [] then p else RowRun(RowStep(p, es[0]), es[1..], n)
  }

  ghost predicate RowInv(p: Persisted, row: int, n: nat) {
    Inv(p.stock, n) && p.queued + p.consumed <= |p.stock.granted| && p.row + p.consumed + p.repeated == row
  }

  lemma {:induction false} RowRunKeepsInv(p: Persisted, es: seq<RowEvent>, row: int, n: nat)
    requires RowInv(p, row, n) && ValidRowRun(p, es, n)
    ensures RowInv(RowRun(p, es, n), row, n)
    decreases |es|
  {
    if es != [] {
      match es[0] {
        case StockEvent(event, _) => StepKeepsInv(p.stock, event, n);
        case _ =>
      }
      RowRunKeepsInv(RowStep(p, es[0]), es[1..], row, n);
    }
  }

  function Stocked(row: int, n: nat): Persisted {
    Persisted(Init(n), row, 0, 0, 0)
  }

  /** The row's shortfall is the number of messages consumed and of units taken by unacknowledged updates; so a queued
      message finds a unit exactly if these are fewer than the row started with, and always if the row started
      with one for each of the N units of the counter and for each unacknowledged update. */
  lemma ConsumeFindsStockIff(row: int, n: nat, es: seq<RowEvent>)
    requires ValidRowRun(Stocked(row, n), es, n)
    ensures var p := RowRun(Stocked(row, n), es, n);
            && row - p.row == p.consumed + p.repeated
            && (UpdateStock(p.row).Some? <==> p.consumed + p.repeated < row)
            && (n + p.repeated <= row && 0 < p.queued ==> UpdateStock(p.row).Some?)
  {
    RowRunKeepsInv(Stocked(row, n), es, row, n);
    var p := RowRun(Stocked(row, n), es, n);
    AtMost(p.stock, n);
  }

  /** It takes no more than one: the only unit's message is delivered again and finds the row empty. */
  lemma UnacknowledgedRunsDry()
    ensures var es := [StockEvent(Decr, true), StockEvent(Lock(0), true), ConsumeUnacknowledged];
            && ValidRowRun(Stocked(1, 1), es, 1)
            && var p := RowRun(Stocked(1, 1), es, 1); p.queued == 1 && p.consumed == 0 && UpdateStock(p.row).None?
  {
    var es := [StockEvent(Decr, true), StockEvent(Lock(0), true), ConsumeUnacknowledged];
    var p1 := RowStep(Stocked(1, 1), es[0]);
    assert p1.stock == State(0, {}, multiset{0}, []) && p1.queued == 0;
    var p2 := RowStep(p1, es[1]);
    assert p2.queued == 1 && p2.row == 1;
    assert es[1..][0] == es[1] && es[1..][1..][0] == es[2] && es[1..][1..][1..] == [];
    assert ValidRowRun(p2, es[1..][1..], 1);
    assert ValidRowRun(p1, es[1..], 1);
  }

  // ---------------------------------------------------------------- the call itself

  class Stock {
    var counter: int
    var locks: set<int>
    var row: int

    method DecrCounter() returns (surplus: int)
      modifies this`counter
      ensures counter == old(counter) - 1 && surplus == counter
    {
      counter := counter - 1;
      surplus := counter;
    }

    method SetNX(value: int) returns (ok: bool)
      modifies this`locks
      ensures ok == (value !in old(locks)) && locks == old(locks) + {value}
    {
      ok := value !in locks;
      locks := locks + {value};
    }

    /** SubtractionAwardStock, uninterrupted: one decrement, then the lock step unless the counter
        was used up; true exactly when that step granted. */
    method Subtract(ghost s: State) returns (granted: bool, ghost es: seq<Event>)
      requires s.counter == counter && s.locks == locks
      modifies this`counter, this`locks
      ensures es == if s.counter <= 0 then [Decr] else [Decr, Lock(s.counter - 1)]
      ensures counter == Run(s, es).counter && locks == Run(s, es).locks
      ensures granted <==> |Run(s, es).granted| == |s.granted| + 1
    {
      var surplus := DecrCounter();
      if surplus < 0 {
        es := [Decr];
        assert Run(s, es) == Run(Step(s, Decr), es[1..]);
        return false, es;
      }
      granted := SetNX(surplus);
      es := [Decr, Lock(surplus)];
      assert es[1..] == [Lock(surplus)];
      assert Run(s, es) == Run(Step(s, Decr), [Lock(surplus)]) == Step(Step(s, Decr), Lock(surplus));
    }

    /** UpdateStrategyAwardStock: one unit off the row, or an error when there is none. */
    method UpdateStrategyAwardStock() returns (ok: bool)
      modifies this`row
      ensures ok == UpdateStock(old(row)).Some?
      ensures row == if ok then UpdateStock(old(row)).value else old(row)
    {
      if row <= 0 { return false; }
      row := row - 1;
      return true;
    }
  }
}
