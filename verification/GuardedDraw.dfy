/** The default draws of a strategy against the stock of one award: draws of that award and of others, each
    through its own tree, interleave with each other, with crashes and with restores of the counter by hand. */
module GuardedDraw {
  import opened Wrappers
  import opened Text
  import AwardStock
  import opened RuleTree
  import opened Raffle

  /** The award's stock, and how many draws have told a user that award. */
  datatype State = State(stock: AwardStock.State, handedOut: nat)

  /** A draw of the award either never reaches the stock node, or its stock call runs as the stock machine
      says. The raffle count is whatever it is for that draw; `queued` says whether the consume message of a
      granted call could be enqueued. Draws of other awards ask other stocks, which may answer anything. */
  datatype Event =
    | WithoutStock(raffleCount: int)
    | TakeUnit(raffleCount: int)
    | LockUnit(value: int, raffleCount: int, queued: bool)
    | OtherDraw(drawn: int, raffleCount: int, stock: StockReply)
    | Elsewhere(event: AwardStock.Event)

  /** What a default draw tells its user. */
  function Told(st: Strategy, d: Draw): Reply {
    BuildAward(st, ThroughTree(st, d))
  }

  function Handed(st: Strategy, award: int, d: Draw): nat {
    if Told(st, d) == Awarded(award) then 1 else 0
  }

  predicate Asks(st: Strategy, d: Draw) {
    match st.LookupOf(d.award)
    case Found(t) => t.root in t.nodes && RuleStock in Visited(t, t.root, d, t.nodes.Keys)
    case _ => false
  }

  predicate Enabled(st: Strategy, award: int, s: State, e: Event, n: nat) {
    match e
    case WithoutStock(rc) => !Asks(st, Draw(award, rc, Refused))
    case TakeUnit(rc) => Asks(st, Draw(award, rc, Refused))
    case LockUnit(v, rc, _) => v in s.stock.inFlight && Asks(st, Draw(award, rc, Refused))
    case OtherDraw(drawn, _, _) => drawn != award
    case Elsewhere(event) => !event.Decr? && !event.Lock? && AwardStock.Enabled(s.stock, event, n)
  }

  /** A draw of the award ends when the counter is used up, or with its lock command; otherwise it is in flight. */
  function Step(st: Strategy, award: int, s: State, e: Event): State {
    match e
    case WithoutStock(rc) => s.(handedOut := s.handedOut + Handed(st, award, Draw(award, rc, Refused)))
    case TakeUnit(rc) =>
      var stock' := AwardStock.Step(s.stock, AwardStock.Decr);
      State(stock', s.handedOut + if stock'.counter < 0 then Handed(st, award, Draw(award, rc, Refused)) else 0)
    case LockUnit(v, rc, queued) =>
      var reply := if v in s.stock.locks then Refused else if queued then Granted else EnqueueError;
      State(AwardStock.Step(s.stock, AwardStock.Lock(v)), s.handedOut + Handed(st, award, Draw(award, rc, reply)))
    case OtherDraw(drawn, rc, stock) => s.(handedOut := s.handedOut + Handed(st, award, Draw(drawn, rc, stock)))
    case Elsewhere(event) => s.(stock := AwardStock.Step(s.stock, event))
  }

  predicate ValidRun(st: Strategy, award: int, s: State, es: seq<Event>, n: nat)
    decreases |es|
  {
    es == [] || (Enabled(st, award, s, es[0], n) && ValidRun(st, award, Step(st, award, s, es[0]), es[1..], n))
  }

  function Run(st: Strategy, award: int, s: State, es: seq<Event>): State
    decreases |es|
  {
    if es == [] then s else Run(st, award, Step(st, award, s, es[0]), es[1..])
  }

  function Init(n: nat): State {
    State(AwardStock.Init(n), 0)
  }

  // ---------------------------------------------------------------- the bound, and exactly when it holds

  /** No single default draw tells a user the award, unless it drew it and its own stock granted it. */
  ghost predicate OnlyByGrant(st: Strategy, award: int) {
    forall d: Draw :: Told(st, d) == Awarded(award) ==> d.award == award && d.stock == Granted
  }

  lemma StepKeepsBound(st: Strategy, award: int, s: State, e: Event, n: nat)
    requires OnlyByGrant(st, award) && AwardStock.Inv(s.stock, n) && s.handedOut <= |s.stock.granted|
    requires Enabled(st, award, s, e, n)
    ensures var s' := Step(st, award, s, e); AwardStock.Inv(s'.stock, n) && s'.handedOut <= |s'.stock.granted|
  {
    match e
    case TakeUnit(_) => AwardStock.StepKeepsInv(s.stock, AwardStock.Decr, n);
    case LockUnit(v, _, _) => AwardStock.StepKeepsInv(s.stock, AwardStock.Lock(v), n);
    case Elsewhere(event) => AwardStock.StepKeepsInv(s.stock, event, n);
    case _ =>
  }

  lemma {:induction false} RunKeepsBound(st: Strategy, award: int, s: State, es: seq<Event>, n: nat)
    requires OnlyByGrant(st, award) && AwardStock.Inv(s.stock, n) && s.handedOut <= |s.stock.granted|
    requires ValidRun(st, award, s, es, n)
    ensures var s' := Run(st, award, s, es); AwardStock.Inv(s'.stock, n) && s'.handedOut <= |s'.stock.granted|
    decreases |es|
  {
    if es != [] {
      StepKeepsBound(st, award, s, es[0], n);
      RunKeepsBound(st, award, Step(st, award, s, es[0]), es[1..], n);
    }
  }

  /** With N units in the counter, however draws of whatever awards interleave. */
  ghost predicate WithinStock(st: Strategy, award: int, n: nat) {
    forall es :: ValidRun(st, award, Init(n), es, n) ==> Run(st, award, Init(n), es).handedOut <= n
  }

  lemma OnlyByGrantBounds(st: Strategy, award: int, n: nat)
    requires OnlyByGrant(st, award)
    ensures WithinStock(st, award, n)
  {
    forall es | ValidRun(st, award, Init(n), es, n) ensures Run(st, award, Init(n), es).handedOut <= n {
      RunKeepsBound(st, award, Init(n), es, n);
      AwardStock.AtMost(Run(st, award, Init(n), es).stock, n);
    }
  }

  /** A draw of the award that gets it without a grant, put as one event on an empty stock. */
  lemma FreeDrawIsAnEvent(st: Strategy, d: Draw) returns (e: Event)
    requires Told(st, d) == Awarded(d.award) && d.stock != Granted
    ensures Enabled(st, d.award, Init(0), e, 0) && Step(st, d.award, Init(0), e).handedOut == 1
  {
    var refused := d.(stock := Refused);
    if Asks(st, refused) {
      e := TakeUnit(d.raffleCount);
      if d.stock != Refused {
        var t := st.LookupOf(d.award).tree;
        if RuleStock in Visited(t, t.root, d, t.nodes.Keys) {
          FailingStockFails(t, t.root, d, t.nodes.Keys);
        } else {
          UnaskedStockHasNoSay(t, t.root, d, refused, t.nodes.Keys);
        }
      }
    } else {
      e := WithoutStock(d.raffleCount);
      if st.LookupOf(d.award).Found? {
        var t := st.LookupOf(d.award).tree;
        if t.root in t.nodes { UnaskedStockHasNoSay(t, t.root, refused, d, t.nodes.Keys); }
      }
    }
  }

  lemma OneEvent(st: Strategy, award: int, e: Event)
    requires Enabled(st, award, Init(0), e, 0)
    ensures ValidRun(st, award, Init(0), [e], 0) && Run(st, award, Init(0), [e]) == Step(st, award, Init(0), e)
  {
    assert [e][1..] == [];
    assert ValidRun(st, award, Step(st, award, Init(0), e), [], 0);
  }

  /** Main result: the award is handed out at most N times in every run, for every N, if and only if no single
      draw gives it out but a draw of that award after a grant. */
  lemma HandedOutAtMostNIff(st: Strategy, award: int)
    ensures (forall n: nat :: WithinStock(st, award, n)) <==> OnlyByGrant(st, award)
  {
    if OnlyByGrant(st, award) {
      forall n: nat ensures WithinStock(st, award, n) { OnlyByGrantBounds(st, award, n); }
    } else {
      var d: Draw :| Told(st, d) == Awarded(award) && !(d.award == award && d.stock == Granted);
      var e: Event;
      if d.award == award {
        e := FreeDrawIsAnEvent(st, d);
      } else {
        e := OtherDraw(d.award, d.raffleCount, d.stock);
      }
      OneEvent(st, award, e);
      assert !WithinStock(st, award, 0);
    }
  }

  // ---------------------------------------------------------------- what to configure

  /** Its own tree guards it, and no other award's tree falls back to it. */
  predicate Guarded(st: Strategy, award: int) {
    && (match st.LookupOf(award)
        case NoModel => false
        case Found(t) => Guards(t, award)
        case _ => true)
    && forall other :: other in st.lookups && other != award && st.lookups[other].Found? ==>
         !FallsBackTo(st.lookups[other].tree, award)
  }

  predicate FallsBackTo(t: Tree, award: int) {
    RuleLuckAward in t.nodes && Atoi(Split(t.nodes[RuleLuckAward].ruleValue, ':')[0]) == Some(award)
  }

  lemma OtherTreeEndsElsewhere(t: Tree, d: Draw, award: int)
    requires d.award != award && !FallsBackTo(t, award)
    ensures !TreeEndsWith(t, d, award)
  {
    if TreeEndsWith(t, d, award) { LastDecides(t, t.root, d, t.nodes.Keys); }
  }

  /** So configured, a listed award (whose id is not the 0 of a missing row) is only given out by grant. */
  lemma GuardedIsOnlyByGrant(st: Strategy, award: int)
    requires Guarded(st, award) && award != 0
    ensures OnlyByGrant(st, award)
  {
    forall d: Draw | Told(st, d) == Awarded(award) ensures d.award == award && d.stock == Granted {
      if d.award == award {
        KeptOnlyIfGranted(st.LookupOf(award).tree, d);
      } else if st.LookupOf(d.award).Found? {
        OtherTreeEndsElsewhere(st.LookupOf(d.award).tree, d, award);
      }
    }
  }

  /** Over any run of default draws of any awards, a guarded award is handed out at most N times, N being
      what the counter was filled with and never restored above. */
  lemma HandedOutAtMostN(st: Strategy, award: int, es: seq<Event>, n: nat)
    requires Guarded(st, award) && award != 0 && ValidRun(st, award, Init(n), es, n)
    ensures Run(st, award, Init(n), es).handedOut <= n
  {
    GuardedIsOnlyByGrant(st, award);
    OnlyByGrantBounds(st, award, n);
  }

  function Times(e: Event, k: nat): seq<Event> {
    seq(k, _ => e)
  }

  /** One other draw that gives the award out, a fallback of another award's tree for instance, hands it out
      any number of times and never touches its stock. */
  lemma {:induction false} OtherDrawsHandOutFreely(st: Strategy, award: int, s: State, d: Draw, k: nat, n: nat)
    requires d.award != award && Told(st, d) == Awarded(award)
    ensures var es := Times(OtherDraw(d.award, d.raffleCount, d.stock), k);
            ValidRun(st, award, s, es, n) && Run(st, award, s, es) == s.(handedOut := s.handedOut + k)
    decreases k
  {
    var e := OtherDraw(d.award, d.raffleCount, d.stock);
    if k > 0 {
      assert Times(e, k)[1..] == Times(e, k - 1);
      OtherDrawsHandOutFreely(st, award, Step(st, award, s, e), d, k - 1, n);
    }
  }

  /** Such a strategy: another award's tree is a single fallback to this one. */
  lemma ForeignFallbackGivesItOut(award: int, other: int, rc: int, stock: StockReply)
    requires MIN_INT64 <= award <= MAX_INT64 && other != award
    ensures Told(Strategy([], map[other := Found(LuckOnly(award))], {award, other}, {}), Draw(other, rc, stock))
       == Awarded(award)
  {
    LuckOnlyGivesFallback(award, Draw(other, rc, stock));
  }
}
