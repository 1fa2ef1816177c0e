/** Compiling award rates into a pool of slots: counts by rounding, slots in random order, an index
    for each. Rates are exact decimals; sums and quotients are real numbers, not floats. */
module DrawPool {
  import opened Wrappers

  /** The decimal number units / 10^scale. */
  datatype Rate = Rate(units: nat, scale: nat)

  datatype Award = Award(id: int, rate: Rate)

  function Pow10(n: nat): (p: nat)
    ensures p > 0
  {
    if n == 0 then 1 else 10 * Pow10(n - 1)
  }

  function Value(r: Rate): (v: real)
    ensures v >= 0.0
  {
    r.units as real / Pow10(r.scale) as real
  }

  /** Digits after the point in the shortest spelling of the rate. */
  function Decimals(r: Rate): (d: nat)
    ensures d <= r.scale
    decreases r.scale
  {
    if r.scale > 0 && r.units % 10 == 0 then Decimals(Rate(r.units / 10, r.scale - 1)) else r.scale
  }

  function TotalRate(awards: seq<Award>): (t: real)
    ensures t >= 0.0
  {
    if awards == [] then 0.0 else TotalRate(awards[..|awards| - 1]) + Value(awards[|awards| - 1].rate)
  }

  function MaxDecimals(awards: seq<Award>): (d: nat)
    ensures forall i :: 0 <= i < |awards| ==> Decimals(awards[i].rate) <= d
  {
    if awards == [] then 0
    else
      var before := MaxDecimals(awards[..|awards| - 1]);
      var last := Decimals(awards[|awards| - 1].rate);
      if last > before then last else before
  }

  /** round(rate / total * range). With a total of zero the quotient is no number and its
      conversion yields no slots. */
  function SlotCount(rate: real, total: real, range: nat): nat
    requires rate >= 0.0 && total >= 0.0
  {
    if total == 0.0 then 0
    else
      NonNegativeQuotient(rate, total, range);
      (rate / total * range as real + 0.5).Floor
  }

  lemma NonNegativeQuotient(rate: real, total: real, range: nat)
    requires rate >= 0.0 && total > 0.0
    ensures rate / total >= 0.0 && rate / total * range as real >= 0.0
  {
  }

  /** All slots of the first awards, given the total and range of the whole list. */
  function Slots(awards: seq<Award>, total: real, range: nat): multiset<int>
    requires total >= 0.0
  {
    if awards == [] then multiset{}
    else
      var last := awards[|awards| - 1];
      Slots(awards[..|awards| - 1], total, range)[last.id := Slots(awards[..|awards| - 1], total, range)[last.id] + SlotCount(Value(last.rate), total, range)]
  }

  /** The pool an award list compiles to, up to order. */
  function PoolOf(awards: seq<Award>): multiset<int> {
    Slots(awards, TotalRate(awards), Pow10(MaxDecimals(awards)))
  }

  // ---------------------------------------------------------------- how good the counts are

  function Range(awards: seq<Award>): nat {
    Pow10(MaxDecimals(awards))
  }

  function Share(a: Award, total: real, range: nat): real
    requires total > 0.0
  {
    Value(a.rate) / total * range as real
  }

  /** `count` is the whole number nearest to the share, the greater one of two. */
  ghost predicate Rounds(share: real, count: nat) {
    count as real - 0.5 <= share < count as real + 0.5
  }

  lemma CountIsRounded(a: Award, total: real, range: nat)
    requires total > 0.0
    ensures Rounds(Share(a, total, range), SlotCount(Value(a.rate), total, range))
  {
  }

  /** The slots of all awards with this id. */
  function SlotsFor(awards: seq<Award>, total: real, range: nat, id: int): nat
    requires total >= 0.0
  {
    if awards == [] then 0
    else
      SlotsFor(awards[1..], total, range, id)
      + if awards[0].id == id then SlotCount(Value(awards[0].rate), total, range) else 0
  }

  lemma {:induction false} SlotsForLast(awards: seq<Award>, total: real, range: nat, id: int)
    requires total >= 0.0 && awards != []
    ensures var last := awards[|awards| - 1];
            SlotsFor(awards, total, range, id)
            == SlotsFor(awards[..|awards| - 1], total, range, id)
               + if last.id == id then SlotCount(Value(last.rate), total, range) else 0
    decreases |awards|
  {
    if |awards| > 1 {
      SlotsForLast(awards[1..], total, range, id);
      assert awards[..|awards| - 1][1..] == awards[1..][..|awards| - 2];
    }
  }

  /** Each id has in the pool what the awards with that id have together. */
  lemma {:induction false} PoolHoldsSlots(awards: seq<Award>, total: real, range: nat, id: int)
    requires total >= 0.0
    ensures Slots(awards, total, range)[id] == SlotsFor(awards, total, range, id)
    decreases |awards|
  {
    if awards != [] {
      PoolHoldsSlots(awards[..|awards| - 1], total, range, id);
      SlotsForLast(awards, total, range, id);
    }
  }

  ghost predicate OwnIds(awards: seq<Award>) {
    forall i, j :: 0 <= i < j < |awards| ==> awards[i].id != awards[j].id
  }

  lemma {:induction false} ForeignSlots(awards: seq<Award>, total: real, range: nat, id: int)
    requires total >= 0.0 && forall i :: 0 <= i < |awards| ==> awards[i].id != id
    ensures SlotsFor(awards, total, range, id) == 0
    decreases |awards|
  {
    if awards != [] { ForeignSlots(awards[1..], total, range, id); }
  }

  lemma {:induction false} OwnSlots(awards: seq<Award>, total: real, range: nat, i: nat)
    requires total >= 0.0 && OwnIds(awards) && i < |awards|
    ensures SlotsFor(awards, total, range, awards[i].id) == SlotCount(Value(awards[i].rate), total, range)
    decreases |awards|
  {
    if i == 0 {
      assert forall j :: 0 <= j < |awards[1..]| ==> awards[1..][j] == awards[j + 1];
      ForeignSlots(awards[1..], total, range, awards[0].id);
    } else {
      assert awards[1..][i - 1] == awards[i];
      OwnSlots(awards[1..], total, range, i - 1);
    }
  }

  /** When no two awards have the same id, every award has in the pool its exact share, rounded. */
  ghost predicate SharesOut(pool: multiset<int>, awards: seq<Award>)
    requires TotalRate(awards) > 0.0
  {
    OwnIds(awards) ==>
      forall a :: a in awards ==> Rounds(Share(a, TotalRate(awards), Range(awards)), pool[a.id])
  }

  lemma PoolSharesOut(awards: seq<Award>)
    requires TotalRate(awards) > 0.0
    ensures SharesOut(PoolOf(awards), awards)
  {
    var total, range := TotalRate(awards), Range(awards);
    if OwnIds(awards) {
      forall a | a in awards ensures Rounds(Share(a, total, range), PoolOf(awards)[a.id]) {
        var i :| 0 <= i < |awards| && awards[i] == a;
        PoolHoldsSlots(awards, total, range, a.id);
        OwnSlots(awards, total, range, i);
        CountIsRounded(a, total, range);
      }
    }
  }

  function TotalShare(awards: seq<Award>, total: real, range: nat): real
    requires total > 0.0
  {
    if awards == [] then 0.0 else TotalShare(awards[..|awards| - 1], total, range) + Share(awards[|awards| - 1], total, range)
  }

  lemma {:induction false} SharesAddUp(awards: seq<Award>, total: real, range: nat)
    requires total > 0.0
    ensures TotalShare(awards, total, range) == TotalRate(awards) / total * range as real
    decreases |awards|
  {
    if awards != [] {
      var front, last := awards[..|awards| - 1], awards[|awards| - 1];
      SharesAddUp(front, total, range);
      QuotientOfSum(TotalRate(front), Value(last.rate), total, range as real);
    }
  }

  lemma QuotientOfSum(a: real, b: real, total: real, range: real)
    requires total > 0.0
    ensures (a + b) / total * range == a / total * range + b / total * range
  {
    assert (a + b) / total == a / total + b / total;
    Distribute(a / total, b / total, range);
  }

  lemma Distribute(x: real, y: real, z: real)
    ensures (x + y) * z == x * z + y * z
  {
  }

  lemma {:induction false} SizeNearTotalShare(awards: seq<Award>, total: real, range: nat)
    requires total > 0.0
    ensures var gap := |Slots(awards, total, range)| as real - TotalShare(awards, total, range);
            -0.5 * |awards| as real <= gap <= 0.5 * |awards| as real
    decreases |awards|
  {
    if awards != [] {
      var front, last := awards[..|awards| - 1], awards[|awards| - 1];
      SizeNearTotalShare(front, total, range);
      CountIsRounded(last, total, range);
      assert |Slots(awards, total, range)| == |Slots(front, total, range)| + SlotCount(Value(last.rate), total, range);
    }
  }

  /** Twice the gap between the pool's length and 10^d is at most the number of awards. */
  lemma PoolLengthNearRange(awards: seq<Award>)
    requires TotalRate(awards) > 0.0
    ensures -(|awards| as int) <= 2 * (|PoolOf(awards)| - Range(awards)) <= |awards|
  {
    var total, range := TotalRate(awards), Range(awards);
    SharesAddUp(awards, total, range);
    SizeNearTotalShare(awards, total, range);
    OverItself(total);
    assert TotalShare(awards, total, range) == range as real;
  }

  lemma OverItself(x: real)
    requires x > 0.0
    ensures x / x == 1.0
  {
  }

  predicate RoundsToNothing(a: Award, total: real, range: nat)
    requires total > 0.0
  {
    2.0 * Share(a, total, range) < 1.0
  }

  lemma CountIsZeroIff(a: Award, total: real, range: nat)
    requires total > 0.0
    ensures SlotCount(Value(a.rate), total, range) == 0 <==> RoundsToNothing(a, total, range)
  {
  }

  /** The pool is empty exactly when every award's share rounds to nothing. */
  lemma {:induction false} EmptyIffAllRoundToNothing(awards: seq<Award>, total: real, range: nat)
    requires total > 0.0
    ensures Slots(awards, total, range) == multiset{}
            <==> forall i :: 0 <= i < |awards| ==> RoundsToNothing(awards[i], total, range)
    decreases |awards|
  {
    if awards != [] {
      var n := |awards| - 1;
      EmptyIffAllRoundToNothing(awards[..n], total, range);
      CountIsZeroIff(awards[n], total, range);
      CountOf(awards, total, range);
      EmptyIffNoCount(Slots(awards, total, range), Slots(awards[..n], total, range), SlotCount(Value(awards[n].rate), total, range));
      assert forall i :: 0 <= i < n ==> awards[..n][i] == awards[i];
    }
  }

  lemma EmptyIffNoCount(all: multiset<int>, front: multiset<int>, count: nat)
    requires |all| == |front| + count
    ensures all == multiset{} <==> front == multiset{} && count == 0
  {
  }

  lemma CountOf(awards: seq<Award>, total: real, range: nat)
    requires total >= 0.0 && awards != []
    ensures |Slots(awards, total, range)|
         == |Slots(awards[..|awards| - 1], total, range)| + SlotCount(Value(awards[|awards| - 1].rate), total, range)
  {
  }

  lemma {:induction false} UnitRates(awards: seq<Award>)
    requires forall a :: a in awards ==> a.rate == Rate(1, 0)
    ensures TotalRate(awards) == |awards| as real && MaxDecimals(awards) == 0
    decreases |awards|
  {
    if awards != [] {
      UnitRates(awards[..|awards| - 1]);
      assert awards[|awards| - 1] in awards;
      assert Value(Rate(1, 0)) == 1.0 && Decimals(Rate(1, 0)) == 0;
    }
  }

  lemma SmallShare(n: real)
    requires n >= 3.0
    ensures 2.0 * (1.0 / n * 1.0) < 1.0
  {
  }

  /** Which does happen: three or more awards of rate 1 have no decimals, so the range is 1 and each rounds to 0. */
  lemma WholeRatesCanCompileToNothing(awards: seq<Award>)
    requires |awards| >= 3 && forall a :: a in awards ==> a.rate == Rate(1, 0)
    ensures PoolOf(awards) == multiset{}
  {
    UnitRates(awards);
    forall i | 0 <= i < |awards| ensures RoundsToNothing(awards[i], TotalRate(awards), 1) {
      assert awards[i] in awards;
      SmallShare(TotalRate(awards));
      assert Value(awards[i].rate) == 1.0;
    }
    EmptyIffAllRoundToNothing(awards, TotalRate(awards), 1);
  }

  // ---------------------------------------------------------------- rates that sum to one

  /** With enough digits every rate is a whole number of slots. */
  lemma {:induction false} WholeSlots(r: Rate, d: nat) returns (slots: nat)
    requires Decimals(r) <= d
    ensures Value(r) * Pow10(d) as real == slots as real
    decreases r.scale
  {
    if r.scale > 0 && r.units % 10 == 0 {
      TenTimes(r);
      var shorter := Rate(r.units / 10, r.scale - 1);
      slots := WholeSlots(shorter, d);
    } else {
      slots := ShiftedUnits(r, d);
    }
  }

  lemma ShiftedUnits(r: Rate, d: nat) returns (slots: nat)
    requires r.scale <= d
    ensures Value(r) * Pow10(d) as real == slots as real
  {
    PowersMultiply(d - r.scale, r.scale);
    slots := ShiftPoint(r.units, Pow10(r.scale), Pow10(d - r.scale), Pow10(d));
  }

  lemma TenTimes(r: Rate)
    requires r.scale > 0 && r.units % 10 == 0
    ensures Value(Rate(r.units / 10, r.scale - 1)) == Value(r)
  {
    var u, p := r.units / 10, Pow10(r.scale - 1);
    assert r.units == 10 * u;
    CancelTen(u as real, p as real);
  }

  lemma CancelTen(u: real, p: real)
    requires p > 0.0
    ensures (10.0 * u) / (10.0 * p) == u / p
  {
  }

  lemma {:induction false} PowersMultiply(a: nat, b: nat)
    ensures Pow10(a + b) == Pow10(a) * Pow10(b)
  {
    if a > 0 { PowersMultiply(a - 1, b); }
  }

  lemma ShiftPoint(u: nat, p: nat, q: nat, n: nat) returns (slots: nat)
    requires p > 0 && n == q * p
    ensures u as real / p as real * n as real == slots as real
  {
    slots := u * q;
    assert n as real == q as real * p as real;
    assert u as real / p as real * p as real == u as real;
  }

  ghost predicate CountExact(a: Award, total: real, range: nat)
    requires total > 0.0
  {
    SlotCount(Value(a.rate), total, range) as real == Share(a, total, range)
  }

  lemma ShareOfWhole(a: Award, range: nat)
    ensures Share(a, 1.0, range) == Value(a.rate) * range as real
  {
    assert Value(a.rate) / 1.0 == Value(a.rate);
  }

  lemma ExactIfWhole(a: Award, total: real, range: nat, slots: nat)
    requires total > 0.0 && Share(a, total, range) == slots as real
    ensures CountExact(a, total, range)
  {
    CountIsRounded(a, total, range);
    NearestWhole(SlotCount(Value(a.rate), total, range), slots);
  }

  lemma NearestWhole(m: nat, n: nat)
    requires -0.5 <= m as real - n as real <= 0.5
    ensures m == n
  {
    assert (m - n) as real == m as real - n as real;
  }

  lemma WholeShareIsExact(a: Award, d: nat)
    requires Decimals(a.rate) <= d
    ensures CountExact(a, 1.0, Pow10(d))
  {
    var slots := WholeSlots(a.rate, d);
    ShareOfWhole(a, Pow10(d));
    ExactIfWhole(a, 1.0, Pow10(d), slots);
  }

  /** When the rates sum to one, the pool has 10^d slots, and every award, if its id is its own, has rate times 10^d
      of them. */
  lemma NormalizedIsExact(awards: seq<Award>)
    requires TotalRate(awards) == 1.0
    ensures |PoolOf(awards)| == Range(awards)
    ensures OwnIds(awards) ==>
          forall a :: a in awards ==> PoolOf(awards)[a.id] as real == Value(a.rate) * Range(awards) as real
  {
    forall a | a in awards ensures CountExact(a, 1.0, Range(awards)) {
      WholeShareIsExact(a, MaxDecimals(awards));
    }
    ExactSize(awards, Range(awards));
    SharesOfOne(awards, Range(awards));
    if OwnIds(awards) {
      forall a | a in awards ensures PoolOf(awards)[a.id] as real == Value(a.rate) * Range(awards) as real {
        var i :| 0 <= i < |awards| && awards[i] == a;
        PoolHoldsSlots(awards, 1.0, Range(awards), a.id);
        OwnSlots(awards, 1.0, Range(awards), i);
        ShareOfWhole(a, Range(awards));
      }
    }
  }

  lemma SharesOfOne(awards: seq<Award>, range: nat)
    requires TotalRate(awards) == 1.0
    ensures TotalShare(awards, 1.0, range) == range as real
  {
    SharesAddUp(awards, 1.0, range);
    OverItself(1.0);
  }

  lemma {:induction false} ExactSize(awards: seq<Award>, range: nat)
    requires forall a :: a in awards ==> CountExact(a, 1.0, range)
    ensures |Slots(awards, 1.0, range)| as real == TotalShare(awards, 1.0, range)
    decreases |awards|
  {
    if awards != [] {
      var front, last := awards[..|awards| - 1], awards[|awards| - 1];
      ExactSize(front, range);
      CountOf(awards, 1.0, range);
      assert CountExact(last, 1.0, range);
    }
  }

  /** With `d` digits the rate is this many whole slots. */
  ghost predicate WholeWith(r: Rate, d: nat, slots: nat) {
    Value(r) * Pow10(d) as real == slots as real
  }

  /** So the digits counted are the fewest that turn the rate into a whole number. */
  lemma DecimalsAreFewest(r: Rate, d: nat)
    ensures Decimals(r) <= d <==> exists slots :: WholeWith(r, d, slots)
  {
    if Decimals(r) <= d {
      var slots := WholeSlots(r, d);
      assert WholeWith(r, d, slots);
    } else if slots :| WholeWith(r, d, slots) {
      WholeNeedsDigits(r, d, slots);
    }
  }

  lemma {:induction false} WholeNeedsDigits(r: Rate, d: nat, slots: nat)
    requires WholeWith(r, d, slots)
    ensures Decimals(r) <= d
    decreases r.scale
  {
    if r.scale > 0 && r.units % 10 == 0 {
      TenTimes(r);
      WholeNeedsDigits(Rate(r.units / 10, r.scale - 1), d, slots);
    } else if d < r.scale {
      UnitsAreTens(r, d, slots);
    }
  }

  lemma UnitsAreTens(r: Rate, d: nat, slots: nat)
    requires WholeWith(r, d, slots) && d < r.scale
    ensures r.units % 10 == 0
  {
    var q := Pow10(r.scale - d - 1);
    PowersMultiply(r.scale - d, d);
    Unshift(r.units, Pow10(r.scale), 10 * q, Pow10(d), slots);
    assert 10 * q * slots == 10 * (q * slots);
  }

  lemma Unshift(u: nat, p: nat, q: nat, n: nat, slots: nat)
    requires p > 0 && n > 0 && p == q * n && u as real / p as real * n as real == slots as real
    ensures u == q * slots
  {
    assert p as real == q as real * n as real;
    assert u as real == u as real / p as real * p as real;
    assert u as real == slots as real * q as real;
    assert (q * slots) as real == q as real * slots as real;
  }

  /** And the longest is one of them. */
  lemma {:induction false} LongestIsThere(awards: seq<Award>)
    requires awards != []
    ensures exists i :: 0 <= i < |awards| && Decimals(awards[i].rate) == MaxDecimals(awards)
    decreases |awards|
  {
    var n := |awards| - 1;
    if Decimals(awards[n].rate) != MaxDecimals(awards) {
      LongestIsThere(awards[..n]);
      var i :| 0 <= i < n && Decimals(awards[..n][i].rate) == MaxDecimals(awards[..n]);
      assert awards[i] == awards[..n][i];
    }
  }

  // ---------------------------------------------------------------- the compiler's loops

  method Total(awards: seq<Award>) returns (total: real)
    ensures total == TotalRate(awards)
  {
    total := 0.0;
    for i := 0 to |awards|
      invariant total == TotalRate(awards[..i])
    {
      assert awards[..i + 1][..i] == awards[..i];
      total := total + Value(awards[i].rate);
    }
    assert awards[..|awards|] == awards;
  }

  method LongestDecimals(awards: seq<Award>) returns (longest: nat)
    ensures longest == MaxDecimals(awards)
    ensures forall a :: a in awards ==> Decimals(a.rate) <= longest
    ensures awards != [] ==> exists a :: a in awards && Decimals(a.rate) == longest
  {
    longest := 0;
    for i := 0 to |awards|
      invariant longest == MaxDecimals(awards[..i])
    {
      assert awards[..i + 1][..i] == awards[..i];
      var d := Decimals(awards[i].rate);
      if d > longest { longest := d; }
    }
    assert awards[..|awards|] == awards;
    if awards != [] {
      LongestIsThere(awards);
      var i :| 0 <= i < |awards| && Decimals(awards[i].rate) == longest;
      assert awards[i] in awards;
    }
  }

  /** Appending one award `count` times. */
  method AppendSlots(pool: seq<int>, id: int, count: nat) returns (longer: seq<int>)
    ensures multiset(longer) == multiset(pool)[id := multiset(pool)[id] + count]
  {
    longer := pool;
    for k := 0 to count
      invariant multiset(longer) == multiset(pool)[id := multiset(pool)[id] + k]
    {
      longer := longer + [id];
    }
  }

  method FillPool(awards: seq<Award>) returns (pool: seq<int>)
    ensures multiset(pool) == PoolOf(awards)
    ensures forall id :: multiset(pool)[id] == SlotsFor(awards, TotalRate(awards), Range(awards), id)
  {
    var total := Total(awards);
    var longest := LongestDecimals(awards);
    var range := Pow10(longest);
    pool := [];
    for i := 0 to |awards|
      invariant multiset(pool) == Slots(awards[..i], total, range)
    {
      assert awards[..i + 1][..i] == awards[..i];
      pool := AppendSlots(pool, awards[i].id, SlotCount(Value(awards[i].rate), total, range));
    }
    assert awards[..|awards|] == awards;
    forall id ensures multiset(pool)[id] == SlotsFor(awards, total, range, id) {
      PoolHoldsSlots(awards, total, range, id);
    }
  }

  /** math/rand.Shuffle, in place: each slot from the last down swaps with a random one not above it. */
  method Shuffle(a: array<int>)
    modifies a
    ensures multiset(a[..]) == multiset(old(a[..]))
  {
    var i := a.Length - 1;
    while i > 0
      invariant multiset(a[..]) == multiset(old(a[..]))
    {
      var j :| 0 <= j <= i;
      a[i], a[j] := a[j], a[i];
      i := i - 1;
    }
  }

  /** assembleLotteryStrategyWithAwards up to the store: the pool in its final order, and its index map. */
  method Compile(awards: seq<Award>) returns (pool: seq<int>, index: map<int, int>)
    ensures multiset(pool) == PoolOf(awards)
    ensures forall id :: multiset(pool)[id] == SlotsFor(awards, TotalRate(awards), Range(awards), id)
    ensures TotalRate(awards) > 0.0 ==> SharesOut(multiset(pool), awards)
    ensures forall i :: i in index <==> 0 <= i < |pool|
    ensures forall i :: 0 <= i < |pool| ==> index[i] == pool[i]
  {
    var filled := FillPool(awards);
    var a := new int[|filled|](i requires 0 <= i < |filled| => filled[i]);
    assert a[..] == filled;
    Shuffle(a);
    pool := a[..];
    if TotalRate(awards) > 0.0 { PoolSharesOut(awards); }
    index := map[];
    for i := 0 to |pool|
      invariant forall k :: k in index <==> 0 <= k < i
      invariant forall k :: 0 <= k < i ==> index[k] == pool[k]
    {
      index := index[i := pool[i]];
    }
  }

  /** What a compiled pool can give out: only listed awards, each as often as its count. */
  lemma {:induction false} OnlyListedAwards(awards: seq<Award>, total: real, range: nat, id: int)
    requires total >= 0.0 && id in Slots(awards, total, range)
    ensures exists i :: 0 <= i < |awards| && awards[i].id == id
    decreases |awards|
  {
    var n := |awards| - 1;
    if awards[n].id != id {
      OnlyListedAwards(awards[..n], total, range, id);
      var i :| 0 <= i < n && awards[..n][i].id == id;
      assert awards[i].id == id;
    }
  }
}
