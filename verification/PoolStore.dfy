/** The cache that holds compiled pools: for each pool name a length, and a hash from decimal index
    to award. Storing over an older pool merges into its hash; nothing is ever deleted. */
module PoolStore {
  import opened Wrappers
  import opened Text

  datatype Cache = Cache(ranges: map<string, int>, tables: map<string, map<string, int>>)

  const EMPTY := Cache(map[], map[])

  function Table(c: Cache, name: string): map<string, int> {
    if name in c.tables then c.tables[name] else map[]
  }

  /** The hash fields of a pool: its indices in decimal. */
  function Fields(pool: seq<int>): map<string, int> {
    if pool == [] then map[]
    else Fields(pool[..|pool| - 1])[Itoa(|pool| - 1) := pool[|pool| - 1]]
  }

  /** Length first, then the hash. Writing a hash with no fields is an error of the store;
      `hashWritten` is false when the second write fails. */
  function Store(c: Cache, name: string, pool: seq<int>, hashWritten: bool): (Cache, bool) {
    var c' := c.(ranges := c.ranges[name := |pool|]);
    if pool == [] || !hashWritten then (c', false)
    else (c'.(tables := c.tables[name := Table(c, name) + Fields(pool)]), true)
  }

  datatype DrawError = RangeFailed | RangeInvalid | AssembleFailed

  /** Draw from a pool with the random value `r`, which is below the stored length. */
  function Draw(c: Cache, name: string, r: nat): Result<int, DrawError> {
    if name !in c.ranges then Err(RangeFailed)
    else if c.ranges[name] <= 0 then Err(RangeInvalid)
    else if Itoa(r) !in Table(c, name) then Err(AssembleFailed)
    else Ok(Table(c, name)[Itoa(r)])
  }

  /** A pool is armed when its length is stored and every index below it draws the pool's slot. */
  ghost predicate Armed(c: Cache, name: string, pool: seq<int>) {
    && name in c.ranges && c.ranges[name] == |pool|
    && forall i: nat :: i < |pool| ==> Draw(c, name, i) == Ok(pool[i])
  }

  lemma ItoaIsInjective(i: nat, j: nat)
    requires Itoa(i) == Itoa(j)
    ensures i == j
  {
    ValueOfDigits(i);
    ValueOfDigits(j);
  }

  lemma {:induction false} FieldsOfPool(pool: seq<int>, i: nat)
    ensures Itoa(i) in Fields(pool) <==> i < |pool|
    ensures i < |pool| ==> Fields(pool)[Itoa(i)] == pool[i]
    decreases |pool|
  {
    if pool != [] {
      FieldsOfPool(pool[..|pool| - 1], i);
      if Itoa(i) == Itoa(|pool| - 1) { ItoaIsInjective(i, |pool| - 1); }
    }
  }

  /** Storing a pool arms it, whatever was stored under its name before, and touches no other name. */
  lemma StoreArms(c: Cache, name: string, pool: seq<int>)
    requires pool != []
    ensures Armed(Store(c, name, pool, true).0, name, pool)
  {
    forall i: nat | i < |pool| ensures Draw(Store(c, name, pool, true).0, name, i) == Ok(pool[i]) {
      FieldsOfPool(pool, i);
    }
  }

  lemma StoreLeavesOthers(c: Cache, name: string, pool: seq<int>, hashWritten: bool, other: string, r: nat)
    requires other != name
    ensures Draw(Store(c, name, pool, hashWritten).0, other, r) == Draw(c, other, r)
  {
  }

  // ---------------------------------------------------------------- any sequence of re-armings

  datatype Arming = Arming(name: string, pool: seq<int>, hashWritten: bool)

  function Rearm(c: Cache, arms: seq<Arming>): Cache {
    if arms == [] then c
    else
      var last := arms[|arms| - 1];
      Store(Rearm(c, arms[..|arms| - 1]), last.name, last.pool, last.hashWritten).0
  }

  /** Position of the last arming of a name. */
  ghost predicate LastArming(arms: seq<Arming>, name: string, i: int) {
    0 <= i < |arms| && arms[i].name == name && forall j :: i < j < |arms| ==> arms[j].name != name
  }

  lemma {:induction false} LatestPoolIsDrawn(c: Cache, arms: seq<Arming>, name: string, i: int)
    requires LastArming(arms, name, i) && arms[i].pool != [] && arms[i].hashWritten
    ensures Armed(Rearm(c, arms), name, arms[i].pool)
    decreases |arms|
  {
    var n := |arms| - 1;
    var before := Rearm(c, arms[..n]);
    if i == n {
      StoreArms(before, name, arms[n].pool);
    } else {
      LatestPoolIsDrawn(c, arms[..n], name, i);
      forall r: nat | r < |arms[i].pool| ensures Draw(Rearm(c, arms), name, r) == Ok(arms[i].pool[r]) {
        StoreLeavesOthers(before, arms[n].name, arms[n].pool, arms[n].hashWritten, name, r);
      }
    }
  }

  /** Every entry of a pool's hash is a slot of some pool stored under that name: a draw that raced
      with a re-arming, or followed one whose hash write failed, still gives out an award that was listed. */
  lemma {:induction false} DrawnWasStored(arms: seq<Arming>, name: string, r: nat)
    requires Draw(Rearm(EMPTY, arms), name, r).Ok?
    ensures exists i :: 0 <= i < |arms| && arms[i].name == name
                     && Draw(Rearm(EMPTY, arms), name, r).value in arms[i].pool
    decreases |arms|
  {
    TableWasStored(arms, name, r);
  }

  lemma {:induction false} TableWasStored(arms: seq<Arming>, name: string, r: nat)
    requires Itoa(r) in Table(Rearm(EMPTY, arms), name)
    ensures exists i :: 0 <= i < |arms| && arms[i].name == name
                     && Table(Rearm(EMPTY, arms), name)[Itoa(r)] in arms[i].pool
    decreases |arms|
  {
    var n := |arms| - 1;
    FieldsOfPool(arms[n].pool, r);
    if arms[n].name == name && arms[n].hashWritten && r < |arms[n].pool| {
      assert arms[n].pool[r] in arms[n].pool;
    } else {
      TableWasStored(arms[..n], name, r);
      var i :| 0 <= i < n && arms[..n][i].name == name && Table(Rearm(EMPTY, arms[..n]), name)[Itoa(r)] in arms[..n][i].pool;
      assert arms[i] == arms[..n][i];
    }
  }

  // ---------------------------------------------------------------- when arming fails half-way

  /** An empty pool is reported as an error, and from then on every draw is refused. */
  lemma EmptyPoolRefusesDraws(c: Cache, name: string, hashWritten: bool, r: nat)
    ensures var (c', ok) := Store(c, name, [], hashWritten); !ok && Draw(c', name, r) == Err(RangeInvalid)
  {
  }

  /** The hash under `name`, whatever pools left it there, agrees with the slots of `pool`. */
  ghost predicate HashHolds(c: Cache, name: string, pool: seq<int>) {
    forall i: nat :: i < |pool| ==> Itoa(i) in Table(c, name) && Table(c, name)[Itoa(i)] == pool[i]
  }

  /** After a store whose hash write failed, over any cache: the new pool is armed if and only if the old
      hash happens to hold its slots, and every draw within the new length gives what that hash has, or fails. */
  lemma HalfStoredPool(c: Cache, name: string, pool: seq<int>)
    requires pool != []
    ensures var c' := Store(c, name, pool, false).0;
            && (Armed(c', name, pool) <==> HashHolds(c, name, pool))
            && forall i: nat :: Draw(c', name, i) == if Itoa(i) in Table(c, name) then Ok(Table(c, name)[Itoa(i)]) else Err(AssembleFailed)
  {
    var c' := Store(c, name, pool, false).0;
    if Armed(c', name, pool) {
      forall i: nat | i < |pool| ensures Itoa(i) in Table(c, name) && Table(c, name)[Itoa(i)] == pool[i] {
        assert Draw(c', name, i) == Ok(pool[i]);
      }
    }
  }

  /** Over an armed pool the draws within both lengths keep giving the old slots; a new pool no longer than
      the old one is armed if and only if the old one starts with it. */
  lemma HalfStoredOverPool(c: Cache, name: string, earlier: seq<int>, pool: seq<int>)
    requires Armed(c, name, earlier) && pool != []
    ensures var c' := Store(c, name, pool, false).0;
            && (forall i: nat :: i < |pool| && i < |earlier| ==> Draw(c', name, i) == Ok(earlier[i]))
            && (|pool| <= |earlier| ==> (Armed(c', name, pool) <==> pool <= earlier))
  {
    var c' := Store(c, name, pool, false).0;
    forall i: nat | i < |pool| && i < |earlier| ensures Draw(c', name, i) == Ok(earlier[i]) {
      assert Draw(c, name, i) == Ok(earlier[i]);
    }
    if |pool| <= |earlier| && Armed(c', name, pool) {
      forall i: nat | i < |pool| ensures pool[i] == earlier[i] { assert Draw(c', name, i) == Ok(pool[i]); }
    }
  }

  // ---------------------------------------------------------------- the repository

  class Repository {
    var ranges: map<string, int>
    var tables: map<string, map<string, int>>

    function Value(): Cache
      reads this
    {
      Cache(ranges, tables)
    }

    /** StoreStrategyAwardPool: the length is written before the hash fields are built; when even that
        fails nothing is stored. */
    method StoreStrategyAwardPool(name: string, ghost pool: seq<int>, rateRange: nat, index: map<int, int>,
                                  lengthWritten: bool, hashWritten: bool) returns (ok: bool)
      requires rateRange == |pool|
      requires (forall i :: i in index <==> 0 <= i < |pool|) && forall i :: 0 <= i < |pool| ==> index[i] == pool[i]
      modifies this
      ensures lengthWritten ==> (Value(), ok) == Store(old(Value()), name, pool, hashWritten)
      ensures !lengthWritten ==> (Value(), ok) == (old(Value()), false)
    {
      if !lengthWritten { return false; }
      ranges := ranges[name := rateRange];
      var values: map<string, int> := map[];
      for i := 0 to rateRange
        invariant values == Fields(pool[..i])
      {
        assert pool[..i + 1][..i] == pool[..i];
        values := values[Itoa(i) := index[i]];
      }
      assert pool[..rateRange] == pool;
      if rateRange == 0 || !hashWritten { return false; }
      tables := tables[name := (if name in tables then tables[name] else map[]) + values];
      return true;
    }

    method GetRandomAwardID(name: string, random: nat) returns (r: Result<int, DrawError>)
      ensures r == Draw(Value(), name, random)
      ensures r == Err(RangeFailed) <==> name !in ranges
      ensures r == Err(RangeInvalid) <==> name in ranges && ranges[name] <= 0
      ensures r.Ok? ==> name in tables && Itoa(random) in tables[name] && r.value == tables[name][Itoa(random)]
    {
      if name !in ranges { return Err(RangeFailed); }
      if ranges[name] <= 0 { return Err(RangeInvalid); }
      if name !in tables || Itoa(random) !in tables[name] { return Err(AssembleFailed); }
      return Ok(tables[name][Itoa(random)]);
    }
  }
}
