/** Which database and which table a user's rows live in. The checksum of the key is a parameter. */
module ShardRouter {
  import opened Text

  function Zeros(n: nat): string {
    seq(n, _ => '0')
  }

  /** fmt.Sprintf("%0<width>d", n). */
  function Padded(n: nat, width: nat): (s: string)
    ensures AllDigits(s)
  {
    var d := Digits(n);
    if |d| < width then Zeros(width - |d|) + d else d
  }

  lemma {:induction false} ZerosAddNothing(k: nat, s: string)
    requires AllDigits(s)
    ensures AllDigits(Zeros(k) + s) && Value(Zeros(k) + s) == Value(s)
    decreases |s|
  {
    var t := Zeros(k) + s;
    if |s| == 1 {
      if k > 0 {
        assert t[..|t| - 1] == Zeros(k);
        ValueOfZeros(k);
      } else {
        assert t == s;
      }
    } else {
      assert t[..|t| - 1] == Zeros(k) + s[..|s| - 1];
      ZerosAddNothing(k, s[..|s| - 1]);
    }
  }

  lemma {:induction false} ValueOfZeros(k: nat)
    requires k > 0
    ensures AllDigits(Zeros(k)) && Value(Zeros(k)) == 0
  {
    if k > 1 {
      assert Zeros(k)[..k - 1] == Zeros(k - 1);
      ValueOfZeros(k - 1);
    }
  }

  /** Padding keeps the number, so no two numbers get the same key or suffix. */
  lemma PaddedKeepsValue(n: nat, width: nat)
    ensures Value(Padded(n, width)) == n
  {
    ValueOfDigits(n);
    if |Digits(n)| < width { ZerosAddNothing(width - |Digits(n)|, Digits(n)); }
  }

  lemma PaddedIsInjective(a: nat, b: nat, width: nat)
    ensures Padded(a, width) == Padded(b, width) <==> a == b
  {
    PaddedKeepsValue(a, width);
    PaddedKeepsValue(b, width);
  }

  /** `Crash` is the division by a zero count, `NoShard` a key without a database. */
  datatype Route = Routed(db: nat, suffix: string) | NoShard | Crash

  class DBRouter {
    const dbCount: int
    const tbCount: int
    const dbMap: map<string, nat>

    /** NewDBRouter: one connection per database, under the keys "01", "02", ... */
    constructor (dbCount: int, tbCount: int)
      ensures this.dbCount == dbCount && this.tbCount == tbCount
      ensures forall i: nat :: Padded(i, 2) in dbMap <==> 1 <= i <= dbCount
      ensures forall i: nat :: 1 <= i <= dbCount ==> dbMap[Padded(i, 2)] == i
    {
      var conns: map<string, nat> := map[];
      var i := 1;
      while i <= dbCount
        invariant 1 <= i && (i <= dbCount + 1 || (i == 1 && conns == map[]))
        invariant forall k: nat :: Padded(k, 2) in conns <==> 1 <= k < i
        invariant forall k: nat :: 1 <= k < i ==> conns[Padded(k, 2)] == k
        decreases dbCount - i
      {
        forall k: nat ensures Padded(k, 2) == Padded(i, 2) <==> k == i { PaddedIsInjective(k, i, 2); }
        conns := conns[Padded(i, 2) := i];
        i := i + 1;
      }
      this.dbCount := dbCount;
      this.tbCount := tbCount;
      dbMap := conns;
    }

    /** DBStrategy. The checksum is not negative, so Go's division agrees with the one used here.
        With positive counts every key has a database. */
    method DBStrategy(hash: nat) returns (r: Route)
      requires forall i: nat :: Padded(i, 2) in dbMap <==> 1 <= i <= dbCount
      requires forall i: nat :: 1 <= i <= dbCount ==> dbMap[Padded(i, 2)] == i
      ensures r == Crash <==> dbCount == 0 || tbCount == 0
      ensures r.Routed? ==> dbCount >= 1
      ensures dbCount >= 1 && tbCount >= 1 ==> r == Place(hash, dbCount, tbCount)
    {
      var size := dbCount * tbCount;
      if size == 0 { return Crash; }
      var idx := hash % size;
      var dbIdx := idx / tbCount + 1;
      if dbCount >= 1 && tbCount >= 1 { OwnerExists(idx, dbCount, tbCount); }
      if dbIdx < 1 || Padded(dbIdx, 2) !in dbMap { return NoShard; }
      return Routed(dbMap[Padded(dbIdx, 2)], Padded(idx, 3));
    }

    /** GetDB; a negative index prints with its sign and is under no key. */
    method GetDB(i: int) returns (found: bool, db: nat)
      requires forall i: nat :: Padded(i, 2) in dbMap <==> 1 <= i <= dbCount
      requires forall i: nat :: 1 <= i <= dbCount ==> dbMap[Padded(i, 2)] == i
      ensures found <==> 1 <= i <= dbCount
      ensures found ==> db == i
    {
      if i >= 0 && Padded(i, 2) in dbMap { return true, dbMap[Padded(i, 2)]; }
      return false, 0;
    }
  }

  function Place(hash: nat, dbCount: nat, tbCount: nat): Route
    requires dbCount >= 1 && tbCount >= 1
  {
    var idx := hash % (dbCount * tbCount);
    Routed(idx / tbCount + 1, Padded(idx, 3))
  }

  lemma Scale(a: nat, b: nat, n: nat)
    ensures a <= b ==> a * n <= b * n
  {
  }

  lemma OwnerExists(idx: nat, dbCount: nat, tbCount: nat)
    requires dbCount >= 1 && tbCount >= 1 && idx < dbCount * tbCount
    ensures 1 <= idx / tbCount + 1 <= dbCount
  {
    Scale(dbCount, idx / tbCount, tbCount);
  }

  /** Two keys share a table exactly if their checksums agree modulo the number of tables, and sharing
      the suffix is enough: no suffix exists in two databases. */
  lemma SameTableIff(a: nat, b: nat, dbCount: nat, tbCount: nat)
    requires dbCount >= 1 && tbCount >= 1
    ensures Place(a, dbCount, tbCount) == Place(b, dbCount, tbCount) <==>
          a % (dbCount * tbCount) == b % (dbCount * tbCount)
    ensures Place(a, dbCount, tbCount).suffix == Place(b, dbCount, tbCount).suffix ==>
          Place(a, dbCount, tbCount).db == Place(b, dbCount, tbCount).db
  {
    PaddedIsInjective(a % (dbCount * tbCount), b % (dbCount * tbCount), 3);
  }

  /** Every table of every database is used by some checksum: database i owns exactly the tables from
      (i - 1) * tbCount up to i * tbCount, and none of them is dead. */
  lemma EveryTableIsUsed(db: nat, k: nat, dbCount: nat, tbCount: nat)
    requires 1 <= db <= dbCount && k < tbCount
    ensures Place((db - 1) * tbCount + k, dbCount, tbCount) == Routed(db, Padded((db - 1) * tbCount + k, 3))
  {
    var idx := (db - 1) * tbCount + k;
    SlotInRange(db - 1, k, dbCount, tbCount);
    DivideBack(db - 1, k, tbCount);
    SmallIsItsOwnRemainder(idx, dbCount * tbCount);
  }

  lemma SmallIsItsOwnRemainder(idx: nat, size: nat)
    requires idx < size
    ensures idx % size == idx
  {
  }

  lemma SlotInRange(q: nat, k: nat, dbCount: nat, tbCount: nat)
    requires q < dbCount && k < tbCount
    ensures q * tbCount + k < dbCount * tbCount
  {
    Scale(q + 1, dbCount, tbCount);
    assert (q + 1) * tbCount == q * tbCount + tbCount;
  }

  lemma DivideBack(q: nat, k: nat, n: nat)
    requires k < n
    ensures (q * n + k) / n == q
  {
    var d := (q * n + k) / n;
    Scale(d + 1, q, n);
    Scale(q + 1, d, n);
    assert (d + 1) * n == d * n + n && (q + 1) * n == q * n + n;
  }
}
