/** The search index as a fold over the row log of the shard databases. */
module CdcMirror {
  import opened Collections
  import opened Text
  import ShardRouter

  // ---------------------------------------------------------------- names

  function LowerChar(c: char): char {
    if 'A' <= c <= 'Z' then ((c as int) + 32) as char else c
  }

  /** strings.ToLower, on ASCII. */
  function Lower(s: string): string {
    seq(|s|, i requires 0 <= i < |s| => LowerChar(s[i]))
  }

  predicate HasShardSuffix(s: string) {
    |s| >= 4 && s[|s| - 4] == '_' && forall i :: |s| - 3 <= i < |s| ==> IsDigit(s[i])
  }

  /** trimShardSuffix. */
  function TrimShardSuffix(name: string): string {
    var s := Lower(name);
    if HasShardSuffix(s) then s[..|s| - 4] else s
  }

  /** LogicalIndexName; `prefix` is the configured prefix without surrounding space. */
  function LogicalIndexName(prefix: string, tableName: string): string {
    if prefix == "" then Lower(TrimShardSuffix(tableName)) else Lower(prefix + "_" + TrimShardSuffix(tableName))
  }

  lemma LowerJoin(a: string, b: string)
    ensures Lower(a + b) == Lower(a) + Lower(b)
  {
  }

  lemma DigitsStayLow(s: string)
    requires forall i :: 0 <= i < |s| ==> IsDigit(s[i])
    ensures Lower(s) == s
  {
  }

  /** The router's suffix of table `idx` trims back to the base name exactly while the index has at most
      three digits. */
  lemma TrimUndoesSuffixIff(base: string, idx: nat)
    ensures TrimShardSuffix(base + "_" + ShardRouter.Padded(idx, 3)) == Lower(base) <==> idx <= 999
  {
    var digits := ShardRouter.Padded(idx, 3);
    var s := Lower(base) + "_" + digits;
    DigitsStayLow(digits);
    LowerJoin(base + "_", digits);
    LowerJoin(base, "_");
    assert Lower(base + "_" + digits) == s;
    PaddedLength(idx);
    if idx <= 999 {
      assert s[..|s| - 4] == Lower(base);
    } else {
      assert s[|s| - 4] == digits[|digits| - 4];
      assert |s| > |Lower(base)|;
    }
  }

  lemma PaddedLength(idx: nat)
    ensures if idx <= 999 then |ShardRouter.Padded(idx, 3)| == 3 else |ShardRouter.Padded(idx, 3)| >= 4
  {
    DigitsLength(idx);
  }

  lemma DigitsLength(n: nat)
    ensures |Digits(n)| <= 3 <==> n <= 999
  {
    if n >= 10 {
      assert |Digits(n)| == |Digits(n / 10)| + 1;
      if n >= 100 {
        assert |Digits(n / 10)| == |Digits(n / 100)| + 1 by { assert n / 10 / 10 == n / 100; }
        if n >= 1000 { assert |Digits(n / 100)| == |Digits(n / 100 / 10)| + 1; }
      }
    }
  }

  /** Two tables feed the same index exactly if their trimmed names agree; the prefix never merges any. */
  lemma SameIndexIff(prefix: string, a: string, b: string)
    ensures LogicalIndexName(prefix, a) == LogicalIndexName(prefix, b) <==> TrimShardSuffix(a) == TrimShardSuffix(b)
  {
    IndexNameEnds(prefix, a);
    IndexNameEnds(prefix, b);
    var p := if prefix == "" then "" else Lower(prefix + "_");
    var x, y := p + TrimShardSuffix(a), p + TrimShardSuffix(b);
    assert x[|p|..] == TrimShardSuffix(a) && y[|p|..] == TrimShardSuffix(b);
  }

  lemma IndexNameEnds(prefix: string, a: string)
    ensures LogicalIndexName(prefix, a) == (if prefix == "" then "" else Lower(prefix + "_")) + TrimShardSuffix(a)
  {
    var t := TrimShardSuffix(a);
    assert Lower(t) == t;
    LowerJoin(prefix + "_", t);
  }

  /** A shard table's index is named after the prefix and the base name. */
  lemma ShardTableIndex(prefix: string, base: string, idx: nat)
    requires idx <= 999
    ensures LogicalIndexName(prefix, base + "_" + ShardRouter.Padded(idx, 3))
         == (if prefix == "" then "" else Lower(prefix) + "_") + Lower(base)
  {
    IndexNameEnds(prefix, base + "_" + ShardRouter.Padded(idx, 3));
    TrimUndoesSuffixIff(base, idx);
    LowerJoin(prefix, "_");
    assert Lower("_") == "_";
  }

  /** The same letter in either case, or the same character. */
  predicate SameLetter(a: char, b: char) {
    a == b || ('a' <= a <= 'z' && b as int == a as int - 32) || ('a' <= b <= 'z' && a as int == b as int - 32)
  }

  /** Table names that differ only in case feed the same index, and no index name has a capital. */
  lemma CaseDoesNotMatter(prefix: string, a: string, b: string)
    requires |a| == |b| && forall i :: 0 <= i < |a| ==> SameLetter(a[i], b[i])
    ensures LogicalIndexName(prefix, a) == LogicalIndexName(prefix, b)
    ensures forall c :: c in LogicalIndexName(prefix, a) ==> !('A' <= c <= 'Z')
  {
    assert Lower(a) == Lower(b);
  }

  // ---------------------------------------------------------------- rows and documents

  /** Column values stand for their printed, normalised form. */
  datatype Table = Table(schema: string, name: string, columns: seq<string>, pk: seq<nat>)

  datatype Row = Row(table: Table, values: seq<string>)

  /** A document without its `_synced_at`. */
  datatype Doc = Doc(schema: string, physical: string, logical: string, fields: map<string, string>)

  type Key = (string, string)

  /** `digest` is the hash that names rows of tables without a primary key. */
  datatype Config = Config(prefix: string, digest: Row -> string)

  predicate HasPk(r: Row) {
    r.table.pk != [] && |r.values| == |r.table.columns| && forall i :: 0 <= i < |r.table.pk| ==>
          r.table.pk[i] < |r.values|
  }

  function PkValues(r: Row): seq<string>
    requires HasPk(r)
  {
    seq(|r.table.pk|, i requires 0 <= i < |r.table.pk| => r.values[r.table.pk[i]])
  }

  function DocumentID(c: Config, r: Row): string {
    if HasPk(r) then Join(PkValues(r), ':') else c.digest(r)
  }

  function KeyOf(c: Config, r: Row): Key {
    (LogicalIndexName(c.prefix, r.table.name), DocumentID(c, r))
  }

  function Fields(columns: seq<string>, values: seq<string>): map<string, string> {
    if columns == [] then map[]
    else
      var n := |columns| - 1;
      var before := Fields(columns[..n], values);
      if n < |values| then before[columns[n] := values[n]] else before
  }

  function DocOf(r: Row): Doc {
    Doc(r.table.schema, r.table.name, TrimShardSuffix(r.table.name), Fields(r.table.columns, r.values))
  }

  lemma {:induction false} FieldsAreColumns(columns: seq<string>, values: seq<string>, name: string)
    requires name in Fields(columns, values)
    ensures exists i :: 0 <= i < |columns| && i < |values| && columns[i] == name
                        && Fields(columns, values)[name] == values[i]
    decreases |columns|
  {
    var n := |columns| - 1;
    if columns[n] != name || |values| <= n {
      FieldsAreColumns(columns[..n], values, name);
      var i :| 0 <= i < n && i < |values| && columns[..n][i] == name && Fields(columns[..n], values)[name] == values[i];
      assert columns[i] == name;
    }
  }

  lemma {:induction false} ColumnsAreFields(columns: seq<string>, values: seq<string>, i: nat)
    requires i < |columns| && i < |values|
    ensures columns[i] in Fields(columns, values)
    decreases |columns|
  {
    if i < |columns| - 1 {
      assert columns[..|columns| - 1][i] == columns[i];
      ColumnsAreFields(columns[..|columns| - 1], values, i);
    }
  }

  /** rowToDocument: where the row comes from, and exactly the columns it has a value for. */
  method RowToDocument(r: Row) returns (doc: Doc)
    ensures doc == DocOf(r)
    ensures doc.schema == r.table.schema && doc.physical == r.table.name && doc.logical == TrimShardSuffix(r.table.name)
    ensures forall i :: 0 <= i < |r.table.columns| && i < |r.values| ==> r.table.columns[i] in doc.fields
    ensures forall name :: name in doc.fields ==>
          exists i :: 0 <= i < |r.table.columns| && i < |r.values| && r.table.columns[i] == name
                      && doc.fields[name] == r.values[i]
  {
    var fields: map<string, string> := map[];
    for i := 0 to |r.table.columns|
      invariant fields == Fields(r.table.columns[..i], r.values)
    {
      assert r.table.columns[..i + 1][..i] == r.table.columns[..i];
      if i < |r.values| {
        fields := fields[r.table.columns[i] := r.values[i]];
      }
    }
    assert r.table.columns[..|r.table.columns|] == r.table.columns;
    forall i | 0 <= i < |r.table.columns| && i < |r.values| ensures r.table.columns[i] in fields {
      ColumnsAreFields(r.table.columns, r.values, i);
    }
    forall name | name in fields
      ensures exists i :: 0 <= i < |r.table.columns| && i < |r.values| && r.table.columns[i] == name
                          && fields[name] == r.values[i]
    {
      FieldsAreColumns(r.table.columns, r.values, name);
    }
    return Doc(r.table.schema, r.table.name, TrimShardSuffix(r.table.name), fields);
  }

  /** A table has one definition, its columns have different names, and its rows have all of them. */
  ghost predicate Catalogued(rows: iset<Row>) {
    && (forall r :: r in rows ==> |r.values| == |r.table.columns| && Distinct(r.table.columns))
    && (forall a, b :: a in rows && b in rows && a.table.schema == b.table.schema && a.table.name == b.table.name ==>
          a.table == b.table)
  }

  lemma {:induction false} FieldsHoldValues(columns: seq<string>, values: seq<string>)
    requires Distinct(columns) && |columns| <= |values|
    ensures forall i :: 0 <= i < |columns| ==>
          columns[i] in Fields(columns, values) && Fields(columns, values)[columns[i]] == values[i]
    decreases |columns|
  {
    if columns != [] {
      var n := |columns| - 1;
      FieldsHoldValues(columns[..n], values);
      forall i | 0 <= i < n ensures columns[i] in Fields(columns, values) && Fields(columns, values)[columns[i]] == values[i] {
        assert columns[..n][i] == columns[i];
      }
    }
  }

  /** Nothing is lost in a document: it determines its row. */
  lemma DocDeterminesRow(rows: iset<Row>, a: Row, b: Row)
    requires Catalogued(rows) && a in rows && b in rows && DocOf(a) == DocOf(b)
    ensures a == b
  {
    FieldsHoldValues(a.table.columns, a.values);
    FieldsHoldValues(b.table.columns, b.values);
    forall i | 0 <= i < |a.values| ensures a.values[i] == b.values[i] {
      assert Fields(a.table.columns, a.values)[a.table.columns[i]] == a.values[i];
    }
  }

  // ---------------------------------------------------------------- when keys collide

  predicate NoColons(values: seq<string>) {
    forall i :: 0 <= i < |values| ==> ':' !in values[i]
  }

  /** The rows have as many key columns and the same values in them. */
  predicate SameKeyValues(a: Row, b: Row)
    requires HasPk(a) && HasPk(b)
  {
    && |a.table.pk| == |b.table.pk|
    && forall i :: 0 <= i < |a.table.pk| ==> a.values[a.table.pk[i]] == b.values[b.table.pk[i]]
  }

  /** Rows whose key values contain no colon share a document exactly if their tables' trimmed names and
      their key values agree. Neither the schema nor the shard number is part of the key. */
  lemma KeysCollideIff(c: Config, a: Row, b: Row)
    requires HasPk(a) && HasPk(b) && NoColons(PkValues(a)) && NoColons(PkValues(b))
    ensures KeyOf(c, a) == KeyOf(c, b) <==>
          TrimShardSuffix(a.table.name) == TrimShardSuffix(b.table.name) && SameKeyValues(a, b)
  {
    SameIndexIff(c.prefix, a.table.name, b.table.name);
    SplitOfJoin(PkValues(a), ':');
    SplitOfJoin(PkValues(b), ':');
    if SameKeyValues(a, b) {
      assert PkValues(a) == PkValues(b);
    } else if |a.table.pk| == |b.table.pk| {
      var i :| 0 <= i < |a.table.pk| && a.values[a.table.pk[i]] != b.values[b.table.pk[i]];
      assert PkValues(a)[i] != PkValues(b)[i];
    }
  }

  /** A row with a key of one column goes by that column's value; a key of two is written with a colon between them; a
      row of a table without a key, or with other than the table's columns, goes by its digest. */
  lemma DocumentIdIs(c: Config, r: Row)
    ensures r.table.pk == [] || |r.values| != |r.table.columns| ==> DocumentID(c, r) == c.digest(r)
    ensures HasPk(r) && |r.table.pk| == 1 ==> DocumentID(c, r) == r.values[r.table.pk[0]]
    ensures HasPk(r) && |r.table.pk| == 2 ==>
          DocumentID(c, r) == r.values[r.table.pk[0]] + ":" + r.values[r.table.pk[1]]
  {
    if HasPk(r) && |r.table.pk| == 2 {
      var (x, y) := (r.values[r.table.pk[0]], r.values[r.table.pk[1]]);
      assert PkValues(r)[1..] == [y] && Join([y], ':') == y;
      assert Join(PkValues(r), ':') == x + [':'] + y;
    }
  }

  /** So rows with the same key value in two shard tables of one base name always share a document. */
  lemma ShardTablesCollide(c: Config, a: Row, b: Row, base: string, i: nat, j: nat)
    requires i <= 999 && j <= 999 && HasPk(a) && HasPk(b) && SameKeyValues(a, b)
    requires a.table.name == base + "_" + ShardRouter.Padded(i, 3)
    requires b.table.name == base + "_" + ShardRouter.Padded(j, 3)
    ensures KeyOf(c, a) == KeyOf(c, b)
  {
    TrimUndoesSuffixIff(base, i);
    TrimUndoesSuffixIff(base, j);
    SameIndexIff(c.prefix, a.table.name, b.table.name);
    assert PkValues(a) == PkValues(b);
  }

  /** A composite key with a colon inside a value is ambiguous. */
  lemma ColonsCollide(c: Config, schema: string, name: string)
    ensures var t := Table(schema, name, ["x", "y"], [0, 1]);
            var a, b := Row(t, ["p:q", "r"]), Row(t, ["p", "q:r"]);
            HasPk(a) && HasPk(b) && !SameKeyValues(a, b) && KeyOf(c, a) == KeyOf(c, b)
  {
    var t := Table(schema, name, ["x", "y"], [0, 1]);
    var a, b := Row(t, ["p:q", "r"]), Row(t, ["p", "q:r"]);
    assert PkValues(a) == ["p:q", "r"] && PkValues(b) == ["p", "q:r"];
    assert Join(["r"], ':') == "r" && Join(["q:r"], ':') == "q:r";
    assert Join(["p:q", "r"], ':') == "p:q:r";
    assert Join(["p", "q:r"], ':') == "p:q:r";
  }

  // ---------------------------------------------------------------- the log and the writes it causes

  datatype Change = Inserted(row: Row) | Deleted(row: Row) | Updated(before: Row, after: Row)

  datatype Action = InsertAction | DeleteAction | UpdateAction | OtherAction

  datatype RowsEvent = RowsEvent(action: Action, table: Table, rows: seq<seq<string>>)

  function Inserts(t: Table, rows: seq<seq<string>>): seq<Change> {
    seq(|rows|, i requires 0 <= i < |rows| => Inserted(Row(t, rows[i])))
  }

  function Deletes(t: Table, rows: seq<seq<string>>): seq<Change> {
    seq(|rows|, i requires 0 <= i < |rows| => Deleted(Row(t, rows[i])))
  }

  /** An update lists each row before and after; a last row on its own is ignored. */
  function Updates(t: Table, rows: seq<seq<string>>): seq<Change> {
    seq(|rows| / 2, i requires 0 <= i < |rows| / 2 => Updated(Row(t, rows[2 * i]), Row(t, rows[2 * i + 1])))
  }

  function Changes(e: RowsEvent): seq<Change> {
    match e.action
    case InsertAction => Inserts(e.table, e.rows)
    case DeleteAction => Deletes(e.table, e.rows)
    case UpdateAction => Updates(e.table, e.rows)
    case OtherAction => []
  }

  datatype Write = Put(key: Key, doc: Doc) | Remove(key: Key)

  type Index = map<Key, Doc>

  function WritesOf(c: Config, change: Change): seq<Write> {
    match change
    case Inserted(row) => [Put(KeyOf(c, row), DocOf(row))]
    case Deleted(row) => [Remove(KeyOf(c, row))]
    case Updated(before, after) =>
      if DocumentID(c, before) != DocumentID(c, after) then [Remove(KeyOf(c, before)), Put(KeyOf(c, after), DocOf(after))]
      else [Put(KeyOf(c, after), DocOf(after))]
  }

  function Writes(c: Config, changes: seq<Change>): seq<Write> {
    if changes == [] then [] else Writes(c, changes[..|changes| - 1]) + WritesOf(c, changes[|changes| - 1])
  }

  /** Removing a document that is not there is no error. */
  function ApplyOne(index: Index, w: Write): Index {
    match w
    case Put(key, doc) => index[key := doc]
    case Remove(key) => index - {key}
  }

  function Apply(index: Index, ws: seq<Write>): Index {
    if ws == [] then index else ApplyOne(Apply(index, ws[..|ws| - 1]), ws[|ws| - 1])
  }

  lemma {:induction false} ApplyJoin(index: Index, a: seq<Write>, b: seq<Write>)
    ensures Apply(index, a + b) == Apply(Apply(index, a), b)
    decreases |b|
  {
    if b == [] {
      assert a + b == a;
    } else {
      assert (a + b)[..|a + b| - 1] == a + b[..|b| - 1];
      ApplyJoin(index, a, b[..|b| - 1]);
    }
  }

  // ---------------------------------------------------------------- the index mirrors the tables

  function ApplyChange(live: set<Row>, change: Change): set<Row> {
    match change
    case Inserted(row) => live + {row}
    case Deleted(row) => live - {row}
    case Updated(before, after) => live - {before} + {after}
  }

  function Live(changes: seq<Change>): set<Row> {
    if changes == [] then {} else ApplyChange(Live(changes[..|changes| - 1]), changes[|changes| - 1])
  }

  /** What a database logs: it inserts rows that are not there, deletes and updates rows that are, and
      an update stays in its table. */
  ghost predicate Faithful(live: set<Row>, change: Change) {
    match change
    case Inserted(row) => row !in live
    case Deleted(row) => row in live
    case Updated(before, after) => before in live && before.table == after.table && (after == before || after !in live)
  }

  ghost predicate FaithfulLog(changes: seq<Change>) {
    forall n :: 0 <= n < |changes| ==> Faithful(Live(changes[..n]), changes[n])
  }

  ghost predicate Injective(c: Config, live: set<Row>) {
    forall a, b :: a in live && b in live && KeyOf(c, a) == KeyOf(c, b) ==> a == b
  }

  /** Every live row has its document, and every document is a live row's. */
  ghost predicate Mirrors(c: Config, index: Index, live: set<Row>) {
    && (forall r :: r in live ==> KeyOf(c, r) in index && index[KeyOf(c, r)] == DocOf(r))
    && (forall k :: k in index ==> exists r :: r in live && KeyOf(c, r) == k)
  }

  lemma InsertMirrors(c: Config, index: Index, live: set<Row>, row: Row)
    requires Mirrors(c, index, live) && Injective(c, live + {row}) && row !in live
    ensures Mirrors(c, index[KeyOf(c, row) := DocOf(row)], live + {row})
  {
    var index' := index[KeyOf(c, row) := DocOf(row)];
    forall k | k in index' ensures exists r :: r in live + {row} && KeyOf(c, r) == k {
      if k == KeyOf(c, row) {
        assert row in live + {row};
      } else {
        var r :| r in live && KeyOf(c, r) == k;
        assert r in live + {row};
      }
    }
  }

  lemma DeleteMirrors(c: Config, index: Index, live: set<Row>, row: Row)
    requires Mirrors(c, index, live) && Injective(c, live) && row in live
    ensures Mirrors(c, index - {KeyOf(c, row)}, live - {row})
  {
    forall k | k in index - {KeyOf(c, row)} ensures exists r :: r in live - {row} && KeyOf(c, r) == k {
      var r :| r in live && KeyOf(c, r) == k;
      assert r in live - {row};
    }
  }

  lemma UpdateMirrors(c: Config, index: Index, live: set<Row>, before: Row, after: Row)
    requires Mirrors(c, index, live) && Injective(c, live) && before in live && (after == before || after !in live)
    requires Injective(c, live - {before} + {after})
    ensures Mirrors(c, (index - {KeyOf(c, before)})[KeyOf(c, after) := DocOf(after)], live - {before} + {after})
  {
    DeleteMirrors(c, index, live, before);
    assert after !in live - {before};
    InsertMirrors(c, index - {KeyOf(c, before)}, live - {before}, after);
  }

  function Synced(c: Config, index: Index, change: Change): Index {
    match change
    case Inserted(row) => index[KeyOf(c, row) := DocOf(row)]
    case Deleted(row) => index - {KeyOf(c, row)}
    case Updated(before, after) => (index - {KeyOf(c, before)})[KeyOf(c, after) := DocOf(after)]
  }

  /** Deleting the old document only when its id changes comes to the same as always deleting it. */
  lemma ApplyWrites(c: Config, index: Index, change: Change)
    requires change.Updated? ==> change.before.table == change.after.table
    ensures Apply(index, WritesOf(c, change)) == Synced(c, index, change)
  {
    var ws := WritesOf(c, change);
    if |ws| == 1 {
      assert ws[..0] == [];
      if change.Updated? {
        var k := KeyOf(c, change.after);
        assert KeyOf(c, change.before) == k;
        assert index[k := DocOf(change.after)] == (index - {k})[k := DocOf(change.after)];
      }
    } else {
      assert ws[..1][..0] == [];
      assert Apply(index, ws[..1]) == index - {KeyOf(c, change.before)};
    }
  }

  lemma ChangeMirrors(c: Config, index: Index, live: set<Row>, change: Change)
    requires Mirrors(c, index, live) && Injective(c, live) && Injective(c, ApplyChange(live, change))
    requires Faithful(live, change)
    ensures Mirrors(c, Apply(index, WritesOf(c, change)), ApplyChange(live, change))
  {
    ApplyWrites(c, index, change);
    match change
    case Inserted(row) => InsertMirrors(c, index, live, row);
    case Deleted(row) => DeleteMirrors(c, index, live, row);
    case Updated(before, after) => UpdateMirrors(c, index, live, before, after);
  }

  function IndexAfter(c: Config, changes: seq<Change>): Index {
    Apply(map[], Writes(c, changes))
  }

  lemma {:induction false} InjectiveLogMirrors(c: Config, changes: seq<Change>)
    requires FaithfulLog(changes)
    requires forall n :: 0 <= n <= |changes| ==> Injective(c, Live(changes[..n]))
    ensures Mirrors(c, IndexAfter(c, changes), Live(changes))
    decreases |changes|
  {
    if changes != [] {
      var before := changes[..|changes| - 1];
      var last := changes[|changes| - 1];
      assert changes[..|changes|] == changes;
      assert forall n :: 0 <= n <= |before| ==> before[..n] == changes[..n];
      InjectiveLogMirrors(c, before);
      assert before[..|before|] == before;
      ChangeMirrors(c, IndexAfter(c, before), Live(before), last);
      ApplyJoin(map[], Writes(c, before), WritesOf(c, last));
    }
  }

  /** A mirrored set of rows has no two with the same key, since one document cannot be both. */
  lemma MirrorsIsInjective(c: Config, index: Index, live: set<Row>, rows: iset<Row>)
    requires Mirrors(c, index, live) && Catalogued(rows) && forall r :: r in live ==> r in rows
    ensures Injective(c, live)
  {
    forall a, b | a in live && b in live && KeyOf(c, a) == KeyOf(c, b) ensures a == b {
      DocDeterminesRow(rows, a, b);
    }
  }

  lemma {:induction false} LiveIsLogged(changes: seq<Change>, rows: iset<Row>)
    requires forall i :: 0 <= i < |changes| ==> Mentions(changes[i], rows)
    ensures forall r :: r in Live(changes) ==> r in rows
    decreases |changes|
  {
    if changes != [] { LiveIsLogged(changes[..|changes| - 1], rows); }
  }

  ghost predicate Mentions(change: Change, rows: iset<Row>) {
    match change
    case Inserted(row) => row in rows
    case Deleted(row) => row in rows
    case Updated(before, after) => before in rows && after in rows
  }

  /** Main result: all along a row log the index holds exactly the live rows of the tables feeding it,
      if and only if all along no two live rows share a document key. */
  lemma IndexMirrorsTablesIff(c: Config, changes: seq<Change>, rows: iset<Row>)
    requires FaithfulLog(changes) && Catalogued(rows) && forall i :: 0 <= i < |changes| ==> Mentions(changes[i], rows)
    ensures (forall n :: 0 <= n <= |changes| ==> Mirrors(c, IndexAfter(c, changes[..n]), Live(changes[..n])))
       <==> (forall n :: 0 <= n <= |changes| ==> Injective(c, Live(changes[..n])))
  {
    if forall n :: 0 <= n <= |changes| ==> Injective(c, Live(changes[..n])) {
      forall n | 0 <= n <= |changes| ensures Mirrors(c, IndexAfter(c, changes[..n]), Live(changes[..n])) {
        assert forall m :: 0 <= m <= n ==> changes[..n][..m] == changes[..m];
        InjectiveLogMirrors(c, changes[..n]);
      }
    } else {
      var n :| 0 <= n <= |changes| && !Injective(c, Live(changes[..n]));
      LiveIsLogged(changes[..n], rows);
      if Mirrors(c, IndexAfter(c, changes[..n]), Live(changes[..n])) {
        MirrorsIsInjective(c, IndexAfter(c, changes[..n]), Live(changes[..n]), rows);
      }
    }
  }

  // ---------------------------------------------------------------- crashes and replays

  function Lookup(index: Index, k: Key): seq<Doc> {
    if k in index then [index[k]] else []
  }

  predicate Touches(ws: seq<Write>, k: Key) {
    exists i :: 0 <= i < |ws| && ws[i].key == k
  }

  /** What a run of writes leaves under a key does not depend on the index if it touches the key, and is
      what was there if it does not. */
  lemma {:induction false} LastWriteWins(a: Index, b: Index, ws: seq<Write>, k: Key)
    ensures Touches(ws, k) ==> Lookup(Apply(a, ws), k) == Lookup(Apply(b, ws), k)
    ensures !Touches(ws, k) ==> Lookup(Apply(a, ws), k) == Lookup(a, k)
    decreases |ws|
  {
    if ws != [] {
      var n := |ws| - 1;
      LastWriteWins(a, b, ws[..n], k);
      if ws[n].key != k && Touches(ws, k) {
        var i :| 0 <= i < |ws| && ws[i].key == k;
        assert ws[..n][i].key == k;
      }
    }
  }

  /** What the writes up to `m` leave under `k`. */
  function UpTo(ws: seq<Write>, m: nat, k: Key): seq<Doc>
    requires m <= |ws|
  {
    Lookup(Apply(map[], ws[..m]), k)
  }

  /** Under every key the index has what some prefix of the log, of length `p` at least, leaves there. */
  ghost predicate CaughtUp(ws: seq<Write>, index: Index, p: nat) {
    forall k :: CaughtUpAt(ws, index, p, k)
  }

  ghost predicate CaughtUpAt(ws: seq<Write>, index: Index, p: nat, k: Key) {
    exists m :: p <= m <= |ws| && Lookup(index, k) == UpTo(ws, m, k)
  }

  /** A session: started at a saved position, it writes until it stops or crashes. */
  datatype Session = Session(from: nat, upTo: nat)

  /** No session starts beyond the point the one before it reached. */
  predicate ValidSessions(ws: seq<Write>, p: nat, sessions: seq<Session>)
    decreases |sessions|
  {
    sessions == [] ||
    (sessions[0].from <= p && sessions[0].from <= sessions[0].upTo <= |ws| && ValidSessions(ws, sessions[0].upTo, sessions[1..]))
  }

  function AfterSessions(ws: seq<Write>, p: nat, index: Index, sessions: seq<Session>): Index
    requires ValidSessions(ws, p, sessions)
    decreases |sessions|
  {
    if sessions == [] then index
    else AfterSessions(ws, sessions[0].upTo, Apply(index, ws[sessions[0].from..sessions[0].upTo]), sessions[1..])
  }

  function Reached(p: nat, sessions: seq<Session>): nat {
    if sessions == [] then p else sessions[|sessions| - 1].upTo
  }

  lemma UntouchedBetween(ws: seq<Write>, m: nat, n: nat, k: Key)
    requires m <= n <= |ws| && !Touches(ws[m..n], k)
    ensures UpTo(ws, m, k) == UpTo(ws, n, k)
  {
    assert ws[..n] == ws[..m] + ws[m..n];
    ApplyJoin(map[], ws[..m], ws[m..n]);
    LastWriteWins(Apply(map[], ws[..m]), map[], ws[m..n], k);
  }

  lemma TouchedIn(ws: seq<Write>, index: Index, q: nat, n: nat, k: Key)
    requires q <= n <= |ws| && Touches(ws[q..n], k)
    ensures Lookup(Apply(index, ws[q..n]), k) == UpTo(ws, n, k)
  {
    assert ws[..n] == ws[..q] + ws[q..n];
    ApplyJoin(map[], ws[..q], ws[q..n]);
    LastWriteWins(index, Apply(map[], ws[..q]), ws[q..n], k);
  }

  lemma SessionCatchesUp(ws: seq<Write>, index: Index, p: nat, q: nat, n: nat, k: Key)
    requires CaughtUpAt(ws, index, p, k) && q <= p && q <= n <= |ws|
    ensures CaughtUpAt(ws, Apply(index, ws[q..n]), n, k)
  {
    if Touches(ws[q..n], k) {
      TouchedIn(ws, index, q, n, k);
    } else {
      LastWriteWins(index, index, ws[q..n], k);
      var m :| p <= m <= |ws| && Lookup(index, k) == UpTo(ws, m, k);
      if m < n {
        MoreIsTouched(ws, q, m, n, k);
        UntouchedBetween(ws, m, n, k);
      }
    }
  }

  lemma MoreIsTouched(ws: seq<Write>, q: nat, m: nat, n: nat, k: Key)
    requires q <= m <= n <= |ws|
    ensures Touches(ws[m..n], k) ==> Touches(ws[q..n], k)
  {
    if Touches(ws[m..n], k) {
      var i :| 0 <= i < |ws[m..n]| && ws[m..n][i].key == k;
      assert ws[q..n][i + m - q].key == k;
    }
  }

  lemma {:induction false} SessionsCatchUp(ws: seq<Write>, index: Index, p: nat, sessions: seq<Session>)
    requires CaughtUp(ws, index, p) && ValidSessions(ws, p, sessions)
    ensures CaughtUp(ws, AfterSessions(ws, p, index, sessions), Reached(p, sessions))
    decreases |sessions|
  {
    if sessions != [] {
      var s := sessions[0];
      forall k ensures CaughtUpAt(ws, Apply(index, ws[s.from..s.upTo]), s.upTo, k) {
        SessionCatchesUp(ws, index, p, s.from, s.upTo, k);
      }
      SessionsCatchUp(ws, Apply(index, ws[s.from..s.upTo]), s.upTo, sessions[1..]);
    }
  }

  /** Main result: after any number of crashes, each followed by a restart at or before the point reached,
      an index that got to the end of the log is the index of one uninterrupted pass. */
  lemma CrashesDoNotShow(ws: seq<Write>, sessions: seq<Session>)
    requires ValidSessions(ws, 0, sessions) && Reached(0, sessions) == |ws|
    ensures AfterSessions(ws, 0, map[], sessions) == Apply(map[], ws)
  {
    forall k: Key ensures CaughtUpAt(ws, map[], 0, k) {
      assert ws[..0] == [];
      assert Lookup(map[], k) == UpTo(ws, 0, k);
    }
    SessionsCatchUp(ws, map[], 0, sessions);
    var end, full := AfterSessions(ws, 0, map[], sessions), Apply(map[], ws);
    forall k: Key ensures Lookup(end, k) == Lookup(full, k) {
      assert CaughtUpAt(ws, end, |ws|, k);
      assert ws[..|ws|] == ws;
    }
    SameLookups(end, full);
  }

  lemma SameLookups(a: Index, b: Index)
    requires forall k: Key :: Lookup(a, k) == Lookup(b, k)
    ensures a == b
  {
    assert forall k: Key :: k in a <==> k in b by {
      forall k: Key ensures k in a <==> k in b { assert Lookup(a, k) == Lookup(b, k); }
    }
    forall k | k in a ensures a[k] == b[k] { assert Lookup(a, k) == Lookup(b, k); }
  }

  /** Both together: crashes and restarts included, an index that reached the end of the log mirrors the tables. */
  lemma CrashedLogMirrors(c: Config, changes: seq<Change>, sessions: seq<Session>)
    requires FaithfulLog(changes) && forall n :: 0 <= n <= |changes| ==> Injective(c, Live(changes[..n]))
    requires var ws := Writes(c, changes); ValidSessions(ws, 0, sessions) && Reached(0, sessions) == |ws|
    ensures Mirrors(c, AfterSessions(Writes(c, changes), 0, map[], sessions), Live(changes))
  {
    CrashesDoNotShow(Writes(c, changes), sessions);
    InjectiveLogMirrors(c, changes);
  }

  // ---------------------------------------------------------------- what an event does to the tables

  function RowsOf(t: Table, rows: seq<seq<string>>): set<Row> {
    set i: int | 0 <= i < |rows| :: Row(t, rows[i])
  }

  /** Each even row is replaced by the next. */
  function Replaced(live: set<Row>, t: Table, rows: seq<seq<string>>): set<Row>
    decreases |rows|
  {
    if |rows| < 2 then live else Replaced(live - {Row(t, rows[0])} + {Row(t, rows[1])}, t, rows[2..])
  }

  /** The rows of all tables after an event. */
  function TablesAfter(live: set<Row>, e: RowsEvent): set<Row> {
    match e.action
    case InsertAction => live + RowsOf(e.table, e.rows)
    case DeleteAction => live - RowsOf(e.table, e.rows)
    case UpdateAction => Replaced(live, e.table, e.rows)
    case OtherAction => live
  }

  function Tables(log: seq<RowsEvent>): set<Row> {
    if log == [] then {} else TablesAfter(Tables(log[..|log| - 1]), log[|log| - 1])
  }

  /** Each replaced row is there, its replacement is not (unless they are the same), and at no point do two live rows
      share a document key. */
  ghost predicate ReplacesLogged(c: Config, live: set<Row>, t: Table, rows: seq<seq<string>>)
    decreases |rows|
  {
    |rows| < 2 ||
    var (before, after) := (Row(t, rows[0]), Row(t, rows[1]));
    && before in live && (after == before || after !in live)
    && Injective(c, live - {before} + {after})
    && ReplacesLogged(c, live - {before} + {after}, t, rows[2..])
  }

  /** An event as a database logs it, which leaves no two live rows with the same document key. */
  ghost predicate Logged(c: Config, live: set<Row>, e: RowsEvent) {
    match e.action
    case InsertAction => Distinct(e.rows) && RowsOf(e.table, e.rows) !! live && Injective(c, TablesAfter(live, e))
    case DeleteAction => Distinct(e.rows) && RowsOf(e.table, e.rows) <= live
    case UpdateAction => ReplacesLogged(c, live, e.table, e.rows)
    case OtherAction => true
  }

  ghost predicate WellLogged(c: Config, log: seq<RowsEvent>) {
    forall n :: 0 <= n < |log| ==> Logged(c, Tables(log[..n]), log[n])
  }

  function LiveFrom(live: set<Row>, changes: seq<Change>): set<Row>
    decreases |changes|
  {
    if changes == [] then live else LiveFrom(ApplyChange(live, changes[0]), changes[1..])
  }

  ghost predicate Followable(c: Config, live: set<Row>, changes: seq<Change>)
    decreases |changes|
  {
    changes == [] ||
    (var next := ApplyChange(live, changes[0]);
     Faithful(live, changes[0]) && Injective(c, next) && Followable(c, next, changes[1..]))
  }

  lemma {:induction false} FirstChangeFirst(c: Config, changes: seq<Change>)
    requires changes != []
    ensures Writes(c, changes) == WritesOf(c, changes[0]) + Writes(c, changes[1..])
    decreases |changes|
  {
    if |changes| > 1 {
      FirstChangeFirst(c, changes[..|changes| - 1]);
      assert changes[..|changes| - 1][1..] == changes[1..][..|changes| - 2];
    } else {
      assert changes[..0] == [] && changes[1..] == [];
    }
  }

  lemma {:induction false} ChangesMirror(c: Config, index: Index, live: set<Row>, changes: seq<Change>)
    requires Mirrors(c, index, live) && Injective(c, live) && Followable(c, live, changes)
    ensures Mirrors(c, Apply(index, Writes(c, changes)), LiveFrom(live, changes)) && Injective(c, LiveFrom(live, changes))
    decreases |changes|
  {
    if changes != [] {
      FirstChangeFirst(c, changes);
      ApplyJoin(index, WritesOf(c, changes[0]), Writes(c, changes[1..]));
      ChangeMirrors(c, index, live, changes[0]);
      ChangesMirror(c, Apply(index, WritesOf(c, changes[0])), ApplyChange(live, changes[0]), changes[1..]);
    }
  }

  lemma FirstRowFirst(t: Table, rows: seq<seq<string>>)
    requires rows != []
    ensures RowsOf(t, rows) == {Row(t, rows[0])} + RowsOf(t, rows[1..])
    ensures Distinct(rows) ==> Distinct(rows[1..]) && Row(t, rows[0]) !in RowsOf(t, rows[1..])
  {
    assert forall i :: 1 <= i < |rows| ==> rows[i] == rows[1..][i - 1];
  }

  lemma {:induction false} InsertsFollow(c: Config, live: set<Row>, t: Table, rows: seq<seq<string>>)
    requires Distinct(rows) && RowsOf(t, rows) !! live && Injective(c, live + RowsOf(t, rows))
    ensures Followable(c, live, Inserts(t, rows)) && LiveFrom(live, Inserts(t, rows)) == live + RowsOf(t, rows)
    decreases |rows|
  {
    if rows != [] {
      FirstRowFirst(t, rows);
      assert Inserts(t, rows)[1..] == Inserts(t, rows[1..]);
      var next := live + {Row(t, rows[0])};
      assert next + RowsOf(t, rows[1..]) == live + RowsOf(t, rows);
      InsertsFollow(c, next, t, rows[1..]);
    }
  }

  lemma {:induction false} DeletesFollow(c: Config, live: set<Row>, t: Table, rows: seq<seq<string>>)
    requires Distinct(rows) && RowsOf(t, rows) <= live && Injective(c, live)
    ensures Followable(c, live, Deletes(t, rows)) && LiveFrom(live, Deletes(t, rows)) == live - RowsOf(t, rows)
    decreases |rows|
  {
    if rows != [] {
      FirstRowFirst(t, rows);
      assert Deletes(t, rows)[1..] == Deletes(t, rows[1..]);
      var next := live - {Row(t, rows[0])};
      assert next - RowsOf(t, rows[1..]) == live - RowsOf(t, rows);
      DeletesFollow(c, next, t, rows[1..]);
    }
  }

  lemma {:induction false} UpdatesFollow(c: Config, live: set<Row>, t: Table, rows: seq<seq<string>>)
    requires ReplacesLogged(c, live, t, rows)
    ensures Followable(c, live, Updates(t, rows)) && LiveFrom(live, Updates(t, rows)) == Replaced(live, t, rows)
    decreases |rows|
  {
    if |rows| >= 2 {
      var changes := Updates(t, rows);
      assert changes[0] == Updated(Row(t, rows[0]), Row(t, rows[1]));
      assert changes[1..] == Updates(t, rows[2..]);
      UpdatesFollow(c, live - {Row(t, rows[0])} + {Row(t, rows[1])}, t, rows[2..]);
    }
  }

  /** One event keeps the index a mirror of the tables. */
  lemma EventMirrors(c: Config, index: Index, live: set<Row>, e: RowsEvent)
    requires Mirrors(c, index, live) && Injective(c, live) && Logged(c, live, e)
    ensures Mirrors(c, Apply(index, EventWrites(c, e)), TablesAfter(live, e)) && Injective(c, TablesAfter(live, e))
  {
    match e.action {
      case InsertAction => InsertsFollow(c, live, e.table, e.rows);
      case DeleteAction => DeletesFollow(c, live, e.table, e.rows);
      case UpdateAction => UpdatesFollow(c, live, e.table, e.rows);
      case OtherAction =>
    }
    ChangesMirror(c, index, live, Changes(e));
  }

  function EventWrites(c: Config, e: RowsEvent): seq<Write> {
    Writes(c, Changes(e))
  }

  function LogWrites(c: Config, log: seq<RowsEvent>): seq<Write> {
    if log == [] then [] else LogWrites(c, log[..|log| - 1]) + EventWrites(c, log[|log| - 1])
  }

  lemma {:induction false} LogMirrors(c: Config, log: seq<RowsEvent>)
    requires WellLogged(c, log)
    ensures Mirrors(c, Apply(map[], LogWrites(c, log)), Tables(log)) && Injective(c, Tables(log))
    decreases |log|
  {
    if log != [] {
      var n := |log| - 1;
      assert forall m :: 0 <= m < n ==> log[..n][..m] == log[..m] && log[..n][m] == log[m];
      LogMirrors(c, log[..n]);
      EventMirrors(c, Apply(map[], LogWrites(c, log[..n])), Tables(log[..n]), log[n]);
      ApplyJoin(map[], LogWrites(c, log[..n]), EventWrites(c, log[n]));
    }
  }

  /** Main result: crashes and restarts included, an index that reached the end of the event log holds exactly the rows
      that the inserts, deletes and updates of the log leave in the tables. */
  lemma CrashedEventsMirror(c: Config, log: seq<RowsEvent>, sessions: seq<Session>)
    requires WellLogged(c, log)
    requires ValidSessions(LogWrites(c, log), 0, sessions) && Reached(0, sessions) == |LogWrites(c, log)|
    ensures Mirrors(c, AfterSessions(LogWrites(c, log), 0, map[], sessions), Tables(log))
  {
    CrashesDoNotShow(LogWrites(c, log), sessions);
    LogMirrors(c, log);
  }

  /** It matters that a restart is not beyond the point reached by the session just before it: two writes to one
      key, a first session through both, a second that repeats only the first, and a third that begins
      after both leave the old document for good. */
  lemma SkippingAheadLosesAWrite(k: Key, d1: Doc, d2: Doc)
    requires d1 != d2
    ensures var ws := [Put(k, d1), Put(k, d2)];
            var index := Apply(Apply(Apply(map[], ws[0..2]), ws[0..1]), ws[2..2]);
            index != Apply(map[], ws)
  {
    var ws := [Put(k, d1), Put(k, d2)];
    assert ws[0..2] == ws && ws[0..1] == [Put(k, d1)] && ws[2..2] == [];
    LastWriteWins(Apply(map[], ws), map[], [Put(k, d1)], k);
    assert [Put(k, d1)][0].key == k && ws[1].key == k;
    assert Apply(map[], [Put(k, d1)]) == map[][k := d1] by { assert [Put(k, d1)][..0] == []; }
    assert Apply(map[], ws) == Apply(map[], ws[..1])[k := d2];
  }

  // ---------------------------------------------------------------- the handler

  class ESWriter {
    var index: Index
    var accepted: nat

    /** `accepted` is how many more requests the cluster will answer without an error. */
    constructor (accepted: nat)
      ensures index == map[] && this.accepted == accepted
    {
      index := map[];
      this.accepted := accepted;
    }

    method Do(w: Write) returns (ok: bool)
      modifies this
      ensures ok <==> old(accepted) > 0
      ensures ok ==> index == ApplyOne(old(index), w) && accepted == old(accepted) - 1
      ensures !ok ==> index == old(index) && accepted == old(accepted)
    {
      if accepted == 0 { return false; }
      accepted := accepted - 1;
      match w {
        case Put(key, doc) => index := index[key := doc];
        case Remove(key) => index := index - {key};
      }
      return true;
    }
  }

  /** What the first `n` writes make of the index. */
  function Progress(index: Index, ws: seq<Write>, n: nat): Index {
    if n < |ws| then Apply(index, ws[..n]) else Apply(index, ws)
  }

  lemma ProgressOfOne(index: Index, w: Write)
    ensures Progress(index, [w], 0) == index && Progress(index, [w], 1) == ApplyOne(index, w)
  {
    assert [w][..0] == [];
  }

  lemma ProgressOfTwo(index: Index, w: Write, v: Write)
    ensures Progress(index, [w, v], 0) == index
    ensures Progress(index, [w, v], 1) == ApplyOne(index, w)
    ensures Progress(index, [w, v], 2) == ApplyOne(ApplyOne(index, w), v)
  {
    assert [w, v][..0] == [] && [w, v][..1] == [w] && [w][..0] == [];
  }

  /** The writes of one change, until the first error. */
  method SyncChange(writer: ESWriter, c: Config, change: Change) returns (ok: bool)
    modifies writer
    ensures ok <==> |WritesOf(c, change)| <= old(writer.accepted)
    ensures writer.index == Progress(old(writer.index), WritesOf(c, change), old(writer.accepted))
    ensures ok ==> writer.accepted == old(writer.accepted) - |WritesOf(c, change)|
  {
    match change {
      case Inserted(row) =>
        var doc := RowToDocument(row);
        ProgressOfOne(writer.index, Put(KeyOf(c, row), doc));
        ok := writer.Do(Put(KeyOf(c, row), doc));
      case Deleted(row) =>
        ProgressOfOne(writer.index, Remove(KeyOf(c, row)));
        ok := writer.Do(Remove(KeyOf(c, row)));
      case Updated(before, after) =>
        var doc := RowToDocument(after);
        if DocumentID(c, before) != DocumentID(c, after) {
          ProgressOfTwo(writer.index, Remove(KeyOf(c, before)), Put(KeyOf(c, after), doc));
          ok := writer.Do(Remove(KeyOf(c, before)));
          if !ok { return; }
        } else {
          ProgressOfOne(writer.index, Put(KeyOf(c, after), doc));
        }
        ok := writer.Do(Put(KeyOf(c, after), doc));
    }
  }

  /** The writer has done the writes of the first `k` changes, starting from `index` and `accepted`. */
  ghost predicate Done(writer: ESWriter, c: Config, changes: seq<Change>, k: nat, index: Index, accepted: nat)
    reads writer
  {
    && k <= |changes|
    && |Writes(c, changes[..k])| + writer.accepted == accepted
    && writer.index == Apply(index, Writes(c, changes[..k]))
  }

  lemma NextOrStop(c: Config, changes: seq<Change>, k: nat, index: Index, accepted: nat, current: Index, left: nat)
    requires k < |changes| && current == Apply(index, Writes(c, changes[..k]))
    requires |Writes(c, changes[..k])| + left == accepted
    ensures GoesOnOrStops(index, Writes(c, changes[..k + 1]), Writes(c, changes), accepted, current, WritesOf(c, changes[k]), left)
  {
    OneMoreChange(c, changes, k);
    StopWithin(index, Writes(c, changes[..k]), Writes(c, changes[..k + 1]), Writes(c, changes), accepted, current, WritesOf(c, changes[k]), left);
  }

  /** The writes `ws` lead on to what the writes `next` make of the index, or end the pass within `all`. */
  ghost predicate GoesOnOrStops(index: Index, next: seq<Write>, all: seq<Write>, accepted: nat,
                                current: Index, ws: seq<Write>, left: nat) {
    if |ws| <= left then Progress(current, ws, left) == Apply(index, next) && |next| + left - |ws| == accepted
    else accepted < |all| && Progress(current, ws, left) == Progress(index, all, accepted)
  }

  /** One change more, or the end of the pass at the first error. */
  method SyncNext(writer: ESWriter, c: Config, change: Change,
                  ghost changes: seq<Change>, ghost k: nat, ghost index: Index, ghost accepted: nat) returns (ok: bool)
    requires k < |changes| && changes[k] == change && Done(writer, c, changes, k, index, accepted)
    modifies writer
    ensures ok ==> Done(writer, c, changes, k + 1, index, accepted)
    ensures !ok ==> accepted < |Writes(c, changes)| && writer.index == Progress(index, Writes(c, changes), accepted)
  {
    NextOrStop(c, changes, k, index, accepted, writer.index, writer.accepted);
    ok := SyncChange(writer, c, change);
  }

  /** The whole pass has ended: all writes done, or the first `accepted` of them. */
  ghost predicate Passed(writer: ESWriter, c: Config, changes: seq<Change>, index: Index, accepted: nat, ok: bool)
    reads writer
  {
    ok == (|Writes(c, changes)| <= accepted) && writer.index == Progress(index, Writes(c, changes), accepted)
  }

  lemma AllDone(writer: ESWriter, c: Config, changes: seq<Change>, index: Index, accepted: nat)
    requires Done(writer, c, changes, |changes|, index, accepted)
    ensures Passed(writer, c, changes, index, accepted, true)
  {
    assert changes[..|changes|] == changes;
  }

  method InsertRows(writer: ESWriter, c: Config, t: Table, rows: seq<seq<string>>) returns (ok: bool)
    modifies writer
    ensures Passed(writer, c, Inserts(t, rows), old(writer.index), old(writer.accepted), ok)
  {
    ghost var changes, index, accepted := Inserts(t, rows), writer.index, writer.accepted;
    for i := 0 to |rows|
      invariant Done(writer, c, changes, i, index, accepted)
    {
      ok := SyncNext(writer, c, Inserted(Row(t, rows[i])), changes, i, index, accepted);
      if !ok { return; }
    }
    AllDone(writer, c, changes, index, accepted);
    return true;
  }

  method DeleteRows(writer: ESWriter, c: Config, t: Table, rows: seq<seq<string>>) returns (ok: bool)
    modifies writer
    ensures Passed(writer, c, Deletes(t, rows), old(writer.index), old(writer.accepted), ok)
  {
    ghost var changes, index, accepted := Deletes(t, rows), writer.index, writer.accepted;
    for i := 0 to |rows|
      invariant Done(writer, c, changes, i, index, accepted)
    {
      ok := SyncNext(writer, c, Deleted(Row(t, rows[i])), changes, i, index, accepted);
      if !ok { return; }
    }
    AllDone(writer, c, changes, index, accepted);
    return true;
  }

  lemma UpdateAt(t: Table, rows: seq<seq<string>>, k: nat)
    ensures 2 * k + 1 < |rows| <==> k < |Updates(t, rows)|
    ensures 2 * k + 1 < |rows| ==> Updates(t, rows)[k] == Updated(Row(t, rows[2 * k]), Row(t, rows[2 * k + 1]))
  {
  }

  method UpdateRows(writer: ESWriter, c: Config, t: Table, rows: seq<seq<string>>) returns (ok: bool)
    modifies writer
    ensures Passed(writer, c, Updates(t, rows), old(writer.index), old(writer.accepted), ok)
  {
    ghost var changes, index, accepted := Updates(t, rows), writer.index, writer.accepted;
    var i := 0;
    ghost var k := 0;
    while i + 1 < |rows|
      invariant i == 2 * k && Done(writer, c, changes, k, index, accepted)
      decreases |rows| - i
    {
      UpdateAt(t, rows, k);
      var change := Updated(Row(t, rows[i]), Row(t, rows[i + 1]));
      assert changes[k] == change;
      ok := SyncNext(writer, c, change, changes, k, index, accepted);
      if !ok { return; }
      i, k := i + 2, k + 1;
    }
    UpdateAt(t, rows, k);
    AllDone(writer, c, changes, index, accepted);
    return true;
  }

  /** OnRow: the writes of the event's changes in order, until the first error. An index that mirrored the tables before
      the event, and took all its writes, mirrors them after it. */
  method OnRow(writer: ESWriter, c: Config, e: RowsEvent) returns (ok: bool)
    modifies writer
    ensures ok <==> |EventWrites(c, e)| <= old(writer.accepted)
    ensures writer.index == Progress(old(writer.index), EventWrites(c, e), old(writer.accepted))
    ensures ok ==> forall live: set<Row> ::
                     Mirrors(c, old(writer.index), live) && Injective(c, live) && Logged(c, live, e) ==>
                     Mirrors(c, writer.index, TablesAfter(live, e)) && Injective(c, TablesAfter(live, e))
  {
    ghost var before := writer.index;
    match e.action {
      case InsertAction => ok := InsertRows(writer, c, e.table, e.rows);
      case DeleteAction => ok := DeleteRows(writer, c, e.table, e.rows);
      case UpdateAction => ok := UpdateRows(writer, c, e.table, e.rows);
      case OtherAction => ok := true;
    }
    if ok {
      forall live: set<Row> | Mirrors(c, before, live) && Injective(c, live) && Logged(c, live, e)
        ensures Mirrors(c, writer.index, TablesAfter(live, e)) && Injective(c, TablesAfter(live, e))
      {
        EventMirrors(c, before, live, e);
      }
    }
  }

  /** The events of a log handed to OnRow one after the other, as the replication client does, until an error: an index
      that was empty and took them all mirrors the tables. */
  method Replay(writer: ESWriter, c: Config, log: seq<RowsEvent>) returns (ok: bool)
    requires writer.index == map[] && WellLogged(c, log)
    modifies writer
    ensures ok ==> Mirrors(c, writer.index, Tables(log))
  {
    for i := 0 to |log|
      invariant Mirrors(c, writer.index, Tables(log[..i])) && Injective(c, Tables(log[..i]))
    {
      assert log[..i + 1][..i] == log[..i];
      ok := OnRow(writer, c, log[i]);
      if !ok { return; }
    }
    assert log[..|log|] == log;
    return true;
  }

  predicate BeginsWith(all: seq<Write>, first: seq<Write>) {
    |first| <= |all| && all[..|first|] == first
  }

  lemma {:induction false} WritesPrefix(c: Config, changes: seq<Change>, i: nat)
    requires i <= |changes|
    ensures BeginsWith(Writes(c, changes), Writes(c, changes[..i]))
    decreases |changes|
  {
    var last := |changes| - 1;
    if i == |changes| {
      assert changes[..i] == changes;
    } else {
      WritesPrefix(c, changes[..last], i);
      assert changes[..last][..i] == changes[..i];
    }
  }

  lemma OneMoreChange(c: Config, changes: seq<Change>, i: nat)
    requires i < |changes|
    ensures Writes(c, changes[..i + 1]) == Writes(c, changes[..i]) + WritesOf(c, changes[i])
    ensures BeginsWith(Writes(c, changes), Writes(c, changes[..i + 1]))
  {
    assert changes[..i + 1][..i] == changes[..i];
    WritesPrefix(c, changes, i + 1);
  }

  lemma StopWithin(index: Index, done: seq<Write>, next: seq<Write>, all: seq<Write>, accepted: nat,
                   current: Index, ws: seq<Write>, left: nat)
    requires next == done + ws && BeginsWith(all, next)
    requires accepted == |done| + left && current == Apply(index, done)
    ensures GoesOnOrStops(index, next, all, accepted, current, ws, left)
  {
    if |ws| <= left {
      ApplyJoin(index, done, ws);
      assert |ws| == left ==> ws[..left] == ws;
    } else {
      ApplyJoin(index, done, ws[..left]);
      assert all[..|done| + left] == done + ws[..left];
    }
  }
}
