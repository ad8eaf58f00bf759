/** Pulling records and writing changes back: the two directions of the field sync, and how they agree. */
module DbLens {
  import opened Text
  import opened BTree
  import opened Sql
  import opened Db

  /** The database server: its placeholders, and which requests fail before they have an effect. */
  datatype Link = Link(accepts: set<Dialect>, fault: nat -> Option<string>)

  /** The database, and how many requests it has received. */
  datatype Store = Store(db: Database, sent: nat)

  function Fetch(link: Link, st: Store, text: string): (Store, Result<seq<Row>>) {
    match link.fault(st.sent)
    case Some(e) => (st.(sent := st.sent + 1), Err(e))
    case None => (st.(sent := st.sent + 1), Query(st.db, text))
  }

  function Send(link: Link, st: Store, text: string, binds: seq<string>): (Store, Result<nat>) {
    match link.fault(st.sent)
    case Some(e) => (st.(sent := st.sent + 1), Err(e))
    case None =>
      match Execute(st.db, link.accepts, text, binds)
      case Err(e) => (st.(sent := st.sent + 1), Err(e))
      case Ok((db, n)) => (Store(db, st.sent + 1), Ok(n))
  }

  function Columns(fields: Entries): (r: seq<string>)
    ensures |r| == |fields| && forall i :: 0 <= i < |fields| ==> r[i] == fields[i].0
  {
    seq(|fields|, i requires 0 <= i < |fields| => fields[i].0)
  }

  function Records(fields: Entries, rows: seq<Row>): (r: seq<Record>)
    ensures |r| == |rows| && forall i :: 0 <= i < |rows| ==> r[i] == Object(fields, rows[i])
  {
    seq(|rows|, i requires 0 <= i < |rows| => Object(fields, rows[i]))
  }

  function SelectText(conn: Connector): string { Render(Select(Columns(conn.fields), conn.table)) }

  function Pull(conn: Connector, link: Link, st: Store): (Store, Result<seq<Record>>) {
    var (st', rows) := Fetch(link, st, SelectText(conn));
    match rows
    case Err(e) => (st', Err(DbError("pull: " + e)))
    case Ok(rows) => (st', Ok(Records(conn.fields, rows)))
  }

  function Writeback(conn: Connector, link: Link, st: Store, key: string, changes: BTreeMap): (Store, Result<nat>) {
    var ws := Writable(ByCanonical(conn.fields), changes);
    if ws == [] then (st, Ok(0))
    else
      var (st', result) := Send(link, st, Render(Compiled(conn, ws)), Binds(ws, key));
      match result
      case Err(e) => (st', Err(DbError("writeback: " + e)))
      case Ok(n) => (st', Ok(n))
  }

  // --- get --------------------------------------------------------------------------------------

  /** The table is there, with every mapped column. */
  predicate Readable(conn: Connector, db: Database) {
    conn.table in db && forall i :: 0 <= i < |conn.fields| ==> conn.fields[i].0 in db[conn.table].columns
  }

  /** The records the table holds now. */
  function View(conn: Connector, db: Database): seq<Record>
    requires conn.table in db
  {
    Records(conn.fields, db[conn.table].rows)
  }

  lemma {:induction false} ObjectOfProjection(fields: Entries, row: Row, columns: seq<string>)
    requires forall i :: 0 <= i < |fields| ==> fields[i].0 in columns
    ensures Object(fields, Project(row, columns)) == Object(fields, row)
  {
    if fields != [] {
      assert fields[|fields| - 1].0 in columns;
      ObjectOfProjection(fields[..|fields| - 1], row, columns);
    }
  }

  /** Reading the SELECT back, the pull returns exactly one record per row, and fails exactly when a name is unknown. */
  lemma PullMeans(conn: Connector, link: Link, st: Store)
    requires PlainConnector(conn) && conn.fields != [] && link.fault(st.sent).None?
    ensures Pull(conn, link, st) == (st.(sent := st.sent + 1),
              if Readable(conn, st.db) then Ok(View(conn, st.db)) else Err(DbError("pull: " + "invalid statement")))
  {
    ParseOfRender(Select(Columns(conn.fields), conn.table));
    assert Query(st.db, SelectText(conn)).Ok? <==> Readable(conn, st.db) by {
      assert forall i :: 0 <= i < |conn.fields| ==> Columns(conn.fields)[i] == conn.fields[i].0;
    }
    if Readable(conn, st.db) {
      var rows := st.db[conn.table].rows;
      var selected := Query(st.db, SelectText(conn)).value;
      forall i | 0 <= i < |rows| ensures Object(conn.fields, selected[i]) == Object(conn.fields, rows[i]) {
        forall k | 0 <= k < |conn.fields| ensures conn.fields[k].0 in Columns(conn.fields) {
          assert Columns(conn.fields)[k] == conn.fields[k].0;
        }
        ObjectOfProjection(conn.fields, rows[i], Columns(conn.fields));
      }
      assert Records(conn.fields, selected) == Records(conn.fields, rows);
    }
  }

  // --- put --------------------------------------------------------------------------------------

  lemma NothingWritable(fields: BTreeMap, changes: BTreeMap)
    ensures Writable(ByCanonical(fields), changes) == [] <==> Written(fields, Map(changes)) == map[]
  {
    OverlayIsWritten(fields, changes);
    OverlayEmpty(Writable(ByCanonical(fields), changes));
  }

  lemma DirectNothing(conn: Connector, key: string, changes: map<string, string>, db: Database)
    requires Written(conn.fields, changes) == map[]
    ensures Direct(conn, key, changes, db) == db
  {
    if conn.table in db {
      RowsNothing(conn, key, changes, db[conn.table].rows);
      assert db[conn.table].(rows := db[conn.table].rows) == db[conn.table];
    }
  }

  lemma RowsNothing(conn: Connector, key: string, changes: map<string, string>, rows: seq<Row>)
    requires Written(conn.fields, changes) == map[]
    ensures DirectRows(conn, key, changes, rows) == rows
  {
    var same := DirectRows(conn, key, changes, rows);
    forall i | 0 <= i < |rows| ensures same[i] == rows[i] {
      NothingAdded(rows[i]);
    }
  }

  lemma NothingAdded(row: Row)
    ensures row + map[] == row
  {
  }

  /** The number of rows an accepted writeback reports. */
  function Affected(conn: Connector, db: Database, key: string, changes: BTreeMap): nat
    requires conn.table in db
  {
    if Written(conn.fields, Map(changes)) == map[] then 0
    else CountMatches(db[conn.table].rows, conn.keyColumn, key)
  }

  /** A writeback that succeeds is the direct update; one that fails changes nothing. */
  lemma WritebackMeans(conn: Connector, link: Link, st: Store, key: string, changes: BTreeMap)
    requires PlainConnector(conn)
    ensures var (st', result) := Writeback(conn, link, st, key, changes);
            && (result.Err? ==> st'.db == st.db)
            && (result.Ok? ==> st'.db == Direct(conn, key, Map(changes), st.db))
            && (result.Ok? && conn.table in st.db ==> result.value == Affected(conn, st.db, key, changes))
  {
    NothingWritable(conn.fields, changes);
    if Writable(ByCanonical(conn.fields), changes) == [] {
      DirectNothing(conn, key, Map(changes), st.db);
    } else {
      CompiledUpdateMeans(conn, st.db, link.accepts, key, changes);
    }
  }

  /** While the link holds, a writeback succeeds exactly when nothing is to be written or every name is known. */
  lemma WritebackSucceeds(conn: Connector, link: Link, st: Store, key: string, changes: BTreeMap)
    requires PlainConnector(conn) && link.fault(st.sent).None?
    ensures Writeback(conn, link, st, key, changes).1.Ok?
        <==> || Written(conn.fields, Map(changes)) == map[]
             || (DialectOf(conn.driver) in link.accepts && Known(conn, st.db, Map(changes)))
  {
    NothingWritable(conn.fields, changes);
    if Writable(ByCanonical(conn.fields), changes) != [] {
      CompiledUpdateMeans(conn, st.db, link.accepts, key, changes);
    }
  }

  /** For instance: a server with numbered placeholders refuses every writeback of a driver named "postgresql". */
  lemma WrongDriver(conn: Connector, link: Link, st: Store, key: string, changes: BTreeMap)
    requires PlainConnector(conn) && conn.driver == "postgresql" && link.accepts == {Dollar}
    requires Written(conn.fields, Map(changes)) != map[]
    ensures var (st', result) := Writeback(conn, link, st, key, changes); result.Err? && st'.db == st.db
  {
    NothingWritable(conn.fields, changes);
    WritebackMeans(conn, link, st, key, changes);
    CompiledUpdateMeans(conn, st.db, link.accepts, key, changes);
    assert |"postgresql"| != |"postgres"|;
  }

  // --- put, then get ----------------------------------------------------------------------------

  /** The mapped changes, as a record shows them. */
  function Shown(fields: Entries, changes: map<string, string>): Record {
    map can | can in ByCanonical(fields) && can in changes :: Some(changes[can])
  }

  /** The columns written are the columns read, so a record shows exactly the mapped changes. */
  lemma ObjectOfWritten(fields: BTreeMap, changes: map<string, string>, row: Row)
    ensures Object(fields, row + Written(fields, changes)) == Object(fields, row) + Shown(fields, changes)
  {
    var row' := row + Written(fields, changes);
    ObjectReads(fields, row);
    ObjectReads(fields, row');
    var columnOf := ByCanonical(fields);
    forall can | can in columnOf
      ensures Cell(row', columnOf[can]) == if can in changes then Some(changes[can]) else Cell(row, columnOf[can])
    {
      ColumnMaps(fields, can);
      MapEntries(fields, columnOf[can], can);
    }
  }

  lemma ViewOfDirect(conn: Connector, key: string, changes: map<string, string>, db: Database, i: nat)
    requires conn.table in db && i < |db[conn.table].rows|
    ensures View(conn, Direct(conn, key, changes, db))[i]
         == if Matches(db[conn.table].rows[i], conn.keyColumn, key) then View(conn, db)[i] + Shown(conn.fields, changes)
            else View(conn, db)[i]
  {
    ObjectOfWritten(conn.fields, changes, db[conn.table].rows[i]);
  }

  /** The records with the mapped changes shown on the rows that match. */
  function Updated(conn: Connector, db: Database, key: string, changes: map<string, string>): (r: seq<Record>)
    requires conn.table in db
    ensures |r| == |View(conn, db)|
  {
    var rows, view := db[conn.table].rows, View(conn, db);
    seq(|view|, i requires 0 <= i < |view| =>
      if Matches(rows[i], conn.keyColumn, key) then view[i] + Shown(conn.fields, changes) else view[i])
  }

  /**
   Put-then-get. After a successful writeback a pull shows, on the rows that matched beforehand, the new
   value of every mapped changed field, and every other value as it was: also when several columns map
   to one field, and when the key column itself is written.
   */
  lemma PutThenGet(conn: Connector, link: Link, st: Store, key: string, changes: BTreeMap)
    requires PlainConnector(conn) && conn.fields != [] && Readable(conn, st.db)
    requires Writeback(conn, link, st, key, changes).1.Ok?
    requires link.fault(Writeback(conn, link, st, key, changes).0.sent).None?
    ensures Pull(conn, link, Writeback(conn, link, st, key, changes).0).1 == Ok(Updated(conn, st.db, key, Map(changes)))
  {
    var after := Writeback(conn, link, st, key, changes).0;
    var updated := Updated(conn, st.db, key, Map(changes));
    WritebackMeans(conn, link, st, key, changes);
    PullMeans(conn, link, after);
    forall i | 0 <= i < |updated| ensures View(conn, after.db)[i] == updated[i] {
      ViewOfDirect(conn, key, Map(changes), st.db, i);
    }
    assert View(conn, after.db) == updated;
  }

  /** A writeback touches no other table, no other row, and no column but the one each changed field is read from. */
  lemma WritebackFrame(conn: Connector, link: Link, st: Store, key: string, changes: BTreeMap, i: nat, column: string)
    requires PlainConnector(conn) && conn.table in st.db && i < |st.db[conn.table].rows|
    requires var row := st.db[conn.table].rows[i];
             || !Matches(row, conn.keyColumn, key)
             || forall can :: can in Map(changes) && can in ByCanonical(conn.fields) ==>
                  ByCanonical(conn.fields)[can] != column
    ensures var db' := Writeback(conn, link, st, key, changes).0.db;
            && db' - {conn.table} == st.db - {conn.table}
            && conn.table in db' && |db'[conn.table].rows| == |st.db[conn.table].rows|
            && Cell(db'[conn.table].rows[i], column) == Cell(st.db[conn.table].rows[i], column)
  {
    WritebackMeans(conn, link, st, key, changes);
    var db' := Writeback(conn, link, st, key, changes).0.db;
    assert db' - {conn.table} == st.db - {conn.table};
    assert Matches(st.db[conn.table].rows[i], conn.keyColumn, key) ==> column !in Written(conn.fields, Map(changes));
  }

  // --- get, then put; put, then put -------------------------------------------------------------

  /** The changes say what the record already shows. */
  ghost predicate Agrees(fields: Entries, changes: map<string, string>, r: Record) {
    forall can :: can in changes && can in ByCanonical(fields) && can in r ==> r[can] == Some(changes[can])
  }

  lemma RowUnchanged(fields: BTreeMap, changes: map<string, string>, row: Row)
    ensures (forall c :: Cell(row + Written(fields, changes), c) == Cell(row, c))
        <==> Agrees(fields, changes, Object(fields, row))
  {
    var columnOf, written, r := ByCanonical(fields), Written(fields, changes), Object(fields, row);
    ObjectReads(fields, row);
    if Agrees(fields, changes, r) {
      forall c ensures Cell(row + written, c) == Cell(row, c) {
        if c in written {
          var can := Map(fields)[c];
          assert can in r && r[can] == Cell(row, c);
        }
      }
    }
    if forall c :: Cell(row + written, c) == Cell(row, c) {
      forall can | can in changes && can in columnOf && can in r ensures r[can] == Some(changes[can]) {
        ColumnMaps(fields, can);
        MapEntries(fields, columnOf[can], can);
        assert Cell(row + written, columnOf[can]) == Cell(row, columnOf[can]);
      }
    }
  }

  /** The same text in every cell of every table. */
  ghost predicate SameCells(a: Database, b: Database, table: string)
    requires table in a && table in b
  {
    && a - {table} == b - {table}
    && |a[table].rows| == |b[table].rows|
    && forall i, c :: 0 <= i < |a[table].rows| ==> Cell(a[table].rows[i], c) == Cell(b[table].rows[i], c)
  }

  /** Get-then-put: writing back changes nothing exactly when it writes what the matching records already show. */
  lemma GetThenPut(conn: Connector, link: Link, st: Store, key: string, changes: BTreeMap)
    requires PlainConnector(conn) && conn.table in st.db
    requires Writeback(conn, link, st, key, changes).1.Ok?
    ensures var db' := Writeback(conn, link, st, key, changes).0.db;
            && conn.table in db'
            && (SameCells(st.db, db', conn.table)
                <==> forall i :: 0 <= i < |View(conn, st.db)| && Matches(st.db[conn.table].rows[i], conn.keyColumn, key)
                       ==> Agrees(conn.fields, Map(changes), View(conn, st.db)[i]))
  {
    WritebackMeans(conn, link, st, key, changes);
    DirectUnchanged(conn, key, Map(changes), st.db);
  }

  lemma DirectUnchanged(conn: Connector, key: string, changes: map<string, string>, db: Database)
    requires conn.table in db
    ensures SameCells(db, Direct(conn, key, changes, db), conn.table)
        <==> forall i :: 0 <= i < |View(conn, db)| && Matches(db[conn.table].rows[i], conn.keyColumn, key)
               ==> Agrees(conn.fields, changes, View(conn, db)[i])
  {
    var db' := Direct(conn, key, changes, db);
    assert db' - {conn.table} == db - {conn.table};
    var rows := db[conn.table].rows;
    forall i | 0 <= i < |rows| && Matches(rows[i], conn.keyColumn, key)
      ensures (forall c :: Cell(rows[i] + Written(conn.fields, changes), c) == Cell(rows[i], c))
          <==> Agrees(conn.fields, changes, View(conn, db)[i])
    {
      RowUnchanged(conn.fields, changes, rows[i]);
    }
  }

  /** The change gives the rows of this key another one. */
  predicate Moves(conn: Connector, key: string, changes: map<string, string>) {
    var written := Written(conn.fields, changes);
    conn.keyColumn in written && written[conn.keyColumn] != Some(key)
  }

  /** The row already holds these cells. */
  predicate Holds(row: Row, cells: Row) { forall c :: c in cells ==> c in row && row[c] == cells[c] }

  /** Once changed by `a`, every row of this key holds what `b` writes. */
  predicate Follows(conn: Connector, key: string, a: map<string, string>, b: map<string, string>, db: Database) {
    conn.table in db ==>
      forall i :: 0 <= i < |db[conn.table].rows| && Matches(db[conn.table].rows[i], conn.keyColumn, key) ==>
        Holds(db[conn.table].rows[i] + Written(conn.fields, a), Written(conn.fields, b))
  }

  /**
   Put-then-put. Two accepted changes of one key leave what one change does in which the later value wins,
   if and only if the first leaves the rows under their key or they already hold what the second writes.
   */
  lemma PutThenPut(conn: Connector, link: Link, st: Store, key: string, a: BTreeMap, b: BTreeMap, both: BTreeMap)
    requires PlainConnector(conn) && Map(both) == Map(a) + Map(b)
    requires Writeback(conn, link, st, key, a).1.Ok?
    requires Writeback(conn, link, Writeback(conn, link, st, key, a).0, key, b).1.Ok?
    requires Writeback(conn, link, st, key, both).1.Ok?
    ensures Writeback(conn, link, Writeback(conn, link, st, key, a).0, key, b).0.db
         == Writeback(conn, link, st, key, both).0.db
        <==> !Moves(conn, key, Map(a)) || Follows(conn, key, Map(a), Map(b), st.db)
  {
    WritebackMeans(conn, link, st, key, a);
    WritebackMeans(conn, link, Writeback(conn, link, st, key, a).0, key, b);
    WritebackMeans(conn, link, st, key, both);
    DirectTwice(conn, key, Map(a), Map(b), st.db);
  }

  lemma DirectTwice(conn: Connector, key: string, a: map<string, string>, b: map<string, string>, db: Database)
    ensures Direct(conn, key, b, Direct(conn, key, a, db)) == Direct(conn, key, a + b, db)
        <==> !Moves(conn, key, a) || Follows(conn, key, a, b, db)
  {
    if conn.table in db {
      var rows := db[conn.table].rows;
      var twice := DirectRows(conn, key, b, DirectRows(conn, key, a, rows));
      var once := DirectRows(conn, key, a + b, rows);
      forall i | 0 <= i < |rows|
        ensures twice[i] == once[i] <==>
          (Matches(rows[i], conn.keyColumn, key) && Moves(conn, key, a) ==>
            Holds(rows[i] + Written(conn.fields, a), Written(conn.fields, b)))
      {
        PutTwice(conn, key, a, b, rows[i]);
      }
      TablesDiffer(db, conn.table, twice, once);
      assert twice == once <==> forall i :: 0 <= i < |rows| ==> twice[i] == once[i];
    }
  }

  /** Replacing the rows of a table twice leaves the last ones, and databases differ when those do. */
  lemma TablesDiffer(db: Database, table: string, x: seq<Row>, y: seq<Row>)
    requires table in db
    ensures db[table := db[table].(rows := x)] == db[table := db[table].(rows := y)] <==> x == y
    ensures forall z: seq<Row> :: var db' := db[table := db[table].(rows := z)];
              db'[table := db'[table].(rows := x)] == db[table := db[table].(rows := x)]
  {
    assert db[table := db[table].(rows := x)][table].rows == x;
    assert db[table := db[table].(rows := y)][table].rows == y;
  }

  lemma WrittenBoth(fields: BTreeMap, a: map<string, string>, b: map<string, string>)
    ensures Written(fields, a + b) == Written(fields, a) + Written(fields, b)
  {
  }

  lemma PutTwice(conn: Connector, key: string, a: map<string, string>, b: map<string, string>, row: Row)
    ensures DirectRow(conn, key, b, DirectRow(conn, key, a, row)) == DirectRow(conn, key, a + b, row)
        <==> (Matches(row, conn.keyColumn, key) && Moves(conn, key, a) ==>
               Holds(row + Written(conn.fields, a), Written(conn.fields, b)))
  {
    WrittenBoth(conn.fields, a, b);
    Overwrite(row, Written(conn.fields, a), Written(conn.fields, b), conn.keyColumn, key);
  }

  /** Two overlays of a row that matches, whether or not it still does in between. */
  lemma Overwrite(row: Row, a: Row, b: Row, column: string, key: string)
    ensures row + a + b == row + (a + b)
    ensures Matches(row, column, key) ==> (Matches(row + a, column, key) <==> column !in a || a[column] == Some(key))
    ensures row + a + b == row + a <==> Holds(row + a, b)
  {
    if Holds(row + a, b) {
      assert row + a + b == row + a;
    } else {
      var c :| c in b && !(c in row + a && (row + a)[c] == b[c]);
      assert (row + a + b)[c] == b[c];
    }
  }
}
