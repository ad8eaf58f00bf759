/** The database connector: columns mapped to canonical fields, and changes compiled to an UPDATE. */
module Db {
  import opened Text
  import opened BTree
  import opened Sql

  datatype Connector = Connector(table: string, keyColumn: string, fields: BTreeMap, driver: string)

  /** A record as it is pushed: each canonical field with its text, or null. */
  type Record = map<string, Option<string>>

  function DbError(message: string): string { "database error: " + message }

  // --- the two maps -----------------------------------------------------------------------------

  predicate Maps(fields: Entries, column: string, canonical: string) { (column, canonical) in fields }

  /** The reverse map; a later column takes the place of an earlier one with the same field. */
  function ByCanonical(fields: Entries): map<string, string> {
    if fields == [] then map[]
    else ByCanonical(fields[..|fields| - 1])[fields[|fields| - 1].1 := fields[|fields| - 1].0]
  }

  lemma {:induction false} ColumnMaps(fields: Entries, canonical: string)
    requires canonical in ByCanonical(fields)
    ensures Maps(fields, ByCanonical(fields)[canonical], canonical)
  {
    var n := |fields| - 1;
    assert fields == fields[..n] + [fields[n]];
    if fields[n].1 != canonical {
      ColumnMaps(fields[..n], canonical);
    }
  }

  /** The record of a row, field by field in column order. */
  function Object(fields: Entries, row: Row): Record {
    if fields == [] then map[]
    else Object(fields[..|fields| - 1], row)[fields[|fields| - 1].1 := Cell(row, fields[|fields| - 1].0)]
  }

  /** Both directions pick the greatest column: the reverse map by definition, the record as it is read. */
  lemma {:induction false} ObjectReads(fields: Entries, row: Row)
    ensures Object(fields, row) == map can | can in ByCanonical(fields) :: Cell(row, ByCanonical(fields)[can])
  {
    if fields != [] {
      ObjectReads(fields[..|fields| - 1], row);
    }
  }

  lemma {:induction false} NoGreater(fields: BTreeMap, column: string, canonical: string)
    requires Maps(fields, column, canonical)
    ensures canonical in ByCanonical(fields) && !Less(ByCanonical(fields)[canonical], column)
  {
    var n := |fields| - 1;
    assert fields == fields[..n] + [fields[n]];
    if fields[n] == (column, canonical) {
      LessSelf(column);
    } else {
      NoGreater(fields[..n], column, canonical);
      if fields[n].1 == canonical {
        NotAfterLast(fields, column, canonical);
      }
    }
  }

  lemma NotAfterLast(fields: BTreeMap, column: string, canonical: string)
    requires Maps(fields, column, canonical) && fields[|fields| - 1] != (column, canonical)
    ensures !Less(fields[|fields| - 1].0, column)
  {
    var i :| 0 <= i < |fields| && fields[i] == (column, canonical);
    Asymmetric(fields[i].0, fields[|fields| - 1].0);
  }

  lemma LessSelf(s: string)
    ensures !Less(s, s)
  {
    if Less(s, s) {
      Asymmetric(s, s);
    }
  }

  /** The column of a field is the greatest of those mapped to it. */
  lemma GreatestColumn(fields: BTreeMap, column: string, canonical: string)
    ensures canonical in ByCanonical(fields) && ByCanonical(fields)[canonical] == column
        <==> Maps(fields, column, canonical) && forall c | Maps(fields, c, canonical) :: !Less(column, c)
  {
    if canonical in ByCanonical(fields) {
      ColumnMaps(fields, canonical);
      Total(column, ByCanonical(fields)[canonical]);
    }
    forall c | Maps(fields, c, canonical)
      ensures canonical in ByCanonical(fields) && !Less(ByCanonical(fields)[canonical], c)
    {
      NoGreater(fields, c, canonical);
    }
  }

  /** A column belongs to one field only. */
  lemma ByCanonicalInjective(fields: BTreeMap, a: string, b: string)
    requires a in ByCanonical(fields) && b in ByCanonical(fields) && ByCanonical(fields)[a] == ByCanonical(fields)[b]
    ensures a == b
  {
    var c := ByCanonical(fields)[a];
    ColumnMaps(fields, a);
    ColumnMaps(fields, b);
    MapEntries(fields, c, a);
    MapEntries(fields, c, b);
  }

  // --- compiling a change -----------------------------------------------------------------------

  /** The mapped changes, as column and value. */
  function Writable(columnOf: map<string, string>, changes: Entries): (ws: Entries)
    ensures |ws| <= |changes|
  {
    if changes == [] then []
    else
      var last := changes[|changes| - 1];
      Writable(columnOf, changes[..|changes| - 1]) + (if last.0 in columnOf then [(columnOf[last.0], last.1)] else [])
  }

  lemma {:induction false} WritableEntries(
      columnOf: map<string, string>, changes: Entries, column: string, value: string)
    ensures (column, value) in Writable(columnOf, changes)
        <==> exists can :: (can, value) in changes && can in columnOf && columnOf[can] == column
  {
    if changes != [] {
      var n := |changes| - 1;
      WritableEntries(columnOf, changes[..n], column, value);
      assert changes == changes[..n] + [changes[n]];
      if changes[n].0 in columnOf && (columnOf[changes[n].0], changes[n].1) == (column, value) {
        assert (changes[n].0, value) in changes;
      }
    }
  }

  predicate DistinctColumns(ws: Entries) { forall i, j :: 0 <= i < j < |ws| ==> ws[i].0 != ws[j].0 }

  /** No column is set twice. */
  lemma {:induction false} WritableDistinct(fields: BTreeMap, changes: BTreeMap)
    ensures DistinctColumns(Writable(ByCanonical(fields), changes))
  {
    if changes != [] {
      var columnOf, n := ByCanonical(fields), |changes| - 1;
      WritableDistinct(fields, changes[..n]);
      if changes[n].0 in columnOf {
        var ws := Writable(columnOf, changes[..n]);
        forall i | 0 <= i < |ws| ensures ws[i].0 != columnOf[changes[n].0] {
          NotYetWritten(fields, changes, i);
        }
        DistinctSnoc(ws, (columnOf[changes[n].0], changes[n].1));
      } else {
        assert Writable(columnOf, changes) == Writable(columnOf, changes[..n]);
      }
    }
  }

  lemma DistinctSnoc(ws: Entries, w: (string, string))
    requires DistinctColumns(ws) && forall i :: 0 <= i < |ws| ==> ws[i].0 != w.0
    ensures DistinctColumns(ws + [w])
  {
  }

  lemma NotYetWritten(fields: BTreeMap, changes: BTreeMap, i: nat)
    requires changes != [] && changes[|changes| - 1].0 in ByCanonical(fields)
    requires i < |Writable(ByCanonical(fields), changes[..|changes| - 1])|
    ensures Writable(ByCanonical(fields), changes[..|changes| - 1])[i].0
         != ByCanonical(fields)[changes[|changes| - 1].0]
  {
    var columnOf, n := ByCanonical(fields), |changes| - 1;
    var w := Writable(columnOf, changes[..n])[i];
    WritableEntries(columnOf, changes[..n], w.0, w.1);
    var can :| (can, w.1) in changes[..n] && can in columnOf && columnOf[can] == w.0;
    var k :| 0 <= k < n && changes[k] == (can, w.1);
    Asymmetric(changes[k].0, changes[n].0);
    if columnOf[can] == columnOf[changes[n].0] {
      ByCanonicalInjective(fields, can, changes[n].0);
    }
  }

  function DialectOf(driver: string): Dialect {
    if EqIgnoreAsciiCase(driver, "postgres") then Dollar else Question
  }

  function SlotAt(dialect: Dialect, n: nat): Slot {
    match dialect case Dollar => Numbered(n) case Question => Positional
  }

  /** The SET clause: the placeholders are numbered from 1. */
  function Sets(dialect: Dialect, ws: Entries): (r: seq<(string, Slot)>)
    ensures |r| == |ws| && forall i :: 0 <= i < |ws| ==> r[i] == (ws[i].0, SlotAt(dialect, i + 1))
  {
    seq(|ws|, i requires 0 <= i < |ws| => (ws[i].0, SlotAt(dialect, i + 1)))
  }

  function Compiled(conn: Connector, ws: Entries): Statement {
    var dialect := DialectOf(conn.driver);
    Update(conn.table, Sets(dialect, ws), conn.keyColumn, SlotAt(dialect, |ws| + 1))
  }

  function Binds(ws: Entries, key: string): (r: seq<string>)
    ensures |r| == |ws| + 1 && r[|ws|] == key && forall i :: 0 <= i < |ws| ==> r[i] == ws[i].1
  {
    seq(|ws|, i requires 0 <= i < |ws| => ws[i].1) + [key]
  }

  // --- what the change means --------------------------------------------------------------------

  /** The new value of each column that a change of canonical fields writes. */
  function Written(fields: BTreeMap, changes: map<string, string>): Row {
    var f, columnOf := Map(fields), ByCanonical(fields);
    map c | c in f && f[c] in changes && f[c] in columnOf && columnOf[f[c]] == c :: Some(changes[f[c]])
  }

  function DirectRow(conn: Connector, key: string, changes: map<string, string>, row: Row): Row {
    if Matches(row, conn.keyColumn, key) then row + Written(conn.fields, changes) else row
  }

  /** The rows with the mapped columns of the matching ones updated, and nothing else. */
  function DirectRows(conn: Connector, key: string, changes: map<string, string>, rows: seq<Row>): (r: seq<Row>)
    ensures |r| == |rows|
    ensures forall i :: 0 <= i < |rows| ==> r[i] == DirectRow(conn, key, changes, rows[i])
  {
    seq(|rows|, i requires 0 <= i < |rows| => DirectRow(conn, key, changes, rows[i]))
  }

  function Direct(conn: Connector, key: string, changes: map<string, string>, db: Database): Database {
    if conn.table in db then
      db[conn.table := db[conn.table].(rows := DirectRows(conn, key, changes, db[conn.table].rows))]
    else db
  }

  /** The values of the compiled SET clause, before any is assigned to a row. */
  function Overlay(ws: Entries): Row {
    if ws == [] then map[] else Overlay(ws[..|ws| - 1])[ws[|ws| - 1].0 := Some(ws[|ws| - 1].1)]
  }

  lemma {:induction false} OverlayEntries(ws: Entries, column: string, value: string)
    requires DistinctColumns(ws)
    ensures column in Overlay(ws) && Overlay(ws)[column] == Some(value) <==> (column, value) in ws
  {
    if ws != [] {
      var n := |ws| - 1;
      OverlayEntries(ws[..n], column, value);
      assert ws == ws[..n] + [ws[n]];
    }
  }

  /** A column is written exactly when it is the column of a changed field. */
  lemma WritableIsWritten(fields: BTreeMap, changes: BTreeMap, column: string, value: string)
    ensures (column, value) in Writable(ByCanonical(fields), changes)
        <==> column in Written(fields, Map(changes)) && Written(fields, Map(changes))[column] == Some(value)
  {
    var columnOf, f := ByCanonical(fields), Map(fields);
    WritableEntries(columnOf, changes, column, value);
    forall can | (can, value) in changes && can in columnOf && columnOf[can] == column
      ensures column in f && f[column] == can && can in Map(changes) && Map(changes)[can] == value
    {
      MapEntries(changes, can, value);
      ColumnMaps(fields, can);
      MapEntries(fields, column, can);
    }
    if column in f {
      MapEntries(changes, f[column], value);
    }
  }

  lemma {:induction false} OverlayTexts(ws: Entries, column: string)
    requires column in Overlay(ws)
    ensures Overlay(ws)[column].Some?
  {
    var n := |ws| - 1;
    if ws[n].0 != column {
      OverlayTexts(ws[..n], column);
    }
  }

  lemma OverlayEmpty(ws: Entries)
    ensures Overlay(ws) == map[] <==> ws == []
  {
    if ws != [] {
      assert ws[|ws| - 1].0 in Overlay(ws);
    }
  }

  lemma OverlayIsWritten(fields: BTreeMap, changes: BTreeMap)
    ensures Overlay(Writable(ByCanonical(fields), changes)) == Written(fields, Map(changes))
  {
    var ws, written := Writable(ByCanonical(fields), changes), Written(fields, Map(changes));
    WritableDistinct(fields, changes);
    forall c | c in Overlay(ws) ensures c in written && written[c] == Overlay(ws)[c] {
      OverlayTexts(ws, c);
      OverlayEntries(ws, c, Overlay(ws)[c].value);
      WritableIsWritten(fields, changes, c, Overlay(ws)[c].value);
    }
    forall c | c in written ensures c in Overlay(ws) {
      WritableIsWritten(fields, changes, c, written[c].value);
      OverlayEntries(ws, c, written[c].value);
    }
  }

  // --- the compiled statement means the change --------------------------------------------------

  /** Each placeholder stands for the value that was compiled into its place, `$10` and beyond included. */
  lemma ValueOfSlot(conn: Connector, ws: Entries, key: string, i: nat)
    requires i <= |ws|
    ensures var st := Compiled(conn, ws); ValueAt(Slots(st.sets, st.keySlot), Binds(ws, key), i) == Binds(ws, key)[i]
  {
  }

  /** As many placeholders as values; they are bound in the driver's form, and in no other. */
  lemma PlaceholdersAs(conn: Connector, ws: Entries, key: string, dialect: Dialect)
    ensures var st := Compiled(conn, ws);
            && |Slots(st.sets, st.keySlot)| == |Binds(ws, key)|
            && (BoundAs(dialect, Slots(st.sets, st.keySlot), Binds(ws, key)) <==> dialect == DialectOf(conn.driver))
  {
    var st := Compiled(conn, ws);
    var slots := Slots(st.sets, st.keySlot);
    assert forall i :: 0 <= i < |slots| ==> slots[i] == SlotAt(DialectOf(conn.driver), i + 1);
    if dialect.Dollar? && DialectOf(conn.driver).Dollar? {
      forall n | 1 <= n <= |ws| + 1 ensures Numbered(n) in slots {
        assert slots[n - 1] == Numbered(n);
      }
    }
    if dialect != DialectOf(conn.driver) {
      assert !(slots[|ws|] == SlotAt(dialect, |ws| + 1));
    }
  }

  /** The server accepts the placeholders when it accepts the driver's form, and only then. */
  lemma PlaceholdersBound(conn: Connector, ws: Entries, key: string, accepts: set<Dialect>)
    ensures var st := Compiled(conn, ws);
            && |Slots(st.sets, st.keySlot)| == |Binds(ws, key)|
            && (Bound(accepts, Slots(st.sets, st.keySlot), Binds(ws, key)) <==> DialectOf(conn.driver) in accepts)
  {
    PlaceholdersAs(conn, ws, key, Dollar);
    PlaceholdersAs(conn, ws, key, Question);
  }

  lemma {:induction false} AssignIsOverlay(row: Row, conn: Connector, ws: Entries, key: string, k: nat)
    requires k <= |ws|
    ensures var st := Compiled(conn, ws);
            Assign(row, st.sets, Slots(st.sets, st.keySlot), Binds(ws, key), k) == row + Overlay(ws[..k])
  {
    if k > 0 {
      AssignIsOverlay(row, conn, ws, key, k - 1);
      ValueOfSlot(conn, ws, key, k - 1);
      OverlaySnoc(row, ws, k - 1);
    }
  }

  lemma OverlaySnoc(row: Row, ws: Entries, i: nat)
    requires i < |ws|
    ensures row + Overlay(ws[..i + 1]) == (row + Overlay(ws[..i]))[ws[i].0 := Some(ws[i].1)]
  {
    assert ws[..i + 1][..i] == ws[..i];
  }

  predicate PlainConnector(conn: Connector) {
    && Plain(conn.table) && Plain(conn.keyColumn)
    && forall i :: 0 <= i < |conn.fields| ==> Plain(conn.fields[i].0)
  }

  /** What the server must know for a change to be applied. */
  ghost predicate Known(conn: Connector, db: Database, changes: map<string, string>) {
    && conn.table in db
    && conn.keyColumn in db[conn.table].columns
    && Written(conn.fields, changes).Keys <= db[conn.table].columns
  }

  lemma CompiledPlain(conn: Connector, changes: BTreeMap)
    requires PlainConnector(conn) && Writable(ByCanonical(conn.fields), changes) != []
    ensures PlainStatement(Compiled(conn, Writable(ByCanonical(conn.fields), changes)))
  {
    var columnOf := ByCanonical(conn.fields);
    var ws := Writable(columnOf, changes);
    forall i | 0 <= i < |ws| ensures Plain(ws[i].0) {
      assert ws[i] in ws;
      WritableEntries(columnOf, changes, ws[i].0, ws[i].1);
      var can :| (can, ws[i].1) in changes && can in columnOf && columnOf[can] == ws[i].0;
      ColumnMaps(conn.fields, can);
    }
  }

  /** The columns of the SET clause are the columns written. */
  lemma SetColumns(fields: BTreeMap, changes: BTreeMap, columns: set<string>)
    ensures var ws := Writable(ByCanonical(fields), changes);
            (forall i :: 0 <= i < |ws| ==> ws[i].0 in columns) <==> Written(fields, Map(changes)).Keys <= columns
  {
    var ws, written := Writable(ByCanonical(fields), changes), Written(fields, Map(changes));
    forall i | 0 <= i < |ws| ensures ws[i].0 in written {
      assert ws[i] in ws;
      WritableIsWritten(fields, changes, ws[i].0, ws[i].1);
    }
    forall c | c in written ensures exists i :: 0 <= i < |ws| && ws[i].0 == c {
      WritableIsWritten(fields, changes, c, written[c].value);
      var i :| 0 <= i < |ws| && ws[i] == (c, written[c].value);
      assert ws[i].0 == c;
    }
  }

  lemma CompiledValid(conn: Connector, db: Database, accepts: set<Dialect>, key: string, changes: BTreeMap)
    ensures var ws := Writable(ByCanonical(conn.fields), changes);
            ValidUpdate(db, accepts, Compiled(conn, ws), Binds(ws, key))
            <==> Known(conn, db, Map(changes)) && DialectOf(conn.driver) in accepts
  {
    var ws := Writable(ByCanonical(conn.fields), changes);
    PlaceholdersBound(conn, ws, key, accepts);
    WritableDistinct(conn.fields, changes);
    if conn.table in db {
      SetColumns(conn.fields, changes, db[conn.table].columns);
      var sets := Compiled(conn, ws).sets;
      assert forall i :: 0 <= i < |ws| ==> sets[i].0 == ws[i].0;
    }
  }

  lemma CompiledRow(conn: Connector, key: string, changes: BTreeMap, row: Row)
    ensures var ws := Writable(ByCanonical(conn.fields), changes);
            var st := Compiled(conn, ws);
            && ValueAt(Slots(st.sets, st.keySlot), Binds(ws, key), |ws|) == key
            && Assign(row, st.sets, Slots(st.sets, st.keySlot), Binds(ws, key), |ws|)
               == row + Written(conn.fields, Map(changes))
  {
    var ws := Writable(ByCanonical(conn.fields), changes);
    ValueOfSlot(conn, ws, key, |ws|);
    AssignIsOverlay(row, conn, ws, key, |ws|);
    assert ws[..|ws|] == ws;
    OverlayIsWritten(conn.fields, changes);
  }

  lemma CompiledRows(conn: Connector, key: string, changes: BTreeMap, rows: seq<Row>)
    ensures var ws := Writable(ByCanonical(conn.fields), changes);
            UpdateRows(rows, Compiled(conn, ws), Binds(ws, key)) == DirectRows(conn, key, Map(changes), rows)
  {
    var ws := Writable(ByCanonical(conn.fields), changes);
    var updated := UpdateRows(rows, Compiled(conn, ws), Binds(ws, key));
    forall i | 0 <= i < |rows| ensures updated[i] == DirectRow(conn, key, Map(changes), rows[i]) {
      CompiledRow(conn, key, changes, rows[i]);
    }
  }

  /**
   The compiled UPDATE preserves meaning. Reading the text back and running it on the bound values is
   the direct update of the mapped columns, and it fails exactly when the server does not know a name
   or writes its placeholders differently.
   */
  lemma CompiledUpdateMeans(conn: Connector, db: Database, accepts: set<Dialect>, key: string, changes: BTreeMap)
    requires PlainConnector(conn) && Writable(ByCanonical(conn.fields), changes) != []
    ensures var ws := Writable(ByCanonical(conn.fields), changes);
            Execute(db, accepts, Render(Compiled(conn, ws)), Binds(ws, key))
            == if Known(conn, db, Map(changes)) && DialectOf(conn.driver) in accepts
               then Ok((Direct(conn, key, Map(changes), db), CountMatches(db[conn.table].rows, conn.keyColumn, key)))
               else Err("invalid statement")
  {
    var ws := Writable(ByCanonical(conn.fields), changes);
    CompiledPlain(conn, changes);
    ParseOfRender(Compiled(conn, ws));
    CompiledValid(conn, db, accepts, key, changes);
    ValueOfSlot(conn, ws, key, |ws|);
    if conn.table in db {
      CompiledRows(conn, key, changes, db[conn.table].rows);
    }
  }
}
