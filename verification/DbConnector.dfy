/** The database connector as an object: records filled field by field, updates compiled piece by piece. */
module DbConnector {
  import opened Text
  import opened BTree
  import opened Sql
  import opened Db
  import opened DbLens

  lemma ByCanonicalSnoc(fields: Entries, i: nat)
    requires i < |fields|
    ensures ByCanonical(fields[..i + 1]) == ByCanonical(fields[..i])[fields[i].1 := fields[i].0]
  {
    assert fields[..i + 1][..i] == fields[..i];
  }

  lemma ObjectSnoc(fields: Entries, row: Row, i: nat)
    requires i < |fields|
    ensures Object(fields[..i + 1], row) == Object(fields[..i], row)[fields[i].1 := Cell(row, fields[i].0)]
  {
    assert fields[..i + 1][..i] == fields[..i];
  }

  lemma WritableSnoc(columnOf: map<string, string>, changes: Entries, i: nat)
    requires i < |changes|
    ensures Writable(columnOf, changes[..i + 1])
         == Writable(columnOf, changes[..i])
            + (if changes[i].0 in columnOf then [(columnOf[changes[i].0], changes[i].1)] else [])
  {
    assert changes[..i + 1][..i] == changes[..i];
  }

  class DbConnector {
    const conn: Connector
    const link: Link
    var store: Store

    constructor (conn: Connector, link: Link, store: Store)
      ensures this.conn == conn && this.link == link && this.store == store
    {
      this.conn, this.link, this.store := conn, link, store;
    }

    method FetchAll(text: string) returns (rows: Result<seq<Row>>)
      modifies this
      ensures (store, rows) == Fetch(link, old(store), text)
    {
      var (store', fetched) := Fetch(link, store, text);
      store, rows := store', fetched;
    }

    method RunUpdate(text: string, binds: seq<string>) returns (affected: Result<nat>)
      modifies this
      ensures (store, affected) == Send(link, old(store), text, binds)
    {
      var (store', result) := Send(link, store, text, binds);
      store, affected := store', result;
    }

    /** The record of one row: a later column overwrites an earlier one with the same field. */
    method RecordOf(row: Row) returns (obj: Record)
      ensures obj == Object(conn.fields, row)
    {
      obj := map[];
      for i := 0 to |conn.fields|
        invariant obj == Object(conn.fields[..i], row)
      {
        obj := obj[conn.fields[i].1 := Cell(row, conn.fields[i].0)];
        ObjectSnoc(conn.fields, row, i);
      }
      assert conn.fields[..|conn.fields|] == conn.fields;
    }

    method PullRecords() returns (result: Result<seq<Record>>)
      modifies this
      ensures (store, result) == Pull(conn, link, old(store))
    {
      var cols := Columns(conn.fields);
      var sql := "SELECT " + Join(cols) + " FROM " + conn.table;
      assert sql == SelectText(conn);
      var rows := FetchAll(sql);
      if rows.Err? {
        return Err(DbError("pull: " + rows.error));
      }
      var records: seq<Record> := [];
      for i := 0 to |rows.value|
        invariant store == Fetch(link, old(store), sql).0 && |records| == i
        invariant forall k :: 0 <= k < i ==> records[k] == Object(conn.fields, rows.value[k])
      {
        var obj := RecordOf(rows.value[i]);
        records := records + [obj];
      }
      assert records == Records(conn.fields, rows.value);
      result := Ok(records);
    }

    /** The reverse map, collected in column order. */
    method Reverse() returns (columnOf: map<string, string>)
      ensures columnOf == ByCanonical(conn.fields)
    {
      columnOf := map[];
      for i := 0 to |conn.fields|
        invariant columnOf == ByCanonical(conn.fields[..i])
      {
        columnOf := columnOf[conn.fields[i].1 := conn.fields[i].0];
        ByCanonicalSnoc(conn.fields, i);
      }
      assert conn.fields[..|conn.fields|] == conn.fields;
    }

    method FilterMapped(columnOf: map<string, string>, changes: BTreeMap) returns (ws: Entries)
      ensures ws == Writable(columnOf, changes)
    {
      ws := [];
      for i := 0 to |changes|
        invariant ws == Writable(columnOf, changes[..i])
      {
        WritableSnoc(columnOf, changes, i);
        if changes[i].0 in columnOf {
          ws := ws + [(columnOf[changes[i].0], changes[i].1)];
        }
      }
      assert changes[..|changes|] == changes;
    }

    function PlaceholderText(n: nat): string { Placeholder(SlotAt(DialectOf(conn.driver), n)) }

    /** The equations of the SET clause, and the number of the next placeholder. */
    method SetClause(ws: Entries) returns (parts: seq<string>, idx: nat)
      ensures parts == Equations(Sets(DialectOf(conn.driver), ws)) && idx == |ws| + 1
    {
      parts, idx := [], 1;
      for i := 0 to |ws|
        invariant idx == i + 1 && |parts| == i
        invariant forall k :: 0 <= k < i ==> parts[k] == ws[k].0 + " = " + PlaceholderText(k + 1)
      {
        var ph := PlaceholderText(idx);
        idx := idx + 1;
        parts := parts + [ws[i].0 + " = " + ph];
      }
    }

    method BindAll(ws: Entries, key: string) returns (binds: seq<string>)
      ensures binds == Binds(ws, key)
    {
      binds := [];
      for i := 0 to |ws|
        invariant |binds| == i && forall k :: 0 <= k < i ==> binds[k] == ws[k].1
      {
        binds := binds + [ws[i].1];
      }
      binds := binds + [key];
    }

    method ApplyWriteback(key: string, changes: BTreeMap) returns (result: Result<nat>)
      modifies this
      ensures (store, result) == Writeback(conn, link, old(store), key, changes)
    {
      var columnOf := Reverse();
      var ws := FilterMapped(columnOf, changes);
      if ws == [] {
        return Ok(0);
      }
      var parts, idx := SetClause(ws);
      var keyPh := PlaceholderText(idx);
      var sql := "UPDATE " + conn.table + " SET " + Join(parts) + " WHERE " + conn.keyColumn + " = " + keyPh;
      assert sql == Render(Compiled(conn, ws));
      var binds := BindAll(ws, key);
      var affected := RunUpdate(sql, binds);
      result := if affected.Ok? then affected else Err(DbError("writeback: " + affected.error));
    }
  }
}
