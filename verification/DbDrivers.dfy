/** Driver settings against servers: which writebacks are accepted, and the text that is sent. */
module DbDrivers {
  import opened Text
  import opened BTree
  import opened Sql
  import opened Db
  import opened DbLens

  /** The word, in any mix of its lower-case and upper-case letters. */
  predicate Spelled(s: string, lower: string, upper: string)
    requires |lower| == |upper|
  {
    |s| == |lower| && forall i :: 0 <= i < |s| ==> s[i] == lower[i] || s[i] == upper[i]
  }

  lemma SameLetter(c: char, lower: char)
    requires 'a' <= lower <= 'z'
    ensures LowerChar(c) == LowerChar(lower) <==> c == lower || c as int == lower as int - 32
  {
  }

  lemma SpelledIgnoresCase(s: string, lower: string, upper: string)
    requires |lower| == |upper|
    requires forall i :: 0 <= i < |lower| ==> 'a' <= lower[i] <= 'z' && upper[i] as int == lower[i] as int - 32
    ensures Spelled(s, lower, upper) <==> EqIgnoreAsciiCase(s, lower)
  {
    if |s| == |lower| {
      forall i | 0 <= i < |s| ensures s[i] == lower[i] || s[i] == upper[i] <==> LowerChar(s[i]) == LowerChar(lower[i]) {
        SameLetter(s[i], lower[i]);
      }
    }
  }

  lemma PostgresDialect(driver: string)
    ensures DialectOf(driver) == if Spelled(driver, "postgres", "POSTGRES") then Dollar else Question
  {
    SpelledIgnoresCase(driver, "postgres", "POSTGRES");
  }

  /**
   With a sound link and known names, and something to write, the driver setting decides. A server with numbered
   placeholders takes the writebacks of a driver named "postgres", in any letter case, and no others; a server with
   positional ones takes those of every other driver. What is taken is applied, and what is not changes nothing.
   */
  lemma DriverDecides(conn: Connector, link: Link, st: Store, key: string, changes: BTreeMap)
    requires PlainConnector(conn) && link.fault(st.sent).None? && Known(conn, st.db, Map(changes))
    requires Written(conn.fields, Map(changes)) != map[]
    ensures var (st', result) := Writeback(conn, link, st, key, changes);
            && (link.accepts == {Dollar} ==> (result.Ok? <==> Spelled(conn.driver, "postgres", "POSTGRES")))
            && (link.accepts == {Question} ==> (result.Ok? <==> !Spelled(conn.driver, "postgres", "POSTGRES")))
            && (link.accepts == {Dollar, Question} ==> result.Ok?)
            && st'.db == if result.Ok? then Direct(conn, key, Map(changes), st.db) else st.db
  {
    PostgresDialect(conn.driver);
    WritebackSucceeds(conn, link, st, key, changes);
    WritebackMeans(conn, link, st, key, changes);
  }

  /** So a change of known names is applied by driver "postgres" where placeholders are numbered. */
  lemma PostgresSucceeds(conn: Connector, link: Link, st: Store, key: string, changes: BTreeMap)
    requires PlainConnector(conn) && link.fault(st.sent).None? && Known(conn, st.db, Map(changes))
    requires conn.driver == "postgres" && link.accepts == {Dollar}
    ensures var (st', result) := Writeback(conn, link, st, key, changes);
            result.Ok? && st'.db == Direct(conn, key, Map(changes), st.db)
  {
    PostgresDialect(conn.driver);
    WritebackSucceeds(conn, link, st, key, changes);
    WritebackMeans(conn, link, st, key, changes);
  }

  /** And by drivers "mysql" and "sqlite" where they are positional. */
  lemma OthersSucceed(conn: Connector, link: Link, st: Store, key: string, changes: BTreeMap)
    requires PlainConnector(conn) && link.fault(st.sent).None? && Known(conn, st.db, Map(changes))
    requires (conn.driver == "mysql" || conn.driver == "sqlite") && link.accepts == {Question}
    ensures var (st', result) := Writeback(conn, link, st, key, changes);
            result.Ok? && st'.db == Direct(conn, key, Map(changes), st.db)
  {
    PostgresDialect(conn.driver);
    WritebackSucceeds(conn, link, st, key, changes);
    WritebackMeans(conn, link, st, key, changes);
  }

  // --- the text on the wire -----------------------------------------------------------------------

  lemma PlaceholderTexts()
    ensures Placeholder(SlotAt(Dollar, 1)) == "$1" && Placeholder(SlotAt(Dollar, 2)) == "$2"
    ensures Placeholder(SlotAt(Dollar, 3)) == "$3" && Placeholder(SlotAt(Dollar, 10)) == "$10"
    ensures forall n :: Placeholder(SlotAt(Question, n)) == "?"
  {
    assert Decimal(1) == "1" && Decimal(2) == "2" && Decimal(3) == "3";
    assert Decimal(10) == Decimal(1) + [DigitChar(0)] == "10";
  }

  lemma TwoParts(a: string, b: string)
    ensures Join([a, b]) == a + ", " + b
  {
    assert [a, b][1..] == [b];
  }

  lemma TwoSets(dialect: Dialect, a: string, x: string, b: string, y: string)
    ensures Join(Equations(Sets(dialect, [(a, x), (b, y)])))
         == (a + " = " + Placeholder(SlotAt(dialect, 1))) + ", " + (b + " = " + Placeholder(SlotAt(dialect, 2)))
  {
    var sets := Sets(dialect, [(a, x), (b, y)]);
    assert Equations(sets) == [Equation(sets[0]), Equation(sets[1])];
    TwoParts(Equation(sets[0]), Equation(sets[1]));
  }

  /** Two changes of driver "postgres": the placeholders are numbered in the order of the values, the key last. */
  lemma PostgresText(conn: Connector, a: string, x: string, b: string, y: string, key: string)
    requires conn.driver == "postgres"
    ensures Render(Compiled(conn, [(a, x), (b, y)]))
         == "UPDATE " + conn.table + " SET " + ((a + " = " + "$1") + ", " + (b + " = " + "$2"))
            + " WHERE " + conn.keyColumn + " = " + "$3"
    ensures Binds([(a, x), (b, y)], key) == [x, y, key]
  {
    PostgresDialect(conn.driver);
    TwoSets(Dollar, a, x, b, y);
    PlaceholderTexts();
  }

  /** Of every other driver: the same text with positional placeholders. */
  lemma PositionalText(conn: Connector, a: string, x: string, b: string, y: string, key: string)
    requires !Spelled(conn.driver, "postgres", "POSTGRES")
    ensures Render(Compiled(conn, [(a, x), (b, y)]))
         == "UPDATE " + conn.table + " SET " + ((a + " = " + "?") + ", " + (b + " = " + "?"))
            + " WHERE " + conn.keyColumn + " = " + "?"
    ensures Binds([(a, x), (b, y)], key) == [x, y, key]
  {
    PostgresDialect(conn.driver);
    TwoSets(Question, a, x, b, y);
    PlaceholderTexts();
  }

  lemma PullText(conn: Connector, x: string, y: string, a: string, b: string)
    requires conn.fields == [(a, x), (b, y)]
    ensures SelectText(conn) == "SELECT " + (a + ", " + b) + " FROM " + conn.table
  {
    assert Columns(conn.fields) == [a, b];
    TwoParts(a, b);
  }

  // --- what a server makes of it --------------------------------------------------------------------

  /** A text that numbers its placeholders runs on a server with numbered ones, and only on such a one. */
  lemma NumberedRuns(
      db: Database, accepts: set<Dialect>, table: string, column: string, key: string, x: string, k: string)
    requires Plain(table) && Plain(column) && Plain(key)
    requires table in db && {column, key} <= db[table].columns
    ensures var text := "UPDATE " + table + " SET " + (column + " = " + "$1") + " WHERE " + key + " = " + "$2";
            Execute(db, accepts, text, [x, k]).Ok? <==> Dollar in accepts
  {
    var st := Update(table, [(column, Numbered(1))], key, Numbered(2));
    OneSet(column, Numbered(1));
    PlaceholderTexts();
    ParseOfRender(st);
    NumberedBound(accepts, Slots(st.sets, st.keySlot), [x, k]);
  }

  lemma OneSet(column: string, slot: Slot)
    ensures Join(Equations([(column, slot)])) == column + " = " + Placeholder(slot)
  {
    assert Equations([(column, slot)]) == [Equation((column, slot))];
  }

  lemma NumberedBound(accepts: set<Dialect>, slots: seq<Slot>, binds: seq<string>)
    requires slots == [Numbered(1), Numbered(2)] && |binds| == 2
    ensures Bound(accepts, slots, binds) <==> Dollar in accepts
  {
    assert slots[0] == Numbered(1) && slots[1] == Numbered(2);
  }

  /** A text with positional placeholders runs on a server with positional ones, and only on such a one. */
  lemma PositionalRuns(
      db: Database, accepts: set<Dialect>, table: string, column: string, key: string, x: string, k: string)
    requires Plain(table) && Plain(column) && Plain(key)
    requires table in db && {column, key} <= db[table].columns
    ensures var text := "UPDATE " + table + " SET " + (column + " = " + "?") + " WHERE " + key + " = " + "?";
            Execute(db, accepts, text, [x, k]).Ok? <==> Question in accepts
  {
    var st := Update(table, [(column, Positional)], key, Positional);
    OneSet(column, Positional);
    PlaceholderTexts();
    ParseOfRender(st);
    PositionalBound(accepts, Slots(st.sets, st.keySlot), [x, k]);
  }

  lemma PositionalBound(accepts: set<Dialect>, slots: seq<Slot>, binds: seq<string>)
    requires slots == [Positional, Positional] && |binds| == 2
    ensures Bound(accepts, slots, binds) <==> Question in accepts
  {
    assert slots[0] == Positional;
  }

  lemma {:induction false} MatchesCounted(rows: seq<Row>, key: string, value: string)
    ensures CountMatches(rows, key, value)
         == |set i: nat | i < |rows| && key in rows[i] && rows[i][key] == Some(value)|
  {
    var hits := set i: nat | i < |rows| && key in rows[i] && rows[i][key] == Some(value);
    if rows == [] {
      assert hits == {};
    } else {
      var n := |rows| - 1;
      var before := set i: nat | i < n && key in rows[..n][i] && rows[..n][i][key] == Some(value);
      MatchesCounted(rows[..n], key, value);
      assert hits == before + (if Matches(rows[n], key, value) then {n} else {});
    }
  }

  /** It sets the column to the first value in every row whose key column holds the second, and nothing else. */
  lemma UpdateAssigns(st: Statement, rows: seq<Row>, column: string, key: string, x: string, k: string, i: nat)
    requires || st == Update(st.table, [(column, Numbered(1))], key, Numbered(2))
             || st == Update(st.table, [(column, Positional)], key, Positional)
    requires i < |rows|
    ensures UpdateRows(rows, st, [x, k])[i]
         == if key in rows[i] && rows[i][key] == Some(k) then rows[i][column := Some(x)] else rows[i]
  {
    var slots := Slots(st.sets, st.keySlot);
    assert ValueAt(slots, [x, k], 0) == x && ValueAt(slots, [x, k], 1) == k;
    assert Assign(rows[i], st.sets, slots, [x, k], 0) == rows[i];
  }
}
