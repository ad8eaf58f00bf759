/** DB mode: one pass pushes every row to the broker and applies the broker's changes. */
module DbMode {
  import opened Text
  import opened Json
  import opened AuditRecords
  import opened AuditChain
  import opened AuditLogs
  import opened Journal
  import opened BTree
  import opened Sql
  import opened Db
  import opened DbLens

  /** A change the broker hands out: the key of a row and the new values of some fields. */
  datatype Change = Change(key: string, fields: BTreeMap)

  /** The connector as a pass uses it: reading all records, and applying one change. */
  datatype Source = Source(
    table: string,
    pull: Store -> (Store, Result<seq<Record>>),
    apply: (Store, Change) -> (Store, Result<nat>))

  function Connected(conn: Connector, link: Link): Source {
    Source(
      conn.table,
      st => Pull(conn, link, st),
      (st, change: Change) => Writeback(conn, link, st, change.key, change.fields))
  }

  /**
   What a pass is given: the connector, which pushes the broker turns down, the change feed (none when
   writeback is off), and the log's clockwork.
   */
  datatype Env = Env(
    source: Source,
    push: nat -> Option<string>,
    feed: Option<Result<seq<Change>>>,
    clockwork: Clockwork)

  datatype Pass = Pass(store: Store, pushed: seq<Record>, counts: Counts, log: seq<Logged>)

  // --- events -----------------------------------------------------------------------------------

  function PushFail(error: string): Logged { Logged("DB_PUSH_FAIL", Fields(["error"], [Str(error)])) }

  function WritebackFail(key: string, error: string): Logged {
    Logged("DB_WRITEBACK_FAIL", Fields(["error", "key"], [Str(error), Str(key)]))
  }

  function Pulled(table: string, rows: nat): Logged {
    Logged("DB_PULL", Fields(["rows", "table"], [Num(Wrap(rows)), Str(table)]))
  }

  function WroteBack(table: string, applied: nat): Logged {
    Logged("DB_WRITEBACK", Fields(["applied", "table"], [Num(Wrap(applied)), Str(table)]))
  }

  /** Every event as a reader of the log finds it. */
  lemma EventsRead(error: string, key: string, table: string, n: nat)
    ensures PushFail(error).event == "DB_PUSH_FAIL" && FieldIn(PushFail(error).detail, "error") == Some(Str(error))
    ensures var e := WritebackFail(key, error);
            && e.event == "DB_WRITEBACK_FAIL"
            && FieldIn(e.detail, "key") == Some(Str(key)) && FieldIn(e.detail, "error") == Some(Str(error))
    ensures var e := Pulled(table, n);
            && e.event == "DB_PULL" && FieldIn(e.detail, "rows") == Some(Num(n % 0x1_0000_0000_0000_0000))
            && FieldIn(e.detail, "table") == Some(Str(table))
    ensures var e := WroteBack(table, n);
            && e.event == "DB_WRITEBACK" && FieldIn(e.detail, "applied") == Some(Num(n % 0x1_0000_0000_0000_0000))
            && FieldIn(e.detail, "table") == Some(Str(table))
  {
    FieldsRead(["error"], [Str(error)], 0);
    TwoRead("error", Str(error), "key", Str(key));
    TwoRead("rows", Num(Wrap(n)), "table", Str(table));
    TwoRead("applied", Num(Wrap(n)), "table", Str(table));
  }

  lemma TwoRead(a: string, x: Json, b: string, y: Json)
    requires a != b
    ensures FieldIn(Fields([a, b], [x, y]), a) == Some(x) && FieldIn(Fields([a, b], [x, y]), b) == Some(y)
  {
    FieldsRead([a, b], [x, y], 0);
    FieldsRead([a, b], [x, y], 1);
  }

  // --- the two loops ----------------------------------------------------------------------------

  function Counted(c: Counts, updated: nat, failed: nat): Counts {
    c.(inspected := c.inspected + 1, updated := c.updated + updated, failed := c.failed + failed)
  }

  function PushOne(env: Env, pass: Pass, record: Record): Pass {
    match env.push(|pass.pushed|)
    case None => pass.(pushed := pass.pushed + [record], counts := Counted(pass.counts, 1, 0))
    case Some(e) =>
      pass.(pushed := pass.pushed + [record], counts := Counted(pass.counts, 0, 1), log := pass.log + [PushFail(e)])
  }

  function WriteOne(env: Env, pass: Pass, change: Change): Pass {
    var (store, result) := env.source.apply(pass.store, change);
    Settled(pass.(store := store), change, result)
  }

  function Settled(pass: Pass, change: Change, result: Result<nat>): Pass {
    match result
    case Ok(n) => pass.(counts := Counted(pass.counts, if n > 0 then 1 else 0, 0))
    case Err(e) => pass.(counts := Counted(pass.counts, 0, 1), log := pass.log + [WritebackFail(change.key, e)])
  }

  /** A step that logged something goes on only when the append succeeded. */
  predicate GoesOn(c: Clockwork, before: seq<Logged>, after: seq<Logged>) {
    after == before || c.fault(|before|).NoFault?
  }

  function Each<T>(c: Clockwork, step: (Pass, T) -> Pass, pass: Pass, items: seq<T>): (Pass, Option<string>)
    decreases |items|
  {
    if items == [] then (pass, None)
    else
      var pass' := step(pass, items[0]);
      if GoesOn(c, pass.log, pass'.log) then Each(c, step, pass', items[1..]) else (pass', Some(APPEND_FAILED))
  }

  function Pushing(env: Env): (Pass, Record) -> Pass { (pass, record) => PushOne(env, pass, record) }

  function Writing(env: Env): (Pass, Change) -> Pass { (pass, change) => WriteOne(env, pass, change) }

  /** The pass as a function of the state it starts from. */
  function RunOnce(env: Env, start: Pass): (Pass, Result<Counts>) {
    var (store, records) := env.source.pull(start.store);
    match records
    case Err(e) => (start.(store := store), Err(e))
    case Ok(records) => Outbound(env, start.(store := store), records)
  }

  function Outbound(env: Env, start: Pass, records: seq<Record>): (Pass, Result<Counts>) {
    var (pass, error) := Each(env.clockwork, Pushing(env), start, records);
    match error
    case Some(e) => (pass, Err(e))
    case None =>
      var logged := pass.(log := pass.log + [Pulled(env.source.table, |records|)]);
      if env.clockwork.fault(|pass.log|).NoFault? then Inbound(env, logged) else (logged, Err(APPEND_FAILED))
  }

  function Inbound(env: Env, start: Pass): (Pass, Result<Counts>) {
    match env.feed
    case None => (start, Ok(start.counts))
    case Some(Err(e)) => (start, Err(e))
    case Some(Ok(changes)) =>
      var (pass, error) := Each(env.clockwork, Writing(env), start, changes);
      match error
      case Some(e) => (pass, Err(e))
      case None =>
        if changes == [] then (pass, Ok(pass.counts))
        else
          var logged := pass.(log := pass.log + [WroteBack(env.source.table, |changes|)]);
          if env.clockwork.fault(|pass.log|).NoFault? then (logged, Ok(pass.counts)) else (logged, Err(APPEND_FAILED))
  }

  // --- what a pass did --------------------------------------------------------------------------

  /** Whatever every step keeps holds after as many items as the loop got through. */
  lemma {:induction false} EachKeeps<T>(
      c: Clockwork, step: (Pass, T) -> Pass, pass: Pass, items: seq<T>, inv: (nat, Pass) -> bool, from: nat)
    returns (n: nat)
    requires from <= |items| && inv(from, pass)
    requires forall i, p :: from <= i < |items| && inv(i, p) ==> inv(i + 1, step(p, items[i]))
    ensures n <= |items| && inv(n, Each(c, step, pass, items[from..]).0)
    ensures Each(c, step, pass, items[from..]).1 == None ==> n == |items|
    decreases |items| - from
  {
    if from == |items| {
      n := from;
    } else {
      var pass' := step(pass, items[from]);
      assert items[from..][0] == items[from] && items[from..][1..] == items[from + 1..];
      if GoesOn(c, pass.log, pass'.log) {
        n := EachKeeps(c, step, pass', items, inv, from + 1);
      } else {
        n := from + 1;
      }
    }
  }

  /** The failures among the first `n` pushes of a pass, the first of which is push number `from`. */
  function PushFailures(push: nat -> Option<string>, from: nat, n: nat): (r: seq<Logged>)
    ensures |r| <= n
  {
    if n == 0 then []
    else PushFailures(push, from, n - 1) + (match push(from + n - 1) case None => [] case Some(e) => [PushFail(e)])
  }

  /** The database after the first `n` changes. */
  function StoreAfter(env: Env, store: Store, changes: seq<Change>, n: nat): Store
    requires n <= |changes|
  {
    if n == 0 then store
    else env.source.apply(StoreAfter(env, store, changes, n - 1), changes[n - 1]).0
  }

  function OutcomeOf(env: Env, store: Store, changes: seq<Change>, i: nat): Result<nat>
    requires i < |changes|
  {
    env.source.apply(StoreAfter(env, store, changes, i), changes[i]).1
  }

  function WriteFailures(env: Env, store: Store, changes: seq<Change>, n: nat): (r: seq<Logged>)
    requires n <= |changes|
    ensures |r| <= n
  {
    if n == 0 then []
    else
      WriteFailures(env, store, changes, n - 1)
      + (match OutcomeOf(env, store, changes, n - 1)
         case Ok(_) => []
         case Err(e) => [WritebackFail(changes[n - 1].key, e)])
  }

  /** How many of the first `n` changes found a row. */
  function Hits(env: Env, store: Store, changes: seq<Change>, n: nat): (r: nat)
    requires n <= |changes|
    ensures r + |WriteFailures(env, store, changes, n)| <= n
  {
    if n == 0 then 0
    else
      var outcome := OutcomeOf(env, store, changes, n - 1);
      Hits(env, store, changes, n - 1) + (if outcome.Ok? && outcome.value > 0 then 1 else 0)
  }

  function Advance(c: Counts, inspected: nat, updated: nat, failed: nat): Counts {
    c.(inspected := c.inspected + inspected, updated := c.updated + updated, failed := c.failed + failed)
  }

  /** A pass after pushing the first `n` records. */
  function PushedUpTo(env: Env, start: Pass, records: seq<Record>, n: nat): Pass
    requires n <= |records|
  {
    var failures := PushFailures(env.push, |start.pushed|, n);
    var counts := Advance(start.counts, n, n - |failures|, |failures|);
    Pass(start.store, start.pushed + records[..n], counts, start.log + failures)
  }

  lemma PushedStep(env: Env, start: Pass, records: seq<Record>, n: nat)
    requires n < |records|
    ensures PushOne(env, PushedUpTo(env, start, records, n), records[n]) == PushedUpTo(env, start, records, n + 1)
  {
    assert records[..n + 1] == records[..n] + [records[n]];
  }

  /** Every record is pushed, in order, whether or not the broker takes it; exactly the refusals are logged. */
  lemma PushesInOrder(env: Env, start: Pass, records: seq<Record>) returns (n: nat)
    ensures n <= |records| && Each(env.clockwork, Pushing(env), start, records).0 == PushedUpTo(env, start, records, n)
    ensures Each(env.clockwork, Pushing(env), start, records).1 == None ==> n == |records|
  {
    var inv := (i: nat, p: Pass) => i <= |records| && p == PushedUpTo(env, start, records, i);
    forall i, p | 0 <= i < |records| && inv(i, p) ensures inv(i + 1, Pushing(env)(p, records[i])) {
      PushedStep(env, start, records, i);
    }
    assert start == PushedUpTo(env, start, records, 0);
    n := EachKeeps(env.clockwork, Pushing(env), start, records, inv, 0);
    assert records[0..] == records;
  }

  /** A pass after applying the first `n` changes. */
  function WrittenUpTo(env: Env, start: Pass, changes: seq<Change>, n: nat): Pass
    requires n <= |changes|
  {
    var failures := WriteFailures(env, start.store, changes, n);
    Pass(StoreAfter(env, start.store, changes, n), start.pushed,
         Advance(start.counts, n, Hits(env, start.store, changes, n), |failures|), start.log + failures)
  }

  lemma WrittenStep(env: Env, start: Pass, changes: seq<Change>, n: nat)
    requires n < |changes|
    ensures WriteOne(env, WrittenUpTo(env, start, changes, n), changes[n]) == WrittenUpTo(env, start, changes, n + 1)
  {
  }

  lemma WritesInOrder(env: Env, start: Pass, changes: seq<Change>) returns (n: nat)
    ensures n <= |changes| && Each(env.clockwork, Writing(env), start, changes).0 == WrittenUpTo(env, start, changes, n)
    ensures Each(env.clockwork, Writing(env), start, changes).1 == None ==> n == |changes|
  {
    var inv := (i: nat, p: Pass) => i <= |changes| && p == WrittenUpTo(env, start, changes, i);
    forall i, p | 0 <= i < |changes| && inv(i, p) ensures inv(i + 1, Writing(env)(p, changes[i])) {
      WrittenStep(env, start, changes, i);
    }
    assert start == WrittenUpTo(env, start, changes, 0);
    n := EachKeeps(env.clockwork, Writing(env), start, changes, inv, 0);
    assert changes[0..] == changes;
  }

  // --- the log against the counters -------------------------------------------------------------

  function ChangesOf(env: Env): seq<Change> {
    if env.feed.Some? && env.feed.value.Ok? then env.feed.value.value else []
  }

  /** The summary that an applied batch of changes leaves, if there was one. */
  function Closing(env: Env): seq<Logged> {
    if ChangesOf(env) == [] then [] else [WroteBack(env.source.table, |ChangesOf(env)|)]
  }

  // --- counted one by one -----------------------------------------------------------------------

  /** The indices below `n` that satisfy `p`. */
  function Which(p: nat -> bool, n: nat): set<nat> { set i: nat | i < n && p(i) }

  lemma WhichSnoc(p: nat -> bool, n: nat)
    ensures |Which(p, n + 1)| == |Which(p, n)| + (if p(n) then 1 else 0)
  {
    if p(n) {
      assert Which(p, n + 1) == Which(p, n) + {n};
    } else {
      assert Which(p, n + 1) == Which(p, n);
    }
  }

  /** The entries are one for each index below `n` that satisfies `p`, in order. */
  ghost predicate OneEach(es: seq<Logged>, p: nat -> bool, entry: nat -> Logged, n: nat) {
    && |es| == |Which(p, n)|
    && forall i: nat :: i < n && p(i) ==> |Which(p, i)| < |es| && es[|Which(p, i)|] == entry(i)
  }

  lemma OneEachSnoc(es: seq<Logged>, es': seq<Logged>, p: nat -> bool, entry: nat -> Logged, n: nat)
    requires OneEach(es, p, entry, n) && es' == if p(n) then es + [entry(n)] else es
    ensures OneEach(es', p, entry, n + 1)
  {
    WhichSnoc(p, n);
  }

  /** Step `n` adds its entry if it satisfies `p`, and nothing otherwise. */
  predicate GrowsAt(es: nat -> seq<Logged>, p: nat -> bool, entry: nat -> Logged, n: nat) {
    es(n + 1) == if p(n) then es(n) + [entry(n)] else es(n)
  }

  lemma {:induction false} GrowsOneEach(es: nat -> seq<Logged>, p: nat -> bool, entry: nat -> Logged, n: nat)
    requires es(0) == [] && forall i: nat :: i < n ==> GrowsAt(es, p, entry, i)
    ensures OneEach(es(n), p, entry, n)
  {
    if n > 0 {
      GrowsOneEach(es, p, entry, n - 1);
      assert GrowsAt(es, p, entry, n - 1);
      OneEachSnoc(es(n - 1), es(n), p, entry, n - 1);
    }
  }

  /** The pushes of a pass, which began with push number `from`, that the broker turned down. */
  function Refused(push: nat -> Option<string>, from: nat): nat -> bool { (i: nat) => push(from + i).Some? }

  function RefusalEntry(push: nat -> Option<string>, from: nat): nat -> Logged {
    (i: nat) => match push(from + i) case Some(e) => PushFail(e) case None => PushFail("")
  }

  lemma RefusedSnoc(push: nat -> Option<string>, from: nat, n: nat)
    ensures PushFailures(push, from, n + 1)
         == if Refused(push, from)(n) then PushFailures(push, from, n) + [RefusalEntry(push, from)(n)]
            else PushFailures(push, from, n)
  {
  }

  function RefusalsUpTo(push: nat -> Option<string>, from: nat): nat -> seq<Logged> {
    (n: nat) => PushFailures(push, from, n)
  }

  lemma RefusedEntries(push: nat -> Option<string>, from: nat, n: nat)
    ensures OneEach(PushFailures(push, from, n), Refused(push, from), RefusalEntry(push, from), n)
  {
    var es, p, entry := RefusalsUpTo(push, from), Refused(push, from), RefusalEntry(push, from);
    forall i: nat | i < n ensures GrowsAt(es, p, entry, i) {
      RefusedSnoc(push, from, i);
    }
    GrowsOneEach(es, p, entry, n);
  }

  /** The changes that the database refused. */
  function Rejected(env: Env, store: Store, changes: seq<Change>): nat -> bool {
    (i: nat) => i < |changes| && OutcomeOf(env, store, changes, i).Err?
  }

  function RejectionEntry(env: Env, store: Store, changes: seq<Change>): nat -> Logged {
    (i: nat) =>
      if i < |changes| && OutcomeOf(env, store, changes, i).Err?
      then WritebackFail(changes[i].key, OutcomeOf(env, store, changes, i).error) else PushFail("")
  }

  function RejectionsUpTo(env: Env, store: Store, changes: seq<Change>): nat -> seq<Logged> {
    (n: nat) => if n <= |changes| then WriteFailures(env, store, changes, n) else []
  }

  lemma RejectionGrows(env: Env, store: Store, changes: seq<Change>, n: nat)
    requires n < |changes|
    ensures GrowsAt(
              RejectionsUpTo(env, store, changes), Rejected(env, store, changes),
              RejectionEntry(env, store, changes), n)
  {
  }

  lemma RejectedEntries(env: Env, store: Store, changes: seq<Change>, n: nat)
    requires n <= |changes|
    ensures OneEach(
              WriteFailures(env, store, changes, n), Rejected(env, store, changes),
              RejectionEntry(env, store, changes), n)
  {
    var es, p := RejectionsUpTo(env, store, changes), Rejected(env, store, changes);
    var entry := RejectionEntry(env, store, changes);
    assert es(0) == [] && es(n) == WriteFailures(env, store, changes, n);
    forall i: nat | i < n ensures GrowsAt(es, p, entry, i) {
      RejectionGrows(env, store, changes, i);
    }
    GrowsOneEach(es, p, entry, n);
  }

  /** The changes that were accepted and changed at least one row. */
  function Effective(env: Env, store: Store, changes: seq<Change>): nat -> bool {
    (i: nat) =>
      i < |changes| && OutcomeOf(env, store, changes, i).Ok? && OutcomeOf(env, store, changes, i).value >= 1
  }

  lemma {:induction false} HitsAreEffective(env: Env, store: Store, changes: seq<Change>, n: nat)
    requires n <= |changes|
    ensures Hits(env, store, changes, n) == |Which(Effective(env, store, changes), n)|
  {
    if n > 0 {
      HitsAreEffective(env, store, changes, n - 1);
      WhichSnoc(Effective(env, store, changes), n - 1);
    }
  }

  /** A failure entry, read field by field. */
  lemma RefusalReads(push: nat -> Option<string>, from: nat, i: nat)
    requires push(from + i).Some?
    ensures var e := RefusalEntry(push, from)(i);
            e.event == "DB_PUSH_FAIL" && FieldIn(e.detail, "error") == Some(Str(push(from + i).value))
  {
    EventsRead(push(from + i).value, "", "", 0);
  }

  lemma RejectionReads(env: Env, store: Store, changes: seq<Change>, i: nat)
    requires i < |changes| && OutcomeOf(env, store, changes, i).Err?
    ensures var e := RejectionEntry(env, store, changes)(i);
            && e.event == "DB_WRITEBACK_FAIL" && FieldIn(e.detail, "key") == Some(Str(changes[i].key))
            && FieldIn(e.detail, "error") == Some(Str(OutcomeOf(env, store, changes, i).error))
  {
    EventsRead(OutcomeOf(env, store, changes, i).error, changes[i].key, "", 0);
  }

  /**
   A completed pass pulled the records of the table, offered every one of them to the broker in order and
   every change to the database in order. Its log is one failure entry per refusal, naming its reason, around
   `DB_PULL` and `DB_WRITEBACK` with the row and change counts. Its counters are what was offered, what was
   turned down, and what was taken: every accepted record, and every accepted change that changed a row.
   */
  lemma CompletedPass(env: Env, start: Pass) returns (pushFailures: seq<Logged>, writeFailures: seq<Logged>)
    requires start.counts == ZERO && RunOnce(env, start).1.Ok?
    ensures env.source.pull(start.store).1.Ok?
    ensures var (pulled, records) := env.source.pull(start.store);
            var (end, counts) := RunOnce(env, start);
            var changes := ChangesOf(env);
            var refused := Which(Refused(env.push, |start.pushed|), |records.value|);
            var rejected := Which(Rejected(env, pulled, changes), |changes|);
            && end.pushed == start.pushed + records.value
            && end.store == StoreAfter(env, pulled, changes, |changes|)
            && OneEach(
                 pushFailures, Refused(env.push, |start.pushed|), RefusalEntry(env.push, |start.pushed|),
                 |records.value|)
            && OneEach(
                 writeFailures, Rejected(env, pulled, changes), RejectionEntry(env, pulled, changes), |changes|)
            && end.log == start.log + pushFailures + [Pulled(env.source.table, |records.value|)] + writeFailures
                          + Closing(env)
            && counts.value.inspected == |records.value| + |changes|
            && counts.value.failed == |refused| + |rejected|
            && counts.value.updated == |records.value| - |refused|
                                       + |Which(Effective(env, pulled, changes), |changes|)|
            && counts.value.created == 0 && counts.value.disabled == 0
  {
    var (store, pulled) := env.source.pull(start.store);
    var records, changes, begun := pulled.value, ChangesOf(env), start.(store := store);
    var n := PushesInOrder(env, begun, records);
    pushFailures := PushFailures(env.push, |begun.pushed|, n);
    RefusedEntries(env.push, |begun.pushed|, n);
    assert records[..|records|] == records;
    var p := PushedUpTo(env, begun, records, n);
    var logged := p.(log := p.log + [Pulled(env.source.table, |records|)]);
    writeFailures := WriteFailures(env, store, changes, |changes|);
    RejectedEntries(env, store, changes, |changes|);
    HitsAreEffective(env, store, changes, |changes|);
    InboundCompleted(env, logged);
  }

  lemma InboundCompleted(env: Env, start: Pass)
    requires Inbound(env, start).1.Ok?
    ensures var end := WrittenUpTo(env, start, ChangesOf(env), |ChangesOf(env)|);
            Inbound(env, start) == (end.(log := end.log + Closing(env)), Ok(end.counts))
  {
    var changes := ChangesOf(env);
    var n := WritesInOrder(env, start, changes);
    var end := WrittenUpTo(env, start, changes, |changes|);
    if changes == [] {
      assert end.log + Closing(env) == end.log;
      assert end == start;
    }
  }

  // --- the database after a pass ----------------------------------------------------------------

  /** The accepted changes applied one after the other. */
  function Applied(
      update: (Database, Change) -> Database, db: Database, changes: seq<Change>, accepted: nat -> bool,
      n: nat): Database
    requires n <= |changes|
  {
    if n == 0 then db
    else
      var before := Applied(update, db, changes, accepted, n - 1);
      if accepted(n - 1) then update(before, changes[n - 1]) else before
  }

  function Accepted(env: Env, store: Store, changes: seq<Change>): nat -> bool {
    (i: nat) => i < |changes| && OutcomeOf(env, store, changes, i).Ok?
  }

  /** An accepted change updates the database so, and a refused one leaves it alone. */
  ghost predicate Updates(source: Source, update: (Database, Change) -> Database) {
    forall st, change ::
      source.apply(st, change).0.db == if source.apply(st, change).1.Ok? then update(st.db, change) else st.db
  }

  lemma UpdatesOne(source: Source, update: (Database, Change) -> Database, st: Store, change: Change)
    requires Updates(source, update)
    ensures source.apply(st, change).0.db
         == if source.apply(st, change).1.Ok? then update(st.db, change) else st.db
  {
  }

  lemma {:induction false} StoresFold(
      env: Env, update: (Database, Change) -> Database, store: Store, changes: seq<Change>, n: nat)
    requires Updates(env.source, update) && n <= |changes|
    ensures StoreAfter(env, store, changes, n).db
         == Applied(update, store.db, changes, Accepted(env, store, changes), n)
  {
    if n > 0 {
      StoresFold(env, update, store, changes, n - 1);
      UpdatesOne(env.source, update, StoreAfter(env, store, changes, n - 1), changes[n - 1]);
    }
  }

  /** The direct update of the mapped columns, for one change. */
  function DirectChange(conn: Connector): (Database, Change) -> Database {
    (db, change: Change) => Direct(conn, change.key, Map(change.fields), db)
  }

  lemma ConnectedUpdates(conn: Connector, link: Link)
    requires PlainConnector(conn)
    ensures Updates(Connected(conn, link), DirectChange(conn))
  {
    forall st, change: Change
      ensures var (st', result) := Writeback(conn, link, st, change.key, change.fields);
              st'.db == if result.Ok? then Direct(conn, change.key, Map(change.fields), st.db) else st.db
    {
      WritebackMeans(conn, link, st, change.key, change.fields);
    }
  }

  /** A batch of changes leaves the database as the direct updates of the accepted ones, one after the other. */
  lemma BatchIsFold(conn: Connector, link: Link, env: Env, store: Store, changes: seq<Change>, n: nat)
    requires PlainConnector(conn) && env.source == Connected(conn, link) && n <= |changes|
    ensures StoreAfter(env, store, changes, n).db
         == Applied(DirectChange(conn), store.db, changes, Accepted(env, store, changes), n)
  {
    ConnectedUpdates(conn, link);
    StoresFold(env, DirectChange(conn), store, changes, n);
  }
}
