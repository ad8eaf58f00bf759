/** DB mode as it runs: the two loops of `run_once` over the connector, the broker and the audit log. */
module DbAgent {
  import opened Text
  import opened Json
  import opened AuditChain
  import opened AuditLogs
  import opened Journal
  import opened Db
  import opened DbMode
  import DbConnector

  /** The broker's ingest webhook: what it was sent, and which pushes it turns down. */
  class Webhook {
    const refuses: nat -> Option<string>
    var pushed: seq<Record>

    constructor (refuses: nat -> Option<string>, pushed: seq<Record>)
      ensures this.refuses == refuses && this.pushed == pushed
    {
      this.refuses, this.pushed := refuses, pushed;
    }

    method Push(record: Record) returns (error: Option<string>)
      modifies this
      ensures pushed == old(pushed) + [record] && error == refuses(|old(pushed)|)
    {
      error := refuses(|pushed|);
      pushed := pushed + [record];
    }
  }

  class DbAgent {
    const connector: DbConnector.DbConnector
    const webhook: Webhook
    const recorder: Recorder
    const feed: Option<Result<seq<Change>>>

    constructor (
        connector: DbConnector.DbConnector, webhook: Webhook, recorder: Recorder, feed: Option<Result<seq<Change>>>)
      requires recorder.Exact()
      ensures this.connector == connector && this.webhook == webhook && this.recorder == recorder && this.feed == feed
      ensures recorder.Exact()
    {
      this.connector, this.webhook, this.recorder, this.feed := connector, webhook, recorder, feed;
    }

    function Environment(): Env {
      Env(Connected(connector.conn, connector.link), webhook.refuses, feed, recorder.clockwork)
    }

    function Snapshot(counts: Counts): Pass
      reads connector, webhook, recorder
    {
      Pass(connector.store, webhook.pushed, counts, recorder.log)
    }

    /** One record pushed; the result says whether the loop goes on. */
    method PushRecord(record: Record, counters: SyncCounters) returns (ok: bool)
      requires recorder.Exact()
      modifies webhook, recorder, recorder.audit, recorder.audit.file, counters
      ensures recorder.Exact()
      ensures Snapshot(counters.Value()) == PushOne(Environment(), old(Snapshot(counters.Value())), record)
      ensures ok <==> GoesOn(recorder.clockwork, old(recorder.log), recorder.log)
    {
      var refused := webhook.Push(record);
      if refused.None? {
        Tally(1, counters);
        ok := true;
      } else {
        ok := Fail(PushFail(refused.value), counters);
      }
    }

    method Tally(updated: nat, counters: SyncCounters)
      modifies counters
      ensures counters.Value() == Counted(old(counters.Value()), updated, 0)
    {
      counters.inspected := counters.inspected + 1;
      counters.updated := counters.updated + updated;
    }

    /** A failure is counted, then logged. */
    method Fail(entry: Logged, counters: SyncCounters) returns (ok: bool)
      requires recorder.Exact()
      modifies recorder, recorder.audit, recorder.audit.file, counters
      ensures recorder.Exact() && recorder.log == old(recorder.log) + [entry]
      ensures counters.Value() == Counted(old(counters.Value()), 0, 1)
      ensures ok <==> recorder.clockwork.fault(|old(recorder.log)|).NoFault?
    {
      counters.inspected := counters.inspected + 1;
      counters.failed := counters.failed + 1;
      ok := recorder.Append(entry.event, entry.detail);
    }

    method PushAll(records: seq<Record>, counters: SyncCounters) returns (error: Option<string>)
      requires recorder.Exact()
      modifies webhook, recorder, recorder.audit, recorder.audit.file, counters
      ensures recorder.Exact()
      ensures (Snapshot(counters.Value()), error)
           == Each(recorder.clockwork, Pushing(Environment()), old(Snapshot(counters.Value())), records)
    {
      ghost var step, start := Pushing(Environment()), Snapshot(counters.Value());
      for i := 0 to |records|
        invariant recorder.Exact()
        invariant Each(recorder.clockwork, step, start, records)
               == Each(recorder.clockwork, step, Snapshot(counters.Value()), records[i..])
      {
        assert records[i..][0] == records[i] && records[i..][1..] == records[i + 1..];
        var ok := PushRecord(records[i], counters);
        if !ok {
          return Some(APPEND_FAILED);
        }
      }
      error := None;
    }

    method Apply(change: Change) returns (affected: Result<nat>)
      modifies connector
      ensures (connector.store, affected) == Environment().source.apply(old(connector.store), change)
    {
      affected := connector.ApplyWriteback(change.key, change.fields);
    }

    /** One change applied; the result says whether the loop goes on. */
    method WriteChange(change: Change, counters: SyncCounters) returns (ok: bool)
      requires recorder.Exact()
      modifies connector, recorder, recorder.audit, recorder.audit.file, counters
      ensures recorder.Exact()
      ensures Snapshot(counters.Value()) == WriteOne(Environment(), old(Snapshot(counters.Value())), change)
      ensures ok <==> GoesOn(recorder.clockwork, old(recorder.log), recorder.log)
    {
      var affected := Apply(change);
      ok := Settle(change, affected, counters);
    }

    method Settle(change: Change, affected: Result<nat>, counters: SyncCounters) returns (ok: bool)
      requires recorder.Exact()
      modifies recorder, recorder.audit, recorder.audit.file, counters
      ensures recorder.Exact()
      ensures Snapshot(counters.Value()) == Settled(old(Snapshot(counters.Value())), change, affected)
      ensures ok <==> GoesOn(recorder.clockwork, old(recorder.log), recorder.log)
    {
      if affected.Ok? {
        Tally(if affected.value > 0 then 1 else 0, counters);
        ok := true;
      } else {
        ok := Fail(WritebackFail(change.key, affected.error), counters);
      }
    }

    method WriteAll(changes: seq<Change>, counters: SyncCounters) returns (error: Option<string>)
      requires recorder.Exact()
      modifies connector, recorder, recorder.audit, recorder.audit.file, counters
      ensures recorder.Exact()
      ensures (Snapshot(counters.Value()), error)
           == Each(recorder.clockwork, Writing(Environment()), old(Snapshot(counters.Value())), changes)
    {
      ghost var step, start := Writing(Environment()), Snapshot(counters.Value());
      for i := 0 to |changes|
        invariant recorder.Exact()
        invariant Each(recorder.clockwork, step, start, changes)
               == Each(recorder.clockwork, step, Snapshot(counters.Value()), changes[i..])
      {
        assert changes[i..][0] == changes[i] && changes[i..][1..] == changes[i + 1..];
        var ok := WriteChange(changes[i], counters);
        if !ok {
          return Some(APPEND_FAILED);
        }
      }
      error := None;
    }

    /** One two-direction pass. */
    method RunOnce() returns (result: Result<Counts>)
      requires recorder.Exact()
      modifies connector, webhook, recorder, recorder.audit, recorder.audit.file
      ensures recorder.Exact()
      ensures exists counts :: (Snapshot(counts), result) == DbMode.RunOnce(Environment(), old(Snapshot(ZERO)))
    {
      ghost var env := Environment();
      ghost var start := Snapshot(ZERO);
      var records := connector.PullRecords();
      if records.Err? {
        assert (Snapshot(ZERO), Err(records.error)) == DbMode.RunOnce(env, start);
        return Err(records.error);
      }
      var counters := new SyncCounters();
      ghost var pulled := Snapshot(ZERO);
      assert DbMode.RunOnce(env, start) == Outbound(env, pulled, records.value);
      var error := PushAll(records.value, counters);
      if error.Some? {
        assert (Snapshot(counters.Value()), Err(error.value)) == Outbound(env, pulled, records.value);
        return Err(error.value);
      }
      var ok := recorder.Append("DB_PULL",
        Fields(["rows", "table"], [Num(Wrap(|records.value|)), Str(connector.conn.table)]));
      if !ok {
        assert (Snapshot(counters.Value()), Err(APPEND_FAILED)) == Outbound(env, pulled, records.value);
        return Err(APPEND_FAILED);
      }
      assert Outbound(env, pulled, records.value) == Inbound(env, Snapshot(counters.Value()));
      result := WriteFeed(counters);
      assert (Snapshot(counters.Value()), result) == DbMode.RunOnce(env, start);
    }

    method WriteFeed(counters: SyncCounters) returns (result: Result<Counts>)
      requires recorder.Exact()
      modifies connector, recorder, recorder.audit, recorder.audit.file, counters
      ensures recorder.Exact()
      ensures (Snapshot(counters.Value()), result) == Inbound(Environment(), old(Snapshot(counters.Value())))
    {
      if feed.None? {
        return Ok(counters.Value());
      }
      if feed.value.Err? {
        return Err(feed.value.error);
      }
      var changes := feed.value.value;
      var error := WriteAll(changes, counters);
      if error.Some? {
        return Err(error.value);
      }
      if changes != [] {
        var ok := recorder.Append("DB_WRITEBACK",
          Fields(["applied", "table"], [Num(Wrap(|changes|)), Str(connector.conn.table)]));
        if !ok {
          return Err(APPEND_FAILED);
        }
      }
      result := Ok(counters.Value());
    }
  }
}
