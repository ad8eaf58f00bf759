/** What the audit log of a run looks like, whenever it is shut down. */
module RunnerLog {
  import opened Text
  import opened Json
  import opened AuditRecords
  import opened AuditChain
  import opened AuditFile
  import opened AuditLogs
  import opened AuditHash
  import opened AuditEvidence
  import opened Journal
  import opened Directory
  import opened AdMode
  import opened AdMachine
  import opened AdSteps
  import opened AdReports
  import opened Runner

  // --- recounting -------------------------------------------------------------------------------

  predicate IsOp(e: Logged) { e.event == "AD_OP_OK" || e.event == "AD_OP_FAIL" }

  /** The `op` field of an entry's detail. */
  function OpField(e: Logged): Option<Json> { FieldIn(e.detail, "op") }

  predicate Succeeded(e: Logged, op: string) { e.event == "AD_OP_OK" && OpField(e) == Some(Str(op)) }

  /** How many entries report a success of operations of this type. */
  function Successes(es: seq<Logged>, op: string): nat {
    if es == [] then 0 else Successes(es[..|es| - 1], op) + (if Succeeded(es[|es| - 1], op) then 1 else 0)
  }

  function Failures(es: seq<Logged>): nat {
    if es == [] then 0 else Failures(es[..|es| - 1]) + (if es[|es| - 1].event == "AD_OP_FAIL" then 1 else 0)
  }

  /** The five counters as a reader of the log would recount them. */
  function Recount(es: seq<Logged>): Counts {
    Counts(
      |es|,
      Successes(es, "CREATE_ACCOUNT"),
      Successes(es, "UPDATE_ATTRIBUTES") + Successes(es, "ENABLE_ACCOUNT"),
      Successes(es, "DISABLE_ACCOUNT"),
      Failures(es))
  }

  lemma OpFieldOfLogged(op: Operation, result: Result<Json>)
    ensures OpField(LoggedOf(op, result)) == Some(Str(op.opType))
  {
    var ks := if result.Ok? then ["id", "op", "result"] else ["error", "id", "op"];
    var vs :=
      if result.Ok? then [Str(op.id), Str(op.opType), result.value]
      else [Str(result.error), Str(op.id), Str(op.opType)];
    assert ks[0] != ks[1] && ks[0] != ks[2] && ks[1] != ks[2] by {
      assert "id"[0] != "op"[0];
    }
    FieldAt(ks, vs, if result.Ok? then 1 else 2);
  }

  lemma RecountSnoc(es: seq<Logged>, op: Operation, result: Result<Json>)
    ensures Recount(es + [LoggedOf(op, result)]) == Tally(Recount(es), op, result)
  {
    var e := LoggedOf(op, result);
    OpFieldOfLogged(op, result);
    assert (es + [e])[..|es|] == es && (es + [e])[|es|] == e;
    assert forall name :: Succeeded(e, name) <==> result.Ok? && name == op.opType;
  }

  /** After any number of completed operations, the counters are the recount of the entries they left. */
  lemma {:induction false} CountsAreRecount(env: Env, start: Pass, ops: seq<Operation>, i: nat)
    requires start.counts == ZERO && i <= |ops| && RunOps(env, start, ops[..i]).1 == None
    ensures var p := Before(env, start, ops, i);
            && start.log <= p.log && p.counts == Recount(p.log[|start.log|..])
            && forall j :: |start.log| <= j < |p.log| ==> IsOp(p.log[j])
  {
    if i > 0 {
      TrailStep(env, start, ops, i - 1);
      CountsAreRecount(env, start, ops, i - 1);
      CountsAt(env, start, ops, i - 1);
      var p, p' := Before(env, start, ops, i - 1), Before(env, start, ops, i);
      RecountStep(start.log, p, p', ops[i - 1], ResultAt(env, start, ops, i - 1));
    }
  }

  lemma CountsAt(env: Env, start: Pass, ops: seq<Operation>, i: nat)
    requires i < |ops|
    ensures var p := Before(env, start, ops, i);
            CompleteOp(env, p, ops[i]).counts == Tally(p.counts, ops[i], ResultAt(env, start, ops, i))
  {
    OpCounts(env, Before(env, start, ops, i), ops[i]);
  }

  lemma OpCounts(env: Env, p: Pass, op: Operation)
    ensures CompleteOp(env, p, op).counts
         == Tally(p.counts, op, Outcome(RouteAndProcess(env, p.net, p.conns, op)).task.result)
  {
  }

  /** One more operation, counted and logged. */
  lemma RecountStep(past: seq<Logged>, p: Pass, p': Pass, op: Operation, result: Result<Json>)
    requires past <= p.log && p.counts == Recount(p.log[|past|..])
    requires forall j :: |past| <= j < |p.log| ==> IsOp(p.log[j])
    requires p'.log == p.log + [LoggedOf(op, result)] && p'.counts == Tally(p.counts, op, result)
    ensures past <= p'.log && p'.counts == Recount(p'.log[|past|..])
    ensures forall j :: |past| <= j < |p'.log| ==> IsOp(p'.log[j])
  {
    RecountSnoc(p.log[|past|..], op, result);
    assert p'.log[|past|..] == p.log[|past|..] + [LoggedOf(op, result)];
  }

  // --- the grammar ------------------------------------------------------------------------------

  /** What one cycle logs: an error, or the operations of a pass and its summary. */
  datatype Block = ErrorBlock(error: Logged) | PassBlock(ops: seq<Logged>, summary: Logged)

  function BlockLog(b: Block): seq<Logged> {
    match b case ErrorBlock(e) => [e] case PassBlock(ops, summary) => ops + [summary]
  }

  function Flatten(bs: seq<Block>): seq<Logged> {
    if bs == [] then [] else Flatten(bs[..|bs| - 1]) + BlockLog(bs[|bs| - 1])
  }

  predicate AllOps(es: seq<Logged>) { forall i :: 0 <= i < |es| ==> IsOp(es[i]) }

  /** A pass is summarized by the recount of its own operations. */
  predicate BlockOk(mode: string, b: Block) {
    match b
    case ErrorBlock(e) => e.event == "RUN_ERROR"
    case PassBlock(ops, summary) => AllOps(ops) && summary == Summary(mode, Recount(ops))
  }

  predicate BlocksOk(mode: string, bs: seq<Block>) { forall i :: 0 <= i < |bs| ==> BlockOk(mode, bs[i]) }

  /** The entries are those of the batch: one for each operation, in order, under its own id. */
  predicate Entries(es: seq<Logged>, ops: seq<Operation>) {
    && |es| == |ops|
    && forall j :: 0 <= j < |ops| ==>
         && FieldIn(es[j].detail, "id") == Some(Str(ops[j].id))
         && FieldIn(es[j].detail, "op") == Some(Str(ops[j].opType))
  }

  /** A block is what its cycle calls for. */
  predicate BlockFor(s: Service, n: nat, b: Block) {
    && BlockOk(s.mode, b)
    && match s.cycles(n).setup
       case Refused(e) => b.ErrorBlock? && FieldIn(b.error.detail, "error") == Some(Str(e))
       case Batch(ops) => b.PassBlock? && Entries(b.ops, ops)
  }

  predicate BlocksFor(s: Service, bs: seq<Block>) { forall i :: 0 <= i < |bs| ==> BlockFor(s, i, bs[i]) }

  lemma CycleBlock(s: Service, n: nat, w: World) returns (b: Block)
    requires NeverFails(s.clockwork)
    ensures BlockFor(s, n, b) && CycleEnd(s, n, w).log == w.log + BlockLog(b)
  {
    match s.cycles(n).setup
    case Refused(e) =>
      b := ErrorBlock(RunError(e));
      ErrorRead(e);
    case Batch(ops) =>
      var env := EnvAt(s, n);
      var entries := PassEntries(env, StartOf(w), ops);
      b := PassBlock(entries, Summary(s.mode, RunOps(env, StartOf(w), ops).0.counts));
      Regroup(w.log, entries, [b.summary]);
  }

  /** What a whole pass logs is its operations, and its counters are their recount. */
  lemma PassEntries(env: Env, start: Pass, ops: seq<Operation>) returns (entries: seq<Logged>)
    requires NeverFails(env.clockwork) && start.counts == ZERO
    ensures RunOps(env, start, ops).1 == None
    ensures AllOps(entries) && RunOps(env, start, ops).0.log == start.log + entries
    ensures RunOps(env, start, ops).0.counts == Recount(entries) && Entries(entries, ops)
  {
    NoErrors(env, start, ops);
    assert ops[..|ops|] == ops;
    CountsAreRecount(env, start, ops, |ops|);
    entries := RunOps(env, start, ops).0.log[|start.log|..];
    PassNames(env, start, ops);
  }

  lemma PassNames(env: Env, start: Pass, ops: seq<Operation>)
    requires RunOps(env, start, ops).1 == None
    ensures var log := RunOps(env, start, ops).0.log;
            |start.log| <= |log| && Entries(log[|start.log|..], ops)
  {
    assert ops[..|ops|] == ops;
    CompletedTrail(env, start, ops, |ops|);
    var entries := RunOps(env, start, ops).0.log[|start.log|..];
    forall j | 0 <= j < |ops|
      ensures FieldIn(entries[j].detail, "id") == Some(Str(ops[j].id))
      ensures FieldIn(entries[j].detail, "op") == Some(Str(ops[j].opType))
    {
      EntryReads(ops[j], ResultAt(env, start, ops, j));
    }
  }

  lemma {:induction false} NoErrors(env: Env, start: Pass, ops: seq<Operation>)
    requires NeverFails(env.clockwork)
    ensures RunOps(env, start, ops).1 == None
    decreases |ops|
  {
    if ops != [] {
      NoErrors(env, CompleteOp(env, start, ops[0]), ops[1..]);
    }
  }

  lemma {:induction false} CyclesAreBlocks(s: Service, net: Net, n: nat) returns (bs: seq<Block>)
    requires NeverFails(s.clockwork)
    ensures |bs| == n && BlocksFor(s, bs)
    ensures AfterCycles(s, net, n).log == [RunStart(s.mode)] + Flatten(bs)
  {
    if n == 0 {
      bs := [];
    } else {
      var before := CyclesAreBlocks(s, net, n - 1);
      var b := CycleBlock(s, n - 1, AfterCycles(s, net, n - 1));
      bs := before + [b];
      BlocksSnoc(s, before, b);
      FlattenSnoc(before, b);
      Regroup([RunStart(s.mode)], Flatten(before), BlockLog(b));
    }
  }

  lemma FlattenSnoc(bs: seq<Block>, b: Block)
    ensures Flatten(bs + [b]) == Flatten(bs) + BlockLog(b)
  {
    assert (bs + [b])[..|bs|] == bs;
  }

  lemma BlocksSnoc(s: Service, bs: seq<Block>, b: Block)
    requires BlocksFor(s, bs) && BlockFor(s, |bs|, b)
    ensures BlocksFor(s, bs + [b])
  {
    forall i | 0 <= i < |bs| + 1 ensures BlockFor(s, i, (bs + [b])[i]) {
      if i < |bs| {
        assert (bs + [b])[i] == bs[i];
      }
    }
  }

  lemma BlocksForOk(s: Service, bs: seq<Block>)
    requires BlocksFor(s, bs)
    ensures BlocksOk(s.mode, bs)
  {
    forall i | 0 <= i < |bs| ensures BlockOk(s.mode, bs[i]) {
      assert BlockFor(s, i, bs[i]);
    }
  }

  lemma Regroup(a: seq<Logged>, b: seq<Logged>, c: seq<Logged>)
    ensures a + b + c == a + (b + c)
  {
  }

  /** The entries of the pass under way, when there is one. */
  lemma TailOps(s: Service, net: Net, k: nat) returns (n: nat, tail: seq<Logged>)
    requires NeverFails(s.clockwork)
    ensures AllOps(tail) && Serve(s, net, k).pass.log == AfterCycles(s, net, n).log + tail
    ensures Serve(s, net, k).n <= n <= Serve(s, net, k).n + 1
  {
    ServeOnTrack(s, net, k);
    n, tail := TailAt(s, net, Serve(s, net, k));
  }

  lemma TailAt(s: Service, net: Net, r: Running) returns (n: nat, tail: seq<Logged>)
    requires NeverFails(s.clockwork) && OnTrack(s, net, r)
    ensures AllOps(tail) && r.pass.log == AfterCycles(s, net, n).log + tail
    ensures r.n <= n <= r.n + 1
  {
    n := if r.stage.ReportingRun? || r.stage.Sleeping? then r.n + 1 else r.n;
    tail := [];
    if r.stage.Passing? {
      var start := StartOf(AfterCycles(s, net, r.n));
      PassingTail(EnvAt(s, r.n), start, s.cycles(r.n).setup.ops, Machine(r.pass, r.stage.phase));
      tail := r.pass.log[|start.log|..];
    }
  }

  /** What a pass under way has logged so far is its completed operations. */
  lemma PassingTail(env: Env, start: Pass, ops: seq<Operation>, m: Machine)
    requires InOrder(env, start, ops, m) && NeverFails(env.clockwork) && start.counts == ZERO
    ensures start.log <= m.pass.log && AllOps(m.pass.log[|start.log|..])
  {
    var i := m.phase.i;
    assert env.clockwork.fault(|Before(env, start, ops, i).log|).NoFault?;
    CountsAreRecount(env, start, ops, i);
  }

  /** The summary of a pass, read field by field, is the recount of the entries before it. */
  predicate Summarizes(mode: string, ops: seq<Logged>, summary: Logged) {
    && summary.event == "SYNC_SUMMARY" && FieldIn(summary.detail, "mode") == Some(Str(mode))
    && CounterIn(summary, "inspected") == Some(Num(|ops| % 0x1_0000_0000_0000_0000))
    && CounterIn(summary, "created") == Some(Num(Successes(ops, "CREATE_ACCOUNT") % 0x1_0000_0000_0000_0000))
    && CounterIn(summary, "updated")
       == Some(Num((Successes(ops, "UPDATE_ATTRIBUTES") + Successes(ops, "ENABLE_ACCOUNT")) % 0x1_0000_0000_0000_0000))
    && CounterIn(summary, "disabled") == Some(Num(Successes(ops, "DISABLE_ACCOUNT") % 0x1_0000_0000_0000_0000))
    && CounterIn(summary, "failed") == Some(Num(Failures(ops) % 0x1_0000_0000_0000_0000))
  }

  lemma SummaryOk(mode: string, b: Block)
    requires BlockOk(mode, b) && b.PassBlock?
    ensures Summarizes(mode, b.ops, b.summary)
  {
    SummaryReads(mode, Recount(b.ops));
  }

  lemma BlocksRead(s: Service, bs: seq<Block>)
    requires BlocksFor(s, bs)
    ensures forall i :: 0 <= i < |bs| ==>
              match s.cycles(i).setup
              case Refused(e) =>
                && bs[i].ErrorBlock? && bs[i].error.event == "RUN_ERROR"
                && FieldIn(bs[i].error.detail, "error") == Some(Str(e))
              case Batch(ops) =>
                && bs[i].PassBlock? && AllOps(bs[i].ops) && Entries(bs[i].ops, ops)
                && Summarizes(s.mode, bs[i].ops, bs[i].summary)
  {
    forall i | 0 <= i < |bs| && bs[i].PassBlock? ensures Summarizes(s.mode, bs[i].ops, bs[i].summary) {
      assert BlockFor(s, i, bs[i]);
      SummaryOk(s.mode, bs[i]);
    }
  }

  /**
   The log explains every run. With appends succeeding, the events of a run shut down at any await are
   RUN_START (RUN_ERROR | AD_OP* SYNC_SUMMARY)* AD_OP* RUN_STOP, and the counters in every summary are those that
   recounting the entries of its own pass gives; these are one for each operation of the batch, in order.
   */
  lemma LogExplainsRun(s: Service, net: Net, k: nat)
    returns (first: Logged, bs: seq<Block>, tail: seq<Logged>, last: Logged)
    requires NeverFails(s.clockwork)
    ensures RunLog(s, net, k) == [first] + Flatten(bs) + tail + [last]
    ensures first.event == "RUN_START" && FieldIn(first.detail, "mode") == Some(Str(s.mode))
    ensures last.event == "RUN_STOP" && FieldIn(last.detail, "mode") == Some(Str(s.mode))
    ensures AllOps(tail)
    ensures forall i :: 0 <= i < |bs| ==>
              match s.cycles(i).setup
              case Refused(e) =>
                && bs[i].ErrorBlock? && bs[i].error.event == "RUN_ERROR"
                && FieldIn(bs[i].error.detail, "error") == Some(Str(e))
              case Batch(ops) =>
                && bs[i].PassBlock? && AllOps(bs[i].ops) && Entries(bs[i].ops, ops)
                && Summarizes(s.mode, bs[i].ops, bs[i].summary)
  {
    var n;
    n, tail := TailOps(s, net, k);
    bs := CyclesAreBlocks(s, net, n);
    BlocksRead(s, bs);
    first, last := RunStart(s.mode), RunStop(s.mode);
    ModeRead(s.mode);
  }

  /**
   With failing appends: a pass that one of them ends is closed by RUN_ERROR with its error and by no summary, and
   a summary that cannot be appended is followed by RUN_ERROR.
   */
  lemma FaultLogged(s: Service, n: nat, w: World, ops: seq<Operation>)
    requires s.cycles(n).setup == Batch(ops)
    ensures var (pass, error) := RunOps(EnvAt(s, n), StartOf(w), ops);
            var log := CycleEnd(s, n, w).log;
            && pass.log < log && log[|pass.log|].event in {"RUN_ERROR", "SYNC_SUMMARY"}
            && (error.Some? <==> log[|pass.log|].event == "RUN_ERROR")
            && (error.Some? ==>
                 |log| == |pass.log| + 1 && FieldIn(log[|pass.log|].detail, "error") == Some(Str(error.value)))
            && (error.None? ==>
                 if s.clockwork.fault(|pass.log|).NoFault? then |log| == |pass.log| + 1
                 else |log| == |pass.log| + 2 && log[|pass.log| + 1].event == "RUN_ERROR")
  {
    var (pass, error) := RunOps(EnvAt(s, n), StartOf(w), ops);
    if error.Some? {
      ErrorRead(error.value);
    }
  }

  /** And that is what the file holds: after its old records, one record for each of those events. */
  lemma FileHoldsRun(h: Hashing, f: Format, origin: LogState, s: Service, net: Net, k: nat)
    requires Framed(f) && Synced(f, origin) && NeverFails(s.clockwork)
    ensures var st := Replay(h, f, origin, RunLog(s, net, k), s.clockwork);
            && Synced(f, st)
            && RecordsOf(f, origin) <= RecordsOf(f, st)
            && Carries(RecordsOf(f, st)[|RecordsOf(f, origin)|..], RunLog(s, net, k), s.clockwork.now)
  {
    ReplaySynced(h, f, origin, RunLog(s, net, k), s.clockwork);
  }

  // --- tamper evidence --------------------------------------------------------------------------

  lemma OneLineConcat(a: seq<Logged>, b: seq<Logged>)
    requires OneLineEvents(a) && OneLineEvents(b)
    ensures OneLineEvents(a + b)
  {
  }

  lemma OneLineOne(e: Logged)
    requires e.event in {"RUN_START", "RUN_ERROR", "RUN_STOP", "SYNC_SUMMARY"}
    ensures OneLineEvents([e])
  {
  }

  lemma OneLineOps(es: seq<Logged>)
    requires AllOps(es)
    ensures OneLineEvents(es)
  {
    assert OneLine("AD_OP_OK") && OneLine("AD_OP_FAIL");
  }

  lemma BlockOneLine(mode: string, b: Block)
    requires BlockOk(mode, b)
    ensures OneLineEvents(BlockLog(b))
  {
    match b
    case ErrorBlock(e) => OneLineOne(e);
    case PassBlock(ops, summary) =>
      OneLineOps(ops);
      OneLineOne(summary);
      OneLineConcat(ops, [summary]);
  }

  lemma {:induction false} BlocksOneLine(mode: string, bs: seq<Block>)
    requires BlocksOk(mode, bs)
    ensures OneLineEvents(Flatten(bs))
  {
    if bs != [] {
      var n := |bs| - 1;
      BlocksOneLine(mode, bs[..n]);
      BlockOneLine(mode, bs[n]);
      OneLineConcat(Flatten(bs[..n]), BlockLog(bs[n]));
    }
  }

  lemma RunLogOneLine(s: Service, net: Net, k: nat)
    requires NeverFails(s.clockwork)
    ensures OneLineEvents(RunLog(s, net, k))
  {
    var n, tail := TailOps(s, net, k);
    var bs := CyclesAreBlocks(s, net, n);
    var start, stop := RunStart(s.mode), RunStop(s.mode);
    OneLineOne(start);
    OneLineOne(stop);
    BlocksForOk(s, bs);
    BlocksOneLine(s.mode, bs);
    OneLineOps(tail);
    OneLineConcat([start], Flatten(bs));
    OneLineConcat([start] + Flatten(bs), tail);
    OneLineConcat([start] + Flatten(bs) + tail, [stop]);
  }

  /**
   The file of a run, shut down at any await, is tamper evident: whatever else `verify` accepts and ends in
   the same hash holds the same records, or exhibits a SHA-256 collision.
   */
  lemma RunIsTamperEvident(sha: Sha, f: Format, origin: LogState, s: Service, net: Net, k: nat, b: seq<byte>)
    requires Framed(f) && Synced(f, origin) && NeverFails(s.clockwork) && OneLineClock(s.clockwork)
    requires OneLineFields(RecordsOf(f, origin)) && VerifyFrom(Standard(sha), RecordsOf(f, origin), 0).ok
    requires Accepted(Standard(sha), f, b) && RecordsIn(f, b) != []
    requires Open(f, b) == Ok(Replay(Standard(sha), f, origin, RunLog(s, net, k), s.clockwork).head)
    ensures var st := Replay(Standard(sha), f, origin, RunLog(s, net, k), s.clockwork);
            Explained(sha, RecordsOf(f, st), RecordsIn(f, b))
  {
    var h, log := Standard(sha), RunLog(s, net, k);
    var st := Replay(h, f, origin, log, s.clockwork);
    RunLogOneLine(s, net, k);
    ReplaySynced(h, f, origin, log, s.clockwork);
    ReplayOneLine(h, f, origin, log, s.clockwork);
    SyncedHead(f, st);
    AcceptedChain(h, f, b);
    TamperEvident(sha, RecordsOf(f, st), RecordsIn(f, b));
  }
}
