/** What the log and the broker are told when a pass is redelivered, and what happens when an append failed. */
module AdTrail {
  import opened Text
  import opened Json
  import opened AuditRecords
  import opened Journal
  import opened Directory
  import opened Ldap
  import opened Forest
  import opened AdMode
  import opened AdSteps
  import opened AdAlike
  import opened AdCache
  import opened AdRedelivery
  import opened AdCrashes
  import AdOutcome

  // --- entries and reports ----------------------------------------------------------------------

  /** What a pass adds to the log and to the reports. */
  ghost predicate Adds(p: Pass, p': Pass, log: seq<Logged>, reports: seq<Report>) {
    p'.log == p.log + log && p'.reports == p.reports + reports
  }

  lemma AddsMore(p: Pass, p': Pass, p'': Pass, e: Logged, r: Report, log: seq<Logged>, reports: seq<Report>)
    requires Adds(p, p', [e], [r]) && Adds(p', p'', log, reports)
    ensures Adds(p, p'', [e] + log, [r] + reports)
  {
    assert p.log + [e] + log == p.log + ([e] + log);
    assert p.reports + [r] + reports == p.reports + ([r] + reports);
  }

  /** The same operations over directories that are alike add the same entries and reports. */
  lemma {:induction false} SameTrail(env: Env, p: Pass, q: Pass, ops: seq<Operation>, holes: Holes)
    returns (log: seq<Logged>, reports: seq<Report>)
    requires Steady(env.dialer.server) && ForestsAgree(env, ops)
    requires CacheOkForAll(env, p.conns, ops) && CacheOkForAll(env, q.conns, ops)
    requires Alike(p.net, q.net, holes)
    requires Undisturbed(env.dialer.server, holes, RunOps(env, p, ops).0.net.wire, |p.net.wire|)
    requires NoFaults(env.clockwork, |p.log| + |ops|) && NoFaults(env.clockwork, |q.log| + |ops|)
    ensures Adds(p, RunOps(env, p, ops).0, log, reports) && Adds(q, RunOps(env, q, ops).0, log, reports)
    decreases |ops|
  {
    if ops == [] {
      log, reports := [], [];
    } else {
      var p', q' := CompleteOp(env, p, ops[0]), CompleteOp(env, q, ops[0]);
      var result := RouteAndProcess(env, p.net, p.conns, ops[0]).2;
      StepAlike(env, p, q, ops, holes);
      log, reports := SameTrail(env, p', q', ops[1..], holes);
      OpAdds(env, p, ops[0], result);
      OpAdds(env, q, ops[0], result);
      var e, r := LoggedOf(ops[0], result), ReportOf(ops[0], result);
      AddsMore(p, p', RunOps(env, p', ops[1..]).0, e, r, log, reports);
      AddsMore(q, q', RunOps(env, q', ops[1..]).0, e, r, log, reports);
      log, reports := [e] + log, [r] + reports;
    }
  }

  lemma OpAdds(env: Env, p: Pass, op: Operation, result: Result<Json>)
    requires RouteAndProcess(env, p.net, p.conns, op).2 == result
    ensures Adds(p, CompleteOp(env, p, op), [LoggedOf(op, result)], [ReportOf(op, result)])
  {
  }

  lemma LoggedDiffers(op: Operation, r: Result<Json>, r': Result<Json>)
    ensures LoggedOf(op, r) == LoggedOf(op, r') <==> r == r'
  {
    if r.Ok? && r'.Ok? {
      ThreeFields(["id", "op", "result"], Str(op.id), Str(op.opType), r.value, Str(op.id), Str(op.opType), r'.value);
    } else if r.Err? && r'.Err? {
      var id, opType := Str(op.id), Str(op.opType);
      ThreeFields(["error", "id", "op"], Str(r.error), id, opType, Str(r'.error), id, opType);
    }
  }

  lemma ThreeFields(keys: seq<string>, a: Json, b: Json, c: Json, a': Json, b': Json, c': Json)
    requires |keys| == 3
    ensures Fields(keys, [a, b, c]) == Fields(keys, [a', b', c']) <==> a == a' && b == b' && c == c'
  {
    ThreeMembers(keys, a, b, c);
    ThreeMembers(keys, a', b', c');
  }

  lemma ThreeMembers(keys: seq<string>, a: Json, b: Json, c: Json)
    requires |keys| == 3
    ensures Fields(keys, [a, b, c]) == Obj(Member(keys[0], a, Member(keys[1], b, Member(keys[2], c, End))))
  {
    assert [a, b, c][1..] == [b, c] && [b, c][1..] == [c] && [c][1..] == [];
    assert Zip(keys[2..], [c]) == Member(keys[2], c, End);
    assert keys[1..][1..] == keys[2..];
    assert Zip(keys[1..], [b, c]) == Member(keys[1], b, Zip(keys[2..], [c]));
  }

  lemma ReportDiffers(op: Operation, r: Result<Json>, r': Result<Json>)
    ensures ReportOf(op, r) == ReportOf(op, r') <==> r == r'
  {
    if r.Ok? && r'.Ok? && Render(r.value) == Render(r'.value) {
      RenderInjective(r.value, r'.value);
    }
  }

  // --- after one crash --------------------------------------------------------------------------

  /** What the interrupted operation gives when it is executed again. */
  function SecondResult(env: Env, ops: seq<Operation>, m: Machine): Result<Json>
    requires m.phase.i < |ops|
  {
    RouteAndProcess(env, m.pass.net, map[], ops[m.phase.i]).2
  }

  /**
   After redelivery the log is that of the undisturbed pass if and only if the interrupted operation gives the
   same result when it is executed again; the broker is told the same if, besides, it was not told before.
   */
  lemma LogAfterRedelivery(
      env: Env, matches: (string, string, string, Entry) -> bool, start: Pass, ops: seq<Operation>, k: nat)
    requires start.conns == map[] && NoFaults(env.clockwork, |start.log| + |ops|)
    requires Steady(env.dialer.server) && SearchesBy(env.dialer.server, matches) && ForestsAgree(env, ops)
    requires UniqueInterrupted(env, start, ops, Reach(env, start, ops, k))
    requires StubIgnored(env, start, ops, Reach(env, start, ops, k))
    ensures var m := Reach(env, start, ops, k);
            var once, again := RunOps(env, start, ops).0, RunOps(env, Restart(m), ops[Done(start, ops, m)..]).0;
            if m.phase.Next? then again.log == once.log && again.reports == once.reports
            else
              && m.phase.i < |ops|
              && var same := SecondResult(env, ops, m) == ResultAt(env, start, ops, m.phase.i);
                 && (again.log == once.log <==> same)
                 && (again.reports == once.reports <==> same && !m.phase.Reported?)
  {
    var m := Reach(env, start, ops, k);
    var i := m.phase.i;
    Handover(env, matches, start, ops, k);
    var p := Before(env, start, ops, i);
    if m.phase.Next? {
      AlikeRefl(p.net, p.net, {});
      RestAgree(env, p.conns, ops, i);
      var log, reports := SameTrail(env, p, Restart(m), ops[i..], {});
    } else {
      var log, reports := TrailBehind(env, p, Restart(m), ops, i, Stub(m));
      ReportsSoFar(env, start, ops, k);
      TrailsCompare(
        p, RunOps(env, p, ops[i..]).0, Restart(m), RunOps(env, Restart(m), ops[i..]).0, ops[i],
        ResultAt(env, start, ops, i), SecondResult(env, ops, m), log, reports, m.phase.Reported?);
    }
  }

  /** The reports of a dropped pass, with or without that of the operation at hand. */
  lemma ReportsSoFar(env: Env, start: Pass, ops: seq<Operation>, k: nat)
    requires var m := Reach(env, start, ops, k); !m.phase.Next? && !m.phase.Stopped?
    ensures var m := Reach(env, start, ops, k);
            && m.phase.i < |ops|
            && var reports := Before(env, start, ops, m.phase.i).reports;
               m.pass.reports == if m.phase.Reported?
                 then reports + [ReportOf(ops[m.phase.i], ResultAt(env, start, ops, m.phase.i))] else reports
  {
    ReachInOrder(env, start, ops, k);
  }

  /** The entries behind the interrupted operation are the same on both sides. */
  lemma TrailBehind(env: Env, p: Pass, again: Pass, ops: seq<Operation>, i: nat, holes: Holes)
    returns (log: seq<Logged>, reports: seq<Report>)
    requires i < |ops| && Steady(env.dialer.server) && ForestsAgree(env, ops)
    requires CacheOkForAll(env, p.conns, ops) && again.conns == map[]
    requires Alike(CompleteOp(env, p, ops[i]).net, CompleteOp(env, again, ops[i]).net, holes)
    requires var sent := |CompleteOp(env, p, ops[i]).net.wire|;
             Undisturbed(env.dialer.server, holes, RunOps(env, p, ops[i..]).0.net.wire, sent)
    requires NoFaults(env.clockwork, |p.log| + |ops[i..]|) && NoFaults(env.clockwork, |again.log| + |ops[i..]|)
    ensures Adds(CompleteOp(env, p, ops[i]), RunOps(env, p, ops[i..]).0, log, reports)
    ensures Adds(CompleteOp(env, again, ops[i]), RunOps(env, again, ops[i..]).0, log, reports)
  {
    var rest := ops[i..];
    assert rest[0] == ops[i] && rest[1..] == ops[i + 1..];
    RestAgree(env, p.conns, ops, i);
    RestAgree(env, again.conns, ops, i);
    KeepsCaches(env, p, rest);
    KeepsCaches(env, again, rest);
    log, reports := SameTrail(env, CompleteOp(env, p, ops[i]), CompleteOp(env, again, ops[i]), rest[1..], holes);
  }

  /** Two trails that part at one operation, and may have one report too many. */
  lemma TrailsCompare(
      p: Pass, p': Pass, q: Pass, q': Pass, op: Operation, r: Result<Json>, r': Result<Json>,
      log: seq<Logged>, reports: seq<Report>, told: bool)
    requires q.log == p.log && q.reports == if told then p.reports + [ReportOf(op, r)] else p.reports
    requires p'.log == p.log + [LoggedOf(op, r)] + log && p'.reports == p.reports + [ReportOf(op, r)] + reports
    requires q'.log == q.log + [LoggedOf(op, r')] + log && q'.reports == q.reports + [ReportOf(op, r')] + reports
    ensures q'.log == p'.log <==> r' == r
    ensures q'.reports == p'.reports <==> r' == r && !told
  {
    LoggedDiffers(op, r, r');
    ReportDiffers(op, r, r');
    assert p'.log[|p.log|] == LoggedOf(op, r) && q'.log[|p.log|] == LoggedOf(op, r');
    if !told {
      assert p'.reports[|p.reports|] == ReportOf(op, r) && q'.reports[|p.reports|] == ReportOf(op, r');
    } else {
      assert |q'.reports| == |p'.reports| + 1;
    }
  }

  // --- when the second result is the first ------------------------------------------------------

  /** An operation dropped before it wrote gives the result it would have given. */
  lemma NotYetWritten(env: Env, start: Pass, ops: seq<Operation>, k: nat)
    requires start.conns == map[] && Steady(env.dialer.server) && ForestsAgree(env, ops)
    requires var m := Reach(env, start, ops, k);
             m.phase.Working? && !m.phase.task.Settled? && !m.phase.task.WritingPassword?
    ensures var m := Reach(env, start, ops, k);
            m.phase.i < |ops| && SecondResult(env, ops, m) == ResultAt(env, start, ops, m.phase.i)
  {
    var m := Reach(env, start, ops, k);
    var i := m.phase.i;
    ReachInOrder(env, start, ops, k);
    ReachUnderway(env, start, ops, k);
    BeforeCacheOk(env, start, ops, i);
    var p := Before(env, start, ops, i);
    assert CacheOk(env, p.conns, ops[i]);
    AlikeRefl(p.net, m.pass.net, {});
    RouteAlike(env, p.net, p.conns, m.pass.net, map[], {}, ops[i]);
  }

  /** A CREATE that has its entry is refused the second time: what succeeded is then logged as failed. */
  lemma CreatedAlready(env: Env, start: Pass, ops: seq<Operation>, k: nat)
    requires start.conns == map[] && Steady(env.dialer.server) && ForestsAgree(env, ops)
    requires var m := Reach(env, start, ops, k);
             && (m.phase.Reporting? || m.phase.Reported?)
             && m.phase.i < |ops| && ops[m.phase.i].opType == "CREATE_ACCOUNT"
             && ResultAt(env, start, ops, m.phase.i).Ok?
    ensures SecondResult(env, ops, Reach(env, start, ops, k)).Err?
  {
    var m := Reach(env, start, ops, k);
    var i := m.phase.i;
    ReachInOrder(env, start, ops, k);
    BeforeCacheOk(env, start, ops, i);
    var p := Before(env, start, ops, i);
    assert CacheOk(env, p.conns, ops[i]);
    CreateRefused(env, p.net, p.conns, ops[i]);
  }

  lemma CreateRefused(env: Env, net: Net, conns: Conns, op: Operation)
    requires Steady(env.dialer.server) && CacheOk(env, conns, op) && op.opType == "CREATE_ACCOUNT"
    requires RouteAndProcess(env, net, conns, op).2.Ok?
    ensures RouteAndProcess(env, RouteAndProcess(env, net, conns, op).0, map[], op).2.Err?
  {
    var n1 := RouteAndProcess(env, net, conns, op).0;
    if op.forestContextJson.None? {
      CreateThenRefused(env, net, n1, env.home, op);
    } else if ForestOf(env, op).Some? {
      var conn := FreshConn(env, ForestOf(env, op).value, op.targetBaseDn);
      RouteByDial(env, net, conns, op);
      RouteByDial(env, n1, map[], op);
      if conn.Ok? {
        CreateThenRefused(env, Dialled(env, net, conns, op), Dialled(env, n1, map[], op), conn.value, op);
      }
    }
  }

  lemma CreateThenRefused(env: Env, net: Net, n1: Net, conn: Conn, op: Operation)
    requires op.opType == "CREATE_ACCOUNT" && Process(env, net, conn, op).1.Ok?
    requires n1.dcs == Process(env, net, conn, op).0.dcs
    ensures Process(env, n1, conn, op).1.Err?
  {
    var c := AdOutcome.CreateChange(env, net, conn, op);
    var dn := Attributes(env, op).value[DN];
    assert dn in DirOf(n1, conn.dc);
    SubmitRefused(env.dialer.server, n1, conn, op.opType, Add(dn, AccountAttrs(Attributes(env, op).value)));
  }

  // --- an append that failed --------------------------------------------------------------------

  /** Executing operations does not look at the log's clockwork. */
  lemma ClockworkUnseen(env: Env, c: Clockwork, net: Net, conns: Conns, op: Operation)
    ensures RouteAndProcess(env.(clockwork := c), net, conns, op) == RouteAndProcess(env, net, conns, op)
  {
    if op.forestContextJson.None? {
      ProcessUnseen(env, c, net, env.home, op);
    } else if ForestOf(env, op).Some? {
      var ctx := ForestOf(env, op).value;
      if ctx.forestId in conns {
        ProcessUnseen(env, c, net, conns[ctx.forestId], op);
      } else {
        var (dialled, bound) := ConnectForest(env.dialer, net, ctx, op.targetBaseDn, op.opType);
        if bound.Ok? {
          ProcessUnseen(env, c, dialled, bound.value, op);
        }
      }
    }
  }

  lemma ProcessUnseen(env: Env, c: Clockwork, net: Net, conn: Conn, op: Operation)
    ensures Process(env.(clockwork := c), net, conn, op) == Process(env, net, conn, op)
  {
    var env' := env.(clockwork := c);
    assert Attributes(env', op) == Attributes(env, op) && Password(env', op) == Password(env, op);
  }

  lemma {:induction false} RunUnseen(env: Env, c: Clockwork, pass: Pass, ops: seq<Operation>)
    requires RunOps(env, pass, ops).1 == None && NoFaults(c, |pass.log| + |ops|)
    ensures RunOps(env.(clockwork := c), pass, ops) == RunOps(env, pass, ops)
    decreases |ops|
  {
    if ops != [] {
      ClockworkUnseen(env, c, pass.net, pass.conns, ops[0]);
      RunUnseen(env, c, CompleteOp(env, pass, ops[0]), ops[1..]);
    }
  }

  /**
   A pass that ended because an append failed before it wrote anything. The operation it could not log was
   executed and reported; a new pass that starts with it, on a log that works again, ends in the directories
   of a pass whose appends all succeed.
   */
  lemma AppendFailsAndRedeliver(
      env: Env, matches: (string, string, string, Entry) -> bool, start: Pass, ops: seq<Operation>, k: nat,
      c: Clockwork)
    requires start.conns == map[] && NoFaults(c, |start.log| + |ops| + 1)
    requires Steady(env.dialer.server) && SearchesBy(env.dialer.server, matches) && ForestsAgree(env, ops)
    requires Reach(env, start, ops, k).phase.Stopped?
    requires UniqueInterrupted(env, start, ops, Reach(env, start, ops, k))
    ensures var m, works := Reach(env, start, ops, k), env.(clockwork := c);
            && m.phase.i < |ops|
            && Alike(RunOps(works, start, ops).0.net, RunOps(works, Restart(m), ops[m.phase.i..]).0.net, {})
  {
    var m, works := Reach(env, start, ops, k), env.(clockwork := c);
    var i := m.phase.i;
    ReachInOrder(env, start, ops, k);
    CompletedTrail(env, start, ops, i);
    var p := Before(env, start, ops, i);
    RunUnseen(env, c, start, ops[..i]);
    RunOpsSplit(works, start, ops, i);
    BeforeCacheOk(works, start, ops, i);
    ClockworkUnseen(env, c, p.net, p.conns, ops[i]);
    assert m.pass.net == RouteAndProcess(works, p.net, p.conns, ops[i]).0;
    assert CacheOk(works, p.conns, ops[i]);
    RouteTwice(works, matches, p.net, p.conns, ops[i]);
    RedeliverRest(works, p, Restart(m), ops, i, {});
  }
}
