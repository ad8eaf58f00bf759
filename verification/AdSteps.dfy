/** The whole pass, await by await, and what holds wherever it is dropped. */
module AdSteps {
  import opened Text
  import opened Json
  import opened AuditFile
  import opened AuditChain
  import opened AuditLogs
  import opened Journal
  import opened AdMode
  import opened AdMachine

  /** Where the loop over the batch stands; `i` is the operation it is at. */
  datatype Phase =
    | Next(i: nat)
    | Working(i: nat, task: Task)
    | Reporting(i: nat, result: Result<Json>)
    | Reported(i: nat, result: Result<Json>)
    | Stopped(i: nat)

  datatype Machine = Machine(pass: Pass, phase: Phase)

  function Step(env: Env, ops: seq<Operation>, m: Machine): Machine {
    var p := m.pass;
    match m.phase
    case Next(i) => if i < |ops| then m.(phase := Working(i, Start(env, p.conns, ops[i]))) else m
    case Working(i, Settled(result)) =>
      if i < |ops| then Machine(p.(counts := Tally(p.counts, ops[i], result)), Reporting(i, result)) else m
    case Working(i, task) =>
      if i < |ops| then
        var w := TaskStep(env, ops[i], Work(p.net, p.conns, task));
        Machine(p.(net := w.net, conns := w.conns), Working(i, w.task))
      else m
    case Reporting(i, result) =>
      if i < |ops| then Machine(p.(reports := p.reports + [ReportOf(ops[i], result)]), Reported(i, result)) else m
    case Reported(i, result) =>
      if i < |ops| then
        Machine(p.(log := p.log + [LoggedOf(ops[i], result)]),
                if env.clockwork.fault(|p.log|).NoFault? then Next(i + 1) else Stopped(i))
      else m
    case Stopped(_) => m
  }

  function StepOf(env: Env, ops: seq<Operation>): Machine -> Machine { m => Step(env, ops, m) }

  /** The state after `k` steps. */
  function Iterate<T>(step: T -> T, m: T, k: nat): T {
    if k == 0 then m else step(Iterate(step, m, k - 1))
  }

  /** What holds at the start and is kept by every step holds after any number of them. */
  lemma {:induction false} Invariant<T(!new)>(step: T -> T, inv: T -> bool, m: T, k: nat)
    requires inv(m) && forall x :: inv(x) ==> inv(step(x))
    ensures inv(Iterate(step, m, k))
  {
    if k > 0 {
      Invariant(step, inv, m, k - 1);
    }
  }

  /** Every state in which a pass over `ops` may be dropped. */
  function Reach(env: Env, start: Pass, ops: seq<Operation>, k: nat): Machine {
    Iterate(StepOf(env, ops), Machine(start, Next(0)), k)
  }

  // --- where a dropped pass is ------------------------------------------------------------------

  /** The pass after its first `i` operations, all completed. */
  function Before(env: Env, start: Pass, ops: seq<Operation>, i: nat): Pass
    requires i <= |ops|
  {
    RunOps(env, start, ops[..i]).0
  }

  /** What operation `i` amounts to when it runs after the first `i` operations. */
  function OutcomeAt(env: Env, start: Pass, ops: seq<Operation>, i: nat): Work
    requires i < |ops|
  {
    var p := Before(env, start, ops, i);
    Outcome(RouteAndProcess(env, p.net, p.conns, ops[i]))
  }

  /**
   The state of a pass at operation `i`: the operations before it are complete, it is itself executed up
   to the pending request, and carrying it through gives the result it has in an undisturbed pass.
   */
  ghost predicate InOrder(env: Env, start: Pass, ops: seq<Operation>, m: Machine) {
    var i := m.phase.i;
    && i <= |ops| && (!m.phase.Next? ==> i < |ops|)
    && RunOps(env, start, ops[..i]).1 == None
    && var p := Before(env, start, ops, i);
    match m.phase
    case Next(_) => m.pass == p
    case Working(_, task) =>
      && m.pass == p.(net := m.pass.net, conns := m.pass.conns)
      && Drive(env, ops[i], Work(m.pass.net, m.pass.conns, task)) == OutcomeAt(env, start, ops, i)
    case Reporting(_, result) =>
      && OutcomeAt(env, start, ops, i) == Work(m.pass.net, m.pass.conns, Settled(result))
      && m.pass == Pass(m.pass.net, m.pass.conns, Tally(p.counts, ops[i], result), p.reports, p.log)
    case Reported(_, result) =>
      && OutcomeAt(env, start, ops, i) == Work(m.pass.net, m.pass.conns, Settled(result))
      && var counts, reports := Tally(p.counts, ops[i], result), p.reports + [ReportOf(ops[i], result)];
         m.pass == Pass(m.pass.net, m.pass.conns, counts, reports, p.log)
    case Stopped(_) =>
      && !env.clockwork.fault(|p.log|).NoFault?
      && m.pass == CompleteOp(env, p, ops[i])
  }

  lemma {:induction false} RunOpsSnoc(env: Env, start: Pass, ops: seq<Operation>, op: Operation)
    requires RunOps(env, start, ops).1 == None
    ensures RunOps(env, start, ops + [op])
         == (CompleteOp(env, RunOps(env, start, ops).0, op),
             if env.clockwork.fault(|RunOps(env, start, ops).0.log|).NoFault? then None else Some(APPEND_FAILED))
    decreases |ops|
  {
    if ops == [] {
      assert ops + [op] == [op] && [op][1..] == [];
      var p := CompleteOp(env, start, op);
      assert RunOps(env, p, []) == (p, None);
    } else {
      assert (ops + [op])[0] == ops[0] && (ops + [op])[1..] == ops[1..] + [op];
      RunOpsSnoc(env, CompleteOp(env, start, ops[0]), ops[1..], op);
    }
  }

  lemma StepKeepsOrder(env: Env, start: Pass, ops: seq<Operation>, m: Machine)
    requires InOrder(env, start, ops, m)
    ensures InOrder(env, start, ops, Step(env, ops, m))
  {
    var i := m.phase.i;
    var p := Before(env, start, ops, i);
    match m.phase
    case Next(_) =>
      if i < |ops| {
        DriveIsRoute(env, ops[i], p.net, p.conns);
      }
    case Working(_, task) =>
      if !task.Settled? {
        DriveNext(env, ops[i], Work(m.pass.net, m.pass.conns, task));
      }
    case Reporting(_, _) =>
    case Reported(_, _) =>
      OneFurther(ops, i);
      RunOpsSnoc(env, start, ops[..i], ops[i]);
    case Stopped(_) =>
  }

  lemma StartInOrder(env: Env, start: Pass, ops: seq<Operation>)
    ensures InOrder(env, start, ops, Machine(start, Next(0)))
  {
    assert ops[..0] == [];
  }

  lemma ReachInOrder(env: Env, start: Pass, ops: seq<Operation>, k: nat)
    ensures InOrder(env, start, ops, Reach(env, start, ops, k))
  {
    var inv := m => InOrder(env, start, ops, m);
    StartInOrder(env, start, ops);
    forall m | inv(m) ensures inv(Step(env, ops, m)) {
      StepKeepsOrder(env, start, ops, m);
    }
    Invariant(StepOf(env, ops), inv, Machine(start, Next(0)), k);
  }

  /** The record and the report that operation `j` leaves. */
  function ResultAt(env: Env, start: Pass, ops: seq<Operation>, j: nat): Result<Json>
    requires j < |ops|
  {
    OutcomeAt(env, start, ops, j).task.result
  }

  /** The items that follow `past` in `s`, one for each index. */
  ghost predicate Follow<A(!new)>(past: seq<A>, s: seq<A>, item: nat -> A, n: nat) {
    |s| == |past| + n && past <= s && forall j :: 0 <= j < n ==> s[|past| + j] == item(j)
  }

  lemma FollowSnoc<A(!new)>(past: seq<A>, s: seq<A>, item: nat -> A, n: nat, last: A)
    requires Follow(past, s, item, n) && item(n) == last
    ensures Follow(past, s + [last], item, n + 1)
  {
  }

  function LoggedAt(env: Env, start: Pass, ops: seq<Operation>): nat -> Logged {
    (j: nat) => if j < |ops| then LoggedOf(ops[j], ResultAt(env, start, ops, j)) else Logged("", Null)
  }

  function ReportAt(env: Env, start: Pass, ops: seq<Operation>): nat -> Report {
    (j: nat) => if j < |ops| then ReportOf(ops[j], ResultAt(env, start, ops, j)) else Report("", false, None, None)
  }

  lemma {:induction false} TrailFollows(env: Env, start: Pass, ops: seq<Operation>, i: nat)
    requires i <= |ops| && RunOps(env, start, ops[..i]).1 == None
    ensures Follow(start.log, Before(env, start, ops, i).log, LoggedAt(env, start, ops), i)
    ensures Follow(start.reports, Before(env, start, ops, i).reports, ReportAt(env, start, ops), i)
  {
    if i > 0 {
      TrailStep(env, start, ops, i - 1);
      TrailFollows(env, start, ops, i - 1);
      var p, result := Before(env, start, ops, i - 1), ResultAt(env, start, ops, i - 1);
      FollowSnoc(start.log, p.log, LoggedAt(env, start, ops), i - 1, LoggedOf(ops[i - 1], result));
      FollowSnoc(start.reports, p.reports, ReportAt(env, start, ops), i - 1, ReportOf(ops[i - 1], result));
    }
  }

  /** Completed operations leave one report and one log record each, in order. */
  lemma CompletedTrail(env: Env, start: Pass, ops: seq<Operation>, i: nat)
    requires i <= |ops| && RunOps(env, start, ops[..i]).1 == None
    ensures var p := Before(env, start, ops, i);
            && |p.log| == |start.log| + i && |p.reports| == |start.reports| + i
            && start.log <= p.log && start.reports <= p.reports
            && (forall j :: 0 <= j < i ==> p.log[|start.log| + j] == LoggedOf(ops[j], ResultAt(env, start, ops, j)))
            && (forall j :: 0 <= j < i ==>
                 p.reports[|start.reports| + j] == ReportOf(ops[j], ResultAt(env, start, ops, j)))
  {
    TrailFollows(env, start, ops, i);
    var p := Before(env, start, ops, i);
    forall j | 0 <= j < i ensures p.log[|start.log| + j] == LoggedOf(ops[j], ResultAt(env, start, ops, j)) {
      assert p.log[|start.log| + j] == LoggedAt(env, start, ops)(j);
    }
    forall j | 0 <= j < i ensures p.reports[|start.reports| + j] == ReportOf(ops[j], ResultAt(env, start, ops, j)) {
      assert p.reports[|start.reports| + j] == ReportAt(env, start, ops)(j);
    }
  }

  /** One more completed operation. */
  lemma TrailStep(env: Env, start: Pass, ops: seq<Operation>, i: nat)
    requires i < |ops| && RunOps(env, start, ops[..i + 1]).1 == None
    ensures RunOps(env, start, ops[..i]).1 == None
    ensures var p, p' := Before(env, start, ops, i), Before(env, start, ops, i + 1);
            && p' == CompleteOp(env, p, ops[i])
            && p'.log == p.log + [LoggedOf(ops[i], ResultAt(env, start, ops, i))]
            && p'.reports == p.reports + [ReportOf(ops[i], ResultAt(env, start, ops, i))]
  {
    BeforeSnoc(env, start, ops, i);
    OpTrail(env, Before(env, start, ops, i), ops[i]);
  }

  lemma BeforeSnoc(env: Env, start: Pass, ops: seq<Operation>, i: nat)
    requires i < |ops| && RunOps(env, start, ops[..i + 1]).1 == None
    ensures RunOps(env, start, ops[..i]).1 == None
    ensures Before(env, start, ops, i + 1) == CompleteOp(env, Before(env, start, ops, i), ops[i])
  {
    OneFurther(ops, i);
    RunOpsOneMore(env, start, ops[..i], ops[i]);
  }

  lemma RunOpsOneMore(env: Env, start: Pass, ops: seq<Operation>, op: Operation)
    requires RunOps(env, start, ops + [op]).1 == None
    ensures RunOps(env, start, ops).1 == None
    ensures RunOps(env, start, ops + [op]).0 == CompleteOp(env, RunOps(env, start, ops).0, op)
  {
    RunOpsPrefix(env, start, ops, op);
    RunOpsSnoc(env, start, ops, op);
  }

  lemma OpTrail(env: Env, p: Pass, op: Operation)
    ensures var result := Outcome(RouteAndProcess(env, p.net, p.conns, op)).task.result;
            && CompleteOp(env, p, op).log == p.log + [LoggedOf(op, result)]
            && CompleteOp(env, p, op).reports == p.reports + [ReportOf(op, result)]
  {
  }

  lemma {:induction false} RunOpsPrefix(env: Env, start: Pass, ops: seq<Operation>, op: Operation)
    requires RunOps(env, start, ops + [op]).1 == None
    ensures RunOps(env, start, ops).1 == None
    decreases |ops|
  {
    if ops != [] {
      assert (ops + [op])[0] == ops[0] && (ops + [op])[1..] == ops[1..] + [op];
      RunOpsPrefix(env, CompleteOp(env, start, ops[0]), ops[1..], op);
    }
  }

  /**
   Lag of at most one. Wherever a pass is dropped, the operations with a log record are a prefix of the
   batch; each of them was executed after its predecessors and its completion was reported with the same
   result; at most the next one is reported without a record.
   */
  lemma LagAtMostOne(env: Env, start: Pass, ops: seq<Operation>, k: nat)
    ensures var m := Reach(env, start, ops, k);
            var i := m.phase.i;
            && i <= |ops|
            && |m.pass.log| == |start.log| + (if m.phase.Stopped? then i + 1 else i)
            && |m.pass.reports| == |start.reports| + (if m.phase.Reported? || m.phase.Stopped? then i + 1 else i)
            && (forall j :: 0 <= j < i ==>
                 m.pass.log[|start.log| + j] == LoggedOf(ops[j], ResultAt(env, start, ops, j)))
            && (forall j :: 0 <= j < i ==>
                 m.pass.reports[|start.reports| + j] == ReportOf(ops[j], ResultAt(env, start, ops, j)))
            && (|m.pass.reports| == |start.reports| + i + 1 ==>
                  i < |ops| && m.pass.reports[|start.reports| + i] == ReportOf(ops[i], ResultAt(env, start, ops, i)))
  {
    var m := Reach(env, start, ops, k);
    ReachInOrder(env, start, ops, k);
    CompletedTrail(env, start, ops, m.phase.i);
  }

  /** An undropped pass ends as the loop of `run_once` does. */
  lemma PassEnds(env: Env, start: Pass, ops: seq<Operation>, k: nat)
    ensures var m := Reach(env, start, ops, k);
            && (m.phase == Next(|ops|) ==> RunOps(env, start, ops) == (m.pass, None))
            && (m.phase.Stopped? ==>
                 m.phase.i < |ops| && RunOps(env, start, ops[..m.phase.i + 1]) == (m.pass, Some(APPEND_FAILED)))
  {
    ReachInOrder(env, start, ops, k);
    WholeBatch(ops);
    if Reach(env, start, ops, k).phase.Stopped? {
      StoppedThere(env, start, ops, Reach(env, start, ops, k));
    }
  }

  lemma WholeBatch(ops: seq<Operation>)
    ensures ops[..|ops|] == ops
  {
  }

  lemma StoppedThere(env: Env, start: Pass, ops: seq<Operation>, m: Machine)
    requires InOrder(env, start, ops, m) && m.phase.Stopped?
    ensures RunOps(env, start, ops[..m.phase.i + 1]) == (m.pass, Some(APPEND_FAILED))
  {
    OneFurther(ops, m.phase.i);
    StopsAfter(env, start, ops[..m.phase.i], ops[m.phase.i]);
  }

  lemma OneFurther(ops: seq<Operation>, i: nat)
    requires i < |ops|
    ensures ops[..i + 1] == ops[..i] + [ops[i]]
  {
  }

  lemma StopsAfter(env: Env, start: Pass, front: seq<Operation>, op: Operation)
    requires RunOps(env, start, front).1 == None && !env.clockwork.fault(|RunOps(env, start, front).0.log|).NoFault?
    ensures RunOps(env, start, front + [op])
         == (CompleteOp(env, RunOps(env, start, front).0, op), Some(APPEND_FAILED))
  {
    RunOpsSnoc(env, start, front, op);
  }

  /** Later operations are untouched: the state at operation `i` is the same whatever follows it. */
  lemma {:induction false} LaterUntouched(env: Env, start: Pass, ops: seq<Operation>, ops': seq<Operation>, k: nat)
    requires var i := Reach(env, start, ops, k).phase.i; i < |ops| && i < |ops'| && ops[..i + 1] == ops'[..i + 1]
    ensures Reach(env, start, ops', k) == Reach(env, start, ops, k)
  {
    if k > 0 {
      var m := Reach(env, start, ops, k - 1);
      var i, i' := m.phase.i, Reach(env, start, ops, k).phase.i;
      NeverBack(env, ops, m);
      assert ops[..i + 1] == ops[..i' + 1][..i + 1] == ops'[..i' + 1][..i + 1] == ops'[..i + 1];
      LaterUntouched(env, start, ops, ops', k - 1);
      SameStep(env, ops, ops', m);
    }
  }

  lemma NeverBack(env: Env, ops: seq<Operation>, m: Machine)
    ensures m.phase.i <= Step(env, ops, m).phase.i
  {
  }

  /** A step looks at the current operation only. */
  lemma SameStep(env: Env, ops: seq<Operation>, ops': seq<Operation>, m: Machine)
    requires m.phase.i < |ops| && m.phase.i < |ops'| && ops[..m.phase.i + 1] == ops'[..m.phase.i + 1]
    ensures Step(env, ops, m) == Step(env, ops', m)
  {
    var i := m.phase.i;
    assert ops[i] == ops[..i + 1][i] == ops'[..i + 1][i] == ops'[i];
  }

  /** While appends succeed, the chain head in memory is the one on disk wherever the pass is dropped. */
  lemma HeadInStepWhenDropped(
      h: Hashing, f: Format, origin: LogState, env: Env, start: Pass, ops: seq<Operation>, k: nat)
    requires Framed(f) && Synced(f, origin)
    requires NoFaults(env.clockwork, |start.log| + |ops|)
    ensures var m := Reach(env, start, ops, k);
            && Synced(f, Replay(h, f, origin, m.pass.log, env.clockwork))
            && !m.phase.Stopped?
  {
    var m := Reach(env, start, ops, k);
    ReachInOrder(env, start, ops, k);
    LagAtMostOne(env, start, ops, k);
    CompletedTrail(env, start, ops, m.phase.i);
    ReplaySynced(h, f, origin, m.pass.log, env.clockwork);
  }
}
