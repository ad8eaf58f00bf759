/** The service loop in AD mode: cycles of one pass each, until a shutdown drops whatever is under way. */
module Runner {
  import opened Text
  import opened Json
  import opened AuditRecords
  import opened AuditChain
  import opened AuditLogs
  import opened Journal
  import opened Directory
  import opened AdMode
  import opened AdSteps

  /** How the set-up of a pass ends: an error before any operation, or a batch polled from the broker. */
  datatype Setup = Refused(error: string) | Batch(ops: seq<Operation>)

  /** The effective configuration of one cycle and how its set-up ends. */
  datatype Cycle = Cycle(env: Env, setup: Setup)

  /** A service: its mode label, the log's clockwork, and what each cycle meets. */
  datatype Service = Service(mode: string, clockwork: Clockwork, cycles: nat -> Cycle)

  /** What outlives a cycle. */
  datatype World = World(net: Net, reports: seq<Report>, log: seq<Logged>)

  function EnvAt(s: Service, n: nat): Env { s.cycles(n).env.(clockwork := s.clockwork) }

  // --- events -----------------------------------------------------------------------------------

  function RunStart(mode: string): Logged { Logged("RUN_START", Fields(["mode"], [Str(mode)])) }

  function RunStop(mode: string): Logged { Logged("RUN_STOP", Fields(["mode"], [Str(mode)])) }

  function RunError(error: string): Logged { Logged("RUN_ERROR", Fields(["error"], [Str(error)])) }

  function CountsJson(c: Counts): Json {
    Fields(["created", "disabled", "failed", "inspected", "updated"],
           [Num(Wrap(c.created)), Num(Wrap(c.disabled)), Num(Wrap(c.failed)), Num(Wrap(c.inspected)),
            Num(Wrap(c.updated))])
  }

  function Summary(mode: string, c: Counts): Logged {
    Logged("SYNC_SUMMARY", Fields(["counts", "mode"], [CountsJson(c), Str(mode)]))
  }

  /** A counter of a summary, as a reader finds it. */
  function CounterIn(summary: Logged, name: string): Option<Json> {
    match FieldIn(summary.detail, "counts") case Some(counts) => FieldIn(counts, name) case None => None
  }

  lemma SummaryReads(mode: string, c: Counts)
    ensures var e := Summary(mode, c);
            && e.event == "SYNC_SUMMARY" && FieldIn(e.detail, "mode") == Some(Str(mode))
            && CounterIn(e, "inspected") == Some(Num(Wrap(c.inspected)))
            && CounterIn(e, "created") == Some(Num(Wrap(c.created)))
            && CounterIn(e, "updated") == Some(Num(Wrap(c.updated)))
            && CounterIn(e, "disabled") == Some(Num(Wrap(c.disabled)))
            && CounterIn(e, "failed") == Some(Num(Wrap(c.failed)))
  {
    FieldsRead(["counts", "mode"], [CountsJson(c), Str(mode)], 0);
    FieldsRead(["counts", "mode"], [CountsJson(c), Str(mode)], 1);
    CountersRead(c);
  }

  lemma CountersRead(c: Counts)
    ensures FieldIn(CountsJson(c), "inspected") == Some(Num(Wrap(c.inspected)))
    ensures FieldIn(CountsJson(c), "created") == Some(Num(Wrap(c.created)))
    ensures FieldIn(CountsJson(c), "updated") == Some(Num(Wrap(c.updated)))
    ensures FieldIn(CountsJson(c), "disabled") == Some(Num(Wrap(c.disabled)))
    ensures FieldIn(CountsJson(c), "failed") == Some(Num(Wrap(c.failed)))
  {
    var keys := ["created", "disabled", "failed", "inspected", "updated"];
    var values := [Num(Wrap(c.created)), Num(Wrap(c.disabled)), Num(Wrap(c.failed)), Num(Wrap(c.inspected)),
                   Num(Wrap(c.updated))];
    assert forall j, k :: 0 <= j < k < 5 ==> keys[j][0] != keys[k][0];
    FieldsRead(keys, values, 0);
    FieldsRead(keys, values, 1);
    FieldsRead(keys, values, 2);
    FieldsRead(keys, values, 3);
    FieldsRead(keys, values, 4);
  }

  lemma ModeRead(mode: string)
    ensures FieldIn(RunStart(mode).detail, "mode") == Some(Str(mode))
    ensures FieldIn(RunStop(mode).detail, "mode") == Some(Str(mode))
  {
    FieldsRead(["mode"], [Str(mode)], 0);
  }

  lemma ErrorRead(error: string)
    ensures FieldIn(RunError(error).detail, "error") == Some(Str(error))
  {
    FieldsRead(["error"], [Str(error)], 0);
  }

  // --- whole cycles -----------------------------------------------------------------------------

  /** What closes a pass: its summary, or the error that ended it. */
  function ClosePass(s: Service, pass: Pass, error: Option<string>): seq<Logged> {
    match error
    case Some(e) => pass.log + [RunError(e)]
    case None =>
      var log := pass.log + [Summary(s.mode, pass.counts)];
      if s.clockwork.fault(|pass.log|).NoFault? then log else log + [RunError(APPEND_FAILED)]
  }

  function StartOf(w: World): Pass { StartPass(w.net, w.reports, w.log) }

  function CycleEnd(s: Service, n: nat, w: World): World {
    match s.cycles(n).setup
    case Refused(e) => w.(log := w.log + [RunError(e)])
    case Batch(ops) =>
      var (pass, error) := RunOps(EnvAt(s, n), StartOf(w), ops);
      World(pass.net, pass.reports, ClosePass(s, pass, error))
  }

  /** A pass and its summary: where they leave the world, and the error of whichever of them failed. */
  function PassEnd(s: Service, n: nat, w: World): (World, Option<string>) {
    match s.cycles(n).setup
    case Refused(e) => (w, Some(e))
    case Batch(ops) =>
      var (pass, error) := RunOps(EnvAt(s, n), StartOf(w), ops);
      if error.Some? then (World(pass.net, pass.reports, pass.log), error)
      else
        (World(pass.net, pass.reports, pass.log + [Summary(s.mode, pass.counts)]),
         if s.clockwork.fault(|pass.log|).NoFault? then None else Some(APPEND_FAILED))
  }

  /** A cycle logs the error of its pass, if there is one, and nothing else. */
  lemma CycleLogsError(s: Service, n: nat, w: World)
    ensures var (w', error) := PassEnd(s, n, w);
            CycleEnd(s, n, w) == if error.Some? then w'.(log := w'.log + [RunError(error.value)]) else w'
  {
    match s.cycles(n).setup
    case Refused(_) =>
    case Batch(ops) =>
      var (pass, error) := RunOps(EnvAt(s, n), StartOf(w), ops);
      CloseLogs(s, pass, error);
  }

  lemma CloseLogs(s: Service, pass: Pass, error: Option<string>)
    ensures error.Some? ==> ClosePass(s, pass, error) == pass.log + [RunError(error.value)]
    ensures error.None? ==>
              var log := pass.log + [Summary(s.mode, pass.counts)];
              ClosePass(s, pass, error)
              == if s.clockwork.fault(|pass.log|).NoFault? then log else log + [RunError(APPEND_FAILED)]
  {
  }

  /** The world after the first `n` cycles of a run that began with `RUN_START`. */
  function AfterCycles(s: Service, net: Net, n: nat): World {
    if n == 0 then World(net, [], [RunStart(s.mode)]) else CycleEnd(s, n - 1, AfterCycles(s, net, n - 1))
  }

  // --- await by await ---------------------------------------------------------------------------

  datatype Stage =
    | Fetching
    | Beating
    | Opening
    | Passing(phase: Phase)
    | ReportingRun
    | Sleeping

  /** Cycle `n` at one of its awaits. */
  datatype Running = Running(n: nat, stage: Stage, pass: Pass)

  function Idle(w: World, n: nat, stage: Stage): Running { Running(n, stage, StartOf(w)) }

  function Tick(s: Service, r: Running): Running {
    match r.stage
    case Fetching => r.(stage := Beating)
    case Beating => r.(stage := Opening)
    case Opening =>
      (match s.cycles(r.n).setup
       case Refused(e) => r.(stage := Sleeping, pass := r.pass.(log := r.pass.log + [RunError(e)]))
       case Batch(_) => r.(stage := Passing(Next(0)), pass := StartPass(r.pass.net, r.pass.reports, r.pass.log)))
    case Passing(phase) =>
      (match s.cycles(r.n).setup
       case Refused(_) => r
       case Batch(ops) =>
         if phase.Stopped? then
           r.(stage := Sleeping, pass := r.pass.(log := ClosePass(s, r.pass, Some(APPEND_FAILED))))
         else if phase == Next(|ops|) then
           var summarized := s.clockwork.fault(|r.pass.log|).NoFault?;
           r.(stage := if r.pass.counts.inspected > 0 && summarized then ReportingRun else Sleeping,
              pass := r.pass.(log := ClosePass(s, r.pass, None)))
         else
           var m := Step(EnvAt(s, r.n), ops, Machine(r.pass, phase));
           Running(r.n, Passing(m.phase), m.pass))
    case ReportingRun => r.(stage := Sleeping)
    case Sleeping => Running(r.n + 1, Fetching, StartPass(r.pass.net, r.pass.reports, r.pass.log))
  }

  function TickOf(s: Service): Running -> Running { r => Tick(s, r) }

  /** Every state in which a shutdown may find the service. */
  function Serve(s: Service, net: Net, k: nat): Running {
    Iterate(TickOf(s), Idle(AfterCycles(s, net, 0), 0, Fetching), k)
  }

  /** The log of a run that is shut down after `k` steps. */
  function RunLog(s: Service, net: Net, k: nat): seq<Logged> {
    Serve(s, net, k).pass.log + [RunStop(s.mode)]
  }

  function WorldOf(p: Pass): World { World(p.net, p.reports, p.log) }

  /** Between passes the service is where whole cycles leave it; within one, the pass is in order. */
  ghost predicate OnTrack(s: Service, net: Net, r: Running) {
    match r.stage
    case Passing(phase) =>
      (match s.cycles(r.n).setup
       case Refused(_) => false
       case Batch(ops) => InOrder(EnvAt(s, r.n), StartOf(AfterCycles(s, net, r.n)), ops, Machine(r.pass, phase)))
    case ReportingRun => WorldOf(r.pass) == AfterCycles(s, net, r.n + 1)
    case Sleeping => WorldOf(r.pass) == AfterCycles(s, net, r.n + 1)
    case _ => r.pass == StartOf(AfterCycles(s, net, r.n))
  }

  lemma TickOnTrack(s: Service, net: Net, r: Running)
    requires OnTrack(s, net, r)
    ensures OnTrack(s, net, Tick(s, r))
  {
    match r.stage
    case Passing(phase) => PassingOnTrack(s, net, r);
    case Opening =>
      if s.cycles(r.n).setup.Batch? {
        StartInOrder(EnvAt(s, r.n), StartOf(AfterCycles(s, net, r.n)), s.cycles(r.n).setup.ops);
      }
    case _ =>
  }

  lemma PassingOnTrack(s: Service, net: Net, r: Running)
    requires OnTrack(s, net, r) && r.stage.Passing?
    ensures OnTrack(s, net, Tick(s, r))
  {
    var env, start, ops := EnvAt(s, r.n), StartOf(AfterCycles(s, net, r.n)), s.cycles(r.n).setup.ops;
    var m := Machine(r.pass, r.stage.phase);
    if m.phase.Stopped? {
      StoppedEnds(env, start, ops, m.phase.i);
    } else if m.phase == Next(|ops|) {
      assert ops[..|ops|] == ops;
    } else {
      StepKeepsOrder(env, start, ops, m);
    }
  }

  /** A pass that stopped at a failed append is the loop of `run_once` left at that operation. */
  lemma StoppedEnds(env: Env, start: Pass, ops: seq<Operation>, i: nat)
    requires i < |ops| && RunOps(env, start, ops[..i]).1 == None
    requires !env.clockwork.fault(|Before(env, start, ops, i).log|).NoFault?
    ensures RunOps(env, start, ops) == (CompleteOp(env, Before(env, start, ops, i), ops[i]), Some(APPEND_FAILED))
  {
    SplitAt(ops, i);
    StopsThere(env, start, ops[..i], ops[i], ops[i + 1..]);
  }

  lemma SplitAt<T>(s: seq<T>, i: nat)
    requires i < |s|
    ensures s == s[..i] + [s[i]] + s[i + 1..]
  {
  }

  lemma StopsThere(env: Env, start: Pass, front: seq<Operation>, op: Operation, rest: seq<Operation>)
    requires RunOps(env, start, front).1 == None && !env.clockwork.fault(|RunOps(env, start, front).0.log|).NoFault?
    ensures RunOps(env, start, front + [op] + rest)
         == (CompleteOp(env, RunOps(env, start, front).0, op), Some(APPEND_FAILED))
  {
    StopsAfter(env, start, front, op);
    RunOpsStops(env, start, front + [op], rest);
  }

  lemma {:induction false} RunOpsStops(env: Env, start: Pass, ops: seq<Operation>, more: seq<Operation>)
    requires RunOps(env, start, ops).1.Some?
    ensures RunOps(env, start, ops + more) == RunOps(env, start, ops)
    decreases |ops|
  {
    assert ops != [] && (ops + more)[0] == ops[0] && (ops + more)[1..] == ops[1..] + more;
    if env.clockwork.fault(|start.log|).NoFault? {
      RunOpsStops(env, CompleteOp(env, start, ops[0]), ops[1..], more);
    }
  }

  /** The service machine refines the sequence of whole cycles. */
  lemma ServeOnTrack(s: Service, net: Net, k: nat)
    ensures OnTrack(s, net, Serve(s, net, k))
  {
    var inv := r => OnTrack(s, net, r);
    forall r | inv(r) ensures inv(Tick(s, r)) {
      TickOnTrack(s, net, r);
    }
    Invariant(TickOf(s), inv, Idle(AfterCycles(s, net, 0), 0, Fetching), k);
  }
}
