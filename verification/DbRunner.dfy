/** The service in DB mode: its passes await by await, and what its log says whenever it is shut down. */
module DbRunner {
  import opened Text
  import opened Json
  import opened AuditRecords
  import opened AuditLogs
  import opened Journal
  import opened Db
  import opened DbLens
  import opened DbMode
  import AdSteps
  import Runner

  // --- one pass, await by await -----------------------------------------------------------------

  datatype Phase =
    | Pulling
    | Pushing(i: nat, records: seq<Record>)
    | Asking
    | Writing(i: nat, changes: seq<Change>)
    | Ended(result: Result<Counts>)

  datatype Machine = Machine(pass: Pass, phase: Phase)

  /** Goes on after an entry was appended, unless the append failed. */
  function After(c: Clockwork, before: Pass, after: Pass, phase: Phase): Machine {
    Machine(after, if GoesOn(c, before.log, after.log) then phase else Ended(Err(APPEND_FAILED)))
  }

  function Step(env: Env, m: Machine): Machine {
    var p := m.pass;
    match m.phase
    case Pulling =>
      (var (store, records) := env.source.pull(p.store);
       Machine(p.(store := store), match records case Err(e) => Ended(Err(e)) case Ok(rs) => Pushing(0, rs)))
    case Pushing(i, records) =>
      if i < |records| then After(env.clockwork, p, PushOne(env, p, records[i]), Pushing(i + 1, records))
      else After(env.clockwork, p, p.(log := p.log + [Pulled(env.source.table, |records|)]), Asking)
    case Asking =>
      (match env.feed
       case None => m.(phase := Ended(Ok(p.counts)))
       case Some(Err(e)) => m.(phase := Ended(Err(e)))
       case Some(Ok(changes)) => m.(phase := Writing(0, changes)))
    case Writing(i, changes) =>
      if i < |changes| then After(env.clockwork, p, WriteOne(env, p, changes[i]), Writing(i + 1, changes))
      else if changes == [] then m.(phase := Ended(Ok(p.counts)))
      else
        var closed := p.(log := p.log + [WroteBack(env.source.table, |changes|)]);
        After(env.clockwork, p, closed, Ended(Ok(p.counts)))
    case Ended(_) => m
  }

  /** The pass once every record is pushed and the pull is logged. */
  function PulledPass(env: Env, start: Pass, records: seq<Record>): Pass {
    var p := PushedUpTo(env, start, records, |records|);
    p.(log := p.log + [Pulled(env.source.table, |records|)])
  }

  /** Where the pass stands, and that the rest of `run_once` leads from there to its end. */
  ghost predicate OnTrack(env: Env, start: Pass, m: Machine) {
    var (store, pulled) := env.source.pull(start.store);
    var begun := start.(store := store);
    match m.phase
    case Pulling => m.pass == start
    case Pushing(i, records) =>
      && pulled == Ok(records) && i <= |records| && m.pass == PushedUpTo(env, begun, records, i)
      && Each(env.clockwork, DbMode.Pushing(env), m.pass, records[i..])
         == Each(env.clockwork, DbMode.Pushing(env), begun, records)
    case Asking =>
      && pulled.Ok? && m.pass == PulledPass(env, begun, pulled.value)
      && Inbound(env, m.pass) == RunOnce(env, start)
    case Writing(i, changes) =>
      && pulled.Ok? && env.feed == Some(Ok(changes)) && i <= |changes|
      && var asked := PulledPass(env, begun, pulled.value);
         && m.pass == WrittenUpTo(env, asked, changes, i)
         && Inbound(env, asked) == RunOnce(env, start)
         && Each(env.clockwork, DbMode.Writing(env), m.pass, changes[i..])
            == Each(env.clockwork, DbMode.Writing(env), asked, changes)
    case Ended(result) => RunOnce(env, start) == (m.pass, result)
  }

  lemma EachHead<T>(c: Clockwork, step: (Pass, T) -> Pass, p: Pass, items: seq<T>, i: nat)
    requires i < |items|
    ensures var p' := step(p, items[i]);
            Each(c, step, p, items[i..])
            == if GoesOn(c, p.log, p'.log) then Each(c, step, p', items[i + 1..]) else (p', Some(APPEND_FAILED))
  {
    assert items[i..][0] == items[i] && items[i..][1..] == items[i + 1..];
  }

  lemma PullingOnTrack(env: Env, start: Pass, m: Machine)
    requires OnTrack(env, start, m) && m.phase.Pulling?
    ensures OnTrack(env, start, Step(env, m))
  {
    var (store, pulled) := env.source.pull(start.store);
    var begun := start.(store := store);
    if pulled.Ok? {
      assert begun == PushedUpTo(env, begun, pulled.value, 0);
      assert pulled.value[0..] == pulled.value;
    }
  }

  lemma PushingOnTrack(env: Env, start: Pass, m: Machine)
    requires OnTrack(env, start, m) && m.phase.Pushing?
    ensures OnTrack(env, start, Step(env, m))
  {
    var i, records := m.phase.i, m.phase.records;
    var begun := start.(store := env.source.pull(start.store).0);
    assert RunOnce(env, start) == Outbound(env, begun, records);
    if i < |records| {
      PushedStep(env, begun, records, i);
      EachHead(env.clockwork, DbMode.Pushing(env), m.pass, records, i);
    } else {
      assert records[i..] == [];
    }
  }

  lemma AskingOnTrack(env: Env, start: Pass, m: Machine)
    requires OnTrack(env, start, m) && m.phase.Asking?
    ensures OnTrack(env, start, Step(env, m))
  {
    if env.feed.Some? && env.feed.value.Ok? {
      var changes := env.feed.value.value;
      assert m.pass == WrittenUpTo(env, m.pass, changes, 0);
      assert changes[0..] == changes;
    }
  }

  lemma WritingOnTrack(env: Env, start: Pass, m: Machine)
    requires OnTrack(env, start, m) && m.phase.Writing?
    ensures OnTrack(env, start, Step(env, m))
  {
    var i, changes := m.phase.i, m.phase.changes;
    var (store, pulled) := env.source.pull(start.store);
    var asked := PulledPass(env, start.(store := store), pulled.value);
    if i < |changes| {
      WrittenStep(env, asked, changes, i);
      EachHead(env.clockwork, DbMode.Writing(env), m.pass, changes, i);
    } else {
      assert changes[i..] == [];
    }
  }

  lemma StepOnTrack(env: Env, start: Pass, m: Machine)
    requires OnTrack(env, start, m)
    ensures OnTrack(env, start, Step(env, m))
  {
    match m.phase
    case Pulling => PullingOnTrack(env, start, m);
    case Pushing(_, _) => PushingOnTrack(env, start, m);
    case Asking => AskingOnTrack(env, start, m);
    case Writing(_, _) => WritingOnTrack(env, start, m);
    case Ended(_) =>
  }

  // --- the service ------------------------------------------------------------------------------

  /** How the set-up of a pass ends: an error before anything is read, or a connected pass. */
  datatype Setup = Refused(error: string) | Ready(env: Env)

  datatype Service = Service(mode: string, clockwork: Clockwork, cycles: nat -> Setup)

  function EnvAt(s: Service, n: nat): Env
    requires s.cycles(n).Ready?
  {
    s.cycles(n).env.(clockwork := s.clockwork)
  }

  /** What outlives a cycle. */
  datatype World = World(store: Store, pushed: seq<Record>, log: seq<Logged>)

  function StartOf(w: World): Pass { Pass(w.store, w.pushed, ZERO, w.log) }

  /** What closes a pass: its summary, or the error that ended it. */
  function Close(s: Service, pass: Pass, result: Result<Counts>): World {
    var log :=
      match result
      case Err(e) => pass.log + [Runner.RunError(e)]
      case Ok(counts) =>
        var summarized := pass.log + [Runner.Summary(s.mode, counts)];
        if s.clockwork.fault(|pass.log|).NoFault? then summarized else summarized + [Runner.RunError(APPEND_FAILED)];
    World(pass.store, pass.pushed, log)
  }

  function CycleEnd(s: Service, n: nat, w: World): World {
    match s.cycles(n)
    case Refused(e) => w.(log := w.log + [Runner.RunError(e)])
    case Ready(_) =>
      var (pass, result) := RunOnce(EnvAt(s, n), StartOf(w));
      Close(s, pass, result)
  }

  function AfterCycles(s: Service, store: Store, n: nat): World {
    if n == 0 then World(store, [], [Runner.RunStart(s.mode)]) else CycleEnd(s, n - 1, AfterCycles(s, store, n - 1))
  }

  datatype Stage = Between | Passing(phase: Phase)

  /** Cycle `n` at one of its awaits. */
  datatype Running = Running(n: nat, stage: Stage, pass: Pass)

  function Tick(s: Service, r: Running): Running {
    match r.stage
    case Between =>
      (match s.cycles(r.n)
       case Refused(e) => Running(r.n + 1, Between, r.pass.(log := r.pass.log + [Runner.RunError(e)]))
       case Ready(_) => r.(stage := Passing(Pulling)))
    case Passing(phase) =>
      if s.cycles(r.n).Refused? then r
      else if phase.Ended? then Running(r.n + 1, Between, StartOf(Close(s, r.pass, phase.result)))
      else
        var m := Step(EnvAt(s, r.n), Machine(r.pass, phase));
        Running(r.n, Passing(m.phase), m.pass)
  }

  function TickOf(s: Service): Running -> Running { r => Tick(s, r) }

  /** Every state in which a shutdown may find the service. */
  function Serve(s: Service, store: Store, k: nat): Running {
    AdSteps.Iterate(TickOf(s), Running(0, Between, StartOf(AfterCycles(s, store, 0))), k)
  }

  /** The log of a run that is shut down after `k` steps. */
  function RunLog(s: Service, store: Store, k: nat): seq<Logged> {
    Serve(s, store, k).pass.log + [Runner.RunStop(s.mode)]
  }

  ghost predicate InCycle(s: Service, store: Store, r: Running) {
    var start := StartOf(AfterCycles(s, store, r.n));
    match r.stage
    case Between => r.pass == start
    case Passing(phase) => s.cycles(r.n).Ready? && OnTrack(EnvAt(s, r.n), start, Machine(r.pass, phase))
  }

  lemma TickInCycle(s: Service, store: Store, r: Running)
    requires InCycle(s, store, r)
    ensures InCycle(s, store, Tick(s, r))
  {
    if r.stage.Passing? {
      var w, m := AfterCycles(s, store, r.n), Machine(r.pass, r.stage.phase);
      if m.phase.Ended? {
        EndedCycle(s, r.n, w, m);
      } else {
        StepOnTrack(EnvAt(s, r.n), StartOf(w), m);
      }
    }
  }

  lemma EndedCycle(s: Service, n: nat, w: World, m: Machine)
    requires s.cycles(n).Ready? && m.phase.Ended? && OnTrack(EnvAt(s, n), StartOf(w), m)
    ensures CycleEnd(s, n, w) == Close(s, m.pass, m.phase.result)
  {
  }

  /** The service await by await refines the sequence of whole cycles. */
  lemma ServeInCycle(s: Service, store: Store, k: nat)
    ensures InCycle(s, store, Serve(s, store, k))
  {
    var inv := r => InCycle(s, store, r);
    forall r | inv(r) ensures inv(Tick(s, r)) {
      TickInCycle(s, store, r);
    }
    AdSteps.Invariant(TickOf(s), inv, Running(0, Between, StartOf(AfterCycles(s, store, 0))), k);
  }

  // --- the grammar ------------------------------------------------------------------------------

  /** What a pass has logged: refused pushes, the pull, failed writebacks, and the writeback. */
  datatype Trail = Trail(pushes: seq<Logged>, pull: Option<Logged>, writes: seq<Logged>, close: Option<Logged>)

  const NOTHING := Trail([], None, [], None)

  function Entry(e: Option<Logged>): seq<Logged> { if e.Some? then [e.value] else [] }

  function Flat(t: Trail): seq<Logged> { t.pushes + Entry(t.pull) + t.writes + Entry(t.close) }

  predicate AllEvents(es: seq<Logged>, event: string) { forall i :: 0 <= i < |es| ==> es[i].event == event }

  predicate TrailOk(t: Trail) {
    && AllEvents(t.pushes, "DB_PUSH_FAIL") && AllEvents(Entry(t.pull), "DB_PULL")
    && AllEvents(t.writes, "DB_WRITEBACK_FAIL") && AllEvents(Entry(t.close), "DB_WRITEBACK")
    && (t.pull == None ==> t.writes == [] && t.close == None)
  }

  /** What one cycle logs: an error behind the trail so far, or the trail of a whole pass and its summary. */
  datatype Block =
    | Broken(trail: Trail, error: Logged)
    | Whole(trail: Trail, table: string, rows: nat, applied: nat, updated: nat, summary: Logged)

  function BlockLog(b: Block): seq<Logged> {
    match b
    case Broken(trail, error) => Flat(trail) + [error]
    case Whole(trail, _, _, _, _, summary) => Flat(trail) + [summary]
  }

  /**
   A summary agrees with what a reader recounts from the trail before it: everything inspected is a row of the
   pull or a change of the writeback, and the failures are the failure entries.
   */
  predicate BlockOk(mode: string, b: Block) {
    && TrailOk(b.trail)
    && match b
       case Broken(trail, error) => error.event == "RUN_ERROR" && trail.writes == [] && trail.close == None
       case Whole(trail, table, rows, applied, updated, summary) =>
         var failed := |trail.pushes| + |trail.writes|;
         && trail.pull == Some(Pulled(table, rows))
         && trail.close == (if applied == 0 then None else Some(WroteBack(table, applied)))
         && rows <= updated + |trail.pushes| && updated + failed <= rows + applied
         && summary == Runner.Summary(mode, Counts(rows + applied, 0, updated, 0, failed))
  }

  function Flatten(bs: seq<Block>): seq<Logged> {
    if bs == [] then [] else Flatten(bs[..|bs| - 1]) + BlockLog(bs[|bs| - 1])
  }

  /** A block is what its cycle calls for. */
  predicate BlockFor(s: Service, n: nat, b: Block) {
    && BlockOk(s.mode, b)
    && match s.cycles(n)
       case Refused(e) => b == Broken(NOTHING, Runner.RunError(e))
       case Ready(env) =>
         && (b.trail.pull.Some? ==> FieldIn(b.trail.pull.value.detail, "table") == Some(Str(env.source.table)))
         && (b.Whole? ==> b.table == env.source.table)
  }

  predicate BlocksFor(s: Service, bs: seq<Block>) { forall i :: 0 <= i < |bs| ==> BlockFor(s, i, bs[i]) }

  lemma {:induction false} PushEvents(push: nat -> Option<string>, from: nat, n: nat)
    ensures AllEvents(PushFailures(push, from, n), "DB_PUSH_FAIL")
  {
    if n > 0 {
      PushEvents(push, from, n - 1);
    }
  }

  lemma {:induction false} WriteEvents(env: Env, store: Store, changes: seq<Change>, n: nat)
    requires n <= |changes|
    ensures AllEvents(WriteFailures(env, store, changes, n), "DB_WRITEBACK_FAIL")
  {
    if n > 0 {
      WriteEvents(env, store, changes, n - 1);
    }
  }

  /** While appends succeed, a loop gets through all its items. */
  lemma {:induction false} EachRuns<T>(c: Clockwork, step: (Pass, T) -> Pass, p: Pass, items: seq<T>)
    requires NeverFails(c)
    ensures Each(c, step, p, items).1 == None
    decreases |items|
  {
    if items != [] {
      EachRuns(c, step, step(p, items[0]), items[1..]);
    }
  }

  /** The trail of a pass up to its pull. */
  lemma PullTrail(env: Env, begun: Pass, records: seq<Record>) returns (t: Trail)
    ensures TrailOk(t) && t.pull == Some(Pulled(env.source.table, |records|)) && t.writes == [] && t.close == None
    ensures t.pushes == PushFailures(env.push, |begun.pushed|, |records|)
    ensures PulledPass(env, begun, records).log == begun.log + Flat(t)
  {
    t := Trail(PushFailures(env.push, |begun.pushed|, |records|), Some(Pulled(env.source.table, |records|)), [], None);
    PushEvents(env.push, |begun.pushed|, |records|);
    assert Flat(t) == t.pushes + [t.pull.value];
  }

  /** The trail of a pass that has applied its first `n` changes. */
  lemma WriteTrail(env: Env, begun: Pass, records: seq<Record>, changes: seq<Change>, n: nat) returns (t: Trail)
    requires n <= |changes|
    ensures TrailOk(t) && t.pull == Some(Pulled(env.source.table, |records|)) && t.close == None
    ensures t.pushes == PushFailures(env.push, |begun.pushed|, |records|)
    ensures t.writes == WriteFailures(env, begun.store, changes, n)
    ensures WrittenUpTo(env, PulledPass(env, begun, records), changes, n).log == begun.log + Flat(t)
  {
    var asked := PullTrail(env, begun, records);
    t := asked.(writes := WriteFailures(env, begun.store, changes, n));
    WriteEvents(env, begun.store, changes, n);
    assert Flat(t) == Flat(asked) + t.writes;
  }

  lemma CloseTrail(t: Trail, e: Logged) returns (t': Trail)
    requires TrailOk(t) && t.pull.Some? && t.close == None && e.event == "DB_WRITEBACK"
    ensures t' == t.(close := Some(e)) && TrailOk(t') && Flat(t') == Flat(t) + [e]
  {
    t' := t.(close := Some(e));
    assert Flat(t) == t.pushes + Entry(t.pull) + t.writes;
  }

  /** The outbound half of a pass, while appends succeed. */
  lemma OutboundRuns(env: Env, begun: Pass, records: seq<Record>)
    requires NeverFails(env.clockwork)
    ensures Outbound(env, begun, records) == Inbound(env, PulledPass(env, begun, records))
  {
    EachRuns(env.clockwork, DbMode.Pushing(env), begun, records);
    var n := PushesInOrder(env, begun, records);
  }

  lemma InboundRuns(env: Env, asked: Pass, changes: seq<Change>)
    requires NeverFails(env.clockwork) && env.feed == Some(Ok(changes))
    ensures var end := WrittenUpTo(env, asked, changes, |changes|);
            Inbound(env, asked)
            == (if changes == [] then end else end.(log := end.log + [WroteBack(env.source.table, |changes|)]),
                Ok(end.counts))
  {
    EachRuns(env.clockwork, DbMode.Writing(env), asked, changes);
    var n := WritesInOrder(env, asked, changes);
  }

  /** What a pass ends with, and the block it leaves. */
  lemma EndBlock(s: Service, n: nat, w: World) returns (b: Block)
    requires s.cycles(n).Ready? && NeverFails(s.clockwork)
    ensures BlockFor(s, n, b) && CycleEnd(s, n, w).log == w.log + BlockLog(b)
    ensures RunOnce(EnvAt(s, n), StartOf(w)).0.log == w.log + Flat(b.trail)
  {
    var env, start := EnvAt(s, n), StartOf(w);
    var (store, pulled) := env.source.pull(start.store);
    var begun := start.(store := store);
    if pulled.Err? {
      b := Broken(NOTHING, Runner.RunError(pulled.error));
      assert Flat(NOTHING) == [];
    } else {
      var asked := PulledPass(env, begun, pulled.value);
      OutboundRuns(env, begun, pulled.value);
      assert RunOnce(env, start) == Inbound(env, asked);
      EventsRead("", "", env.source.table, |pulled.value|);
      b := ReadyBlock(s.mode, env, begun, pulled.value);
      Regroup(w.log, Flat(b.trail), [if b.Broken? then b.error else b.summary]);
    }
  }

  /** The block of a pass that pulled its records. */
  lemma ReadyBlock(mode: string, env: Env, begun: Pass, records: seq<Record>) returns (b: Block)
    requires NeverFails(env.clockwork) && begun.counts == ZERO
    ensures BlockOk(mode, b) && b.trail.pull == Some(Pulled(env.source.table, |records|))
    ensures b.Whole? ==> b.table == env.source.table
    ensures var (end, result) := Inbound(env, PulledPass(env, begun, records));
            && end.log == begun.log + Flat(b.trail)
            && match result
               case Err(e) => b.Broken? && b.error == Runner.RunError(e)
               case Ok(counts) => b.Whole? && b.summary == Runner.Summary(mode, counts)
  {
    if env.feed.Some? && env.feed.value.Ok? {
      b := WholeBlock(mode, env, begun, records, env.feed.value.value);
    } else {
      var t := PullTrail(env, begun, records);
      var counts := PulledPass(env, begun, records).counts;
      b := if env.feed.Some? then Broken(t, Runner.RunError(env.feed.value.error))
           else Whole(t, env.source.table, |records|, 0, counts.updated, Runner.Summary(mode, counts));
    }
  }

  lemma WholeBlock(mode: string, env: Env, begun: Pass, records: seq<Record>, changes: seq<Change>) returns (b: Block)
    requires NeverFails(env.clockwork) && env.feed == Some(Ok(changes)) && begun.counts == ZERO
    ensures BlockOk(mode, b) && b.Whole? && b.table == env.source.table
    ensures b.trail.pull == Some(Pulled(env.source.table, |records|))
    ensures var (end, result) := Inbound(env, PulledPass(env, begun, records));
            end.log == begun.log + Flat(b.trail) && result.Ok? && b.summary == Runner.Summary(mode, result.value)
  {
    var asked := PulledPass(env, begun, records);
    var end := WrittenUpTo(env, asked, changes, |changes|);
    InboundRuns(env, asked, changes);
    var t := WriteTrail(env, begun, records, changes, |changes|);
    if changes != [] {
      var e := WroteBack(env.source.table, |changes|);
      var open := Flat(t);
      t := CloseTrail(t, e);
      assert begun.log + open + [e] == begun.log + (open + [e]);
    }
    b := Whole(t, env.source.table, |records|, |changes|, end.counts.updated, Runner.Summary(mode, end.counts));
  }

  // --- whenever it is shut down -----------------------------------------------------------------

  lemma {:induction false} CyclesAreBlocks(s: Service, store: Store, n: nat) returns (bs: seq<Block>)
    requires NeverFails(s.clockwork)
    ensures |bs| == n && BlocksFor(s, bs)
    ensures AfterCycles(s, store, n).log == [Runner.RunStart(s.mode)] + Flatten(bs)
  {
    if n == 0 {
      bs := [];
    } else {
      var before := CyclesAreBlocks(s, store, n - 1);
      var b := CycleBlock(s, n - 1, AfterCycles(s, store, n - 1));
      bs := before + [b];
      BlocksSnoc(s, before, b);
      FlattenSnoc(before, b);
      Regroup([Runner.RunStart(s.mode)], Flatten(before), BlockLog(b));
    }
  }

  lemma CycleBlock(s: Service, n: nat, w: World) returns (b: Block)
    requires NeverFails(s.clockwork)
    ensures BlockFor(s, n, b) && CycleEnd(s, n, w).log == w.log + BlockLog(b)
  {
    match s.cycles(n)
    case Refused(e) =>
      b := Broken(NOTHING, Runner.RunError(e));
      assert Flat(NOTHING) == [];
    case Ready(_) => b := EndBlock(s, n, w);
  }

  lemma FlattenSnoc(bs: seq<Block>, b: Block)
    ensures Flatten(bs + [b]) == Flatten(bs) + BlockLog(b)
  {
    assert (bs + [b])[..|bs|] == bs;
  }

  lemma BlocksSnoc(s: Service, bs: seq<Block>, b: Block)
    requires BlocksFor(s, bs) && BlockFor(s, |bs|, b)
    ensures BlocksFor(s, bs + [b])
  {
    forall i | 0 <= i < |bs| + 1 ensures BlockFor(s, i, (bs + [b])[i]) {
      if i < |bs| {
        assert (bs + [b])[i] == bs[i];
      }
    }
  }

  lemma Regroup(a: seq<Logged>, b: seq<Logged>, c: seq<Logged>)
    ensures a + b + c == a + (b + c)
  {
  }

  /** The trail of the pass under way. */
  lemma TrailSoFar(s: Service, n: nat, w: World, m: Machine) returns (t: Trail)
    requires NeverFails(s.clockwork) && s.cycles(n).Ready? && OnTrack(EnvAt(s, n), StartOf(w), m)
    ensures TrailOk(t) && m.pass.log == w.log + Flat(t)
  {
    var env, start := EnvAt(s, n), StartOf(w);
    var (store, pulled) := env.source.pull(start.store);
    var begun := start.(store := store);
    match m.phase {
      case Pulling =>
        t := NOTHING;
        assert Flat(t) == [];
      case Pushing(i, _) =>
        t := Trail(PushFailures(env.push, |start.pushed|, i), None, [], None);
        PushEvents(env.push, |start.pushed|, i);
        assert Flat(t) == t.pushes;
      case Asking =>
        t := PullTrail(env, begun, pulled.value);
      case Writing(i, changes) =>
        t := WriteTrail(env, begun, pulled.value, changes, i);
      case Ended(_) =>
        var b := EndBlock(s, n, w);
        t := b.trail;
    }
  }

  // --- as a reader of the log finds it ----------------------------------------------------------

  /**
   A pass and its summary, read field by field: the pull names the table and its rows, the writeback the changes;
   everything inspected is one of those, the failures are the failure entries, and every row that did not fail
   counts as updated.
   */
  predicate WholeReads(mode: string, table: string, b: Block)
    requires b.Whole?
  {
    var failed := |b.trail.pushes| + |b.trail.writes|;
    && b.trail.pull.Some? && FieldIn(b.trail.pull.value.detail, "table") == Some(Str(table))
    && FieldIn(b.trail.pull.value.detail, "rows") == Some(Num(b.rows % 0x1_0000_0000_0000_0000))
    && (b.trail.close.Some? <==> b.applied > 0)
    && (b.applied > 0 ==>
         && FieldIn(b.trail.close.value.detail, "table") == Some(Str(table))
         && FieldIn(b.trail.close.value.detail, "applied") == Some(Num(b.applied % 0x1_0000_0000_0000_0000)))
    && b.rows <= b.updated + |b.trail.pushes| && b.updated + failed <= b.rows + b.applied
    && b.summary.event == "SYNC_SUMMARY" && FieldIn(b.summary.detail, "mode") == Some(Str(mode))
    && Runner.CounterIn(b.summary, "inspected") == Some(Num((b.rows + b.applied) % 0x1_0000_0000_0000_0000))
    && Runner.CounterIn(b.summary, "updated") == Some(Num(b.updated % 0x1_0000_0000_0000_0000))
    && Runner.CounterIn(b.summary, "failed") == Some(Num(failed % 0x1_0000_0000_0000_0000))
    && Runner.CounterIn(b.summary, "created") == Some(Num(0)) && Runner.CounterIn(b.summary, "disabled") == Some(Num(0))
  }

  lemma WholeOk(mode: string, b: Block)
    requires BlockOk(mode, b) && b.Whole?
    ensures WholeReads(mode, b.table, b)
  {
    var failed := |b.trail.pushes| + |b.trail.writes|;
    EventsRead("", "", b.table, b.rows);
    EventsRead("", "", b.table, b.applied);
    Runner.SummaryReads(mode, Counts(b.rows + b.applied, 0, b.updated, 0, failed));
  }

  lemma BlockReads(s: Service, n: nat, b: Block)
    requires BlockFor(s, n, b)
    ensures TrailOk(b.trail)
    ensures match s.cycles(n)
            case Refused(e) =>
              b.Broken? && b.trail == NOTHING && FieldIn(b.error.detail, "error") == Some(Str(e))
            case Ready(env) => b.Whole? ==> WholeReads(s.mode, env.source.table, b)
    ensures b.Broken? ==> b.error.event == "RUN_ERROR" && b.trail.writes == [] && b.trail.close == None
  {
    match s.cycles(n)
    case Refused(e) => Runner.ErrorRead(e);
    case Ready(_) =>
      if b.Whole? {
        WholeOk(s.mode, b);
      }
  }

  /**
   The log explains every run in DB mode. With appends succeeding, the events of a service shut down at any
   await are RUN_START, then for each cycle a trail DB_PUSH_FAIL* DB_PULL DB_WRITEBACK_FAIL* [DB_WRITEBACK]
   with its SYNC_SUMMARY, or the beginning of one with RUN_ERROR, then the beginning of a trail, and RUN_STOP;
   and every summary, read field by field, agrees with its own trail.
   */
  lemma LogExplainsRun(s: Service, store: Store, k: nat)
    returns (first: Logged, bs: seq<Block>, tail: Trail, last: Logged)
    requires NeverFails(s.clockwork)
    ensures RunLog(s, store, k) == [first] + Flatten(bs) + Flat(tail) + [last]
    ensures first.event == "RUN_START" && FieldIn(first.detail, "mode") == Some(Str(s.mode))
    ensures last.event == "RUN_STOP" && FieldIn(last.detail, "mode") == Some(Str(s.mode))
    ensures TrailOk(tail) && forall i :: 0 <= i < |bs| ==> TrailOk(bs[i].trail)
    ensures forall i :: 0 <= i < |bs| ==>
              match s.cycles(i)
              case Refused(e) =>
                bs[i].Broken? && bs[i].trail == NOTHING && FieldIn(bs[i].error.detail, "error") == Some(Str(e))
              case Ready(env) => bs[i].Whole? ==> WholeReads(s.mode, env.source.table, bs[i])
    ensures forall i :: 0 <= i < |bs| && bs[i].Broken? ==>
              bs[i].error.event == "RUN_ERROR" && bs[i].trail.writes == [] && bs[i].trail.close == None
  {
    ServeInCycle(s, store, k);
    bs, tail := TrailAt(s, store, Serve(s, store, k));
    first, last := Runner.RunStart(s.mode), Runner.RunStop(s.mode);
    Runner.ModeRead(s.mode);
    forall i | 0 <= i < |bs|
      ensures TrailOk(bs[i].trail)
      ensures match s.cycles(i)
              case Refused(e) =>
                bs[i].Broken? && bs[i].trail == NOTHING && FieldIn(bs[i].error.detail, "error") == Some(Str(e))
              case Ready(env) => bs[i].Whole? ==> WholeReads(s.mode, env.source.table, bs[i])
      ensures bs[i].Broken? ==>
                bs[i].error.event == "RUN_ERROR" && bs[i].trail.writes == [] && bs[i].trail.close == None
    {
      BlockReads(s, i, bs[i]);
    }
  }

  lemma TrailAt(s: Service, store: Store, r: Running) returns (bs: seq<Block>, tail: Trail)
    requires NeverFails(s.clockwork) && InCycle(s, store, r)
    ensures BlocksFor(s, bs) && TrailOk(tail)
    ensures r.pass.log == [Runner.RunStart(s.mode)] + Flatten(bs) + Flat(tail)
  {
    bs := CyclesAreBlocks(s, store, r.n);
    tail := NOTHING;
    match r.stage {
      case Between =>
        assert Flat(NOTHING) == [];
      case Passing(phase) =>
        tail := TrailSoFar(s, r.n, AfterCycles(s, store, r.n), Machine(r.pass, phase));
    }
  }
}
