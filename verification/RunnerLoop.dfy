/** The service loop as it runs: whole cycles, or from await to await until a shutdown. */
module RunnerLoop {
  import opened Text
  import opened Journal
  import opened LdapClient
  import opened AdMode
  import opened AdAgent
  import opened AdSteps
  import opened Runner

  class ServiceLoop {
    const service: Service
    const network: Network
    const broker: Broker
    const recorder: Recorder

    ghost predicate Valid()
      reads this, recorder, recorder.audit, recorder.audit.file
    {
      && (forall n :: service.cycles(n).env.dialer.server == network.server)
      && recorder.clockwork == service.clockwork
      && recorder.Exact()
    }

    function State(): World
      reads network, broker, recorder
    {
      World(network.net, broker.reports, recorder.log)
    }

    constructor (service: Service, network: Network, broker: Broker, recorder: Recorder)
      requires forall n :: service.cycles(n).env.dialer.server == network.server
      requires recorder.clockwork == service.clockwork && recorder.Exact()
      ensures Valid() && this.service == service && this.network == network
      ensures this.broker == broker && this.recorder == recorder
    {
      this.service, this.network, this.broker, this.recorder := service, network, broker, recorder;
    }

    /** Set-up, a pass, and its summary; the error is that of whichever of them failed. */
    method RunPass(n: nat) returns (error: Option<string>)
      requires Valid()
      modifies network, broker, recorder, recorder.audit, recorder.audit.file
      ensures Valid() && (State(), error) == PassEnd(service, n, old(State()))
    {
      match service.cycles(n).setup {
        case Refused(e) =>
          return Some(e);
        case Batch(ops) =>
          var agent := new AdAgent(EnvAt(service, n), network, broker, recorder);
          var counts;
          counts, error := agent.RunOnce(ops);
          if error.None? {
            var ok := recorder.Append("SYNC_SUMMARY", Summary(service.mode, counts).detail);
            error := if ok then None else Some(APPEND_FAILED);
          }
      }
    }

    /** One cycle: a pass and its summary, or the error that ended it. */
    method RunCycle(n: nat)
      requires Valid()
      modifies network, broker, recorder, recorder.audit, recorder.audit.file
      ensures Valid() && State() == CycleEnd(service, n, old(State()))
    {
      CycleLogsError(service, n, State());
      var error := RunPass(n);
      if error.Some? {
        var _ := recorder.Append("RUN_ERROR", RunError(error.value).detail);
      }
    }

    /** Runs some cycles and stops; an unwritable log ends the run before it begins. */
    method Run(cycles: nat) returns (started: bool)
      requires Valid() && recorder.log == [] && broker.reports == []
      modifies network, broker, recorder, recorder.audit, recorder.audit.file
      ensures Valid() && (started <==> service.clockwork.fault(0).NoFault?)
      ensures started ==>
        && network.net == AfterCycles(service, old(network.net), cycles).net
        && broker.reports == AfterCycles(service, old(network.net), cycles).reports
        && recorder.log == AfterCycles(service, old(network.net), cycles).log + [RunStop(service.mode)]
      ensures !started ==> network.net == old(network.net) && recorder.log == [RunStart(service.mode)]
    {
      started := recorder.Append("RUN_START", RunStart(service.mode).detail);
      if !started {
        return;
      }
      ghost var net := network.net;
      for n := 0 to cycles
        invariant Valid() && State() == AfterCycles(service, net, n)
      {
        RunCycle(n);
      }
      var _ := recorder.Append("RUN_STOP", RunStop(service.mode).detail);
    }

    /** Appends entries in order; those that fail are tried only once. */
    method AppendAll(entries: seq<Logged>)
      requires Valid()
      modifies recorder, recorder.audit, recorder.audit.file
      ensures Valid() && recorder.log == old(recorder.log) + entries
    {
      for i := 0 to |entries|
        invariant Valid() && recorder.log == old(recorder.log) + entries[..i]
      {
        var _ := recorder.Append(entries[i].event, entries[i].detail);
        assert entries[..i + 1] == entries[..i] + [entries[i]];
      }
      assert entries[..|entries|] == entries;
    }

    /** The service from await to await, until a shutdown arrives at the given one and drops what is under way. */
    method Serve(awaits: nat) returns (started: bool)
      requires Valid() && recorder.log == [] && broker.reports == []
      modifies network, broker, recorder, recorder.audit, recorder.audit.file
      ensures Valid() && (started <==> service.clockwork.fault(0).NoFault?)
      ensures started ==>
        && recorder.log == RunLog(service, old(network.net), awaits)
        && network.net == Runner.Serve(service, old(network.net), awaits).pass.net
        && broker.reports == Runner.Serve(service, old(network.net), awaits).pass.reports
      ensures !started ==> network.net == old(network.net) && recorder.log == [RunStart(service.mode)]
    {
      ghost var net := network.net;
      started := recorder.Append("RUN_START", RunStart(service.mode).detail);
      if !started {
        return;
      }
      var r := Idle(World(network.net, [], [RunStart(service.mode)]), 0, Fetching);
      for k := 0 to awaits
        invariant Valid() && r == Runner.Serve(service, net, k)
        invariant recorder.log == r.pass.log && network.net == r.pass.net && broker.reports == r.pass.reports
      {
        var next := Tick(service, r);
        TickAppends(service, r);
        AppendAll(next.pass.log[|r.pass.log|..]);
        network.net, broker.reports := next.pass.net, next.pass.reports;
        r := next;
      }
      var _ := recorder.Append("RUN_STOP", RunStop(service.mode).detail);
    }
  }

  /** A step only adds to the log. */
  lemma TickAppends(s: Service, r: Running)
    ensures r.pass.log <= Tick(s, r).pass.log
  {
    if r.stage.Passing? && s.cycles(r.n).setup.Batch? {
      StepAppends(EnvAt(s, r.n), s.cycles(r.n).setup.ops, Machine(r.pass, r.stage.phase));
    }
  }

  lemma StepAppends(env: Env, ops: seq<Operation>, m: Machine)
    ensures m.pass.log <= Step(env, ops, m).pass.log
  {
  }
}
