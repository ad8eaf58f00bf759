/** AD mode as it runs: the loop of `run_once` over the network, the broker and the audit log. */
module AdAgent {
  import opened Text
  import opened Json
  import opened AuditLogs
  import opened Journal
  import opened Directory
  import opened Ldap
  import opened LdapClient
  import opened Forest
  import opened AdMode

  class Broker {
    var reports: seq<Report>

    constructor (reports: seq<Report>)
      ensures this.reports == reports
    {
      this.reports := reports;
    }

    method Complete(report: Report)
      modifies this
      ensures reports == old(reports) + [report]
    {
      reports := reports + [report];
    }
  }

  class AdAgent {
    const env: Env
    const network: Network
    const broker: Broker
    const recorder: Recorder

    ghost predicate Valid()
      reads this, recorder, recorder.audit, recorder.audit.file
    {
      && network.server == env.dialer.server
      && recorder.clockwork == env.clockwork
      && recorder.Exact()
    }

    constructor (env: Env, network: Network, broker: Broker, recorder: Recorder)
      requires network.server == env.dialer.server && recorder.clockwork == env.clockwork && recorder.Exact()
      ensures Valid() && this.env == env && this.network == network
      ensures this.broker == broker && this.recorder == recorder
    {
      this.env, this.network, this.broker, this.recorder := env, network, broker, recorder;
    }

    method Process(op: Operation, conn: Conn) returns (result: Result<Json>)
      requires network.server == env.dialer.server
      modifies network
      ensures (network.net, result) == AdMode.Process(env, old(network.net), conn, op)
    {
      if op.opType == "CREATE_ACCOUNT" {
        var attributes := Attributes(env, op);
        if attributes.Err? { return Err(attributes.error); }
        var password := Password(env, op);
        if password.Err? { return Err(password.error); }
        var dn := network.CreateAccount(conn, op.opType, attributes.value, password.value);
        result := MapOk(dn, d => DnDetail(d));
      } else if op.opType == "ENABLE_ACCOUNT" {
        var email := Email(op);
        if email.Err? { return Err(email.error); }
        var dn := network.SetUac(conn, op.opType, email.value, UAC_ENABLED);
        result := MapOk(dn, d => StateDetail(d, "enabled"));
      } else if op.opType == "DISABLE_ACCOUNT" {
        var email := Email(op);
        if email.Err? { return Err(email.error); }
        var dn := network.SetUac(conn, op.opType, email.value, UAC_DISABLED);
        result := MapOk(dn, d => StateDetail(d, "disabled"));
      } else if op.opType == "UPDATE_ATTRIBUTES" {
        var attributes := Attributes(env, op);
        if attributes.Err? { return Err(attributes.error); }
        var email := Email(op);
        if email.Err? { return Err(email.error); }
        var dn := network.UpdateAttributes(conn, op.opType, email.value, attributes.value);
        result := MapOk(dn, d => UpdateDetail(d, attributes.value));
      } else if op.opType == "TEST_CONNECTION" {
        var n := network.CountEntries(conn, op.opType, conn.baseDn, "(objectClass=*)");
        result := MapOk(n, k => ProbeDetail(k));
      } else if op.opType == "SYNC_USERS" {
        var params := Attributes(env, op);
        if params.Err? { return Err(params.error); }
        var base := UserBase(params.value, op);
        if base.None? { return Err(LdapError("SYNC_USERS missing base DN")); }
        var n := network.CountEntries(conn, op.opType, base.value, UserFilter(params.value));
        result := MapOk(n, k => UsersDetail(k));
      } else {
        result := Err(LdapError("unknown op type: " + op.opType));
      }
    }

    method RouteAndProcess(op: Operation, conns: Conns) returns (conns': Conns, result: Result<Json>)
      requires network.server == env.dialer.server
      modifies network
      ensures (network.net, conns', result) == AdMode.RouteAndProcess(env, old(network.net), conns, op)
    {
      conns' := conns;
      if op.forestContextJson.None? {
        result := Process(op, env.home);
        return;
      }
      var ctx := env.parseForest(op.forestContextJson.value);
      if ctx.Err? {
        return conns, Err(LdapError("bad forestContextJson: " + ctx.error));
      }
      if ctx.value.forestId !in conns {
        var bound := Dial(network, env.dialer, ctx.value, op.targetBaseDn, op.opType);
        if bound.Err? {
          return conns, Err(bound.error);
        }
        conns' := conns'[ctx.value.forestId := bound.value];
      }
      result := Process(op, conns'[ctx.value.forestId]);
    }

    /** Drains one batch; the error is that of the append that ended the pass early. */
    method RunOnce(ops: seq<Operation>) returns (counts: Counts, error: Option<string>)
      requires Valid()
      modifies network, broker, recorder, recorder.audit, recorder.audit.file
      ensures Valid()
      ensures var start := StartPass(old(network.net), old(broker.reports), old(recorder.log));
              var (pass, e) := RunOps(env, start, ops);
              && error == e && counts == pass.counts
              && network.net == pass.net && broker.reports == pass.reports && recorder.log == pass.log
    {
      var conns: Conns := map[];
      var counters := new SyncCounters();
      ghost var start := StartPass(network.net, broker.reports, recorder.log);
      for i := 0 to |ops|
        invariant Valid() && fresh(counters)
        invariant RunOps(env, start, ops)
               == RunOps(env, Pass(network.net, conns, counters.Value(), broker.reports, recorder.log), ops[i..])
      {
        var op := ops[i];
        assert ops[i..][0] == op && ops[i..][1..] == ops[i + 1..];
        var result;
        conns, result := RouteAndProcess(op, conns);
        var ok;
        if result.Ok? {
          counters.RecordOk(op.opType);
          broker.Complete(Report(op.id, true, Some(Render(result.value)), None));
          ok := recorder.Append("AD_OP_OK", Fields(["id", "op", "result"], [Str(op.id), Str(op.opType), result.value]));
        } else {
          counters.RecordFailure();
          broker.Complete(Report(op.id, false, None, Some(result.error)));
          ok := recorder.Append("AD_OP_FAIL",
            Fields(["error", "id", "op"], [Str(result.error), Str(op.id), Str(op.opType)]));
        }
        if !ok {
          return counters.Value(), Some(APPEND_FAILED);
        }
      }
      return counters.Value(), None;
    }
  }
}
