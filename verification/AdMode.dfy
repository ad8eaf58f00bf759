/** AD mode: one pass drains a batch of operations into the directories. */
module AdMode {
  import opened Text
  import opened Json
  import opened AuditChain
  import opened AuditLogs
  import opened Journal
  import opened Directory
  import opened Ldap
  import opened Forest

  /** One unit of work as the broker hands it out. */
  datatype Operation = Operation(
    id: string,
    opType: string,
    userEmail: Option<string>,
    attributesJson: Option<string>,
    encryptedPassword: Option<string>,
    targetBaseDn: Option<string>,
    forestContextJson: Option<string>)

  /** What a pass is given: dialling, the JSON readers, the default connection, and the log's clockwork. */
  datatype Env = Env(
    dialer: Dialer,
    parseAttrs: string -> Result<map<string, string>>,
    parseForest: string -> Result<ForestContext>,
    home: Conn,
    clockwork: Clockwork)

  function Attributes(env: Env, op: Operation): Result<map<string, string>> {
    match op.attributesJson
    case None => Ok(map[])
    case Some(json) =>
      match env.parseAttrs(json)
      case Ok(attributes) => Ok(attributes)
      case Err(e) => Err(LdapError("bad attributesJson: " + e))
  }

  function Email(op: Operation): Result<string> {
    match op.userEmail
    case Some(email) => Ok(email)
    case None => Err(LdapError("operation has no userEmail to locate the account"))
  }

  /** The initial password, decrypted; an operation without one sets none. */
  function Password(env: Env, op: Operation): Result<Option<string>> {
    match op.encryptedPassword
    case None => Ok(None)
    case Some(enc) => match env.dialer.decrypt(enc) case Ok(pw) => Ok(Some(pw)) case Err(e) => Err(e)
  }

  /** The first given value that is not empty, for a parameter with a fallback. */
  function Parameter(params: map<string, string>, name: string): Option<string> {
    if name in params && params[name] != "" then Some(params[name]) else None
  }

  const ALL_USERS := "(&(objectClass=user)(objectCategory=person))"

  function UserBase(params: map<string, string>, op: Operation): Option<string> {
    var given := Parameter(params, "userBaseDn");
    if given.Some? then given else op.targetBaseDn
  }

  function UserFilter(params: map<string, string>): string {
    var given := Parameter(params, "filter");
    if given.Some? then given.value else ALL_USERS
  }

  // --- one operation ----------------------------------------------------------------------------

  function DnDetail(dn: string): Json { Fields(["dn"], [Str(dn)]) }

  function StateDetail(dn: string, state: string): Json { Fields(["dn", "state"], [Str(dn), Str(state)]) }

  function UpdateDetail(dn: string, attributes: map<string, string>): Json {
    Fields(["dn", "updated"], [Str(dn), Num(Wrap(|attributes|))])
  }

  function ProbeDetail(n: nat): Json { Fields(["base_dn_entries", "ok"], [Num(Wrap(n)), Bool(true)]) }

  function UsersDetail(n: nat): Json { Fields(["inspected"], [Num(Wrap(n))]) }

  function MapOk<A, B>(r: Result<A>, f: A -> B): Result<B> {
    match r case Ok(v) => Ok(f(v)) case Err(e) => Err(e)
  }

  function Process(env: Env, net: Net, conn: Conn, op: Operation): (Net, Result<Json>) {
    var s := env.dialer.server;
    if op.opType == "CREATE_ACCOUNT" then
      match Attributes(env, op)
      case Err(e) => (net, Err(e))
      case Ok(attributes) =>
        match Password(env, op)
        case Err(e) => (net, Err(e))
        case Ok(password) =>
          var (net', dn) := CreateAccount(s, net, conn, op.opType, attributes, password);
          (net', MapOk(dn, d => DnDetail(d)))
    else if op.opType == "ENABLE_ACCOUNT" then
      match Email(op)
      case Err(e) => (net, Err(e))
      case Ok(email) =>
        var (net', dn) := SetUac(s, net, conn, op.opType, email, UAC_ENABLED);
        (net', MapOk(dn, d => StateDetail(d, "enabled")))
    else if op.opType == "DISABLE_ACCOUNT" then
      match Email(op)
      case Err(e) => (net, Err(e))
      case Ok(email) =>
        var (net', dn) := SetUac(s, net, conn, op.opType, email, UAC_DISABLED);
        (net', MapOk(dn, d => StateDetail(d, "disabled")))
    else if op.opType == "UPDATE_ATTRIBUTES" then
      match Attributes(env, op)
      case Err(e) => (net, Err(e))
      case Ok(attributes) =>
        match Email(op)
        case Err(e) => (net, Err(e))
        case Ok(email) =>
          var (net', dn) := UpdateAttributes(s, net, conn, op.opType, email, attributes);
          (net', MapOk(dn, d => UpdateDetail(d, attributes)))
    else if op.opType == "TEST_CONNECTION" then
      var (net', n) := CountEntries(s, net, conn, op.opType, conn.baseDn, "(objectClass=*)");
      (net', MapOk(n, k => ProbeDetail(k)))
    else if op.opType == "SYNC_USERS" then
      match Attributes(env, op)
      case Err(e) => (net, Err(e))
      case Ok(params) =>
        match UserBase(params, op)
        case None => (net, Err(LdapError("SYNC_USERS missing base DN")))
        case Some(base) =>
          var (net', n) := CountEntries(s, net, conn, op.opType, base, UserFilter(params));
          (net', MapOk(n, k => UsersDetail(k)))
    else (net, Err(LdapError("unknown op type: " + op.opType)))
  }

  type Conns = map<string, Conn>

  /** Chooses the connection of an operation, dialling its forest when it is not cached, and runs it. */
  function RouteAndProcess(env: Env, net: Net, conns: Conns, op: Operation): (Net, Conns, Result<Json>) {
    match op.forestContextJson
    case None =>
      var (net', result) := Process(env, net, env.home, op);
      (net', conns, result)
    case Some(json) =>
      match env.parseForest(json)
      case Err(e) => (net, conns, Err(LdapError("bad forestContextJson: " + e)))
      case Ok(ctx) =>
        if ctx.forestId in conns then
          var (net', result) := Process(env, net, conns[ctx.forestId], op);
          (net', conns, result)
        else
          var (dialled, bound) := ConnectForest(env.dialer, net, ctx, op.targetBaseDn, op.opType);
          match bound
          case Err(e) => (dialled, conns, Err(e))
          case Ok(conn) =>
            var (net', result) := Process(env, dialled, conn, op);
            (net', conns[ctx.forestId := conn], result)
  }

  // --- the pass ---------------------------------------------------------------------------------

  /** A completion sent to the broker; whether it arrived is ignored. */
  datatype Report = Report(id: string, success: bool, result: Option<string>, error: Option<string>)

  /** The state a pass threads through its operations. */
  datatype Pass = Pass(net: Net, conns: Conns, counts: Counts, reports: seq<Report>, log: seq<Logged>)

  function Tally(counts: Counts, op: Operation, result: Result<Json>): Counts {
    if result.Ok? then CountOk(counts, op.opType) else CountFailure(counts)
  }

  function ReportOf(op: Operation, result: Result<Json>): Report {
    match result
    case Ok(detail) => Report(op.id, true, Some(Render(detail)), None)
    case Err(e) => Report(op.id, false, None, Some(e))
  }

  function LoggedOf(op: Operation, result: Result<Json>): Logged {
    match result
    case Ok(detail) => Logged("AD_OP_OK", Fields(["id", "op", "result"], [Str(op.id), Str(op.opType), detail]))
    case Err(e) => Logged("AD_OP_FAIL", Fields(["error", "id", "op"], [Str(e), Str(op.id), Str(op.opType)]))
  }

  /** An operation executed, counted, reported and logged. */
  function CompleteOp(env: Env, pass: Pass, op: Operation): Pass {
    var (net, conns, result) := RouteAndProcess(env, pass.net, pass.conns, op);
    Pass(
      net, conns, Tally(pass.counts, op, result), pass.reports + [ReportOf(op, result)],
      pass.log + [LoggedOf(op, result)])
  }

  /** The loop over the batch; it is left early only when an append fails. */
  function RunOps(env: Env, pass: Pass, ops: seq<Operation>): (Pass, Option<string>)
    decreases |ops|
  {
    if ops == [] then (pass, None)
    else
      var pass' := CompleteOp(env, pass, ops[0]);
      if env.clockwork.fault(|pass.log|).NoFault? then RunOps(env, pass', ops[1..])
      else (pass', Some(APPEND_FAILED))
  }

  /** A pass starts with an empty connection cache and zero counters. */
  function StartPass(net: Net, reports: seq<Report>, log: seq<Logged>): Pass {
    Pass(net, map[], ZERO, reports, log)
  }
}
