/**
 A pass as a step machine. The service drops the pass at any await when a shutdown is signalled, so every
 state of this machine, between any two requests, is a state in which a pass may end.
 */
module AdMachine {
  import opened Text
  import opened Json
  import opened Directory
  import opened Ldap
  import opened Forest
  import opened AdMode
  import Utf16

  // --- one operation, request by request --------------------------------------------------------

  /** What is done to an account once its DN is found. */
  datatype Goal = SwitchTo(uac: string, state: string) | Replace(attributes: map<string, string>)

  /** The request an operation is waiting for. */
  datatype Task =
    | Dialing(ctx: ForestContext, hosts: seq<string>)
    | Binding(ctx: ForestContext, hosts: seq<string>, login: Login)
    | Adding(conn: Conn, dn: string, attrs: Attrs, password: Option<string>)
    | WritingPassword(conn: Conn, dn: string, plaintext: string)
    | Finding(conn: Conn, email: string, goal: Goal)
    | Modifying(conn: Conn, dn: string, goal: Goal)
    | Counting(conn: Conn, base: string, filter: string, users: bool)
    | Settled(result: Result<Json>)

  datatype Work = Work(net: Net, conns: Conns, task: Task)

  function GoalChanges(goal: Goal): Attrs {
    match goal
    case SwitchTo(uac, _) => map[UAC := {uac}]
    case Replace(attributes) => Changes(attributes)
  }

  function GoalDetail(goal: Goal, dn: string): Json {
    match goal
    case SwitchTo(_, state) => StateDetail(dn, state)
    case Replace(attributes) => UpdateDetail(dn, attributes)
  }

  function GoalError(goal: Goal, dn: string, e: string): string {
    match goal
    case SwitchTo(_, _) => LdapError("modify uac " + dn + ": " + e)
    case Replace(_) => LdapError("modify " + dn + ": " + e)
  }

  /** `process` up to its first request on a connection. */
  function Begin(env: Env, conn: Conn, op: Operation): Task {
    if op.opType == "CREATE_ACCOUNT" then
      match Attributes(env, op)
      case Err(e) => Settled(Err(e))
      case Ok(attributes) =>
        match Password(env, op)
        case Err(e) => Settled(Err(e))
        case Ok(password) =>
          if DN !in attributes then Settled(Err(LdapError("attributes missing distinguishedName")))
          else Adding(conn, attributes[DN], AccountAttrs(attributes), password)
    else if op.opType == "ENABLE_ACCOUNT" then BeginFind(conn, Email(op), SwitchTo(UAC_ENABLED, "enabled"))
    else if op.opType == "DISABLE_ACCOUNT" then BeginFind(conn, Email(op), SwitchTo(UAC_DISABLED, "disabled"))
    else if op.opType == "UPDATE_ATTRIBUTES" then
      match Attributes(env, op)
      case Err(e) => Settled(Err(e))
      case Ok(attributes) => BeginFind(conn, Email(op), Replace(attributes))
    else if op.opType == "TEST_CONNECTION" then Counting(conn, conn.baseDn, "(objectClass=*)", false)
    else if op.opType == "SYNC_USERS" then
      match Attributes(env, op)
      case Err(e) => Settled(Err(e))
      case Ok(params) =>
        match UserBase(params, op)
        case None => Settled(Err(LdapError("SYNC_USERS missing base DN")))
        case Some(base) => Counting(conn, base, UserFilter(params), true)
    else Settled(Err(LdapError("unknown op type: " + op.opType)))
  }

  function BeginFind(conn: Conn, email: Result<string>, goal: Goal): Task {
    match email case Err(e) => Settled(Err(e)) case Ok(address) => Finding(conn, address, goal)
  }

  /** `route_and_process` up to its first request. */
  function Start(env: Env, conns: Conns, op: Operation): Task {
    match op.forestContextJson
    case None => Begin(env, env.home, op)
    case Some(json) =>
      match env.parseForest(json)
      case Err(e) => Settled(Err(LdapError("bad forestContextJson: " + e)))
      case Ok(ctx) =>
        if ctx.forestId in conns then Begin(env, conns[ctx.forestId], op)
        else NextHost(ctx, Hosts(ctx), NoServers(ctx))
  }

  function NextHost(ctx: ForestContext, hosts: seq<string>, failure: string): Task {
    if hosts == [] then Settled(Err(failure)) else Dialing(ctx, hosts)
  }

  /** Answers one request and moves to the next await. */
  function TaskStep(env: Env, op: Operation, w: Work): Work {
    var d := env.dialer;
    var s := d.server;
    match w.task
    case Dialing(ctx, hosts) =>
      if hosts == [] then w.(task := Settled(Err(Unreachable(ctx))))
      else
        var conn := ConnFor(d, ctx, BaseDn(ctx, op.targetBaseDn), hosts[0]);
        var (net, error) := Submit(s, w.net, conn, op.opType, Connect(Url(ctx, hosts[0])));
        var login :=
          if error.Some? then Err(LdapError("connect " + Url(ctx, hosts[0]) + ": " + error.value))
          else Credentials(d, ctx, hosts[0]);
        var task := if login.Err? then NextHost(ctx, hosts[1..], login.error) else Binding(ctx, hosts, login.value);
        w.(net := net, task := task)
    case Binding(ctx, hosts, login) =>
      if hosts == [] then w.(task := Settled(Err(Unreachable(ctx))))
      else
        var conn := ConnFor(d, ctx, BaseDn(ctx, op.targetBaseDn), hosts[0]);
        var (net, error) := Submit(s, w.net, conn, op.opType, Bind(login));
        if error.Some? then w.(net := net, task := NextHost(ctx, hosts[1..], LdapError("forest bind: " + error.value)))
        else Work(net, w.conns[ctx.forestId := conn], Begin(env, conn, op))
    case Adding(conn, dn, attrs, password) =>
      var (net, error) := Submit(s, w.net, conn, op.opType, Add(dn, attrs));
      w.(net := net, task :=
        if error.Some? then Settled(Err(LdapError("add " + dn + ": " + error.value)))
        else if conn.passwordWriteback && password.Some? then WritingPassword(conn, dn, password.value)
        else Settled(Ok(DnDetail(dn))))
    case WritingPassword(conn, dn, password) =>
      var (net, error) := Submit(s, w.net, conn, op.opType, SetPassword(dn, Utf16.PasswordBytes(password)));
      w.(net := net, task :=
        if error.Some? then Settled(Err(LdapError("password writeback " + dn + ": " + error.value)))
        else Settled(Ok(DnDetail(dn))))
    case Finding(conn, email, goal) =>
      var found := s.search(|w.net.wire|, DirOf(w.net, conn.dc), conn.baseDn, EmailFilter(email));
      var (net, error) := Submit(s, w.net, conn, op.opType, Search(conn.baseDn, EmailFilter(email)));
      w.(net := net, task :=
        if error.Some? then Settled(Err(LdapError("search " + email + ": " + error.value)))
        else if found == [] then Settled(Err(LdapError("no AD account found for " + email)))
        else if GoalChanges(goal) == map[] then Settled(Ok(GoalDetail(goal, found[0])))
        else Modifying(conn, found[0], goal))
    case Modifying(conn, dn, goal) =>
      var (net, error) := Submit(s, w.net, conn, op.opType, Modify(dn, GoalChanges(goal)));
      w.(net := net, task :=
        Settled(if error.Some? then Err(GoalError(goal, dn, error.value)) else Ok(GoalDetail(goal, dn))))
    case Counting(conn, base, filter, users) =>
      var n := |s.search(|w.net.wire|, DirOf(w.net, conn.dc), base, filter)|;
      var (net, error) := Submit(s, w.net, conn, op.opType, Search(base, filter));
      w.(net := net, task :=
        Settled(if error.Some? then Err(LdapError("search " + base + ": " + error.value))
                else Ok(if users then UsersDetail(n) else ProbeDetail(n))))
    case Settled(_) => w
  }

  /** The connection and the request an operation is waiting for. */
  function Pending(env: Env, op: Operation, task: Task): Option<(Conn, Request)> {
    match task
    case Dialing(ctx, hosts) =>
      if hosts == [] then None
      else Some((ConnFor(env.dialer, ctx, BaseDn(ctx, op.targetBaseDn), hosts[0]), Connect(Url(ctx, hosts[0]))))
    case Binding(ctx, hosts, login) =>
      if hosts == [] then None
      else Some((ConnFor(env.dialer, ctx, BaseDn(ctx, op.targetBaseDn), hosts[0]), Bind(login)))
    case Adding(conn, dn, attrs, _) => Some((conn, Add(dn, attrs)))
    case WritingPassword(conn, dn, plaintext) => Some((conn, SetPassword(dn, Utf16.PasswordBytes(plaintext))))
    case Finding(conn, email, _) => Some((conn, Search(conn.baseDn, EmailFilter(email))))
    case Modifying(conn, dn, goal) => Some((conn, Modify(dn, GoalChanges(goal))))
    case Counting(conn, base, filter, _) => Some((conn, Search(base, filter)))
    case Settled(_) => None
  }

  /** A step sends the pending request, in the name of its operation, and nothing else. */
  lemma StepSends(env: Env, op: Operation, w: Work)
    ensures TaskStep(env, op, w).net ==
              match Pending(env, op, w.task)
              case None => w.net
              case Some((conn, request)) => Submit(env.dialer.server, w.net, conn, op.opType, request).0
  {
  }

  /** An upper bound on the requests still to come. */
  function Rank(task: Task): nat {
    match task
    case Dialing(_, hosts) => 2 * |hosts| + 6
    case Binding(_, hosts, _) => 2 * |hosts| + 5
    case Adding(_, _, _, _) => 4
    case WritingPassword(_, _, _) => 3
    case Finding(_, _, _) => 4
    case Modifying(_, _, _) => 3
    case Counting(_, _, _, _) => 3
    case Settled(_) => 0
  }

  lemma BeginRank(env: Env, conn: Conn, op: Operation)
    ensures Rank(Begin(env, conn, op)) <= 4
  {
  }

  /** `process` starts with a request on the connection it was given, if with any. */
  lemma BeginShape(env: Env, conn: Conn, op: Operation)
    ensures var task := Begin(env, conn, op);
            && (task.Adding? || task.Finding? || task.Counting? || task.Settled?)
            && (!task.Settled? ==> task.conn == conn)
  {
  }

  lemma TaskStepRanks(env: Env, op: Operation, w: Work)
    requires !w.task.Settled?
    ensures Rank(TaskStep(env, op, w).task) < Rank(w.task)
  {
    if w.task.Binding? && w.task.hosts != [] {
      BeginRank(env, ConnFor(env.dialer, w.task.ctx, BaseDn(w.task.ctx, op.targetBaseDn), w.task.hosts[0]), op);
    }
  }

  /** The operation carried through to its result. */
  function Drive(env: Env, op: Operation, w: Work): (r: Work)
    ensures r.task.Settled?
    decreases Rank(w.task)
  {
    if w.task.Settled? then w
    else
      TaskStepRanks(env, op, w);
      Drive(env, op, TaskStep(env, op, w))
  }

  // --- the machine does what the source does ----------------------------------------------------

  function Outcome(r: (Net, Conns, Result<Json>)): Work { Work(r.0, r.1, Settled(r.2)) }

  /** The outcome of requests that leave the cache alone. */
  function Carried<A>(conns: Conns, r: (Net, Result<A>), detail: A -> Json): Work {
    Work(r.0, conns, Settled(MapOk(r.1, detail)))
  }

  lemma DriveLast(env: Env, op: Operation, w: Work)
    requires !w.task.Settled? && TaskStep(env, op, w).task.Settled?
    ensures Drive(env, op, w) == TaskStep(env, op, w)
  {
  }

  lemma DriveNext(env: Env, op: Operation, w: Work)
    requires !w.task.Settled?
    ensures Drive(env, op, w) == Drive(env, op, TaskStep(env, op, w))
  {
  }

  lemma DriveCreate(
      env: Env, op: Operation, net: Net, conns: Conns, conn: Conn, attributes: map<string, string>,
      password: Option<string>)
    requires DN in attributes
    ensures Drive(env, op, Work(net, conns, Adding(conn, attributes[DN], AccountAttrs(attributes), password)))
         == Carried(
              conns, CreateAccount(env.dialer.server, net, conn, op.opType, attributes, password), d => DnDetail(d))
  {
    var w := Work(net, conns, Adding(conn, attributes[DN], AccountAttrs(attributes), password));
    var w1 := TaskStep(env, op, w);
    DriveNext(env, op, w);
    if w1.task.WritingPassword? {
      DriveLast(env, op, w1);
    }
  }

  lemma DriveModify(env: Env, op: Operation, net: Net, conns: Conns, conn: Conn, dn: string, goal: Goal)
    ensures var (net', error) := Submit(env.dialer.server, net, conn, op.opType, Modify(dn, GoalChanges(goal)));
            Drive(env, op, Work(net, conns, Modifying(conn, dn, goal)))
            == Work(net', conns, Settled(if error.Some? then Err(GoalError(goal, dn, error.value))
                                         else Ok(GoalDetail(goal, dn))))
  {
    DriveLast(env, op, Work(net, conns, Modifying(conn, dn, goal)));
  }

  lemma DriveSwitch(
      env: Env, op: Operation, net: Net, conns: Conns, conn: Conn, email: string, uac: string, state: string)
    ensures Drive(env, op, Work(net, conns, Finding(conn, email, SwitchTo(uac, state))))
         == Carried(conns, SetUac(env.dialer.server, net, conn, op.opType, email, uac), d => StateDetail(d, state))
  {
    var w := Work(net, conns, Finding(conn, email, SwitchTo(uac, state)));
    var w1 := TaskStep(env, op, w);
    DriveNext(env, op, w);
    assert UAC in map[UAC := {uac}];
    if w1.task.Modifying? {
      DriveModify(env, op, w1.net, conns, conn, w1.task.dn, w1.task.goal);
    }
  }

  lemma DriveReplace(
      env: Env, op: Operation, net: Net, conns: Conns, conn: Conn, email: string, attributes: map<string, string>)
    ensures Drive(env, op, Work(net, conns, Finding(conn, email, Replace(attributes))))
         == Carried(
              conns, UpdateAttributes(env.dialer.server, net, conn, op.opType, email, attributes),
              d => UpdateDetail(d, attributes))
  {
    var w := Work(net, conns, Finding(conn, email, Replace(attributes)));
    var w1 := TaskStep(env, op, w);
    DriveNext(env, op, w);
    if w1.task.Modifying? {
      DriveModify(env, op, w1.net, conns, conn, w1.task.dn, w1.task.goal);
    }
  }

  lemma DriveCount(
      env: Env, op: Operation, net: Net, conns: Conns, conn: Conn, base: string, filter: string, users: bool)
    ensures Drive(env, op, Work(net, conns, Counting(conn, base, filter, users)))
         == Carried(conns, CountEntries(env.dialer.server, net, conn, op.opType, base, filter),
                    k => if users then UsersDetail(k) else ProbeDetail(k))
  {
    DriveLast(env, op, Work(net, conns, Counting(conn, base, filter, users)));
  }

  /** Driving the requests of one connection amounts to `process`. */
  lemma DriveIsProcess(env: Env, op: Operation, net: Net, conns: Conns, conn: Conn)
    ensures Drive(env, op, Work(net, conns, Begin(env, conn, op)))
         == Work(Process(env, net, conn, op).0, conns, Settled(Process(env, net, conn, op).1))
  {
    var task := Begin(env, conn, op);
    if task.Settled? {
    } else if op.opType == "CREATE_ACCOUNT" {
      DriveCreate(env, op, net, conns, conn, Attributes(env, op).value, task.password);
    } else if op.opType == "ENABLE_ACCOUNT" {
      DriveSwitch(env, op, net, conns, conn, task.email, UAC_ENABLED, "enabled");
    } else if op.opType == "DISABLE_ACCOUNT" {
      DriveSwitch(env, op, net, conns, conn, task.email, UAC_DISABLED, "disabled");
    } else if op.opType == "UPDATE_ATTRIBUTES" {
      DriveReplace(env, op, net, conns, conn, task.email, Attributes(env, op).value);
    } else {
      DriveCount(env, op, net, conns, conn, task.base, task.filter, task.users);
    }
  }

  /** Driving the dialling of hosts, then the operation, amounts to the loop of `connect_forest`. */
  lemma {:induction false} DriveIsDial(
      env: Env, op: Operation, net: Net, conns: Conns, ctx: ForestContext, hosts: seq<string>, failure: string)
    ensures var dial := DialerOf(env.dialer, ctx, BaseDn(ctx, op.targetBaseDn), op.opType);
            var (dialled, bound) := DialHosts(dial, net, hosts, failure);
            Drive(env, op, Work(net, conns, NextHost(ctx, hosts, failure))) ==
              match bound
              case Err(e) => Work(dialled, conns, Settled(Err(e)))
              case Ok(conn) => Drive(env, op, Work(dialled, conns[ctx.forestId := conn], Begin(env, conn, op)))
    decreases |hosts|
  {
    if hosts != [] {
      var w := Work(net, conns, Dialing(ctx, hosts));
      TaskStepRanks(env, op, w);
      var w1 := TaskStep(env, op, w);
      var base := BaseDn(ctx, op.targetBaseDn);
      var (net', bound) := DialHost(env.dialer, net, ctx, base, op.opType, hosts[0]);
      if w1.task.Binding? {
        TaskStepRanks(env, op, w1);
        var w2 := TaskStep(env, op, w1);
        assert Drive(env, op, w) == Drive(env, op, w2);
        if bound.Err? {
          assert w2 == Work(net', conns, NextHost(ctx, hosts[1..], bound.error));
          DriveIsDial(env, op, net', conns, ctx, hosts[1..], bound.error);
        }
      } else {
        assert bound.Err? && w1 == Work(net', conns, NextHost(ctx, hosts[1..], bound.error));
        DriveIsDial(env, op, net', conns, ctx, hosts[1..], bound.error);
      }
    }
  }

  /** The step machine refines `route_and_process`: same directories, same cache, same result. */
  lemma DriveIsRoute(env: Env, op: Operation, net: Net, conns: Conns)
    ensures Drive(env, op, Work(net, conns, Start(env, conns, op))) == Outcome(RouteAndProcess(env, net, conns, op))
  {
    match op.forestContextJson
    case None => DriveIsProcess(env, op, net, conns, env.home);
    case Some(json) =>
      match env.parseForest(json)
      case Err(_) =>
      case Ok(ctx) =>
        if ctx.forestId in conns {
          DriveIsProcess(env, op, net, conns, conns[ctx.forestId]);
        } else if Hosts(ctx) != [] {
          assert NextHost(ctx, Hosts(ctx), NoServers(ctx)) == NextHost(ctx, Hosts(ctx), Unreachable(ctx));
          DriveIsDial(env, op, net, conns, ctx, Hosts(ctx), Unreachable(ctx));
          var (dialled, bound) := ConnectForest(env.dialer, net, ctx, op.targetBaseDn, op.opType);
          if bound.Ok? {
            DriveIsProcess(env, op, dialled, conns[ctx.forestId := bound.value], bound.value);
          }
        }
  }
}
