/** The connections of a pass as the wire shows them: what is dialled, how it is bound, and what it may carry. */
module AdChannels {
  import opened Text
  import opened Directory
  import opened Forest
  import opened AdMode
  import opened AdMachine
  import opened AdSteps
  import opened AdCache

  // --- one connection ---------------------------------------------------------------------------

  /** Connection to a host of a forest under a URL: LDAPS on port 636 or LDAP on port 389, as its context says. */
  predicate Reaches(d: Dialer, ctx: ForestContext, target: Option<string>, host: string, url: string, conn: Conn) {
    var kerberos := ctx.useGmsa || EqIgnoreAsciiCase(ctx.authType, "SASL_KERBEROS");
    && (if ctx.servers != [] then host in ctx.servers else ctx.globalCatalogHost == Some(host))
    && url == (if ctx.useTls then "ldaps://" + host + ":636" else "ldap://" + host + ":389")
    && conn.dc == d.server.locate(url)
    && conn.baseDn == (if target.Some? && target.value != "" then target.value else ctx.rootDn)
    && conn.tls == ctx.useTls && conn.kerberos == kerberos && conn.passwordWriteback == (ctx.useTls || kerberos)
  }

  /** How it is bound: as the agent itself by Kerberos, or as the forest's service account. */
  predicate BoundAs(d: Dialer, ctx: ForestContext, host: string, login: Login) {
    match login
    case Gssapi(name) =>
      && (ctx.useGmsa || EqIgnoreAsciiCase(ctx.authType, "SASL_KERBEROS"))
      && ('/' !in host && ':' !in host ==> name == host)
    case Simple(principal, secret) =>
      && !ctx.useGmsa && !EqIgnoreAsciiCase(ctx.authType, "SASL_KERBEROS")
      && ctx.serviceAccount == Some(principal) && ctx.serviceAccountPassword.Some?
      && d.decrypt(ctx.serviceAccountPassword.value) == Ok(secret)
  }

  lemma ConnReaches(d: Dialer, ctx: ForestContext, target: Option<string>, host: string)
    requires host in Hosts(ctx)
    ensures Reaches(d, ctx, target, host, Url(ctx, host), ConnFor(d, ctx, BaseDn(ctx, target), host))
  {
  }

  lemma FqdnIsHost(ctx: ForestContext, host: string)
    requires '/' !in host && ':' !in host
    ensures Fqdn(Url(ctx, host)) == host
  {
    var front, port := if ctx.useTls then "ldaps:/" else "ldap:/", if ctx.useTls then "636" else "389";
    assert Url(ctx, host) == front + ['/'] + (host + [':'] + port);
    AfterLastOf(front, host + [':'] + port, '/');
    BeforeFirstOf(host, port, ':');
  }

  lemma CredentialsBind(d: Dialer, ctx: ForestContext, host: string)
    requires Credentials(d, ctx, host).Ok?
    ensures BoundAs(d, ctx, host, Credentials(d, ctx, host).value)
  {
    if '/' !in host && ':' !in host {
      FqdnIsHost(ctx, host);
    }
  }

  /** A request that only reads succeeds exactly when it is not refused. */
  lemma SubmitReads(s: Server, net: Net, conn: Conn, opType: string, request: Request)
    requires !Writes(request)
    ensures var (net', error) := Submit(s, net, conn, opType, request);
            && net'.dcs == net.dcs && |net'.wire| == |net.wire| + 1
            && (error.None? <==> s.refuses(|net.wire|, conn.dc, DirOf(net, conn.dc), request).None?)
  {
  }

  lemma CredentialsGiven(d: Dialer, ctx: ForestContext, host: string)
    ensures Credentials(d, ctx, host).Ok?
        <==> if ctx.useGmsa || EqIgnoreAsciiCase(ctx.authType, "SASL_KERBEROS") then d.kerberosBuilt
             else ctx.serviceAccount.Some? && ctx.serviceAccountPassword.Some?
                  && d.decrypt(ctx.serviceAccountPassword.value).Ok?
  {
  }

  /** A host takes the connection, there are credentials, and it takes them. */
  predicate HostTakes(d: Dialer, net: Net, ctx: ForestContext, host: string, url: string, conn: Conn) {
    var dir, login := DirOf(net, conn.dc), Credentials(d, ctx, host);
    && d.server.refuses(|net.wire|, conn.dc, dir, Connect(url)).None?
    && login.Ok? && d.server.refuses(|net.wire| + 1, conn.dc, dir, Bind(login.value)).None?
  }

  lemma DialTakes(d: Dialer, net: Net, ctx: ForestContext, base: string, opType: string, host: string)
    ensures DialHost(d, net, ctx, base, opType, host).1 == Ok(ConnFor(d, ctx, base, host))
        <==> HostTakes(d, net, ctx, host, Url(ctx, host), ConnFor(d, ctx, base, host))
  {
    var url, conn := Url(ctx, host), ConnFor(d, ctx, base, host);
    SubmitReads(d.server, net, conn, opType, Connect(url));
    var (net', error) := Submit(d.server, net, conn, opType, Connect(url));
    if error.None? && Credentials(d, ctx, host).Ok? {
      SubmitReads(d.server, net', conn, opType, Bind(Credentials(d, ctx, host).value));
    }
  }

  /** A host is bound exactly when it takes the connection under its URL and then the login. */
  lemma HostBinds(
      d: Dialer, net: Net, ctx: ForestContext, target: Option<string>, opType: string, host: string, url: string,
      conn: Conn)
    requires Reaches(d, ctx, target, host, url, conn)
    ensures DialHost(d, net, ctx, BaseDn(ctx, target), opType, host).1 == Ok(conn)
        <==> HostTakes(d, net, ctx, host, url, conn)
  {
    assert url == Url(ctx, host) && conn == ConnFor(d, ctx, BaseDn(ctx, target), host);
    DialTakes(d, net, ctx, BaseDn(ctx, target), opType, host);
  }

  /**
   A forest connection reaches one of the forest's own hosts under the URL that its context calls for, searches
   under the operation's base, and allows password writeback exactly when it is dialled with TLS or bound by
   Kerberos.
   */
  lemma ForestConnection(d: Dialer, net: Net, ctx: ForestContext, target: Option<string>, opType: string)
    returns (host: string, url: string)
    requires ConnectForest(d, net, ctx, target, opType).1.Ok?
    ensures Reaches(d, ctx, target, host, url, ConnectForest(d, net, ctx, target, opType).1.value)
  {
    var j := FirstBound(d, net, ctx, target, opType);
    host := Hosts(ctx)[j];
    url := Url(ctx, host);
    ConnReaches(d, ctx, target, host);
  }

  /** The servers of a context are tried in the order given, and the first that binds is the connection. */
  lemma ServersInOrder(d: Dialer, net: Net, ctx: ForestContext, target: Option<string>, opType: string)
    returns (j: nat)
    requires ctx.servers != []
    ensures var dial := DialerOf(d, ctx, BaseDn(ctx, target), opType);
            var bound := ConnectForest(d, net, ctx, target, opType).1;
            && j <= |ctx.servers|
            && (forall i :: 0 <= i < j ==> Attempt(dial, net, ctx.servers, i).Err?)
            && (bound.Ok? <==> j < |ctx.servers|)
            && (bound.Ok? ==> bound == Attempt(dial, net, ctx.servers, j))
  {
    j := FailoverInOrder(DialerOf(d, ctx, BaseDn(ctx, target), opType), net, Hosts(ctx), Unreachable(ctx));
  }

  // --- every connection of a pass ---------------------------------------------------------------

  /** A connection of this forest: dialled by request `u - 1` and bound by request `u`, as operation `j` asks. */
  predicate OpenedAt(
      env: Env, ops: seq<Operation>, wire: seq<Sent>, forest: string, conn: Conn, u: nat, j: nat, host: string)
  {
    && 0 < u < |wire| && wire[u - 1].request.Connect? && wire[u].request.Bind?
    && wire[u - 1].accepted && wire[u].accepted && wire[u - 1].conn == conn && wire[u].conn == conn
    && j < |ops| && Names(env, ops[j], forest)
    && var ctx := ForestOf(env, ops[j]).value;
       && Reaches(env.dialer, ctx, ops[j].targetBaseDn, host, wire[u - 1].request.url, conn)
       && BoundAs(env.dialer, ctx, host, wire[u].request.login)
  }

  ghost predicate Opened(env: Env, ops: seq<Operation>, wire: seq<Sent>, forest: string, conn: Conn) {
    exists u, j, host :: OpenedAt(env, ops, wire, forest, conn, u, j, host)
  }

  lemma OpenedLonger(env: Env, ops: seq<Operation>, wire: seq<Sent>, more: seq<Sent>, forest: string, conn: Conn)
    requires Opened(env, ops, wire, forest, conn) && wire <= more
    ensures Opened(env, ops, more, forest, conn)
  {
    var u: nat, j: nat, host :| OpenedAt(env, ops, wire, forest, conn, u, j, host);
    assert more[u - 1] == wire[u - 1] && more[u] == wire[u];
    assert OpenedAt(env, ops, more, forest, conn, u, j, host);
  }

  /** A connection that an operation may use: the default one, or an opened one of its own forest. */
  ghost predicate Usable(env: Env, ops: seq<Operation>, op: Operation, wire: seq<Sent>, conn: Conn) {
    if op.forestContextJson.None? then conn == env.home
    else ForestOf(env, op).Some? && Opened(env, ops, wire, ForestOf(env, op).value.forestId, conn)
  }

  lemma UsableLonger(env: Env, ops: seq<Operation>, op: Operation, wire: seq<Sent>, more: seq<Sent>, conn: Conn)
    requires Usable(env, ops, op, wire, conn) && wire <= more
    ensures Usable(env, ops, op, more, conn)
  {
    if op.forestContextJson.Some? {
      OpenedLonger(env, ops, wire, more, ForestOf(env, op).value.forestId, conn);
    }
  }

  /** The last request dialled this connection. */
  predicate JustDialled(wire: seq<Sent>, conn: Conn, url: string) {
    wire != [] && var last := wire[|wire| - 1]; last.accepted && last.conn == conn && last.request == Connect(url)
  }

  predicate DialsOwn(env: Env, op: Operation, ctx: ForestContext, hosts: seq<string>) {
    ForestOf(env, op) == Some(ctx) && forall i :: 0 <= i < |hosts| ==> hosts[i] in Hosts(ctx)
  }

  ghost predicate Ready(env: Env, ops: seq<Operation>, op: Operation, wire: seq<Sent>, task: Task) {
    match task
    case Dialing(ctx, hosts) => DialsOwn(env, op, ctx, hosts)
    case Binding(ctx, hosts, login) =>
      && DialsOwn(env, op, ctx, hosts) && hosts != [] && Credentials(env.dialer, ctx, hosts[0]) == Ok(login)
      && JustDialled(wire, ConnFor(env.dialer, ctx, BaseDn(ctx, op.targetBaseDn), hosts[0]), Url(ctx, hosts[0]))
    case WritingPassword(conn, _, _) => conn.passwordWriteback && Usable(env, ops, op, wire, conn)
    case Settled(_) => true
    case _ => Usable(env, ops, op, wire, task.conn)
  }

  ghost predicate ConnsOpened(env: Env, ops: seq<Operation>, wire: seq<Sent>, conns: Conns) {
    forall f :: f in conns ==> Opened(env, ops, wire, f, conns[f])
  }

  lemma StepExtends(env: Env, op: Operation, w: Work)
    ensures w.net.wire <= TaskStep(env, op, w).net.wire
  {
    StepSends(env, op, w);
  }

  lemma StillOpened(env: Env, ops: seq<Operation>, wire: seq<Sent>, more: seq<Sent>, conns: Conns)
    requires ConnsOpened(env, ops, wire, conns) && wire <= more
    ensures ConnsOpened(env, ops, more, conns)
  {
    forall f | f in conns ensures Opened(env, ops, more, f, conns[f]) {
      OpenedLonger(env, ops, wire, more, f, conns[f]);
    }
  }

  lemma ReadyDial(env: Env, ops: seq<Operation>, op: Operation, w: Work)
    requires w.task.Dialing? && Ready(env, ops, op, w.net.wire, w.task)
    ensures var w' := TaskStep(env, op, w); w'.conns == w.conns && Ready(env, ops, op, w'.net.wire, w'.task)
  {
  }

  /** An accepted bind opens the connection that was just dialled. */
  lemma BindOpens(env: Env, ops: seq<Operation>, j: nat, net: Net, ctx: ForestContext, host: string, login: Login)
    requires j < |ops| && ForestOf(env, ops[j]) == Some(ctx) && host in Hosts(ctx)
    requires Credentials(env.dialer, ctx, host) == Ok(login)
    requires JustDialled(net.wire, ConnFor(env.dialer, ctx, BaseDn(ctx, ops[j].targetBaseDn), host), Url(ctx, host))
    ensures var conn := ConnFor(env.dialer, ctx, BaseDn(ctx, ops[j].targetBaseDn), host);
            var (net', error) := Submit(env.dialer.server, net, conn, ops[j].opType, Bind(login));
            error.None? ==> Opened(env, ops, net'.wire, ctx.forestId, conn)
  {
    var conn := ConnFor(env.dialer, ctx, BaseDn(ctx, ops[j].targetBaseDn), host);
    var (net', error) := Submit(env.dialer.server, net, conn, ops[j].opType, Bind(login));
    ConnReaches(env.dialer, ctx, ops[j].targetBaseDn, host);
    CredentialsBind(env.dialer, ctx, host);
    if error.None? {
      assert net'.wire[..|net.wire|] == net.wire;
      assert OpenedAt(env, ops, net'.wire, ctx.forestId, conn, |net.wire|, j, host);
    }
  }

  /** What a bind leads to: the next host, or the first request of the operation over the new connection. */
  lemma BindShape(env: Env, op: Operation, w: Work)
    requires w.task.Binding? && w.task.hosts != []
    ensures var conn := ConnFor(env.dialer, w.task.ctx, BaseDn(w.task.ctx, op.targetBaseDn), w.task.hosts[0]);
            var (net', error) := Submit(env.dialer.server, w.net, conn, op.opType, Bind(w.task.login));
            var w' := TaskStep(env, op, w);
            && w'.net == net'
            && (error.Some? ==>
                 w'.conns == w.conns && (w'.task.Settled? || w'.task == Dialing(w.task.ctx, w.task.hosts[1..])))
            && (error.None? ==> w'.conns == w.conns[w.task.ctx.forestId := conn] && On(w'.task, conn))
  {
    BeginShape(env, ConnFor(env.dialer, w.task.ctx, BaseDn(w.task.ctx, op.targetBaseDn), w.task.hosts[0]), op);
  }

  /** The operation is over, or waits for a request on this connection. */
  predicate On(task: Task, conn: Conn) {
    task.Settled? || ((task.Adding? || task.Finding? || task.Counting?) && task.conn == conn)
  }

  lemma ReadyOn(
      env: Env, ops: seq<Operation>, op: Operation, wire: seq<Sent>, conns: Conns, task: Task, forest: string,
      conn: Conn)
    requires ConnsOpened(env, ops, wire, conns) && Opened(env, ops, wire, forest, conn)
    requires Names(env, op, forest) && On(task, conn)
    ensures Ready(env, ops, op, wire, task) && ConnsOpened(env, ops, wire, conns[forest := conn])
  {
  }

  lemma ReadyBind(env: Env, ops: seq<Operation>, j: nat, w: Work)
    requires j < |ops| && w.task.Binding? && Ready(env, ops, ops[j], w.net.wire, w.task)
    requires ConnsOpened(env, ops, w.net.wire, w.conns)
    ensures var w' := TaskStep(env, ops[j], w);
            Ready(env, ops, ops[j], w'.net.wire, w'.task) && ConnsOpened(env, ops, w'.net.wire, w'.conns)
  {
    var ctx, host, w' := w.task.ctx, w.task.hosts[0], TaskStep(env, ops[j], w);
    var conn := ConnFor(env.dialer, ctx, BaseDn(ctx, ops[j].targetBaseDn), host);
    BindOpens(env, ops, j, w.net, ctx, host, w.task.login);
    StepExtends(env, ops[j], w);
    StillOpened(env, ops, w.net.wire, w'.net.wire, w.conns);
    BindShape(env, ops[j], w);
    if Submit(env.dialer.server, w.net, conn, ops[j].opType, Bind(w.task.login)).1.None? {
      ReadyOn(env, ops, ops[j], w'.net.wire, w.conns, w'.task, ctx.forestId, conn);
    }
  }

  /** After a request on an open connection the operation is over, or goes on over the same connection. */
  lemma SameConn(env: Env, op: Operation, w: Work)
    requires !w.task.Dialing? && !w.task.Binding? && !w.task.Settled?
    ensures var w' := TaskStep(env, op, w);
            && w'.conns == w.conns
            && (!w'.task.Settled? ==>
                 && !w'.task.Dialing? && !w'.task.Binding? && w'.task.conn == w.task.conn
                 && (w'.task.WritingPassword? ==> w'.task.conn.passwordWriteback))
  {
  }

  lemma ReadySend(env: Env, ops: seq<Operation>, op: Operation, w: Work)
    requires !w.task.Dialing? && !w.task.Binding? && !w.task.Settled?
    requires Ready(env, ops, op, w.net.wire, w.task)
    ensures var w' := TaskStep(env, op, w); w'.conns == w.conns && Ready(env, ops, op, w'.net.wire, w'.task)
  {
    StepExtends(env, op, w);
    SameConn(env, op, w);
    UsableLonger(env, ops, op, w.net.wire, TaskStep(env, op, w).net.wire, w.task.conn);
  }

  lemma StepReady(env: Env, ops: seq<Operation>, j: nat, w: Work)
    requires j < |ops| && Ready(env, ops, ops[j], w.net.wire, w.task) && ConnsOpened(env, ops, w.net.wire, w.conns)
    ensures var w' := TaskStep(env, ops[j], w);
            Ready(env, ops, ops[j], w'.net.wire, w'.task) && ConnsOpened(env, ops, w'.net.wire, w'.conns)
  {
    if w.task.Binding? {
      ReadyBind(env, ops, j, w);
    } else if !w.task.Settled? {
      if w.task.Dialing? {
        ReadyDial(env, ops, ops[j], w);
      } else {
        ReadySend(env, ops, ops[j], w);
      }
      StepExtends(env, ops[j], w);
      StillOpened(env, ops, w.net.wire, TaskStep(env, ops[j], w).net.wire, w.conns);
    }
  }

  lemma StartReady(env: Env, ops: seq<Operation>, j: nat, wire: seq<Sent>, conns: Conns)
    requires j < |ops| && ConnsOpened(env, ops, wire, conns)
    ensures Ready(env, ops, ops[j], wire, Start(env, conns, ops[j]))
  {
    BeginShape(env, env.home, ops[j]);
    var ctx := ForestOf(env, ops[j]);
    if ctx.Some? && ctx.value.forestId in conns {
      BeginShape(env, conns[ctx.value.forestId], ops[j]);
    }
  }

  ghost predicate ReadyMachine(env: Env, ops: seq<Operation>, m: Machine) {
    && ConnsOpened(env, ops, m.pass.net.wire, m.pass.conns)
    && (m.phase.Working? && m.phase.i < |ops| ==> Ready(env, ops, ops[m.phase.i], m.pass.net.wire, m.phase.task))
  }

  lemma MachineStepReady(env: Env, ops: seq<Operation>, m: Machine)
    requires ReadyMachine(env, ops, m)
    ensures ReadyMachine(env, ops, Step(env, ops, m))
  {
    var i := m.phase.i;
    if m.phase.Next? && i < |ops| {
      StartReady(env, ops, i, m.pass.net.wire, m.pass.conns);
    } else if m.phase.Working? && i < |ops| {
      StepReady(env, ops, i, Work(m.pass.net, m.pass.conns, m.phase.task));
    }
  }

  lemma ReachReady(env: Env, start: Pass, ops: seq<Operation>, k: nat)
    requires start.conns == map[]
    ensures ReadyMachine(env, ops, Reach(env, start, ops, k))
  {
    var inv := m => ReadyMachine(env, ops, m);
    forall m | inv(m) ensures inv(Step(env, ops, m)) {
      MachineStepReady(env, ops, m);
    }
    Invariant(StepOf(env, ops), inv, Machine(start, Next(0)), k);
  }

  /** What step `k` of a pass sends: nothing, or one request in the name of the operation at hand. */
  lemma StepRequest(env: Env, start: Pass, ops: seq<Operation>, k: nat) returns (sent: seq<Sent>)
    requires start.conns == map[]
    ensures Reach(env, start, ops, k + 1).pass.net.wire == Reach(env, start, ops, k).pass.net.wire + sent
    ensures var m := Reach(env, start, ops, k);
            sent != [] ==>
              && |sent| == 1 && m.phase.Working? && m.phase.i < |ops|
              && sent[0].opType == ops[m.phase.i].opType
              && Ready(env, ops, ops[m.phase.i], m.pass.net.wire, m.phase.task)
              && Pending(env, ops[m.phase.i], m.phase.task) == Some((sent[0].conn, sent[0].request))
  {
    var m := Reach(env, start, ops, k);
    ReachReady(env, start, ops, k);
    sent := [];
    if m.phase.Working? && m.phase.i < |ops| {
      var op := ops[m.phase.i];
      StepSends(env, op, Work(m.pass.net, m.pass.conns, m.phase.task));
      match Pending(env, op, m.phase.task) {
        case None =>
        case Some((conn, request)) =>
          var accepted := Submit(env.dialer.server, m.pass.net, conn, op.opType, request).1.None?;
          sent := [Sent(op.opType, conn, request, accepted)];
      }
    }
  }

  /**
   Dialling. Every connection request of a pass goes to a host of the context of the operation at hand, under the
   URL that context calls for; every bind follows the accepted request that dialled it, with the login the
   context calls for.
   */
  lemma DialledAsGiven(env: Env, start: Pass, ops: seq<Operation>, k: nat) returns (host: string)
    requires start.conns == map[]
    ensures var m, wire := Reach(env, start, ops, k), Reach(env, start, ops, k + 1).pass.net.wire;
            wire != m.pass.net.wire ==>
              && m.phase.i < |ops| && |wire| == |m.pass.net.wire| + 1 && m.pass.net.wire <= wire
              && var op, last := ops[m.phase.i], wire[|m.pass.net.wire|];
                 match last.request
                 case Connect(url) =>
                   && op.forestContextJson.Some? && env.parseForest(op.forestContextJson.value).Ok?
                   && var ctx := env.parseForest(op.forestContextJson.value).value;
                      Reaches(env.dialer, ctx, op.targetBaseDn, host, url, last.conn)
                 case Bind(login) =>
                   && op.forestContextJson.Some? && env.parseForest(op.forestContextJson.value).Ok?
                   && m.pass.net.wire != []
                   && var ctx := env.parseForest(op.forestContextJson.value).value;
                      var previous := m.pass.net.wire[|m.pass.net.wire| - 1];
                      && previous.accepted && previous.conn == last.conn && previous.request.Connect?
                      && Reaches(env.dialer, ctx, op.targetBaseDn, host, previous.request.url, last.conn)
                      && BoundAs(env.dialer, ctx, host, login)
                 case _ => true
  {
    var m := Reach(env, start, ops, k);
    var sent := StepRequest(env, start, ops, k);
    host := "";
    if sent != [] && (sent[0].request.Connect? || sent[0].request.Bind?) {
      var op, ctx := ops[m.phase.i], m.phase.task.ctx;
      host := m.phase.task.hosts[0];
      ConnReaches(env.dialer, ctx, op.targetBaseDn, host);
      if m.phase.task.Binding? {
        CredentialsBind(env.dialer, ctx, host);
      }
    }
  }

  /**
   Routing. Every other request of an operation goes over a connection it may use: the default one without a
   forest context; with one, a connection that this pass dialled and bound for an operation of the same forest.
   */
  lemma SentWhereAllowed(env: Env, start: Pass, ops: seq<Operation>, k: nat)
    requires start.conns == map[]
    ensures var m, wire := Reach(env, start, ops, k), Reach(env, start, ops, k + 1).pass.net.wire;
            wire != m.pass.net.wire ==>
              && m.phase.i < |ops| && |wire| == |m.pass.net.wire| + 1 && m.pass.net.wire <= wire
              && var op, last := ops[m.phase.i], wire[|m.pass.net.wire|];
                 && (!last.request.Connect? && !last.request.Bind? ==> Usable(env, ops, op, m.pass.net.wire, last.conn))
                 && (last.request.SetPassword? ==> last.conn.passwordWriteback)
  {
    var sent := StepRequest(env, start, ops, k);
  }

  /** Where password writeback is allowed, the connection was dialled with TLS or bound by Kerberos. */
  lemma OpenedConfidential(env: Env, ops: seq<Operation>, wire: seq<Sent>, forest: string, conn: Conn) returns (u: nat)
    requires Opened(env, ops, wire, forest, conn) && conn.passwordWriteback
    ensures 0 < u < |wire| && wire[u - 1].accepted && wire[u].accepted
    ensures wire[u - 1].conn == conn && wire[u].conn == conn && wire[u - 1].request.Connect? && wire[u].request.Bind?
    ensures conn.dc == env.dialer.server.locate(wire[u - 1].request.url)
    ensures "ldaps://" <= wire[u - 1].request.url || wire[u].request.login.Gssapi?
  {
    var n: nat, j: nat, host :| OpenedAt(env, ops, wire, forest, conn, n, j, host);
    u := n;
  }

  /** A password may go over this connection: the default one, or one that request `u` bound. */
  predicate PasswordOver(env: Env, op: Operation, wire: seq<Sent>, conn: Conn, u: nat) {
    && conn.passwordWriteback
    && if op.forestContextJson.None? then conn == env.home
       else
         && 0 < u < |wire| && wire[u - 1].accepted && wire[u].accepted
         && wire[u - 1].conn == conn && wire[u].conn == conn
         && wire[u - 1].request.Connect? && wire[u].request.Bind?
         && conn.dc == env.dialer.server.locate(wire[u - 1].request.url)
         && ("ldaps://" <= wire[u - 1].request.url || wire[u].request.login.Gssapi?)
  }

  lemma PasswordAllowed(
      env: Env, ops: seq<Operation>, op: Operation, wire: seq<Sent>, task: Task, conn: Conn, request: Request)
    returns (u: nat)
    requires Ready(env, ops, op, wire, task) && Pending(env, op, task) == Some((conn, request))
    ensures request.SetPassword? ==> PasswordOver(env, op, wire, conn, u)
  {
    u := 0;
    if task.WritingPassword? && op.forestContextJson.Some? {
      u := OpenedConfidential(env, ops, wire, ForestOf(env, op).value.forestId, task.conn);
    }
  }

  /** The operation that sends a password, and where the connection it goes over was opened. */
  lemma PasswordStep(env: Env, start: Pass, ops: seq<Operation>, k: nat) returns (last: Sent, u: nat)
    requires start.conns == map[]
    ensures var m, wire := Reach(env, start, ops, k), Reach(env, start, ops, k + 1).pass.net.wire;
            wire != m.pass.net.wire ==>
              && wire == m.pass.net.wire + [last] && m.phase.i < |ops|
              && (last.request.SetPassword? ==> PasswordOver(env, ops[m.phase.i], m.pass.net.wire, last.conn, u))
  {
    var m := Reach(env, start, ops, k);
    var sent := StepRequest(env, start, ops, k);
    last, u := Sent("", env.home, Search("", ""), false), 0;
    if sent != [] {
      last := sent[0];
      assert sent == [last];
      u := PasswordAllowed(env, ops, ops[m.phase.i], m.pass.net.wire, m.phase.task, last.conn, last.request);
    }
  }

  /**
   Channel safety. A password is sent only over a connection that allows writeback: the default one for an
   operation without a forest context, and for one with it a connection that this run dialled under an "ldaps" URL
   or bound by Kerberos.
   */
  lemma PasswordsConfidential(env: Env, start: Pass, ops: seq<Operation>, k: nat, t: nat) returns (u: nat)
    requires start.conns == map[]
    requires var wire := Reach(env, start, ops, k + 1).pass.net.wire;
             |Reach(env, start, ops, k).pass.net.wire| <= t < |wire| && wire[t].request.SetPassword?
    ensures var m, wire := Reach(env, start, ops, k), Reach(env, start, ops, k + 1).pass.net.wire;
            && m.phase.i < |ops| && wire[t].conn.passwordWriteback
            && if ops[m.phase.i].forestContextJson.None? then wire[t].conn == env.home
               else
                 && 0 < u < t && wire[u - 1].accepted && wire[u].accepted
                 && wire[u - 1].conn == wire[t].conn && wire[u].conn == wire[t].conn
                 && wire[u - 1].request.Connect? && wire[u].request.Bind?
                 && wire[t].conn.dc == env.dialer.server.locate(wire[u - 1].request.url)
                 && ("ldaps://" <= wire[u - 1].request.url || wire[u].request.login.Gssapi?)
  {
    var last;
    last, u := PasswordStep(env, start, ops, k);
  }
}
