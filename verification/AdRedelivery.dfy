/** An operation that is executed again, after it completed or after it was dropped at any await. */
module AdRedelivery {
  import opened Text
  import opened Directory
  import opened Ldap
  import opened Forest
  import opened AdMode
  import opened AdMachine
  import opened AdSteps
  import opened AdAlike
  import opened AdCache
  import Utf16

  /** A search returns the entries of the directory that match, in some order. */
  ghost predicate SearchesBy(s: Server, matches: (string, string, string, Entry) -> bool) {
    forall t, dir, base, filter, dn ::
      dn in s.search(t, dir, base, filter) <==> dn in dir && matches(base, filter, dn, dir[dn])
  }

  /** At most one entry answers to the operation's email, under any connection. */
  ghost predicate UniqueMatch(s: Server, net: Net, op: Operation) {
    forall conn: Conn, x, y | op.userEmail.Some? ::
      var found := s.search(0, DirOf(net, conn.dc), conn.baseDn, EmailFilter(op.userEmail.value));
      x in found && y in found ==> x == y
  }

  // --- an operation executed twice --------------------------------------------------------------

  lemma SubmitRefused(s: Server, net: Net, conn: Conn, opType: string, request: Request)
    requires Apply(DirOf(net, conn.dc), request).None?
    ensures Submit(s, net, conn, opType, request).1.Some?
    ensures Submit(s, net, conn, opType, request).0.dcs == net.dcs
  {
  }

  /** A CREATE whose entry exists changes nothing. */
  lemma CreateExisting(
      s: Server, net: Net, conn: Conn, opType: string, attributes: map<string, string>, password: Option<string>)
    requires DN in attributes && attributes[DN] in DirOf(net, conn.dc)
    ensures CreateAccount(s, net, conn, opType, attributes, password).0.dcs == net.dcs
  {
    SubmitRefused(s, net, conn, opType, Add(attributes[DN], AccountAttrs(attributes)));
  }

  lemma CreateTwice(
      s: Server, net: Net, conn: Conn, opType: string, attributes: map<string, string>, password: Option<string>)
    requires Steady(s)
    ensures var n1 := CreateAccount(s, net, conn, opType, attributes, password).0;
            Alike(n1, CreateAccount(s, n1, conn, opType, attributes, password).0, {})
  {
    var n1 := CreateAccount(s, net, conn, opType, attributes, password).0;
    if DN in attributes && attributes[DN] in DirOf(n1, conn.dc) {
      CreateExisting(s, n1, conn, opType, attributes, password);
      AlikeRefl(n1, CreateAccount(s, n1, conn, opType, attributes, password).0, {});
    } else {
      assert n1.dcs == net.dcs;
      AlikeRefl(net, n1, {});
      CreateAlike(s, net, n1, {}, conn, opType, attributes, password);
    }
  }

  /** Replacing the same attributes again changes nothing, whether or not it is accepted. */
  lemma ModifyAgain(s: Server, net: Net, conn: Conn, opType: string, dn: string, changes: Attrs)
    requires dn in DirOf(net, conn.dc) && DirOf(net, conn.dc)[dn].attrs + changes == DirOf(net, conn.dc)[dn].attrs
    ensures Alike(net, Submit(s, net, conn, opType, Modify(dn, changes)).0, {})
  {
    var net' := Submit(s, net, conn, opType, Modify(dn, changes)).0;
    SubmitFrame(s, net, conn, opType, Modify(dn, changes));
    forall dc ensures SameBut(DirOf(net, dc), DirOf(net', dc), {}) {
    }
    assert forall dc :: HolesAt({}, dc) == {};
  }

  /** Directories that agree outside one entry agree on the matches outside it. */
  lemma MatchCarries(
      s: Server, matches: (string, string, string, Entry) -> bool,
      d: Dir, d': Dir, base: string, filter: string, dn: string, x: string)
    requires Steady(s) && SearchesBy(s, matches)
    requires forall n :: n != dn ==> (n in d' <==> n in d)
    requires forall n :: n != dn && n in d ==> d'[n] == d[n]
    requires x in s.search(0, d', base, filter)
    ensures x == dn || x in s.search(0, d, base, filter)
  {
  }

  /** After an accepted change to the only match, a second search finds that entry or none. */
  lemma FindAgain(
      s: Server, matches: (string, string, string, Entry) -> bool,
      net: Net, net': Net, conn: Conn, opType: string, op: Operation, dn: string)
    requires Steady(s) && SearchesBy(s, matches) && UniqueMatch(s, net, op) && op.userEmail.Some?
    requires FindDn(s, net, conn, opType, op.userEmail.value).1 == Ok(dn)
    requires forall n :: n != dn ==> (n in DirOf(net', conn.dc) <==> n in DirOf(net, conn.dc))
    requires forall n :: n != dn && n in DirOf(net, conn.dc) ==> DirOf(net', conn.dc)[n] == DirOf(net, conn.dc)[n]
    ensures var again := FindDn(s, net', conn, opType, op.userEmail.value).1; again.Ok? ==> again == Ok(dn)
  {
    var d, d' := DirOf(net, conn.dc), DirOf(net', conn.dc);
    var base, filter := conn.baseDn, EmailFilter(op.userEmail.value);
    var found := s.search(|net.wire|, d, base, filter);
    var found' := s.search(|net'.wire|, d', base, filter);
    assert found == s.search(0, d, base, filter) && found' == s.search(0, d', base, filter);
    if FindDn(s, net', conn, opType, op.userEmail.value).1.Ok? {
      assert found'[0] in found' && found[0] in found;
      MatchCarries(s, matches, d, d', base, filter, dn, found'[0]);
    }
  }

  lemma SetUacTwice(
      s: Server, matches: (string, string, string, Entry) -> bool,
      net: Net, conn: Conn, opType: string, op: Operation, uac: string)
    requires Steady(s) && SearchesBy(s, matches) && UniqueMatch(s, net, op) && op.userEmail.Some?
    ensures var email := op.userEmail.value;
            var n1 := SetUac(s, net, conn, opType, email, uac).0;
            Alike(n1, SetUac(s, n1, conn, opType, email, uac).0, {})
  {
    var email := op.userEmail.value;
    var (m, dn) := FindDn(s, net, conn, opType, email);
    var n1 := SetUac(s, net, conn, opType, email, uac).0;
    if dn.Ok? && Submit(s, m, conn, opType, Modify(dn.value, map[UAC := {uac}])).1.None? {
      SubmitFrame(s, m, conn, opType, Modify(dn.value, map[UAC := {uac}]));
      FindAgain(s, matches, net, n1, conn, opType, op, dn.value);
      var (m1, again) := FindDn(s, n1, conn, opType, email);
      AlikeRefl(n1, m1, {});
      if again.Ok? {
        var e := DirOf(n1, conn.dc)[dn.value];
        assert e.attrs + map[UAC := {uac}] == e.attrs;
        ModifyAgain(s, m1, conn, opType, dn.value, map[UAC := {uac}]);
        AlikeTrans(n1, m1, Submit(s, m1, conn, opType, Modify(dn.value, map[UAC := {uac}])).0, {}, {});
      }
    } else {
      AlikeRefl(net, n1, {});
      SetUacAlike(s, net, n1, {}, conn, opType, email, uac);
    }
  }

  lemma UpdateTwice(
      s: Server, matches: (string, string, string, Entry) -> bool,
      net: Net, conn: Conn, opType: string, op: Operation, attributes: map<string, string>)
    requires Steady(s) && SearchesBy(s, matches) && UniqueMatch(s, net, op) && op.userEmail.Some?
    ensures var email := op.userEmail.value;
            var n1 := UpdateAttributes(s, net, conn, opType, email, attributes).0;
            Alike(n1, UpdateAttributes(s, n1, conn, opType, email, attributes).0, {})
  {
    var email := op.userEmail.value;
    var changes := Changes(attributes);
    var (m, dn) := FindDn(s, net, conn, opType, email);
    var n1 := UpdateAttributes(s, net, conn, opType, email, attributes).0;
    if dn.Ok? && changes != map[] && Submit(s, m, conn, opType, Modify(dn.value, changes)).1.None? {
      SubmitFrame(s, m, conn, opType, Modify(dn.value, changes));
      FindAgain(s, matches, net, n1, conn, opType, op, dn.value);
      var (m1, again) := FindDn(s, n1, conn, opType, email);
      AlikeRefl(n1, m1, {});
      if again.Ok? {
        var e := DirOf(n1, conn.dc)[dn.value];
        assert e.attrs + changes == e.attrs;
        ModifyAgain(s, m1, conn, opType, dn.value, changes);
        AlikeTrans(n1, m1, Submit(s, m1, conn, opType, Modify(dn.value, changes)).0, {}, {});
      }
    } else {
      AlikeRefl(net, n1, {});
      UpdateAlike(s, net, n1, {}, conn, opType, email, attributes);
    }
  }

  lemma ProcessTwiceUnchanged(env: Env, net: Net, conn: Conn, op: Operation)
    requires Steady(env.dialer.server) && Process(env, net, conn, op).0.dcs == net.dcs
    ensures var n1 := Process(env, net, conn, op).0; Alike(n1, Process(env, n1, conn, op).0, {})
  {
    var n1 := Process(env, net, conn, op).0;
    AlikeRefl(net, n1, {});
    ProcessAlike(env, net, n1, {}, conn, op);
  }

  lemma ProcessTwiceCreate(env: Env, net: Net, conn: Conn, op: Operation)
    requires Steady(env.dialer.server) && op.opType == "CREATE_ACCOUNT"
    ensures var n1 := Process(env, net, conn, op).0; Alike(n1, Process(env, n1, conn, op).0, {})
  {
    if Attributes(env, op).Ok? && Password(env, op).Ok? {
      CreateTwice(env.dialer.server, net, conn, op.opType, Attributes(env, op).value, Password(env, op).value);
    } else {
      ProcessTwiceUnchanged(env, net, conn, op);
    }
  }

  lemma ProcessTwiceSwitch(
      env: Env, matches: (string, string, string, Entry) -> bool, net: Net, conn: Conn, op: Operation, uac: string)
    requires Steady(env.dialer.server) && SearchesBy(env.dialer.server, matches)
    requires UniqueMatch(env.dialer.server, net, op)
    requires || (op.opType == "ENABLE_ACCOUNT" && uac == UAC_ENABLED)
             || (op.opType == "DISABLE_ACCOUNT" && uac == UAC_DISABLED)
    ensures var n1 := Process(env, net, conn, op).0; Alike(n1, Process(env, n1, conn, op).0, {})
  {
    if op.userEmail.Some? {
      SetUacTwice(env.dialer.server, matches, net, conn, op.opType, op, uac);
    } else {
      ProcessTwiceUnchanged(env, net, conn, op);
    }
  }

  lemma ProcessTwiceUpdate(
      env: Env, matches: (string, string, string, Entry) -> bool, net: Net, conn: Conn, op: Operation)
    requires Steady(env.dialer.server) && SearchesBy(env.dialer.server, matches)
    requires UniqueMatch(env.dialer.server, net, op) && op.opType == "UPDATE_ATTRIBUTES"
    ensures var n1 := Process(env, net, conn, op).0; Alike(n1, Process(env, n1, conn, op).0, {})
  {
    if op.userEmail.Some? && Attributes(env, op).Ok? {
      UpdateTwice(env.dialer.server, matches, net, conn, op.opType, op, Attributes(env, op).value);
    } else {
      ProcessTwiceUnchanged(env, net, conn, op);
    }
  }

  /** Executing an operation again on the state it left changes no directory. */
  lemma ProcessTwice(env: Env, matches: (string, string, string, Entry) -> bool, net: Net, conn: Conn, op: Operation)
    requires Steady(env.dialer.server) && SearchesBy(env.dialer.server, matches)
    requires UniqueMatch(env.dialer.server, net, op)
    ensures var n1 := Process(env, net, conn, op).0; Alike(n1, Process(env, n1, conn, op).0, {})
  {
    if op.opType == "CREATE_ACCOUNT" {
      ProcessTwiceCreate(env, net, conn, op);
    } else if op.opType == "ENABLE_ACCOUNT" {
      ProcessTwiceSwitch(env, matches, net, conn, op, UAC_ENABLED);
    } else if op.opType == "DISABLE_ACCOUNT" {
      ProcessTwiceSwitch(env, matches, net, conn, op, UAC_DISABLED);
    } else if op.opType == "UPDATE_ATTRIBUTES" {
      ProcessTwiceUpdate(env, matches, net, conn, op);
    } else {
      ProcessTwiceUnchanged(env, net, conn, op);
    }
  }

  lemma RouteTwice(env: Env, matches: (string, string, string, Entry) -> bool, net: Net, conns: Conns, op: Operation)
    requires Steady(env.dialer.server) && SearchesBy(env.dialer.server, matches)
    requires UniqueMatch(env.dialer.server, net, op) && CacheOk(env, conns, op)
    ensures var n1 := RouteAndProcess(env, net, conns, op).0;
            Alike(n1, RouteAndProcess(env, n1, map[], op).0, {})
  {
    var n1 := RouteAndProcess(env, net, conns, op).0;
    if op.forestContextJson.None? {
      ProcessTwice(env, matches, net, env.home, op);
    } else if ForestOf(env, op).None? {
      AlikeRefl(n1, n1, {});
    } else {
      var conn := FreshConn(env, ForestOf(env, op).value, op.targetBaseDn);
      var m, m1 := Dialled(env, net, conns, op), Dialled(env, n1, map[], op);
      RouteByDial(env, net, conns, op);
      RouteByDial(env, n1, map[], op);
      AlikeRefl(n1, m1, {});
      if conn.Ok? {
        ProcessAgain(env, matches, net, m, m1, conn.value, op);
      }
    }
  }

  /** An operation executed on `m`, and again after its forest was dialled anew. */
  lemma ProcessAgain(
      env: Env, matches: (string, string, string, Entry) -> bool, net: Net, m: Net, m1: Net, conn: Conn, op: Operation)
    requires Steady(env.dialer.server) && SearchesBy(env.dialer.server, matches)
    requires UniqueMatch(env.dialer.server, net, op) && m.dcs == net.dcs
    requires m1.dcs == Process(env, m, conn, op).0.dcs
    ensures Alike(Process(env, m, conn, op).0, Process(env, m1, conn, op).0, {})
  {
    var n1 := Process(env, m, conn, op).0;
    assert UniqueMatch(env.dialer.server, m, op) by {
      assert forall dc :: DirOf(m, dc) == DirOf(net, dc);
    }
    ProcessTwice(env, matches, m, conn, op);
    AlikeRefl(n1, m1, {});
    ProcessAlike(env, n1, m1, {}, conn, op);
    AlikeTrans(n1, Process(env, n1, conn, op).0, Process(env, m1, conn, op).0, {}, {});
  }

  // --- the operation that was interrupted -------------------------------------------------------

  /** The connection of a task is the one its operation is routed to. */
  ghost predicate OwnConn(env: Env, op: Operation, conns: Conns, conn: Conn) {
    match op.forestContextJson
    case None => conn == env.home
    case Some(_) =>
      var ctx := ForestOf(env, op);
      ctx.Some? && ctx.value.forestId in conns && conns[ctx.value.forestId] == conn
  }

  /** Until its directory write, an operation has changed nothing; between add and password, its entry has none. */
  ghost predicate Underway(env: Env, op: Operation, net: Net, w: Work) {
    match w.task
    case Settled(_) => true
    case Dialing(ctx, _) => ForestOf(env, op) == Some(ctx) && w.net.dcs == net.dcs
    case Binding(ctx, _, _) => ForestOf(env, op) == Some(ctx) && w.net.dcs == net.dcs
    case Adding(conn, dn, attrs, password) =>
      OwnConn(env, op, w.conns, conn) && w.net.dcs == net.dcs && Begin(env, conn, op) == w.task
    case WritingPassword(conn, dn, plaintext) =>
      && OwnConn(env, op, w.conns, conn)
      && Begin(env, conn, op).Adding? && Begin(env, conn, op).dn == dn
      && dn in DirOf(w.net, conn.dc) && DirOf(w.net, conn.dc)[dn] == Entry(Begin(env, conn, op).attrs, None)
    case Finding(conn, _, _) => OwnConn(env, op, w.conns, conn) && w.net.dcs == net.dcs
    case Modifying(conn, _, _) => OwnConn(env, op, w.conns, conn) && w.net.dcs == net.dcs
    case Counting(conn, _, _, _) => OwnConn(env, op, w.conns, conn) && w.net.dcs == net.dcs
  }

  lemma BeginUnderway(env: Env, op: Operation, net: Net, net': Net, conns: Conns, conn: Conn)
    requires OwnConn(env, op, conns, conn) && net'.dcs == net.dcs
    ensures Underway(env, op, net, Work(net', conns, Begin(env, conn, op)))
  {
    BeginShape(env, conn, op);
  }

  lemma StartUnderway(env: Env, op: Operation, net: Net, conns: Conns)
    ensures Underway(env, op, net, Work(net, conns, Start(env, conns, op)))
  {
    match op.forestContextJson
    case None => BeginUnderway(env, op, net, net, conns, env.home);
    case Some(_) =>
      if ForestOf(env, op).Some? && ForestOf(env, op).value.forestId in conns {
        BeginUnderway(env, op, net, net, conns, conns[ForestOf(env, op).value.forestId]);
      }
  }

  lemma StepUnderway(env: Env, op: Operation, net: Net, w: Work)
    requires Underway(env, op, net, w)
    ensures Underway(env, op, net, TaskStep(env, op, w))
  {
    var w' := TaskStep(env, op, w);
    match w.task
    case Binding(_, _, _) => BindUnderway(env, op, net, w);
    case Adding(conn, dn, attrs, _) => SubmitFrame(env.dialer.server, w.net, conn, op.opType, Add(dn, attrs));
    case _ =>
  }

  lemma BindUnderway(env: Env, op: Operation, net: Net, w: Work)
    requires w.task.Binding? && Underway(env, op, net, w)
    ensures Underway(env, op, net, TaskStep(env, op, w))
  {
    var ctx, hosts := w.task.ctx, w.task.hosts;
    if hosts != [] {
      var conn := ConnFor(env.dialer, ctx, BaseDn(ctx, op.targetBaseDn), hosts[0]);
      var (net', error) := Submit(env.dialer.server, w.net, conn, op.opType, Bind(w.task.login));
      if error.None? {
        BeginUnderway(env, op, net, net', w.conns[ctx.forestId := conn], conn);
      }
    }
  }

  /** The working operation, if there is one, is under way. */
  ghost predicate MachineUnderway(env: Env, start: Pass, ops: seq<Operation>, m: Machine) {
    m.phase.Working? ==>
      && m.phase.i < |ops|
      && var w := Work(m.pass.net, m.pass.conns, m.phase.task);
         Underway(env, ops[m.phase.i], Before(env, start, ops, m.phase.i).net, w)
  }

  lemma MachineStepUnderway(env: Env, start: Pass, ops: seq<Operation>, m: Machine)
    requires InOrder(env, start, ops, m) && MachineUnderway(env, start, ops, m)
    ensures MachineUnderway(env, start, ops, Step(env, ops, m))
  {
    var i := m.phase.i;
    if m.phase.Next? && i < |ops| {
      StartUnderway(env, ops[i], m.pass.net, m.pass.conns);
    } else if m.phase.Working? {
      StepUnderway(env, ops[i], Before(env, start, ops, i).net, Work(m.pass.net, m.pass.conns, m.phase.task));
    }
  }

  lemma ReachUnderway(env: Env, start: Pass, ops: seq<Operation>, k: nat)
    ensures MachineUnderway(env, start, ops, Reach(env, start, ops, k))
  {
    var inv := m => InOrder(env, start, ops, m) && MachineUnderway(env, start, ops, m);
    StartInOrder(env, start, ops);
    forall m | inv(m) ensures inv(Step(env, ops, m)) {
      StepKeepsOrder(env, start, ops, m);
      MachineStepUnderway(env, start, ops, m);
    }
    Invariant(StepOf(env, ops), inv, Machine(start, Next(0)), k);
  }

  /** Between the add and the password, running the CREATE again changes nothing but leaves the password out. */
  lemma InterruptedCreate(env: Env, op: Operation, net: Net, w: Work)
    requires Steady(env.dialer.server) && CacheOk(env, w.conns, op)
    requires w.task.WritingPassword? && Underway(env, op, net, w)
    ensures Alike(Drive(env, op, w).net, RouteAndProcess(env, w.net, map[], op).0, {(w.task.conn.dc, w.task.dn)})
  {
    var stub := {(w.task.conn.dc, w.task.dn)};
    var again := RouteAndProcess(env, w.net, map[], op).0;
    DriveLast(env, op, w);
    PasswordAlike(env.dialer.server, w.net, w.task.conn, op.opType, w.task.dn, Utf16.PasswordBytes(w.task.plaintext));
    CreateAgain(env, op, net, w);
    AlikeTrans(Drive(env, op, w).net, w.net, again, stub, {});
    assert stub + {} == stub;
  }

  /** Writing a password, accepted or not, changes at most that password. */
  lemma PasswordAlike(s: Server, net: Net, conn: Conn, opType: string, dn: string, value: seq<byte>)
    ensures Alike(Submit(s, net, conn, opType, SetPassword(dn, value)).0, net, {(conn.dc, dn)})
  {
    var net' := Submit(s, net, conn, opType, SetPassword(dn, value)).0;
    SubmitFrame(s, net, conn, opType, SetPassword(dn, value));
    forall dc ensures SameBut(DirOf(net', dc), DirOf(net, dc), HolesAt({(conn.dc, dn)}, dc)) {
      assert dc == conn.dc ==> (conn.dc, dn) in {(conn.dc, dn)} && dn in HolesAt({(conn.dc, dn)}, dc);
    }
  }

  lemma CreateAgain(env: Env, op: Operation, net: Net, w: Work)
    requires Steady(env.dialer.server) && CacheOk(env, w.conns, op)
    requires w.task.WritingPassword? && Underway(env, op, net, w)
    ensures Alike(w.net, RouteAndProcess(env, w.net, map[], op).0, {})
  {
    var cached := RouteAndProcess(env, w.net, w.conns, op).0;
    AlikeRefl(w.net, w.net, {});
    RouteAlike(env, w.net, w.conns, w.net, map[], {}, op);
    var attributes, password := Attributes(env, op).value, Password(env, op).value;
    CreateExisting(env.dialer.server, w.net, w.task.conn, op.opType, attributes, password);
    assert cached.dcs == w.net.dcs;
    AlikeRefl(w.net, cached, {});
    AlikeTrans(w.net, cached, RouteAndProcess(env, w.net, map[], op).0, {}, {});
  }
}
