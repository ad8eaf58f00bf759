/** What the results of a pass say about the directories. */
module AdOutcome {
  import opened Text
  import opened Json
  import opened Directory
  import opened Ldap
  import opened Forest
  import opened AdMode
  import opened AdSteps
  import opened AdCache
  import Utf16

  /** The effect of one operation on the directories. */
  datatype Change =
    | NoChange
    | Created(conn: Conn, dn: string, entry: Entry)
    | Merged(conn: Conn, dn: string, changes: Attrs)

  /** The directories after a change; a change that does not fit them has no effect. */
  function Changed(dcs: Dirs, c: Change): Dirs {
    match c
    case NoChange => dcs
    case Created(conn, dn, entry) => dcs[conn.dc := DirIn(dcs, conn.dc)[dn := entry]]
    case Merged(conn, dn, changes) =>
      var dir := DirIn(dcs, conn.dc);
      if dn in dir then dcs[conn.dc := dir[dn := Entry(dir[dn].attrs + changes, dir[dn].password)]] else dcs
  }

  function AllChanged(dcs: Dirs, cs: seq<Change>): Dirs {
    if cs == [] then dcs else Changed(AllChanged(dcs, cs[..|cs| - 1]), cs[|cs| - 1])
  }

  /** A new account for the operation: its attributes, disabled, on an entry that did not exist. */
  predicate NewAccount(env: Env, op: Operation, dcs: Dirs, c: Change) {
    var attributes := Attributes(env, op);
    && c.Created? && c.dn !in DirIn(dcs, c.conn.dc)
    && attributes.Ok? && DN in attributes.value && attributes.value[DN] == c.dn
    && c.entry.attrs == AccountAttrs(attributes.value)
  }

  /** A password was issued and the connection may write it. */
  predicate PasswordDue(env: Env, op: Operation, conn: Conn) {
    conn.passwordWriteback && Password(env, op).Ok? && Password(env, op).value.Some?
  }

  function IssuedPassword(env: Env, op: Operation, conn: Conn): Option<seq<byte>> {
    if PasswordDue(env, op, conn) then Some(Utf16.PasswordBytes(Password(env, op).value.value)) else None
  }

  /** The existing entry whose attributes a successful operation replaced. */
  predicate Updated(dcs: Dirs, c: Change, dn: string, changes: Attrs) {
    c.Merged? && c.dn == dn && c.dn in DirIn(dcs, c.conn.dc) && c.changes == changes
  }

  /** The change that a result stands for. */
  predicate Fits(env: Env, op: Operation, dcs: Dirs, c: Change, result: Result<Json>) {
    match result
    case Err(_) =>
      || c == NoChange
      || (op.opType == "CREATE_ACCOUNT" && NewAccount(env, op, dcs, c) && c.entry.password == None
          && PasswordDue(env, op, c.conn)
          && LdapError("password writeback " + c.dn + ": ") <= result.error)
    case Ok(detail) =>
      if op.opType == "CREATE_ACCOUNT" then
        && NewAccount(env, op, dcs, c) && detail == DnDetail(c.dn)
        && c.entry.password == IssuedPassword(env, op, c.conn)
      else if op.opType == "ENABLE_ACCOUNT" then
        && c.Merged? && Updated(dcs, c, c.dn, map["userAccountControl" := {"512"}])
        && detail == StateDetail(c.dn, "enabled")
      else if op.opType == "DISABLE_ACCOUNT" then
        && c.Merged? && Updated(dcs, c, c.dn, map["userAccountControl" := {"514"}])
        && detail == StateDetail(c.dn, "disabled")
      else if op.opType == "UPDATE_ATTRIBUTES" then
        var attributes := Attributes(env, op);
        attributes.Ok? &&
        if Changes(attributes.value) == map[] then c == NoChange
        else
          && c.Merged? && Updated(dcs, c, c.dn, Changes(attributes.value))
          && detail == UpdateDetail(c.dn, attributes.value)
      else c == NoChange
  }

  /** The add happened exactly when the entry is new; the password follows when the channel allows it. */
  lemma CreateChange(env: Env, net: Net, conn: Conn, op: Operation) returns (c: Change)
    requires op.opType == "CREATE_ACCOUNT"
    ensures var (net', result) := Process(env, net, conn, op);
            net'.dcs == Changed(net.dcs, c) && Fits(env, op, net.dcs, c, result)
    ensures c == NoChange || c.conn == conn
  {
    c := NoChange;
    var s := env.dialer.server;
    var attributes, password := Attributes(env, op), Password(env, op);
    if attributes.Ok? && password.Ok? && DN in attributes.value {
      var dn := attributes.value[DN];
      var add := Add(dn, AccountAttrs(attributes.value));
      var (added, error) := Submit(s, net, conn, op.opType, add);
      if error.None? {
        c := Created(conn, dn, Entry(AccountAttrs(attributes.value), None));
        assert added.dcs == Changed(net.dcs, c);
        if conn.passwordWriteback && password.value.Some? {
          var bytes := Utf16.PasswordBytes(password.value.value);
          var (written, refused) := Submit(s, added, conn, op.opType, SetPassword(dn, bytes));
          if refused.None? {
            c := c.(entry := Entry(AccountAttrs(attributes.value), Some(bytes)));
            AddThenPassword(s, net, conn, op.opType, dn, AccountAttrs(attributes.value), bytes);
          }
        }
      }
    }
  }

  lemma AddThenPassword(
      s: Server, net: Net, conn: Conn, opType: string, dn: string, attrs: Attrs, bytes: seq<byte>)
    requires var (added, error) := Submit(s, net, conn, opType, Add(dn, attrs));
             error.None? && Submit(s, added, conn, opType, SetPassword(dn, bytes)).1.None?
    ensures var added := Submit(s, net, conn, opType, Add(dn, attrs)).0;
            Submit(s, added, conn, opType, SetPassword(dn, bytes)).0.dcs
            == Changed(net.dcs, Created(conn, dn, Entry(attrs, Some(bytes))))
  {
    var dir, last := DirOf(net, conn.dc), Entry(attrs, Some(bytes));
    assert dir[dn := Entry(attrs, None)][dn := last] == dir[dn := last];
  }

  lemma ModifyChange(s: Server, net: Net, conn: Conn, opType: string, dn: string, changes: Attrs)
    ensures var (net', error) := Submit(s, net, conn, opType, Modify(dn, changes));
            if error.Some? then net'.dcs == net.dcs
            else dn in DirIn(net.dcs, conn.dc) && net'.dcs == Changed(net.dcs, Merged(conn, dn, changes))
  {
  }

  lemma SwitchChange(env: Env, net: Net, conn: Conn, op: Operation, uac: string) returns (c: Change)
    requires || (op.opType == "ENABLE_ACCOUNT" && uac == UAC_ENABLED)
             || (op.opType == "DISABLE_ACCOUNT" && uac == UAC_DISABLED)
    ensures var (net', result) := Process(env, net, conn, op);
            net'.dcs == Changed(net.dcs, c) && Fits(env, op, net.dcs, c, result)
    ensures c == NoChange || c.conn == conn
  {
    c := NoChange;
    if op.userEmail.Some? {
      var (found, dn) := FindDn(env.dialer.server, net, conn, op.opType, op.userEmail.value);
      if dn.Ok? {
        var changes := map[UAC := {uac}];
        ModifyChange(env.dialer.server, found, conn, op.opType, dn.value, changes);
        if Submit(env.dialer.server, found, conn, op.opType, Modify(dn.value, changes)).1.None? {
          c := Merged(conn, dn.value, changes);
        }
      }
    }
  }

  lemma UpdateChange(env: Env, net: Net, conn: Conn, op: Operation) returns (c: Change)
    requires op.opType == "UPDATE_ATTRIBUTES"
    ensures var (net', result) := Process(env, net, conn, op);
            net'.dcs == Changed(net.dcs, c) && Fits(env, op, net.dcs, c, result)
    ensures c == NoChange || c.conn == conn
  {
    c := NoChange;
    if op.userEmail.Some? && Attributes(env, op).Ok? {
      var changes := Changes(Attributes(env, op).value);
      var (found, dn) := FindDn(env.dialer.server, net, conn, op.opType, op.userEmail.value);
      if dn.Ok? && changes != map[] {
        ModifyChange(env.dialer.server, found, conn, op.opType, dn.value, changes);
        if Submit(env.dialer.server, found, conn, op.opType, Modify(dn.value, changes)).1.None? {
          c := Merged(conn, dn.value, changes);
        }
      }
    }
  }

  lemma ProcessChange(env: Env, net: Net, conn: Conn, op: Operation) returns (c: Change)
    ensures var (net', result) := Process(env, net, conn, op);
            net'.dcs == Changed(net.dcs, c) && Fits(env, op, net.dcs, c, result)
    ensures c == NoChange || c.conn == conn
  {
    if op.opType == "CREATE_ACCOUNT" {
      c := CreateChange(env, net, conn, op);
    } else if op.opType == "ENABLE_ACCOUNT" {
      c := SwitchChange(env, net, conn, op, UAC_ENABLED);
    } else if op.opType == "DISABLE_ACCOUNT" {
      c := SwitchChange(env, net, conn, op, UAC_DISABLED);
    } else if op.opType == "UPDATE_ATTRIBUTES" {
      c := UpdateChange(env, net, conn, op);
    } else {
      c := NoChange;
    }
  }

  lemma DialHostReads(d: Dialer, net: Net, ctx: ForestContext, base: string, opType: string, host: string)
    ensures DialHost(d, net, ctx, base, opType, host).0.dcs == net.dcs
  {
  }

  lemma {:induction false} DialReads(
      d: Dialer, net: Net, ctx: ForestContext, base: string, opType: string, hosts: seq<string>, failure: string)
    ensures DialHosts(DialerOf(d, ctx, base, opType), net, hosts, failure).0.dcs == net.dcs
    decreases |hosts|
  {
    if hosts != [] {
      DialHostReads(d, net, ctx, base, opType, hosts[0]);
      var (net', bound) := DialHost(d, net, ctx, base, opType, hosts[0]);
      if bound.Err? {
        DialReads(d, net', ctx, base, opType, hosts[1..], bound.error);
      }
    }
  }

  /**
   Failure atomicity. A failed operation changes nothing, except a CREATE whose add succeeded and whose
   password step failed: it leaves exactly one new disabled account without a password. A successful
   operation makes exactly the change its result names.
   */
  lemma FailureAtomic(env: Env, net: Net, conns: Conns, op: Operation) returns (c: Change)
    ensures var (net', _, result) := RouteAndProcess(env, net, conns, op);
            net'.dcs == Changed(net.dcs, c) && Fits(env, op, net.dcs, c, result)
    ensures c == NoChange || ConnectionFor(env, net, conns, op) == Some(c.conn)
  {
    match op.forestContextJson
    case None => c := ProcessChange(env, net, env.home, op);
    case Some(json) =>
      c := NoChange;
      match env.parseForest(json)
      case Err(_) =>
      case Ok(ctx) =>
        if ctx.forestId in conns {
          c := ProcessChange(env, net, conns[ctx.forestId], op);
        } else {
          var (dialled, bound) := ConnectForest(env.dialer, net, ctx, op.targetBaseDn, op.opType);
          DialReads(env.dialer, net, ctx, BaseDn(ctx, op.targetBaseDn), op.opType, Hosts(ctx), Unreachable(ctx));
          assert dialled.dcs == net.dcs;
          if bound.Ok? {
            c := ProcessChange(env, dialled, bound.value, op);
          }
        }
  }

  /**
   Over a batch, the directories are the fold of the changes that the results stand for: one per completed
   operation, in order, each fitting the directories it found.
   */
  lemma {:induction false} BatchIsFold(env: Env, start: Pass, ops: seq<Operation>, i: nat) returns (cs: seq<Change>)
    requires i <= |ops| && RunOps(env, start, ops[..i]).1 == None
    ensures |cs| == i && Before(env, start, ops, i).net.dcs == AllChanged(start.net.dcs, cs)
    ensures forall j :: 0 <= j < i ==> FitsAt(env, start, ops, cs, j)
  {
    if i == 0 {
      cs := [];
    } else {
      BeforeSnoc(env, start, ops, i - 1);
      var before := BatchIsFold(env, start, ops, i - 1);
      var c := OpChange(env, start, ops, i - 1);
      cs := before + [c];
      ChangedSnoc(start.net.dcs, before, c);
      forall j | 0 <= j < i - 1 ensures FitsAt(env, start, ops, cs, j) {
        FitsLonger(env, start, ops, before, c, j);
      }
    }
  }

  lemma ChangedSnoc(dcs: Dirs, cs: seq<Change>, c: Change)
    ensures (cs + [c])[..|cs|] == cs && AllChanged(dcs, cs + [c]) == Changed(AllChanged(dcs, cs), c)
  {
    assert (cs + [c])[..|cs|] == cs;
  }

  /** Change `j` is the one that the result of operation `j` stands for, on its connection and what it found. */
  predicate FitsAt(env: Env, start: Pass, ops: seq<Operation>, cs: seq<Change>, j: nat)
    requires j < |ops| && j < |cs|
  {
    && Fits(env, ops[j], AllChanged(start.net.dcs, cs[..j]), cs[j], ResultAt(env, start, ops, j))
    && OnConnection(env, Before(env, start, ops, j), ops[j], cs[j])
  }

  /** A change is made on the connection that the operation is routed to. */
  predicate OnConnection(env: Env, p: Pass, op: Operation, c: Change) {
    c == NoChange || ConnectionFor(env, p.net, p.conns, op) == Some(c.conn)
  }

  lemma FitsLonger(env: Env, start: Pass, ops: seq<Operation>, cs: seq<Change>, c: Change, j: nat)
    requires j < |ops| && j < |cs| && FitsAt(env, start, ops, cs, j)
    ensures FitsAt(env, start, ops, cs + [c], j)
  {
    assert (cs + [c])[..j] == cs[..j] && (cs + [c])[j] == cs[j];
  }

  lemma OpChange(env: Env, start: Pass, ops: seq<Operation>, i: nat) returns (c: Change)
    requires i < |ops|
    ensures var p := Before(env, start, ops, i);
            && CompleteOp(env, p, ops[i]).net.dcs == Changed(p.net.dcs, c)
            && Fits(env, ops[i], p.net.dcs, c, ResultAt(env, start, ops, i))
            && OnConnection(env, p, ops[i], c)
  {
    var p := Before(env, start, ops, i);
    c := FailureAtomic(env, p.net, p.conns, ops[i]);
  }

  /** An operation removes no entry, and never touches the password of an entry it finds. */
  lemma PasswordKept(env: Env, net: Net, conns: Conns, op: Operation, dc: string, dn: string)
    requires dn in DirOf(net, dc)
    ensures var dir := DirOf(RouteAndProcess(env, net, conns, op).0, dc);
            dn in dir && dir[dn].password == DirOf(net, dc)[dn].password
  {
    var c := FailureAtomic(env, net, conns, op);
    ChangeKeepsPassword(env, op, net.dcs, c, RouteAndProcess(env, net, conns, op).2, dc, dn);
  }

  lemma ChangeKeepsPassword(env: Env, op: Operation, dcs: Dirs, c: Change, result: Result<Json>, dc: string, dn: string)
    requires Fits(env, op, dcs, c, result) && dn in DirIn(dcs, dc)
    ensures var dir := DirIn(Changed(dcs, c), dc); dn in dir && dir[dn].password == DirIn(dcs, dc)[dn].password
  {
    assert c.Created? ==> c.dn !in DirIn(dcs, c.conn.dc);
  }

  lemma {:induction false} RunKeepsPassword(env: Env, pass: Pass, ops: seq<Operation>, dc: string, dn: string)
    requires dn in DirOf(pass.net, dc)
    ensures var dir := DirOf(RunOps(env, pass, ops).0.net, dc);
            dn in dir && dir[dn].password == DirOf(pass.net, dc)[dn].password
    decreases |ops|
  {
    if ops != [] {
      PasswordKept(env, pass.net, pass.conns, ops[0], dc, dn);
      if env.clockwork.fault(|pass.log|).NoFault? {
        RunKeepsPassword(env, CompleteOp(env, pass, ops[0]), ops[1..], dc, dn);
      }
    }
  }
}
