/**
 An account that was dropped between its add and its password: when its missing password makes no further
 difference, and what becomes of it on a server that does not enable accounts without one.
 */
module AdStub {
  import opened Text
  import opened Journal
  import opened Directory
  import opened Ldap
  import opened Forest
  import opened AdMode
  import opened AdMachine
  import opened AdSteps
  import opened AdAlike
  import opened AdCache
  import opened AdRedelivery
  import opened AdCrashes
  import opened AdOutcome
  import opened AdLifecycle
  import opened AdMasked
  import Utf16

  // --- when the missing password makes no further difference ------------------------------------

  /** The request writes to this entry. */
  predicate WritesTo(request: Request, dn: string) {
    match request
    case Add(dn', _) => dn' == dn
    case Modify(dn', _) => dn' == dn
    case SetPassword(dn', _) => dn' == dn
    case _ => false
  }

  /** A password decides at most whether writes to its own entry are refused. */
  ghost predicate PasswordLocal(s: Server) {
    SearchBlind(s) && forall dc, dn, request :: !WritesTo(request, dn) ==> RefusedAlike(s, dc, {dn}, request)
  }

  ghost predicate Unnamed(dc: string, dn: string, wire: seq<Sent>, from: nat) {
    forall t :: from <= t < |wire| && wire[t].conn.dc == dc ==> !WritesTo(wire[t].request, dn)
  }

  lemma UnnamedStub(s: Server, dc: string, dn: string, wire: seq<Sent>, from: nat)
    requires PasswordLocal(s) && Unnamed(dc, dn, wire, from)
    ensures Undisturbed(s, {(dc, dn)}, wire, from)
  {
    forall t | from <= t < |wire| ensures SentAlike(s, {(dc, dn)}, wire[t]) {
      OneHole(dc, dn, wire[t].conn.dc);
      if wire[t].conn.dc != dc {
        RefusedSame(s, wire[t].conn.dc, wire[t].request);
      }
    }
  }

  lemma OneHole(dc: string, dn: string, at: string)
    ensures HolesAt({(dc, dn)}, at) == if at == dc then {dn} else {}
  {
    assert (dc, dn) in {(dc, dn)};
  }

  lemma RefusedSame(s: Server, dc: string, request: Request)
    ensures RefusedAlike(s, dc, {}, request)
  {
    forall d1, d2 | SameBut(d1, d2, {}) ensures d1 == d2 {
    }
  }

  /**
   On a server where a password concerns only its own entry, a crash makes no further difference as long as
   nothing later in the batch writes to the account that was left without one.
   */
  lemma UntouchedStubIgnored(env: Env, start: Pass, ops: seq<Operation>, m: Machine)
    requires PasswordLocal(env.dialer.server)
    requires m.phase.Working? && m.phase.task.WritingPassword? ==>
      && m.phase.i < |ops|
      && var sent := |OutcomeAt(env, start, ops, m.phase.i).net.wire|;
         Unnamed(m.phase.task.conn.dc, m.phase.task.dn, RunOps(env, start, ops).0.net.wire, sent)
    ensures StubIgnored(env, start, ops, m)
  {
    if Stub(m) != {} {
      var sent := |OutcomeAt(env, start, ops, m.phase.i).net.wire|;
      UnnamedStub(env.dialer.server, m.phase.task.conn.dc, m.phase.task.dn, RunOps(env, start, ops).0.net.wire, sent);
    }
  }

  // --- when it does -----------------------------------------------------------------------------

  /** The server enables no account that has no password. */
  ghost predicate NeedsPassword(s: Server) {
    forall t, dc, dir: Dir, dn :: dn in dir && dir[dn].password == None ==>
      s.refuses(t, dc, dir, Modify(dn, map["userAccountControl" := {"512"}])).Some?
  }

  /** Disabled, and without a password. */
  ghost predicate Barred(net: Net, dc: string, dn: string) {
    InState(DirOf(net, dc), dn, "514") && NoPassword(net, dc, dn)
  }

  lemma SubmitBarred(s: Server, net: Net, conn: Conn, opType: string, request: Request, dc: string, dn: string)
    requires NeedsPassword(s) && Barred(net, dc, dn)
    requires request.SetPassword? ==> (conn.dc, request.dn) != (dc, dn)
    requires request.Modify? ==> ChangesFit(opType, request.changes)
    ensures Barred(Submit(s, net, conn, opType, request).0, dc, dn)
  {
    SubmitFrame(s, net, conn, opType, request);
    if request.Modify? && (conn.dc, request.dn) == (dc, dn) && opType == "ENABLE_ACCOUNT" {
      assert s.refuses(|net.wire|, dc, DirOf(net, dc), request).Some?;
    }
  }

  /** Two requests that write, or a search and a write, as the operations send them. */
  lemma CreateBarred(
      s: Server, net: Net, conn: Conn, opType: string, attributes: map<string, string>, password: Option<string>,
      dc: string, dn: string)
    requires NeedsPassword(s) && Barred(net, dc, dn)
    ensures Barred(CreateAccount(s, net, conn, opType, attributes, password).0, dc, dn)
  {
    if DN in attributes {
      var add := Add(attributes[DN], AccountAttrs(attributes));
      var (m, error) := Submit(s, net, conn, opType, add);
      SubmitBarred(s, net, conn, opType, add, dc, dn);
      if error.None? && password.Some? {
        assert (conn.dc, attributes[DN]) != (dc, dn);
        SubmitBarred(s, m, conn, opType, SetPassword(attributes[DN], Utf16.PasswordBytes(password.value)), dc, dn);
      }
    }
  }

  lemma SetUacBarred(
      s: Server, net: Net, conn: Conn, opType: string, email: string, uac: string, dc: string, dn: string)
    requires NeedsPassword(s) && Barred(net, dc, dn) && ChangesFit(opType, map[UAC := {uac}])
    ensures Barred(SetUac(s, net, conn, opType, email, uac).0, dc, dn)
  {
    var (m, found) := FindDn(s, net, conn, opType, email);
    SubmitBarred(s, net, conn, opType, Search(conn.baseDn, EmailFilter(email)), dc, dn);
    if found.Ok? {
      SubmitBarred(s, m, conn, opType, Modify(found.value, map[UAC := {uac}]), dc, dn);
    }
  }

  lemma UpdateBarred(
      s: Server, net: Net, conn: Conn, opType: string, email: string, attributes: map<string, string>,
      dc: string, dn: string)
    requires NeedsPassword(s) && Barred(net, dc, dn) && ChangesFit(opType, Changes(attributes))
    ensures Barred(UpdateAttributes(s, net, conn, opType, email, attributes).0, dc, dn)
  {
    var (m, found) := FindDn(s, net, conn, opType, email);
    SubmitBarred(s, net, conn, opType, Search(conn.baseDn, EmailFilter(email)), dc, dn);
    if found.Ok? {
      SubmitBarred(s, m, conn, opType, Modify(found.value, Changes(attributes)), dc, dn);
    }
  }

  lemma ProcessBarred(env: Env, net: Net, conn: Conn, op: Operation, dc: string, dn: string)
    requires NeedsPassword(env.dialer.server) && OpNoUac(env, op) && Barred(net, dc, dn)
    ensures Barred(Process(env, net, conn, op).0, dc, dn)
  {
    var s := env.dialer.server;
    var attributes, password := Attributes(env, op), Password(env, op);
    if op.opType == "CREATE_ACCOUNT" {
      if attributes.Ok? && password.Ok? {
        CreateBarred(s, net, conn, op.opType, attributes.value, password.value, dc, dn);
      }
    } else if op.opType == "ENABLE_ACCOUNT" {
      if op.userEmail.Some? {
        SetUacBarred(s, net, conn, op.opType, op.userEmail.value, UAC_ENABLED, dc, dn);
      }
    } else if op.opType == "DISABLE_ACCOUNT" {
      if op.userEmail.Some? {
        SetUacBarred(s, net, conn, op.opType, op.userEmail.value, UAC_DISABLED, dc, dn);
      }
    } else if op.opType == "UPDATE_ATTRIBUTES" {
      if attributes.Ok? && op.userEmail.Some? {
        UpdateBarred(s, net, conn, op.opType, op.userEmail.value, attributes.value, dc, dn);
      }
    }
  }

  lemma RouteBarred(env: Env, net: Net, conns: Conns, op: Operation, dc: string, dn: string)
    requires NeedsPassword(env.dialer.server) && OpNoUac(env, op) && Barred(net, dc, dn)
    ensures Barred(RouteAndProcess(env, net, conns, op).0, dc, dn)
  {
    if op.forestContextJson.None? {
      ProcessBarred(env, net, env.home, op, dc, dn);
    } else if ForestOf(env, op).Some? {
      var ctx := ForestOf(env, op).value;
      if ctx.forestId in conns {
        ProcessBarred(env, net, conns[ctx.forestId], op, dc, dn);
      } else {
        var (dialled, bound) := ConnectForest(env.dialer, net, ctx, op.targetBaseDn, op.opType);
        DialReads(env.dialer, net, ctx, BaseDn(ctx, op.targetBaseDn), op.opType, Hosts(ctx), Unreachable(ctx));
        assert dialled.dcs == net.dcs;
        if bound.Ok? {
          ProcessBarred(env, dialled, bound.value, op, dc, dn);
        }
      }
    }
  }

  lemma {:induction false} RunBarred(env: Env, pass: Pass, ops: seq<Operation>, dc: string, dn: string)
    requires NeedsPassword(env.dialer.server) && NoUac(env, ops) && Barred(pass.net, dc, dn)
    ensures Barred(RunOps(env, pass, ops).0.net, dc, dn)
    decreases |ops|
  {
    if ops != [] {
      assert OpNoUac(env, ops[0]);
      RouteBarred(env, pass.net, pass.conns, ops[0], dc, dn);
      if env.clockwork.fault(|pass.log|).NoFault? {
        assert NoUac(env, ops[1..]) by {
          assert forall i :: 0 <= i < |ops[1..]| ==> ops[1..][i] == ops[i + 1];
        }
        RunBarred(env, CompleteOp(env, pass, ops[0]), ops[1..], dc, dn);
      }
    }
  }

  // --- and await by await -----------------------------------------------------------------------

  ghost predicate BarredWork(opType: string, dc: string, dn: string, w: Work) {
    && Barred(w.net, dc, dn) && TaskFits(opType, w.task)
    && (w.task.WritingPassword? ==> (w.task.conn.dc, w.task.dn) != (dc, dn))
  }

  /** A password that is about to be written is not for the stub: an add of the stub is never accepted. */
  lemma WritesElsewhere(env: Env, op: Operation, w: Work, dc: string, dn: string)
    requires BarredWork(op.opType, dc, dn, w)
    ensures var task := TaskStep(env, op, w).task; task.WritingPassword? ==> (task.conn.dc, task.dn) != (dc, dn)
  {
    if w.task.Binding? && w.task.hosts != [] {
      BeginShape(env, ConnFor(env.dialer, w.task.ctx, BaseDn(w.task.ctx, op.targetBaseDn), w.task.hosts[0]), op);
    }
  }

  lemma StepBarred(env: Env, op: Operation, w: Work, dc: string, dn: string)
    requires NeedsPassword(env.dialer.server) && OpNoUac(env, op) && BarredWork(op.opType, dc, dn, w)
    ensures BarredWork(op.opType, dc, dn, TaskStep(env, op, w))
  {
    PendingFits(env, op, w.task);
    StepFits(env, op, w);
    StepSends(env, op, w);
    WritesElsewhere(env, op, w, dc, dn);
    match Pending(env, op, w.task)
    case None =>
    case Some((conn, request)) => SubmitBarred(env.dialer.server, w.net, conn, op.opType, request, dc, dn);
  }

  ghost predicate BarredMachine(ops: seq<Operation>, dc: string, dn: string, m: Machine) {
    && Barred(m.pass.net, dc, dn)
    && (m.phase.Working? && m.phase.i < |ops| ==> BarredWork(ops[m.phase.i].opType, dc, dn, WorkOf(m)))
  }

  lemma MachineStepBarred(env: Env, ops: seq<Operation>, m: Machine, dc: string, dn: string)
    requires NeedsPassword(env.dialer.server) && NoUac(env, ops) && BarredMachine(ops, dc, dn, m)
    ensures BarredMachine(ops, dc, dn, Step(env, ops, m))
  {
    var i := m.phase.i;
    if i < |ops| {
      assert OpNoUac(env, ops[i]);
      if m.phase.Next? {
        StartShape(env, m.pass.conns, ops[i]);
        StartFits(env, m.pass.conns, ops[i]);
      } else if m.phase.Working? {
        StepBarred(env, ops[i], WorkOf(m), dc, dn);
      }
    }
  }

  lemma ReachBarred(env: Env, start: Pass, ops: seq<Operation>, k: nat, dc: string, dn: string)
    requires NeedsPassword(env.dialer.server) && NoUac(env, ops) && Barred(start.net, dc, dn)
    ensures Barred(Reach(env, start, ops, k).pass.net, dc, dn)
  {
    var inv := m => BarredMachine(ops, dc, dn, m);
    forall m | inv(m) ensures inv(Step(env, ops, m)) {
      MachineStepBarred(env, ops, m, dc, dn);
    }
    Invariant(StepOf(env, ops), inv, Machine(start, Next(0)), k);
  }

  // --- over any number of crashes ---------------------------------------------------------------

  lemma NoUacRest(env: Env, ops: seq<Operation>, i: nat)
    requires NoUac(env, ops) && i <= |ops|
    ensures NoUac(env, ops[i..])
  {
    assert forall j :: 0 <= j < |ops[i..]| ==> ops[i..][j] == ops[i + j];
  }

  lemma {:induction false} RedeliveredBarred(
      env: Env, start: Pass, ops: seq<Operation>, drops: seq<nat>, dc: string, dn: string)
    requires NeedsPassword(env.dialer.server) && NoUac(env, ops) && Barred(start.net, dc, dn)
    ensures Barred(Redelivered(env, start, ops, drops).net, dc, dn)
    decreases |drops|
  {
    if drops == [] {
      RunBarred(env, start, ops, dc, dn);
    } else {
      var m := Reach(env, start, ops, drops[0]);
      ReachBarred(env, start, ops, drops[0], dc, dn);
      NoUacRest(env, ops, Done(start, ops, m));
      RedeliveredBarred(env, Restart(m), ops[Done(start, ops, m)..], drops[1..], dc, dn);
    }
  }

  /** The account is disabled and without a password where it was dropped. */
  lemma DroppedBarred(env: Env, start: Pass, ops: seq<Operation>, k: nat)
    requires NoUac(env, ops)
    ensures var m := Reach(env, start, ops, k); forall h :: h in Stub(m) ==> Barred(m.pass.net, h.0, h.1)
  {
    var m := Reach(env, start, ops, k);
    if Stub(m) != {} {
      ReachUnderway(env, start, ops, k);
      assert OpNoUac(env, ops[m.phase.i]);
      BeginFits(env, m.phase.task.conn, ops[m.phase.i]);
    }
  }

  ghost predicate AllBarred(net: Net, stubs: Holes) { forall h :: h in stubs ==> Barred(net, h.0, h.1) }

  /**
   On a server that enables no account without a password, every account dropped between its add and its
   password stays disabled, whatever is redelivered or asked afterwards and however often that is dropped.
   */
  lemma {:induction false} StubsStayDisabled(env: Env, start: Pass, ops: seq<Operation>, drops: seq<nat>)
    requires NeedsPassword(env.dialer.server) && NoUac(env, ops)
    ensures AllBarred(Redelivered(env, start, ops, drops).net, Stubs(env, start, ops, drops))
    decreases |drops|
  {
    if drops != [] {
      var m := Reach(env, start, ops, drops[0]);
      var rest := ops[Done(start, ops, m)..];
      DroppedBarred(env, start, ops, drops[0]);
      NoUacRest(env, ops, Done(start, ops, m));
      forall h | h in Stub(m) ensures Barred(Redelivered(env, start, ops, drops).net, h.0, h.1) {
        RedeliveredBarred(env, Restart(m), rest, drops[1..], h.0, h.1);
      }
      StubsStayDisabled(env, Restart(m), rest, drops[1..]);
    }
  }

  ghost predicate AllDisabled(net: Net, stubs: Holes) {
    forall h :: h in stubs ==> InState(DirOf(net, h.0), h.1, "514")
  }

  /** Whatever else the crashes may change, an ENABLE that the undisturbed pass carried out there is lost. */
  lemma EnableLost(env: Env, start: Pass, ops: seq<Operation>, drops: seq<nat>, holes: Holes)
    requires NeedsPassword(env.dialer.server) && NoUac(env, ops)
    requires Alike(RunOps(env, start, ops).0.net, Redelivered(env, start, ops, drops).net, holes)
    ensures AllDisabled(RunOps(env, start, ops).0.net, Stubs(env, start, ops, drops))
  {
    var net, net' := RunOps(env, start, ops).0.net, Redelivered(env, start, ops, drops).net;
    StubsStayDisabled(env, start, ops, drops);
    forall h | h in Stubs(env, start, ops, drops) ensures InState(DirOf(net, h.0), h.1, UAC_DISABLED) {
      assert Barred(net', h.0, h.1);
      assert SameBut(DirOf(net, h.0), DirOf(net', h.0), HolesAt(holes, h.0));
    }
  }

  lemma DisabledUnmasks(d1: Dir, d2: Dir, masks: set<string>)
    requires Masked(d1, d2, masks)
    requires forall dn :: dn in masks ==> InState(d1, dn, UAC_DISABLED) && InState(d2, dn, UAC_DISABLED)
    ensures SameBut(d1, d2, masks)
  {
    forall dn | dn in d1 && dn in masks ensures d1[dn].attrs == d2[dn].attrs {
      SameAttrs(d1[dn].attrs, d2[dn].attrs);
    }
  }

  lemma SameAttrs(a: Attrs, b: Attrs)
    requires a - {UAC} == b - {UAC} && UAC in a && UAC in b && a[UAC] == b[UAC]
    ensures a == b
  {
    forall n ensures n in a <==> n in b {
      assert n != UAC ==> (n in a - {UAC} <==> n in b - {UAC});
    }
    forall n | n in a ensures a[n] == b[n] {
      assert n != UAC ==> (a - {UAC})[n] == (b - {UAC})[n];
    }
  }

  /**
   The exact condition. On a server where a password decides whether an account may be enabled, and decides
   nothing else, any number of crashes is invisible up to the passwords of the interrupted accounts if and
   only if the undisturbed pass leaves all of those disabled.
   */
  lemma CrashesVisible(
      env: Env, matches: (string, string, string, Entry) -> bool, start: Pass, ops: seq<Operation>, drops: seq<nat>)
    requires start.conns == map[] && NoFaults(env.clockwork, |start.log| + |ops|)
    requires Steady(env.dialer.server) && Gated(env.dialer.server) && NeedsPassword(env.dialer.server)
    requires SearchesBy(env.dialer.server, matches) && ForestsAgree(env, ops) && NoUac(env, ops)
    requires Orderly(env, start, ops, drops)
    ensures var stubs := Stubs(env, start, ops, drops);
            Alike(RunOps(env, start, ops).0.net, Redelivered(env, start, ops, drops).net, stubs)
            <==> AllDisabled(RunOps(env, start, ops).0.net, stubs)
  {
    var net, net' := RunOps(env, start, ops).0.net, Redelivered(env, start, ops, drops).net;
    var stubs := Stubs(env, start, ops, drops);
    if Alike(net, net', stubs) {
      EnableLost(env, start, ops, drops, stubs);
    }
    if AllDisabled(net, stubs) {
      CrashesMasked(env, matches, start, ops, drops);
      StubsStayDisabled(env, start, ops, drops);
      forall dc ensures SameBut(DirOf(net, dc), DirOf(net', dc), HolesAt(stubs, dc)) {
        forall dn | dn in HolesAt(stubs, dc)
          ensures InState(DirOf(net, dc), dn, UAC_DISABLED) && InState(DirOf(net', dc), dn, UAC_DISABLED)
        {
          assert (dc, dn) in stubs && Barred(net', dc, dn);
        }
        DisabledUnmasks(DirOf(net, dc), DirOf(net', dc), HolesAt(stubs, dc));
      }
    }
  }

  lemma StatesDiffer(dir: Dir, dn: string)
    ensures !(InState(dir, dn, UAC_ENABLED) && InState(dir, dn, UAC_DISABLED))
  {
    assert UAC_ENABLED in {UAC_ENABLED} && UAC_ENABLED[2] != UAC_DISABLED[2];
  }

  /** When the undisturbed pass leaves such an account enabled, the crashes show. */
  lemma LossShows(
      env: Env, start: Pass, ops: seq<Operation>, drops: seq<nat>, dc: string, dn: string, holes: Holes)
    requires NeedsPassword(env.dialer.server) && NoUac(env, ops)
    requires (dc, dn) in Stubs(env, start, ops, drops)
    requires InState(DirOf(RunOps(env, start, ops).0.net, dc), dn, "512")
    ensures !Alike(RunOps(env, start, ops).0.net, Redelivered(env, start, ops, drops).net, holes)
  {
    StatesDiffer(DirOf(RunOps(env, start, ops).0.net, dc), dn);
    if Alike(RunOps(env, start, ops).0.net, Redelivered(env, start, ops, drops).net, holes) {
      EnableLost(env, start, ops, drops, holes);
    }
  }
}
