/**
 Directories that agree but for some accounts' password and userAccountControl: what redelivery restores on
 servers that decide by a password whether an account may be enabled.
 */
module AdMasked {
  import opened Text
  import opened Journal
  import opened Directory
  import opened Ldap
  import opened AdMode
  import opened AdSteps
  import opened AdAlike
  import opened AdCache
  import opened AdRedelivery
  import opened AdCrashes
  import Utf16

  /** Equal directories, except that the entries named by the masks may differ in password and userAccountControl. */
  ghost predicate Masked(d1: Dir, d2: Dir, masks: set<string>) {
    && d1.Keys == d2.Keys
    && forall dn :: dn in d1 ==> if dn in masks then d1[dn].attrs - {UAC} == d2[dn].attrs - {UAC} else d1[dn] == d2[dn]
  }

  ghost predicate NetMasked(n1: Net, n2: Net, masks: Holes) {
    forall dc :: Masked(DirOf(n1, dc), DirOf(n2, dc), HolesAt(masks, dc))
  }

  predicate Enables(request: Request) { request.Modify? && request.changes == map["userAccountControl" := {"512"}] }

  /** The password and the state of an account decide at most whether that account may be enabled. */
  ghost predicate Gated(s: Server) {
    && (forall d1, d2, masks, base, email :: Masked(d1, d2, masks) ==>
         s.search(0, d1, base, EmailFilter(email)) == s.search(0, d2, base, EmailFilter(email)))
    && (forall dc, d1, d2, masks, request: Request ::
         Masked(d1, d2, masks) && !(Enables(request) && request.dn in masks) ==>
         s.refuses(0, dc, d1, request) == s.refuses(0, dc, d2, request))
  }

  // --- one request ------------------------------------------------------------------------------

  lemma ApplyMasked(d1: Dir, d2: Dir, masks: set<string>, request: Request)
    requires Masked(d1, d2, masks)
    ensures Apply(d1, request).Some? <==> Apply(d2, request).Some?
    ensures Apply(d1, request).Some? ==> Masked(Apply(d1, request).value, Apply(d2, request).value, masks)
  {
    if request.Modify? && request.dn in d1 {
      AttrsMasked(d1[request.dn].attrs, d2[request.dn].attrs, request.changes);
    }
  }

  lemma AttrsMasked(a: Attrs, b: Attrs, changes: Attrs)
    ensures a - {UAC} == b - {UAC} ==> a + changes - {UAC} == b + changes - {UAC}
  {
    if a - {UAC} == b - {UAC} {
      forall n | n != UAC ensures n in a <==> n in b {
        assert n in a - {UAC} <==> n in b - {UAC};
      }
      forall n | n in a && n != UAC ensures a[n] == b[n] {
        assert (a - {UAC})[n] == (b - {UAC})[n];
      }
      assert a + changes - {UAC} == b + changes - {UAC};
    }
  }

  /** Whatever becomes of an enabling, it touches nothing outside the mask. */
  lemma EnableMasked(d1: Dir, d2: Dir, masks: set<string>, request: Request)
    requires Masked(d1, d2, masks) && Enables(request) && request.dn in masks
    ensures Apply(d1, request).Some? ==> Masked(Apply(d1, request).value, d2, masks)
    ensures Apply(d2, request).Some? ==> Masked(d1, Apply(d2, request).value, masks)
  {
    if request.dn in d1 {
      var a, b := d1[request.dn].attrs, d2[request.dn].attrs;
      assert a + request.changes - {UAC} == a - {UAC} && b + request.changes - {UAC} == b - {UAC};
    }
  }

  /** Every request leaves masked directories masked; all but the enabling of a masked account are answered alike. */
  lemma SubmitMasked(s: Server, n1: Net, n2: Net, masks: Holes, conn: Conn, opType: string, request: Request)
    requires Steady(s) && Gated(s) && NetMasked(n1, n2, masks)
    ensures var (r1, e1) := Submit(s, n1, conn, opType, request);
            var (r2, e2) := Submit(s, n2, conn, opType, request);
            && NetMasked(r1, r2, masks)
            && (!(Enables(request) && request.dn in HolesAt(masks, conn.dc)) ==> e1 == e2)
  {
    var (r1, e1) := Submit(s, n1, conn, opType, request);
    var (r2, e2) := Submit(s, n2, conn, opType, request);
    var d1, d2, here := DirOf(n1, conn.dc), DirOf(n2, conn.dc), HolesAt(masks, conn.dc);
    assert Masked(d1, d2, here);
    assert s.refuses(|n1.wire|, conn.dc, d1, request) == s.refuses(0, conn.dc, d1, request);
    assert s.refuses(|n2.wire|, conn.dc, d2, request) == s.refuses(0, conn.dc, d2, request);
    ApplyMasked(d1, d2, here, request);
    if Enables(request) && request.dn in here {
      EnableMasked(d1, d2, here, request);
    }
    SubmitFrame(s, n1, conn, opType, request);
    SubmitFrame(s, n2, conn, opType, request);
    forall dc ensures Masked(DirOf(r1, dc), DirOf(r2, dc), HolesAt(masks, dc)) {
      assert Masked(DirOf(n1, dc), DirOf(n2, dc), HolesAt(masks, dc));
    }
  }

  // --- one operation ----------------------------------------------------------------------------

  lemma FindMasked(s: Server, n1: Net, n2: Net, masks: Holes, conn: Conn, opType: string, email: string)
    requires Steady(s) && Gated(s) && NetMasked(n1, n2, masks)
    ensures var (r1, dn1) := FindDn(s, n1, conn, opType, email);
            var (r2, dn2) := FindDn(s, n2, conn, opType, email);
            dn1 == dn2 && NetMasked(r1, r2, masks)
  {
    var d1, d2, filter := DirOf(n1, conn.dc), DirOf(n2, conn.dc), EmailFilter(email);
    SubmitMasked(s, n1, n2, masks, conn, opType, Search(conn.baseDn, filter));
    assert Masked(d1, d2, HolesAt(masks, conn.dc));
    assert s.search(|n1.wire|, d1, conn.baseDn, filter) == s.search(0, d1, conn.baseDn, filter);
    assert s.search(|n2.wire|, d2, conn.baseDn, filter) == s.search(0, d2, conn.baseDn, filter);
  }

  lemma CreateMasked(
      s: Server, n1: Net, n2: Net, masks: Holes, conn: Conn, opType: string,
      attributes: map<string, string>, password: Option<string>)
    requires Steady(s) && Gated(s) && NetMasked(n1, n2, masks)
    ensures NetMasked(
      CreateAccount(s, n1, conn, opType, attributes, password).0,
      CreateAccount(s, n2, conn, opType, attributes, password).0, masks)
  {
    if DN in attributes {
      var add := Add(attributes[DN], AccountAttrs(attributes));
      SubmitMasked(s, n1, n2, masks, conn, opType, add);
      if password.Some? {
        var m1, m2 := Submit(s, n1, conn, opType, add).0, Submit(s, n2, conn, opType, add).0;
        var write := SetPassword(attributes[DN], Utf16.PasswordBytes(password.value));
        SubmitMasked(s, m1, m2, masks, conn, opType, write);
      }
    }
  }

  lemma SetUacMasked(s: Server, n1: Net, n2: Net, masks: Holes, conn: Conn, opType: string, email: string, uac: string)
    requires Steady(s) && Gated(s) && NetMasked(n1, n2, masks)
    ensures NetMasked(SetUac(s, n1, conn, opType, email, uac).0, SetUac(s, n2, conn, opType, email, uac).0, masks)
  {
    FindMasked(s, n1, n2, masks, conn, opType, email);
    var (m1, dn) := FindDn(s, n1, conn, opType, email);
    if dn.Ok? {
      var m2 := FindDn(s, n2, conn, opType, email).0;
      SubmitMasked(s, m1, m2, masks, conn, opType, Modify(dn.value, map[UAC := {uac}]));
    }
  }

  lemma UpdateMasked(
      s: Server, n1: Net, n2: Net, masks: Holes, conn: Conn, opType: string, email: string,
      attributes: map<string, string>)
    requires Steady(s) && Gated(s) && NetMasked(n1, n2, masks)
    ensures NetMasked(
      UpdateAttributes(s, n1, conn, opType, email, attributes).0,
      UpdateAttributes(s, n2, conn, opType, email, attributes).0, masks)
  {
    FindMasked(s, n1, n2, masks, conn, opType, email);
    var (m1, dn) := FindDn(s, n1, conn, opType, email);
    if dn.Ok? {
      var m2 := FindDn(s, n2, conn, opType, email).0;
      SubmitMasked(s, m1, m2, masks, conn, opType, Modify(dn.value, Changes(attributes)));
    }
  }

  lemma CountMasked(
      s: Server, n1: Net, n2: Net, masks: Holes, conn: Conn, opType: string, base: string, filter: string)
    requires NetMasked(n1, n2, masks)
    ensures NetMasked(
      CountEntries(s, n1, conn, opType, base, filter).0, CountEntries(s, n2, conn, opType, base, filter).0, masks)
  {
    var m1, m2 := CountEntries(s, n1, conn, opType, base, filter).0, CountEntries(s, n2, conn, opType, base, filter).0;
    SameDcsMasked(n1, m1, n2, m2, masks);
  }

  lemma SameDcsMasked(n1: Net, m1: Net, n2: Net, m2: Net, masks: Holes)
    requires NetMasked(n1, n2, masks) && m1.dcs == n1.dcs && m2.dcs == n2.dcs
    ensures NetMasked(m1, m2, masks)
  {
    forall dc ensures Masked(DirOf(m1, dc), DirOf(m2, dc), HolesAt(masks, dc)) {
      assert Masked(DirOf(n1, dc), DirOf(n2, dc), HolesAt(masks, dc));
    }
  }

  lemma ProcessMasked(env: Env, n1: Net, n2: Net, masks: Holes, conn: Conn, op: Operation)
    requires Steady(env.dialer.server) && Gated(env.dialer.server) && NetMasked(n1, n2, masks)
    ensures NetMasked(Process(env, n1, conn, op).0, Process(env, n2, conn, op).0, masks)
  {
    var s := env.dialer.server;
    var attributes, email, password := Attributes(env, op), Email(op), Password(env, op);
    if op.opType == "CREATE_ACCOUNT" {
      if attributes.Ok? && password.Ok? {
        CreateMasked(s, n1, n2, masks, conn, op.opType, attributes.value, password.value);
      }
    } else if op.opType == "ENABLE_ACCOUNT" {
      if email.Ok? {
        SetUacMasked(s, n1, n2, masks, conn, op.opType, email.value, UAC_ENABLED);
      }
    } else if op.opType == "DISABLE_ACCOUNT" {
      if email.Ok? {
        SetUacMasked(s, n1, n2, masks, conn, op.opType, email.value, UAC_DISABLED);
      }
    } else if op.opType == "UPDATE_ATTRIBUTES" {
      if attributes.Ok? && email.Ok? {
        UpdateMasked(s, n1, n2, masks, conn, op.opType, email.value, attributes.value);
      }
    } else if op.opType == "TEST_CONNECTION" {
      CountMasked(s, n1, n2, masks, conn, op.opType, conn.baseDn, "(objectClass=*)");
    } else if op.opType == "SYNC_USERS" {
      if attributes.Ok? && UserBase(attributes.value, op).Some? {
        var base := UserBase(attributes.value, op).value;
        CountMasked(s, n1, n2, masks, conn, op.opType, base, UserFilter(attributes.value));
      }
    }
  }

  lemma RouteMasked(env: Env, n1: Net, c1: Conns, n2: Net, c2: Conns, masks: Holes, op: Operation)
    requires Steady(env.dialer.server) && Gated(env.dialer.server) && NetMasked(n1, n2, masks)
    requires CacheOk(env, c1, op) && CacheOk(env, c2, op)
    ensures NetMasked(RouteAndProcess(env, n1, c1, op).0, RouteAndProcess(env, n2, c2, op).0, masks)
  {
    if op.forestContextJson.None? {
      ProcessMasked(env, n1, n2, masks, env.home, op);
    } else if ForestOf(env, op).Some? {
      var m1, m2 := Dialled(env, n1, c1, op), Dialled(env, n2, c2, op);
      var conn := FreshConn(env, ForestOf(env, op).value, op.targetBaseDn);
      RouteByDial(env, n1, c1, op);
      RouteByDial(env, n2, c2, op);
      SameDcsMasked(n1, m1, n2, m2, masks);
      if conn.Ok? {
        ProcessMasked(env, m1, m2, masks, conn.value, op);
      }
    }
  }

  // --- the rest of a batch ----------------------------------------------------------------------

  lemma {:induction false} RunMasked(env: Env, p: Pass, q: Pass, ops: seq<Operation>, masks: Holes)
    requires Steady(env.dialer.server) && Gated(env.dialer.server) && ForestsAgree(env, ops)
    requires CacheOkForAll(env, p.conns, ops) && CacheOkForAll(env, q.conns, ops)
    requires NetMasked(p.net, q.net, masks)
    requires NoFaults(env.clockwork, |p.log| + |ops|) && NoFaults(env.clockwork, |q.log| + |ops|)
    ensures NetMasked(RunOps(env, p, ops).0.net, RunOps(env, q, ops).0.net, masks)
    decreases |ops|
  {
    if ops != [] {
      RouteMasked(env, p.net, p.conns, q.net, q.conns, masks, ops[0]);
      KeepsCaches(env, p, ops);
      KeepsCaches(env, q, ops);
      RunMasked(env, CompleteOp(env, p, ops[0]), CompleteOp(env, q, ops[0]), ops[1..], masks);
    }
  }

  lemma RestMasked(env: Env, p: Pass, again: Pass, ops: seq<Operation>, i: nat, masks: Holes)
    requires i < |ops| && Steady(env.dialer.server) && Gated(env.dialer.server) && ForestsAgree(env, ops)
    requires CacheOkForAll(env, p.conns, ops) && again.conns == map[]
    requires NetMasked(CompleteOp(env, p, ops[i]).net, CompleteOp(env, again, ops[i]).net, masks)
    requires NoFaults(env.clockwork, |p.log| + |ops[i..]|) && NoFaults(env.clockwork, |again.log| + |ops[i..]|)
    ensures NetMasked(RunOps(env, p, ops[i..]).0.net, RunOps(env, again, ops[i..]).0.net, masks)
  {
    var rest := ops[i..];
    assert rest[0] == ops[i] && rest[1..] == ops[i + 1..];
    RestAgree(env, p.conns, ops, i);
    RestAgree(env, again.conns, ops, i);
    KeepsCaches(env, p, rest);
    KeepsCaches(env, again, rest);
    RunMasked(env, CompleteOp(env, p, ops[i]), CompleteOp(env, again, ops[i]), rest[1..], masks);
  }

  // --- crashes ----------------------------------------------------------------------------------

  lemma AlikeMasked(n1: Net, n2: Net, holes: Holes)
    requires Alike(n1, n2, holes)
    ensures NetMasked(n1, n2, holes)
  {
    forall dc ensures Masked(DirOf(n1, dc), DirOf(n2, dc), HolesAt(holes, dc)) {
      assert SameBut(DirOf(n1, dc), DirOf(n2, dc), HolesAt(holes, dc));
    }
  }

  lemma MaskedTrans(n1: Net, n2: Net, n3: Net, masks: Holes, more: Holes)
    requires NetMasked(n1, n2, masks) && NetMasked(n2, n3, more)
    ensures NetMasked(n1, n3, masks + more)
  {
    forall dc ensures Masked(DirOf(n1, dc), DirOf(n3, dc), HolesAt(masks + more, dc)) {
      assert Masked(DirOf(n1, dc), DirOf(n2, dc), HolesAt(masks, dc));
      assert Masked(DirOf(n2, dc), DirOf(n3, dc), HolesAt(more, dc));
      HolesOfBoth(masks, more, dc);
    }
  }

  /**
   One crash on a server that may look at passwords to enable accounts. Whatever is asked later, an ENABLE of
   the interrupted account included, the directories end as in the undisturbed pass but for the password and
   the userAccountControl of that account.
   */
  lemma CrashMasked(
      env: Env, matches: (string, string, string, Entry) -> bool, start: Pass, ops: seq<Operation>, k: nat)
    requires start.conns == map[] && NoFaults(env.clockwork, |start.log| + |ops|)
    requires Steady(env.dialer.server) && Gated(env.dialer.server)
    requires SearchesBy(env.dialer.server, matches) && ForestsAgree(env, ops)
    requires UniqueInterrupted(env, start, ops, Reach(env, start, ops, k))
    ensures var m := Reach(env, start, ops, k);
            && |m.pass.log| - |start.log| == Done(start, ops, m)
            && var again := RunOps(env, Restart(m), ops[Done(start, ops, m)..]).0;
               NetMasked(RunOps(env, start, ops).0.net, again.net, Stub(m))
  {
    var m := Reach(env, start, ops, k);
    var i := m.phase.i;
    Handover(env, matches, start, ops, k);
    var p := Before(env, start, ops, i);
    if m.phase.Next? {
      AlikeRefl(p.net, p.net, {});
      AlikeMasked(p.net, p.net, {});
      RestAgree(env, p.conns, ops, i);
      RunMasked(env, p, Restart(m), ops[i..], {});
    } else {
      AlikeMasked(OutcomeAt(env, start, ops, i).net, RouteAndProcess(env, m.pass.net, map[], ops[i]).0, Stub(m));
      RestMasked(env, p, Restart(m), ops, i, Stub(m));
    }
  }

  /** Any number of crashes on such a server: every account dropped without its password is masked, and nothing else. */
  lemma {:induction false} CrashesMasked(
      env: Env, matches: (string, string, string, Entry) -> bool, start: Pass, ops: seq<Operation>, drops: seq<nat>)
    requires start.conns == map[] && NoFaults(env.clockwork, |start.log| + |ops|)
    requires Steady(env.dialer.server) && Gated(env.dialer.server)
    requires SearchesBy(env.dialer.server, matches) && ForestsAgree(env, ops)
    requires Orderly(env, start, ops, drops)
    ensures NetMasked(
      RunOps(env, start, ops).0.net, Redelivered(env, start, ops, drops).net, Stubs(env, start, ops, drops))
    decreases |drops|
  {
    if drops == [] {
      AlikeRefl(RunOps(env, start, ops).0.net, RunOps(env, start, ops).0.net, {});
      AlikeMasked(RunOps(env, start, ops).0.net, RunOps(env, start, ops).0.net, {});
    } else {
      var m := Reach(env, start, ops, drops[0]);
      var rest := ops[Done(start, ops, m)..];
      CrashMasked(env, matches, start, ops, drops[0]);
      RestOrderly(env, start, ops, m);
      CrashesMasked(env, matches, Restart(m), rest, drops[1..]);
      MaskedTrans(
        RunOps(env, start, ops).0.net, RunOps(env, Restart(m), rest).0.net,
        Redelivered(env, Restart(m), rest, drops[1..]).net, Stub(m), Stubs(env, Restart(m), rest, drops[1..]));
    }
  }
}
