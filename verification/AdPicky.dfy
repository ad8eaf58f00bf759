/** A server on which a crash between add and password does show: an instance of every other hypothesis. */
module AdPicky {
  import opened Text
  import opened Journal
  import opened Directory
  import opened Ldap
  import opened Forest
  import opened AdMode
  import opened AdMachine
  import opened AdSteps
  import opened AdAlike
  import opened AdCache
  import opened AdRedelivery
  import opened AdCrashes
  import opened AdLifecycle
  import opened AdMasked
  import opened AdStub
  import Utf16

  /** Holds one account, and enables it only with a password. */
  function PickyServer(dn: string): Server {
    Server(
      url => url,
      (t, dc, dir: Dir, request: Request) => if Refused(dir, request) then Some("password required") else None,
      (t, dir: Dir, base, filter) => if dn in dir then [dn] else [])
  }

  predicate Refused(dir: Dir, request: Request) {
    && request.Modify? && request.changes == map[UAC := {UAC_ENABLED}]
    && request.dn in dir && dir[request.dn].password == None
  }

  const HOME := Conn("dc", "", true, true, false)

  function PickyEnv(dn: string, clockwork: Clockwork): Env {
    var dialer := Dialer(PickyServer(dn), secret => Ok(secret), false);
    Env(dialer, json => Ok(map[DN := dn]), json => Err(json), HOME, clockwork)
  }

  function Create(password: string): Operation {
    Operation("1", "CREATE_ACCOUNT", None, Some("{}"), Some(password), None, None)
  }

  function Enable(email: string): Operation {
    Operation("2", "ENABLE_ACCOUNT", Some(email), None, None, None, None)
  }

  function Batch(password: string, email: string): seq<Operation> { [Create(password), Enable(email)] }

  const START := StartPass(Net(map[], []), [], [])

  // --- the server meets the hypotheses ----------------------------------------------------------

  lemma PickySteady(dn: string)
    ensures Steady(PickyServer(dn))
  {
  }

  lemma PickyGated(dn: string)
    ensures Gated(PickyServer(dn))
  {
    var s := PickyServer(dn);
    forall d1, d2, masks, base, email | Masked(d1, d2, masks)
      ensures s.search(0, d1, base, EmailFilter(email)) == s.search(0, d2, base, EmailFilter(email))
    {
      assert dn in d1 <==> dn in d2;
    }
    forall dc: string, d1, d2, masks, request: Request |
        Masked(d1, d2, masks) && !(Enables(request) && request.dn in masks)
      ensures s.refuses(0, dc, d1, request) == s.refuses(0, dc, d2, request)
    {
      assert Refused(d1, request) == Refused(d2, request);
    }
  }

  lemma PickyNeeds(dn: string)
    ensures NeedsPassword(PickyServer(dn))
  {
  }

  lemma PickySearches(dn: string)
    ensures SearchesBy(PickyServer(dn), (base, filter, name, entry) => name == dn)
  {
  }

  lemma PickyUnique(dn: string, net: Net, op: Operation)
    ensures UniqueMatch(PickyServer(dn), net, op)
  {
  }

  /** Everything that the exact condition of a visible crash asks, wherever and however often the pass is dropped. */
  lemma BatchMeets(dn: string, clockwork: Clockwork, password: string, email: string, drops: seq<nat>)
    ensures var env, ops := PickyEnv(dn, clockwork), Batch(password, email);
            && Steady(env.dialer.server) && Gated(env.dialer.server) && NeedsPassword(env.dialer.server)
            && SearchesBy(env.dialer.server, (base, filter, name, entry) => name == dn)
            && ForestsAgree(env, ops) && NoUac(env, ops) && Orderly(env, START, ops, drops)
  {
    PickySteady(dn);
    PickyGated(dn);
    PickyNeeds(dn);
    PickySearches(dn);
    BatchNoUac(dn, clockwork, password, email);
    PickyOrderly(dn, clockwork, START, Batch(password, email), drops);
  }

  lemma {:induction false} PickyOrderly(
      dn: string, clockwork: Clockwork, start: Pass, ops: seq<Operation>, drops: seq<nat>)
    ensures Orderly(PickyEnv(dn, clockwork), start, ops, drops)
    decreases |drops|
  {
    if drops != [] {
      var env := PickyEnv(dn, clockwork);
      var m := Reach(env, start, ops, drops[0]);
      if m.phase.i < |ops| {
        PickyUnique(dn, Before(env, start, ops, m.phase.i).net, ops[m.phase.i]);
      }
      PickyOrderly(dn, clockwork, Restart(m), ops[Done(start, ops, m)..], drops[1..]);
    }
  }

  lemma BatchNoUac(dn: string, clockwork: Clockwork, password: string, email: string)
    ensures NoUac(PickyEnv(dn, clockwork), Batch(password, email))
  {
    assert |DN| == 17 && |UAC| == 18;
  }

  // --- the undisturbed pass enables the account -------------------------------------------------

  /** The controller holds the account, with this password. */
  predicate Has(net: Net, dn: string, password: Option<seq<byte>>) {
    dn in DirOf(net, "dc") && DirOf(net, "dc")[dn].password == password
  }

  lemma SubmitPicky(dn: string, net: Net, request: Request, opType: string)
    requires !request.Modify? && Apply(DirOf(net, "dc"), request).Some?
    ensures var (net', error) := Submit(PickyServer(dn), net, HOME, opType, request);
            error == None && DirOf(net', "dc") == Apply(DirOf(net, "dc"), request).value
  {
    SubmitFrame(PickyServer(dn), net, HOME, opType, request);
  }

  lemma CreatePicky(dn: string, net: Net, attributes: map<string, string>, password: string)
    requires DN in attributes && attributes[DN] == dn && dn !in DirOf(net, "dc")
    ensures var net' := CreateAccount(PickyServer(dn), net, HOME, "CREATE_ACCOUNT", attributes, Some(password)).0;
            Has(net', dn, Some(Utf16.PasswordBytes(password)))
  {
    var s, add := PickyServer(dn), Add(dn, AccountAttrs(attributes));
    SubmitPicky(dn, net, add, "CREATE_ACCOUNT");
    var added := Submit(s, net, HOME, "CREATE_ACCOUNT", add).0;
    SubmitPicky(dn, added, SetPassword(dn, Utf16.PasswordBytes(password)), "CREATE_ACCOUNT");
  }

  lemma EnablePicky(dn: string, net: Net, email: string, password: seq<byte>)
    requires Has(net, dn, Some(password))
    ensures var net' := SetUac(PickyServer(dn), net, HOME, "ENABLE_ACCOUNT", email, UAC_ENABLED).0;
            InState(DirOf(net', "dc"), dn, UAC_ENABLED)
  {
    var s, search := PickyServer(dn), Search(HOME.baseDn, EmailFilter(email));
    var (found, result) := FindDn(s, net, HOME, "ENABLE_ACCOUNT", email);
    SubmitPicky(dn, net, search, "ENABLE_ACCOUNT");
    assert result == Ok(dn) && DirOf(found, "dc") == DirOf(net, "dc");
    var change := Modify(dn, map[UAC := {UAC_ENABLED}]);
    assert !Refused(DirOf(found, "dc"), change);
    SubmitFrame(s, found, HOME, "ENABLE_ACCOUNT", change);
  }

  lemma CreateOp(dn: string, clockwork: Clockwork, password: string)
    ensures var net := CompleteOp(PickyEnv(dn, clockwork), START, Create(password)).net;
            Has(net, dn, Some(Utf16.PasswordBytes(password)))
  {
    CreatePicky(dn, START.net, map[DN := dn], password);
  }

  lemma EnableOp(dn: string, clockwork: Clockwork, pass: Pass, email: string, password: seq<byte>)
    requires Has(pass.net, dn, Some(password))
    ensures InState(DirOf(CompleteOp(PickyEnv(dn, clockwork), pass, Enable(email)).net, "dc"), dn, UAC_ENABLED)
  {
    EnablePicky(dn, pass.net, email, password);
  }

  lemma BatchEnables(dn: string, clockwork: Clockwork, password: string, email: string)
    requires clockwork.fault(0).NoFault? && clockwork.fault(1).NoFault?
    ensures var net := RunOps(PickyEnv(dn, clockwork), START, Batch(password, email)).0.net;
            InState(DirOf(net, "dc"), dn, UAC_ENABLED)
  {
    var env := PickyEnv(dn, clockwork);
    var created := CompleteOp(env, START, Create(password));
    CreateOp(dn, clockwork, password);
    EnableOp(dn, clockwork, created, email, Utf16.PasswordBytes(password));
    BatchRuns(env, password, email);
  }

  lemma BatchRuns(env: Env, password: string, email: string)
    requires env.clockwork.fault(0).NoFault? && env.clockwork.fault(1).NoFault?
    ensures RunOps(env, START, Batch(password, email)).0
         == CompleteOp(env, CompleteOp(env, START, Create(password)), Enable(email))
  {
    RunOpsSnoc(env, START, [Create(password)], Enable(email));
    RunOpsSnoc(env, START, [], Create(password));
    assert [] + [Create(password)] == [Create(password)];
    assert [Create(password)] + [Enable(email)] == Batch(password, email);
  }

  // --- the pass that is dropped does not --------------------------------------------------------

  lemma DroppedPicky(dn: string, clockwork: Clockwork, password: string, email: string)
    ensures var m := Reach(PickyEnv(dn, clockwork), START, Batch(password, email), 2);
            m.phase == Working(0, WritingPassword(HOME, dn, password))
  {
    var env, ops := PickyEnv(dn, clockwork), Batch(password, email);
    var first := Machine(START, Next(0));
    var second := Step(env, ops, first);
    assert second == Machine(START, Working(0, Adding(HOME, dn, AccountAttrs(map[DN := dn]), Some(password))));
    SubmitPicky(dn, START.net, Add(dn, AccountAttrs(map[DN := dn])), "CREATE_ACCOUNT");
    assert Iterate(StepOf(env, ops), first, 0) == first;
    assert Iterate(StepOf(env, ops), first, 1) == second;
  }

  /**
   For instance: a CREATE dropped before its password, followed by an ENABLE, on a server that enables no
   account without one. The undisturbed pass leaves the account enabled, the redelivered one disabled.
   */
  lemma CrashShows(dn: string, clockwork: Clockwork, password: string, email: string, holes: Holes)
    requires clockwork.fault(0).NoFault? && clockwork.fault(1).NoFault?
    ensures var env, ops := PickyEnv(dn, clockwork), Batch(password, email);
            !Alike(RunOps(env, START, ops).0.net, Redelivered(env, START, ops, [2]).net, holes)
  {
    var env, ops := PickyEnv(dn, clockwork), Batch(password, email);
    DroppedPicky(dn, clockwork, password, email);
    BatchMeets(dn, clockwork, password, email, [2]);
    BatchEnables(dn, clockwork, password, email);
    StubOfOne(env, START, ops, 2);
    LossShows(env, START, ops, [2], "dc", dn, holes);
  }

  lemma StubOfOne(env: Env, start: Pass, ops: seq<Operation>, k: nat)
    ensures Stub(Reach(env, start, ops, k)) <= Stubs(env, start, ops, [k])
  {
    assert [k][0] == k;
  }
}
