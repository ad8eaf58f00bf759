/**
 Crash and redelivery: a pass dropped at any await, followed by a pass over the operations that have no log
 record, leaves the directories of an undisturbed pass; and so for any number of dropped passes.
 */
module AdCrashes {
  import opened Text
  import opened Journal
  import opened Directory
  import opened AdMode
  import opened AdMachine
  import opened AdSteps
  import opened AdAlike
  import opened AdCache
  import opened AdRedelivery
  import opened Ldap
  import opened Forest
  import AdOutcome
  import Utf16

  lemma {:induction false} BeforeCacheOk(env: Env, start: Pass, ops: seq<Operation>, i: nat)
    requires start.conns == map[] && Steady(env.dialer.server) && ForestsAgree(env, ops)
    requires i <= |ops| && RunOps(env, start, ops[..i]).1 == None
    ensures CacheOkForAll(env, Before(env, start, ops, i).conns, ops)
  {
    if i > 0 {
      BeforeSnoc(env, start, ops, i - 1);
      BeforeCacheOk(env, start, ops, i - 1);
      CompleteKeepsCache(env, Before(env, start, ops, i - 1), ops, i - 1);
    }
  }

  lemma CompleteKeepsCache(env: Env, p: Pass, ops: seq<Operation>, i: nat)
    requires i < |ops| && Steady(env.dialer.server) && ForestsAgree(env, ops) && CacheOkForAll(env, p.conns, ops)
    ensures CacheOkForAll(env, CompleteOp(env, p, ops[i]).conns, ops)
  {
    forall j | 0 <= j < |ops| ensures Agree(env, ops[i], ops[j]) {
    }
    RouteKeepsCache(env, p.net, p.conns, ops[i], ops);
  }

  lemma {:induction false} RunOpsSplit(env: Env, start: Pass, ops: seq<Operation>, i: nat)
    requires i <= |ops| && RunOps(env, start, ops[..i]).1 == None
    ensures RunOps(env, start, ops) == RunOps(env, Before(env, start, ops, i), ops[i..])
    decreases i
  {
    if i == 0 {
      assert ops[..0] == [] && ops[0..] == ops;
    } else {
      TrailStep(env, start, ops, i - 1);
      RunOpsSplit(env, start, ops, i - 1);
      var p := Before(env, start, ops, i - 1);
      assert ops[i - 1..][0] == ops[i - 1] && ops[i - 1..][1..] == ops[i..];
      RunOpsHead(env, p, ops[i - 1..], start, ops, i);
    }
  }

  lemma RunOpsHead(env: Env, p: Pass, rest: seq<Operation>, start: Pass, ops: seq<Operation>, i: nat)
    requires 0 < i <= |ops| && rest == ops[i - 1..] && RunOps(env, start, ops[..i]).1 == None
    requires RunOps(env, start, ops[..i - 1]).1 == None && p == Before(env, start, ops, i - 1)
    ensures RunOps(env, p, rest) == RunOps(env, Before(env, start, ops, i), ops[i..])
  {
    assert ops[..i] == ops[..i - 1] + [ops[i - 1]];
    RunOpsSnoc(env, start, ops[..i - 1], ops[i - 1]);
    assert rest[1..] == ops[i..];
  }

  /** The same operations over directories that are alike leave directories that are alike. */
  lemma {:induction false} RunAlike(env: Env, p: Pass, q: Pass, ops: seq<Operation>, holes: Holes)
    requires Steady(env.dialer.server) && ForestsAgree(env, ops)
    requires CacheOkForAll(env, p.conns, ops) && CacheOkForAll(env, q.conns, ops)
    requires Alike(p.net, q.net, holes)
    requires Undisturbed(env.dialer.server, holes, RunOps(env, p, ops).0.net.wire, |p.net.wire|)
    requires NoFaults(env.clockwork, |p.log| + |ops|) && NoFaults(env.clockwork, |q.log| + |ops|)
    ensures Alike(RunOps(env, p, ops).0.net, RunOps(env, q, ops).0.net, holes)
    decreases |ops|
  {
    if ops != [] {
      StepAlike(env, p, q, ops, holes);
      RunAlike(env, CompleteOp(env, p, ops[0]), CompleteOp(env, q, ops[0]), ops[1..], holes);
    }
  }

  /** The first operation of two such passes, and what the rest of them needs. */
  lemma StepAlike(env: Env, p: Pass, q: Pass, ops: seq<Operation>, holes: Holes)
    requires ops != [] && Steady(env.dialer.server) && ForestsAgree(env, ops)
    requires CacheOkForAll(env, p.conns, ops) && CacheOkForAll(env, q.conns, ops)
    requires Alike(p.net, q.net, holes)
    requires Undisturbed(env.dialer.server, holes, RunOps(env, p, ops).0.net.wire, |p.net.wire|)
    requires env.clockwork.fault(|p.log|).NoFault?
    ensures ForestsAgree(env, ops[1..])
    ensures var p', q' := CompleteOp(env, p, ops[0]), CompleteOp(env, q, ops[0]);
            && CacheOkForAll(env, p'.conns, ops[1..]) && CacheOkForAll(env, q'.conns, ops[1..])
            && Alike(p'.net, q'.net, holes)
            && Undisturbed(env.dialer.server, holes, RunOps(env, p', ops[1..]).0.net.wire, |p'.net.wire|)
    ensures RouteAndProcess(env, p.net, p.conns, ops[0]).2 == RouteAndProcess(env, q.net, q.conns, ops[0]).2
  {
    var p', q' := CompleteOp(env, p, ops[0]), CompleteOp(env, q, ops[0]);
    var wire := RunOps(env, p, ops).0.net.wire;
    RouteGrows(env, p.net, p.conns, ops[0]);
    RunGrows(env, p', ops[1..]);
    UndisturbedPart(env.dialer.server, holes, wire, |p.net.wire|, p'.net.wire, |p.net.wire|);
    UndisturbedPart(env.dialer.server, holes, wire, |p.net.wire|, wire, |p'.net.wire|);
    RouteAlike(env, p.net, p.conns, q.net, q.conns, holes, ops[0]);
    KeepsCaches(env, p, ops);
    KeepsCaches(env, q, ops);
  }

  lemma KeepsCaches(env: Env, p: Pass, ops: seq<Operation>)
    requires ops != [] && Steady(env.dialer.server) && ForestsAgree(env, ops) && CacheOkForAll(env, p.conns, ops)
    ensures ForestsAgree(env, ops[1..]) && CacheOkForAll(env, CompleteOp(env, p, ops[0]).conns, ops[1..])
  {
    forall i | 0 <= i < |ops| ensures Agree(env, ops[0], ops[i]) {
    }
    RouteKeepsCache(env, p.net, p.conns, ops[0], ops);
    RestAgree(env, CompleteOp(env, p, ops[0]).conns, ops, 1);
  }

  lemma RestAgree(env: Env, conns: Conns, ops: seq<Operation>, i: nat)
    requires i <= |ops| && ForestsAgree(env, ops) && CacheOkForAll(env, conns, ops)
    ensures ForestsAgree(env, ops[i..]) && CacheOkForAll(env, conns, ops[i..])
  {
    assert forall j :: 0 <= j < |ops[i..]| ==> ops[i..][j] == ops[i + j];
  }

  // --- one crash --------------------------------------------------------------------------------

  /** The account of a CREATE that is between its add and its password. */
  function Stub(m: Machine): Holes {
    if m.phase.Working? && m.phase.task.WritingPassword? then {(m.phase.task.conn.dc, m.phase.task.dn)} else {}
  }

  /** At most one entry answers to the email of the operation that was dropped when the pass got to it. */
  ghost predicate UniqueInterrupted(env: Env, start: Pass, ops: seq<Operation>, m: Machine) {
    !m.phase.Next? && m.phase.i < |ops| ==>
      UniqueMatch(env.dialer.server, Before(env, start, ops, m.phase.i).net, ops[m.phase.i])
  }

  /** Nothing that the undisturbed pass does after the interrupted CREATE is answered by the password it wrote. */
  ghost predicate StubIgnored(env: Env, start: Pass, ops: seq<Operation>, m: Machine) {
    Stub(m) != {} ==>
      && m.phase.i < |ops|
      && var sent := |OutcomeAt(env, start, ops, m.phase.i).net.wire|;
         Undisturbed(env.dialer.server, Stub(m), RunOps(env, start, ops).0.net.wire, sent)
  }

  /** Redelivering the interrupted operation leaves what completing it would have left. */
  lemma RedeliverOne(
      env: Env, matches: (string, string, string, Entry) -> bool, start: Pass, ops: seq<Operation>, k: nat)
    requires start.conns == map[]
    requires Steady(env.dialer.server) && SearchesBy(env.dialer.server, matches) && ForestsAgree(env, ops)
    requires var m := Reach(env, start, ops, k); !m.phase.Next? && !m.phase.Stopped?
    requires UniqueInterrupted(env, start, ops, Reach(env, start, ops, k))
    ensures var m := Reach(env, start, ops, k);
            var i := m.phase.i;
            && i < |ops|
            && Alike(OutcomeAt(env, start, ops, i).net, RouteAndProcess(env, m.pass.net, map[], ops[i]).0, Stub(m))
  {
    var m := Reach(env, start, ops, k);
    var i := m.phase.i;
    ReachInOrder(env, start, ops, k);
    ReachUnderway(env, start, ops, k);
    BeforeCacheOk(env, start, ops, i);
    var p := Before(env, start, ops, i);
    var op := ops[i];
    assert CacheOk(env, p.conns, op);
    if m.phase.Working? && !m.phase.task.Settled? {
      var w := Work(m.pass.net, m.pass.conns, m.phase.task);
      if m.phase.task.WritingPassword? {
        DriveLast(env, op, w);
        forall j | 0 <= j < |ops| ensures Agree(env, op, ops[j]) {
        }
        RouteKeepsCache(env, p.net, p.conns, op, ops);
        InterruptedCreate(env, op, p.net, w);
      } else {
        AlikeRefl(p.net, m.pass.net, {});
        RouteAlike(env, p.net, p.conns, m.pass.net, map[], {}, op);
      }
    } else {
      RouteTwice(env, matches, p.net, p.conns, op);
    }
  }

  /** The pass that takes over from a dropped one. */
  function Restart(m: Machine): Pass { StartPass(m.pass.net, m.pass.reports, m.pass.log) }

  /** How many operations of the batch the dropped pass has logged. */
  function Done(start: Pass, ops: seq<Operation>, m: Machine): (n: nat)
    ensures n <= |ops|
  {
    if |start.log| <= |m.pass.log| <= |start.log| + |ops| then |m.pass.log| - |start.log| else 0
  }

  /** The account exists and has no password. */
  ghost predicate NoPassword(net: Net, dc: string, dn: string) {
    dn in DirOf(net, dc) && DirOf(net, dc)[dn].password == None
  }

  ghost predicate WithoutPasswords(net: Net, stubs: Holes) {
    forall h :: h in stubs ==> NoPassword(net, h.0, h.1)
  }

  /**
   What the pass that takes over finds: what the undisturbed pass finds at the same operation, or, once it
   has executed that operation again, what it leaves there, up to the password of the stub.
   */
  lemma Handover(
      env: Env, matches: (string, string, string, Entry) -> bool, start: Pass, ops: seq<Operation>, k: nat)
    requires start.conns == map[] && NoFaults(env.clockwork, |start.log| + |ops|)
    requires Steady(env.dialer.server) && SearchesBy(env.dialer.server, matches) && ForestsAgree(env, ops)
    requires UniqueInterrupted(env, start, ops, Reach(env, start, ops, k))
    ensures var m := Reach(env, start, ops, k);
            var i := m.phase.i;
            && i <= |ops| && (!m.phase.Next? ==> i < |ops|) && !m.phase.Stopped?
            && |m.pass.log| == |start.log| + i && i == Done(start, ops, m)
            && RunOps(env, start, ops[..i]).1 == None
            && m.pass.log == Before(env, start, ops, i).log
            && RunOps(env, start, ops) == RunOps(env, Before(env, start, ops, i), ops[i..])
            && CacheOkForAll(env, Before(env, start, ops, i).conns, ops)
            && if m.phase.Next? then m.pass == Before(env, start, ops, i)
               else Alike(OutcomeAt(env, start, ops, i).net, RouteAndProcess(env, m.pass.net, map[], ops[i]).0, Stub(m))
  {
    var m := Reach(env, start, ops, k);
    var i := m.phase.i;
    ReachInOrder(env, start, ops, k);
    LagAtMostOne(env, start, ops, k);
    CompletedTrail(env, start, ops, i);
    assert !m.phase.Stopped?;
    RunOpsSplit(env, start, ops, i);
    BeforeCacheOk(env, start, ops, i);
    if !m.phase.Next? {
      RedeliverOne(env, matches, start, ops, k);
    }
  }

  /**
   Crash and redelivery. Drop a pass at any await, and run a new pass over the operations from the first
   one without a log record: the directories end as in the undisturbed pass, except that the account of a
   CREATE dropped between its add and its password is left without one. Only in that case does it matter
   whether a password can influence a server.
   */
  lemma CrashAndRedeliver(
      env: Env, matches: (string, string, string, Entry) -> bool, start: Pass, ops: seq<Operation>, k: nat)
    requires start.conns == map[] && NoFaults(env.clockwork, |start.log| + |ops|)
    requires Steady(env.dialer.server) && SearchesBy(env.dialer.server, matches) && ForestsAgree(env, ops)
    requires UniqueInterrupted(env, start, ops, Reach(env, start, ops, k))
    requires StubIgnored(env, start, ops, Reach(env, start, ops, k))
    ensures var m := Reach(env, start, ops, k);
            var i := |m.pass.log| - |start.log|;
            && i == Done(start, ops, m)
            && Alike(RunOps(env, start, ops).0.net, RunOps(env, Restart(m), ops[i..]).0.net, Stub(m))
            && WithoutPasswords(RunOps(env, Restart(m), ops[i..]).0.net, Stub(m))
  {
    var m := Reach(env, start, ops, k);
    var i := m.phase.i;
    Handover(env, matches, start, ops, k);
    var p := Before(env, start, ops, i);
    if m.phase.Next? {
      AlikeRefl(p.net, p.net, {});
      RestAgree(env, p.conns, ops, i);
      RunAlike(env, p, Restart(m), ops[i..], {});
    } else {
      RedeliverRest(env, p, Restart(m), ops, i, Stub(m));
      StubStays(env, start, ops, k, Restart(m), ops[i..]);
    }
  }

  lemma RedeliverRest(env: Env, p: Pass, again: Pass, ops: seq<Operation>, i: nat, holes: Holes)
    requires i < |ops| && Steady(env.dialer.server) && ForestsAgree(env, ops)
    requires CacheOkForAll(env, p.conns, ops) && again.conns == map[]
    requires Alike(CompleteOp(env, p, ops[i]).net, CompleteOp(env, again, ops[i]).net, holes)
    requires var sent := |CompleteOp(env, p, ops[i]).net.wire|;
             Undisturbed(env.dialer.server, holes, RunOps(env, p, ops[i..]).0.net.wire, sent)
    requires NoFaults(env.clockwork, |p.log| + |ops[i..]|) && NoFaults(env.clockwork, |again.log| + |ops[i..]|)
    ensures Alike(RunOps(env, p, ops[i..]).0.net, RunOps(env, again, ops[i..]).0.net, holes)
  {
    var rest := ops[i..];
    assert rest[0] == ops[i] && rest[1..] == ops[i + 1..];
    RestAgree(env, p.conns, ops, i);
    RestAgree(env, again.conns, ops, i);
    KeepsCaches(env, p, rest);
    KeepsCaches(env, again, rest);
    RunAlike(env, CompleteOp(env, p, ops[i]), CompleteOp(env, again, ops[i]), rest[1..], holes);
  }

  /** An account dropped between its add and its password stays without one. */
  lemma StubStays(env: Env, start: Pass, ops: seq<Operation>, k: nat, again: Pass, more: seq<Operation>)
    requires again.net == Reach(env, start, ops, k).pass.net
    ensures WithoutPasswords(RunOps(env, again, more).0.net, Stub(Reach(env, start, ops, k)))
  {
    var m := Reach(env, start, ops, k);
    if Stub(m) != {} {
      ReachUnderway(env, start, ops, k);
      AdOutcome.RunKeepsPassword(env, again, more, m.phase.task.conn.dc, m.phase.task.dn);
    }
  }

  // --- any number of crashes --------------------------------------------------------------------

  /** The last of a series of passes, each of which but the last is dropped after the given number of steps. */
  function Redelivered(env: Env, start: Pass, ops: seq<Operation>, drops: seq<nat>): Pass
    decreases |drops|
  {
    if drops == [] then RunOps(env, start, ops).0
    else
      var m := Reach(env, start, ops, drops[0]);
      Redelivered(env, Restart(m), ops[Done(start, ops, m)..], drops[1..])
  }

  /** The accounts of all the CREATEs that were dropped between their add and their password. */
  function Stubs(env: Env, start: Pass, ops: seq<Operation>, drops: seq<nat>): Holes
    decreases |drops|
  {
    if drops == [] then {}
    else
      var m := Reach(env, start, ops, drops[0]);
      Stub(m) + Stubs(env, Restart(m), ops[Done(start, ops, m)..], drops[1..])
  }

  /** What one crash asks of its pass, asked of every pass of the series. */
  ghost predicate Orderly(env: Env, start: Pass, ops: seq<Operation>, drops: seq<nat>)
    decreases |drops|
  {
    drops != [] ==>
      var m := Reach(env, start, ops, drops[0]);
      UniqueInterrupted(env, start, ops, m) && Orderly(env, Restart(m), ops[Done(start, ops, m)..], drops[1..])
  }

  ghost predicate StubsIgnored(env: Env, start: Pass, ops: seq<Operation>, drops: seq<nat>)
    decreases |drops|
  {
    drops != [] ==>
      var m := Reach(env, start, ops, drops[0]);
      StubIgnored(env, start, ops, m) && StubsIgnored(env, Restart(m), ops[Done(start, ops, m)..], drops[1..])
  }

  /**
   Any number of crashes. However often the agent is dropped, and wherever, and redelivered the operations
   it has not logged, the directories end as if nothing had happened, except for the passwords of the
   accounts that were dropped between their add and their password: those have none.
   */
  lemma {:induction false} CrashesAndRedeliveries(
      env: Env, matches: (string, string, string, Entry) -> bool, start: Pass, ops: seq<Operation>, drops: seq<nat>)
    requires start.conns == map[] && NoFaults(env.clockwork, |start.log| + |ops|)
    requires Steady(env.dialer.server) && SearchesBy(env.dialer.server, matches) && ForestsAgree(env, ops)
    requires Orderly(env, start, ops, drops) && StubsIgnored(env, start, ops, drops)
    ensures var net, stubs := Redelivered(env, start, ops, drops).net, Stubs(env, start, ops, drops);
            Alike(RunOps(env, start, ops).0.net, net, stubs) && WithoutPasswords(net, stubs)
    decreases |drops|
  {
    StubsStay(env, start, ops, drops);
    if drops == [] {
      AlikeRefl(RunOps(env, start, ops).0.net, RunOps(env, start, ops).0.net, {});
    } else {
      var m := Reach(env, start, ops, drops[0]);
      var rest := ops[Done(start, ops, m)..];
      CrashAndRedeliver(env, matches, start, ops, drops[0]);
      RestOrderly(env, start, ops, m);
      CrashesAndRedeliveries(env, matches, Restart(m), rest, drops[1..]);
      AlikeTrans(
        RunOps(env, start, ops).0.net, RunOps(env, Restart(m), rest).0.net,
        Redelivered(env, Restart(m), rest, drops[1..]).net, Stub(m), Stubs(env, Restart(m), rest, drops[1..]));
    }
  }

  /** The accounts left without a password stay so to the end. */
  lemma {:induction false} StubsStay(env: Env, start: Pass, ops: seq<Operation>, drops: seq<nat>)
    ensures WithoutPasswords(Redelivered(env, start, ops, drops).net, Stubs(env, start, ops, drops))
    decreases |drops|
  {
    if drops != [] {
      var m := Reach(env, start, ops, drops[0]);
      FirstStubStays(env, start, ops, drops);
      StubsStay(env, Restart(m), ops[Done(start, ops, m)..], drops[1..]);
    }
  }

  lemma RestOrderly(env: Env, start: Pass, ops: seq<Operation>, m: Machine)
    requires NoFaults(env.clockwork, |start.log| + |ops|) && ForestsAgree(env, ops)
    requires |m.pass.log| - |start.log| == Done(start, ops, m)
    ensures NoFaults(env.clockwork, |Restart(m).log| + |ops[Done(start, ops, m)..]|)
    ensures ForestsAgree(env, ops[Done(start, ops, m)..])
  {
    var i := Done(start, ops, m);
    assert forall j :: 0 <= j < |ops[i..]| ==> ops[i..][j] == ops[i + j];
  }

  // --- no later pass touches the password of an entry it finds ----------------------------------

  /** The entry is still there with its password, and not about to be given one. */
  ghost predicate Keeps(dc: string, dn: string, password: Option<seq<byte>>, w: Work) {
    && dn in DirOf(w.net, dc) && DirOf(w.net, dc)[dn].password == password
    && (w.task.WritingPassword? ==> (w.task.conn.dc, w.task.dn) != (dc, dn))
  }

  lemma SubmitKeeps(
      s: Server, net: Net, conn: Conn, opType: string, request: Request, dc: string, dn: string)
    requires dn in DirOf(net, dc) && (request.SetPassword? ==> (conn.dc, request.dn) != (dc, dn))
    ensures var (net', error) := Submit(s, net, conn, opType, request);
            && dn in DirOf(net', dc) && DirOf(net', dc)[dn].password == DirOf(net, dc)[dn].password
            && (request.Add? && error.None? ==> (conn.dc, request.dn) != (dc, dn))
  {
    SubmitFrame(s, net, conn, opType, request);
  }

  lemma StepKeeps(env: Env, op: Operation, w: Work, dc: string, dn: string, password: Option<seq<byte>>)
    requires Keeps(dc, dn, password, w)
    ensures Keeps(dc, dn, password, TaskStep(env, op, w))
  {
    var s := env.dialer.server;
    match w.task
    case Dialing(ctx, hosts) =>
      if hosts != [] {
        var conn := ConnFor(env.dialer, ctx, BaseDn(ctx, op.targetBaseDn), hosts[0]);
        SubmitKeeps(s, w.net, conn, op.opType, Connect(Url(ctx, hosts[0])), dc, dn);
      }
    case Binding(_, _, _) => BindKeeps(env, op, w, dc, dn, password);
    case Adding(conn, dn', attrs, _) => SubmitKeeps(s, w.net, conn, op.opType, Add(dn', attrs), dc, dn);
    case WritingPassword(conn, dn', plaintext) =>
      SubmitKeeps(s, w.net, conn, op.opType, SetPassword(dn', Utf16.PasswordBytes(plaintext)), dc, dn);
    case Finding(conn, email, _) =>
      SubmitKeeps(s, w.net, conn, op.opType, Search(conn.baseDn, EmailFilter(email)), dc, dn);
    case Modifying(conn, dn', goal) =>
      SubmitKeeps(s, w.net, conn, op.opType, Modify(dn', GoalChanges(goal)), dc, dn);
    case Counting(conn, base, filter, _) => SubmitKeeps(s, w.net, conn, op.opType, Search(base, filter), dc, dn);
    case Settled(_) =>
  }

  lemma BindKeeps(env: Env, op: Operation, w: Work, dc: string, dn: string, password: Option<seq<byte>>)
    requires w.task.Binding? && Keeps(dc, dn, password, w)
    ensures Keeps(dc, dn, password, TaskStep(env, op, w))
  {
    var ctx, hosts := w.task.ctx, w.task.hosts;
    if hosts != [] {
      var conn := ConnFor(env.dialer, ctx, BaseDn(ctx, op.targetBaseDn), hosts[0]);
      SubmitKeeps(env.dialer.server, w.net, conn, op.opType, Bind(w.task.login), dc, dn);
      BeginShape(env, conn, op);
    }
  }

  /** The work of a pass at any await; between operations there is none. */
  function WorkOf(m: Machine): Work {
    Work(m.pass.net, m.pass.conns, if m.phase.Working? then m.phase.task else Settled(Err("")))
  }

  lemma MachineStepKeeps(
      env: Env, ops: seq<Operation>, m: Machine, dc: string, dn: string, password: Option<seq<byte>>)
    requires Keeps(dc, dn, password, WorkOf(m))
    ensures Keeps(dc, dn, password, WorkOf(Step(env, ops, m)))
  {
    var i := m.phase.i;
    if i < |ops| {
      if m.phase.Next? {
        StartShape(env, m.pass.conns, ops[i]);
      } else if m.phase.Working? {
        StepKeeps(env, ops[i], WorkOf(m), dc, dn, password);
      }
    }
  }

  /** No operation begins with its password. */
  lemma StartShape(env: Env, conns: Conns, op: Operation)
    ensures !Start(env, conns, op).WritingPassword?
  {
    BeginShape(env, env.home, op);
    if op.forestContextJson.Some? {
      var ctx := env.parseForest(op.forestContextJson.value);
      if ctx.Ok? && ctx.value.forestId in conns {
        BeginShape(env, conns[ctx.value.forestId], op);
      }
    }
  }

  lemma ReachKeeps(env: Env, start: Pass, ops: seq<Operation>, k: nat, dc: string, dn: string)
    requires NoPassword(start.net, dc, dn)
    ensures NoPassword(Reach(env, start, ops, k).pass.net, dc, dn)
  {
    var inv := m => Keeps(dc, dn, None, WorkOf(m));
    forall m | inv(m) ensures inv(Step(env, ops, m)) {
      MachineStepKeeps(env, ops, m, dc, dn, None);
    }
    Invariant(StepOf(env, ops), inv, Machine(start, Next(0)), k);
  }

  lemma {:induction false} RedeliveredKeeps(
      env: Env, start: Pass, ops: seq<Operation>, drops: seq<nat>, dc: string, dn: string)
    requires NoPassword(start.net, dc, dn)
    ensures NoPassword(Redelivered(env, start, ops, drops).net, dc, dn)
    decreases |drops|
  {
    if drops == [] {
      AdOutcome.RunKeepsPassword(env, start, ops, dc, dn);
    } else {
      var m := Reach(env, start, ops, drops[0]);
      ReachKeeps(env, start, ops, drops[0], dc, dn);
      RedeliveredKeeps(env, Restart(m), ops[Done(start, ops, m)..], drops[1..], dc, dn);
    }
  }

  lemma FirstStubStays(env: Env, start: Pass, ops: seq<Operation>, drops: seq<nat>)
    requires drops != []
    ensures WithoutPasswords(Redelivered(env, start, ops, drops).net, Stub(Reach(env, start, ops, drops[0])))
  {
    var m := Reach(env, start, ops, drops[0]);
    if Stub(m) != {} {
      ReachUnderway(env, start, ops, drops[0]);
      var dc, dn := m.phase.task.conn.dc, m.phase.task.dn;
      RedeliveredKeeps(env, Restart(m), ops[Done(start, ops, m)..], drops[1..], dc, dn);
    }
  }
}
