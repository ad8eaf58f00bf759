/** The lifecycle of the accounts the agent creates, over any number of passes dropped anywhere. */
module AdLifecycle {
  import opened Text
  import opened Directory
  import opened Ldap
  import opened Forest
  import opened AdMode
  import opened AdMachine
  import opened AdSteps

  /**
   The userAccountControl an account should have, read off the requests that took effect: 514 from its
   creation, then 512 or 514 by the last ENABLE or DISABLE resolved to its DN. `None` for an account that
   the agent did not create.
   */
  function Life(wire: seq<Sent>, dc: string, dn: string): Option<string> {
    if wire == [] then None
    else
      var past, last := Life(wire[..|wire| - 1], dc, dn), wire[|wire| - 1];
      if !last.accepted || last.conn.dc != dc then past
      else match last.request
        case Add(dn', _) => if dn' == dn then Some("514") else past
        case Modify(dn', _) =>
          if dn' != dn || past.None? then past
          else if last.opType == "ENABLE_ACCOUNT" then Some("512")
          else if last.opType == "DISABLE_ACCOUNT" then Some("514")
          else past
        case _ => past
  }

  /** An accepted request created the account. */
  predicate Adds(sent: Sent, dc: string, dn: string) {
    sent.accepted && sent.conn.dc == dc && sent.request.Add? && sent.request.dn == dn
  }

  /** An accepted request of an operation of this type changed the account. */
  predicate Switches(sent: Sent, opType: string, dc: string, dn: string) {
    sent.accepted && sent.conn.dc == dc && sent.opType == opType && sent.request.Modify? && sent.request.dn == dn
  }

  ghost predicate WasCreated(wire: seq<Sent>, dc: string, dn: string) {
    exists t :: 0 <= t < |wire| && Adds(wire[t], dc, dn)
  }

  /** The last ENABLE or DISABLE of the account was request `t`, an ENABLE. */
  ghost predicate EnabledAt(wire: seq<Sent>, dc: string, dn: string, t: nat) {
    && t < |wire| && Switches(wire[t], "ENABLE_ACCOUNT", dc, dn)
    && forall u :: t < u < |wire| ==> !Switches(wire[u], "DISABLE_ACCOUNT", dc, dn)
  }

  ghost predicate EnabledLast(wire: seq<Sent>, dc: string, dn: string) { exists t :: EnabledAt(wire, dc, dn, t) }

  /** No account is created after it was created or changed. */
  ghost predicate CreatedFirst(wire: seq<Sent>) {
    forall t, u :: 0 <= t < u < |wire| && Touches(wire[t]) ==> !Adds(wire[u], wire[t].conn.dc, wire[t].request.dn)
  }

  /** Accounts that were created or changed are there, and none was created after it was. */
  ghost predicate Grown(net: Net) {
    && (forall t :: 0 <= t < |net.wire| && Touches(net.wire[t]) ==>
         net.wire[t].request.dn in DirOf(net, net.wire[t].conn.dc))
    && CreatedFirst(net.wire)
  }

  predicate Touches(sent: Sent) { sent.accepted && (sent.request.Add? || sent.request.Modify?) }

  lemma SubmitGrown(s: Server, net: Net, conn: Conn, opType: string, request: Request)
    requires Grown(net)
    ensures Grown(Submit(s, net, conn, opType, request).0)
  {
    var net' := Submit(s, net, conn, opType, request).0;
    SubmitFrame(s, net, conn, opType, request);
    assert net'.wire[..|net.wire|] == net.wire;
    forall dc, dn | dn in DirOf(net, dc) ensures dn in DirOf(net', dc) {
    }
    forall t | 0 <= t < |net.wire| && Touches(net'.wire[t]) ensures net'.wire[t] == net.wire[t] {
    }
  }

  /** Every account the agent created is in the state its history calls for. */
  ghost predicate Lively(net: Net) {
    && Grown(net)
    && forall dc, dn :: Life(net.wire, dc, dn).Some? ==> InState(DirOf(net, dc), dn, Life(net.wire, dc, dn).value)
  }

  predicate InState(dir: Dir, dn: string, uac: string) {
    && dn in dir && "userAccountControl" in dir[dn].attrs
    && dir[dn].attrs["userAccountControl"] == {uac}
  }

  /** The change an operation of this type makes to userAccountControl, if any. */
  predicate ChangesFit(opType: string, changes: Attrs) {
    if opType == "ENABLE_ACCOUNT" then changes == map["userAccountControl" := {"512"}]
    else if opType == "DISABLE_ACCOUNT" then changes == map["userAccountControl" := {"514"}]
    else "userAccountControl" !in changes
  }

  predicate RequestFits(opType: string, request: Request) {
    match request
    case Add(_, attrs) => "userAccountControl" in attrs && attrs["userAccountControl"] == {"514"}
    case Modify(_, changes) => ChangesFit(opType, changes)
    case _ => true
  }

  lemma SubmitLively(s: Server, net: Net, conn: Conn, opType: string, request: Request)
    requires Lively(net) && RequestFits(opType, request)
    ensures Lively(Submit(s, net, conn, opType, request).0)
  {
    var net' := Submit(s, net, conn, opType, request).0;
    assert net'.wire[..|net'.wire| - 1] == net.wire;
    SubmitFrame(s, net, conn, opType, request);
    SubmitGrown(s, net, conn, opType, request);
    forall dc, dn | Life(net'.wire, dc, dn).Some? ensures InState(DirOf(net', dc), dn, Life(net'.wire, dc, dn).value) {
      if Life(net.wire, dc, dn).Some? {
        assert InState(DirOf(net, dc), dn, Life(net.wire, dc, dn).value);
      }
    }
  }

  /** No attribute list that the broker sends names userAccountControl. */
  ghost predicate NoUac(env: Env, ops: seq<Operation>) {
    forall i :: 0 <= i < |ops| ==> OpNoUac(env, ops[i])
  }

  ghost predicate OpNoUac(env: Env, op: Operation) {
    Attributes(env, op).Ok? ==> !Kept(Attributes(env, op).value, "userAccountControl")
  }

  ghost predicate TaskFits(opType: string, task: Task) {
    match task
    case Adding(_, dn, attrs, _) => RequestFits(opType, Add(dn, attrs))
    case Finding(_, _, goal) => ChangesFit(opType, GoalChanges(goal))
    case Modifying(_, _, goal) => ChangesFit(opType, GoalChanges(goal))
    case _ => true
  }

  lemma BeginFits(env: Env, conn: Conn, op: Operation)
    requires OpNoUac(env, op)
    ensures TaskFits(op.opType, Begin(env, conn, op))
  {
    var attributes := Attributes(env, op);
    if op.opType == "CREATE_ACCOUNT" && attributes.Ok? {
      var attrs := AccountAttrs(attributes.value);
      assert "userAccountControl" in attrs && attrs["userAccountControl"] == {} + {} + {"514"};
    }
  }

  lemma PendingFits(env: Env, op: Operation, task: Task)
    requires TaskFits(op.opType, task)
    ensures Pending(env, op, task).Some? ==> RequestFits(op.opType, Pending(env, op, task).value.1)
  {
  }

  lemma StepFits(env: Env, op: Operation, w: Work)
    requires OpNoUac(env, op) && TaskFits(op.opType, w.task)
    ensures TaskFits(op.opType, TaskStep(env, op, w).task)
  {
    if w.task.Binding? && w.task.hosts != [] {
      BeginFits(env, ConnFor(env.dialer, w.task.ctx, BaseDn(w.task.ctx, op.targetBaseDn), w.task.hosts[0]), op);
    }
  }

  ghost predicate LivelyWork(opType: string, w: Work) { Lively(w.net) && TaskFits(opType, w.task) }

  lemma StepLively(env: Env, op: Operation, w: Work)
    requires OpNoUac(env, op) && LivelyWork(op.opType, w)
    ensures LivelyWork(op.opType, TaskStep(env, op, w))
  {
    PendingFits(env, op, w.task);
    StepFits(env, op, w);
    StepSends(env, op, w);
    match Pending(env, op, w.task)
    case None =>
    case Some((conn, request)) => SubmitLively(env.dialer.server, w.net, conn, op.opType, request);
  }

  ghost predicate LivelyMachine(ops: seq<Operation>, m: Machine) {
    && Lively(m.pass.net)
    && (m.phase.Working? && m.phase.i < |ops| ==> TaskFits(ops[m.phase.i].opType, m.phase.task))
  }

  lemma MachineStepLively(env: Env, ops: seq<Operation>, m: Machine)
    requires NoUac(env, ops) && LivelyMachine(ops, m)
    ensures LivelyMachine(ops, Step(env, ops, m))
  {
    var i := m.phase.i;
    if i < |ops| {
      var op := ops[i];
      assert OpNoUac(env, op);
      if m.phase.Next? {
        StartFits(env, m.pass.conns, op);
      } else if m.phase.Working? {
        StepLively(env, op, Work(m.pass.net, m.pass.conns, m.phase.task));
      }
    }
  }

  lemma StartFits(env: Env, conns: Conns, op: Operation)
    requires OpNoUac(env, op)
    ensures TaskFits(op.opType, Start(env, conns, op))
  {
    BeginFits(env, env.home, op);
    if op.forestContextJson.Some? {
      var ctx := env.parseForest(op.forestContextJson.value);
      if ctx.Ok? && ctx.value.forestId in conns {
        BeginFits(env, conns[ctx.value.forestId], op);
      }
    }
  }

  lemma PassLively(env: Env, start: Pass, ops: seq<Operation>, k: nat)
    requires NoUac(env, ops) && Lively(start.net)
    ensures Lively(Reach(env, start, ops, k).pass.net)
  {
    var inv := m => LivelyMachine(ops, m);
    forall m | inv(m) ensures inv(Step(env, ops, m)) {
      MachineStepLively(env, ops, m);
    }
    Invariant(StepOf(env, ops), inv, Machine(start, Next(0)), k);
  }

  // --- over all runs ----------------------------------------------------------------------------

  /** One pass of some process: its surroundings, its batch, and after how many steps it was dropped. */
  datatype Shift = Shift(env: Env, ops: seq<Operation>, steps: nat)

  /** The directories after a history of passes, each starting afresh. */
  function AfterShifts(net: Net, shifts: seq<Shift>): Net
    decreases |shifts|
  {
    if shifts == [] then net
    else AfterShifts(Reach(shifts[0].env, StartPass(net, [], []), shifts[0].ops, shifts[0].steps).pass.net, shifts[1..])
  }

  /**
   Account lifecycle. As long as no attribute list names userAccountControl, every account the agent
   created is at 512 exactly when the last ENABLE or DISABLE that resolved to its DN was an ENABLE, and at
   514 otherwise, however many passes ran, wherever each was dropped, and whatever attributes changed.
   */
  lemma {:induction false} LifecycleHolds(net: Net, shifts: seq<Shift>)
    requires Lively(net) && forall i :: 0 <= i < |shifts| ==> NoUac(shifts[i].env, shifts[i].ops)
    ensures Lively(AfterShifts(net, shifts))
    decreases |shifts|
  {
    if shifts != [] {
      var first := shifts[0];
      PassLively(first.env, StartPass(net, [], []), first.ops, first.steps);
      LifecycleHolds(Reach(first.env, StartPass(net, [], []), first.ops, first.steps).pass.net, shifts[1..]);
    }
  }

  lemma CreatedSnoc(past: seq<Sent>, last: Sent, dc: string, dn: string)
    ensures WasCreated(past + [last], dc, dn) <==> WasCreated(past, dc, dn) || Adds(last, dc, dn)
  {
    var wire := past + [last];
    if WasCreated(past, dc, dn) {
      var t :| 0 <= t < |past| && Adds(past[t], dc, dn);
      assert Adds(wire[t], dc, dn);
    }
    assert wire[|past|] == last;
  }

  lemma EnabledSnoc(past: seq<Sent>, last: Sent, dc: string, dn: string)
    ensures EnabledLast(past + [last], dc, dn)
        <==> || Switches(last, "ENABLE_ACCOUNT", dc, dn)
             || (EnabledLast(past, dc, dn) && !Switches(last, "DISABLE_ACCOUNT", dc, dn))
  {
    var wire := past + [last];
    assert wire[|past|] == last;
    if Switches(last, "ENABLE_ACCOUNT", dc, dn) {
      assert EnabledAt(wire, dc, dn, |past|);
    }
    if EnabledLast(past, dc, dn) && !Switches(last, "DISABLE_ACCOUNT", dc, dn) {
      var t: nat :| EnabledAt(past, dc, dn, t);
      assert forall u :: 0 <= u < |past| ==> wire[u] == past[u];
      assert EnabledAt(wire, dc, dn, t);
    }
    if EnabledLast(wire, dc, dn) && !Switches(last, "ENABLE_ACCOUNT", dc, dn) {
      var t: nat :| EnabledAt(wire, dc, dn, t);
      assert forall u :: 0 <= u < |past| ==> wire[u] == past[u];
      assert EnabledAt(past, dc, dn, t);
    }
  }

  /** Nothing precedes the creation of an account. */
  lemma NothingBefore(past: seq<Sent>, last: Sent, dc: string, dn: string)
    requires CreatedFirst(past + [last]) && Adds(last, dc, dn)
    ensures !EnabledLast(past, dc, dn)
  {
    var wire := past + [last];
    assert wire[|past|] == last;
    if EnabledLast(past, dc, dn) {
      var t: nat :| EnabledAt(past, dc, dn, t);
      assert wire[t] == past[t] && Touches(wire[t]);
    }
  }

  /** Read off such a history, an account is as its creation and its last switch left it. */
  lemma {:induction false} LifeReads(wire: seq<Sent>, dc: string, dn: string)
    requires CreatedFirst(wire)
    ensures Life(wire, dc, dn)
         == if WasCreated(wire, dc, dn) then Some(if EnabledLast(wire, dc, dn) then "512" else "514") else None
  {
    if wire != [] {
      var past, last := wire[..|wire| - 1], wire[|wire| - 1];
      assert wire == past + [last];
      LifeReads(past, dc, dn);
      CreatedSnoc(past, last, dc, dn);
      EnabledSnoc(past, last, dc, dn);
      if Adds(last, dc, dn) {
        NothingBefore(past, last, dc, dn);
      }
    }
  }

  /**
   Starting from directories the agent has not touched, in the directory's own values: an account the agent
   created holds userAccountControl 512 exactly when the last ENABLE or DISABLE of it was an ENABLE, and 514
   otherwise.
   */
  lemma LifecycleFromUntouched(dcs: map<string, Dir>, shifts: seq<Shift>, dc: string, dn: string)
    requires forall i :: 0 <= i < |shifts| ==> NoUac(shifts[i].env, shifts[i].ops)
    ensures var net := AfterShifts(Net(dcs, []), shifts);
            WasCreated(net.wire, dc, dn) ==>
              && dn in DirOf(net, dc) && "userAccountControl" in DirOf(net, dc)[dn].attrs
              && DirOf(net, dc)[dn].attrs["userAccountControl"]
                 == {if EnabledLast(net.wire, dc, dn) then "512" else "514"}
  {
    LifecycleHolds(Net(dcs, []), shifts);
    var net := AfterShifts(Net(dcs, []), shifts);
    LifeReads(net.wire, dc, dn);
  }
}
