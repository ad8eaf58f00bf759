/** The per-forest connection cache of a pass. */
module AdCache {
  import opened Text
  import opened Journal
  import opened Directory
  import opened Forest
  import opened AdMode
  import opened AdSteps
  import opened AdAlike

  /** The forest an operation names, when its context can be read. */
  function ForestOf(env: Env, op: Operation): Option<ForestContext> {
    match op.forestContextJson
    case None => None
    case Some(json) => match env.parseForest(json) case Ok(ctx) => Some(ctx) case Err(_) => None
  }

  predicate Names(env: Env, op: Operation, forest: string) {
    ForestOf(env, op).Some? && ForestOf(env, op).value.forestId == forest
  }

  // --- which connection is used, in general -----------------------------------------------------

  /** What dialling the forest of operation `j` gives at its place in the pass. */
  function DialAt(env: Env, start: Pass, ops: seq<Operation>, j: nat): Result<Conn>
    requires j < |ops| && ForestOf(env, ops[j]).Some?
  {
    var net, ctx := Before(env, start, ops, j).net, ForestOf(env, ops[j]).value;
    ConnectForest(env.dialer, net, ctx, ops[j].targetBaseDn, ops[j].opType).1
  }

  /** Every attempt to dial the forest among the first `i` operations failed. */
  ghost predicate NeverDialled(env: Env, start: Pass, ops: seq<Operation>, i: nat, forest: string)
    requires i <= |ops|
  {
    forall k :: 0 <= k < i && Names(env, ops[k], forest) ==> DialAt(env, start, ops, k).Err?
  }

  /** One operation caches at most the connection of its own forest, and only if it had to dial it. */
  lemma CacheStep(env: Env, start: Pass, ops: seq<Operation>, i: nat, forest: string)
    requires i < |ops| && RunOps(env, start, ops[..i + 1]).1 == None
    ensures RunOps(env, start, ops[..i]).1 == None
    ensures var c, c' := Before(env, start, ops, i).conns, Before(env, start, ops, i + 1).conns;
            && (forest in c ==> forest in c' && c'[forest] == c[forest])
            && (forest !in c && !Names(env, ops[i], forest) ==> forest !in c')
            && (forest !in c && Names(env, ops[i], forest) ==>
                  var bound := DialAt(env, start, ops, i);
                  if bound.Ok? then forest in c' && c'[forest] == bound.value else forest !in c')
  {
    BeforeSnoc(env, start, ops, i);
    RouteCaches(env, Before(env, start, ops, i), ops[i], forest);
  }

  lemma RouteCaches(env: Env, p: Pass, op: Operation, forest: string)
    ensures var c, c' := p.conns, CompleteOp(env, p, op).conns;
            && (forest in c ==> forest in c' && c'[forest] == c[forest])
            && (forest !in c && !Names(env, op, forest) ==> forest !in c')
            && (forest !in c && Names(env, op, forest) ==>
                  var bound := ConnectForest(env.dialer, p.net, ForestOf(env, op).value, op.targetBaseDn, op.opType).1;
                  if bound.Ok? then forest in c' && c'[forest] == bound.value else forest !in c')
  {
  }

  /**
   A cached connection is the one of the first operation of that forest whose connect succeeded; a forest
   is not cached exactly as long as every attempt to dial it has failed.
   */
  lemma {:induction false} FirstSuccessfulDial(
      env: Env, start: Pass, ops: seq<Operation>, i: nat, forest: string)
    returns (j: nat)
    requires start.conns == map[] && i <= |ops| && RunOps(env, start, ops[..i]).1 == None
    ensures var conns := Before(env, start, ops, i).conns;
            if forest in conns then
              && j < i && Names(env, ops[j], forest)
              && DialAt(env, start, ops, j) == Ok(conns[forest])
              && NeverDialled(env, start, ops, j, forest)
            else NeverDialled(env, start, ops, i, forest)
  {
    j := 0;
    if i > 0 {
      CacheStep(env, start, ops, i - 1, forest);
      j := FirstSuccessfulDial(env, start, ops, i - 1, forest);
      if forest !in Before(env, start, ops, i - 1).conns {
        if forest in Before(env, start, ops, i).conns {
          j := i - 1;
        } else {
          StillNotDialled(env, start, ops, i - 1, forest);
        }
      }
    }
  }

  lemma StillNotDialled(env: Env, start: Pass, ops: seq<Operation>, i: nat, forest: string)
    requires i < |ops| && NeverDialled(env, start, ops, i, forest)
    requires Names(env, ops[i], forest) ==> DialAt(env, start, ops, i).Err?
    ensures NeverDialled(env, start, ops, i + 1, forest)
  {
  }

  /** The connection an operation is run on: the default one, the cached one, or a new one. */
  function ConnectionFor(env: Env, net: Net, conns: Conns, op: Operation): Option<Conn> {
    match op.forestContextJson
    case None => Some(env.home)
    case Some(_) =>
      match ForestOf(env, op)
      case None => None
      case Some(ctx) =>
        if ctx.forestId in conns then Some(conns[ctx.forestId])
        else match ConnectForest(env.dialer, net, ctx, op.targetBaseDn, op.opType).1
          case Ok(conn) => Some(conn)
          case Err(_) => None
  }

  /** Every operation of a forest runs on one and the same connection, once one of them could connect. */
  lemma OneConnectionPerForest(env: Env, start: Pass, ops: seq<Operation>, j: nat, i: nat, forest: string)
    requires start.conns == map[] && j < i < |ops| && RunOps(env, start, ops[..i]).1 == None
    requires Names(env, ops[j], forest) && Names(env, ops[i], forest)
    requires var p := Before(env, start, ops, j); ConnectionFor(env, p.net, p.conns, ops[j]).Some?
    ensures var p, q := Before(env, start, ops, j), Before(env, start, ops, i);
            ConnectionFor(env, q.net, q.conns, ops[i]) == ConnectionFor(env, p.net, p.conns, ops[j])
  {
    var p := Before(env, start, ops, j);
    CacheGrows(env, start, ops, j + 1, i);
    CacheGrows(env, start, ops, j, j + 1);
    TrailStep(env, start, ops, j);
    assert Before(env, start, ops, j + 1).conns[forest] == ConnectionFor(env, p.net, p.conns, ops[j]).value;
  }

  lemma {:induction false} CacheGrows(env: Env, start: Pass, ops: seq<Operation>, j: nat, i: nat)
    requires j <= i <= |ops| && RunOps(env, start, ops[..i]).1 == None
    ensures RunOps(env, start, ops[..j]).1 == None
    ensures var c, c' := Before(env, start, ops, j).conns, Before(env, start, ops, i).conns;
            forall f :: f in c ==> f in c' && c'[f] == c[f]
  {
    if j < i {
      BeforeSnoc(env, start, ops, i - 1);
      CacheGrows(env, start, ops, j, i - 1);
      OpCacheGrows(env, Before(env, start, ops, i - 1), ops[i - 1]);
    }
  }

  lemma OpCacheGrows(env: Env, p: Pass, op: Operation)
    ensures var conns := CompleteOp(env, p, op).conns; forall f :: f in p.conns ==> f in conns && conns[f] == p.conns[f]
  {
  }

  // --- transparency -----------------------------------------------------------------------------

  const NOWHERE := Net(map[], [])

  /** What dialling a forest gives when answers depend on nothing but the request. */
  function FreshConn(env: Env, ctx: ForestContext, target: Option<string>): Result<Conn> {
    ConnectForest(env.dialer, NOWHERE, ctx, target, "").1
  }

  lemma SubmitSteady(s: Server, n1: Net, n2: Net, conn: Conn, t1: string, t2: string, request: Request)
    requires Steady(s) && (request.Connect? || request.Bind?)
    ensures Submit(s, n1, conn, t1, request).1 == Submit(s, n2, conn, t2, request).1
    ensures Submit(s, n1, conn, t1, request).0.dcs == n1.dcs
  {
    var d1, d2 := DirOf(n1, conn.dc), DirOf(n2, conn.dc);
    assert s.refuses(|n1.wire|, conn.dc, d1, request) == s.refuses(0, conn.dc, d1, request);
    assert s.refuses(|n2.wire|, conn.dc, d2, request) == s.refuses(0, conn.dc, d2, request);
  }

  lemma DialHostSteady(
      d: Dialer, n1: Net, n2: Net, ctx: ForestContext, base: string, t1: string, t2: string, host: string)
    requires Steady(d.server)
    ensures DialHost(d, n1, ctx, base, t1, host).1 == DialHost(d, n2, ctx, base, t2, host).1
    ensures DialHost(d, n1, ctx, base, t1, host).0.dcs == n1.dcs
  {
    var conn := ConnFor(d, ctx, base, host);
    var connect := Connect(Url(ctx, host));
    SubmitSteady(d.server, n1, n2, conn, t1, t2, connect);
    var login := Credentials(d, ctx, host);
    if login.Ok? {
      var m1, m2 := Submit(d.server, n1, conn, t1, connect).0, Submit(d.server, n2, conn, t2, connect).0;
      SubmitSteady(d.server, m1, m2, conn, t1, t2, Bind(login.value));
    }
  }

  lemma {:induction false} DialHostsSteady(
      d: Dialer, n1: Net, n2: Net, ctx: ForestContext, base: string, t1: string, t2: string, hosts: seq<string>,
      failure: string)
    requires Steady(d.server)
    ensures DialHosts(DialerOf(d, ctx, base, t1), n1, hosts, failure).1
         == DialHosts(DialerOf(d, ctx, base, t2), n2, hosts, failure).1
    ensures DialHosts(DialerOf(d, ctx, base, t1), n1, hosts, failure).0.dcs == n1.dcs
    decreases |hosts|
  {
    if hosts != [] {
      DialHostSteady(d, n1, n2, ctx, base, t1, t2, hosts[0]);
      var (m1, bound) := DialHost(d, n1, ctx, base, t1, hosts[0]);
      var m2 := DialHost(d, n2, ctx, base, t2, hosts[0]).0;
      if bound.Err? {
        DialHostsSteady(d, m1, m2, ctx, base, t1, t2, hosts[1..], bound.error);
      }
    }
  }

  lemma ConnectSteady(env: Env, net: Net, ctx: ForestContext, target: Option<string>, opType: string)
    requires Steady(env.dialer.server)
    ensures ConnectForest(env.dialer, net, ctx, target, opType).1 == FreshConn(env, ctx, target)
    ensures ConnectForest(env.dialer, net, ctx, target, opType).0.dcs == net.dcs
  {
    DialHostsSteady(env.dialer, net, NOWHERE, ctx, BaseDn(ctx, target), opType, "", Hosts(ctx), Unreachable(ctx));
  }

  /** A cached connection is what dialling for this operation would give. */
  ghost predicate CacheOk(env: Env, conns: Conns, op: Operation) {
    var ctx := ForestOf(env, op);
    ctx.Some? && ctx.value.forestId in conns ==>
      FreshConn(env, ctx.value, op.targetBaseDn) == Ok(conns[ctx.value.forestId])
  }

  ghost predicate CacheOkForAll(env: Env, conns: Conns, ops: seq<Operation>) {
    forall i :: 0 <= i < |ops| ==> CacheOk(env, conns, ops[i])
  }

  /** Operations that name one forest carry the same context and search base. */
  ghost predicate ForestsAgree(env: Env, ops: seq<Operation>) {
    forall i, j :: 0 <= i < |ops| && 0 <= j < |ops| ==> Agree(env, ops[i], ops[j])
  }

  ghost predicate Agree(env: Env, a: Operation, b: Operation) {
    var x, y := ForestOf(env, a), ForestOf(env, b);
    x.Some? && y.Some? && x.value.forestId == y.value.forestId ==>
      x == y && BaseDn(x.value, a.targetBaseDn) == BaseDn(y.value, b.targetBaseDn)
  }

  // --- the wire only grows ----------------------------------------------------------------------

  lemma ProcessGrows(env: Env, net: Net, conn: Conn, op: Operation)
    ensures net.wire <= Process(env, net, conn, op).0.wire
  {
    if op.opType in {"CREATE_ACCOUNT", "ENABLE_ACCOUNT", "DISABLE_ACCOUNT"} {
      ProvisionGrows(env, net, conn, op);
    }
  }

  lemma ProvisionGrows(env: Env, net: Net, conn: Conn, op: Operation)
    requires op.opType in {"CREATE_ACCOUNT", "ENABLE_ACCOUNT", "DISABLE_ACCOUNT"}
    ensures net.wire <= Process(env, net, conn, op).0.wire
  {
  }

  lemma {:induction false} DialGrows(
      d: Dialer, net: Net, ctx: ForestContext, base: string, opType: string, hosts: seq<string>, failure: string)
    ensures net.wire <= DialHosts(DialerOf(d, ctx, base, opType), net, hosts, failure).0.wire
    decreases |hosts|
  {
    if hosts != [] {
      var (net', bound) := DialHost(d, net, ctx, base, opType, hosts[0]);
      assert net.wire <= net'.wire;
      if bound.Err? {
        DialGrows(d, net', ctx, base, opType, hosts[1..], bound.error);
      }
    }
  }

  lemma RouteGrows(env: Env, net: Net, conns: Conns, op: Operation)
    ensures net.wire <= RouteAndProcess(env, net, conns, op).0.wire
  {
    if op.forestContextJson.None? {
      ProcessGrows(env, net, env.home, op);
    } else if ForestOf(env, op).Some? {
      var ctx := ForestOf(env, op).value;
      DialGrows(env.dialer, net, ctx, BaseDn(ctx, op.targetBaseDn), op.opType, Hosts(ctx), Unreachable(ctx));
      var (dialled, bound) := ConnectForest(env.dialer, net, ctx, op.targetBaseDn, op.opType);
      if ctx.forestId in conns {
        ProcessGrows(env, net, conns[ctx.forestId], op);
      } else if bound.Ok? {
        ProcessGrows(env, dialled, bound.value, op);
      }
    }
  }

  lemma {:induction false} RunGrows(env: Env, pass: Pass, ops: seq<Operation>)
    ensures pass.net.wire <= RunOps(env, pass, ops).0.net.wire
    decreases |ops|
  {
    if ops != [] {
      RouteGrows(env, pass.net, pass.conns, ops[0]);
      if env.clockwork.fault(|pass.log|).NoFault? {
        RunGrows(env, CompleteOp(env, pass, ops[0]), ops[1..]);
      }
    }
  }

  /** Two caches that are right for an operation route it to the same result. */
  lemma RouteAlike(env: Env, n1: Net, c1: Conns, n2: Net, c2: Conns, holes: Holes, op: Operation)
    requires Steady(env.dialer.server) && Alike(n1, n2, holes) && CacheOk(env, c1, op) && CacheOk(env, c2, op)
    requires Undisturbed(env.dialer.server, holes, RouteAndProcess(env, n1, c1, op).0.wire, |n1.wire|)
    ensures RouteAndProcess(env, n1, c1, op).2 == RouteAndProcess(env, n2, c2, op).2
    ensures Alike(RouteAndProcess(env, n1, c1, op).0, RouteAndProcess(env, n2, c2, op).0, holes)
  {
    if op.forestContextJson.None? {
      ProcessAlike(env, n1, n2, holes, env.home, op);
    } else if ForestOf(env, op).Some? {
      var m1, m2 := Dialled(env, n1, c1, op), Dialled(env, n2, c2, op);
      var conn := FreshConn(env, ForestOf(env, op).value, op.targetBaseDn);
      RouteByDial(env, n1, c1, op);
      RouteByDial(env, n2, c2, op);
      SameDcsAlike(n1, m1, n2, m2, holes);
      if conn.Ok? {
        ProcessGrows(env, m1, conn.value, op);
        var wire := Process(env, m1, conn.value, op).0.wire;
        UndisturbedPart(env.dialer.server, holes, wire, |n1.wire|, wire, |m1.wire|);
        ProcessAlike(env, m1, m2, holes, conn.value, op);
      }
    }
  }

  /** The network once the forest of an operation has been dialled, if it had to be. */
  function Dialled(env: Env, net: Net, conns: Conns, op: Operation): Net
    requires ForestOf(env, op).Some?
  {
    var ctx := ForestOf(env, op).value;
    if ctx.forestId in conns then net else ConnectForest(env.dialer, net, ctx, op.targetBaseDn, op.opType).0
  }

  /** With steady servers and a right cache, an operation runs on the connection its forest gives. */
  lemma RouteByDial(env: Env, net: Net, conns: Conns, op: Operation)
    requires Steady(env.dialer.server) && ForestOf(env, op).Some? && CacheOk(env, conns, op)
    ensures Dialled(env, net, conns, op).dcs == net.dcs && net.wire <= Dialled(env, net, conns, op).wire
    ensures var (net', _, result) := RouteAndProcess(env, net, conns, op);
            match FreshConn(env, ForestOf(env, op).value, op.targetBaseDn)
            case Ok(conn) => (net', result) == Process(env, Dialled(env, net, conns, op), conn, op)
            case Err(e) => (net', result) == (Dialled(env, net, conns, op), Err(e))
  {
    var ctx := ForestOf(env, op).value;
    ConnectSteady(env, net, ctx, op.targetBaseDn, op.opType);
    DialGrows(env.dialer, net, ctx, BaseDn(ctx, op.targetBaseDn), op.opType, Hosts(ctx), Unreachable(ctx));
  }

  /** Dialling for one operation leaves a cache that is right for all operations that agree with it. */
  lemma RouteKeepsCache(env: Env, net: Net, conns: Conns, op: Operation, ops: seq<Operation>)
    requires Steady(env.dialer.server) && CacheOkForAll(env, conns, ops)
    requires forall i :: 0 <= i < |ops| ==> Agree(env, op, ops[i])
    ensures CacheOkForAll(env, RouteAndProcess(env, net, conns, op).1, ops)
  {
    if ForestOf(env, op).Some? {
      var ctx := ForestOf(env, op).value;
      ConnectSteady(env, net, ctx, op.targetBaseDn, op.opType);
      forall i | 0 <= i < |ops| ensures CacheOk(env, RouteAndProcess(env, net, conns, op).1, ops[i]) {
        assert Agree(env, op, ops[i]) && CacheOk(env, conns, ops[i]);
      }
    }
  }

  /** The loop without a cache: every operation dials its forest anew. */
  function RunUncached(env: Env, pass: Pass, ops: seq<Operation>): (Pass, Option<string>)
    decreases |ops|
  {
    if ops == [] then (pass, None)
    else
      var pass' := CompleteOp(env, pass.(conns := map[]), ops[0]);
      if env.clockwork.fault(|pass.log|).NoFault? then RunUncached(env, pass', ops[1..])
      else (pass', Some(APPEND_FAILED))
  }

  /** Two passes that show the same counters, reports and log over directories that are alike. */
  ghost predicate SameShow(p: Pass, q: Pass) {
    p.counts == q.counts && p.reports == q.reports && p.log == q.log && Alike(p.net, q.net, {})
  }

  /**
   The cache is transparent: as long as operations of one forest agree, a pass with the cache gives the
   same directories, counters, reports and log as one that reconnects for every operation.
   */
  lemma {:induction false} CacheTransparent(env: Env, p: Pass, q: Pass, ops: seq<Operation>)
    requires Steady(env.dialer.server) && ForestsAgree(env, ops) && CacheOkForAll(env, p.conns, ops)
    requires SameShow(p, q)
    ensures RunOps(env, p, ops).1 == RunUncached(env, q, ops).1
    ensures SameShow(RunOps(env, p, ops).0, RunUncached(env, q, ops).0)
    decreases |ops|
  {
    if ops != [] {
      RouteAlike(env, p.net, p.conns, q.net, map[], {}, ops[0]);
      forall i | 0 <= i < |ops| ensures Agree(env, ops[0], ops[i]) {
      }
      RouteKeepsCache(env, p.net, p.conns, ops[0], ops);
      var p', q' := CompleteOp(env, p, ops[0]), CompleteOp(env, q.(conns := map[]), ops[0]);
      assert CacheOkForAll(env, p'.conns, ops[1..]) by {
        assert forall i :: 0 <= i < |ops[1..]| ==> ops[1..][i] == ops[i + 1];
      }
      assert ForestsAgree(env, ops[1..]) by {
        assert forall i :: 0 <= i < |ops[1..]| ==> ops[1..][i] == ops[i + 1];
      }
      CacheTransparent(env, p', q', ops[1..]);
    }
  }

  /** From the start of a pass, where the cache is empty. */
  lemma CacheTransparentFromStart(env: Env, net: Net, reports: seq<Report>, log: seq<Logged>, ops: seq<Operation>)
    requires Steady(env.dialer.server) && ForestsAgree(env, ops)
    ensures var start := StartPass(net, reports, log);
            && RunOps(env, start, ops).1 == RunUncached(env, start, ops).1
            && SameShow(RunOps(env, start, ops).0, RunUncached(env, start, ops).0)
  {
    var start := StartPass(net, reports, log);
    AlikeRefl(net, net, {});
    CacheTransparent(env, start, start, ops);
  }
}
