/** Connecting to a forest: the hosts of its context are tried in order until one binds. */
module Forest {
  import opened Text
  import opened Directory
  import opened Ldap
  import opened LdapClient

  datatype ForestContext = ForestContext(
    forestId: string,
    rootDn: string,
    globalCatalogHost: Option<string>,
    servers: seq<string>,
    authType: string,
    useGmsa: bool,
    serviceAccount: Option<string>,
    serviceAccountPassword: Option<string>,
    useTls: bool)

  /** What dialling needs besides the context: the network, the cipher, and the build's features. */
  datatype Dialer = Dialer(server: Server, decrypt: string -> Result<string>, kerberosBuilt: bool)

  function Hosts(ctx: ForestContext): seq<string> {
    if ctx.servers != [] then ctx.servers
    else if ctx.globalCatalogHost.Some? then [ctx.globalCatalogHost.value]
    else []
  }

  predicate Kerberos(ctx: ForestContext) { ctx.useGmsa || EqIgnoreAsciiCase(ctx.authType, "SASL_KERBEROS") }

  function Url(ctx: ForestContext, host: string): string {
    if ctx.useTls then "ldaps://" + host + ":636" else "ldap://" + host + ":389"
  }

  function BaseDn(ctx: ForestContext, target: Option<string>): string {
    if target.Some? && target.value != "" then target.value else ctx.rootDn
  }

  function ConnFor(d: Dialer, ctx: ForestContext, base: string, host: string): Conn {
    Conn(d.server.locate(Url(ctx, host)), base, ctx.useTls || Kerberos(ctx), ctx.useTls, Kerberos(ctx))
  }

  /** The host part of a URL, as Kerberos is asked for it. */
  function Fqdn(url: string): string { BeforeFirst(AfterLast(url, '/'), ':') }

  /** What the bind is sent with, or the reason it cannot even be sent. */
  function Credentials(d: Dialer, ctx: ForestContext, host: string): Result<Login> {
    if Kerberos(ctx) then
      if d.kerberosBuilt then Ok(Gssapi(Fqdn(Url(ctx, host))))
      else Err(LdapError("use_kerberos=true but the agent was built without the `kerberos` feature"))
    else if ctx.serviceAccount.None? then Err(LdapError("forest SIMPLE bind requires a service account"))
    else match ctx.serviceAccountPassword
      case None => Err(LdapError("forest SIMPLE bind requires a service-account password"))
      case Some(enc) =>
        match d.decrypt(enc)
        case Ok(secret) => Ok(Simple(ctx.serviceAccount.value, secret))
        case Err(e) => Err(e)
  }

  function LogIn(
      d: Dialer, net: Net, ctx: ForestContext, base: string, opType: string, host: string): (Net, Result<Conn>)
  {
    var conn := ConnFor(d, ctx, base, host);
    match Credentials(d, ctx, host)
    case Err(e) => (net, Err(e))
    case Ok(login) =>
      var (net', error) := Submit(d.server, net, conn, opType, Bind(login));
      match error
      case Some(e) => (net', Err(LdapError("forest bind: " + e)))
      case None => (net', Ok(conn))
  }

  function DialHost(
      d: Dialer, net: Net, ctx: ForestContext, base: string, opType: string, host: string): (Net, Result<Conn>)
  {
    var (net', error) := Submit(d.server, net, ConnFor(d, ctx, base, host), opType, Connect(Url(ctx, host)));
    match error
    case Some(e) => (net', Err(LdapError("connect " + Url(ctx, host) + ": " + e)))
    case None => LogIn(d, net', ctx, base, opType, host)
  }

  function Unreachable(ctx: ForestContext): string { LdapError("forest '" + ctx.rootDn + "' unreachable") }

  /** One attempt to bind a host, as a function of the network it finds. */
  type HostDialer = (Net, string) -> (Net, Result<Conn>)

  function DialerOf(d: Dialer, ctx: ForestContext, base: string, opType: string): HostDialer {
    (net, host) => DialHost(d, net, ctx, base, opType, host)
  }

  /** Tries the hosts in order; `failure` is the error so far. */
  function DialHosts(dial: HostDialer, net: Net, hosts: seq<string>, failure: string): (Net, Result<Conn>)
    decreases |hosts|
  {
    if hosts == [] then (net, Err(failure))
    else
      var (net', bound) := dial(net, hosts[0]);
      match bound
      case Ok(conn) => (net', Ok(conn))
      case Err(e) => DialHosts(dial, net', hosts[1..], e)
  }

  function NoServers(ctx: ForestContext): string { LdapError("forest '" + ctx.rootDn + "' has no servers") }

  function ConnectForest(
      d: Dialer, net: Net, ctx: ForestContext, target: Option<string>, opType: string): (Net, Result<Conn>)
  {
    if Hosts(ctx) == [] then (net, Err(NoServers(ctx)))
    else DialHosts(DialerOf(d, ctx, BaseDn(ctx, target), opType), net, Hosts(ctx), Unreachable(ctx))
  }

  // --- failover ---------------------------------------------------------------------------------

  /** The network after the first `j` hosts have been tried. */
  function AfterAttempts(dial: HostDialer, net: Net, hosts: seq<string>, j: nat): Net
    requires j <= |hosts|
  {
    if j == 0 then net else dial(AfterAttempts(dial, net, hosts, j - 1), hosts[j - 1]).0
  }

  /** The outcome of trying host `j` after all the hosts before it. */
  function Attempt(dial: HostDialer, net: Net, hosts: seq<string>, j: nat): Result<Conn>
    requires j < |hosts|
  {
    dial(AfterAttempts(dial, net, hosts, j), hosts[j]).1
  }

  lemma {:induction false} AfterAttemptsShift(dial: HostDialer, net: Net, hosts: seq<string>, j: nat)
    requires j < |hosts|
    ensures AfterAttempts(dial, net, hosts, j + 1) == AfterAttempts(dial, dial(net, hosts[0]).0, hosts[1..], j)
  {
    if j > 0 {
      AfterAttemptsShift(dial, net, hosts, j - 1);
    } else {
      assert AfterAttempts(dial, net, hosts, 0) == net;
    }
  }

  /**
   Failover: the first host in order that accepts is bound; there is an error exactly when every host
   fails, and then it is the error of the last one.
   */
  lemma {:induction false} FailoverInOrder(
      dial: HostDialer, net: Net, hosts: seq<string>, failure: string)
    returns (j: nat)
    ensures j <= |hosts|
    ensures forall i :: 0 <= i < j ==> Attempt(dial, net, hosts, i).Err?
    ensures j < |hosts| ==> Attempt(dial, net, hosts, j).Ok?
    ensures DialHosts(dial, net, hosts, failure).1
         == if j < |hosts| then Attempt(dial, net, hosts, j)
            else if hosts == [] then Err(failure)
            else Attempt(dial, net, hosts, |hosts| - 1)
    decreases |hosts|
  {
    if hosts == [] {
      j := 0;
    } else {
      var (net', bound) := dial(net, hosts[0]);
      assert Attempt(dial, net, hosts, 0) == bound;
      if bound.Ok? {
        j := 0;
      } else {
        var k := FailoverInOrder(dial, net', hosts[1..], bound.error);
        j := k + 1;
        forall i | 0 <= i < |hosts| - 1
          ensures Attempt(dial, net, hosts, i + 1) == Attempt(dial, net', hosts[1..], i)
        {
          AfterAttemptsShift(dial, net, hosts, i);
        }
        forall i | 0 <= i < j ensures Attempt(dial, net, hosts, i).Err? {
          if i > 0 {
            assert Attempt(dial, net, hosts, (i - 1) + 1) == Attempt(dial, net', hosts[1..], i - 1);
          }
        }
      }
    }
  }

  /** The connection is to the first host that accepts. */
  lemma FirstBound(d: Dialer, net: Net, ctx: ForestContext, target: Option<string>, opType: string)
    returns (j: nat)
    requires ConnectForest(d, net, ctx, target, opType).1.Ok?
    ensures j < |Hosts(ctx)|
    ensures ConnectForest(d, net, ctx, target, opType).1 == Ok(ConnFor(d, ctx, BaseDn(ctx, target), Hosts(ctx)[j]))
  {
    j := FailoverInOrder(DialerOf(d, ctx, BaseDn(ctx, target), opType), net, Hosts(ctx), Unreachable(ctx));
  }

  /** The loop of `connect_forest`. */
  method Dial(network: Network, d: Dialer, ctx: ForestContext, target: Option<string>, opType: string)
    returns (bound: Result<Conn>)
    requires network.server == d.server
    modifies network
    ensures (network.net, bound) == ConnectForest(d, old(network.net), ctx, target, opType)
  {
    var hosts := Hosts(ctx);
    if hosts == [] {
      return Err(NoServers(ctx));
    }
    var base := BaseDn(ctx, target);
    var lastErr := Unreachable(ctx);
    ghost var dial := DialerOf(d, ctx, base, opType);
    for i := 0 to |hosts|
      invariant DialHosts(dial, network.net, hosts[i..], lastErr)
             == ConnectForest(d, old(network.net), ctx, target, opType)
    {
      assert hosts[i..][1..] == hosts[i + 1..];
      bound := DialOne(network, d, ctx, base, opType, hosts[i]);
      if bound.Ok? {
        return;
      }
      lastErr := bound.error;
    }
    bound := Err(lastErr);
  }

  method DialOne(network: Network, d: Dialer, ctx: ForestContext, base: string, opType: string, host: string)
    returns (bound: Result<Conn>)
    requires network.server == d.server
    modifies network
    ensures (network.net, bound) == DialHost(d, old(network.net), ctx, base, opType, host)
  {
    var conn := ConnFor(d, ctx, base, host);
    var error := network.Send(conn, opType, Connect(Url(ctx, host)));
    if error.Some? {
      return Err(LdapError("connect " + Url(ctx, host) + ": " + error.value));
    }
    var login := Credentials(d, ctx, host);
    if login.Err? {
      return Err(login.error);
    }
    error := network.Send(conn, opType, Bind(login.value));
    bound := if error.Some? then Err(LdapError("forest bind: " + error.value)) else Ok(conn);
  }
}
