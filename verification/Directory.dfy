/** Directories as the domain controllers hold them, and the requests the agent sends. */
module Directory {
  import opened Text

  type Attrs = map<string, set<string>>

  /** An account; the password is kept apart because it can be written but never read. */
  datatype Entry = Entry(attrs: Attrs, password: Option<seq<byte>>)

  /** One domain controller's entries, by distinguished name. */
  type Dir = map<string, Entry>

  /** How a connection is bound: a principal with its secret, or Kerberos for a host. */
  datatype Login = Simple(principal: string, secret: string) | Gssapi(host: string)

  datatype Request =
    | Connect(url: string)
    | Bind(login: Login)
    | Add(dn: string, attrs: Attrs)
    | Modify(dn: string, changes: Attrs)
    | SetPassword(dn: string, value: seq<byte>)
    | Search(base: string, filter: string)

  /**
   Everything about the servers that the agent does not decide: which controller a URL reaches, whether a
   request is refused (by policy or by a failing network, at a given moment), and what a search returns.
   */
  datatype Server = Server(
    locate: string -> string,
    refuses: (nat, string, Dir, Request) -> Option<string>,
    search: (nat, Dir, string, string) -> seq<string>)

  /** A bound connection: the controller, the search base, and how the channel is protected. */
  datatype Conn = Conn(dc: string, baseDn: string, passwordWriteback: bool, tls: bool, kerberos: bool)

  /** A request that was sent, for which kind of operation, and whether it took effect. */
  datatype Sent = Sent(opType: string, conn: Conn, request: Request, accepted: bool)

  type Dirs = map<string, Dir>

  /** All directories and the history of requests; its length serves as the time. */
  datatype Net = Net(dcs: Dirs, wire: seq<Sent>)

  function DirIn(dcs: Dirs, dc: string): Dir { if dc in dcs then dcs[dc] else map[] }

  function DirOf(net: Net, dc: string): Dir { DirIn(net.dcs, dc) }

  /**
   What a request does to a directory; `None` when the directory itself rules it out. Add fails on an
   existing entry (section 4.7 of RFC 4511), Modify applies all its changes or none (section 4.6).
   */
  function Apply(dir: Dir, request: Request): Option<Dir> {
    match request
    case Add(dn, attrs) => if dn in dir then None else Some(dir[dn := Entry(attrs, None)])
    case Modify(dn, changes) =>
      if dn in dir then Some(dir[dn := Entry(dir[dn].attrs + changes, dir[dn].password)]) else None
    case SetPassword(dn, value) =>
      if dn in dir then Some(dir[dn := dir[dn].(password := Some(value))]) else None
    case _ => Some(dir)
  }

  predicate Writes(request: Request) { request.Add? || request.Modify? || request.SetPassword? }

  /** The verdict of the controller: the reason of a refusal, or the directory afterwards. */
  function Answer(s: Server, now: nat, dc: string, dir: Dir, request: Request): Result<Dir> {
    match s.refuses(now, dc, dir, request)
    case Some(reason) => Err(reason)
    case None =>
      match Apply(dir, request)
      case Some(dir') => Ok(dir')
      case None => Err(if request.Add? then "entryAlreadyExists" else "noSuchObject")
  }

  /** Sends one request; the result is the reason it failed, if it did. */
  function Submit(s: Server, net: Net, conn: Conn, opType: string, request: Request): (Net, Option<string>) {
    match Answer(s, |net.wire|, conn.dc, DirOf(net, conn.dc), request)
    case Err(reason) => (net.(wire := net.wire + [Sent(opType, conn, request, false)]), Some(reason))
    case Ok(dir) =>
      (Net(if Writes(request) then net.dcs[conn.dc := dir] else net.dcs,
           net.wire + [Sent(opType, conn, request, true)]), None)
  }

  /** A refused request, or one that only reads, changes no directory. */
  lemma SubmitFrame(s: Server, net: Net, conn: Conn, opType: string, request: Request)
    ensures var (net', error) := Submit(s, net, conn, opType, request);
            && (error.Some? || !Writes(request) ==> net'.dcs == net.dcs)
            && (forall dc :: dc != conn.dc ==> DirOf(net', dc) == DirOf(net, dc))
            && (error.None? ==> Apply(DirOf(net, conn.dc), request) == Some(DirOf(net', conn.dc)))
  {
  }
}
