/** When two runs of an operation cannot be told apart: the servers answer by the state of the directories alone. */
module AdAlike {
  import opened Text
  import opened Directory
  import opened Ldap
  import opened AdMode
  import Utf16

  /** Equal directories, except that the entries named by the holes may hold other passwords. */
  ghost predicate SameBut(d1: Dir, d2: Dir, holes: set<string>) {
    && d1.Keys == d2.Keys
    && forall dn :: dn in d1 ==> d1[dn].attrs == d2[dn].attrs && (dn !in holes ==> d1[dn] == d2[dn])
  }

  /** Accounts whose password may differ: their controllers and DNs. */
  type Holes = set<(string, string)>

  function HolesAt(holes: Holes, dc: string): set<string> { set h | h in holes && h.0 == dc :: h.1 }

  ghost predicate Alike(n1: Net, n2: Net, holes: Holes) {
    forall dc :: SameBut(DirOf(n1, dc), DirOf(n2, dc), HolesAt(holes, dc))
  }

  /** No transient failures: answers do not depend on when the request is sent, nor a bind on the entries. */
  ghost predicate Steady(s: Server) {
    && (forall t, t', dc, dir, request :: s.refuses(t, dc, dir, request) == s.refuses(t', dc, dir, request))
    && (forall t, t', dir, base, filter :: s.search(t, dir, base, filter) == s.search(t', dir, base, filter))
    && (forall dc, dir, dir', request: Request :: request.Connect? || request.Bind? ==>
          s.refuses(0, dc, dir, request) == s.refuses(0, dc, dir', request))
  }

  // --- when a differing password matters --------------------------------------------------------

  /** A search does not see passwords. */
  ghost predicate SearchBlind(s: Server) {
    forall d1, d2, holes, base, filter :: SameBut(d1, d2, holes) ==>
      s.search(0, d1, base, filter) == s.search(0, d2, base, filter)
  }

  /** Whether this request is refused does not depend on the passwords in the holes. */
  ghost predicate RefusedAlike(s: Server, dc: string, holes: set<string>, request: Request) {
    forall d1, d2 :: SameBut(d1, d2, holes) ==> s.refuses(0, dc, d1, request) == s.refuses(0, dc, d2, request)
  }

  ghost predicate SentAlike(s: Server, holes: Holes, sent: Sent) {
    RefusedAlike(s, sent.conn.dc, HolesAt(holes, sent.conn.dc), sent.request)
  }

  /** None of the requests sent since `from` was answered by a password in the holes; nothing is asked without holes. */
  ghost predicate Undisturbed(s: Server, holes: Holes, wire: seq<Sent>, from: nat) {
    holes != {} ==> SearchBlind(s) && forall t :: from <= t < |wire| ==> SentAlike(s, holes, wire[t])
  }

  lemma UndisturbedPart(s: Server, holes: Holes, wire: seq<Sent>, from: nat, part: seq<Sent>, from': nat)
    requires Undisturbed(s, holes, wire, from) && part <= wire && from <= from'
    ensures Undisturbed(s, holes, part, from')
  {
  }

  lemma SubmitWire(s: Server, net: Net, conn: Conn, opType: string, request: Request)
    ensures var wire := Submit(s, net, conn, opType, request).0.wire;
            && net.wire <= wire && |wire| == |net.wire| + 1
            && wire[|net.wire|].conn == conn && wire[|net.wire|].request == request
  {
  }

  lemma NoHoles(d1: Dir, d2: Dir, holes: Holes, dc: string)
    requires SameBut(d1, d2, HolesAt(holes, dc)) && holes == {}
    ensures d1 == d2
  {
  }

  lemma ApplyAlike(d1: Dir, d2: Dir, holes: set<string>, request: Request)
    requires SameBut(d1, d2, holes)
    ensures Apply(d1, request).Some? <==> Apply(d2, request).Some?
    ensures Apply(d1, request).Some? ==> SameBut(Apply(d1, request).value, Apply(d2, request).value, holes)
  {
  }

  lemma AnswerAlike(s: Server, t1: nat, t2: nat, dc: string, d1: Dir, d2: Dir, holes: set<string>, request: Request)
    requires Steady(s) && SameBut(d1, d2, holes)
    requires d1 == d2 || RefusedAlike(s, dc, holes, request)
    ensures var a1, a2 := Answer(s, t1, dc, d1, request), Answer(s, t2, dc, d2, request);
            if a1.Ok? then a2.Ok? && SameBut(a1.value, a2.value, holes) else a2 == a1
  {
    ApplyAlike(d1, d2, holes, request);
    assert s.refuses(t1, dc, d1, request) == s.refuses(0, dc, d1, request);
    assert s.refuses(t2, dc, d2, request) == s.refuses(0, dc, d2, request);
  }

  lemma SubmitAlike(s: Server, n1: Net, n2: Net, holes: Holes, conn: Conn, opType: string, request: Request)
    requires Steady(s) && Alike(n1, n2, holes)
    requires Undisturbed(s, holes, Submit(s, n1, conn, opType, request).0.wire, |n1.wire|)
    ensures var (r1, e1) := Submit(s, n1, conn, opType, request);
            var (r2, e2) := Submit(s, n2, conn, opType, request);
            e1 == e2 && Alike(r1, r2, holes)
  {
    var (r1, e1) := Submit(s, n1, conn, opType, request);
    var (r2, e2) := Submit(s, n2, conn, opType, request);
    var d1, d2 := DirOf(n1, conn.dc), DirOf(n2, conn.dc);
    SubmitWire(s, n1, conn, opType, request);
    if holes == {} {
      NoHoles(d1, d2, holes, conn.dc);
    } else {
      assert SentAlike(s, holes, r1.wire[|n1.wire|]);
    }
    AnswerAlike(s, |n1.wire|, |n2.wire|, conn.dc, d1, d2, HolesAt(holes, conn.dc), request);
    forall dc ensures SameBut(DirOf(r1, dc), DirOf(r2, dc), HolesAt(holes, dc)) {
      assert SameBut(DirOf(n1, dc), DirOf(n2, dc), HolesAt(holes, dc));
    }
  }

  lemma SearchAlike(s: Server, n1: Net, n2: Net, holes: Holes, dc: string, base: string, filter: string)
    requires Steady(s) && Alike(n1, n2, holes) && (holes != {} ==> SearchBlind(s))
    ensures s.search(|n1.wire|, DirOf(n1, dc), base, filter) == s.search(|n2.wire|, DirOf(n2, dc), base, filter)
  {
    var d1, d2 := DirOf(n1, dc), DirOf(n2, dc);
    assert SameBut(d1, d2, HolesAt(holes, dc));
    if holes == {} {
      NoHoles(d1, d2, holes, dc);
    }
    assert s.search(|n1.wire|, d1, base, filter) == s.search(0, d1, base, filter);
    assert s.search(|n2.wire|, d2, base, filter) == s.search(0, d2, base, filter);
  }

  // --- the connector's operations ---------------------------------------------------------------

  /** The same result, and directories that still differ at most in the holes. */
  ghost predicate SameRun<A>(r1: (Net, Result<A>), r2: (Net, Result<A>), holes: Holes) {
    r1.1 == r2.1 && Alike(r1.0, r2.0, holes)
  }

  lemma FindAlike(s: Server, n1: Net, n2: Net, holes: Holes, conn: Conn, opType: string, email: string)
    requires Steady(s) && Alike(n1, n2, holes)
    requires Undisturbed(s, holes, FindDn(s, n1, conn, opType, email).0.wire, |n1.wire|)
    ensures SameRun(FindDn(s, n1, conn, opType, email), FindDn(s, n2, conn, opType, email), holes)
  {
    SubmitAlike(s, n1, n2, holes, conn, opType, Search(conn.baseDn, EmailFilter(email)));
    SearchAlike(s, n1, n2, holes, conn.dc, conn.baseDn, EmailFilter(email));
  }

  /** The second of two requests in a row. */
  lemma ThenAlike(
      s: Server, n1: Net, m1: Net, m2: Net, holes: Holes, conn: Conn, opType: string, request: Request)
    requires Steady(s) && Alike(m1, m2, holes) && n1.wire <= m1.wire
    requires Undisturbed(s, holes, Submit(s, m1, conn, opType, request).0.wire, |n1.wire|)
    ensures var (r1, e1) := Submit(s, m1, conn, opType, request);
            var (r2, e2) := Submit(s, m2, conn, opType, request);
            e1 == e2 && Alike(r1, r2, holes)
  {
    var wire := Submit(s, m1, conn, opType, request).0.wire;
    UndisturbedPart(s, holes, wire, |n1.wire|, wire, |m1.wire|);
    SubmitAlike(s, m1, m2, holes, conn, opType, request);
  }

  lemma CreateAlike(
      s: Server, n1: Net, n2: Net, holes: Holes, conn: Conn, opType: string,
      attributes: map<string, string>, password: Option<string>)
    requires Steady(s) && Alike(n1, n2, holes)
    requires Undisturbed(s, holes, CreateAccount(s, n1, conn, opType, attributes, password).0.wire, |n1.wire|)
    ensures SameRun(
      CreateAccount(s, n1, conn, opType, attributes, password),
      CreateAccount(s, n2, conn, opType, attributes, password), holes)
  {
    if DN in attributes {
      var dn := attributes[DN];
      var add := Add(dn, AccountAttrs(attributes));
      var (m1, error) := Submit(s, n1, conn, opType, add);
      var m2 := Submit(s, n2, conn, opType, add).0;
      var r1 := CreateAccount(s, n1, conn, opType, attributes, password).0;
      SubmitWire(s, n1, conn, opType, add);
      CreateWire(s, n1, conn, opType, attributes, password);
      UndisturbedPart(s, holes, r1.wire, |n1.wire|, m1.wire, |n1.wire|);
      SubmitAlike(s, n1, n2, holes, conn, opType, add);
      if error.None? && conn.passwordWriteback && password.Some? {
        ThenAlike(s, n1, m1, m2, holes, conn, opType, SetPassword(dn, Utf16.PasswordBytes(password.value)));
      }
    }
  }

  lemma CreateWire(
      s: Server, net: Net, conn: Conn, opType: string, attributes: map<string, string>, password: Option<string>)
    requires DN in attributes
    ensures Submit(s, net, conn, opType, Add(attributes[DN], AccountAttrs(attributes))).0.wire
         <= CreateAccount(s, net, conn, opType, attributes, password).0.wire
  {
  }

  lemma SetUacAlike(s: Server, n1: Net, n2: Net, holes: Holes, conn: Conn, opType: string, email: string, uac: string)
    requires Steady(s) && Alike(n1, n2, holes)
    requires Undisturbed(s, holes, SetUac(s, n1, conn, opType, email, uac).0.wire, |n1.wire|)
    ensures SameRun(SetUac(s, n1, conn, opType, email, uac), SetUac(s, n2, conn, opType, email, uac), holes)
  {
    var (m1, dn) := FindDn(s, n1, conn, opType, email);
    var m2 := FindDn(s, n2, conn, opType, email).0;
    var r1 := SetUac(s, n1, conn, opType, email, uac).0;
    assert n1.wire <= m1.wire <= r1.wire;
    UndisturbedPart(s, holes, r1.wire, |n1.wire|, m1.wire, |n1.wire|);
    FindAlike(s, n1, n2, holes, conn, opType, email);
    if dn.Ok? {
      ThenAlike(s, n1, m1, m2, holes, conn, opType, Modify(dn.value, map[UAC := {uac}]));
    }
  }

  lemma UpdateAlike(
      s: Server, n1: Net, n2: Net, holes: Holes, conn: Conn, opType: string, email: string,
      attributes: map<string, string>)
    requires Steady(s) && Alike(n1, n2, holes)
    requires Undisturbed(s, holes, UpdateAttributes(s, n1, conn, opType, email, attributes).0.wire, |n1.wire|)
    ensures SameRun(
      UpdateAttributes(s, n1, conn, opType, email, attributes),
      UpdateAttributes(s, n2, conn, opType, email, attributes), holes)
  {
    var (m1, dn) := FindDn(s, n1, conn, opType, email);
    var m2 := FindDn(s, n2, conn, opType, email).0;
    var r1 := UpdateAttributes(s, n1, conn, opType, email, attributes).0;
    assert n1.wire <= m1.wire <= r1.wire;
    UndisturbedPart(s, holes, r1.wire, |n1.wire|, m1.wire, |n1.wire|);
    FindAlike(s, n1, n2, holes, conn, opType, email);
    if dn.Ok? && Changes(attributes) != map[] {
      ThenAlike(s, n1, m1, m2, holes, conn, opType, Modify(dn.value, Changes(attributes)));
    }
  }

  lemma CountAlike(
      s: Server, n1: Net, n2: Net, holes: Holes, conn: Conn, opType: string, base: string, filter: string)
    requires Steady(s) && Alike(n1, n2, holes)
    requires Undisturbed(s, holes, CountEntries(s, n1, conn, opType, base, filter).0.wire, |n1.wire|)
    ensures SameRun(
      CountEntries(s, n1, conn, opType, base, filter), CountEntries(s, n2, conn, opType, base, filter), holes)
  {
    SubmitAlike(s, n1, n2, holes, conn, opType, Search(base, filter));
    SearchAlike(s, n1, n2, holes, conn.dc, base, filter);
  }

  /** One operation on one connection gives the same result on directories that are alike. */
  lemma ProcessAlike(env: Env, n1: Net, n2: Net, holes: Holes, conn: Conn, op: Operation)
    requires Steady(env.dialer.server) && Alike(n1, n2, holes)
    requires Undisturbed(env.dialer.server, holes, Process(env, n1, conn, op).0.wire, |n1.wire|)
    ensures SameRun(Process(env, n1, conn, op), Process(env, n2, conn, op), holes)
  {
    var s := env.dialer.server;
    var attributes, email, password := Attributes(env, op), Email(op), Password(env, op);
    if op.opType == "CREATE_ACCOUNT" {
      if attributes.Ok? && password.Ok? {
        CreateAlike(s, n1, n2, holes, conn, op.opType, attributes.value, password.value);
      }
    } else if op.opType == "ENABLE_ACCOUNT" {
      if email.Ok? {
        SetUacAlike(s, n1, n2, holes, conn, op.opType, email.value, UAC_ENABLED);
      }
    } else if op.opType == "DISABLE_ACCOUNT" {
      if email.Ok? {
        SetUacAlike(s, n1, n2, holes, conn, op.opType, email.value, UAC_DISABLED);
      }
    } else if op.opType == "UPDATE_ATTRIBUTES" {
      if attributes.Ok? && email.Ok? {
        UpdateAlike(s, n1, n2, holes, conn, op.opType, email.value, attributes.value);
      }
    } else if op.opType == "TEST_CONNECTION" {
      CountAlike(s, n1, n2, holes, conn, op.opType, conn.baseDn, "(objectClass=*)");
    } else if op.opType == "SYNC_USERS" {
      if attributes.Ok? && UserBase(attributes.value, op).Some? {
        var base := UserBase(attributes.value, op).value;
        CountAlike(s, n1, n2, holes, conn, op.opType, base, UserFilter(attributes.value));
      }
    }
  }

  // --- the laws of being alike ------------------------------------------------------------------

  lemma AlikeRefl(n1: Net, n2: Net, holes: Holes)
    requires n1.dcs == n2.dcs
    ensures Alike(n1, n2, holes)
  {
    forall dc ensures SameBut(DirOf(n1, dc), DirOf(n2, dc), HolesAt(holes, dc)) {
    }
  }

  lemma AlikeTrans(n1: Net, n2: Net, n3: Net, holes: Holes, more: Holes)
    requires Alike(n1, n2, holes) && Alike(n2, n3, more)
    ensures Alike(n1, n3, holes + more)
  {
    forall dc ensures SameBut(DirOf(n1, dc), DirOf(n3, dc), HolesAt(holes + more, dc)) {
      assert SameBut(DirOf(n1, dc), DirOf(n2, dc), HolesAt(holes, dc));
      assert SameBut(DirOf(n2, dc), DirOf(n3, dc), HolesAt(more, dc));
      HolesOfBoth(holes, more, dc);
    }
  }

  lemma HolesOfBoth(holes: Holes, more: Holes, dc: string)
    ensures HolesAt(holes + more, dc) == HolesAt(holes, dc) + HolesAt(more, dc)
  {
    var both := HolesAt(holes, dc) + HolesAt(more, dc);
    forall dn | dn in both ensures dn in HolesAt(holes + more, dc) {
      assert (dc, dn) in holes + more;
    }
  }

  lemma SameDcsAlike(n1: Net, m1: Net, n2: Net, m2: Net, holes: Holes)
    requires Alike(n1, n2, holes) && m1.dcs == n1.dcs && m2.dcs == n2.dcs
    ensures Alike(m1, m2, holes)
  {
    forall dc ensures SameBut(DirOf(m1, dc), DirOf(m2, dc), HolesAt(holes, dc)) {
      assert SameBut(DirOf(n1, dc), DirOf(n2, dc), HolesAt(holes, dc));
    }
  }
}
