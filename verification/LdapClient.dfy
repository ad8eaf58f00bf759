/** The connector as an object: each method sends its requests one after the other. */
module LdapClient {
  import opened Text
  import opened Directory
  import Ldap
  import Utf16

  lemma CollectSnoc(pushed: seq<(string, set<string>)>, name: string, values: set<string>)
    ensures Ldap.Collect(pushed + [(name, values)])
         == Pool(Ldap.Collect(pushed), name, values)
  {
    assert (pushed + [(name, values)])[..|pushed|] == pushed;
  }

  /** The attribute list once the attributes named in `done` have been visited. */
  function Listed(attributes: map<string, string>, done: set<string>): Attrs {
    map name | name in done * Ldap.KeptNames(attributes) + {"objectClass"} ::
      (if name == "objectClass" then Ldap.USER_CLASSES else {})
      + (if name in done && Ldap.Kept(attributes, name) then {attributes[name]} else {})
  }

  function Pool(attrs: Attrs, name: string, values: set<string>): Attrs {
    attrs[name := (if name in attrs then attrs[name] else {}) + values]
  }

  lemma ListedNone(attributes: map<string, string>)
    ensures Ldap.Collect([("objectClass", Ldap.USER_CLASSES)]) == Listed(attributes, {})
  {
    CollectSnoc([], "objectClass", Ldap.USER_CLASSES);
    assert [] + [("objectClass", Ldap.USER_CLASSES)] == [("objectClass", Ldap.USER_CLASSES)];
    var listed := Listed(attributes, {});
    assert "objectClass" in listed && listed.Keys == {"objectClass"};
    assert listed["objectClass"] == {} + Ldap.USER_CLASSES;
  }

  lemma ListedStep(attributes: map<string, string>, done: set<string>, name: string)
    requires name in attributes && name !in done
    ensures Listed(attributes, done + {name})
         == if Ldap.Kept(attributes, name) then Pool(Listed(attributes, done), name, {attributes[name]})
            else Listed(attributes, done)
  {
    var before, after := Listed(attributes, done), Listed(attributes, done + {name});
    assert name in Ldap.KeptNames(attributes) <==> Ldap.Kept(attributes, name);
    if Ldap.Kept(attributes, name) {
      var pooled := Pool(before, name, {attributes[name]});
      assert after.Keys == pooled.Keys;
      forall n | n in after ensures after[n] == pooled[n] {
        if n != name {
          ListedOther(attributes, done, name, n);
        }
      }
    } else {
      assert after.Keys == before.Keys;
    }
  }

  /** Visiting one more name leaves the values listed under any other. */
  lemma ListedOther(attributes: map<string, string>, done: set<string>, name: string, n: string)
    requires n in Listed(attributes, done + {name}) && n != name
    ensures n in Listed(attributes, done) && Listed(attributes, done + {name})[n] == Listed(attributes, done)[n]
  {
  }

  lemma ListedAll(attributes: map<string, string>)
    ensures Pool(Listed(attributes, attributes.Keys), Ldap.UAC, {Ldap.UAC_DISABLED}) == Ldap.AccountAttrs(attributes)
  {
    var pooled := Pool(Listed(attributes, attributes.Keys), Ldap.UAC, {Ldap.UAC_DISABLED});
    assert attributes.Keys * Ldap.KeptNames(attributes) == Ldap.KeptNames(attributes);
    assert pooled.Keys == Ldap.AccountAttrs(attributes).Keys;
    forall n | n in pooled ensures pooled[n] == Ldap.AccountAttrs(attributes)[n] {
    }
  }

  /** The list that `create_account` builds up before it sends it. */
  method AttributeList(attributes: map<string, string>) returns (attrs: seq<(string, set<string>)>)
    ensures Ldap.Collect(attrs) == Ldap.AccountAttrs(attributes)
  {
    attrs := [("objectClass", Ldap.USER_CLASSES)];
    ListedNone(attributes);
    var names := attributes.Keys;
    ghost var done: set<string> := {};
    while names != {}
      invariant done + names == attributes.Keys && done !! names
      invariant Ldap.Collect(attrs) == Listed(attributes, done)
      decreases names
    {
      var name :| name in names;
      ListedStep(attributes, done, name);
      names := names - {name};
      done := done + {name};
      if name != Ldap.DN && attributes[name] != "" {
        CollectSnoc(attrs, name, {attributes[name]});
        attrs := attrs + [(name, {attributes[name]})];
      }
    }
    ListedAll(attributes);
    assert done == attributes.Keys;
    CollectSnoc(attrs, Ldap.UAC, {Ldap.UAC_DISABLED});
    attrs := attrs + [(Ldap.UAC, {Ldap.UAC_DISABLED})];
  }

  /** The reachable directories. */
  class Network {
    const server: Server
    var net: Net

    constructor (server: Server, net: Net)
      ensures this.server == server && this.net == net
    {
      this.server, this.net := server, net;
    }

    method Send(conn: Conn, opType: string, request: Request) returns (error: Option<string>)
      modifies this
      ensures (net, error) == Submit(server, old(net), conn, opType, request)
    {
      var (net', e) := Submit(server, net, conn, opType, request);
      net, error := net', e;
    }

    method FindDn(conn: Conn, opType: string, email: string) returns (dn: Result<string>)
      modifies this
      ensures (net, dn) == Ldap.FindDn(server, old(net), conn, opType, email)
    {
      var filter := Ldap.EmailFilter(email);
      var entries := server.search(|net.wire|, DirOf(net, conn.dc), conn.baseDn, filter);
      var error := Send(conn, opType, Search(conn.baseDn, filter));
      if error.Some? {
        return Err(Ldap.LdapError("search " + email + ": " + error.value));
      }
      dn := if entries == [] then Err(Ldap.LdapError("no AD account found for " + email)) else Ok(entries[0]);
    }

    method WritePassword(conn: Conn, opType: string, dn: string, password: string) returns (result: Result<string>)
      modifies this
      ensures (net, result) == Ldap.WritePassword(server, old(net), conn, opType, dn, password)
    {
      var error := Send(conn, opType, SetPassword(dn, Utf16.PasswordBytes(password)));
      result := if error.Some? then Err(Ldap.LdapError("password writeback " + dn + ": " + error.value)) else Ok(dn);
    }

    method CreateAccount(conn: Conn, opType: string, attributes: map<string, string>, password: Option<string>)
      returns (result: Result<string>)
      modifies this
      ensures (net, result) == Ldap.CreateAccount(server, old(net), conn, opType, attributes, password)
    {
      if Ldap.DN !in attributes {
        return Err(Ldap.LdapError("attributes missing distinguishedName"));
      }
      var dn := attributes[Ldap.DN];
      var attrs := AttributeList(attributes);
      var error := Send(conn, opType, Add(dn, Ldap.Collect(attrs)));
      if error.Some? {
        return Err(Ldap.LdapError("add " + dn + ": " + error.value));
      }
      if conn.passwordWriteback && password.Some? {
        result := WritePassword(conn, opType, dn, password.value);
      } else {
        result := Ok(dn);
      }
    }

    method SetUac(conn: Conn, opType: string, email: string, uac: string) returns (result: Result<string>)
      modifies this
      ensures (net, result) == Ldap.SetUac(server, old(net), conn, opType, email, uac)
    {
      result := FindDn(conn, opType, email);
      if result.Ok? {
        var error := Send(conn, opType, Modify(result.value, map[Ldap.UAC := {uac}]));
        if error.Some? {
          result := Err(Ldap.LdapError("modify uac " + result.value + ": " + error.value));
        }
      }
    }

    method UpdateAttributes(conn: Conn, opType: string, email: string, attributes: map<string, string>)
      returns (result: Result<string>)
      modifies this
      ensures (net, result) == Ldap.UpdateAttributes(server, old(net), conn, opType, email, attributes)
    {
      result := FindDn(conn, opType, email);
      if result.Ok? && Ldap.Changes(attributes) != map[] {
        var error := Send(conn, opType, Modify(result.value, Ldap.Changes(attributes)));
        if error.Some? {
          result := Err(Ldap.LdapError("modify " + result.value + ": " + error.value));
        }
      }
    }

    method CountEntries(conn: Conn, opType: string, base: string, filter: string) returns (result: Result<nat>)
      modifies this
      ensures (net, result) == Ldap.CountEntries(server, old(net), conn, opType, base, filter)
    {
      var entries := server.search(|net.wire|, DirOf(net, conn.dc), base, filter);
      var error := Send(conn, opType, Search(base, filter));
      result := if error.Some? then Err(Ldap.LdapError("search " + base + ": " + error.value)) else Ok(|entries|);
    }
  }
}
