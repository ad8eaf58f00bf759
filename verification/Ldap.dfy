/** The LDAP connector: what each provisioning operation asks of a directory. */
module Ldap {
  import opened Text
  import opened Directory
  import Utf16

  const UAC := "userAccountControl"
  const UAC_ENABLED := "512"
  const UAC_DISABLED := "514"
  const DN := "distinguishedName"
  const USER_CLASSES := {"top", "person", "organizationalPerson", "user"}

  function LdapError(message: string): string { "LDAP error: " + message }

  // --- requests ---------------------------------------------------------------------------------

  /** The attributes that are sent at all: not the DN, and not empty. */
  predicate Kept(attributes: map<string, string>, name: string) {
    name in attributes && name != DN && attributes[name] != ""
  }

  function KeptNames(attributes: map<string, string>): set<string> {
    set name | name in attributes && Kept(attributes, name)
  }

  /** The attribute list of an Add as the server reads it: values listed under one name are pooled. */
  function Collect(pushed: seq<(string, set<string>)>): Attrs {
    if pushed == [] then map[]
    else
      var rest := Collect(pushed[..|pushed| - 1]);
      var (name, values) := pushed[|pushed| - 1];
      rest[name := (if name in rest then rest[name] else {}) + values]
  }

  /** A new account: the user object classes, the kept attributes, and the disabled flag. */
  function AccountAttrs(attributes: map<string, string>): Attrs {
    map name | name in KeptNames(attributes) + {"objectClass", UAC} ::
      (if name == "objectClass" then USER_CLASSES else {})
      + (if Kept(attributes, name) then {attributes[name]} else {})
      + (if name == UAC then {UAC_DISABLED} else {})
  }

  function Changes(attributes: map<string, string>): Attrs {
    map name | name in KeptNames(attributes) :: {attributes[name]}
  }

  function EmailFilter(email: string): string {
    "(|(userPrincipalName=" + email + ")(mail=" + email + "))"
  }

  // --- operations -------------------------------------------------------------------------------

  function FindDn(s: Server, net: Net, conn: Conn, opType: string, email: string): (Net, Result<string>) {
    var (net', error) := Submit(s, net, conn, opType, Search(conn.baseDn, EmailFilter(email)));
    match error
    case Some(e) => (net', Err(LdapError("search " + email + ": " + e)))
    case None =>
      var found := s.search(|net.wire|, DirOf(net, conn.dc), conn.baseDn, EmailFilter(email));
      if found == [] then (net', Err(LdapError("no AD account found for " + email))) else (net', Ok(found[0]))
  }

  function WritePassword(
      s: Server, net: Net, conn: Conn, opType: string, dn: string, password: string): (Net, Result<string>)
  {
    var (net', error) := Submit(s, net, conn, opType, SetPassword(dn, Utf16.PasswordBytes(password)));
    match error
    case Some(e) => (net', Err(LdapError("password writeback " + dn + ": " + e)))
    case None => (net', Ok(dn))
  }

  function CreateAccount(
      s: Server, net: Net, conn: Conn, opType: string,
      attributes: map<string, string>, password: Option<string>): (Net, Result<string>)
  {
    if DN !in attributes then (net, Err(LdapError("attributes missing distinguishedName")))
    else
      var dn := attributes[DN];
      var (net', error) := Submit(s, net, conn, opType, Add(dn, AccountAttrs(attributes)));
      match error
      case Some(e) => (net', Err(LdapError("add " + dn + ": " + e)))
      case None =>
        if conn.passwordWriteback && password.Some? then WritePassword(s, net', conn, opType, dn, password.value)
        else (net', Ok(dn))
  }

  function SetUac(s: Server, net: Net, conn: Conn, opType: string, email: string, uac: string): (Net, Result<string>) {
    var (found, dn) := FindDn(s, net, conn, opType, email);
    match dn
    case Err(e) => (found, Err(e))
    case Ok(dn) =>
      var (net', error) := Submit(s, found, conn, opType, Modify(dn, map[UAC := {uac}]));
      match error
      case Some(e) => (net', Err(LdapError("modify uac " + dn + ": " + e)))
      case None => (net', Ok(dn))
  }

  function UpdateAttributes(
      s: Server, net: Net, conn: Conn, opType: string, email: string,
      attributes: map<string, string>): (Net, Result<string>)
  {
    var (found, dn) := FindDn(s, net, conn, opType, email);
    match dn
    case Err(e) => (found, Err(e))
    case Ok(dn) =>
      if Changes(attributes) == map[] then (found, Ok(dn))
      else
        var (net', error) := Submit(s, found, conn, opType, Modify(dn, Changes(attributes)));
        match error
        case Some(e) => (net', Err(LdapError("modify " + dn + ": " + e)))
        case None => (net', Ok(dn))
  }

  /** A read-only search: how many entries it returns. */
  function CountEntries(
      s: Server, net: Net, conn: Conn, opType: string, base: string, filter: string): (Net, Result<nat>)
  {
    var (net', error) := Submit(s, net, conn, opType, Search(base, filter));
    match error
    case Some(e) => (net', Err(LdapError("search " + base + ": " + e)))
    case None => (net', Ok(|s.search(|net.wire|, DirOf(net, conn.dc), base, filter)|))
  }
}
