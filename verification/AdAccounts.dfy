/** What each operation does to the account it names, in the directory's own attribute names and values. */
module AdAccounts {
  import opened Text
  import opened Json
  import opened AuditRecords
  import opened AuditChain
  import opened Journal
  import opened Directory
  import opened Ldap
  import opened Forest
  import opened AdMode
  import opened AdMachine
  import opened AdSteps
  import Utf16

  /** Whether the controller accepts a request that is sent as number `now`. */
  predicate Takes(env: Env, now: nat, conn: Conn, dir: Dir, request: Request) {
    env.dialer.server.refuses(now, conn.dc, dir, request).None?
  }

  lemma SubmitTakes(env: Env, net: Net, conn: Conn, opType: string, request: Request)
    ensures var (net', error) := Submit(env.dialer.server, net, conn, opType, request);
            var dir := DirOf(net, conn.dc);
            && |net'.wire| == |net.wire| + 1
            && (error.None? <==> Takes(env, |net.wire|, conn, dir, request) && Apply(dir, request).Some?)
            && DirOf(net', conn.dc) == if error.None? then Apply(dir, request).value else dir
  {
  }

  // --- what a success reports -------------------------------------------------------------------

  lemma DnDetailSays(dn: string)
    ensures FieldIn(DnDetail(dn), "dn") == Some(Str(dn))
  {
    FieldsRead(["dn"], [Str(dn)], 0);
  }

  lemma StateDetailSays(dn: string, state: string)
    ensures FieldIn(StateDetail(dn, state), "dn") == Some(Str(dn))
    ensures FieldIn(StateDetail(dn, state), "state") == Some(Str(state))
  {
    FieldsRead(["dn", "state"], [Str(dn), Str(state)], 0);
    FieldsRead(["dn", "state"], [Str(dn), Str(state)], 1);
  }

  lemma UpdateDetailSays(dn: string, given: map<string, string>)
    ensures FieldIn(UpdateDetail(dn, given), "dn") == Some(Str(dn))
    ensures FieldIn(UpdateDetail(dn, given), "updated") == Some(Num(Wrap(|given|)))
  {
    FieldsRead(["dn", "updated"], [Str(dn), Num(Wrap(|given|))], 0);
    FieldsRead(["dn", "updated"], [Str(dn), Num(Wrap(|given|))], 1);
  }

  // --- CREATE_ACCOUNT ---------------------------------------------------------------------------

  /** A new account: a disabled user with the attributes given, except those that are empty and the DN. */
  ghost predicate NewUser(attrs: Attrs, given: map<string, string>) {
    && (forall name :: name in attrs <==>
         || name == "objectClass" || name == "userAccountControl"
         || (name in given && name != "distinguishedName" && given[name] != ""))
    && (forall name :: name in attrs && name != "objectClass" && name != "userAccountControl" ==>
         attrs[name] == {given[name]})
    && attrs["objectClass"] == {"top", "person", "organizationalPerson", "user"} + Given(given, "objectClass")
    && attrs["userAccountControl"] == {"514"} + Given(given, "userAccountControl")
  }

  function Given(given: map<string, string>, name: string): set<string> {
    if name in given && given[name] != "" then {given[name]} else {}
  }

  lemma AccountNames(given: map<string, string>, name: string)
    ensures name in AccountAttrs(given) <==>
              || name == "objectClass" || name == "userAccountControl"
              || (name in given && name != "distinguishedName" && given[name] != "")
    ensures name in AccountAttrs(given) && name != "objectClass" && name != "userAccountControl" ==>
              AccountAttrs(given)[name] == {given[name]}
  {
  }

  lemma AccountDefaults(given: map<string, string>)
    ensures "objectClass" in AccountAttrs(given) && "userAccountControl" in AccountAttrs(given)
    ensures AccountAttrs(given)["objectClass"]
         == {"top", "person", "organizationalPerson", "user"} + Given(given, "objectClass")
    ensures AccountAttrs(given)["userAccountControl"] == {"514"} + Given(given, "userAccountControl")
  {
  }

  lemma AccountIsNewUser(given: map<string, string>)
    ensures NewUser(AccountAttrs(given), given)
  {
    var attrs := AccountAttrs(given);
    AccountDefaults(given);
    forall name
      ensures name in attrs <==>
                || name == "objectClass" || name == "userAccountControl"
                || (name in given && name != "distinguishedName" && given[name] != "")
      ensures name in attrs && name != "objectClass" && name != "userAccountControl" ==> attrs[name] == {given[name]}
    {
      AccountNames(given, name);
    }
  }

  predicate CreateGiven(env: Env, op: Operation) {
    && op.attributesJson.Some? && env.parseAttrs(op.attributesJson.value).Ok?
    && "distinguishedName" in env.parseAttrs(op.attributesJson.value).value
    && (op.encryptedPassword.Some? ==> env.dialer.decrypt(op.encryptedPassword.value).Ok?)
  }

  /** Nothing stands in the way of the add, nor of the password where one is due. */
  predicate CreateTaken(env: Env, net: Net, conn: Conn, op: Operation, attrs: Attrs)
    requires CreateGiven(env, op)
  {
    var dn, dir := env.parseAttrs(op.attributesJson.value).value["distinguishedName"], DirOf(net, conn.dc);
    && dn !in dir && Takes(env, |net.wire|, conn, dir, Add(dn, attrs))
    && (conn.passwordWriteback && op.encryptedPassword.Some? ==>
          var password := Utf16.PasswordBytes(env.dialer.decrypt(op.encryptedPassword.value).value);
          Takes(env, |net.wire| + 1, conn, dir[dn := Entry(attrs, None)], SetPassword(dn, password)))
  }

  lemma CreateProcess(env: Env, net: Net, conn: Conn, op: Operation)
    requires op.opType == "CREATE_ACCOUNT"
    ensures Process(env, net, conn, op).1.Ok?
        <==> CreateGiven(env, op) && CreateTaken(env, net, conn, op, AccountAttrs(Attributes(env, op).value))
  {
    if CreateGiven(env, op) {
      var given := Attributes(env, op).value;
      var dn := given["distinguishedName"];
      var attrs := AccountAttrs(given);
      SubmitTakes(env, net, conn, op.opType, Add(dn, attrs));
      var (net', error) := Submit(env.dialer.server, net, conn, op.opType, Add(dn, attrs));
      if op.encryptedPassword.Some? {
        var password := Utf16.PasswordBytes(env.dialer.decrypt(op.encryptedPassword.value).value);
        SubmitTakes(env, net', conn, op.opType, SetPassword(dn, password));
      }
    }
  }

  /** A password as the directory decodes it: the plaintext in double quotes. */
  predicate Quoted(bytes: seq<byte>, plaintext: string) { Utf16.Decode(bytes) == Some("\"" + plaintext + "\"") }

  /** The password a CREATE leaves: the decrypted one, where one came and the connection may write it. */
  predicate PasswordLeft(env: Env, conn: Conn, op: Operation, password: Option<seq<byte>>) {
    if conn.passwordWriteback && op.encryptedPassword.Some? then
      && password.Some? && env.dialer.decrypt(op.encryptedPassword.value).Ok?
      && Quoted(password.value, env.dialer.decrypt(op.encryptedPassword.value).value)
    else password == None
  }

  lemma CreateEffect(env: Env, net: Net, conn: Conn, op: Operation)
    requires op.opType == "CREATE_ACCOUNT" && CreateGiven(env, op)
    requires CreateTaken(env, net, conn, op, AccountAttrs(Attributes(env, op).value))
    ensures var (net', result) := Process(env, net, conn, op);
            var dn, before, after := Attributes(env, op).value[DN], DirOf(net, conn.dc), DirOf(net', conn.dc);
            && result == Ok(DnDetail(dn)) && dn in after && after == before[dn := after[dn]]
            && after[dn].attrs == AccountAttrs(Attributes(env, op).value)
            && PasswordLeft(env, conn, op, after[dn].password)
  {
    var dn, attrs := Attributes(env, op).value[DN], AccountAttrs(Attributes(env, op).value);
    SubmitTakes(env, net, conn, op.opType, Add(dn, attrs));
    if conn.passwordWriteback && op.encryptedPassword.Some? {
      var plaintext := env.dialer.decrypt(op.encryptedPassword.value).value;
      var net1 := Submit(env.dialer.server, net, conn, op.opType, Add(dn, attrs)).0;
      SubmitTakes(env, net1, conn, op.opType, SetPassword(dn, Utf16.PasswordBytes(plaintext)));
      Utf16.PasswordRoundTrip(plaintext);
    }
  }

  /**
   A CREATE succeeds exactly when its DN, attributes and password can be read and the controller takes them. It
   adds one entry, under that DN and where none was: a disabled user with the attributes given, except those that
   are empty and the DN itself, and with its password where one came and may be written.
   */
  lemma CreateSays(env: Env, net: Net, conn: Conn, op: Operation) returns (attrs: Attrs)
    requires op.opType == "CREATE_ACCOUNT"
    ensures !CreateGiven(env, op) ==> Process(env, net, conn, op).1.Err?
    ensures CreateGiven(env, op) ==>
              var given := env.parseAttrs(op.attributesJson.value).value;
              var (net', result) := Process(env, net, conn, op);
              && NewUser(attrs, given) && (result.Ok? <==> CreateTaken(env, net, conn, op, attrs))
              && (result.Ok? ==>
                   var dn, before, after := given["distinguishedName"], DirOf(net, conn.dc), DirOf(net', conn.dc);
                   && dn in after && after == before[dn := Entry(attrs, after[dn].password)]
                   && PasswordLeft(env, conn, op, after[dn].password)
                   && FieldIn(result.value, "dn") == Some(Str(dn)))
  {
    attrs := map[];
    CreateProcess(env, net, conn, op);
    if CreateGiven(env, op) {
      var given := Attributes(env, op).value;
      attrs := AccountAttrs(given);
      AccountIsNewUser(given);
      DnDetailSays(given["distinguishedName"]);
      if CreateTaken(env, net, conn, op, attrs) {
        CreateEffect(env, net, conn, op);
      }
    }
  }

  // --- ENABLE_ACCOUNT, DISABLE_ACCOUNT, UPDATE_ATTRIBUTES -----------------------------------------

  /** The entries a search for the operation's own address returns, as a mail address or a principal name. */
  function Found(env: Env, net: Net, conn: Conn, email: string): seq<string> {
    env.dialer.server.search(
      |net.wire|, DirOf(net, conn.dc), conn.baseDn, "(|(userPrincipalName=" + email + ")(mail=" + email + "))")
  }

  /** The search is accepted and finds something. */
  predicate FindTaken(env: Env, net: Net, conn: Conn, op: Operation) {
    && op.userEmail.Some?
    && Takes(env, |net.wire|, conn, DirOf(net, conn.dc),
             Search(conn.baseDn, "(|(userPrincipalName=" + op.userEmail.value + ")(mail=" + op.userEmail.value + "))"))
    && Found(env, net, conn, op.userEmail.value) != []
  }

  /** So is the change of the first entry found. */
  predicate ChangeTaken(env: Env, net: Net, conn: Conn, op: Operation, changes: Attrs)
    requires FindTaken(env, net, conn, op)
  {
    var dn, dir := Found(env, net, conn, op.userEmail.value)[0], DirOf(net, conn.dc);
    dn in dir && Takes(env, |net.wire| + 1, conn, dir, Modify(dn, changes))
  }

  lemma FindSays(env: Env, net: Net, conn: Conn, op: Operation)
    requires op.userEmail.Some?
    ensures var (net', dn) := FindDn(env.dialer.server, net, conn, op.opType, op.userEmail.value);
            && |net'.wire| == |net.wire| + 1 && DirOf(net', conn.dc) == DirOf(net, conn.dc)
            && (dn.Ok? <==> FindTaken(env, net, conn, op))
            && (dn.Ok? ==> dn.value == Found(env, net, conn, op.userEmail.value)[0])
  {
    SubmitTakes(env, net, conn, op.opType, Search(conn.baseDn, EmailFilter(op.userEmail.value)));
  }

  /** Replaces values of the first entry found. */
  function ChangedDir(dir: Dir, dn: string, changes: Attrs): Dir
    requires dn in dir
  {
    dir[dn := Entry(dir[dn].attrs + changes, dir[dn].password)]
  }

  lemma SwitchEffect(env: Env, net: Net, conn: Conn, op: Operation, uac: string)
    requires op.userEmail.Some?
    ensures var (net', dn) := SetUac(env.dialer.server, net, conn, op.opType, op.userEmail.value, uac);
            && (dn.Ok? <==> FindTaken(env, net, conn, op) && ChangeTaken(env, net, conn, op, map[UAC := {uac}]))
            && (dn.Ok? ==>
                 && dn.value == Found(env, net, conn, op.userEmail.value)[0]
                 && DirOf(net', conn.dc) == ChangedDir(DirOf(net, conn.dc), dn.value, map[UAC := {uac}]))
  {
    FindSays(env, net, conn, op);
    var (found, dn) := FindDn(env.dialer.server, net, conn, op.opType, op.userEmail.value);
    if dn.Ok? {
      SubmitTakes(env, found, conn, op.opType, Modify(dn.value, map[UAC := {uac}]));
    }
  }

  lemma OneChange(attrs: Attrs, name: string, values: set<string>)
    ensures attrs + map[name := values] == attrs[name := values]
  {
  }

  lemma SwitchProcess(env: Env, net: Net, conn: Conn, op: Operation)
    requires op.opType == "ENABLE_ACCOUNT" || op.opType == "DISABLE_ACCOUNT"
    ensures op.userEmail.None? ==> Process(env, net, conn, op).1.Err?
    ensures op.userEmail.Some? ==>
              var (uac, state) := if op.opType == "ENABLE_ACCOUNT" then ("512", "enabled") else ("514", "disabled");
              var (net', dn) := SetUac(env.dialer.server, net, conn, op.opType, op.userEmail.value, uac);
              Process(env, net, conn, op) == (net', MapOk(dn, d => StateDetail(d, state)))
  {
    if op.userEmail.Some? {
      var (uac, state) := if op.opType == "ENABLE_ACCOUNT" then ("512", "enabled") else ("514", "disabled");
      var (net', dn) := SetUac(env.dialer.server, net, conn, op.opType, op.userEmail.value, uac);
      assert MapOk(dn, d => StateDetail(d, state)) == Process(env, net, conn, op).1;
    }
  }

  /**
   An ENABLE or DISABLE succeeds exactly when its address finds an entry that takes the change; it then sets that
   entry's userAccountControl to 512 or 514, and changes nothing else.
   */
  lemma SwitchSays(env: Env, net: Net, conn: Conn, op: Operation)
    requires op.opType == "ENABLE_ACCOUNT" || op.opType == "DISABLE_ACCOUNT"
    ensures var uac := if op.opType == "ENABLE_ACCOUNT" then "512" else "514";
            var (net', result) := Process(env, net, conn, op);
            && (result.Ok? <==>
                  FindTaken(env, net, conn, op) && ChangeTaken(env, net, conn, op, map["userAccountControl" := {uac}]))
            && (result.Ok? ==>
                 var dn, before := Found(env, net, conn, op.userEmail.value)[0], DirOf(net, conn.dc);
                 && DirOf(net', conn.dc)
                    == before[dn := Entry(before[dn].attrs["userAccountControl" := {uac}], before[dn].password)]
                 && FieldIn(result.value, "dn") == Some(Str(dn))
                 && FieldIn(result.value, "state") == Some(Str(if uac == "512" then "enabled" else "disabled")))
  {
    var uac := if op.opType == "ENABLE_ACCOUNT" then "512" else "514";
    SwitchProcess(env, net, conn, op);
    if op.userEmail.Some? {
      SwitchEffect(env, net, conn, op, uac);
      if FindTaken(env, net, conn, op) && ChangeTaken(env, net, conn, op, map["userAccountControl" := {uac}]) {
        var dn := Found(env, net, conn, op.userEmail.value)[0];
        OneChange(DirOf(net, conn.dc)[dn].attrs, "userAccountControl", {uac});
        StateDetailSays(dn, if op.opType == "ENABLE_ACCOUNT" then "enabled" else "disabled");
      }
    }
  }

  /** The changes of an UPDATE: a new value for each attribute given, except those that are empty and the DN. */
  ghost predicate NewValues(changes: Attrs, given: map<string, string>) {
    && (forall name :: name in changes <==> name in given && name != "distinguishedName" && given[name] != "")
    && (forall name :: name in changes ==> changes[name] == {given[name]})
  }

  lemma ChangesAreNewValues(given: map<string, string>)
    ensures NewValues(Changes(given), given)
  {
  }

  lemma UpdateEffect(env: Env, net: Net, conn: Conn, op: Operation, given: map<string, string>)
    requires op.userEmail.Some?
    ensures var (net', dn) := UpdateAttributes(env.dialer.server, net, conn, op.opType, op.userEmail.value, given);
            && (dn.Ok? <==>
                  && FindTaken(env, net, conn, op)
                  && (Changes(given) == map[] || ChangeTaken(env, net, conn, op, Changes(given))))
            && (dn.Ok? ==> dn.value == Found(env, net, conn, op.userEmail.value)[0])
            && (dn.Ok? && Changes(given) == map[] ==> DirOf(net', conn.dc) == DirOf(net, conn.dc))
            && (dn.Ok? && Changes(given) != map[] ==>
                 DirOf(net', conn.dc) == ChangedDir(DirOf(net, conn.dc), dn.value, Changes(given)))
  {
    FindSays(env, net, conn, op);
    var (found, dn) := FindDn(env.dialer.server, net, conn, op.opType, op.userEmail.value);
    if dn.Ok? && Changes(given) != map[] {
      SubmitTakes(env, found, conn, op.opType, Modify(dn.value, Changes(given)));
    }
  }

  lemma UpdateProcess(env: Env, net: Net, conn: Conn, op: Operation)
    requires op.opType == "UPDATE_ATTRIBUTES"
    ensures op.userEmail.None? || Attributes(env, op).Err? ==> Process(env, net, conn, op).1.Err?
    ensures op.userEmail.Some? && Attributes(env, op).Ok? ==>
              var given := Attributes(env, op).value;
              var (net', dn) := UpdateAttributes(env.dialer.server, net, conn, op.opType, op.userEmail.value, given);
              Process(env, net, conn, op) == (net', MapOk(dn, d => UpdateDetail(d, given)))
  {
    if op.userEmail.Some? && Attributes(env, op).Ok? {
      var given := Attributes(env, op).value;
      var (net', dn) := UpdateAttributes(env.dialer.server, net, conn, op.opType, op.userEmail.value, given);
      assert MapOk(dn, d => UpdateDetail(d, given)) == Process(env, net, conn, op).1;
    }
  }

  /**
   An UPDATE succeeds exactly when its attributes can be read and its address finds an entry that takes the new
   values, if there are any; it then gives that entry those values, and changes nothing else.
   */
  lemma UpdateSays(env: Env, net: Net, conn: Conn, op: Operation) returns (changes: Attrs)
    requires op.opType == "UPDATE_ATTRIBUTES"
    requires op.attributesJson.Some? ==> env.parseAttrs(op.attributesJson.value).Ok?
    ensures var given := if op.attributesJson.Some? then env.parseAttrs(op.attributesJson.value).value else map[];
            var (net', result) := Process(env, net, conn, op);
            && NewValues(changes, given)
            && (result.Ok? <==>
                  FindTaken(env, net, conn, op) && (changes == map[] || ChangeTaken(env, net, conn, op, changes)))
            && (result.Ok? ==>
                 var dn, before, after := Found(env, net, conn, op.userEmail.value)[0], DirOf(net, conn.dc),
                                          DirOf(net', conn.dc);
                 && (changes == map[] ==> after == before)
                 && (changes != map[] ==>
                      after == before[dn := Entry(before[dn].attrs + changes, before[dn].password)])
                 && FieldIn(result.value, "dn") == Some(Str(dn))
                 && FieldIn(result.value, "updated") == Some(Num(|given| % 0x1_0000_0000_0000_0000)))
  {
    var given := Attributes(env, op).value;
    changes := Changes(given);
    ChangesAreNewValues(given);
    UpdateProcess(env, net, conn, op);
    if op.userEmail.Some? {
      UpdateEffect(env, net, conn, op, given);
      if FindTaken(env, net, conn, op) {
        UpdateDetailSays(Found(env, net, conn, op.userEmail.value)[0], given);
      }
    }
  }

  // --- TEST_CONNECTION, SYNC_USERS ----------------------------------------------------------------

  lemma CountSays(env: Env, net: Net, conn: Conn, opType: string, base: string, filter: string)
    ensures var (net', n) := CountEntries(env.dialer.server, net, conn, opType, base, filter);
            && (n.Ok? <==> Takes(env, |net.wire|, conn, DirOf(net, conn.dc), Search(base, filter)))
            && (n.Ok? ==> n.value == |env.dialer.server.search(|net.wire|, DirOf(net, conn.dc), base, filter)|)
  {
    SubmitTakes(env, net, conn, opType, Search(base, filter));
  }

  /** A probe succeeds exactly when the search base can be read, and reports how many entries it is. */
  lemma ProbeSays(env: Env, net: Net, conn: Conn, op: Operation)
    requires op.opType == "TEST_CONNECTION"
    ensures var (net', result) := Process(env, net, conn, op);
            var dir := DirOf(net, conn.dc);
            var n := |env.dialer.server.search(|net.wire|, dir, conn.baseDn, "(objectClass=*)")|;
            && (result.Ok? <==> Takes(env, |net.wire|, conn, dir, Search(conn.baseDn, "(objectClass=*)")))
            && (result.Ok? ==>
                 && FieldIn(result.value, "ok") == Some(Bool(true))
                 && FieldIn(result.value, "base_dn_entries") == Some(Num(n % 0x1_0000_0000_0000_0000)))
  {
    CountSays(env, net, conn, op.opType, conn.baseDn, "(objectClass=*)");
    var n := |env.dialer.server.search(|net.wire|, DirOf(net, conn.dc), conn.baseDn, "(objectClass=*)")|;
    FieldsRead(["base_dn_entries", "ok"], [Num(Wrap(n)), Bool(true)], 0);
    FieldsRead(["base_dn_entries", "ok"], [Num(Wrap(n)), Bool(true)], 1);
  }

  /**
   A user search goes to the base and the filter given as parameters; without them to the operation's base and to
   all persons.
   */
  lemma UsersSays(env: Env, net: Net, conn: Conn, op: Operation, base: string, filter: string)
    requires op.opType == "SYNC_USERS" && (op.attributesJson.Some? ==> env.parseAttrs(op.attributesJson.value).Ok?)
    requires var params := if op.attributesJson.Some? then env.parseAttrs(op.attributesJson.value).value else map[];
             && (if "userBaseDn" in params && params["userBaseDn"] != "" then base == params["userBaseDn"]
                 else op.targetBaseDn == Some(base))
             && filter == if "filter" in params && params["filter"] != "" then params["filter"]
                          else "(&(objectClass=user)(objectCategory=person))"
    ensures var (net', result) := Process(env, net, conn, op);
            var dir := DirOf(net, conn.dc);
            var n := |env.dialer.server.search(|net.wire|, dir, base, filter)|;
            && (result.Ok? <==> Takes(env, |net.wire|, conn, dir, Search(base, filter)))
            && (result.Ok? ==> FieldIn(result.value, "inspected") == Some(Num(n % 0x1_0000_0000_0000_0000)))
  {
    CountSays(env, net, conn, op.opType, base, filter);
    var n := |env.dialer.server.search(|net.wire|, DirOf(net, conn.dc), base, filter)|;
    FieldsRead(["inspected"], [Num(Wrap(n))], 0);
  }

  /** No other operation does anything. */
  lemma UnknownFails(env: Env, net: Net, conn: Conn, op: Operation)
    requires op.opType !in {"CREATE_ACCOUNT", "ENABLE_ACCOUNT", "DISABLE_ACCOUNT", "UPDATE_ATTRIBUTES"}
    requires op.opType !in {"TEST_CONNECTION", "SYNC_USERS"}
    ensures Process(env, net, conn, op).0 == net && Process(env, net, conn, op).1.Err?
  {
  }

  // --- what is never sent -------------------------------------------------------------------------

  /** Neither the DN nor an empty value. */
  predicate Clean(attrs: Attrs) {
    "distinguishedName" !in attrs && forall name :: name in attrs ==> attrs[name] != {} && "" !in attrs[name]
  }

  predicate SentClean(request: Request) {
    match request
    case Add(_, attrs) => Clean(attrs)
    case Modify(_, changes) => Clean(changes)
    case _ => true
  }

  predicate CleanTask(task: Task) {
    match task
    case Adding(_, _, attrs, _) => Clean(attrs)
    case Finding(_, _, goal) => Clean(GoalChanges(goal))
    case Modifying(_, _, goal) => Clean(GoalChanges(goal))
    case _ => true
  }

  lemma AccountClean(given: map<string, string>)
    ensures Clean(AccountAttrs(given)) && Clean(Changes(given))
  {
    AccountIsNewUser(given);
    ChangesAreNewValues(given);
  }

  lemma SwitchClean(uac: string)
    requires uac != ""
    ensures Clean(map[UAC := {uac}])
  {
  }

  lemma GoalClean(goal: Goal)
    requires goal.SwitchTo? ==> goal.uac != ""
    ensures Clean(GoalChanges(goal))
  {
    if goal.Replace? {
      AccountClean(goal.attributes);
    } else {
      SwitchClean(goal.uac);
    }
  }

  /** What an operation is begun with. */
  lemma BeginGoal(env: Env, conn: Conn, op: Operation)
    ensures var task := Begin(env, conn, op);
            && !task.Modifying?
            && (task.Adding? ==> Attributes(env, op).Ok? && task.attrs == AccountAttrs(Attributes(env, op).value))
            && (task.Finding? && task.goal.SwitchTo? ==> |task.goal.uac| == 3)
  {
  }

  lemma BeginClean(env: Env, conn: Conn, op: Operation)
    ensures CleanTask(Begin(env, conn, op))
  {
    var task := Begin(env, conn, op);
    BeginGoal(env, conn, op);
    if task.Adding? {
      AccountClean(Attributes(env, op).value);
    } else if task.Finding? {
      GoalClean(task.goal);
    }
  }

  lemma StartClean(env: Env, conns: Conns, op: Operation)
    ensures CleanTask(Start(env, conns, op))
  {
    BeginClean(env, env.home, op);
    if op.forestContextJson.Some? {
      var ctx := env.parseForest(op.forestContextJson.value);
      if ctx.Ok? && ctx.value.forestId in conns {
        BeginClean(env, conns[ctx.value.forestId], op);
      }
    }
  }

  lemma StepClean(env: Env, op: Operation, w: Work)
    requires CleanTask(w.task)
    ensures CleanTask(TaskStep(env, op, w).task)
    ensures Pending(env, op, w.task).Some? ==> SentClean(Pending(env, op, w.task).value.1)
  {
    if w.task.Binding? && w.task.hosts != [] {
      BeginClean(env, ConnFor(env.dialer, w.task.ctx, BaseDn(w.task.ctx, op.targetBaseDn), w.task.hosts[0]), op);
    }
  }

  ghost predicate CleanSince(wire: seq<Sent>, from: nat) {
    forall t :: from <= t < |wire| ==> SentClean(wire[t].request)
  }

  ghost predicate CleanMachine(ops: seq<Operation>, from: nat, m: Machine) {
    && from <= |m.pass.net.wire| && CleanSince(m.pass.net.wire, from)
    && (m.phase.Working? && m.phase.i < |ops| ==> CleanTask(m.phase.task))
  }

  lemma MachineStepClean(env: Env, ops: seq<Operation>, from: nat, m: Machine)
    requires CleanMachine(ops, from, m)
    ensures CleanMachine(ops, from, Step(env, ops, m))
  {
    var i := m.phase.i;
    if m.phase.Next? && i < |ops| {
      StartClean(env, m.pass.conns, ops[i]);
    } else if m.phase.Working? && i < |ops| {
      var w := Work(m.pass.net, m.pass.conns, m.phase.task);
      StepClean(env, ops[i], w);
      StepSends(env, ops[i], w);
    }
  }

  /** No pass, wherever it is dropped, sends an empty attribute value or the DN as an attribute. */
  lemma NeverSent(env: Env, start: Pass, ops: seq<Operation>, k: nat, t: nat)
    requires |start.net.wire| <= t < |Reach(env, start, ops, k).pass.net.wire|
    ensures match Reach(env, start, ops, k).pass.net.wire[t].request
            case Add(_, attrs) => "distinguishedName" !in attrs && forall name :: name in attrs ==> "" !in attrs[name]
            case Modify(_, changes) =>
              "distinguishedName" !in changes && forall name :: name in changes ==> "" !in changes[name]
            case _ => true
  {
    var from := |start.net.wire|;
    var inv := m => CleanMachine(ops, from, m);
    forall m | inv(m) ensures inv(Step(env, ops, m)) {
      MachineStepClean(env, ops, from, m);
    }
    Invariant(StepOf(env, ops), inv, Machine(start, Next(0)), k);
    assert SentClean(Reach(env, start, ops, k).pass.net.wire[t].request);
  }
}
