# Verified model of the NexusID hybrid sync agent

The agent drains provisioning operations from a broker into Active Directory, or syncs the rows of a
database table with the broker in both directions, and records what it does in a hash-chained log. This
project models that behaviour in Dafny and proves what its parts promise each other.
`dafny verify dfyconfig.toml` checks everything.

## How it is organised

- **Audit log.** `Json`, `JsonCut`, `Utf8`, `ByteLines`, `AuditRecords` and `AuditFormat` are the bytes of the
  log: a concrete JSON printer and parser, texts that were cut short, UTF-8, and line splitting. `AuditChain`
  is the chain as a property of a sequence of records, for any hash; `AuditHash` gives it the real preimage and
  draws the conclusions that need one; `AuditFile` is what `open` and `verify` make of a file; `AuditLogs` holds
  the log object, its faults and its restarts; `AuditEvidence` states tamper evidence for files; `Journal` is a
  log as the other parts use it.
- **Active Directory.** `Directory` is the domain controllers and the requests sent to them; `Ldap`,
  `LdapClient` and `Forest` are the connector; `AdMode` and `AdAgent` are a pass, as a function and as the
  loop that runs. `AdAccounts` says what each operation does in the directory's own names and values.
  `AdMachine` and `AdSteps` cut the same pass at every await, and the remaining `Ad...` modules prove what
  holds wherever it is dropped: `AdChannels` for the connections it opens and what they carry, `AdReports` for
  reports and entries field by field, `AdRedelivery` and `AdCrashes` for one crash and for any
  number, `AdTrail` for what the log and the broker are told, `AdMasked`, `AdStub` and `AdPicky` for the
  account that a crash leaves without its password. `Runner`, `RunnerLog` and `RunnerLoop` are the service
  around the passes.
- **Database.** `BTree`, `Sql`, `Db`, `DbLens`, `DbDrivers`, `DbConnector`, `DbMode`, `DbAgent` and `DbRunner`: a
  small grammar and semantics of the SQL that is sent, the compiler from changes to an UPDATE, the two
  directions as a lens, driver settings against servers, the two-direction pass, and the service around it.
- **Secrets.** `Base64`, `Secrets` and `Utf16`: the serialized secret, the references in the configuration,
  and the password encoding.

Code that changes state is modelled as classes and loops (`AuditLogs.AuditLog`, `AuditLogs.SyncCounters`,
`LdapClient.Network`, `Forest.Dial`, `AdAgent.AdAgent`, `RunnerLoop.ServiceLoop`,
`DbConnector.DbConnector`, `DbAgent.DbAgent`, `Secrets.FillBytes`). Each method is tied to a function of the
state it starts from, and the theorems are about those functions. Cancellation is modelled in the step
machine (`AdSteps.Step`, `Runner.Tick`), where each network request is one step; that machine is proved to
compute what the loops compute.

SHA-256, AES-GCM, the JSON readers of operations, the servers, the clock, random bytes and the environment
are parameters. Nothing is assumed of SHA-256; of AES-GCM only that decryption undoes encryption.

### What the code does not do

- *A log whose last record has lost its newline.* `open` and `verify` accept it, and the next `append` glues
  two records into one line that neither of them can read (`AuditFormat.LostNewline`).
  `AuditFormat.AppendNeedsNewline` gives the exact condition: the file stays readable if and only if it was
  terminated, or nothing but JSON white space follows its last newline.
- *A failed append.* If part of a record reached the disk, the head in memory and the head on disk no longer
  agree, and the process goes on to append RUN_ERROR. `AuditLogs.FailedAppend`: they agree if and only if
  nothing was written (`AuditLogs.FirstByteOnly` is an instance). `AuditLogs.TornForever`: after that next
  append the log can never be opened again, whatever is written to it later.
- *"Any edit, deletion, or reordering breaks the chain"* (`src/audit.rs:5`). Deleting the newest records is
  the exception: a prefix of a valid log is a valid log (`AuditChain.RearrangementDetected`). A log rewritten
  with fresh hashes also passes `verify`. What holds is that no other log can end in the same hash as the
  agent's own without a SHA-256 collision (`AuditHash.TamperEvident`), so the last hash must be remembered
  elsewhere. The other log may hold anything. `AuditHash.TamperEvidentExactly` gives the exact condition: a
  log is told apart from all others, up to collisions, if and only if its own time stamps and event names
  are single lines, as those the agent writes are (`AuditEvidence.RunOneLine`). With a newline in one of them
  another log hashes the same bytes throughout (`AuditHash.NewlinesShift` is an instance).
- *Redelivery after a crash* restores the directories, but an account dropped between its add and its
  password is left without one. Where no later request is answered by that password
  (`AdCrashes.StubIgnored`), nothing else differs. On a server that enables no account without a password the
  account stays disabled, whatever is asked later (`AdStub.StubsStayDisabled`); everything but its password
  and its userAccountControl still ends as undisturbed (`AdMasked.CrashesMasked`), and the crash is invisible
  up to the password if and only if the undisturbed pass leaves the account disabled too
  (`AdStub.CrashesVisible`, with an instance where it shows in `AdPicky.CrashShows`).
- *The log after a crash* is that of the undisturbed pass if and only if the interrupted operation gives the
  same result when it is executed again (`AdTrail.LogAfterRedelivery`). It does if it had not written yet
  (`AdTrail.NotYetWritten`). A CREATE that had succeeded is refused the second time, and is logged and
  reported as failed although its account exists (`AdTrail.CreatedAlready`).
- *Idempotent hardening.* Hardening an output again only trims it, so hardening is idempotent if and only if
  it does not fall back on a variable whose name ends in white space (`Secrets.HardenTwice`, with an instance
  in `Secrets.HardenNotIdempotent`). The names the agent passes do not.
- *A driver setting that does not fit the server.* Only `postgres` (in any letter case) gives numbered
  placeholders; the others give `?` (`DbDrivers.DriverDecides`). `DbLens.WritebackSucceeds` says when a writeback is accepted: the server
  must accept the form that the driver setting gives (a server may accept both). With a form it does not
  accept no writeback succeeds, and nothing changes (`DbLens.WrongDriver` for `postgresql`).

### Hypotheses

- `AdAlike.Steady`: answers of the servers depend on the directories alone (no transient failures).
- `AdRedelivery.SearchesBy`: a search returns the entries that match a fixed criterion.
- `AdCache.ForestsAgree`: operations that name one forest carry the same context and search base.
- `AdCrashes.UniqueInterrupted`: at most one entry answers to the email of the operation that was dropped when
  the pass got to it. `AdCrashes.Orderly` asks it of each of a series of dropped passes.
- `AdCrashes.StubIgnored`: only for a pass dropped between the add and the password of a CREATE. The theorems
  of `AdMasked` and `AdStub.CrashesVisible` do without it; they ask `AdMasked.Gated`: the password and the
  state of an account decide at most whether that account may be enabled.
- `AdLifecycle.NoUac`: no attribute list names userAccountControl.
- `AuditHash.OneLineFields`, of one of two logs that are compared: time stamps and event names are single
  lines. It is proved of the logs the agent writes, for a clock that writes single lines (RFC 3339).
- `RunnerLog.NeverFails`, `Journal.NoFaults`: appends succeed. The theorems about faults do without.
- `AuditFile.Framed` is proved of the agent's own format by `AuditFormat.LogFormatFramed`.
- `Db.PlainConnector`: table and column names need no quoting.

## Model

| member | source | states |
|---|---|---|
| Json.RoundTrip | src/audit.rs:115-118 | Every JSON value is parsed back from its compact text, and the parser stops exactly at its end when what follows cannot continue a number. |
| Json.RenderInjective | src/audit.rs:96 | Two details with the same compact text are the same value. |
| Json.CutObjectFails | src/audit.rs:75-76 | No proper prefix of a written object parses: a torn line is always recognised as corrupt. |
| Json.DoubledObjectFails | src/audit.rs:75-76 | A parseable text followed by a written object does not parse. |
| Json.EscapeSamples | src/audit.rs:96 | The escapes of the compact form: the named ones, lower-case hexadecimal for other controls, and no other character changed. |
| Json.RenderSamples | src/audit.rs:96 | The compact form of each kind of value, with members and items separated by commas alone. |
| Text.SpacesAre | src/audit.rs:71-72 | What `trim` strips, and so what makes a line blank: exactly the 25 white-space characters of Unicode. |
| AuditRecords.ParseRecordFaithful | src/audit.rs:19-27 | The record parser reads back what `append` writes, also after JSON white space and after no other blank; it rejects every cut of it, and a record, whole or cut, with another glued to it. |
| AuditRecords.RecordText | src/audit.rs:19-27 | The line of a record is the compact text of seq, ts, event, detail, prev_hash and hash, in this order and with its own values, and parses back to that object. |
| JsonCut.CutThenObjectFails | src/audit.rs:75-76 | A written object cut short stays unparseable when another record is written right after the cut. |
| AuditFormat.TornLine | src/audit.rs:71-76 | A record line cut at any byte, even inside a multi-byte character, is corrupt. |
| AuditFormat.CutThenLine | src/audit.rs:117-118 | A line cut at any byte with the next record glued to it is corrupt. |
| AuditFormat.LogFormatFramed | src/audit.rs:115-118 | The log's JSON lines are framed: single non-blank lines that read back, never readable when cut, glued, or both. |
| AuditChain.VerifyFindsLongestPrefix | src/audit.rs:143-161 | `verify` reports the length of the longest valid prefix and, if it stops, the sequence number carried by the first record outside it. |
| AuditChain.VerifyAcceptsExactlyValid | src/audit.rs:143-161 | `verify` accepts exactly the chains in which every record links, and then counts all of them. |
| AuditChain.NextRecordLinks | src/audit.rs:103-114 | The record made from the head of a valid chain extends it to a valid chain. |
| AuditChain.BrokenStaysBroken | src/audit.rs:153-156 | No records, whatever they hold, mend a broken chain: the report stays the same. |
| AuditChain.AppendNeverRepairs | src/audit.rs:103-122 | Appending keeps `ok` and `broken_at` of any log, and adds one to the count exactly when it is valid. |
| AuditChain.RearrangementDetected | src/audit.rs:143-161 | Any sequence drawn from the records of a valid log (deleted, repeated, permuted) verifies if and only if it is a prefix of that log; no hash assumption. |
| AuditChain.ChainBegins | src/audit.rs:17 | An accepted log begins with record 1, which names 64 zeros as the hash before it. |
| AuditHash.PreimageInjective | src/audit.rs:88-98 | The five newline-joined parts are determined by the hashed bytes when time stamp and event name hold no newline. |
| AuditHash.PreimageOneSided | src/audit.rs:88-98 | They are determined when this is known of one of two records only, the other being arbitrary, as long as the previous hashes are single lines. |
| AuditHash.HashReads | src/audit.rs:88-100 | The hash is lower-case hexadecimal of SHA-256 over number, time stamp, event, compact detail and previous hash, one per line. |
| AuditHash.TamperEvidentExactly | src/audit.rs:88-100 | An accepted log is told apart from every other accepted log with its last hash, up to collisions, if and only if its time stamps and event names are single lines. |
| AuditHash.NewlinesShift | src/audit.rs:88-98 | An instance with newlines: two different records that hash the same bytes, for every detail, so both verify alone with one hash and without a collision. |
| AuditHash.CompareSound | src/audit.rs:153-158 | Walking two valid chains, one of them arbitrary, back from a common last hash yields equal records, two colliding preimages taken from them, or a preimage of the genesis value. |
| AuditHash.TamperEvident | src/audit.rs:135-162 | A non-empty log with one-line fields and any other that verify and end in the same hash are equal, or two different byte strings with one SHA-256 value are exhibited, each hashed in one of them; an all-zero hash needs different lengths that agree modulo 2^64. |
| AuditEvidence.AcceptedChain | src/audit.rs:135-162 | A file is accepted if and only if it is readable and its records form a valid chain, whose head `open` recovers. |
| AuditEvidence.TamperEvidentFiles | src/audit.rs:135-162 | The same for files: an accepted file with one-line fields and any accepted file from which `open` recovers the same hash hold the same records, or a collision between them is exhibited. |
| AuditEvidence.RunOneLine | src/audit.rs:103-114 | Over any appends and restarts, the records the agent writes have one-line fields when its clock and event names do. |
| AuditEvidence.AgentLogEvident | src/audit.rs:64-162 | So the agent's own log is tamper evident without further hypothesis: whatever `verify` accepts and ends in the hash it holds has its records, or exhibits a collision. |
| AuditFile.OpenMeaning | src/audit.rs:64-86 | `open` succeeds exactly on readable files and recovers the head of the records in them. |
| AuditFile.VerifyMeaning | src/audit.rs:135-162 | `verify` gives the verdict on the records of the file, unless an unreadable line comes before any broken one, which is an error. |
| AuditFile.FramesReadBack | src/audit.rs:115-118 | A file written record by record reads back as exactly those records. |
| AuditFile.TornTail | src/audit.rs:70-79 | Any log cut at any byte: after a clean cut (between records, or a missing last newline) `open` recovers the head of exactly the whole records before it and `verify` gives the verdict on exactly them; after any other `open` fails, and so does `verify` unless it meets a broken link before the cut. |
| AuditFile.AppendGlues | src/audit.rs:117-118 | An append to a readable file leaves it readable if and only if it was terminated or the line glued from its rest and the new record can be read. |
| AuditFormat.AppendNeedsNewline | src/audit.rs:117-118 | For the agent's format: if and only if it was terminated, or nothing but JSON white space follows its last newline. |
| AuditFormat.LostNewline | src/audit.rs:117-118 | Every one-record file without its newline opens, and cannot be opened after the next append. |
| AuditLogs.TornForever | src/audit.rs:117-121 | After a write that left part of a record and one more append, the log can never be opened again, whatever is written later. |
| AuditLogs.FirstByteOnly | src/audit.rs:117-121 | An instance of a failed append after which the head in memory is not that of the file. |
| AuditLogs.AppendKeepsSync | src/audit.rs:103-122 | A completed append adds exactly the next record, keeps the cached head equal to the one on disk, and keeps the verdict. |
| AuditLogs.AppendedRecord | src/audit.rs:103-122 | The record a completed append adds, field by field: the time given, the event and its detail, the next number (1 at first), the hash of the record before it (64 zeros at first), and the hash over all of that. |
| AuditLogs.FailedAppend | src/audit.rs:117-121 | A write that stops early leaves the cached head alone; memory and disk agree if and only if no byte was written. |
| AuditLogs.RunKeepsVerdict | src/audit.rs:64-122 | Any interleaving of appends and restarts keeps memory and disk in step and earlier records in place, adds one record per append, and never changes the verdict. |
| AuditLogs.FreshLogVerifies | src/audit.rs:64-162 | From no file at all, any run verifies with as many records as appends, and a restart recovers the head in memory. |
| AuditLogs.AuditLog.Open | src/audit.rs:64-86 | The recovery loop computes the head of the file, or its first read error. |
| AuditLogs.AuditLog.Append | src/audit.rs:103-122 | The new file and head, or the fault with the head unmoved; the record returned carries the given time, event and detail behind the old head and becomes the head; without a fault, agreement of the two is kept. |
| AuditLogs.AuditLog.Verify | src/audit.rs:135-162 | The walk over the lines computes the verdict on the file. |
| AuditLogs.SyncCounters.RecordOk | src/audit.rs:40-48 | The five counters after a success, by operation type. |
| AuditLogs.SyncCounters.RecordFailure | src/audit.rs:49-52 | The five counters after a failure. |
| Journal.ReplaySynced | src/audit.rs:103-122 | While appends succeed, memory and disk agree at every moment, the file is its old records followed by exactly the attempted events in order, each with the clock's time of its append, and its chain is valid if and only if it was. |
| Utf16.PasswordRoundTrip | src/connectors/ldap.rs:275-278 | The written bytes decode to exactly the quoted password, surrogate pairs and inner quotes included. |
| Utf16.PasswordInjective | src/connectors/ldap.rs:275-278 | Different passwords are written as different bytes. |
| Utf16.PasswordLength | src/connectors/ldap.rs:275-278 | Two bytes per quote and basic-plane character, four per other character. |
| Utf16.Samples | src/connectors/ldap.rs:275-278 | The bytes of two passwords, one of them beyond the basic plane: low byte first, high surrogate first. |
| Directory.SubmitFrame | src/connectors/ldap.rs:228-233 | A refused or reading request changes no directory; an accepted one has exactly its own effect, on one controller. |
| LdapClient.AttributeList | src/connectors/ldap.rs:212-226 | The list pushed in a loop is, as the server pools it, the user classes, the non-empty attributes other than the DN, and the disabled flag. |
| LdapClient.Network.CreateAccount | src/connectors/ldap.rs:202-239 | Add, then the password where writeback is on and one is given; the first error ends it. What it leaves is AdAccounts.CreateSays. |
| LdapClient.Network.SetUac | src/connectors/ldap.rs:288-301 | Find the DN, then replace userAccountControl on it. |
| LdapClient.Network.UpdateAttributes | src/connectors/ldap.rs:252-272 | Find the DN, then replace the kept attributes in one request, or send none when there are none. |
| AdAccounts.CreateSays | src/connectors/ldap.rs:202-239 | A CREATE succeeds if and only if its DN, attributes and password can be read and the controller takes them. It adds one entry, under that DN and where none was: object classes top, person, organizationalPerson and user, userAccountControl 514, every other attribute given unless it is empty or the DN, and the quoted password where one came and may be written. |
| AdAccounts.SwitchSays | src/connectors/ldap.rs:242-315 | An ENABLE or DISABLE succeeds if and only if a search for the operation's own address, as mail or userPrincipalName, finds an entry that takes the change; it sets userAccountControl of the first one found to 512 or 514 and changes nothing else. |
| AdAccounts.UpdateSays | src/connectors/ldap.rs:252-272 | An UPDATE succeeds if and only if its attributes can be read and its address finds an entry that takes the new values, if there are any; it gives the first one found those values, leaving out the DN and empty ones, and changes nothing else. |
| AdAccounts.ProbeSays | src/connectors/ldap.rs:321-329 | A probe succeeds if and only if the search base can be read, and reports its entries. |
| AdAccounts.UsersSays | src/modes/ad.rs:142-157 | A user search goes to the base and filter given, else to the operation's base and to all persons. |
| AdAccounts.UnknownFails | src/modes/ad.rs:159 | An operation of another type sends nothing and fails. |
| AdAccounts.NeverSent | src/connectors/ldap.rs:219-261 | No pass, wherever it is dropped, sends an empty attribute value or the DN as an attribute. |
| Forest.FailoverInOrder | src/connectors/ldap.rs:118-175 | The first host in order that accepts is bound; there is an error exactly when every host fails, and it is that of the last. |
| AdChannels.HostBinds | src/connectors/ldap.rs:118-155 | A host is bound if and only if it takes the connection under its URL, there are credentials, and it takes them. |
| AdChannels.CredentialsGiven | src/connectors/ldap.rs:127-145 | There are credentials if and only if Kerberos is called for and built in, or the account is given with a password that decrypts. |
| AdChannels.ForestConnection | src/connectors/ldap.rs:105-119 | A forest connection reaches the controller of a URL: ldaps://host:636 with TLS, else ldap://host:389, for one of the context's servers or, without any, its global catalog; it searches under the operation's base or else the root, and allows password writeback if and only if it is over TLS or bound by Kerberos. |
| AdChannels.ServersInOrder | src/connectors/ldap.rs:46-53 | The servers of a context are tried in the order given; the first that binds is the connection, and there is none exactly when every one fails. |
| AdChannels.DialledAsGiven | src/connectors/ldap.rs:118-191 | The same of every connect and every bind that any step of a pass sends: each is for the context of the operation at hand, and a bind follows the accepted connect it belongs to, with the login the context calls for, Kerberos for the host name or the service account with its decrypted password. |
| AdChannels.SentWhereAllowed | src/modes/ad.rs:85-111 | Every other request goes over the default connection for an operation without a forest context, and otherwise over one that this pass dialled and bound for an operation of the same forest. |
| Forest.Dial | src/connectors/ldap.rs:99-176 | The loop over the hosts, keeping the last error, computes that outcome and the network it leaves. |
| AdAgent.AdAgent.Process | src/modes/ad.rs:113-161 | One operation dispatched on its type: requests sent, result or error, for every type and missing field. |
| AdAgent.AdAgent.RouteAndProcess | src/modes/ad.rs:85-111 | Routing through the cache: a connection is cached only after a successful connect, even if the operation then fails. |
| AdAgent.AdAgent.RunOnce | src/modes/ad.rs:51-81 | The loop over the batch: directories, reports, log and counters; left early only by a failed append. What the reports and entries say is AdReports.CompletedReports. |
| AdMachine.DriveIsProcess | src/modes/ad.rs:113-161 | Answering the requests of an operation one await at a time gives the directories and the result of the whole operation. |
| AdMachine.DriveIsDial | src/connectors/ldap.rs:118-175 | Dialling hosts one request at a time, then operating, amounts to the failover loop followed by the operation. |
| AdMachine.DriveIsRoute | src/modes/ad.rs:85-111 | The step machine refines routing: same directories, same cache, same result. |
| AdSteps.StepKeepsOrder | src/modes/ad.rs:51-74 | Every step of a pass keeps: earlier operations complete, the current one executed up to its pending request, its outcome that of the undisturbed pass. |
| AdSteps.CompletedTrail | src/modes/ad.rs:51-74 | The completed operations left one report and one log record each, in order, with their own results; AdReports.CompletedReports reads them field by field. |
| AdSteps.LagAtMostOne | src/modes/ad.rs:51-74 | Wherever a pass is dropped, the logged operations are a prefix of the batch, each reported with the same result, and at most one more is reported without a record; AdReports.ReportAndEntry reads them field by field. |
| AdReports.ReportAndEntry | src/modes/ad.rs:52-72 | Wherever a pass is dropped, each operation completed by then was reported under its own id and logged with its id and type; the report says success if and only if the entry is AD_OP_OK, if and only if the operation succeeded, and both carry the same detail; otherwise both carry the same error and no detail. |
| AdReports.CompletedReports | src/modes/ad.rs:51-81 | The same of every operation of a pass that ran to its end. |
| AdSteps.PassEnds | src/modes/ad.rs:51-81 | A pass that is not dropped ends in exactly the state of the loop. |
| AdSteps.LaterUntouched | src/runner.rs:63-69 | The state at an operation does not depend on the operations after it. |
| AdSteps.HeadInStepWhenDropped | src/audit.rs:103-122 | While appends succeed, the cached head equals the one on disk wherever the pass is dropped. |
| AdCache.FirstSuccessfulDial | src/modes/ad.rs:96-106 | The cached connection of a forest is that of its first operation whose connect succeeded; a forest is uncached exactly while every connect has failed. |
| AdCache.OneConnectionPerForest | src/modes/ad.rs:96-107 | Once one operation of a forest could connect, all later ones run on the same connection. |
| AdCache.RouteAlike | src/modes/ad.rs:85-111 | Caches that are right for an operation route it to the same result and directories, with steady servers. |
| AdCache.CacheTransparentFromStart | src/modes/ad.rs:46-74 | If operations of one forest agree and servers are steady, a cached pass gives the same directories, counters, reports and log as reconnecting for every operation. |
| AdAlike.ProcessAlike | src/modes/ad.rs:113-161 | On directories that differ in some passwords, an operation has the same result and leaves them differing in at most those, unless one of its requests is answered by such a password. |
| AdRedelivery.ProcessTwice | src/modes/ad.rs:113-161 | Executing an operation again on the state it left changes no directory. |
| AdRedelivery.ReachUnderway | src/connectors/ldap.rs:202-239 | Wherever a pass is dropped, the current operation has changed no directory before its write, and between add and password its entry exists without one. |
| AdRedelivery.InterruptedCreate | src/connectors/ldap.rs:228-238 | Re-running a CREATE dropped between its add and its password leaves what completing it leaves, but for that password. |
| AdCrashes.CrashAndRedeliver | src/runner.rs:63-69 | Dropping a pass at any await and running a new one from the first unlogged operation ends in the directories of the undisturbed pass, except that a CREATE dropped between its two requests is left without its password; only then may no later answer depend on that password (AdMasked.CrashMasked covers the servers where one does). |
| AdCrashes.CrashesAndRedeliveries | src/runner.rs:63-69 | The same for any number of crashes, each followed by redelivery from the first unlogged operation: only the accounts of the CREATEs so dropped differ, and they have no password. |
| AdStub.UntouchedStubIgnored | src/connectors/ldap.rs:228-238 | Where a password concerns only its own entry, a crash makes no further difference when nothing later in the batch writes to the account left without one. |
| AdMasked.CrashMasked | src/runner.rs:63-69 | One crash on a server that may look at passwords to enable accounts, with any later operations: the directories end as undisturbed but for the password and userAccountControl of the interrupted account. |
| AdMasked.CrashesMasked | src/runner.rs:63-69 | The same for any number of crashes and all the accounts they interrupt. |
| AdStub.StubsStayDisabled | src/connectors/ldap.rs:288-301 | On a server that enables no account without a password, every account so interrupted stays disabled and without one, whatever is redelivered or asked later, over any number of crashes. |
| AdStub.EnableLost | src/connectors/ldap.rs:288-301 | There, without further hypotheses, the crashes can be invisible up to passwords only if the undisturbed pass leaves those accounts disabled. |
| AdStub.CrashesVisible | src/connectors/ldap.rs:288-301 | Where a password decides whether an account may be enabled and nothing else, any number of crashes is invisible up to the passwords of the interrupted accounts if and only if the undisturbed pass leaves all of them disabled. |
| AdPicky.BatchMeets | src/connectors/ldap.rs:202-239 | A concrete server and batch that meet every hypothesis of that condition, for any series of drops. |
| AdPicky.CrashShows | src/runner.rs:63-69 | An instance: a CREATE dropped before its password and followed by an ENABLE ends disabled, where the undisturbed pass ends enabled. |
| AdTrail.LogAfterRedelivery | src/modes/ad.rs:51-74 | After redelivery the log is that of the undisturbed pass if and only if the interrupted operation gives the same result again, and the reports are if, besides, it had not been reported. |
| AdTrail.NotYetWritten | src/modes/ad.rs:113-161 | An operation dropped before its write gives the result it would have given. |
| AdTrail.CreatedAlready | src/connectors/ldap.rs:228-233 | A CREATE that succeeded and was dropped before its record is refused the second time. |
| AdTrail.AppendFailsAndRedeliver | src/modes/ad.rs:59-62 | A pass that ended because an append failed with nothing written, and is resumed at the operation it could not log, ends in the directories of a pass whose appends succeed. |
| AdOutcome.FailureAtomic | src/modes/ad.rs:113-161 | A failed operation changes nothing, except a CREATE whose error is that of its password step, which leaves exactly one new disabled account without password; a successful one makes exactly the change its result names, on the connection it was routed to. |
| AdOutcome.BatchIsFold | src/modes/ad.rs:51-74 | After any number of completed operations the directories are the fold of those changes, one per operation, each fitting the directories it found and made on the connection the operation was routed to. |
| AdOutcome.RunKeepsPassword | src/connectors/ldap.rs:275-286 | A pass removes no entry and touches the password of no entry it finds. |
| AdChannels.PasswordsConfidential | src/connectors/ldap.rs:110-119 | A password is sent only where writeback is on: over the default connection without a forest context, and for every operation with one over a connection that this pass dialled under an ldaps:// URL or bound by Kerberos. |
| AdLifecycle.PassLively | src/connectors/ldap.rs:202-301 | Every step of every pass keeps each account the agent created in the state its accepted requests call for. |
| AdLifecycle.LifecycleHolds | src/connectors/ldap.rs:242-301 | Over any number of passes dropped anywhere, an account the agent created is at 512 exactly when the last ENABLE or DISABLE resolved to its DN was an ENABLE, and at 514 otherwise. |
| AdLifecycle.LifeReads | src/connectors/ldap.rs:242-301 | The state an account is called to by its history is 512 or 514 by the last switch after its creation, and none without a creation. |
| AdLifecycle.LifecycleFromUntouched | src/connectors/ldap.rs:16-301 | In the directory's own values and read off the accepted requests: from directories the agent has not touched, an account created by an accepted add holds userAccountControl 512 exactly when the last ENABLE or DISABLE of it was an ENABLE, and 514 otherwise, for each controller and DN. |
| Runner.ServeOnTrack | src/runner.rs:63-120 | The await-by-await service is, between passes, exactly where whole cycles leave it, and inside a pass in order. |
| RunnerLoop.ServiceLoop.RunPass | src/runner.rs:125-156 | Set-up, a pass and its summary: the world they leave, and the error of whichever of them failed. |
| RunnerLoop.ServiceLoop.RunCycle | src/runner.rs:98-120 | One cycle: a pass and its summary, or the error that ended either, in the log. |
| RunnerLoop.ServiceLoop.Run | src/runner.rs:45-75 | When RUN_START cannot be written nothing happens; otherwise the given cycles run to their end, then RUN_STOP. |
| RunnerLoop.ServiceLoop.Serve | src/runner.rs:45-75 | The endless loop, dropped by a shutdown at any await: directories, reports and log are those of the step machine at that await, then RUN_STOP. |
| RunnerLog.CountsAreRecount | src/audit.rs:39-53 | The counters of a pass are at every operation the recount of the entries it has logged, by operation type. |
| RunnerLog.LogExplainsRun | src/runner.rs:45-145 | With appends succeeding, a run shut down at any await has logged RUN_START (RUN_ERROR or AD_OP* SYNC_SUMMARY)* AD_OP* RUN_STOP; each cycle left the error of its set-up or one entry per operation of its batch, in order, and the five counters read back from the summary are the recount of those entries. |
| RunnerLog.FaultLogged | src/runner.rs:98-120 | With failing appends: a pass ended by one is closed by RUN_ERROR with its error and by no summary, and a summary that cannot be appended is followed by RUN_ERROR. |
| RunnerLog.FileHoldsRun | src/runner.rs:45-74 | The log file then holds its old records followed by one record for each of those events, with the clock's times. |
| RunnerLog.RunIsTamperEvident | src/runner.rs:45-74 | The file of a run shut down at any await is tamper evident: whatever `verify` accepts and ends in the same hash holds its records, or exhibits a collision. |
| Sql.ParseOfRender | src/connectors/db.rs:94-107 | Every SELECT and UPDATE over plain names is read back from its text, with any placeholders, multi-digit ones included. |
| Db.ObjectReads | src/connectors/db.rs:66-72 | A record shows each canonical field from the column the reverse map would write. |
| Db.GreatestColumn | src/connectors/db.rs:83-85 | The reverse map picks, for each field, the greatest of the columns mapped to it, and no other. |
| Db.WritableDistinct | src/connectors/db.rs:83-89 | No column occurs twice in the SET clause. |
| Db.PlaceholdersBound | src/connectors/db.rs:94-115 | There are as many placeholders as bound values, and the server accepts them if and only if the form of the configured driver is among those it accepts; DbDrivers.DriverDecides says which form that is. |
| Db.CompiledUpdateMeans | src/connectors/db.rs:78-120 | Parsing the rendered UPDATE and running it on the bind list is the direct update of the mapped columns on the matching rows; it fails exactly when a name is unknown or the placeholder form is not accepted. |
| DbLens.PullMeans | src/connectors/db.rs:52-75 | Parsing and running the SELECT gives one record per row; it fails exactly when the table or a mapped column is unknown. |
| DbLens.WritebackMeans | src/connectors/db.rs:78-120 | A writeback that succeeds is the direct update and reports the matched rows (0 when nothing is mapped); one that fails changes nothing. |
| DbLens.WritebackSucceeds | src/connectors/db.rs:90-120 | While the link holds, it succeeds if and only if nothing is mapped, or the server accepts the driver's placeholders and every name is known. |
| DbDrivers.DriverDecides | src/connectors/db.rs:122-128 | With a sound link, known names and something to write: a server with numbered placeholders takes the writebacks of a driver spelled postgres, in any letter case, and of no other; a server with positional ones takes those of every other driver; what is taken is the direct update. |
| DbDrivers.PostgresSucceeds | src/connectors/db.rs:122-128 | So driver postgres succeeds on a server that accepts only numbered placeholders. |
| DbDrivers.OthersSucceed | src/connectors/db.rs:122-128 | And drivers mysql and sqlite on a server that accepts only positional ones. |
| DbDrivers.PostgresText | src/connectors/db.rs:94-118 | The text and the binds of two changes: SET a = $1, b = $2 WHERE key = $3, with the values in that order and the key last. |
| DbDrivers.PositionalText | src/connectors/db.rs:94-118 | The same text with ? for every other driver. |
| DbDrivers.PullText | src/connectors/db.rs:53-59 | The text of a pull: the mapped columns in order, from the table. |
| DbDrivers.NumberedRuns | src/connectors/db.rs:109-118 | A text with $1 and $2 runs if and only if the server accepts numbered placeholders. |
| DbDrivers.PositionalRuns | src/connectors/db.rs:109-118 | A text with ? runs if and only if it accepts positional ones. |
| DbDrivers.UpdateAssigns | src/connectors/db.rs:104-118 | Either sets the column to the first value in exactly the rows whose key column holds the second. |
| DbDrivers.MatchesCounted | src/connectors/db.rs:119 | The affected rows are counted: as many as hold the key. |
| DbLens.WrongDriver | src/connectors/db.rs:122-128 | A server that accepts only numbered placeholders refuses every writeback of a driver named postgresql, and nothing changes. |
| DbLens.PutThenGet | src/connectors/db.rs:66-72 | After a successful writeback a pull shows the new value of every mapped changed field on the rows matched beforehand and all other values as before, also with several columns per field and when the key column is written. |
| DbLens.WritebackFrame | src/connectors/db.rs:83-89 | No other table, no unmatched row, and no column but the one each changed field is read from is touched. |
| DbLens.GetThenPut | src/connectors/db.rs:78-120 | A writeback changes no cell if and only if it writes what the matching records already show. |
| DbLens.PutThenPut | src/connectors/db.rs:78-120 | Two accepted writebacks of one key leave what one writeback does in which the later value wins, if and only if the first leaves the rows under their key or they already hold what the second writes. |
| DbConnector.DbConnector.PullRecords | src/connectors/db.rs:52-75 | The loops over rows and fields compute the pull. |
| DbConnector.DbConnector.SetClause | src/connectors/db.rs:94-103 | The equations of the SET clause numbered from 1, and the next number for the key. |
| DbConnector.DbConnector.ApplyWriteback | src/connectors/db.rs:78-120 | Reverse map, filter, text, binds and execution compute the writeback, whose meaning is the direct update. |
| DbMode.PushesInOrder | src/modes/db.rs:38-47 | Every record is pushed in order, taken or not; exactly the refusals are logged and counted. |
| DbMode.WritesInOrder | src/modes/db.rs:58-72 | The changes are applied in order, each on the database its predecessors left; exactly the failures are logged and counted. |
| DbMode.CompletedPass | src/modes/db.rs:35-82 | A completed pass pushed every record and tried every change; its log is one failure entry for each refusal, in order, around DB_PULL and DB_WRITEBACK; inspected is everything offered, failed everything refused, updated every accepted record and every accepted change that changed at least one row. |
| DbMode.RefusalReads | src/modes/db.rs:43-46 | The entry of a refused push, read field by field: DB_PUSH_FAIL with the broker's reason. |
| DbMode.RejectionReads | src/modes/db.rs:64-70 | The entry of a refused change: DB_WRITEBACK_FAIL with its own key and the database's reason. |
| DbMode.EventsRead | src/modes/db.rs:49-78 | All four events of a pass, read field by field. |
| DbMode.BatchIsFold | src/modes/db.rs:58-72 | A batch of changes leaves the database as the accepted ones alone update it, one after the other. |
| DbAgent.DbAgent.RunOnce | src/modes/db.rs:22-82 | The two loops compute the pass: database, pushes, log, and counters or the error that ended it. |
| DbRunner.StepOnTrack | src/modes/db.rs:22-82 | The pass await by await keeps: the records pushed and changes applied so far, and that the rest of the loops leads from there to their end. |
| DbRunner.ServeInCycle | src/runner.rs:63-120 | The service in DB mode is, between passes, where whole cycles leave it, and inside a pass on its way. |
| DbRunner.LogExplainsRun | src/runner.rs:110-156 | With appends succeeding, a run in DB mode shut down at any await has logged RUN_START, for each cycle DB_PUSH_FAIL* DB_PULL DB_WRITEBACK_FAIL* with DB_WRITEBACK and SYNC_SUMMARY or the beginning of that with RUN_ERROR, the beginning of a pass, and RUN_STOP; read field by field, a summary inspected the rows and changes that DB_PULL and DB_WRITEBACK name, failed as often as there are failure entries, and updated at least every row that did not fail. |
| Base64.DecodeOfEncode | src/crypto.rs:83 | Decoding undoes encoding, for every byte string. |
| Base64.Canonical | src/crypto.rs:31-32 | Only the encoder's own output decodes: no stray bits, no missing or extra padding. |
| Base64.Samples | src/crypto.rs:83 | The test vectors of RFC 4648, and the last two digits of the alphabet. |
| Secrets.SerializedRoundTrip | src/crypto.rs:47-84 | Decrypting a serialized secret with the same key gives the plaintext, for every plaintext, IV and key id, separators in it included. |
| Secrets.SerializedForm | src/crypto.rs:72-84 | A serialized secret is AES-256-GCM, the key id and the encoding of 12 IV bytes before the ciphertext, between bars. |
| Secrets.DecryptsExactly | src/crypto.rs:57-69 | A text decrypts to a plaintext if and only if it decodes to more than 12 bytes of which the cipher opens the rest under the first 12 to that plaintext in UTF-8. |
| Secrets.KeyAcceptedExactly | src/crypto.rs:29-45 | A key is accepted if and only if it decodes to exactly 32 bytes, and is then those bytes. |
| Secrets.GeneratedKeyAccepted | src/crypto.rs:29-45 | Every generated key is accepted, as the key it was made from. |
| Secrets.FillBytes | src/crypto.rs:72-74 | The buffer is filled, in place, with the generator's next bytes. |
| Secrets.GenerateBase64Key | src/crypto.rs:87-91 | The generated key is the encoding of 32 random bytes. |
| Secrets.Encrypt | src/crypto.rs:72-84 | A random 12-byte IV and the ciphertext are joined and serialized. |
| Secrets.HardenedIsReference | src/main.rs:407-428 | What is written is empty or a reference, and empty exactly when the value is blank: never a raw secret. |
| Secrets.HardenTwice | src/main.rs:407-428 | Hardening an output again only trims it; it is idempotent if and only if it does not fall back (raw value, no vault or failing encryption) on a variable whose name ends in white space. |
| Secrets.HardenNotIdempotent | src/main.rs:407-428 | An instance where it is not: without a vault, with a variable name that ends in a blank. |
| Secrets.ResolveUndoesHarden | src/config.rs:163-176 | A raw secret hardened with the vault resolves to its trimmed self under a vault with the same key. |
| Secrets.ResolveReads | src/config.rs:137-176 | An env: reference resolves if and only if its variable is set, to its value; an enc: one by the vault whose key is in NEXUS_AGENT_KEY, and not at all without one; anything else is its own value. |
| Secrets.ResolveFallback | src/config.rs:163-176 | Without a usable vault it resolves to itself if and only if the operator set the named variable to it. |

## Left out

- JSON numbers are 64-bit integers; floats, which the log's details never hold, and the parser's nesting limit are not modelled. The order of object members is given.
- Counters and sequence numbers wrap at 2^64 as in a release build; a debug build stops instead.
- Several processes writing one log at the same time.
- A reply lost after its request took effect, other than by cancellation: the LDAP and SQL failures of the model have no effect on the server.
- One error text per request: a transport error and a rejection are merged, and the server's reason is a parameter.
- Attribute names, DNs, table and column names are compared exactly; directories and databases may ignore case.
- How a search filter is interpreted, whatever the email holds, is part of the server parameter.
- Changes that others make to a directory or a database during a pass.
- The user list that SYNC_USERS returns, and which entries TEST_CONNECTION reads: both only count entries here.
- Connecting and binding the default directory, polling the batch, and connecting to the database are the set-up of a pass, with an arbitrary outcome. Unbinding at its end is not modelled.
- Heartbeat, config refresh, run report, disconnect and the poll interval are awaits without effect in the service machine.
- RunnerLoop.ServiceLoop.Run: runs a given number of cycles to their end; the endless loop that a shutdown drops is RunnerLoop.ServiceLoop.Serve.
- The loop of the service as an object is modelled for AD mode; for DB mode it is the step machine DbRunner.Tick.
- Reading columns of other types than text, schema and reserved words beyond the five keywords, and an empty field map (whose SELECT some servers accept).
- Config loading, validation and remote overrides, the command line, the setup wizard, the Windows service, packaging, and server transport.
