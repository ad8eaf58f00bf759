/** Tamper evidence for the files themselves. */
module AuditEvidence {
  import opened Text
  import opened AuditRecords
  import opened AuditChain
  import opened AuditHash
  import opened AuditFile
  import opened AuditLogs
  import opened Journal
  import opened ByteLines

  /** `verify` accepts the file. */
  predicate Accepted(h: Hashing, f: Format, b: seq<byte>) {
    Verify(h, f, b).Ok? && Verify(h, f, b).value.ok
  }

  function RecordsIn(f: Format, b: seq<byte>): seq<AuditRecord> { Records(f, Lines(b)) }

  /** An accepted file is readable, its records form a valid chain, and `open` finds their head. */
  lemma AcceptedChain(h: Hashing, f: Format, b: seq<byte>)
    ensures Accepted(h, f, b) <==> Readable(f, Lines(b)) && Valid(h, RecordsIn(f, b))
    ensures Accepted(h, f, b) ==> VerifyFrom(h, RecordsIn(f, b), 0).ok && Open(f, b) == Ok(HeadOf(RecordsIn(f, b)))
  {
    VerifyMeaning(h, f, b);
    OpenMeaning(f, b);
    VerifyAcceptsExactlyValid(h, RecordsIn(f, b));
  }

  /**
   Two non-empty files that `verify` accepts and from which `open` recovers the same hash hold the same
   records, or comparing them exhibits two different inputs of SHA-256 with one output, each hashed in one
   of the files. (As for chains, an all-zero hash needs lengths that differ by a multiple of 2^64.)
   */
  lemma TamperEvidentFiles(sha: Sha, f: Format, a: seq<byte>, b: seq<byte>)
    requires Accepted(Standard(sha), f, a) && Accepted(Standard(sha), f, b)
    requires RecordsIn(f, a) != [] && RecordsIn(f, b) != []
    requires OneLineFields(RecordsIn(f, a))
    requires Open(f, a).Ok? && Open(f, b).Ok? && Open(f, a).value.hash == Open(f, b).value.hash
    ensures Explained(sha, RecordsIn(f, a), RecordsIn(f, b))
  {
    AcceptedChain(Standard(sha), f, a);
    AcceptedChain(Standard(sha), f, b);
    TamperEvident(sha, RecordsIn(f, a), RecordsIn(f, b));
  }

  // --- the log the agent writes -----------------------------------------------------------------

  predicate OneLineActions(actions: seq<Action>) {
    forall i :: 0 <= i < |actions| && actions[i].Write? ==> OneLine(actions[i].event) && OneLine(actions[i].now)
  }

  lemma OneLineSnoc(rs: seq<AuditRecord>, r: AuditRecord)
    requires OneLineFields(rs) && OneLine(r.ts) && OneLine(r.event)
    ensures OneLineFields(rs + [r])
  {
  }

  /** With a clock and event names on one line, so is every record the agent appends. */
  lemma {:induction false} RunOneLine(h: Hashing, f: Format, st: LogState, actions: seq<Action>)
    requires Framed(f) && Synced(f, st) && OneLineFields(RecordsOf(f, st)) && OneLineActions(actions)
    ensures OneLineFields(RecordsOf(f, Run(h, f, st, actions)))
    decreases |actions|
  {
    if actions != [] {
      var st' := Act(h, f, st, actions[0]);
      match actions[0] {
        case Write(event, detail, now) =>
          AppendKeepsSync(h, f, st, event, detail, now);
          OneLineSnoc(RecordsOf(f, st), NextRecord(h, st.head, now, event, detail));
        case Reopen =>
      }
      RunOneLine(h, f, st', actions[1..]);
    }
  }

  /**
   So the agent's own log, after any appends and restarts, needs no further hypothesis: a file that
   `verify` accepts and that ends in the hash the agent holds has the same records, or exhibits a collision.
   */
  lemma AgentLogEvident(sha: Sha, f: Format, actions: seq<Action>, b: seq<byte>)
    requires Framed(f) && OneLineActions(actions) && Writes(actions) > 0
    requires Accepted(Standard(sha), f, b) && RecordsIn(f, b) != []
    requires Open(f, b) == Ok(Run(Standard(sha), f, LogState(None, FRESH), actions).head)
    ensures Explained(sha, RecordsOf(f, Run(Standard(sha), f, LogState(None, FRESH), actions)), RecordsIn(f, b))
  {
    var h, st0 := Standard(sha), LogState(None, FRESH);
    var st := Run(h, f, st0, actions);
    assert RecordsOf(f, st0) == [] && Synced(f, st0);
    FreshLogVerifies(h, f, actions);
    RunKeepsVerdict(h, f, st0, actions);
    RunOneLine(h, f, st0, actions);
    TamperEvidentFiles(sha, f, Bytes(st.content), b);
  }

  predicate OneLineEvents(log: seq<Logged>) { forall i :: 0 <= i < |log| ==> OneLine(log[i].event) }

  ghost predicate OneLineClock(c: Clockwork) { forall n :: OneLine(c.now(n)) }

  lemma {:induction false} ReplayOneLine(h: Hashing, f: Format, st: LogState, log: seq<Logged>, c: Clockwork)
    requires Framed(f) && Synced(f, st) && NoFaults(c, |log|)
    requires OneLineFields(RecordsOf(f, st)) && OneLineEvents(log) && OneLineClock(c)
    ensures OneLineFields(RecordsOf(f, Replay(h, f, st, log, c)))
  {
    if log != [] {
      var n := |log| - 1;
      var mid := Replay(h, f, st, log[..n], c);
      ReplayOneLine(h, f, st, log[..n], c);
      ReplaySynced(h, f, st, log[..n], c);
      AppendKeepsSync(h, f, mid, log[n].event, log[n].detail, c.now(n));
      OneLineSnoc(RecordsOf(f, mid), NextRecord(h, mid.head, c.now(n), log[n].event, log[n].detail));
    }
  }
}
