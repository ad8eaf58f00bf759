/** The append-only log: an on-disk file and the chain head cached in memory. */
module AuditLogs {
  import opened Text
  import opened Json
  import opened AuditRecords
  import opened AuditChain
  import opened AuditFile
  import opened ByteLines

  /** The bytes on disk (`None` when there is no file) and the head in memory. */
  datatype LogState = LogState(content: Option<seq<byte>>, head: Head)

  function Bytes(content: Option<seq<byte>>): seq<byte> {
    if content.Some? then content.value else []
  }

  /** What may go wrong while a record is written: the open fails, or the write stops after `k` bytes. */
  datatype Fault = NoFault | OpenFails | WriteStops(k: nat)

  /** The bytes of a record's frame that reach the disk when a write stops early. */
  function Torn(frame: seq<byte>, k: nat): seq<byte> {
    if k < |frame| then frame[..k] else if frame == [] then [] else frame[..|frame| - 1]
  }

  function AppendEffect(h: Hashing, f: Format, st: LogState, event: string, detail: Json, now: string, fault: Fault)
    : (LogState, Result<AuditRecord>)
  {
    var r := NextRecord(h, st.head, now, event, detail);
    match fault
    case NoFault => (LogState(Some(Bytes(st.content) + Frame(f, r)), Head(r.seqNo, r.hash)), Ok(r))
    case OpenFails => (st, Err("io error"))
    case WriteStops(k) => (st.(content := Some(Bytes(st.content) + Torn(Frame(f, r), k))), Err("io error"))
  }

  /** Memory and disk agree on the head, and the next record will start its own line. */
  ghost predicate Synced(f: Format, st: LogState) {
    Terminated(Bytes(st.content)) && Open(f, Bytes(st.content)) == Ok(st.head)
  }

  function RecordsOf(f: Format, st: LogState): seq<AuditRecord> { Records(f, Lines(Bytes(st.content))) }

  lemma SyncedHead(f: Format, st: LogState)
    requires Synced(f, st)
    ensures Readable(f, Lines(Bytes(st.content))) && st.head == HeadOf(RecordsOf(f, st))
  {
    OpenMeaning(f, Bytes(st.content));
  }

  /** A completed append adds the next record, keeps memory and disk in step, and keeps the verdict. */
  lemma AppendKeepsSync(h: Hashing, f: Format, st: LogState, event: string, detail: Json, now: string)
    requires Framed(f) && Synced(f, st)
    ensures var st' := AppendEffect(h, f, st, event, detail, now, NoFault).0;
            && Synced(f, st')
            && RecordsOf(f, st') == RecordsOf(f, st) + [NextRecord(h, st.head, now, event, detail)]
            && VerifyFrom(h, RecordsOf(f, st'), 0).ok == VerifyFrom(h, RecordsOf(f, st), 0).ok
            && VerifyFrom(h, RecordsOf(f, st'), 0).brokenAt == VerifyFrom(h, RecordsOf(f, st), 0).brokenAt
  {
    var r := NextRecord(h, st.head, now, event, detail);
    SyncedHead(f, st);
    AppendFrame(f, Bytes(st.content), r);
    OpenMeaning(f, Bytes(st.content) + Frame(f, r));
    AppendNeverRepairs(h, RecordsOf(f, st), now, event, detail);
  }

  /**
   The record that a completed append adds, field by field: the event at the time given, numbered and chained
   behind the head, and hashed over all of that.
   */
  lemma AppendedRecord(h: Hashing, f: Format, st: LogState, event: string, detail: Json, now: string)
    requires Framed(f) && Synced(f, st)
    ensures var st' := AppendEffect(h, f, st, event, detail, now, NoFault).0;
            var rs, rs' := RecordsOf(f, st), RecordsOf(f, st');
            && |rs'| == |rs| + 1 && rs <= rs'
            && Bytes(st'.content) == Bytes(st.content) + (f.line(rs'[|rs|]) + [10])
            && var r := rs'[|rs|];
               && r.ts == now && r.event == event && r.detail == detail
               && r.seqNo == (if rs == [] then 1 else (rs[|rs| - 1].seqNo + 1) % 0x1_0000_0000_0000_0000)
               && (rs != [] ==> r.prevHash == rs[|rs| - 1].hash)
               && (rs == [] ==> |r.prevHash| == 64 && forall i :: 0 <= i < 64 ==> r.prevHash[i] == '0')
               && r.hash == h.digest(h.preimage(r.seqNo, r.ts, r.event, r.detail, r.prevHash))
  {
    AppendKeepsSync(h, f, st, event, detail, now);
    SyncedHead(f, st);
    NextRecordFields(h, RecordsOf(f, st), now, event, detail);
  }

  /**
   A failed append never moves the head in memory. Whatever part of the record reached the disk, the
   two still agree exactly when no byte of it did.
   */
  lemma FailedAppend(h: Hashing, f: Format, st: LogState, event: string, detail: Json, now: string, k: nat)
    requires Framed(f) && Synced(f, st)
    ensures var st' := AppendEffect(h, f, st, event, detail, now, WriteStops(k)).0;
            st'.head == st.head && (Synced(f, st') <==> k == 0)
  {
    var r := NextRecord(h, st.head, now, event, detail);
    var torn := Torn(Frame(f, r), k);
    var b := Bytes(st.content);
    SyncedHead(f, st);
    OpenMeaning(f, b + torn);
    LinesConcat(b, torn);
    RecordsConcat(f, Lines(b), Lines(torn));
    TornFrame(f, r, |torn|);
    assert torn == Frame(f, r)[..|torn|];
    if k == 0 {
      assert b + torn == b;
    } else if |torn| == |f.line(r)| {
      assert HeadOf(RecordsOf(f, st) + [r]) == Head(r.seqNo, r.hash);
      assert r.seqNo != st.head.seqNo;
    }
  }

  /** For instance: the first append of a new log, stopped after one byte. */
  lemma FirstByteOnly(h: Hashing, f: Format, event: string, detail: Json, now: string)
    requires Framed(f)
    ensures var st := AppendEffect(h, f, LogState(None, FRESH), event, detail, now, WriteStops(1)).0;
            st.head == FRESH && Open(f, Bytes(st.content)) != Ok(FRESH)
  {
    var st := LogState(None, FRESH);
    assert Synced(f, st);
    FailedAppend(h, f, st, event, detail, now, 1);
    var r := NextRecord(h, FRESH, now, event, detail);
    TornFrame(f, r, |Torn(Frame(f, r), 1)|);
    assert [] + Torn(Frame(f, r), 1) == Torn(Frame(f, r), 1) == Frame(f, r)[..|Torn(Frame(f, r), 1)|];
    OpenMeaning(f, Torn(Frame(f, r), 1));
  }

  /**
   And once part of a record has reached the disk, the next append only glues its own record to that part:
   the log can never be opened again, whatever is written later.
   */
  lemma TornForever(
      h: Hashing, f: Format, st: LogState, event: string, detail: Json, now: string, k: nat,
      event': string, detail': Json, now': string, more: seq<byte>)
    requires Framed(f) && Synced(f, st) && k > 0
    ensures var torn := AppendEffect(h, f, st, event, detail, now, WriteStops(k)).0;
            var after := AppendEffect(h, f, torn, event', detail', now', NoFault).0;
            Open(f, Bytes(after.content) + more).Err?
  {
    var r, r' := NextRecord(h, st.head, now, event, detail), NextRecord(h, st.head, now', event', detail');
    var part := Torn(Frame(f, r), k);
    var raw := part + f.line(r');
    TornPart(f, r, k, r');
    StripGlued(part, f.line(r'));
    CorruptForever(f, Bytes(st.content), raw, more);
    assert Bytes(st.content) + part + Frame(f, r') == Bytes(st.content) + (raw + [10]);
  }

  /** The part of a record that reaches the disk, with another record glued to it. */
  lemma TornPart(f: Format, r: AuditRecord, k: nat, r': AuditRecord)
    requires Framed(f) && k > 0
    ensures var raw := Torn(Frame(f, r), k) + f.line(r'); 10 !in raw && f.read(raw).Corrupt?
  {
    var part := Torn(Frame(f, r), k);
    var n := |part|;
    assert part == f.line(r)[..n];
    if n == |f.line(r)| {
      assert part == f.line(r);
    }
  }

  // --- restarts ---------------------------------------------------------------------------------

  datatype Action = Write(event: string, detail: Json, now: string) | Reopen

  function Act(h: Hashing, f: Format, st: LogState, a: Action): LogState {
    match a
    case Write(event, detail, now) => AppendEffect(h, f, st, event, detail, now, NoFault).0
    case Reopen => match Open(f, Bytes(st.content)) case Ok(head) => st.(head := head) case Err(_) => st
  }

  function Run(h: Hashing, f: Format, st: LogState, actions: seq<Action>): LogState
    decreases |actions|
  {
    if actions == [] then st else Run(h, f, Act(h, f, st, actions[0]), actions[1..])
  }

  function Writes(actions: seq<Action>): nat {
    if actions == [] then 0 else (if actions[0].Write? then 1 else 0) + Writes(actions[1..])
  }

  /**
   Any interleaving of appends and restarts keeps memory and disk in step, leaves every earlier record
   in place, adds one record per append, and never turns a broken log into a valid one or back.
   */
  lemma {:induction false} RunKeepsVerdict(h: Hashing, f: Format, st: LogState, actions: seq<Action>)
    requires Framed(f) && Synced(f, st)
    ensures var st' := Run(h, f, st, actions);
            && Synced(f, st')
            && RecordsOf(f, st) <= RecordsOf(f, st')
            && |RecordsOf(f, st')| == |RecordsOf(f, st)| + Writes(actions)
            && VerifyFrom(h, RecordsOf(f, st'), 0).ok == VerifyFrom(h, RecordsOf(f, st), 0).ok
            && VerifyFrom(h, RecordsOf(f, st'), 0).brokenAt == VerifyFrom(h, RecordsOf(f, st), 0).brokenAt
    decreases |actions|
  {
    if actions != [] {
      match actions[0]
      case Write(event, detail, now) =>
        AppendKeepsSync(h, f, st, event, detail, now);
        RunKeepsVerdict(h, f, Act(h, f, st, actions[0]), actions[1..]);
      case Reopen =>
        RunKeepsVerdict(h, f, st, actions[1..]);
    }
  }

  /** A log started from nothing verifies after any run, with as many records as appends. */
  lemma FreshLogVerifies(h: Hashing, f: Format, actions: seq<Action>)
    requires Framed(f)
    ensures var st := Run(h, f, LogState(None, FRESH), actions);
            && Verify(h, f, Bytes(st.content)) == Ok(VerifyReport(Wrap(Writes(actions)), true, None))
            && Open(f, Bytes(st.content)) == Ok(st.head)
  {
    var st0 := LogState(None, FRESH);
    var st := Run(h, f, st0, actions);
    assert RecordsOf(f, st0) == [] && Synced(f, st0);
    RunKeepsVerdict(h, f, st0, actions);
    SyncedHead(f, st);
    VerifyMeaning(h, f, Bytes(st.content));
    VerifyAcceptsExactlyValid(h, RecordsOf(f, st));
  }

  // --- the objects ------------------------------------------------------------------------------

  class LogFile {
    var content: Option<seq<byte>>

    constructor (content: Option<seq<byte>>)
      ensures this.content == content
    {
      this.content := content;
    }
  }

  class AuditLog {
    const file: LogFile
    const hashing: Hashing
    const format: Format
    var lastSeq: u64
    var lastHash: string

    function State(): LogState
      reads this, file
    {
      LogState(file.content, Head(lastSeq, lastHash))
    }

    constructor (file: LogFile, hashing: Hashing, format: Format, head: Head)
      ensures this.file == file && this.hashing == hashing && this.format == format
      ensures State() == LogState(file.content, head)
    {
      this.file, this.hashing, this.format := file, hashing, format;
      lastSeq, lastHash := head.seqNo, head.hash;
    }

    /** Opens the log, recovering the chain head from the last record. */
    static method Open(file: LogFile, hashing: Hashing, format: Format) returns (log: Result<AuditLog>)
      ensures match AuditFile.Open(format, Bytes(file.content))
              case Err(error) => log == Err(error)
              case Ok(head) =>
                && log.Ok? && fresh(log.value)
                && log.value.file == file && log.value.hashing == hashing && log.value.format == format
                && log.value.State() == LogState(file.content, head)
    {
      var head := FRESH;
      if file.content.Some? {
        var lines := Lines(file.content.value);
        for i := 0 to |lines|
          invariant OpenLines(format, lines[i..], head) == AuditFile.Open(format, Bytes(file.content))
        {
          assert lines[i..][1..] == lines[i + 1..];
          match format.read(lines[i])
          case Corrupt(error) => return Err(error);
          case Skipped =>
          case Entry(r) => head := Head(r.seqNo, r.hash);
        }
      }
      var recovered := new AuditLog(file, hashing, format, head);
      log := Ok(recovered);
    }

    /** Appends an event; on a fault the head stays where it was. */
    method Append(event: string, detail: Json, now: string, fault: Fault) returns (result: Result<AuditRecord>)
      modifies this, file
      ensures (State(), result) == AppendEffect(hashing, format, old(State()), event, detail, now, fault)
      ensures fault.NoFault? && Framed(format) && old(Synced(format, State())) ==> Synced(format, State())
      ensures result.Ok? <==> fault.NoFault?
      ensures result.Ok? ==>
        && result.value.ts == now && result.value.event == event && result.value.detail == detail
        && result.value.seqNo == (old(lastSeq) + 1) % 0x1_0000_0000_0000_0000
        && result.value.prevHash == old(lastHash)
        && lastSeq == result.value.seqNo && lastHash == result.value.hash
    {
      ghost var before := State();
      var seqNo := Wrap(lastSeq + 1);
      var hash := hashing.Hash(seqNo, now, event, detail, lastHash);
      var record := AuditRecord(seqNo, now, event, detail, lastHash, hash);
      var frame := Frame(format, record);
      match fault
      case OpenFails => result := Err("io error");
      case WriteStops(k) =>
        file.content := Some(Bytes(file.content) + Torn(frame, k));
        result := Err("io error");
      case NoFault =>
        file.content := Some(Bytes(file.content) + frame);
        lastSeq, lastHash := seqNo, hash;
        result := Ok(record);
        if Framed(format) && Synced(format, before) {
          AppendKeepsSync(hashing, format, before, event, detail, now);
        }
    }

    /** Walks the on-disk chain and confirms every link. */
    static method Verify(file: LogFile, hashing: Hashing, format: Format) returns (report: Result<VerifyReport>)
      ensures report == AuditFile.Verify(hashing, format, Bytes(file.content))
    {
      if file.content.None? {
        return Ok(VerifyReport(0, true, None));
      }
      var lines := Lines(file.content.value);
      var prev, expected, count := GENESIS, 1, 0;
      for i := 0 to |lines|
        invariant 0 <= expected < U64 && 0 <= count < U64
        invariant VerifyLines(hashing, format, lines[i..], prev, expected, count)
               == AuditFile.Verify(hashing, format, Bytes(file.content))
      {
        assert lines[i..][1..] == lines[i + 1..];
        match format.read(lines[i])
        case Corrupt(error) => return Err(error);
        case Skipped =>
        case Entry(r) =>
          if !Links(hashing, r, prev, expected) {
            return Ok(VerifyReport(count, false, Some(r.seqNo)));
          }
          prev, expected, count := r.hash, Wrap(expected + 1), Wrap(count + 1);
      }
      report := Ok(VerifyReport(count, true, None));
    }
  }

  // --- counters ---------------------------------------------------------------------------------

  datatype Counts = Counts(inspected: nat, created: nat, updated: nat, disabled: nat, failed: nat)

  const ZERO := Counts(0, 0, 0, 0, 0)

  function CountOk(c: Counts, op: string): Counts {
    var c := c.(inspected := c.inspected + 1);
    if op == "CREATE_ACCOUNT" then c.(created := c.created + 1)
    else if op == "UPDATE_ATTRIBUTES" || op == "ENABLE_ACCOUNT" then c.(updated := c.updated + 1)
    else if op == "DISABLE_ACCOUNT" then c.(disabled := c.disabled + 1)
    else c
  }

  function CountFailure(c: Counts): Counts {
    c.(inspected := c.inspected + 1, failed := c.failed + 1)
  }

  class SyncCounters {
    var inspected: nat
    var created: nat
    var updated: nat
    var disabled: nat
    var failed: nat

    function Value(): Counts
      reads this
    {
      Counts(inspected, created, updated, disabled, failed)
    }

    constructor ()
      ensures Value() == ZERO
    {
      inspected, created, updated, disabled, failed := 0, 0, 0, 0, 0;
    }

    method RecordOk(op: string)
      modifies this
      ensures Value() == CountOk(old(Value()), op)
    {
      inspected := inspected + 1;
      match op {
        case "CREATE_ACCOUNT" => created := created + 1;
        case "UPDATE_ATTRIBUTES" => updated := updated + 1;
        case "ENABLE_ACCOUNT" => updated := updated + 1;
        case "DISABLE_ACCOUNT" => disabled := disabled + 1;
        case _ =>
      }
    }

    method RecordFailure()
      modifies this
      ensures Value() == CountFailure(old(Value()))
    {
      inspected := inspected + 1;
      failed := failed + 1;
    }
  }
}
