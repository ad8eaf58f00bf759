/** The events a process appends to its audit log, and the log state they lead to. */
module Journal {
  import opened Text
  import opened Json
  import opened AuditRecords
  import opened AuditChain
  import opened AuditFile
  import opened AuditLogs

  /** One attempt to append an event. */
  datatype Logged = Logged(event: string, detail: Json)

  /** The time stamp and the fault of each attempt, by its number. */
  datatype Clockwork = Clockwork(now: nat -> string, fault: nat -> Fault)

  const APPEND_FAILED := "io error"

  /** The object a `json!` literal denotes. */
  function Fields(keys: seq<string>, values: seq<Json>): Json
    requires |keys| == |values|
  {
    Obj(Zip(keys, values))
  }

  lemma FieldsRead(keys: seq<string>, values: seq<Json>, i: nat)
    requires |keys| == |values| && i < |keys|
    requires forall j, k :: 0 <= j < k < |keys| ==> keys[j] != keys[k]
    ensures FieldIn(Fields(keys, values), keys[i]) == Some(values[i])
  {
    FieldAt(keys, values, i);
  }

  /** The log state after the attempts, in order. */
  function Replay(h: Hashing, f: Format, st: LogState, log: seq<Logged>, c: Clockwork): LogState {
    if log == [] then st
    else
      var n := |log| - 1;
      AppendEffect(h, f, Replay(h, f, st, log[..n], c), log[n].event, log[n].detail, c.now(n), c.fault(n)).0
  }

  ghost predicate NoFaults(c: Clockwork, n: nat) { forall i :: 0 <= i < n ==> c.fault(i).NoFault? }

  ghost predicate NeverFails(c: Clockwork) { forall i :: c.fault(i).NoFault? }

  /** The records that carry these events, each with the time at which it was appended. */
  predicate Carries(rs: seq<AuditRecord>, log: seq<Logged>, now: nat -> string) {
    && |rs| == |log|
    && forall i :: 0 <= i < |log| ==>
         rs[i].ts == now(i) && rs[i].event == log[i].event && rs[i].detail == log[i].detail
  }

  /**
   While appends succeed, memory and disk agree at every moment, the file holds its old records followed
   by exactly the events of the journal, and its chain is valid if and only if it was before.
   */
  lemma {:induction false} ReplaySynced(h: Hashing, f: Format, st: LogState, log: seq<Logged>, c: Clockwork)
    requires Framed(f) && Synced(f, st) && NoFaults(c, |log|)
    ensures var st' := Replay(h, f, st, log, c);
            && Synced(f, st')
            && RecordsOf(f, st) <= RecordsOf(f, st')
            && Carries(RecordsOf(f, st')[|RecordsOf(f, st)|..], log, c.now)
            && VerifyFrom(h, RecordsOf(f, st'), 0).ok == VerifyFrom(h, RecordsOf(f, st), 0).ok
  {
    if log != [] {
      var n := |log| - 1;
      ReplaySynced(h, f, st, log[..n], c);
      ReplayStep(h, f, Replay(h, f, st, log[..n], c), RecordsOf(f, st), log[..n], log[n], c);
      assert log == log[..n] + [log[n]];
    }
  }

  /** One more successful append after a journal that was carried faithfully. */
  lemma ReplayStep(
      h: Hashing, f: Format, mid: LogState, past: seq<AuditRecord>, log: seq<Logged>, e: Logged, c: Clockwork)
    requires Framed(f) && Synced(f, mid)
    requires past <= RecordsOf(f, mid) && Carries(RecordsOf(f, mid)[|past|..], log, c.now)
    ensures var st' := AppendEffect(h, f, mid, e.event, e.detail, c.now(|log|), NoFault).0;
            && Synced(f, st')
            && past <= RecordsOf(f, st')
            && Carries(RecordsOf(f, st')[|past|..], log + [e], c.now)
            && VerifyFrom(h, RecordsOf(f, st'), 0).ok == VerifyFrom(h, RecordsOf(f, mid), 0).ok
  {
    var r := NextRecord(h, mid.head, c.now(|log|), e.event, e.detail);
    AppendKeepsSync(h, f, mid, e.event, e.detail, c.now(|log|));
    var before := RecordsOf(f, mid);
    assert (before + [r])[|past|..] == before[|past|..] + [r];
  }

  /** The audit log together with the attempts made on it. */
  class Recorder {
    const audit: AuditLog
    const clockwork: Clockwork
    ghost const origin: LogState
    var log: seq<Logged>

    ghost predicate Exact()
      reads this, audit, audit.file
    {
      audit.State() == Replay(audit.hashing, audit.format, origin, log, clockwork)
    }

    constructor (audit: AuditLog, clockwork: Clockwork)
      ensures this.audit == audit && this.clockwork == clockwork && log == [] && Exact()
    {
      this.audit, this.clockwork, log := audit, clockwork, [];
      origin := audit.State();
    }

    method Append(event: string, detail: Json) returns (ok: bool)
      requires Exact()
      modifies this, audit, audit.file
      ensures Exact() && log == old(log) + [Logged(event, detail)]
      ensures ok <==> clockwork.fault(|old(log)|).NoFault?
    {
      var n := |log|;
      log := log + [Logged(event, detail)];
      assert log[..n] == old(log);
      var result := audit.Append(event, detail, clockwork.now(n), clockwork.fault(n));
      ok := result.Ok?;
    }
  }
}
