/** The hash chain as a property of a sequence of records, whatever the hash. */
module AuditChain {
  import opened Text
  import opened Json
  import opened AuditRecords

  const SIXTEEN_ZEROS := "0000000000000000"

  /** The hash before the first record: 64 zeros. */
  const GENESIS := SIXTEEN_ZEROS + SIXTEEN_ZEROS + SIXTEEN_ZEROS + SIXTEEN_ZEROS

  const U64 := 0x1_0000_0000_0000_0000

  /** The counter after `n`, in the wrapping arithmetic of a release build. */
  function Wrap(n: nat): u64 { n % U64 }

  /** How a record is hashed: the bytes its parts amount to, and the digest of bytes. */
  datatype Hashing = Hashing(
    preimage: (u64, string, string, Json, string) -> seq<byte>,
    digest: seq<byte> -> string)
  {
    function Hash(seqNo: u64, ts: string, event: string, detail: Json, prev: string): string {
      digest(preimage(seqNo, ts, event, detail, prev))
    }
  }

  // --- valid chains -----------------------------------------------------------------------------

  /** The chain head: what a log keeps in memory. */
  datatype Head = Head(seqNo: u64, hash: string)

  const FRESH := Head(0, GENESIS)

  function HeadOf(rs: seq<AuditRecord>): Head {
    if rs == [] then FRESH else Head(rs[|rs| - 1].seqNo, rs[|rs| - 1].hash)
  }

  /** The hash that record `i` must name as its predecessor. */
  function HashBefore(rs: seq<AuditRecord>, i: nat): string
    requires i <= |rs|
  {
    if i == 0 then GENESIS else rs[i - 1].hash
  }

  predicate Links(h: Hashing, r: AuditRecord, prev: string, expected: u64) {
    && r.seqNo == expected
    && r.prevHash == prev
    && r.hash == h.Hash(r.seqNo, r.ts, r.event, r.detail, prev)
  }

  predicate LinkedAt(h: Hashing, rs: seq<AuditRecord>, i: nat)
    requires i < |rs|
  {
    Links(h, rs[i], HashBefore(rs, i), Wrap(i + 1))
  }

  ghost predicate Valid(h: Hashing, rs: seq<AuditRecord>) {
    forall i :: 0 <= i < |rs| ==> LinkedAt(h, rs, i)
  }

  datatype VerifyReport = VerifyReport(records: u64, ok: bool, brokenAt: Option<u64>)

  /** The verdict of `verify` once the first `n` records have passed. */
  function VerifyFrom(h: Hashing, rs: seq<AuditRecord>, n: nat): VerifyReport
    requires n <= |rs|
    decreases |rs| - n
  {
    if n == |rs| then VerifyReport(Wrap(n), true, None)
    else if LinkedAt(h, rs, n) then VerifyFrom(h, rs, n + 1)
    else VerifyReport(Wrap(n), false, Some(rs[n].seqNo))
  }

  /**
   `verify` finds the longest valid prefix: it accepts exactly the valid chains, and otherwise reports
   how long that prefix is and the sequence number carried by the first record outside it.
   */
  lemma {:induction false} VerifyFindsLongestPrefix(h: Hashing, rs: seq<AuditRecord>, n: nat) returns (m: nat)
    requires n <= |rs| && Valid(h, rs[..n])
    ensures n <= m <= |rs| && Valid(h, rs[..m])
    ensures m < |rs| ==> !Valid(h, rs[..m + 1]) && !LinkedAt(h, rs, m)
    ensures VerifyFrom(h, rs, n)
         == VerifyReport(Wrap(m), m == |rs|, if m == |rs| then None else Some(rs[m].seqNo))
    decreases |rs| - n
  {
    m := n;
    if n < |rs| {
      PrefixLinks(h, rs, n + 1);
      PrefixLinks(h, rs, n);
      if LinkedAt(h, rs, n) {
        m := VerifyFindsLongestPrefix(h, rs, n + 1);
      } else {
        assert !LinkedAt(h, rs[..n + 1], n);
      }
    }
  }

  lemma PrefixLinks(h: Hashing, rs: seq<AuditRecord>, n: nat)
    requires n <= |rs|
    ensures forall i :: 0 <= i < n ==> LinkedAt(h, rs[..n], i) == LinkedAt(h, rs, i)
  {
  }

  lemma VerifyAcceptsExactlyValid(h: Hashing, rs: seq<AuditRecord>)
    ensures VerifyFrom(h, rs, 0).ok <==> Valid(h, rs)
    ensures Valid(h, rs) ==> VerifyFrom(h, rs, 0) == VerifyReport(Wrap(|rs|), true, None)
  {
    var m := VerifyFindsLongestPrefix(h, rs, 0);
    assert rs[..|rs|] == rs;
    if m < |rs| {
      PrefixLinks(h, rs, m + 1);
    }
  }

  /** Any prefix of a valid chain is valid. */
  lemma ValidPrefix(h: Hashing, rs: seq<AuditRecord>, n: nat)
    requires n <= |rs| && Valid(h, rs)
    ensures Valid(h, rs[..n])
  {
    PrefixLinks(h, rs, n);
  }

  // --- appending --------------------------------------------------------------------------------

  /** The record that extends a chain with this head. */
  function NextRecord(h: Hashing, head: Head, ts: string, event: string, detail: Json): AuditRecord {
    var seqNo := Wrap(head.seqNo + 1);
    AuditRecord(seqNo, ts, event, detail, head.hash, h.Hash(seqNo, ts, event, detail, head.hash))
  }

  lemma ValidHead(h: Hashing, rs: seq<AuditRecord>)
    requires Valid(h, rs)
    ensures HeadOf(rs) == Head(Wrap(|rs|), HashBefore(rs, |rs|))
  {
    if rs != [] {
      assert LinkedAt(h, rs, |rs| - 1);
    }
  }

  /** The record made from the head of a valid chain extends it. */
  lemma NextRecordLinks(h: Hashing, rs: seq<AuditRecord>, ts: string, event: string, detail: Json)
    requires Valid(h, rs)
    ensures Valid(h, rs + [NextRecord(h, HeadOf(rs), ts, event, detail)])
  {
    var r := NextRecord(h, HeadOf(rs), ts, event, detail);
    ValidHead(h, rs);
    assert Wrap(Wrap(|rs|) + 1) == Wrap(|rs| + 1);
    ValidSnoc(h, rs, r);
  }

  lemma ValidSnoc(h: Hashing, rs: seq<AuditRecord>, r: AuditRecord)
    requires Valid(h, rs) && Links(h, r, HashBefore(rs, |rs|), Wrap(|rs| + 1))
    ensures Valid(h, rs + [r])
  {
    PrefixLinks(h, rs + [r], |rs|);
    assert (rs + [r])[..|rs|] == rs;
  }

  /** No record, whatever it holds, mends a chain that is already broken. */
  lemma BrokenStaysBroken(h: Hashing, rs: seq<AuditRecord>, more: seq<AuditRecord>)
    requires !VerifyFrom(h, rs, 0).ok
    ensures VerifyFrom(h, rs + more, 0) == VerifyFrom(h, rs, 0)
  {
    var m := VerifyFindsLongestPrefix(h, rs, 0);
    assert rs[..m] == (rs + more)[..m];
    VerifySkips(h, rs + more, m);
    VerifySkips(h, rs, m);
    assert LinkedAt(h, rs, m) == LinkedAt(h, rs + more, m);
  }

  /** Appending keeps the verdict: a valid chain stays valid, a broken one stays broken where it was. */
  lemma AppendNeverRepairs(h: Hashing, rs: seq<AuditRecord>, ts: string, event: string, detail: Json)
    ensures var before := VerifyFrom(h, rs, 0);
            var after := VerifyFrom(h, rs + [NextRecord(h, HeadOf(rs), ts, event, detail)], 0);
            && after.ok == before.ok && after.brokenAt == before.brokenAt
            && (after.records == if before.ok then Wrap(|rs| + 1) else before.records)
  {
    var r := NextRecord(h, HeadOf(rs), ts, event, detail);
    VerifyAcceptsExactlyValid(h, rs);
    if Valid(h, rs) {
      NextRecordLinks(h, rs, ts, event, detail);
      VerifyAcceptsExactlyValid(h, rs + [r]);
    } else {
      BrokenStaysBroken(h, rs, [r]);
    }
  }

  lemma {:induction false} VerifySkips(h: Hashing, rs: seq<AuditRecord>, m: nat)
    requires m <= |rs| && Valid(h, rs[..m])
    ensures VerifyFrom(h, rs, 0) == VerifyFrom(h, rs, m)
  {
    if m > 0 {
      PrefixLinks(h, rs, m);
      PrefixLinks(h, rs, m - 1);
      VerifySkips(h, rs, m - 1);
      assert LinkedAt(h, rs[..m], m - 1);
    }
  }

  /** What a valid chain says of its record `i`. */
  lemma SealedAt(h: Hashing, rs: seq<AuditRecord>, i: nat)
    requires Valid(h, rs) && i < |rs|
    ensures rs[i].seqNo == Wrap(i + 1)
    ensures rs[i].prevHash == HashBefore(rs, i)
    ensures rs[i].hash == h.digest(HashedAt(h, rs, i))
  {
    assert LinkedAt(h, rs, i);
  }

  /** The bytes hashed for record `i`. */
  function HashedAt(h: Hashing, rs: seq<AuditRecord>, i: nat): seq<byte>
    requires i < |rs|
  {
    h.preimage(rs[i].seqNo, rs[i].ts, rs[i].event, rs[i].detail, HashBefore(rs, i))
  }

  lemma NextRecordFields(h: Hashing, rs: seq<AuditRecord>, ts: string, event: string, detail: Json)
    ensures var r := NextRecord(h, HeadOf(rs), ts, event, detail);
            && r.ts == ts && r.event == event && r.detail == detail
            && r.seqNo == (if rs == [] then 1 else (rs[|rs| - 1].seqNo + 1) % 0x1_0000_0000_0000_0000)
            && (rs != [] ==> r.prevHash == rs[|rs| - 1].hash)
            && (rs == [] ==> |r.prevHash| == 64 && forall i :: 0 <= i < 64 ==> r.prevHash[i] == '0')
            && r.hash == h.digest(h.preimage(r.seqNo, r.ts, r.event, r.detail, r.prevHash))
  {
    Zeros(SIXTEEN_ZEROS);
  }

  /** Where a chain begins: the first record carries number 1 and names 64 zeros as its predecessor's hash. */
  lemma ChainBegins(h: Hashing, rs: seq<AuditRecord>)
    requires VerifyFrom(h, rs, 0).ok && rs != []
    ensures rs[0].seqNo == 1
    ensures |rs[0].prevHash| == 64 && forall i :: 0 <= i < 64 ==> rs[0].prevHash[i] == '0'
  {
    VerifyAcceptsExactlyValid(h, rs);
    SealedAt(h, rs, 0);
    Zeros(SIXTEEN_ZEROS);
  }

  lemma Zeros(z: string)
    requires z == "0000000000000000"
    ensures |z| == 16 && forall i :: 0 <= i < 16 ==> z[i] == '0'
  {
  }
  // --- rearrangement ----------------------------------------------------------------------------

  /**
   A sequence drawn from the records of a valid log, with any deletions, repetitions and reorderings,
   verifies exactly when it is a prefix of that log. No assumption about the hash is needed; the
   sequence counter must not have wrapped.
   */
  lemma RearrangementDetected(h: Hashing, log: seq<AuditRecord>, drawn: seq<AuditRecord>)
    requires Valid(h, log) && |log| < U64
    requires forall r :: r in drawn ==> r in log
    ensures VerifyFrom(h, drawn, 0).ok <==> drawn <= log
  {
    VerifyAcceptsExactlyValid(h, drawn);
    if drawn <= log {
      ValidPrefix(h, log, |drawn|);
      assert drawn == log[..|drawn|];
    }
    if Valid(h, drawn) {
      forall i | 0 <= i < |drawn| && i <= |log| ensures i < |log| && drawn[i] == log[i] {
        DrawnInPlace(h, log, drawn, i);
      }
      if |drawn| > |log| {
        DrawnInPlace(h, log, drawn, |log|);
      }
    }
  }

  lemma DrawnInPlace(h: Hashing, log: seq<AuditRecord>, drawn: seq<AuditRecord>, i: nat)
    requires Valid(h, log) && |log| < U64 && Valid(h, drawn)
    requires forall r :: r in drawn ==> r in log
    requires i < |drawn| && i <= |log|
    ensures i < |log| && drawn[i] == log[i]
  {
    assert drawn[i] in drawn;
    var j :| 0 <= j < |log| && log[j] == drawn[i];
    SealedAt(h, drawn, i);
    SealedAt(h, log, j);
    SameNumber(i, j);
  }

  /** Before the counter wraps, a sequence number names one place. */
  lemma SameNumber(i: nat, j: nat)
    requires i < U64 && j + 1 < U64 && Wrap(i + 1) == Wrap(j + 1)
    ensures i == j
  {
  }

}
