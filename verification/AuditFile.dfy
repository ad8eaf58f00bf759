/** What `open` and `verify` make of the bytes of a log, whatever the format of a record. */
module AuditFile {
  import opened Text
  import opened AuditRecords
  import opened AuditChain
  import opened ByteLines

  datatype Line = Skipped | Corrupt(error: string) | Entry(record: AuditRecord)

  /** How a line is read, and the line that is written for a record. */
  datatype Format = Format(read: seq<byte> -> Line, line: AuditRecord -> seq<byte>)

  /**
   What the log needs of its format: records are single lines that read back, a record cut short is
   corrupt, and so is a record, whole or cut, with another glued to its end.
   */
  ghost predicate Framed(f: Format) {
    && (forall r :: 10 !in f.line(r) && f.line(r) != [] && StripCr(f.line(r)) == f.line(r))
    && (forall r :: f.read(f.line(r)) == Entry(r))
    && (forall r, k :: 0 < k < |f.line(r)| ==> f.read(f.line(r)[..k]).Corrupt?)
    && (forall raw, r {:trigger f.read(raw + f.line(r))} ::
         f.read(raw).Entry? ==> f.read(raw + f.line(r)).Corrupt?)
    && (forall r, r', k {:trigger f.read(f.line(r)[..k] + f.line(r'))} ::
         0 < k < |f.line(r)| ==> f.read(f.line(r)[..k] + f.line(r')).Corrupt?)
  }

  // --- reading ----------------------------------------------------------------------------------

  predicate Readable(f: Format, lines: seq<seq<byte>>) {
    forall i :: 0 <= i < |lines| ==> !f.read(lines[i]).Corrupt?
  }

  /** The records up to the first corrupt line. */
  function Records(f: Format, lines: seq<seq<byte>>): seq<AuditRecord> {
    if lines == [] then []
    else match f.read(lines[0])
      case Corrupt(_) => []
      case Skipped => Records(f, lines[1..])
      case Entry(r) => [r] + Records(f, lines[1..])
  }

  /** The recovery loop of `open`. */
  function OpenLines(f: Format, lines: seq<seq<byte>>, head: Head): Result<Head> {
    if lines == [] then Ok(head)
    else match f.read(lines[0])
      case Corrupt(error) => Err(error)
      case Skipped => OpenLines(f, lines[1..], head)
      case Entry(r) => OpenLines(f, lines[1..], Head(r.seqNo, r.hash))
  }

  /** The loop of `verify`: it stops at the first record that does not link. */
  function VerifyLines(
      h: Hashing, f: Format, lines: seq<seq<byte>>, prev: string, expected: u64, count: u64): Result<VerifyReport>
  {
    if lines == [] then Ok(VerifyReport(count, true, None))
    else match f.read(lines[0])
      case Corrupt(error) => Err(error)
      case Skipped => VerifyLines(h, f, lines[1..], prev, expected, count)
      case Entry(r) =>
        if Links(h, r, prev, expected) then
          VerifyLines(h, f, lines[1..], r.hash, Wrap(expected + 1), Wrap(count + 1))
        else Ok(VerifyReport(count, false, Some(r.seqNo)))
  }

  function Open(f: Format, b: seq<byte>): Result<Head> { OpenLines(f, Lines(b), FRESH) }

  function Verify(h: Hashing, f: Format, b: seq<byte>): Result<VerifyReport> {
    VerifyLines(h, f, Lines(b), GENESIS, 1, 0)
  }

  lemma ReadableSplit(f: Format, lines: seq<seq<byte>>)
    requires lines != []
    ensures Readable(f, lines) <==> !f.read(lines[0]).Corrupt? && Readable(f, lines[1..])
  {
    assert forall i :: 1 <= i < |lines| ==> lines[i] == lines[1..][i - 1];
  }

  lemma {:induction false} OpenLinesMeaning(f: Format, lines: seq<seq<byte>>, past: seq<AuditRecord>)
    ensures OpenLines(f, lines, HeadOf(past)).Ok? <==> Readable(f, lines)
    ensures Readable(f, lines) ==>
      OpenLines(f, lines, HeadOf(past)) == Ok(HeadOf(past + Records(f, lines)))
  {
    if lines == [] {
      assert past + Records(f, lines) == past;
    } else {
      ReadableSplit(f, lines);
      match f.read(lines[0])
      case Corrupt(_) =>
      case Skipped => OpenLinesMeaning(f, lines[1..], past);
      case Entry(r) =>
        OpenLinesMeaning(f, lines[1..], past + [r]);
        assert past + [r] + Records(f, lines[1..]) == past + Records(f, lines);
    }
  }

  /** `open` succeeds exactly on readable files, and recovers the head of the records in them. */
  lemma OpenMeaning(f: Format, b: seq<byte>)
    ensures Open(f, b).Ok? <==> Readable(f, Lines(b))
    ensures Readable(f, Lines(b)) ==> Open(f, b) == Ok(HeadOf(Records(f, Lines(b))))
  {
    OpenLinesMeaning(f, Lines(b), []);
    assert [] + Records(f, Lines(b)) == Records(f, Lines(b));
  }

  /** The verdict on the records, unless a corrupt line comes before any broken one. */
  predicate Verdict(report: VerifyReport, readable: bool, r: Result<VerifyReport>) {
    if readable || !report.ok then r == Ok(report) else r.Err?
  }

  lemma {:induction false} VerifyLinesMeaning(h: Hashing, f: Format, lines: seq<seq<byte>>, past: seq<AuditRecord>)
    ensures Verdict(
      VerifyFrom(h, past + Records(f, lines), |past|), Readable(f, lines),
      VerifyLines(h, f, lines, HashBefore(past, |past|), Wrap(|past| + 1), Wrap(|past|)))
    decreases |lines|
  {
    if lines == [] {
      assert past + Records(f, lines) == past;
    } else {
      ReadableSplit(f, lines);
      match f.read(lines[0])
      case Corrupt(_) =>
        assert past + Records(f, lines) == past;
      case Skipped => VerifyLinesMeaning(h, f, lines[1..], past);
      case Entry(r) =>
        VerifyLinesMeaning(h, f, lines[1..], past + [r]);
        VerifyLinesStep(h, f, lines, past, r);
    }
  }

  lemma VerifyLinesStep(h: Hashing, f: Format, lines: seq<seq<byte>>, past: seq<AuditRecord>, r: AuditRecord)
    requires lines != [] && f.read(lines[0]) == Entry(r)
    requires Verdict(
      VerifyFrom(h, past + [r] + Records(f, lines[1..]), |past| + 1), Readable(f, lines),
      VerifyLines(h, f, lines[1..], r.hash, Wrap(|past| + 2), Wrap(|past| + 1)))
    ensures Verdict(
      VerifyFrom(h, past + Records(f, lines), |past|), Readable(f, lines),
      VerifyLines(h, f, lines, HashBefore(past, |past|), Wrap(|past| + 1), Wrap(|past|)))
  {
    var n := |past|;
    NextLink(h, past, r, Records(f, lines[1..]));
    WrapSucc(n);
    WrapSucc(n + 1);
  }

  /** How the record behind `past` is linked does not depend on what follows. */
  lemma NextLink(h: Hashing, past: seq<AuditRecord>, r: AuditRecord, rest: seq<AuditRecord>)
    ensures past + [r] + rest == past + ([r] + rest)
    ensures LinkedAt(h, past + ([r] + rest), |past|) == Links(h, r, HashBefore(past, |past|), Wrap(|past| + 1))
    ensures (past + ([r] + rest))[|past|] == r
  {
    var all := past + ([r] + rest);
    assert HashBefore(all, |past|) == HashBefore(past, |past|);
  }

  lemma WrapSucc(n: nat)
    ensures Wrap(Wrap(n) + 1) == Wrap(n + 1)
  {
  }

  /** `verify` judges the records of the file by the longest valid prefix. */
  lemma VerifyMeaning(h: Hashing, f: Format, b: seq<byte>)
    ensures Verdict(VerifyFrom(h, Records(f, Lines(b)), 0), Readable(f, Lines(b)), Verify(h, f, b))
  {
    VerifyLinesMeaning(h, f, Lines(b), []);
    assert [] + Records(f, Lines(b)) == Records(f, Lines(b));
  }

  lemma {:induction false} RecordsConcat(f: Format, xs: seq<seq<byte>>, ys: seq<seq<byte>>)
    requires Readable(f, xs)
    ensures Readable(f, xs + ys) <==> Readable(f, ys)
    ensures Records(f, xs + ys) == Records(f, xs) + Records(f, ys)
  {
    if xs == [] {
      assert xs + ys == ys;
    } else {
      assert (xs + ys)[1..] == xs[1..] + ys;
      ReadableSplit(f, xs);
      ReadableSplit(f, xs + ys);
      RecordsConcat(f, xs[1..], ys);
    }
  }

  lemma OneRecord(f: Format, raw: seq<byte>)
    ensures Readable(f, [raw]) <==> !f.read(raw).Corrupt?
    ensures Records(f, [raw]) == if f.read(raw).Entry? then [f.read(raw).record] else []
  {
    assert [raw][0] == raw && [raw][1..] == [];
  }

  // --- what append writes -----------------------------------------------------------------------

  function Frame(f: Format, r: AuditRecord): seq<byte> { f.line(r) + [10] }

  function Frames(f: Format, rs: seq<AuditRecord>): seq<byte> {
    if rs == [] then [] else Frames(f, rs[..|rs| - 1]) + Frame(f, rs[|rs| - 1])
  }

  /** On a terminated file, appending a frame adds one record and disturbs none. */
  lemma AppendFrame(f: Format, b: seq<byte>, r: AuditRecord)
    requires Framed(f) && Terminated(b) && Readable(f, Lines(b))
    ensures Terminated(b + Frame(f, r)) && Readable(f, Lines(b + Frame(f, r)))
    ensures Records(f, Lines(b + Frame(f, r))) == Records(f, Lines(b)) + [r]
  {
    LinesConcat(b, Frame(f, r));
    SingleLine(f.line(r));
    OneRecord(f, f.line(r));
    RecordsConcat(f, Lines(b), [f.line(r)]);
  }

  /** Framing: a file written record by record reads back as exactly those records. */
  lemma {:induction false} FramesReadBack(f: Format, rs: seq<AuditRecord>)
    requires Framed(f)
    ensures Terminated(Frames(f, rs)) && Readable(f, Lines(Frames(f, rs)))
    ensures Records(f, Lines(Frames(f, rs))) == rs
  {
    if rs != [] {
      FramesReadBack(f, rs[..|rs| - 1]);
      AppendFrame(f, Frames(f, rs[..|rs| - 1]), rs[|rs| - 1]);
    }
  }

  // --- torn tails -------------------------------------------------------------------------------

  /** How many whole frames fit in the first `k` bytes. */
  function WholeFrames(f: Format, rs: seq<AuditRecord>, k: nat): (m: nat)
    ensures m <= |rs|
  {
    if rs == [] || |Frames(f, rs)| <= k then |rs| else WholeFrames(f, rs[..|rs| - 1], k)
  }

  lemma {:induction false} CutSplits(f: Format, rs: seq<AuditRecord>, k: nat) returns (left: nat)
    requires k <= |Frames(f, rs)|
    ensures var m := WholeFrames(f, rs, k);
            && |Frames(f, rs[..m])| + left == k
            && (m == |rs| ==> left == 0) && (m < |rs| ==> left < |Frame(f, rs[m])|)
            && Frames(f, rs)[..k] == Frames(f, rs[..m]) + (if m < |rs| then Frame(f, rs[m])[..left] else [])
  {
    if k == |Frames(f, rs)| {
      left := 0;
      assert rs[..|rs|] == rs;
      assert Frames(f, rs)[..k] == Frames(f, rs) + [];
    } else {
      var n := |rs| - 1;
      var front := Frames(f, rs[..n]);
      if k < |front| {
        left := CutSplits(f, rs[..n], k);
        var m := WholeFrames(f, rs[..n], k);
        assert front[..k] == Frames(f, rs)[..k];
        assert m <= n && rs[..n][..m] == rs[..m];
      } else {
        left := k - |front|;
        assert Frames(f, rs)[..k] == front + Frame(f, rs[n])[..left];
      }
    }
  }

  /** What the first `left` bytes of a frame read as. */
  lemma TornFrame(f: Format, r: AuditRecord, left: nat)
    requires Framed(f) && left < |Frame(f, r)|
    ensures var lines := Lines(Frame(f, r)[..left]);
            if left == 0 then lines == []
            else if left == |f.line(r)| then Readable(f, lines) && Records(f, lines) == [r]
            else !Readable(f, lines) && Records(f, lines) == []
  {
    var torn := f.line(r)[..left];
    assert Frame(f, r)[..left] == torn;
    assert left == |f.line(r)| ==> torn == f.line(r);
    SingleLine(torn);
    OneRecord(f, torn);
  }

  /** Whole frames followed by the first `left` bytes of one more. */
  lemma PartialRead(f: Format, past: seq<AuditRecord>, r: AuditRecord, left: nat)
    requires Framed(f) && left < |Frame(f, r)|
    ensures var lines := Lines(Frames(f, past) + Frame(f, r)[..left]);
            && (Readable(f, lines) <==> left == 0 || left == |f.line(r)|)
            && Records(f, lines) == if left == |f.line(r)| then past + [r] else past
  {
    FramesReadBack(f, past);
    TornFrame(f, r, left);
    LinesConcat(Frames(f, past), Frame(f, r)[..left]);
    RecordsConcat(f, Lines(Frames(f, past)), Lines(Frame(f, r)[..left]));
    assert past + [] == past;
  }

  lemma FramesSnoc(f: Format, rs: seq<AuditRecord>, m: nat)
    requires m < |rs|
    ensures rs[..m + 1] == rs[..m] + [rs[m]]
    ensures Frames(f, rs[..m + 1]) == Frames(f, rs[..m]) + Frame(f, rs[m])
  {
    assert rs[..m + 1][..m] == rs[..m] && rs[..m + 1][m] == rs[m];
  }

  /** The records a cut leaves: the whole ones, and whether anything but they remains. */
  lemma TornRecords(f: Format, rs: seq<AuditRecord>, k: nat) returns (whole: nat, clean: bool)
    requires Framed(f) && k <= |Frames(f, rs)|
    ensures whole <= |rs| && |Frames(f, rs[..whole])| <= k + 1
    ensures whole < |rs| ==> k + 1 < |Frames(f, rs[..whole + 1])|
    ensures clean <==> k == |Frames(f, rs[..whole])| || k + 1 == |Frames(f, rs[..whole])|
    ensures Records(f, Lines(Frames(f, rs)[..k])) == rs[..whole]
    ensures Readable(f, Lines(Frames(f, rs)[..k])) <==> clean
  {
    var m := WholeFrames(f, rs, k);
    var left := CutSplits(f, rs, k);
    if m == |rs| {
      whole, clean := m, true;
      FramesReadBack(f, rs[..m]);
      assert Frames(f, rs[..m]) + [] == Frames(f, rs[..m]);
    } else {
      PartialRead(f, rs[..m], rs[m], left);
      whole, clean := (if left == |f.line(rs[m])| then m + 1 else m), left == 0 || left == |f.line(rs[m])|;
      assert left == |f.line(rs[m])| ==> rs[..m] + [rs[m]] == rs[..m + 1];
      FrameLengths(f, rs, m);
    }
  }

  /** Where the frames around record `m` end. */
  lemma FrameLengths(f: Format, rs: seq<AuditRecord>, m: nat)
    requires Framed(f) && m < |rs|
    ensures |Frames(f, rs[..m + 1])| == |Frames(f, rs[..m])| + |f.line(rs[m])| + 1
    ensures f.line(rs[m]) != []
    ensures m + 1 < |rs| ==> |Frames(f, rs[..m + 1])| + 1 < |Frames(f, rs[..m + 2])|
  {
    FramesSnoc(f, rs, m);
    if m + 1 < |rs| {
      FramesSnoc(f, rs, m + 1);
      assert f.line(rs[m + 1]) != [];
    }
  }

  /**
   Torn tails. Cut a log, valid or not, at any byte `k`; `whole` counts the records whose text survives.
   When the cut is clean, falling between frames or dropping only a final newline, `open` recovers the
   head of exactly those records and `verify` gives the verdict on exactly them; anywhere else `open`
   reports an error, and so does `verify` unless it finds a broken link before the cut.
   */
  lemma TornTail(h: Hashing, f: Format, rs: seq<AuditRecord>, k: nat) returns (whole: nat, clean: bool)
    requires Framed(f) && k <= |Frames(f, rs)|
    ensures whole <= |rs| && |Frames(f, rs[..whole])| <= k + 1
    ensures whole < |rs| ==> k + 1 < |Frames(f, rs[..whole + 1])|
    ensures clean <==> k == |Frames(f, rs[..whole])| || k + 1 == |Frames(f, rs[..whole])|
    ensures if clean then Open(f, Frames(f, rs)[..k]) == Ok(HeadOf(rs[..whole])) else Open(f, Frames(f, rs)[..k]).Err?
    ensures Verdict(VerifyFrom(h, rs[..whole], 0), clean, Verify(h, f, Frames(f, rs)[..k]))
    ensures Valid(h, rs) ==> VerifyFrom(h, rs[..whole], 0) == VerifyReport(Wrap(whole), true, None)
  {
    whole, clean := TornRecords(f, rs, k);
    var torn := Frames(f, rs)[..k];
    OpenMeaning(f, torn);
    VerifyMeaning(h, f, torn);
    if Valid(h, rs) {
      ValidPrefix(h, rs, whole);
      VerifyAcceptsExactlyValid(h, rs[..whole]);
    }
  }

  /**
   An append glues the new record to whatever follows the last newline: the file stays readable exactly
   when it was terminated or the glued line can be read.
   */
  lemma AppendGlues(f: Format, b: seq<byte>, r: AuditRecord)
    requires Framed(f) && Open(f, b).Ok?
    ensures Open(f, b + Frame(f, r)).Ok? <==> Terminated(b) || !f.read(b[Whole(b)..] + f.line(r)).Corrupt?
  {
    OpenMeaning(f, b);
    OpenMeaning(f, b + Frame(f, r));
    if Terminated(b) {
      AppendFrame(f, b, r);
    } else {
      var n := Whole(b);
      var glued := b[n..] + f.line(r);
      UnterminatedLines(f, b);
      GluedLines(f, b, r);
      OneRecord(f, glued);
      RecordsConcat(f, Lines(b[..n]), [glued]);
    }
  }

  /** The terminated part of a readable file is readable. */
  lemma UnterminatedLines(f: Format, b: seq<byte>)
    requires Readable(f, Lines(b))
    ensures Readable(f, Lines(b[..Whole(b)]))
  {
    var n := Whole(b);
    assert b == b[..n] + b[n..];
    LinesConcat(b[..n], b[n..]);
    assert forall i :: 0 <= i < |Lines(b[..n])| ==> Lines(b)[i] == Lines(b[..n])[i];
  }

  lemma LastLineReadable(f: Format, b: seq<byte>)
    requires Open(f, b).Ok? && !Terminated(b)
    ensures !f.read(b[Whole(b)..]).Corrupt?
  {
    var n := Whole(b);
    OpenMeaning(f, b);
    assert b == b[..n] + b[n..];
    LinesConcat(b[..n], b[n..]);
    SingleLine(b[n..]);
    assert Lines(b)[|Lines(b[..n])|] == b[n..];
  }

  /** A line that cannot be read stays in the file, whatever is written after it. */
  lemma CorruptForever(f: Format, b: seq<byte>, raw: seq<byte>, more: seq<byte>)
    requires Terminated(b) && 10 !in raw && f.read(StripCr(raw)).Corrupt?
    ensures Open(f, b + (raw + [10]) + more).Err?
  {
    var lines := Lines(b + (raw + [10]) + more);
    SingleLine(raw);
    LinesConcat(b, raw + [10]);
    LinesConcat(b + (raw + [10]), more);
    assert lines[|Lines(b)|] == StripCr(raw);
    OpenMeaning(f, b + (raw + [10]) + more);
  }

  lemma GluedLines(f: Format, b: seq<byte>, r: AuditRecord)
    requires Framed(f)
    ensures var n := Whole(b);
            Lines(b + Frame(f, r)) == Lines(b[..n]) + [b[n..] + f.line(r)]
  {
    var n := Whole(b);
    var glued := b[n..] + f.line(r);
    assert b + Frame(f, r) == b[..n] + (glued + [10]);
    LinesConcat(b[..n], glued + [10]);
    SingleLine(glued);
    StripGlued(b[n..], f.line(r));
  }

  lemma StripGlued(a: seq<byte>, line: seq<byte>)
    requires line != [] && StripCr(line) == line
    ensures StripCr(a + line) == a + line
  {
    assert (a + line)[|a + line| - 1] == line[|line| - 1];
  }
}
