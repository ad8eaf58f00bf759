/**
 The bytes that are hashed, and what a chain over them proves. SHA-256 is a parameter about which nothing
 is assumed: a conclusion that would need collision resistance hands back the colliding inputs instead.
 */
module AuditHash {
  import opened Text
  import opened Json
  import opened AuditRecords
  import opened AuditChain
  import Utf8

  type Sha = seq<byte> -> seq<byte>

  // --- hashing ----------------------------------------------------------------------------------

  function Hex(b: seq<byte>): (s: string)
    ensures |s| == 2 * |b|
  {
    if b == [] then "" else [HexDigit(b[0] / 16), HexDigit(b[0] % 16)] + Hex(b[1..])
  }

  lemma {:induction false} HexInjective(a: seq<byte>, b: seq<byte>)
    requires Hex(a) == Hex(b)
    ensures a == b
  {
    if a != [] {
      assert Hex(a)[2..] == Hex(a[1..]) && Hex(b)[2..] == Hex(b[1..]);
      assert HexValue(Hex(a)[0]) == a[0] / 16 && HexValue(Hex(a)[1]) == a[0] % 16;
      assert HexValue(Hex(b)[0]) == b[0] / 16 && HexValue(Hex(b)[1]) == b[0] % 16;
      HexInjective(a[1..], b[1..]);
      assert a == [a[0]] + a[1..] && b == [b[0]] + b[1..];
    }
  }

  /** The five parts that are hashed, one per line. */
  function Preimage(seqNo: u64, ts: string, event: string, detail: Json, prev: string): string {
    Decimal(seqNo) + ['\n'] + (ts + ['\n'] + (event + ['\n'] + (Render(detail) + ['\n'] + prev)))
  }

  function PreimageBytes(seqNo: u64, ts: string, event: string, detail: Json, prev: string): seq<byte> {
    Utf8.Encode(Preimage(seqNo, ts, event, detail, prev))
  }

  predicate OneLine(s: string) { '\n' !in s }

  lemma DecimalOneLine(n: nat)
    ensures OneLine(Decimal(n))
  {
    var d := Decimal(n);
    assert forall i :: 0 <= i < |d| ==> IsDigit(d[i]);
  }

  /** The preimage is unambiguous when the time stamp and the event name hold no newline. */
  lemma PreimageInjective(
      s: u64, ts: string, ev: string, d: Json, p: string,
      s': u64, ts': string, ev': string, d': Json, p': string)
    requires OneLine(ts) && OneLine(ev) && OneLine(ts') && OneLine(ev')
    requires PreimageBytes(s, ts, ev, d, p) == PreimageBytes(s', ts', ev', d', p')
    ensures s == s' && ts == ts' && ev == ev' && d == d' && p == p'
  {
    Utf8.Injective(Preimage(s, ts, ev, d, p), Preimage(s', ts', ev', d', p'));
    DecimalOneLine(s);
    DecimalOneLine(s');
    RenderPrintable(d);
    RenderPrintable(d');
    var r3 := Render(d) + ['\n'] + p;
    var r3' := Render(d') + ['\n'] + p';
    var r2 := ev + ['\n'] + r3;
    var r2' := ev' + ['\n'] + r3';
    FirstSeparator('\n', Decimal(s), ts + ['\n'] + r2, Decimal(s'), ts' + ['\n'] + r2');
    FirstSeparator('\n', ts, r2, ts', r2');
    FirstSeparator('\n', ev, r3, ev', r3');
    FirstSeparator('\n', Render(d), p, Render(d'), p');
    assert Number(Decimal(s)) == Number(Decimal(s'));
    RenderInjective(d, d');
  }

  /** The preimage ends in a line of its own, so its newlines are one per part before it and those inside the parts. */
  lemma PreimageLines(s: u64, ts: string, ev: string, d: Json, p: string)
    requires OneLine(p)
    ensures multiset(Preimage(s, ts, ev, d, p))['\n'] == 4 + multiset(ts)['\n'] + multiset(ev)['\n']
  {
    DecimalOneLine(s);
    RenderPrintable(d);
    assert multiset(Decimal(s))['\n'] == 0 && multiset(Render(d))['\n'] == 0 && multiset(p)['\n'] == 0;
    assert multiset(['\n'])['\n'] == 1;
  }

  /**
   It is enough that one of the two records has a one-line time stamp and event name: the newlines of the
   other are then all accounted for.
   */
  lemma PreimageOneSided(
      s: u64, ts: string, ev: string, d: Json, p: string,
      s': u64, ts': string, ev': string, d': Json, p': string)
    requires OneLine(ts) && OneLine(ev) && OneLine(p) && OneLine(p')
    requires PreimageBytes(s, ts, ev, d, p) == PreimageBytes(s', ts', ev', d', p')
    ensures s == s' && ts == ts' && ev == ev' && d == d' && p == p'
  {
    Utf8.Injective(Preimage(s, ts, ev, d, p), Preimage(s', ts', ev', d', p'));
    PreimageLines(s, ts, ev, d, p);
    PreimageLines(s', ts', ev', d', p');
    assert multiset(ts)['\n'] == 0 && multiset(ev)['\n'] == 0;
    assert OneLine(ts') && OneLine(ev');
    PreimageInjective(s, ts, ev, d, p, s', ts', ev', d', p');
  }

  // --- tampering --------------------------------------------------------------------------------

  /**
   What two chains with the same last hash amount to: the same records, two different preimages with
   one hash, or a preimage whose hash is the all-zero genesis value.
   */
  datatype Comparison =
    | Same
    | Collision(p: seq<byte>, q: seq<byte>)
    | ZeroHash(p: seq<byte>)

  ghost predicate OneLineFields(rs: seq<AuditRecord>) {
    forall i :: 0 <= i < |rs| ==> OneLine(rs[i].ts) && OneLine(rs[i].event)
  }

  /**
   Hashes are single lines, and hashed bytes determine what was hashed as long as one of the two records
   has a one-line time stamp and event name.
   */
  ghost predicate Unambiguous(h: Hashing) {
    && (forall b :: OneLine(h.digest(b)))
    && (forall s, ts, ev, d, p, s', ts', ev', d', p' ::
         OneLine(ts) && OneLine(ev) && OneLine(p) && OneLine(p')
         && h.preimage(s, ts, ev, d, p) == h.preimage(s', ts', ev', d', p')
         ==> s == s' && ts == ts' && ev == ev' && d == d' && p == p')
  }

  ghost predicate HashedIn(h: Hashing, rs: seq<AuditRecord>, p: seq<byte>) {
    exists i :: 0 <= i < |rs| && p == HashedAt(h, rs, i)
  }

  /** Walks both chains back from their ends until the hashed bytes differ. */
  function Compare(h: Hashing, a: seq<AuditRecord>, b: seq<AuditRecord>): Comparison {
    if a == [] && b == [] then Same
    else if a == [] then ZeroHash(HashedAt(h, b, |b| - 1))
    else if b == [] then ZeroHash(HashedAt(h, a, |a| - 1))
    else
      var p, q := HashedAt(h, a, |a| - 1), HashedAt(h, b, |b| - 1);
      if p != q then Collision(p, q) else Compare(h, a[..|a| - 1], b[..|b| - 1])
  }

  ghost predicate Explains(c: Comparison, h: Hashing, a: seq<AuditRecord>, b: seq<AuditRecord>) {
    && (c.Same? ==> a == b)
    && (c.Collision? ==> c.p != c.q && h.digest(c.p) == h.digest(c.q) && HashedIn(h, a, c.p) && HashedIn(h, b, c.q))
    && (c.ZeroHash? ==> |a| != |b| && h.digest(c.p) == GENESIS && (HashedIn(h, a, c.p) || HashedIn(h, b, c.p)))
  }

  /** Records whose hashed bytes agree agree in every field, and so do the hashes before them. */
  lemma SameBytesSameRecord(h: Hashing, a: seq<AuditRecord>, i: nat, b: seq<AuditRecord>, j: nat)
    requires Unambiguous(h) && Valid(h, a) && Valid(h, b) && i < |a| && j < |b|
    requires OneLine(a[i].ts) && OneLine(a[i].event)
    requires HashedAt(h, a, i) == HashedAt(h, b, j)
    ensures a[i] == b[j] && HashBefore(a, i) == HashBefore(b, j)
  {
    SealedAt(h, a, i);
    SealedAt(h, b, j);
    HashBeforeOneLine(h, a, i);
    HashBeforeOneLine(h, b, j);
  }

  lemma HashBeforeOneLine(h: Hashing, rs: seq<AuditRecord>, i: nat)
    requires Unambiguous(h) && Valid(h, rs) && i <= |rs|
    ensures OneLine(HashBefore(rs, i))
  {
    GenesisOneLine();
    if i > 0 {
      SealedAt(h, rs, i - 1);
      assert OneLine(h.digest(HashedAt(h, rs, i - 1)));
    }
  }

  lemma GenesisOneLine()
    ensures OneLine(GENESIS)
  {
    assert OneLine(SIXTEEN_ZEROS);
  }

  lemma HashedInPrefix(h: Hashing, rs: seq<AuditRecord>, n: nat, p: seq<byte>)
    requires n <= |rs| && HashedIn(h, rs[..n], p)
    ensures HashedIn(h, rs, p)
  {
    var i :| 0 <= i < n && p == HashedAt(h, rs[..n], i);
    assert p == HashedAt(h, rs, i);
  }

  lemma ExplainsLonger(c: Comparison, h: Hashing, a: seq<AuditRecord>, b: seq<AuditRecord>, r: AuditRecord)
    requires Explains(c, h, a, b)
    ensures Explains(c, h, a + [r], b + [r])
  {
    assert (a + [r])[..|a|] == a && (b + [r])[..|b|] == b;
    if c.Collision? {
      HashedInPrefix(h, a + [r], |a|, c.p);
      HashedInPrefix(h, b + [r], |b|, c.q);
    } else if c.ZeroHash? {
      if HashedIn(h, a, c.p) { HashedInPrefix(h, a + [r], |a|, c.p); } else { HashedInPrefix(h, b + [r], |b|, c.p); }
    }
  }

  lemma {:induction false} CompareSound(h: Hashing, a: seq<AuditRecord>, b: seq<AuditRecord>)
    requires Unambiguous(h) && Valid(h, a) && Valid(h, b) && OneLineFields(a)
    requires HashBefore(a, |a|) == HashBefore(b, |b|)
    ensures Explains(Compare(h, a, b), h, a, b)
    decreases |a|
  {
    if a == [] || b == [] {
      CompareEmpty(h, a, b);
    } else if HashedAt(h, a, |a| - 1) != HashedAt(h, b, |b| - 1) {
      CompareDiffer(h, a, b);
    } else {
      var m, n := |a| - 1, |b| - 1;
      SameBytesSameRecord(h, a, m, b, n);
      ValidPrefix(h, a, m);
      ValidPrefix(h, b, n);
      assert HashBefore(a[..m], m) == HashBefore(a, m) && HashBefore(b[..n], n) == HashBefore(b, n);
      CompareSound(h, a[..m], b[..n]);
      CompareStep(h, a, b);
    }
  }

  lemma CompareStep(h: Hashing, a: seq<AuditRecord>, b: seq<AuditRecord>)
    requires a != [] && b != [] && a[|a| - 1] == b[|b| - 1]
    requires HashedAt(h, a, |a| - 1) == HashedAt(h, b, |b| - 1)
    requires Explains(Compare(h, a[..|a| - 1], b[..|b| - 1]), h, a[..|a| - 1], b[..|b| - 1])
    ensures Explains(Compare(h, a, b), h, a, b)
  {
    var m, n := |a| - 1, |b| - 1;
    assert a == a[..m] + [a[m]] && b == b[..n] + [a[m]];
    ExplainsLonger(Compare(h, a[..m], b[..n]), h, a[..m], b[..n], a[m]);
  }

  lemma CompareDiffer(h: Hashing, a: seq<AuditRecord>, b: seq<AuditRecord>)
    requires Valid(h, a) && Valid(h, b) && a != [] && b != []
    requires HashedAt(h, a, |a| - 1) != HashedAt(h, b, |b| - 1)
    requires HashBefore(a, |a|) == HashBefore(b, |b|)
    ensures Explains(Compare(h, a, b), h, a, b)
  {
    SealedAt(h, a, |a| - 1);
    SealedAt(h, b, |b| - 1);
  }

  lemma CompareEmpty(h: Hashing, a: seq<AuditRecord>, b: seq<AuditRecord>)
    requires Valid(h, a) && Valid(h, b) && (a == [] || b == [])
    requires HashBefore(a, |a|) == HashBefore(b, |b|)
    ensures Explains(Compare(h, a, b), h, a, b)
  {
    if a != [] {
      SealedAt(h, a, |a| - 1);
    } else if b != [] {
      SealedAt(h, b, |b| - 1);
    }
  }

  lemma CompareVerified(h: Hashing, a: seq<AuditRecord>, b: seq<AuditRecord>)
    requires Unambiguous(h) && OneLineFields(a)
    requires VerifyFrom(h, a, 0).ok && VerifyFrom(h, b, 0).ok && a != [] && b != []
    requires HeadOf(a).hash == HeadOf(b).hash
    ensures Explains(Compare(h, a, b), h, a, b)
    ensures Compare(h, a, b).ZeroHash? ==> Wrap(|a|) == Wrap(|b|)
  {
    VerifyAcceptsExactlyValid(h, a);
    VerifyAcceptsExactlyValid(h, b);
    CompareSound(h, a, b);
    if Compare(h, a, b).ZeroHash? {
      ZeroHashLengths(h, a, b);
    }
  }

  lemma ZeroHashLengths(h: Hashing, a: seq<AuditRecord>, b: seq<AuditRecord>)
    requires Unambiguous(h) && Valid(h, a) && Valid(h, b) && OneLineFields(a)
    requires a != [] && b != [] && HashedAt(h, a, |a| - 1) == HashedAt(h, b, |b| - 1)
    ensures Wrap(|a|) == Wrap(|b|)
  {
    SameBytesSameRecord(h, a, |a| - 1, b, |b| - 1);
    LastSeqNo(h, a);
    LastSeqNo(h, b);
  }

  lemma LastSeqNo(h: Hashing, rs: seq<AuditRecord>)
    requires Valid(h, rs) && rs != []
    ensures rs[|rs| - 1].seqNo == Wrap(|rs|)
  {
    SealedAt(h, rs, |rs| - 1);
  }

  /** The hashing of `compute_hash`: hexadecimal SHA-256 of the newline-joined parts. */
  function Standard(sha: Sha): Hashing {
    Hashing(PreimageBytes, b => Hex(sha(b)))
  }

  /** The hash of a record: lower-case hexadecimal of SHA-256 over its five parts, one per line. */
  lemma HashReads(sha: Sha, seqNo: u64, ts: string, event: string, detail: Json, prev: string, i: nat)
    requires var text := Decimal(seqNo) + "\n" + ts + "\n" + event + "\n" + Render(detail) + "\n" + prev;
             i < |sha(Utf8.Encode(text))|
    ensures var text := Decimal(seqNo) + "\n" + ts + "\n" + event + "\n" + Render(detail) + "\n" + prev;
            var hash, bytes := Standard(sha).Hash(seqNo, ts, event, detail, prev), sha(Utf8.Encode(text));
            && |hash| == 2 * |bytes|
            && hash[2 * i] == "0123456789abcdef"[bytes[i] / 16] && hash[2 * i + 1] == "0123456789abcdef"[bytes[i] % 16]
  {
    var text := Decimal(seqNo) + "\n" + ts + "\n" + event + "\n" + Render(detail) + "\n" + prev;
    assert text == Preimage(seqNo, ts, event, detail, prev);
    HexAt(sha(Utf8.Encode(text)), i);
  }

  lemma {:induction false} HexAt(b: seq<byte>, i: nat)
    requires i < |b|
    ensures Hex(b)[2 * i] == "0123456789abcdef"[b[i] / 16] && Hex(b)[2 * i + 1] == "0123456789abcdef"[b[i] % 16]
  {
    if i > 0 {
      HexAt(b[1..], i - 1);
    } else {
      HexDigitAt(b[0] / 16);
      HexDigitAt(b[0] % 16);
    }
  }

  lemma HexDigitAt(d: nat)
    requires d < 16
    ensures HexDigit(d) == "0123456789abcdef"[d]
  {
  }
  lemma {:induction false} HexOneLine(b: seq<byte>)
    ensures OneLine(Hex(b))
  {
    if b != [] {
      HexOneLine(b[1..]);
    }
  }

  lemma StandardUnambiguous(sha: Sha)
    ensures Unambiguous(Standard(sha))
  {
    forall b ensures OneLine(Standard(sha).digest(b)) {
      HexOneLine(sha(b));
    }
    forall s, ts, ev, d, p, s', ts', ev', d', p' |
        OneLine(ts) && OneLine(ev) && OneLine(p) && OneLine(p')
        && PreimageBytes(s, ts, ev, d, p) == PreimageBytes(s', ts', ev', d', p')
      ensures s == s' && ts == ts' && ev == ev' && d == d' && p == p'
    {
      PreimageOneSided(s, ts, ev, d, p, s', ts', ev', d', p');
    }
  }

  /** What `Compare` makes of two logs: equal records, a SHA-256 collision, or an all-zero hash. */
  ghost predicate Explained(sha: Sha, a: seq<AuditRecord>, b: seq<AuditRecord>) {
    var h := Standard(sha);
    match Compare(h, a, b)
    case Same => a == b
    case Collision(p, q) => p != q && sha(p) == sha(q) && HashedIn(h, a, p) && HashedIn(h, b, q)
    case ZeroHash(p) =>
      && Hex(sha(p)) == GENESIS && (HashedIn(h, a, p) || HashedIn(h, b, p))
      && |a| != |b| && Wrap(|a|) == Wrap(|b|)
  }

  /**
   Tamper evidence. Two non-empty logs that both verify and end in the same hash hold the same records,
   or `Compare` exhibits two different byte strings with one SHA-256 value, each hashed in one of the
   logs. Only one log, the one the agent wrote, needs one-line time stamps and event names; the other may
   hold anything. (An all-zero hash can only appear between logs whose lengths differ by a multiple of 2^64.)
   */
  lemma TamperEvident(sha: Sha, a: seq<AuditRecord>, b: seq<AuditRecord>)
    requires VerifyFrom(Standard(sha), a, 0).ok && VerifyFrom(Standard(sha), b, 0).ok && a != [] && b != []
    requires HeadOf(a).hash == HeadOf(b).hash
    requires OneLineFields(a)
    ensures Explained(sha, a, b)
  {
    StandardUnambiguous(sha);
    CompareVerified(Standard(sha), a, b);
    var c := Compare(Standard(sha), a, b);
    if c.Collision? {
      HexInjective(sha(c.p), sha(c.q));
    }
  }

  // --- logs that hold newlines ------------------------------------------------------------------

  /** Another log that `verify` accepts and that ends in the same hash. */
  predicate Rival(sha: Sha, a: seq<AuditRecord>, b: seq<AuditRecord>) {
    b != [] && VerifyFrom(Standard(sha), b, 0).ok && a != [] && HeadOf(b).hash == HeadOf(a).hash
  }

  /**
   The exact condition. An accepted log is told apart from all its rivals, up to collisions, if and only if
   its time stamps and event names are single lines: otherwise moving a newline from one to the other makes
   a different log with the same hashed bytes throughout.
   */
  lemma TamperEvidentExactly(sha: Sha, a: seq<AuditRecord>)
    requires VerifyFrom(Standard(sha), a, 0).ok && a != []
    ensures (forall b :: Rival(sha, a, b) ==> Explained(sha, a, b)) <==> OneLineFields(a)
  {
    if OneLineFields(a) {
      forall b | Rival(sha, a, b) ensures Explained(sha, a, b) {
        TamperEvident(sha, a, b);
      }
    } else {
      var i :| 0 <= i < |a| && !(OneLine(a[i].ts) && OneLine(a[i].event));
      var b := ShiftedLog(sha, a, i);
      assert Rival(sha, a, b) && !Explained(sha, a, b);
    }
  }

  /** The same record with a newline moved across the boundary between time stamp and event name. */
  lemma Shifted(r: AuditRecord, prev: string) returns (r': AuditRecord)
    requires !(OneLine(r.ts) && OneLine(r.event))
    ensures r' != r && r'.(ts := r.ts, event := r.event) == r
    ensures PreimageBytes(r'.seqNo, r'.ts, r'.event, r'.detail, prev)
         == PreimageBytes(r.seqNo, r.ts, r.event, r.detail, prev)
  {
    var ts, ev;
    if !OneLine(r.ts) {
      var i :| 0 <= i < |r.ts| && r.ts[i] == '\n';
      ts, ev := r.ts[..i], r.ts[i + 1..] + ['\n'] + r.event;
      assert r.ts == ts + ['\n'] + r.ts[i + 1..];
    } else {
      var i :| 0 <= i < |r.event| && r.event[i] == '\n';
      ts, ev := r.ts + ['\n'] + r.event[..i], r.event[i + 1..];
      assert r.event == r.event[..i] + ['\n'] + ev;
    }
    r' := r.(ts := ts, event := ev);
    assert ts + ['\n'] + ev == r.ts + ['\n'] + r.event;
    assert |ts| != |r.ts|;
    SamePreimage(r.seqNo, r.ts, r.event, ts, ev, r.detail, prev);
  }

  lemma SamePreimage(s: u64, ts: string, ev: string, ts': string, ev': string, d: Json, p: string)
    requires ts' + ['\n'] + ev' == ts + ['\n'] + ev
    ensures PreimageBytes(s, ts', ev', d, p) == PreimageBytes(s, ts, ev, d, p)
  {
    var rest := Render(d) + ['\n'] + p;
    Rejoin(ts, ev, rest);
    Rejoin(ts', ev', rest);
  }

  lemma Rejoin(a: string, b: string, rest: string)
    ensures a + ['\n'] + (b + ['\n'] + rest) == (a + ['\n'] + b) + (['\n'] + rest)
  {
  }

  lemma ShiftedLog(sha: Sha, a: seq<AuditRecord>, i: nat) returns (b: seq<AuditRecord>)
    requires VerifyFrom(Standard(sha), a, 0).ok && i < |a| && !(OneLine(a[i].ts) && OneLine(a[i].event))
    ensures Rival(sha, a, b) && !Explained(sha, a, b)
  {
    var h := Standard(sha);
    VerifyAcceptsExactlyValid(h, a);
    var r' := Shifted(a[i], HashBefore(a, i));
    b := a[i := r'];
    forall j | 0 <= j < |b| ensures LinkedAt(h, b, j) && HashedAt(h, b, j) == HashedAt(h, a, j) {
      Replaced(h, a, i, r', j);
    }
    VerifyAcceptsExactlyValid(h, b);
    SameBytesSame(h, a, b);
    assert b[i] != a[i];
  }

  /** A record that hashes the same bytes and has the same number and hashes takes the place of another unnoticed. */
  lemma Replaced(h: Hashing, a: seq<AuditRecord>, i: nat, r: AuditRecord, j: nat)
    requires Valid(h, a) && i < |a| && j < |a|
    requires r.seqNo == a[i].seqNo && r.prevHash == a[i].prevHash && r.hash == a[i].hash
    requires h.preimage(r.seqNo, r.ts, r.event, r.detail, HashBefore(a, i)) == HashedAt(h, a, i)
    ensures LinkedAt(h, a[i := r], j) && HashedAt(h, a[i := r], j) == HashedAt(h, a, j)
  {
    assert LinkedAt(h, a, j) && HashBefore(a[i := r], j) == HashBefore(a, j);
  }

  /** Logs that hash the same bytes at every place cannot be told apart by their hashes. */
  lemma {:induction false} SameBytesSame(h: Hashing, a: seq<AuditRecord>, b: seq<AuditRecord>)
    requires |a| == |b| && forall j :: 0 <= j < |a| ==> HashedAt(h, a, j) == HashedAt(h, b, j)
    ensures Compare(h, a, b).Same?
  {
    if a != [] {
      var n := |a| - 1;
      forall j | 0 <= j < n ensures HashedAt(h, a[..n], j) == HashedAt(h, b[..n], j) {
        assert HashedAt(h, a[..n], j) == HashedAt(h, a, j) && HashedAt(h, b[..n], j) == HashedAt(h, b, j);
      }
      SameBytesSame(h, a[..n], b[..n]);
    }
  }

  /** For instance: these two records hash the same bytes, whatever the detail and the hash. */
  lemma NewlinesShift(h: Hashing, detail: Json) returns (r: AuditRecord, s: AuditRecord)
    requires h.preimage == PreimageBytes
    ensures VerifyFrom(h, [r], 0).ok && VerifyFrom(h, [s], 0).ok
    ensures r != s && HeadOf([r]) == HeadOf([s]) && HashedAt(h, [r], 0) == HashedAt(h, [s], 0)
  {
    r := NextRecord(h, FRESH, "x\ny", "z", detail);
    s := NextRecord(h, FRESH, "x", "y\nz", detail);
    assert |r.ts| == 3 && |s.ts| == 1;
    var tail := Render(detail) + ['\n'] + GENESIS;
    assert "x\ny" + ['\n'] + ("z" + ['\n'] + tail) == "x" + ['\n'] + ("y\nz" + ['\n'] + tail);
    assert r.hash == s.hash;
    NextRecordLinks(h, [], "x\ny", "z", detail);
    NextRecordLinks(h, [], "x", "y\nz", detail);
    assert [] + [r] == [r] && [] + [s] == [s];
    VerifyAcceptsExactlyValid(h, [r]);
    VerifyAcceptsExactlyValid(h, [s]);
  }
}
