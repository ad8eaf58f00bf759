/** The audit record and the line of JSON that carries it. */
module AuditRecords {
  import opened Text
  import opened Json
  import opened JsonCut

  type u64 = n: nat | n < 0x1_0000_0000_0000_0000

  datatype AuditRecord = AuditRecord(
    seqNo: u64,
    ts: string,
    event: string,
    detail: Json,
    prevHash: string,
    hash: string)

  /** How a line of the log is read back; `None` is a corrupt line. */
  type LineParser = string -> Option<AuditRecord>

  const RECORD_FIELDS := ["seq", "ts", "event", "detail", "prev_hash", "hash"]

  /** The members that pair the keys with the values, in order. */
  function Zip(keys: seq<string>, values: seq<Json>): Members
    requires |keys| == |values|
  {
    if keys == [] then End else Member(keys[0], values[0], Zip(keys[1..], values[1..]))
  }

  function ToMembers(r: AuditRecord): Members {
    Zip(RECORD_FIELDS, [Num(r.seqNo), Str(r.ts), Str(r.event), r.detail, Str(r.prevHash), Str(r.hash)])
  }

  /** The line without its newline. */
  function EncodeRecord(r: AuditRecord): string { Render(Obj(ToMembers(r))) }

  function Count(members: Members, key: string): nat {
    match members
    case End => 0
    case Member(k, _, next) => (if k == key then 1 else 0) + Count(next, key)
  }

  /** The value of a field that must occur exactly once; unknown fields are ignored. */
  function Field(members: Members, key: string): Option<Json> {
    match members
    case End => None
    case Member(k, value, next) =>
      if k == key then if Count(next, key) == 0 then Some(value) else None
      else Field(next, key)
  }

  /** A field of a value, when it is an object. */
  function FieldIn(v: Json, key: string): Option<Json> { if v.Obj? then Field(v.members, key) else None }

  function MakeRecord(
      seqNo: Json, ts: Json, event: Json, detail: Json, prevHash: Json, hash: Json): Option<AuditRecord>
  {
    if seqNo.Num? && seqNo.n >= 0 && ts.Str? && event.Str? && prevHash.Str? && hash.Str? then
      Some(AuditRecord(seqNo.n, ts.s, event.s, detail, prevHash.s, hash.s))
    else None
  }

  /** A derived deserializer takes an object with the six fields, or an array of them in order. */
  function FromJson(v: Json): Option<AuditRecord> {
    match v
    case Obj(m) =>
      (match (Field(m, "seq"), Field(m, "ts"), Field(m, "event"), Field(m, "detail"),
              Field(m, "prev_hash"), Field(m, "hash"))
       case (Some(seqNo), Some(ts), Some(event), Some(detail), Some(prev), Some(hash)) =>
         MakeRecord(seqNo, ts, event, detail, prev, hash)
       case _ => None)
    case Arr(Cons(seqNo, Cons(ts, Cons(event, Cons(detail, Cons(prev, Cons(hash, Nil))))))) =>
      MakeRecord(seqNo, ts, event, detail, prev, hash)
    case _ => None
  }

  function ParseRecord(line: string): Option<AuditRecord> {
    match ParseDocument(line)
    case Some(v) => FromJson(v)
    case None => None
  }

  /**
   What the log needs of its line parser: it reads back what was written, even after JSON white space but
   after no other blank; a record cut short is not a record, nor is one, whole or cut, with another glued
   to its end.
   */
  ghost predicate Faithful(parse: LineParser) {
    && (forall r :: parse(EncodeRecord(r)) == Some(r))
    && (forall u, r :: Blank(u) ==> parse(u + EncodeRecord(r)) == if AllWs(u) then Some(r) else None)
    && (forall r, p :: p < EncodeRecord(r) ==> parse(p) == None)
    && (forall r, r', p :: p != "" && p < EncodeRecord(r) ==> parse(p + EncodeRecord(r')) == None)
    && (forall u, r {:trigger parse(u + EncodeRecord(r))} :: parse(u).Some? ==> parse(u + EncodeRecord(r)) == None)
  }

  lemma {:induction false} CountAbsent(keys: seq<string>, values: seq<Json>, key: string)
    requires |keys| == |values| && key !in keys
    ensures Count(Zip(keys, values), key) == 0
  {
    if keys != [] {
      assert keys[0] in keys && forall k :: k in keys[1..] ==> k in keys;
      CountAbsent(keys[1..], values[1..], key);
    }
  }

  lemma {:induction false} FieldAt(keys: seq<string>, values: seq<Json>, i: nat)
    requires |keys| == |values| && i < |keys|
    requires forall j, k :: 0 <= j < k < |keys| ==> keys[j] != keys[k]
    ensures Field(Zip(keys, values), keys[i]) == Some(values[i])
  {
    if i == 0 {
      CountAbsent(keys[1..], values[1..], keys[0]);
    } else {
      FieldAt(keys[1..], values[1..], i - 1);
    }
  }

  lemma FromToMembers(r: AuditRecord)
    ensures FromJson(Obj(ToMembers(r))) == Some(r)
  {
    var ks := RECORD_FIELDS;
    var vs := [Num(r.seqNo), Str(r.ts), Str(r.event), r.detail, Str(r.prevHash), Str(r.hash)];
    assert forall j, k :: 0 <= j < k < 6 ==> |ks[j]| != |ks[k]|;
    FieldAt(ks, vs, 0);
    FieldAt(ks, vs, 1);
    FieldAt(ks, vs, 2);
    FieldAt(ks, vs, 3);
    FieldAt(ks, vs, 4);
    FieldAt(ks, vs, 5);
  }

  lemma BlankRecord(u: string, r: AuditRecord)
    requires Blank(u)
    ensures ParseRecord(u + EncodeRecord(r)) == if AllWs(u) then Some(r) else None
  {
    BlankFront(u, EncodeRecord(r));
    WholeObject(ToMembers(r));
    FromToMembers(r);
  }

  lemma CutRecord(r: AuditRecord, p: string, r': AuditRecord)
    requires p != "" && p < EncodeRecord(r)
    ensures ParseRecord(p + EncodeRecord(r')) == None
  {
    var m := ToMembers(r');
    FirstField(r');
    CutThenObjectFails(ToMembers(r), p, m.value, m.next);
  }

  lemma FirstField(r: AuditRecord)
    ensures ToMembers(r).Member? && ToMembers(r).key == "seq"
  {
  }

  /** The concrete parser is faithful. */
  lemma ParseRecordFaithful()
    ensures Faithful(ParseRecord)
  {
    forall r: AuditRecord ensures ParseRecord(EncodeRecord(r)) == Some(r) {
      RoundTrip(Obj(ToMembers(r)), "");
      assert EncodeRecord(r) + "" == EncodeRecord(r);
      FromToMembers(r);
    }
    forall u: string, r: AuditRecord | Blank(u)
      ensures ParseRecord(u + EncodeRecord(r)) == if AllWs(u) then Some(r) else None
    {
      BlankRecord(u, r);
    }
    forall r: AuditRecord, p: string | p < EncodeRecord(r) ensures ParseRecord(p) == None {
      CutObjectFails(ToMembers(r), p);
    }
    forall r: AuditRecord, r': AuditRecord, p: string | p != "" && p < EncodeRecord(r)
      ensures ParseRecord(p + EncodeRecord(r')) == None
    {
      CutRecord(r, p, r');
    }
    forall u: string, r: AuditRecord | ParseRecord(u).Some? ensures ParseRecord(u + EncodeRecord(r)) == None {
      DoubledObjectFails(u, ToMembers(r));
    }
  }

  lemma {:induction false} ZipFrom(keys: seq<string>, values: seq<Json>, i: nat)
    requires |keys| == |values| && i < |keys|
    ensures Zip(keys[i..], values[i..]) == Member(keys[i], values[i], Zip(keys[i + 1..], values[i + 1..]))
  {
    assert keys[i..][1..] == keys[i + 1..] && values[i..][1..] == values[i + 1..];
  }

  lemma ZipSix(ks: seq<string>, vs: seq<Json>)
    requires |ks| == |vs| == 6
    ensures var last := Member(ks[4], vs[4], Member(ks[5], vs[5], End));
            Zip(ks, vs) == Member(ks[0], vs[0], Member(ks[1], vs[1], Member(ks[2], vs[2], Member(ks[3], vs[3], last))))
  {
    assert ks[0..] == ks && vs[0..] == vs && ks[6..] == [] && vs[6..] == [];
    ZipFrom(ks, vs, 0);
    ZipFrom(ks, vs, 1);
    ZipFrom(ks, vs, 2);
    ZipFrom(ks, vs, 3);
    ZipFrom(ks, vs, 4);
    ZipFrom(ks, vs, 5);
  }

  /** The line of a record is the compact text of its six fields, in this order and under these names. */
  lemma RecordText(r: AuditRecord)
    ensures var hashes := Member("prev_hash", Str(r.prevHash), Member("hash", Str(r.hash), End));
            var what := Member("event", Str(r.event), Member("detail", r.detail, hashes));
            && EncodeRecord(r) == Render(Obj(Member("seq", Num(r.seqNo), Member("ts", Str(r.ts), what))))
            && ParseDocument(EncodeRecord(r)) == Some(Obj(Member("seq", Num(r.seqNo), Member("ts", Str(r.ts), what))))
  {
    WholeObject(ToMembers(r));
    ZipSix(RECORD_FIELDS, [Num(r.seqNo), Str(r.ts), Str(r.event), r.detail, Str(r.prevHash), Str(r.hash)]);
  }

  lemma EncodedShape(r: AuditRecord)
    ensures Printable(EncodeRecord(r))
    ensures EncodeRecord(r) != "" && EncodeRecord(r)[0] == '{'
    ensures EncodeRecord(r)[|EncodeRecord(r)| - 1] == '}'
  {
    RenderPrintable(Obj(ToMembers(r)));
    MembersEnd(ToMembers(r).next);
  }

  lemma {:induction false} MembersEnd(m: Members)
    ensures RenderMembers(m) != "" && RenderMembers(m)[|RenderMembers(m)| - 1] == '}'
  {
    if m.Member? {
      MembersEnd(m.next);
    }
  }
}
