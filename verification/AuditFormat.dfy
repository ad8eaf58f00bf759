/** The JSON line format of the log is framed. */
module AuditFormat {
  import opened Text
  import opened Json
  import opened JsonCut
  import opened AuditRecords
  import opened AuditChain
  import opened AuditFile
  import opened ByteLines
  import Utf8

  /** One line as `open` and `verify` take it: UTF-8, skipped when blank, else parsed. */
  function ReadLine(parse: LineParser, raw: seq<byte>): Line {
    match Utf8.Decode(raw)
    case None => Corrupt("io error: stream did not contain valid UTF-8")
    case Some(text) =>
      if Blank(text) then Skipped
      else match parse(text)
        case None => Corrupt("audit log error: corrupt audit line")
        case Some(r) => Entry(r)
  }

  function LineBytes(r: AuditRecord): seq<byte> { Utf8.Encode(EncodeRecord(r)) }

  function JsonLines(parse: LineParser): Format { Format(raw => ReadLine(parse, raw), LineBytes) }

  lemma LineBytesShape(r: AuditRecord)
    ensures 10 !in LineBytes(r) && LineBytes(r) != [] && StripCr(LineBytes(r)) == LineBytes(r)
  {
    var text := EncodeRecord(r);
    EncodedShape(r);
    Utf8.NewlineFree(text);
    var init := text[..|text| - 1];
    assert text == init + ['}'];
    Utf8.LastByte(init, '}');
  }

  lemma ReadsBack(parse: LineParser, r: AuditRecord)
    requires Faithful(parse)
    ensures ReadLine(parse, LineBytes(r)) == Entry(r)
  {
    Utf8.DecodeOfEncode(EncodeRecord(r));
    EncodedShape(r);
    assert !IsSpace(EncodeRecord(r)[0]);
  }

  /** A line cut anywhere but at its ends is corrupt, even when the cut splits a character. */
  lemma TornLine(parse: LineParser, r: AuditRecord, k: nat)
    requires Faithful(parse) && 0 < k < |LineBytes(r)|
    ensures ReadLine(parse, LineBytes(r)[..k]).Corrupt?
  {
    var text, torn := EncodeRecord(r), LineBytes(r)[..k];
    EncodedShape(r);
    match Utf8.Decode(torn)
    case None =>
    case Some(t) =>
      assert LineBytes(r) == torn + LineBytes(r)[k..];
      Utf8.PrefixReflects(t, LineBytes(r)[k..], text);
      assert t != text && t != "";
      assert t[0] == '{' && !IsSpace(t[0]);
  }

  lemma DecodeConcat(raw: seq<byte>, text: string)
    requires Utf8.Decode(raw).Some?
    ensures Utf8.Decode(raw + Utf8.Encode(text)) == Some(Utf8.Decode(raw).value + text)
  {
    var t := Utf8.Decode(raw).value;
    Utf8.EncodeConcat(t, text);
    Utf8.DecodeOfEncode(t + text);
  }

  lemma GluedLine(parse: LineParser, raw: seq<byte>, r: AuditRecord)
    requires Faithful(parse) && ReadLine(parse, raw).Entry?
    ensures ReadLine(parse, raw + LineBytes(r)).Corrupt?
  {
    var text := Utf8.Decode(raw).value;
    DecodeConcat(raw, EncodeRecord(r));
    NotBlank(text, EncodeRecord(r));
    assert parse(text).Some?;
    assert parse(text + EncodeRecord(r)) == None;
  }

  lemma NotBlank(t: string, u: string)
    requires !Blank(t)
    ensures !Blank(t + u)
  {
    var i :| 0 <= i < |t| && !IsSpace(t[i]);
    assert (t + u)[i] == t[i];
  }

  /** A cut line with a record glued to it is corrupt, even when the cut splits a character. */
  lemma CutThenLine(parse: LineParser, r: AuditRecord, k: nat, r': AuditRecord)
    requires Faithful(parse) && 0 < k < |LineBytes(r)|
    ensures ReadLine(parse, LineBytes(r)[..k] + LineBytes(r')).Corrupt?
  {
    var text, text' := EncodeRecord(r), EncodeRecord(r');
    EncodedShape(r);
    EncodedShape(r');
    var t := Utf8.DecodeCut(text, k, text');
    if Utf8.Decode(LineBytes(r)[..k] + LineBytes(r')).Some? {
      assert t != "" && t != text;
      assert (t + text')[0] == '{' && !Blank(t + text');
      assert parse(t + text') == None;
    }
  }

  /** A record after a blank: the blank must be JSON white space. */
  lemma BlankThenLine(parse: LineParser, raw: seq<byte>, r: AuditRecord)
    requires Faithful(parse) && ReadLine(parse, raw).Skipped?
    ensures ReadLine(parse, raw + LineBytes(r)).Corrupt? <==> !WhiteBytes(raw)
  {
    var u := Utf8.Decode(raw).value;
    DecodeConcat(raw, EncodeRecord(r));
    EncodedShape(r);
    assert (u + EncodeRecord(r))[|u|] == '{' && !Blank(u + EncodeRecord(r));
    WhiteText(u);
  }

  /** Space, tab, newline and carriage return. */
  predicate WhiteBytes(b: seq<byte>) { forall i :: 0 <= i < |b| ==> b[i] in {32, 9, 10, 13} }

  lemma {:induction false} WhiteText(u: string)
    ensures AllWs(u) <==> WhiteBytes(Utf8.Encode(u))
  {
    if u != "" {
      var e, rest := Utf8.EncodeChar(u[0]), Utf8.Encode(u[1..]);
      WhiteText(u[1..]);
      WhiteChar(u[0]);
      assert WhiteBytes(e + rest) <==> WhiteBytes(e) && WhiteBytes(rest) by {
        assert forall i :: 0 <= i < |e| ==> (e + rest)[i] == e[i];
        assert forall i :: 0 <= i < |rest| ==> (e + rest)[|e| + i] == rest[i];
      }
      assert AllWs(u) <==> IsWs(u[0]) && AllWs(u[1..]) by {
        assert forall i :: 1 <= i < |u| ==> u[i] == u[1..][i - 1];
      }
    }
  }

  lemma WhiteChar(c: char)
    ensures IsWs(c) <==> WhiteBytes(Utf8.EncodeChar(c))
  {
    if c as int < 0x80 {
      assert Utf8.EncodeChar(c)[0] == c as int;
    } else {
      assert Utf8.EncodeChar(c)[0] >= 0x80;
    }
  }

  /** A faithful line parser makes a framed format. */
  lemma JsonLinesFramed(parse: LineParser)
    requires Faithful(parse)
    ensures Framed(JsonLines(parse))
  {
    forall r
      ensures 10 !in LineBytes(r) && LineBytes(r) != [] && StripCr(LineBytes(r)) == LineBytes(r)
    {
      LineBytesShape(r);
    }
    forall r ensures ReadLine(parse, LineBytes(r)) == Entry(r) {
      ReadsBack(parse, r);
    }
    forall r, k | 0 < k < |LineBytes(r)| ensures ReadLine(parse, LineBytes(r)[..k]).Corrupt? {
      TornLine(parse, r, k);
    }
    forall r, r', k | 0 < k < |LineBytes(r)| ensures ReadLine(parse, LineBytes(r)[..k] + LineBytes(r')).Corrupt? {
      CutThenLine(parse, r, k, r');
    }
    forall raw, r | ReadLine(parse, raw).Entry? ensures ReadLine(parse, raw + LineBytes(r)).Corrupt? {
      GluedLine(parse, raw, r);
    }
  }

  /** The log as the agent writes it is framed, so everything proved of framed formats holds of it. */
  lemma LogFormatFramed()
    ensures Framed(JsonLines(ParseRecord))
  {
    ParseRecordFaithful();
    JsonLinesFramed(ParseRecord);
  }

  /**
   An append to a readable file leaves it readable if and only if the file was terminated, or nothing but
   JSON white space followed its last newline. In particular a record that lost its newline is glued to
   the next one, and both are lost.
   */
  lemma AppendNeedsNewline(b: seq<byte>, r: AuditRecord)
    requires Open(JsonLines(ParseRecord), b).Ok?
    ensures Open(JsonLines(ParseRecord), b + Frame(JsonLines(ParseRecord), r)).Ok?
        <==> Terminated(b) || WhiteBytes(b[Whole(b)..])
  {
    var f := JsonLines(ParseRecord);
    LogFormatFramed();
    ParseRecordFaithful();
    AppendGlues(f, b, r);
    if !Terminated(b) {
      var rest := b[Whole(b)..];
      LastLineReadable(f, b);
      if ReadLine(ParseRecord, rest).Skipped? {
        BlankThenLine(ParseRecord, rest, r);
      } else {
        GluedLine(ParseRecord, rest, r);
        EntryNotWhite(ParseRecord, rest);
      }
    }
  }

  lemma EntryNotWhite(parse: LineParser, raw: seq<byte>)
    requires ReadLine(parse, raw).Entry?
    ensures !WhiteBytes(raw)
  {
    var u := Utf8.Decode(raw).value;
    WhiteText(u);
    assert AllWs(u) ==> Blank(u);
  }

  /** For instance: a file of one record without its newline opens, and the next append makes it unreadable. */
  lemma LostNewline(r: AuditRecord, next: AuditRecord)
    ensures var f := JsonLines(ParseRecord);
            && Open(f, f.line(r)) == Ok(Head(r.seqNo, r.hash))
            && Open(f, f.line(r) + Frame(f, next)).Err?
  {
    var f := JsonLines(ParseRecord);
    LogFormatFramed();
    SingleLine(f.line(r));
    OneRecord(f, f.line(r));
    OpenMeaning(f, f.line(r));
    AppendGlues(f, f.line(r), next);
    assert f.line(r)[Whole(f.line(r))..] == f.line(r) by {
      NoNewline(f.line(r));
    }
  }

  lemma {:induction false} NoNewline(b: seq<byte>)
    requires 10 !in b
    ensures Whole(b) == 0
  {
    if b != [] {
      assert b[|b| - 1] in b && 10 !in b[..|b| - 1];
      NoNewline(b[..|b| - 1]);
    }
  }
}
