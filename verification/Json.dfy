/**
 The JSON the agent writes and reads back: compact rendering as serde_json produces it, and a parser for
 RFC 8259 texts whose numbers are 64-bit integers. Object members keep the order in which they are listed.
 */
module Json {
  import opened Text

  type JsonInt = n: int | -0x8000_0000_0000_0000 <= n < 0x1_0000_0000_0000_0000

  datatype Json =
    | Null
    | Bool(b: bool)
    | Num(n: JsonInt)
    | Str(s: string)
    | Arr(items: Items)
    | Obj(members: Members)

  datatype Items = Nil | Cons(head: Json, tail: Items)

  datatype Members = End | Member(key: string, value: Json, next: Members)

  /** What a parser took from the front of its input, and what is left. */
  datatype Read<+T> = Read(value: T, rest: string)

  // --- rendering --------------------------------------------------------------------------------

  function HexDigit(d: nat): (c: char)
    requires d < 16
    ensures IsHex(c) && HexValue(c) == d
  {
    if d < 10 then ('0' as int + d) as char else ('a' as int + d - 10) as char
  }

  predicate IsHex(c: char) { '0' <= c <= '9' || 'a' <= c <= 'f' || 'A' <= c <= 'F' }

  function HexValue(c: char): (d: nat)
    requires IsHex(c)
    ensures d < 16
  {
    if '0' <= c <= '9' then c as int - '0' as int
    else if 'a' <= c <= 'f' then c as int - 'a' as int + 10
    else c as int - 'A' as int + 10
  }

  function EscapeChar(c: char): (e: string)
    ensures |e| > 0 && e[0] != '"' && forall i :: 0 <= i < |e| ==> e[i] >= ' '
  {
    var n := c as int;
    if c == '"' then "\\\""
    else if c == '\\' then "\\\\"
    else if n == 8 then "\\b"
    else if n == 9 then "\\t"
    else if n == 10 then "\\n"
    else if n == 12 then "\\f"
    else if n == 13 then "\\r"
    else if n < 32 then ['\\', 'u', '0', '0', HexDigit(n / 16), HexDigit(n % 16)]
    else [c]
  }

  function Escape(s: string): string {
    if s == "" then "" else EscapeChar(s[0]) + Escape(s[1..])
  }

  function Quote(s: string): string { "\"" + Escape(s) + "\"" }

  function RenderInt(n: int): string {
    if n < 0 then "-" + Decimal(-n) else Decimal(n)
  }

  function Render(v: Json): string {
    match v
    case Null => "null"
    case Bool(b) => if b then "true" else "false"
    case Num(n) => RenderInt(n)
    case Str(s) => Quote(s)
    case Arr(Nil) => "[]"
    case Arr(Cons(head, tail)) => "[" + Render(head) + RenderItems(tail)
    case Obj(End) => "{}"
    case Obj(Member(key, value, next)) => "{" + (Quote(key) + (":" + (Render(value) + RenderMembers(next))))
  }

  function RenderItems(items: Items): string {
    match items
    case Nil => "]"
    case Cons(head, tail) => "," + Render(head) + RenderItems(tail)
  }

  function RenderMembers(members: Members): string {
    match members
    case End => "}"
    case Member(key, value, next) => "," + (Quote(key) + (":" + (Render(value) + RenderMembers(next))))
  }

  // --- parsing ----------------------------------------------------------------------------------

  predicate IsWs(c: char) { c == ' ' || c == '\t' || c == '\n' || c == '\r' }

  function SkipWs(s: string): (r: string)
    ensures |r| <= |s| && (r == "" || !IsWs(r[0]))
  {
    if s != "" && IsWs(s[0]) then SkipWs(s[1..]) else s
  }

  /** The code unit of four hexadecimal digits at the front of `s`. */
  function CodeUnit(s: string): Option<nat> {
    if |s| >= 4 && IsHex(s[0]) && IsHex(s[1]) && IsHex(s[2]) && IsHex(s[3]) then
      Some(((HexValue(s[0]) * 16 + HexValue(s[1])) * 16 + HexValue(s[2])) * 16 + HexValue(s[3]))
    else None
  }

  /** One character of a string body, undoing its escape (section 7 of RFC 8259). */
  function ParseChar(s: string): (r: Option<Read<char>>)
    ensures r.Some? ==> |r.value.rest| < |s|
  {
    if s == "" || s[0] < ' ' then None
    else if s[0] != '\\' then Some(Read(s[0], s[1..]))
    else if |s| < 2 then None
    else if s[1] == '"' || s[1] == '\\' || s[1] == '/' then Some(Read(s[1], s[2..]))
    else if s[1] == 'b' then Some(Read(8 as char, s[2..]))
    else if s[1] == 'f' then Some(Read(12 as char, s[2..]))
    else if s[1] == 'n' then Some(Read('\n', s[2..]))
    else if s[1] == 'r' then Some(Read('\r', s[2..]))
    else if s[1] == 't' then Some(Read('\t', s[2..]))
    else if s[1] == 'u' then
      match CodeUnit(s[2..])
      case None => None
      case Some(n) =>
        if n < 0xD800 || 0xE000 <= n < 0x10000 then Some(Read(n as char, s[6..]))
        else if 0xD800 <= n < 0xDC00 && |s| >= 8 && s[6] == '\\' && s[7] == 'u' then
          match CodeUnit(s[8..])
          case Some(m) =>
            if 0xDC00 <= m < 0xE000 then
              Some(Read((0x10000 + (n - 0xD800) * 0x400 + (m - 0xDC00)) as char, s[12..]))
            else None
          case None => None
        else None
    else None
  }

  /** A string body up to and including its closing quote. */
  function ParseChars(s: string): (r: Option<Read<string>>)
    ensures r.Some? ==> |r.value.rest| < |s|
    decreases |s|
  {
    if s != "" && s[0] == '"' then Some(Read("", s[1..]))
    else match ParseChar(s)
      case None => None
      case Some(Read(c, rest)) =>
        match ParseChars(rest)
        case None => None
        case Some(Read(text, rest')) => Some(Read([c] + text, rest'))
  }

  predicate ContinuesNumber(s: string) {
    s != "" && (IsDigit(s[0]) || s[0] == '.' || s[0] == 'e' || s[0] == 'E')
  }

  function ParseNat(s: string): (r: Option<Read<nat>>)
    ensures r.Some? ==> |r.value.rest| < |s|
  {
    var k := DigitRun(s);
    if k == 0 || (k > 1 && s[0] == '0') || ContinuesNumber(s[k..]) then None
    else Some(Read(Number(s[..k]), s[k..]))
  }

  function ParseInt(s: string): (r: Option<Read<JsonInt>>)
    ensures r.Some? ==> |r.value.rest| < |s|
  {
    if s != "" && s[0] == '-' then
      match ParseNat(s[1..])
      case Some(Read(n, rest)) =>
        if 0 < n <= 0x8000_0000_0000_0000 then var m: JsonInt := 0 - n; Some(Read(m, rest)) else None
      case None => None
    else
      match ParseNat(s)
      case Some(Read(n, rest)) => if n < 0x1_0000_0000_0000_0000 then Some(Read(n, rest)) else None
      case None => None
  }

  function ParseValue(s: string): (r: Option<Read<Json>>)
    ensures r.Some? ==> |r.value.rest| < |s|
    decreases |s|, 0
  {
    var w := SkipWs(s);
    if w == "" then None
    else if "null" <= w then Some(Read(Null, w[4..]))
    else if "true" <= w then Some(Read(Bool(true), w[4..]))
    else if "false" <= w then Some(Read(Bool(false), w[5..]))
    else if w[0] == '"' then
      match ParseChars(w[1..])
      case Some(Read(text, rest)) => Some(Read(Str(text), rest))
      case None => None
    else if w[0] == '[' then
      match ParseItems(w[1..])
      case Some(Read(items, rest)) => Some(Read(Arr(items), rest))
      case None => None
    else if w[0] == '{' then
      match ParseMembers(w[1..])
      case Some(Read(members, rest)) => Some(Read(Obj(members), rest))
      case None => None
    else
      match ParseInt(w)
      case Some(Read(n, rest)) => Some(Read(Num(n), rest))
      case None => None
  }

  /** The items after `[`. */
  function ParseItems(s: string): (r: Option<Read<Items>>)
    ensures r.Some? ==> |r.value.rest| < |s|
    decreases |s|, 2
  {
    var w := SkipWs(s);
    if w != "" && w[0] == ']' then Some(Read(Nil, w[1..])) else ParseItem(s)
  }

  function ParseItem(s: string): (r: Option<Read<Items>>)
    ensures r.Some? ==> |r.value.rest| < |s|
    decreases |s|, 1
  {
    match ParseValue(s)
    case None => None
    case Some(Read(head, rest)) =>
      match ParseItemsTail(rest)
      case None => None
      case Some(Read(tail, rest')) => Some(Read(Cons(head, tail), rest'))
  }

  /** What follows an item: the closing bracket, or a comma and another item. */
  function ParseItemsTail(s: string): (r: Option<Read<Items>>)
    ensures r.Some? ==> |r.value.rest| < |s|
    decreases |s|, 2
  {
    var w := SkipWs(s);
    if w != "" && w[0] == ']' then Some(Read(Nil, w[1..]))
    else if w != "" && w[0] == ',' then ParseItem(w[1..])
    else None
  }

  /** The members after `{`. */
  function ParseMembers(s: string): (r: Option<Read<Members>>)
    ensures r.Some? ==> |r.value.rest| < |s|
    decreases |s|, 2
  {
    var w := SkipWs(s);
    if w != "" && w[0] == '}' then Some(Read(End, w[1..])) else ParseMember(s)
  }

  function ParseMember(s: string): (r: Option<Read<Members>>)
    ensures r.Some? ==> |r.value.rest| < |s|
    decreases |s|, 1
  {
    match ParseKey(s)
    case None => None
    case Some(Read(key, rest)) =>
      match ParseValue(rest)
      case None => None
      case Some(Read(value, rest')) =>
        match ParseMembersTail(rest')
        case None => None
        case Some(Read(next, rest'')) => Some(Read(Member(key, value, next), rest''))
  }

  /** A quoted member name and its colon. */
  function ParseKey(s: string): (r: Option<Read<string>>)
    ensures r.Some? ==> |r.value.rest| < |s|
  {
    var w := SkipWs(s);
    if w == "" || w[0] != '"' then None
    else match ParseChars(w[1..])
      case None => None
      case Some(Read(key, rest)) =>
        var colon := SkipWs(rest);
        if colon != "" && colon[0] == ':' then Some(Read(key, colon[1..])) else None
  }

  /** What follows a member: the closing brace, or a comma and another member. */
  function ParseMembersTail(s: string): (r: Option<Read<Members>>)
    ensures r.Some? ==> |r.value.rest| < |s|
    decreases |s|, 2
  {
    var w := SkipWs(s);
    if w != "" && w[0] == '}' then Some(Read(End, w[1..]))
    else if w != "" && w[0] == ',' then ParseMember(w[1..])
    else None
  }

  /** A whole text: one value with nothing but white space after it. */
  function ParseDocument(s: string): Option<Json> {
    match ParseValue(s)
    case Some(Read(v, rest)) => if SkipWs(rest) == "" then Some(v) else None
    case None => None
  }

  // --- reading back what was rendered -----------------------------------------------------------

  lemma ParseCharOfEscape(c: char, rest: string)
    ensures ParseChar(EscapeChar(c) + rest) == Some(Read(c, rest))
  {
    var e := EscapeChar(c);
    var s := e + rest;
    assert s[|e|..] == rest && forall i :: 0 <= i < |e| ==> s[i] == e[i];
    if e[0] == '\\' && e[1] == 'u' {
      assert forall i :: 0 <= i < 4 ==> s[2..][i] == e[i + 2];
    }
  }

  lemma ParseCharsStep(e: string, c: char, more: string, t: string, rest: string)
    requires e != "" && e[0] != '"' && ParseChar(e + more) == Some(Read(c, more))
    requires ParseChars(more) == Some(Read(t, rest))
    ensures ParseChars(e + more) == Some(Read([c] + t, rest))
  {
    assert (e + more)[0] == e[0];
  }

  lemma {:induction false} ParseCharsOfEscape(t: string, rest: string)
    ensures ParseChars(Escape(t) + "\"" + rest) == Some(Read(t, rest))
  {
    if t == "" {
      assert (Escape(t) + "\"" + rest)[1..] == rest;
    } else {
      var more := Escape(t[1..]) + "\"" + rest;
      var e := EscapeChar(t[0]);
      ParseCharOfEscape(t[0], more);
      ParseCharsOfEscape(t[1..], rest);
      ParseCharsStep(e, t[0], more, t[1..], rest);
      Behind(e, Escape(t[1..]), rest);
      assert [t[0]] + t[1..] == t;
    }
  }

  lemma Behind(e: string, body: string, rest: string)
    ensures e + body + "\"" + rest == e + (body + "\"" + rest)
  {
  }

  lemma ParseQuoted(t: string, rest: string)
    ensures (Quote(t) + rest)[0] == '"'
    ensures ParseChars((Quote(t) + rest)[1..]) == Some(Read(t, rest))
  {
    ParseCharsOfEscape(t, rest);
    Unquote(Escape(t), rest);
  }

  lemma Unquote(body: string, rest: string)
    ensures ("\"" + body + "\"" + rest)[0] == '"' && ("\"" + body + "\"" + rest)[1..] == body + "\"" + rest
  {
  }

  lemma ParseNatOfDecimal(n: nat, rest: string)
    requires !ContinuesNumber(rest)
    ensures ParseNat(Decimal(n) + rest) == Some(Read(n, rest))
  {
    var d := Decimal(n);
    DigitRunOf(d, rest);
    assert (d + rest)[..|d|] == d && (d + rest)[|d|..] == rest;
    if |d| > 1 {
      assert d[0] != '0';
    }
  }

  lemma ParseIntOfDecimal(d: string, n: JsonInt, rest: string)
    requires n >= 0 && d == Decimal(n) && !ContinuesNumber(rest)
    ensures ParseInt(d + rest) == Some(Read(n, rest))
  {
    ParseNatOfDecimal(n, rest);
    assert (d + rest)[0] == d[0] && IsDigit(d[0]);
  }

  lemma ParseIntOfMinus(d: string, n: JsonInt, rest: string)
    requires n < 0 && d == Decimal(-n) && !ContinuesNumber(rest)
    ensures ParseInt("-" + d + rest) == Some(Read(n, rest))
  {
    ParseNatOfDecimal(-n, rest);
    assert ("-" + d + rest)[0] == '-' && ("-" + d + rest)[1..] == d + rest;
  }

  lemma ParseIntOfRender(n: JsonInt, rest: string)
    requires !ContinuesNumber(rest)
    ensures ParseInt(RenderInt(n) + rest) == Some(Read(n, rest))
  {
    if n < 0 {
      ParseIntOfMinus(Decimal(-n), n, rest);
    } else {
      ParseIntOfDecimal(Decimal(n), n, rest);
    }
  }

  /** A rendered value starts with a character that no parser skips. */
  lemma RenderStarts(v: Json)
    ensures Render(v) != "" && !IsWs(Render(v)[0])
    ensures Render(v)[0] !in [']', '}', ',', ':']
    ensures v.Num? <==> Render(v)[0] == '-' || IsDigit(Render(v)[0])
  {
    if v.Num? && v.n >= 0 {
      assert IsDigit(Decimal(v.n)[0]);
    }
  }

  // What the first character of a text makes of it.

  lemma ValueOfInt(s: string, n: JsonInt, rest: string)
    requires s != "" && (s[0] == '-' || IsDigit(s[0])) && ParseInt(s) == Some(Read(n, rest))
    ensures ParseValue(s) == Some(Read(Num(n), rest))
  {
    assert SkipWs(s) == s;
    assert "null"[0] > s[0] && "true"[0] > s[0] && "false"[0] > s[0];
  }

  lemma ValueOfString(s: string, t: string, rest: string)
    requires s != "" && s[0] == '"' && ParseChars(s[1..]) == Some(Read(t, rest))
    ensures ParseValue(s) == Some(Read(Str(t), rest))
  {
    assert SkipWs(s) == s;
  }

  lemma ValueOfItems(s: string, items: Items, rest: string)
    requires s != "" && s[0] == '[' && ParseItems(s[1..]) == Some(Read(items, rest))
    ensures ParseValue(s) == Some(Read(Arr(items), rest))
  {
    assert SkipWs(s) == s;
  }

  lemma ValueOfMembers(s: string, members: Members, rest: string)
    requires s != "" && s[0] == '{' && ParseMembers(s[1..]) == Some(Read(members, rest))
    ensures ParseValue(s) == Some(Read(Obj(members), rest))
  {
    assert SkipWs(s) == s;
  }

  lemma {:induction false} RoundTrip(v: Json, rest: string)
    requires v.Num? ==> !ContinuesNumber(rest)
    ensures ParseValue(Render(v) + rest) == Some(Read(v, rest))
    decreases v, 2
  {
    RenderStarts(v);
    match v
    case Null => RoundTripWord(v, rest);
    case Bool(_) => RoundTripWord(v, rest);
    case Num(n) =>
      ParseIntOfRender(n, rest);
      ValueOfInt(RenderInt(n) + rest, n, rest);
    case Str(t) =>
      ParseQuoted(t, rest);
      ValueOfString(Quote(t) + rest, t, rest);
    case Arr(items) =>
      RoundTripArr(items, rest);
      ValueOfItems(Render(v) + rest, items, rest);
    case Obj(members) =>
      RoundTripObj(members, rest);
      ValueOfMembers(Render(v) + rest, members, rest);
  }

  lemma RoundTripWord(v: Json, rest: string)
    requires v.Null? || v.Bool?
    ensures ParseValue(Render(v) + rest) == Some(Read(v, rest))
  {
    var s := Render(v) + rest;
    assert SkipWs(s) == s;
    match v
    case Null => assert s[4..] == rest;
    case Bool(b) => assert b ==> s[4..] == rest; assert !b ==> s[5..] == rest;
  }

  lemma {:induction false} RoundTripArr(items: Items, rest: string)
    ensures ParseItems((Render(Arr(items)) + rest)[1..]) == Some(Read(items, rest))
    decreases items, 1
  {
    match items
    case Nil => assert (Render(Arr(items)) + rest)[1..] == "]" + rest && ("]" + rest)[1..] == rest;
    case Cons(head, tail) =>
      Bracketed("[", Render(head), RenderItems(tail), rest);
      FirstItemReads(head, RenderItems(tail) + rest);
      RoundTripItems(head, tail, rest);
  }

  lemma Bracketed(front: string, a: string, b: string, rest: string)
    requires |front| == 1
    ensures (front + a + b + rest)[1..] == a + (b + rest)
  {
  }

  /** Items that start with a rendered value are not the end of the array. */
  lemma FirstItemReads(head: Json, rest: string)
    ensures ParseItems(Render(head) + rest) == ParseItem(Render(head) + rest)
  {
    RenderStarts(head);
    assert (Render(head) + rest)[0] == Render(head)[0];
  }

  lemma {:induction false} RoundTripObj(members: Members, rest: string)
    ensures ParseMembers((Render(Obj(members)) + rest)[1..]) == Some(Read(members, rest))
    decreases members, 1
  {
    match members
    case End => assert (Render(Obj(members)) + rest)[1..] == "}" + rest && ("}" + rest)[1..] == rest;
    case Member(key, value, next) =>
      ObjectBody(key, value, next, rest);
      RoundTripMembers(key, value, next, rest);
      FirstMemberReads(key, ":" + (Render(value) + (RenderMembers(next) + rest)));
  }

  lemma ObjectBody(key: string, value: Json, next: Members, rest: string)
    ensures (Render(Obj(Member(key, value, next))) + rest)[1..]
         == Quote(key) + (":" + (Render(value) + (RenderMembers(next) + rest)))
  {
    Regroup("{", Quote(key), ":", Render(value), RenderMembers(next), rest);
  }

  lemma MemberBody(key: string, value: Json, next: Members, rest: string)
    ensures (RenderMembers(Member(key, value, next)) + rest)[0] == ','
    ensures (RenderMembers(Member(key, value, next)) + rest)[1..]
         == Quote(key) + (":" + (Render(value) + (RenderMembers(next) + rest)))
  {
    Regroup(",", Quote(key), ":", Render(value), RenderMembers(next), rest);
  }

  /** Members that start with a quoted name are not the end of the object. */
  lemma FirstMemberReads(key: string, rest: string)
    ensures ParseMembers(Quote(key) + rest) == ParseMember(Quote(key) + rest)
  {
    assert (Quote(key) + rest)[0] == '"';
  }

  lemma {:induction false} RoundTripItems(head: Json, tail: Items, rest: string)
    ensures ParseItem(Render(head) + (RenderItems(tail) + rest)) == Some(Read(Cons(head, tail), rest))
    decreases Cons(head, tail), 0
  {
    RoundTripItemsTail(tail, rest);
    RoundTrip(head, RenderItems(tail) + rest);
  }

  lemma {:induction false} RoundTripItemsTail(items: Items, rest: string)
    ensures ParseItemsTail(RenderItems(items) + rest) == Some(Read(items, rest))
    ensures !ContinuesNumber(RenderItems(items) + rest)
    decreases items, 1
  {
    var s := RenderItems(items) + rest;
    match items
    case Nil => assert s[1..] == rest;
    case Cons(head, tail) =>
      assert s[1..] == Render(head) + (RenderItems(tail) + rest);
      RoundTripItems(head, tail, rest);
  }

  lemma Regroup(front: string, a: string, b: string, c: string, d: string, rest: string)
    requires |front| == 1
    ensures (front + (a + (b + (c + d))) + rest)[0] == front[0]
    ensures (front + (a + (b + (c + d))) + rest)[1..] == a + (b + (c + (d + rest)))
  {
  }

  lemma KeyRoundTrip(key: string, rest: string)
    ensures ParseKey(Quote(key) + (":" + rest)) == Some(Read(key, rest))
  {
    var colon := ":" + rest;
    ParseQuoted(key, colon);
    assert SkipWs(Quote(key) + colon) == Quote(key) + colon;
    assert colon[1..] == rest;
  }

  lemma {:induction false} RoundTripMembers(key: string, value: Json, next: Members, rest: string)
    ensures ParseMember(Quote(key) + (":" + (Render(value) + (RenderMembers(next) + rest))))
         == Some(Read(Member(key, value, next), rest))
    decreases Member(key, value, next), 0
  {
    var after := RenderMembers(next) + rest;
    KeyRoundTrip(key, Render(value) + after);
    RoundTripMembersTail(next, rest);
    RoundTrip(value, after);
  }

  lemma {:induction false} RoundTripMembersTail(members: Members, rest: string)
    ensures ParseMembersTail(RenderMembers(members) + rest) == Some(Read(members, rest))
    ensures !ContinuesNumber(RenderMembers(members) + rest)
    decreases members, 1
  {
    match members
    case End => assert (RenderMembers(members) + rest)[1..] == rest;
    case Member(key, value, next) =>
      MemberBody(key, value, next, rest);
      RoundTripMembers(key, value, next, rest);
      TailOfMember(RenderMembers(members) + rest);
  }

  lemma TailOfMember(s: string)
    requires s != "" && s[0] == ','
    ensures ParseMembersTail(s) == ParseMember(s[1..])
  {
    assert SkipWs(s) == s;
  }

  lemma RenderInjective(v: Json, w: Json)
    requires Render(v) == Render(w)
    ensures v == w
  {
    RoundTrip(v, "");
    RoundTrip(w, "");
    assert Render(v) + "" == Render(w) + "";
  }

  // --- a text cut short -------------------------------------------------------------------------

  lemma {:induction false} SkipWsExtends(s: string, t: string)
    requires SkipWs(s) != ""
    ensures SkipWs(s + t) == SkipWs(s) + t
  {
    if IsWs(s[0]) {
      assert (s + t)[1..] == s[1..] + t;
      SkipWsExtends(s[1..], t);
    }
  }

  lemma ParseCharExtends(s: string, t: string)
    requires ParseChar(s).Some?
    ensures ParseChar(s + t) == Some(Read(ParseChar(s).value.value, ParseChar(s).value.rest + t))
  {
    DropExtends(s, t, 1);
    if s[0] == '\\' {
      assert (s + t)[1] == s[1];
      DropExtends(s, t, 2);
      if s[1] == 'u' {
        ParseUnicodeExtends(s, t);
      }
    }
  }

  lemma DropExtends(s: string, t: string, k: nat)
    requires k <= |s|
    ensures (s + t)[k..] == s[k..] + t
    ensures s != "" ==> (s + t)[0] == s[0]
  {
  }

  lemma CodeUnitExtends(s: string, t: string)
    requires CodeUnit(s).Some?
    ensures CodeUnit(s + t) == CodeUnit(s)
  {
    assert forall i :: 0 <= i < 4 ==> (s + t)[i] == s[i];
  }

  lemma ParseUnicodeExtends(s: string, t: string)
    requires ParseChar(s).Some? && s[0] == '\\' && s[1] == 'u'
    ensures ParseChar(s + t) == Some(Read(ParseChar(s).value.value, ParseChar(s).value.rest + t))
  {
    assert (s + t)[0] == s[0] && (s + t)[1] == s[1];
    DropExtends(s, t, 2);
    CodeUnitExtends(s[2..], t);
    DropExtends(s, t, 6);
    var n := CodeUnit(s[2..]).value;
    if 0xD800 <= n < 0xDC00 {
      assert (s + t)[6] == s[6] && (s + t)[7] == s[7];
      DropExtends(s, t, 8);
      CodeUnitExtends(s[8..], t);
      DropExtends(s, t, 12);
    }
  }

  lemma {:induction false} ParseCharsExtends(s: string, t: string)
    requires ParseChars(s).Some?
    ensures ParseChars(s + t) == Some(Read(ParseChars(s).value.value, ParseChars(s).value.rest + t))
    decreases |s|
  {
    if s[0] == '"' {
      assert (s + t)[1..] == s[1..] + t;
    } else {
      ParseCharExtends(s, t);
      ParseCharsExtends(ParseChar(s).value.rest, t);
    }
  }

  lemma ParseKeyExtends(s: string, t: string)
    requires ParseKey(s).Some?
    ensures ParseKey(s + t) == Some(Read(ParseKey(s).value.value, ParseKey(s).value.rest + t))
  {
    var w := SkipWs(s);
    SkipWsExtends(s, t);
    assert (w + t)[1..] == w[1..] + t;
    ParseCharsExtends(w[1..], t);
    var rest := ParseChars(w[1..]).value.rest;
    SkipWsExtends(rest, t);
    assert (SkipWs(rest) + t)[1..] == SkipWs(rest)[1..] + t;
  }

  lemma ParseNatExtends(s: string, t: string)
    requires ParseNat(s).Some? && ParseNat(s).value.rest != ""
    ensures ParseNat(s + t) == Some(Read(ParseNat(s).value.value, ParseNat(s).value.rest + t))
  {
    var k := DigitRun(s);
    DigitRunOf(s[..k], s[k..] + t);
    assert s + t == s[..k] + (s[k..] + t);
    assert (s + t)[..k] == s[..k] && (s + t)[k..] == s[k..] + t;
  }

  lemma ParseIntExtends(s: string, t: string)
    requires ParseInt(s).Some? && ParseInt(s).value.rest != ""
    ensures ParseInt(s + t) == Some(Read(ParseInt(s).value.value, ParseInt(s).value.rest + t))
  {
    if s[0] == '-' {
      assert (s + t)[1..] == s[1..] + t;
      ParseNatExtends(s[1..], t);
    } else {
      ParseNatExtends(s, t);
    }
  }

  /** Every value but a number ends at a character of its own, so more input leaves it as it was. */
  lemma {:induction false} ParseValueExtends(s: string, t: string)
    requires ParseValue(s).Some?
    requires ParseValue(s).value.value.Num? ==> ParseValue(s).value.rest != ""
    ensures ParseValue(s + t) == Some(Read(ParseValue(s).value.value, ParseValue(s).value.rest + t))
    decreases |s|, 0
  {
    var w := SkipWs(s);
    SkipWsExtends(s, t);
    assert (w + t)[0] == w[0] && (w + t)[1..] == w[1..] + t;
    if "null" <= w || "true" <= w {
      assert (w + t)[4..] == w[4..] + t && (w + t)[..4] == w[..4];
    } else if "false" <= w {
      assert (w + t)[5..] == w[5..] + t && (w + t)[..5] == w[..5];
    } else if w[0] == '"' {
      ParseCharsExtends(w[1..], t);
    } else if w[0] == '[' {
      ParseItemsExtends(w[1..], t);
    } else if w[0] == '{' {
      ParseMembersExtends(w[1..], t);
    } else {
      ParseIntExtends(w, t);
    }
  }

  lemma {:induction false} ParseItemsExtends(s: string, t: string)
    requires ParseItems(s).Some?
    ensures ParseItems(s + t) == Some(Read(ParseItems(s).value.value, ParseItems(s).value.rest + t))
    decreases |s|, 2
  {
    var w := SkipWs(s);
    assert w == "" ==> ParseValue(s) == None;
    SkipWsExtends(s, t);
    assert (w + t)[0] == w[0] && (w + t)[1..] == w[1..] + t;
    if w[0] != ']' {
      ParseItemExtends(s, t);
    }
  }

  lemma {:induction false} ParseItemExtends(s: string, t: string)
    requires ParseItem(s).Some?
    ensures ParseItem(s + t) == Some(Read(ParseItem(s).value.value, ParseItem(s).value.rest + t))
    decreases |s|, 1
  {
    var Read(head, rest) := ParseValue(s).value;
    ParseValueExtends(s, t);
    var w := SkipWs(rest);
    SkipWsExtends(rest, t);
    assert (w + t)[0] == w[0] && (w + t)[1..] == w[1..] + t;
    if w[0] == ',' {
      ParseItemExtends(w[1..], t);
    }
  }

  lemma {:induction false} ParseMembersExtends(s: string, t: string)
    requires ParseMembers(s).Some?
    ensures ParseMembers(s + t) == Some(Read(ParseMembers(s).value.value, ParseMembers(s).value.rest + t))
    decreases |s|, 2
  {
    var w := SkipWs(s);
    assert w == "" ==> ParseKey(s) == None;
    SkipWsExtends(s, t);
    assert (w + t)[0] == w[0] && (w + t)[1..] == w[1..] + t;
    if w[0] != '}' {
      ParseMemberExtends(s, t);
    }
  }

  lemma {:induction false} ParseMemberExtends(s: string, t: string)
    requires ParseMember(s).Some?
    ensures ParseMember(s + t) == Some(Read(ParseMember(s).value.value, ParseMember(s).value.rest + t))
    decreases |s|, 1
  {
    var Read(key, colon) := ParseKey(s).value;
    var Read(value, rest) := ParseValue(colon).value;
    ParseKeyExtends(s, t);
    ParseValueExtends(colon, t);
    ParseMembersTailExtends(rest, t);
    var Read(next, after) := ParseMembersTail(rest).value;
    MemberReads(s, key, colon, value, rest, next, after);
    MemberReads(s + t, key, colon + t, value, rest + t, next, after + t);
  }

  lemma MemberReads(
      s: string, key: string, colon: string, value: Json, rest: string, next: Members, rest': string)
    requires ParseKey(s) == Some(Read(key, colon)) && ParseValue(colon) == Some(Read(value, rest))
    requires ParseMembersTail(rest) == Some(Read(next, rest'))
    ensures ParseMember(s) == Some(Read(Member(key, value, next), rest'))
  {
  }

  lemma {:induction false} ParseMembersTailExtends(s: string, t: string)
    requires ParseMembersTail(s).Some?
    ensures ParseMembersTail(s + t)
         == Some(Read(ParseMembersTail(s).value.value, ParseMembersTail(s).value.rest + t))
    decreases |s|, 2
  {
    var w := SkipWs(s);
    SkipWsExtends(s, t);
    assert (w + t)[0] == w[0] && (w + t)[1..] == w[1..] + t;
    if w[0] == ',' {
      ParseMemberExtends(w[1..], t);
    }
  }

  /** No proper prefix of a rendered object is a JSON text. */
  lemma CutObjectFails(members: Members, p: string)
    requires p < Render(Obj(members))
    ensures ParseDocument(p) == None
  {
    var whole := Render(Obj(members));
    var t := whole[|p|..];
    if ParseValue(p).Some? {
      assert p != "" && p[0] == whole[0] == '{';
      assert SkipWs(p) == p;
      assert ParseValue(p).value.value.Obj?;
      ParseValueExtends(p, t);
      assert p + t == whole == whole + "";
      RoundTrip(Obj(members), "");
    }
  }

  /** A text that is not a bare number, followed by a rendered object, is not a JSON text. */
  lemma DoubledObjectFails(u: string, members: Members)
    requires ParseDocument(u).Some? && !ParseDocument(u).value.Num?
    ensures ParseDocument(u + Render(Obj(members))) == None
  {
    var e := Render(Obj(members));
    var rest := ParseValue(u).value.rest;
    ParseValueExtends(u, e);
    SkipWsBlank(rest, e);
  }

  lemma {:induction false} SkipWsBlank(s: string, t: string)
    requires SkipWs(s) == ""
    ensures SkipWs(s + t) == SkipWs(t)
  {
    if s == "" {
      assert s + t == t;
    } else {
      assert (s + t)[1..] == s[1..] + t;
      SkipWsBlank(s[1..], t);
    }
  }

  // --- one line ---------------------------------------------------------------------------------

  predicate Printable(s: string) { forall i :: 0 <= i < |s| ==> s[i] >= ' ' }

  lemma {:induction false} EscapePrintable(s: string)
    ensures Printable(Escape(s)) && Printable(Quote(s))
  {
    if s != "" {
      EscapePrintable(s[1..]);
    }
  }

  /** Compact text holds no control character, hence no newline. */
  lemma {:induction false} RenderPrintable(v: Json)
    ensures Printable(Render(v))
  {
    match v
    case Null =>
    case Bool(_) =>
    case Num(n) => IntPrintable(n);
    case Str(s) => EscapePrintable(s);
    case Arr(Nil) =>
    case Arr(Cons(head, tail)) => RenderPrintable(head); ItemsPrintable(tail);
    case Obj(End) =>
    case Obj(Member(key, value, next)) => MemberPrintable(key, value, next);
  }

  lemma IntPrintable(n: int)
    ensures Printable(RenderInt(n))
  {
    var d := Decimal(if n < 0 then -n else n);
    assert forall i :: 0 <= i < |d| ==> IsDigit(d[i]);
  }

  lemma {:induction false} ItemsPrintable(items: Items)
    ensures Printable(RenderItems(items))
  {
    match items
    case Nil =>
    case Cons(head, tail) => RenderPrintable(head); ItemsPrintable(tail);
  }

  lemma {:induction false} MemberPrintable(key: string, value: Json, next: Members)
    ensures Printable(Quote(key) + (":" + (Render(value) + RenderMembers(next))))
    decreases Member(key, value, next), 0
  {
    EscapePrintable(key);
    RenderPrintable(value);
    MembersPrintable(next);
  }

  lemma {:induction false} MembersPrintable(members: Members)
    ensures Printable(RenderMembers(members))
    decreases members, 1
  {
    match members
    case End =>
    case Member(key, value, next) => MemberPrintable(key, value, next);
  }

  // --- samples ------------------------------------------------------------------------------------

  /** The escapes of the compact form: named ones, lower-case hexadecimal for other controls, nothing else. */
  lemma EscapeSamples(c: char)
    ensures Quote("") == "\"\""
    ensures EscapeChar('"') == "\\\"" && EscapeChar('\\') == "\\\\" && EscapeChar('\n') == "\\n"
    ensures EscapeChar('\r') == "\\r" && EscapeChar('\t') == "\\t"
    ensures EscapeChar('\U{8}') == "\\b" && EscapeChar('\U{C}') == "\\f" && EscapeChar('\U{1F}') == "\\u001f"
    ensures c as int >= 32 && c != '"' && c != '\\' ==> EscapeChar(c) == [c]
  {
  }

  lemma RenderSamples()
    ensures Render(Null) == "null" && Render(Bool(true)) == "true" && Render(Bool(false)) == "false"
    ensures Render(Obj(Member("a", Null, Member("b", Arr(Cons(Null, Cons(Bool(true), Nil))), End))))
         == "{" + ("\"a\"" + (":" + ("null"
            + ("," + ("\"b\"" + (":" + (("[" + "null" + ("," + "true" + "]")) + "}")))))))
    ensures Render(Num(-7)) == "-7" && Render(Obj(End)) == "{}" && Render(Arr(Nil)) == "[]"
  {
    assert Decimal(7) == "7";
    assert Quote("a") == "\"a\"" && Quote("b") == "\"b\"" by {
      assert Escape("a") == EscapeChar('a') + Escape("") && Escape("b") == EscapeChar('b') + Escape("");
    }
  }
}
