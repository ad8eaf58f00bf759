/** What becomes of a JSON text that was cut short when another text is written right after the cut. */
module JsonCut {
  import opened Text
  import opened Json

  /** A text that starts a record: an object whose first name begins with a letter. */
  ghost predicate Opens(q: string) {
    && |q| > 2 && q[0] == '{' && q[1] == '"' && 'a' <= q[2] <= 'z'
    && ParseValue(q).Some? && ParseValue(q).value.rest == ""
  }

  /** No parser goes on from here: neither punctuation nor the end of the text. */
  predicate Stuck(rest: string) { rest != "" && ('a' <= rest[0] <= 'z' || rest[0] == '{') }

  predicate Spoiled<T>(r: Option<Read<T>>) { r.None? || Stuck(r.value.rest) }

  lemma StuckTails(rest: string)
    requires rest == "" || Stuck(rest)
    ensures ParseItemsTail(rest) == None && ParseMembersTail(rest) == None
  {
  }

  lemma PrefixOfConcat(p: string, a: string, b: string)
    requires p <= a + b
    ensures |p| <= |a| ==> p <= a
    ensures |p| >= |a| ==> p == a + p[|a|..] && p[|a|..] <= b
  {
  }

  /** A proper prefix ends within the first part, or within the second. */
  lemma CutWhere(p: string, a: string, b: string)
    requires p < a + b
    ensures |p| < |a| ==> p < a
    ensures |p| >= |a| ==> p == a + p[|a|..] && p[|a|..] < b
  {
    PrefixOfConcat(p, a, b);
  }

  lemma Reassociate(a: string, p: string, q: string)
    ensures (a + p) + q == a + (p + q)
  {
  }

  // --- strings and numbers ----------------------------------------------------------------------

  /** An escape cut short is never an escape again. */
  lemma CutEscape(c: char, p: string, q: string)
    requires p != "" && p < EscapeChar(c) && Opens(q)
    ensures ParseChar(p + q) == None
  {
    var e := EscapeChar(c);
    assert |e| > 1 && e[0] == '\\' && p[0] == '\\';
    assert forall i :: 0 <= i < |p| ==> (p + q)[i] == e[i];
    assert (p + q)[|p|] == '{' && !IsHex('{');
    if |p| > 1 {
      assert e[1] == 'u';
      assert (p + q)[2..][|p| - 2] == '{';
    }
  }

  /** A string cut before its closing quote is closed by the first quote that follows, in front of a letter. */
  lemma {:induction false} CutChars(t: string, p: string, q: string)
    requires p <= Escape(t) && Opens(q)
    ensures Spoiled(ParseChars(p + q))
  {
    if p == "" {
      assert p + q == q;
      OpenedString(q);
    } else {
      var e := EscapeChar(t[0]);
      PrefixOfConcat(p, e, Escape(t[1..]));
      if |p| < |e| {
        CutEscape(t[0], p, q);
        assert (p + q)[0] == e[0];
      } else {
        CutChars(t[1..], p[|e|..], q);
        Reassociate(e, p[|e|..], q);
        StillSpoiled(t[0], p[|e|..] + q);
      }
    }
  }

  lemma OpenedString(q: string)
    requires Opens(q)
    ensures Spoiled(ParseChars(q))
  {
    assert ParseChar(q) == Some(Read('{', q[1..])) && q[1..][1..] == q[2..];
    assert ParseChars(q[1..]) == Some(Read("", q[2..]));
  }

  lemma StillSpoiled(c: char, s: string)
    requires Spoiled(ParseChars(s))
    ensures Spoiled(ParseChars(EscapeChar(c) + s))
  {
    ParseCharOfEscape(c, s);
    assert (EscapeChar(c) + s)[0] == EscapeChar(c)[0];
  }

  /** The name or text whose quoted form was cut. */
  lemma CutQuoted(t: string, p: string, q: string)
    requires p != "" && p < Quote(t) && Opens(q)
    ensures (p + q)[0] == '"' && Spoiled(ParseChars((p + q)[1..]))
  {
    assert Quote(t)[1..] == Escape(t) + "\"";
    assert p[1..] <= Escape(t);
    assert (p + q)[1..] == p[1..] + q;
    CutChars(t, p[1..], q);
  }

  lemma CutNat(d: string, q: string)
    requires AllDigits(d) && Opens(q)
    ensures Spoiled(ParseNat(d + q))
  {
    DigitRunOf(d, q);
    assert (d + q)[|d|..] == q;
  }

  lemma CutInt(n: int, p: string, q: string)
    requires p != "" && p < RenderInt(n) && Opens(q)
    ensures Spoiled(ParseInt(p + q))
  {
    if n < 0 {
      CutMinus(Decimal(-n), p, q);
    } else {
      CutDigits(Decimal(n), p, q);
    }
  }

  lemma CutMinus(d: string, p: string, q: string)
    requires AllDigits(d) && p != "" && p < "-" + d && Opens(q)
    ensures Spoiled(ParseInt(p + q))
  {
    var d' := p[1..];
    assert p[0] == '-' && d' <= d && forall i :: 0 <= i < |d'| ==> d'[i] == d[i];
    assert (p + q)[0] == '-' && (p + q)[1..] == d' + q;
    CutNat(d', q);
  }

  lemma CutDigits(d: string, p: string, q: string)
    requires AllDigits(d) && p != "" && p < d && Opens(q)
    ensures Spoiled(ParseInt(p + q))
  {
    assert forall i :: 0 <= i < |p| ==> p[i] == d[i];
    assert (p + q)[0] == p[0] && IsDigit(p[0]);
    CutNat(p, q);
  }

  // --- values -----------------------------------------------------------------------------------

  lemma CutWord(word: string, p: string, q: string)
    requires p != "" && p < word && word in {"null", "true", "false"} && Opens(q)
    ensures ParseValue(p + q) == None
  {
    var s := p + q;
    assert s[0] == word[0] && s[|p|] == '{' && SkipWs(s) == s;
    assert forall i :: 0 <= i < |p| ==> s[i] == word[i];
    assert !("null" <= s) && !("true" <= s) && !("false" <= s);
  }

  /** A value cut short is no value; a number or string may still be read, but nothing can follow it. */
  lemma {:induction false} CutValue(v: Json, p: string, q: string)
    requires p != "" && p < Render(v) && Opens(q)
    ensures Spoiled(ParseValue(p + q))
    decreases v, 4
  {
    match v
    case Null => CutWord("null", p, q);
    case Bool(b) => CutWord(if b then "true" else "false", p, q);
    case Num(n) => CutNumber(n, p, q);
    case Str(t) => CutText(t, p, q);
    case Arr(items) => CutArr(items, p, q);
    case Obj(members) => CutObj(members, p, q);
  }

  lemma CutNumber(n: JsonInt, p: string, q: string)
    requires p != "" && p < RenderInt(n) && Opens(q)
    ensures Spoiled(ParseValue(p + q))
  {
    RenderStarts(Num(n));
    assert (p + q)[0] == RenderInt(n)[0] && SkipWs(p + q) == p + q;
    CutInt(n, p, q);
  }

  lemma CutText(t: string, p: string, q: string)
    requires p != "" && p < Quote(t) && Opens(q)
    ensures Spoiled(ParseValue(p + q))
  {
    CutQuoted(t, p, q);
    assert SkipWs(p + q) == p + q;
  }

  lemma {:induction false} CutArr(items: Items, p: string, q: string)
    requires p != "" && p < Render(Arr(items)) && Opens(q)
    ensures ParseValue(p + q) == None
    decreases items, 2
  {
    assert Render(Arr(items))[0] == '[';
    match items
    case Nil =>
      CutItemNothing(q);
      assert p[1..] == "" && p[1..] + q == q;
      OpenBracket(p, q);
    case Cons(head, tail) =>
      FirstItem(head, tail);
      CutItem(head, tail, p[1..], q);
      CutFirstItem(head, tail, p[1..], q);
      OpenBracket(p, q);
  }

  lemma OpenBracket(p: string, q: string)
    requires p != "" && p[0] == '[' && ParseItems(p[1..] + q) == None
    ensures ParseValue(p + q) == None
  {
    var s := p + q;
    assert s[0] == '[' && SkipWs(s) == s && s[1..] == p[1..] + q;
  }

  lemma FirstItem(head: Json, tail: Items)
    ensures Render(Arr(Cons(head, tail)))[1..] == Render(head) + RenderItems(tail)
  {
  }

  lemma CutFirstItem(head: Json, tail: Items, p: string, q: string)
    requires p < Render(head) + RenderItems(tail) && Opens(q)
    ensures ParseItems(p + q) == ParseItem(p + q)
  {
    RenderStarts(head);
    assert (p + q)[0] in {Render(head)[0], '{'} && SkipWs(p + q) == p + q;
  }

  lemma CutItemNothing(q: string)
    requires Opens(q)
    ensures ParseItem(q) == None && ParseItems(q) == None
  {
    assert SkipWs(q) == q;
    StuckTails("");
  }

  lemma {:induction false} CutItem(head: Json, tail: Items, p: string, q: string)
    requires p < Render(head) + RenderItems(tail) && Opens(q)
    ensures ParseItem(p + q) == None
    decreases Cons(head, tail), 1
  {
    CutWhere(p, Render(head), RenderItems(tail));
    if p == "" {
      CutItemNothing(q);
      assert p + q == q;
    } else if |p| < |Render(head)| {
      CutValue(head, p, q);
      ItemStuck(p + q);
    } else {
      CutBehindItem(head, tail, p[|Render(head)|..], q);
      Reassociate(Render(head), p[|Render(head)|..], q);
    }
  }

  lemma {:induction false} CutBehindItem(head: Json, tail: Items, p: string, q: string)
    requires p < RenderItems(tail) && Opens(q)
    ensures ParseItem(Render(head) + (p + q)) == None
    decreases Cons(head, tail), 0
  {
    CutItemsTail(tail, p, q);
    RoundTrip(head, p + q);
    ItemStops(Render(head) + (p + q));
  }

  lemma ItemStuck(s: string)
    requires Spoiled(ParseValue(s))
    ensures ParseItem(s) == None
  {
    if ParseValue(s).Some? {
      StuckTails(ParseValue(s).value.rest);
    }
  }

  lemma ItemStops(s: string)
    requires ParseValue(s).Some? && ParseItemsTail(ParseValue(s).value.rest) == None
    ensures ParseItem(s) == None
  {
  }

  lemma {:induction false} CutItemsTail(items: Items, p: string, q: string)
    requires p < RenderItems(items) && Opens(q)
    ensures ParseItemsTail(p + q) == None && !ContinuesNumber(p + q)
    decreases items, 2
  {
    var s := p + q;
    if p == "" {
      assert s == q;
      StuckTails(q);
    } else {
      assert s[0] == RenderItems(items)[0] && s[1..] == p[1..] + q;
      match items
      case Nil =>
      case Cons(head, tail) =>
        CommaFirst(head, tail);
        CutItem(head, tail, p[1..], q);
    }
  }

  lemma CommaFirst(head: Json, tail: Items)
    ensures RenderItems(Cons(head, tail))[1..] == Render(head) + RenderItems(tail)
  {
  }

  lemma {:induction false} CutObj(members: Members, p: string, q: string)
    requires p != "" && p < Render(Obj(members)) && Opens(q)
    ensures ParseValue(p + q) == None
    decreases members, 3
  {
    assert Render(Obj(members))[0] == '{';
    match members
    case End =>
      CutMemberNothing(q);
      assert p[1..] == "" && p[1..] + q == q;
      OpenBrace(p, q);
    case Member(key, value, next) =>
      FirstMember(key, value, next);
      CutMember(key, value, next, p[1..], q);
      CutFirstMember(key, ":" + (Render(value) + RenderMembers(next)), p[1..], q);
      OpenBrace(p, q);
  }

  lemma OpenBrace(p: string, q: string)
    requires p != "" && p[0] == '{' && ParseMembers(p[1..] + q) == None
    ensures ParseValue(p + q) == None
  {
    var s := p + q;
    assert s[0] == '{' && SkipWs(s) == s && s[1..] == p[1..] + q;
  }

  lemma FirstMember(key: string, value: Json, next: Members)
    ensures Render(Obj(Member(key, value, next)))[1..] == Quote(key) + (":" + (Render(value) + RenderMembers(next)))
  {
  }

  lemma CutFirstMember(key: string, after: string, p: string, q: string)
    requires p < Quote(key) + after && Opens(q)
    ensures ParseMembers(p + q) == ParseMember(p + q)
  {
    assert (p + q)[0] in {'"', '{'} && SkipWs(p + q) == p + q;
  }

  lemma CutMemberNothing(q: string)
    requires Opens(q)
    ensures ParseMember(q) == None && ParseMembers(q) == None
  {
    assert SkipWs(q) == q && ParseKey(q) == None;
  }

  lemma {:induction false} CutMember(key: string, value: Json, next: Members, p: string, q: string)
    requires p < Quote(key) + (":" + (Render(value) + RenderMembers(next))) && Opens(q)
    ensures ParseMember(p + q) == None
    decreases Member(key, value, next), 2
  {
    var after := ":" + (Render(value) + RenderMembers(next));
    PrefixOfConcat(p, Quote(key), after);
    if |p| <= |Quote(key)| {
      CutKey(key, p, q);
    } else {
      var p' := p[|Quote(key)|..][1..];
      assert p[|Quote(key)|..] == ":" + p' && p' < Render(value) + RenderMembers(next);
      assert p + q == Quote(key) + (":" + (p' + q));
      KeyRoundTrip(key, p' + q);
      CutMemberValue(key, value, next, p', q);
    }
  }

  lemma CutKey(key: string, p: string, q: string)
    requires p <= Quote(key) && Opens(q)
    ensures ParseKey(p + q) == None
  {
    var s := p + q;
    if p == "" {
      assert s == q;
    } else if p == Quote(key) {
      ParseQuoted(key, q);
      assert SkipWs(q) == q;
    } else {
      CutQuoted(key, p, q);
    }
    assert SkipWs(s) == s;
  }

  /** After the colon: the value and the members behind it cannot both be read. */
  lemma {:induction false} CutMemberValue(key: string, value: Json, next: Members, p: string, q: string)
    requires p < Render(value) + RenderMembers(next) && Opens(q)
    ensures ValueStops(p + q)
    decreases Member(key, value, next), 1
  {
    CutWhere(p, Render(value), RenderMembers(next));
    if p == "" {
      assert p + q == q;
      StuckTails("");
    } else if |p| < |Render(value)| {
      CutValue(value, p, q);
      StuckStops(p + q);
    } else {
      CutBehindValue(key, value, next, p[|Render(value)|..], q);
      Reassociate(Render(value), p[|Render(value)|..], q);
    }
  }

  lemma {:induction false} CutBehindValue(key: string, value: Json, next: Members, p: string, q: string)
    requires p < RenderMembers(next) && Opens(q)
    ensures ValueStops(Render(value) + (p + q))
    decreases Member(key, value, next), 0
  {
    CutMembersTail(next, p, q);
    RoundTrip(value, p + q);
  }

  predicate ValueStops(s: string) {
    ParseValue(s).Some? ==> ParseMembersTail(ParseValue(s).value.rest) == None
  }

  lemma StuckStops(s: string)
    requires Spoiled(ParseValue(s))
    ensures ValueStops(s)
  {
    if ParseValue(s).Some? {
      StuckTails(ParseValue(s).value.rest);
    }
  }

  lemma {:induction false} CutMembersTail(members: Members, p: string, q: string)
    requires p < RenderMembers(members) && Opens(q)
    ensures ParseMembersTail(p + q) == None && !ContinuesNumber(p + q)
    decreases members, 3
  {
    var s := p + q;
    if p == "" {
      assert s == q;
      StuckTails(q);
    } else {
      assert s[0] == RenderMembers(members)[0] && s[1..] == p[1..] + q;
      match members
      case End =>
      case Member(key, value, next) =>
        assert RenderMembers(members)[1..] == Quote(key) + (":" + (Render(value) + RenderMembers(next)));
        CutMember(key, value, next, p[1..], q);
    }
  }

  /** Blanks in front of a text are skipped when they are JSON white space, and otherwise fatal. */
  lemma {:induction false} BlankFront(u: string, e: string)
    requires Blank(u)
    ensures ParseDocument(u + e) == if AllWs(u) then ParseDocument(e) else None
  {
    if u == "" {
      assert u + e == e;
    } else {
      assert u + e == [u[0]] + (u[1..] + e);
      if IsWs(u[0]) {
        BlankFront(u[1..], e);
        SkipOneBlank(u[0], u[1..] + e);
        AllWsCons(u);
      } else {
        NotAValue(u[0], u[1..] + e);
      }
    }
  }

  lemma AllWsCons(u: string)
    requires u != "" && IsWs(u[0])
    ensures AllWs(u) <==> AllWs(u[1..])
  {
    assert forall i :: 1 <= i < |u| ==> u[i] == u[1..][i - 1];
  }

  lemma WholeObject(members: Members)
    ensures ParseDocument(Render(Obj(members))) == Some(Obj(members))
  {
    RoundTrip(Obj(members), "");
    assert Render(Obj(members)) + "" == Render(Obj(members));
  }

  predicate AllWs(s: string) { forall i :: 0 <= i < |s| ==> IsWs(s[i]) }

  lemma SkipOneBlank(c: char, s: string)
    requires IsWs(c)
    ensures ParseDocument([c] + s) == ParseDocument(s)
  {
    assert ([c] + s)[1..] == s;
  }

  lemma NotAValue(c: char, s: string)
    requires IsSpace(c) && !IsWs(c)
    ensures ParseDocument([c] + s) == None
  {
    assert ([c] + s)[0] == c;
  }

  /** An object cut short is not mended by writing another one after it. */
  lemma CutThenObjectFails(members: Members, p: string, v: Json, next: Members)
    requires p != "" && p < Render(Obj(members))
    ensures ParseDocument(p + Render(Obj(Member("seq", v, next)))) == None
  {
    OpensRecord(v, next);
    CutObj(members, p, Render(Obj(Member("seq", v, next))));
  }

  lemma NameFirst(name: string)
    requires name != "" && 'a' <= name[0] <= 'z'
    ensures |Quote(name)| > 2 && Quote(name)[0] == '"' && Quote(name)[1] == name[0]
  {
    assert EscapeChar(name[0]) == [name[0]];
  }

  lemma OpensRecord(v: Json, next: Members)
    ensures Opens(Render(Obj(Member("seq", v, next))))
  {
    var q := Render(Obj(Member("seq", v, next)));
    RoundTrip(Obj(Member("seq", v, next)), "");
    assert q + "" == q;
    NameFirst("seq");
    assert q[1..] == Quote("seq") + (":" + (Render(v) + RenderMembers(next)));
    assert q[1] == Quote("seq")[0] && q[2] == Quote("seq")[1];
  }
}
