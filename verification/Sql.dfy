/** The SQL that the database connector sends: its text, its grammar, and what it does to tables. */
module Sql {
  import opened Text

  // --- tokens -----------------------------------------------------------------------------------

  datatype Token = Word(text: string) | Symbol(c: char) | Param(n: nat)

  predicate WordStart(c: char) { 'a' <= c <= 'z' || 'A' <= c <= 'Z' || c == '_' }

  /** The dot belongs to qualified table names. */
  predicate WordChar(c: char) { WordStart(c) || IsDigit(c) || c == '.' }

  predicate Punctuation(c: char) { c == ',' || c == '=' || c == '?' }

  /** The length of the longest prefix of word characters. */
  function WordRun(s: string): (n: nat)
    ensures n <= |s|
  {
    if s != "" && WordChar(s[0]) then 1 + WordRun(s[1..]) else 0
  }

  function Prepend(t: Token, ts: Option<seq<Token>>): Option<seq<Token>> {
    match ts case None => None case Some(rest) => Some([t] + rest)
  }

  function Lex(s: string): Option<seq<Token>>
    decreases |s|
  {
    if s == "" then Some([])
    else if s[0] == ' ' then Lex(s[1..])
    else if WordStart(s[0]) then
      var n := 1 + WordRun(s[1..]);
      Prepend(Word(s[..n]), Lex(s[n..]))
    else if s[0] == '$' then
      var n := DigitRun(s[1..]);
      if n == 0 then None else Prepend(Param(Number(s[1..][..n])), Lex(s[1..][n..]))
    else if Punctuation(s[0]) then Prepend(Symbol(s[0]), Lex(s[1..]))
    else None
  }

  predicate IsWord(s: string) { s != "" && WordStart(s[0]) && forall i :: 0 <= i < |s| ==> WordChar(s[i]) }

  predicate Proper(t: Token) {
    match t
    case Word(text) => IsWord(text)
    case Symbol(c) => Punctuation(c)
    case Param(_) => true
  }

  function Spelling(t: Token): string {
    match t
    case Word(text) => text
    case Symbol(c) => [c]
    case Param(n) => "$" + Decimal(n)
  }

  /** Tokens are laid out with a blank before each, but none before a comma. */
  function Laid(t: Token): string { if t == Symbol(',') then "," else " " + Spelling(t) }

  function Typeset(ts: seq<Token>): string {
    if ts == [] then "" else Laid(ts[0]) + Typeset(ts[1..])
  }

  predicate AllProper(ts: seq<Token>) { forall i :: 0 <= i < |ts| ==> Proper(ts[i]) }

  predicate Breaks(rest: string) { rest == "" || !WordChar(rest[0]) }

  lemma {:induction false} WordRunOf(w: string, rest: string)
    requires (forall i :: 0 <= i < |w| ==> WordChar(w[i])) && Breaks(rest)
    ensures WordRun(w + rest) == |w|
  {
    if w == "" {
      assert w + rest == rest;
    } else {
      assert (w + rest)[0] == w[0] && (w + rest)[1..] == w[1..] + rest;
      WordRunOf(w[1..], rest);
    }
  }

  lemma LexToken(t: Token, rest: string)
    requires Proper(t) && Breaks(rest)
    ensures Lex(Spelling(t) + rest) == Prepend(t, Lex(rest))
  {
    match t
    case Word(w) => LexWord(w, rest);
    case Param(n) => LexParam(n, rest);
    case Symbol(c) =>
      assert ([c] + rest)[0] == c && ([c] + rest)[1..] == rest;
  }

  lemma LexWord(w: string, rest: string)
    requires IsWord(w) && Breaks(rest)
    ensures Lex(w + rest) == Prepend(Word(w), Lex(rest))
  {
    var s := w + rest;
    assert s[0] == w[0] && s[1..] == w[1..] + rest;
    WordRunOf(w[1..], rest);
    assert s[..|w|] == w && s[|w|..] == rest;
  }

  lemma LexParam(n: nat, rest: string)
    requires Breaks(rest)
    ensures Lex("$" + Decimal(n) + rest) == Prepend(Param(n), Lex(rest))
  {
    var d := Decimal(n);
    var s := "$" + d + rest;
    assert s[0] == '$' && s[1..] == d + rest;
    DigitRunOf(d, rest);
    assert (d + rest)[..|d|] == d && (d + rest)[|d|..] == rest;
  }

  lemma LexBlank(s: string)
    ensures Lex(" " + s) == Lex(s)
  {
    assert (" " + s)[0] == ' ' && (" " + s)[1..] == s;
  }

  lemma LexLaid(t: Token, rest: string)
    requires Proper(t) && Breaks(rest)
    ensures Lex(Laid(t) + rest) == Prepend(t, Lex(rest)) && Breaks(Laid(t) + rest)
  {
    LexToken(t, rest);
    LexBlank(Spelling(t) + rest);
    BlankLayout(Spelling(t), rest);
  }

  lemma BlankLayout(s: string, rest: string)
    ensures " " + s + rest == " " + (s + rest)
  {
  }

  /** The layout can be read back. */
  lemma {:induction false} LexTypeset(ts: seq<Token>)
    requires AllProper(ts)
    ensures Lex(Typeset(ts)) == Some(ts) && Breaks(Typeset(ts))
  {
    if ts != [] {
      LexTypeset(ts[1..]);
      LexLaid(ts[0], Typeset(ts[1..]));
      assert ts == [ts[0]] + ts[1..];
    }
  }

  lemma {:induction false} TypesetConcat(a: seq<Token>, b: seq<Token>)
    ensures Typeset(a + b) == Typeset(a) + Typeset(b)
  {
    if a == [] {
      assert a + b == b;
    } else {
      assert (a + b)[0] == a[0] && (a + b)[1..] == a[1..] + b;
      TypesetConcat(a[1..], b);
    }
  }

  // --- grammar ----------------------------------------------------------------------------------

  datatype Slot = Numbered(n: nat) | Positional

  datatype Statement =
    | Select(columns: seq<string>, table: string)
    | Update(table: string, sets: seq<(string, Slot)>, key: string, keySlot: Slot)

  function UpperChar(c: char): char { if 'a' <= c <= 'z' then c - 'a' + 'A' else c }

  function Upper(s: string): (u: string)
    ensures |u| == |s| && forall i :: 0 <= i < |s| ==> u[i] == UpperChar(s[i])
  {
    seq(|s|, i requires 0 <= i < |s| => UpperChar(s[i]))
  }

  const KEYWORDS := {"SELECT", "FROM", "UPDATE", "SET", "WHERE"}

  /** A name that needs no quoting. */
  predicate Plain(name: string) { IsWord(name) && Upper(name) !in KEYWORDS }

  predicate Keyword(ts: seq<Token>, k: string) { ts != [] && ts[0].Word? && Upper(ts[0].text) == k }

  predicate Name(ts: seq<Token>) { ts != [] && ts[0].Word? && Upper(ts[0].text) !in KEYWORDS }

  predicate Sign(ts: seq<Token>, c: char) { ts != [] && ts[0] == Symbol(c) }

  function ParseSlot(ts: seq<Token>): Option<Slot> {
    if ts == [] then None
    else match ts[0]
      case Param(n) => Some(Numbered(n))
      case Symbol(c) => if c == '?' then Some(Positional) else None
      case Word(_) => None
  }

  /** `name = placeholder`. */
  function ParseEquation(ts: seq<Token>): Option<(string, Slot)> {
    if |ts| >= 3 && Name(ts) && ts[1] == Symbol('=') && ParseSlot(ts[2..]).Some?
    then Some((ts[0].text, ParseSlot(ts[2..]).value))
    else None
  }

  function ParseSets(ts: seq<Token>): (r: Option<(seq<(string, Slot)>, seq<Token>)>)
    ensures r.Some? ==> |r.value.1| < |ts|
    decreases |ts|
  {
    match ParseEquation(ts)
    case None => None
    case Some(e) =>
      if Sign(ts[3..], ',') then
        match ParseSets(ts[4..])
        case None => None
        case Some((es, rest)) => Some(([e] + es, rest))
      else Some(([e], ts[3..]))
  }

  function ParseColumns(ts: seq<Token>): (r: Option<(seq<string>, seq<Token>)>)
    ensures r.Some? ==> |r.value.1| < |ts|
    decreases |ts|
  {
    if !Name(ts) then None
    else if Sign(ts[1..], ',') then
      match ParseColumns(ts[2..])
      case None => None
      case Some((cs, rest)) => Some(([ts[0].text] + cs, rest))
    else Some(([ts[0].text], ts[1..]))
  }

  function ParseSelect(ts: seq<Token>): Option<Statement> {
    match ParseColumns(ts)
    case None => None
    case Some((columns, rest)) =>
      if Keyword(rest, "FROM") && |rest| == 2 && Name(rest[1..]) then Some(Select(columns, rest[1].text)) else None
  }

  function ParseUpdate(ts: seq<Token>): Option<Statement> {
    if !(Name(ts) && Keyword(ts[1..], "SET")) then None
    else
      match ParseSets(ts[2..])
      case None => None
      case Some((sets, rest)) =>
        if Keyword(rest, "WHERE") && |rest| == 4 && ParseEquation(rest[1..]).Some?
        then Some(Update(ts[0].text, sets, ParseEquation(rest[1..]).value.0, ParseEquation(rest[1..]).value.1))
        else None
  }

  function ParseTokens(ts: seq<Token>): Option<Statement> {
    if Keyword(ts, "SELECT") then ParseSelect(ts[1..])
    else if Keyword(ts, "UPDATE") then ParseUpdate(ts[1..])
    else None
  }

  function Parse(text: string): Option<Statement> {
    match Lex(text) case None => None case Some(ts) => ParseTokens(ts)
  }

  // --- text -------------------------------------------------------------------------------------

  function Join(parts: seq<string>): string {
    if parts == [] then "" else if |parts| == 1 then parts[0] else parts[0] + ", " + Join(parts[1..])
  }

  function Placeholder(slot: Slot): string {
    match slot case Numbered(n) => "$" + Decimal(n) case Positional => "?"
  }

  function Equation(e: (string, Slot)): string { e.0 + " = " + Placeholder(e.1) }

  function Equations(es: seq<(string, Slot)>): (r: seq<string>)
    ensures |r| == |es| && forall i :: 0 <= i < |es| ==> r[i] == Equation(es[i])
  {
    seq(|es|, i requires 0 <= i < |es| => Equation(es[i]))
  }

  function Render(st: Statement): string {
    match st
    case Select(columns, table) => "SELECT " + Join(columns) + " FROM " + table
    case Update(table, sets, key, slot) =>
      "UPDATE " + table + " SET " + Join(Equations(sets)) + " WHERE " + key + " = " + Placeholder(slot)
  }

  predicate AllPlain(names: seq<string>) { forall i :: 0 <= i < |names| ==> Plain(names[i]) }

  predicate PlainSets(es: seq<(string, Slot)>) { forall i :: 0 <= i < |es| ==> Plain(es[i].0) }

  predicate PlainStatement(st: Statement) {
    match st
    case Select(columns, table) => columns != [] && AllPlain(columns) && Plain(table)
    case Update(table, sets, key, _) => sets != [] && PlainSets(sets) && Plain(table) && Plain(key)
  }

  function SlotToken(slot: Slot): Token {
    match slot case Numbered(n) => Param(n) case Positional => Symbol('?')
  }

  function EquationTokens(e: (string, Slot)): seq<Token> { [Word(e.0), Symbol('='), SlotToken(e.1)] }

  function SetTokens(es: seq<(string, Slot)>): seq<Token> {
    if es == [] then []
    else if |es| == 1 then EquationTokens(es[0])
    else EquationTokens(es[0]) + ([Symbol(',')] + SetTokens(es[1..]))
  }

  function ColumnTokens(cs: seq<string>): seq<Token> {
    if cs == [] then []
    else if |cs| == 1 then [Word(cs[0])]
    else [Word(cs[0]), Symbol(',')] + ColumnTokens(cs[1..])
  }

  function Tokens(st: Statement): seq<Token> {
    match st
    case Select(columns, table) => [Word("SELECT")] + (ColumnTokens(columns) + [Word("FROM"), Word(table)])
    case Update(table, sets, key, slot) =>
      [Word("UPDATE"), Word(table), Word("SET")] + (SetTokens(sets) + ([Word("WHERE")] + EquationTokens((key, slot))))
  }

  lemma KeywordsUpper()
    ensures Upper("SELECT") == "SELECT" && Upper("FROM") == "FROM" && Upper("UPDATE") == "UPDATE"
    ensures Upper("SET") == "SET" && Upper("WHERE") == "WHERE"
    ensures IsWord("SELECT") && IsWord("FROM") && IsWord("UPDATE") && IsWord("SET") && IsWord("WHERE")
  {
  }

  // --- the text is the tokens, laid out ---------------------------------------------------------

  lemma TypesetCons(t: Token, ts: seq<Token>)
    ensures Typeset([t] + ts) == Laid(t) + Typeset(ts)
  {
    assert ([t] + ts)[1..] == ts;
  }

  lemma TypesetOne(t: Token)
    ensures Typeset([t]) == Laid(t)
  {
    assert [t] + [] == [t];
    TypesetCons(t, []);
  }

  lemma TypesetEquation(e: (string, Slot))
    ensures Typeset(EquationTokens(e)) == " " + Equation(e)
  {
    LaidSlot(e.1);
    TypesetThree(e.0, SlotToken(e.1), Placeholder(e.1));
  }

  lemma LaidSlot(slot: Slot)
    ensures Laid(SlotToken(slot)) == " " + Placeholder(slot)
  {
  }

  lemma TypesetThree(name: string, slot: Token, text: string)
    requires Laid(slot) == " " + text
    ensures Typeset([Word(name), Symbol('='), slot]) == " " + (name + " = " + text)
  {
    TypesetTriple(Word(name), Symbol('='), slot);
    EquationLayout(name, text);
  }

  lemma TypesetTriple(a: Token, b: Token, c: Token)
    ensures Typeset([a, b, c]) == Laid(a) + (Laid(b) + Laid(c))
  {
    TypesetOne(c);
    TypesetCons(b, [c]);
    TypesetCons(a, [b, c]);
    assert [a, b, c] == [a] + [b, c];
    assert [b, c] == [b] + [c];
  }

  lemma EquationLayout(name: string, slot: string)
    ensures " " + name + (" =" + (" " + slot)) == " " + (name + " = " + slot)
  {
  }

  lemma {:induction false} TypesetSets(es: seq<(string, Slot)>)
    requires es != []
    ensures Typeset(SetTokens(es)) == " " + Join(Equations(es))
  {
    TypesetEquation(es[0]);
    if |es| > 1 {
      TypesetSets(es[1..]);
      JoinEquations(es);
      TypesetComma(EquationTokens(es[0]), SetTokens(es[1..]), Equation(es[0]), Join(Equations(es[1..])));
    }
  }

  lemma TypesetComma(a: seq<Token>, b: seq<Token>, s: string, t: string)
    requires Typeset(a) == " " + s && Typeset(b) == " " + t
    ensures Typeset(a + ([Symbol(',')] + b)) == " " + (s + ", " + t)
  {
    TypesetCons(Symbol(','), b);
    TypesetConcat(a, [Symbol(',')] + b);
    CommaLayout(s, t);
  }

  lemma CommaLayout(s: string, t: string)
    ensures " " + s + ("," + (" " + t)) == " " + (s + ", " + t)
  {
  }

  lemma JoinEquations(es: seq<(string, Slot)>)
    requires |es| > 1
    ensures Join(Equations(es)) == Equation(es[0]) + ", " + Join(Equations(es[1..]))
  {
    assert Equations(es)[1..] == Equations(es[1..]);
  }

  lemma {:induction false} TypesetColumns(cs: seq<string>)
    requires cs != []
    ensures Typeset(ColumnTokens(cs)) == " " + Join(cs)
  {
    TypesetOne(Word(cs[0]));
    if |cs| > 1 {
      TypesetColumns(cs[1..]);
      TypesetComma([Word(cs[0])], ColumnTokens(cs[1..]), cs[0], Join(cs[1..]));
      assert ColumnTokens(cs) == [Word(cs[0])] + ([Symbol(',')] + ColumnTokens(cs[1..]));
    }
  }

  lemma TypesetUpdate(st: Statement)
    requires st.Update? && st.sets != []
    ensures Typeset(Tokens(st)) == " " + Render(st)
  {
    TypesetEquation((st.key, st.keySlot));
    TypesetSets(st.sets);
    TypesetBody(st.table, SetTokens(st.sets), EquationTokens((st.key, st.keySlot)), Join(Equations(st.sets)),
      st.key, Placeholder(st.keySlot));
  }

  lemma TypesetBody(table: string, sets: seq<Token>, where: seq<Token>, setText: string, key: string, slot: string)
    requires Typeset(sets) == " " + setText && Typeset(where) == " " + (key + " = " + slot)
    ensures Typeset([Word("UPDATE"), Word(table), Word("SET")] + (sets + ([Word("WHERE")] + where)))
         == " " + ("UPDATE " + table + " SET " + setText + " WHERE " + key + " = " + slot)
  {
    TypesetClauses("UPDATE", table, "SET", sets, "WHERE", where);
    UpdateLayout(table, setText, key, slot);
  }

  lemma TypesetClauses(
      verb: string, table: string, assign: string, sets: seq<Token>, where: string, condition: seq<Token>)
    ensures Typeset([Word(verb), Word(table), Word(assign)] + (sets + ([Word(where)] + condition)))
         == " " + verb + (" " + table + (" " + assign + (Typeset(sets) + (" " + where + Typeset(condition)))))
  {
    var tail := sets + ([Word(where)] + condition);
    TypesetCons(Word(where), condition);
    TypesetConcat(sets, [Word(where)] + condition);
    TypesetCons(Word(assign), tail);
    TypesetCons(Word(table), [Word(assign)] + tail);
    TypesetCons(Word(verb), [Word(table)] + ([Word(assign)] + tail));
    assert [Word(verb), Word(table), Word(assign)] + tail == [Word(verb)] + ([Word(table)] + ([Word(assign)] + tail));
  }

  lemma UpdateLayout(table: string, sets: string, key: string, slot: string)
    ensures " " + "UPDATE"
            + (" " + table + (" " + "SET" + (" " + sets + (" " + "WHERE" + (" " + (key + " = " + slot))))))
         == " " + ("UPDATE " + table + " SET " + sets + " WHERE " + key + " = " + slot)
  {
  }

  lemma TypesetSelect(st: Statement)
    requires st.Select? && st.columns != []
    ensures Typeset(Tokens(st)) == " " + Render(st)
  {
    TypesetColumns(st.columns);
    TypesetFrom(ColumnTokens(st.columns), Join(st.columns), st.table);
  }

  lemma TypesetFrom(columns: seq<Token>, text: string, table: string)
    requires Typeset(columns) == " " + text
    ensures Typeset([Word("SELECT")] + (columns + [Word("FROM"), Word(table)]))
         == " " + ("SELECT " + text + " FROM " + table)
  {
    TypesetSource("SELECT", columns, "FROM", table);
    SelectLayout(text, table);
  }

  lemma TypesetSource(verb: string, columns: seq<Token>, from: string, table: string)
    ensures Typeset([Word(verb)] + (columns + [Word(from), Word(table)]))
         == " " + verb + (Typeset(columns) + (" " + from + (" " + table)))
  {
    var tail := [Word(from), Word(table)];
    TypesetOne(Word(table));
    TypesetCons(Word(from), [Word(table)]);
    assert tail == [Word(from)] + [Word(table)];
    TypesetConcat(columns, tail);
    TypesetCons(Word(verb), columns + tail);
  }

  lemma SelectLayout(columns: string, table: string)
    ensures " " + "SELECT" + (" " + columns + (" " + "FROM" + (" " + table)))
         == " " + ("SELECT " + columns + " FROM " + table)
  {
  }

  // --- reading a statement back -----------------------------------------------------------------

  lemma ParseEquationOf(e: (string, Slot), rest: seq<Token>)
    requires Plain(e.0)
    ensures ParseEquation(EquationTokens(e) + rest) == Some(e)
  {
    var ts := EquationTokens(e) + rest;
    assert ts[0] == Word(e.0) && ts[1] == Symbol('=') && ts[2..][0] == SlotToken(e.1);
  }

  lemma {:induction false} ParseSetsOf(es: seq<(string, Slot)>, rest: seq<Token>)
    requires es != [] && PlainSets(es) && !Sign(rest, ',')
    ensures ParseSets(SetTokens(es) + rest) == Some((es, rest))
    decreases |es|
  {
    if |es| == 1 {
      ParseLastSet(es[0], rest);
      assert es == [es[0]];
    } else {
      var more := SetTokens(es[1..]) + rest;
      ParseSetsOf(es[1..], rest);
      FirstSet(es, rest);
      ParseSetsStep(es[0], more);
      assert es == [es[0]] + es[1..];
    }
  }

  lemma FirstSet(es: seq<(string, Slot)>, rest: seq<Token>)
    requires |es| > 1
    ensures SetTokens(es) + rest == EquationTokens(es[0]) + ([Symbol(',')] + (SetTokens(es[1..]) + rest))
  {
    Reassociate(EquationTokens(es[0]), [Symbol(',')], SetTokens(es[1..]), rest);
  }

  lemma Reassociate(a: seq<Token>, b: seq<Token>, c: seq<Token>, rest: seq<Token>)
    ensures (a + (b + c)) + rest == a + (b + (c + rest))
  {
  }

  lemma ParseLastSet(e: (string, Slot), rest: seq<Token>)
    requires Plain(e.0) && !Sign(rest, ',')
    ensures ParseSets(EquationTokens(e) + rest) == Some(([e], rest))
  {
    ParseEquationOf(e, rest);
    assert (EquationTokens(e) + rest)[3..] == rest;
  }

  lemma ParseSetsStep(e: (string, Slot), more: seq<Token>)
    requires Plain(e.0) && ParseSets(more).Some?
    ensures ParseSets(EquationTokens(e) + ([Symbol(',')] + more))
         == Some(([e] + ParseSets(more).value.0, ParseSets(more).value.1))
  {
    var ts := EquationTokens(e) + ([Symbol(',')] + more);
    ParseEquationOf(e, [Symbol(',')] + more);
    assert ts[3..][0] == Symbol(',') && ts[4..] == more;
  }

  lemma {:induction false} ParseColumnsOf(cs: seq<string>, rest: seq<Token>)
    requires cs != [] && AllPlain(cs) && !Sign(rest, ',')
    ensures ParseColumns(ColumnTokens(cs) + rest) == Some((cs, rest))
    decreases |cs|
  {
    if |cs| == 1 {
      assert ([Word(cs[0])] + rest)[1..] == rest && cs == [cs[0]];
    } else {
      var more := ColumnTokens(cs[1..]) + rest;
      ParseColumnsOf(cs[1..], rest);
      assert ColumnTokens(cs) + rest == [Word(cs[0]), Symbol(',')] + more;
      ParseColumnsStep(cs[0], more);
      assert cs == [cs[0]] + cs[1..];
    }
  }

  lemma ParseColumnsStep(c: string, more: seq<Token>)
    requires Plain(c) && ParseColumns(more).Some?
    ensures ParseColumns([Word(c), Symbol(',')] + more)
         == Some(([c] + ParseColumns(more).value.0, ParseColumns(more).value.1))
  {
    var ts := [Word(c), Symbol(',')] + more;
    assert ts[0] == Word(c) && ts[1..][0] == Symbol(',') && ts[2..] == more;
  }

  lemma ParseTokensUpdate(st: Statement)
    requires st.Update? && PlainStatement(st)
    ensures ParseTokens(Tokens(st)) == Some(st)
  {
    var equation := EquationTokens((st.key, st.keySlot));
    ParseSetsOf(st.sets, [Word("WHERE")] + equation);
    ParseEquationOf((st.key, st.keySlot), []);
    assert equation + [] == equation;
    ParseClauses(st.table, SetTokens(st.sets) + ([Word("WHERE")] + equation), st.sets, equation);
  }

  /** The clauses of an update, once its equations have been read. */
  lemma ParseClauses(table: string, body: seq<Token>, sets: seq<(string, Slot)>, equation: seq<Token>)
    requires Plain(table) && ParseSets(body) == Some((sets, [Word("WHERE")] + equation))
    requires |equation| == 3 && ParseEquation(equation).Some?
    ensures var condition := ParseEquation(equation).value;
            ParseTokens([Word("UPDATE"), Word(table), Word("SET")] + body)
            == Some(Update(table, sets, condition.0, condition.1))
  {
    KeywordsUpper();
    var ts := [Word("UPDATE"), Word(table), Word("SET")] + body;
    assert ts[1..] == [Word(table), Word("SET")] + body;
    assert ts[1..][1..] == [Word("SET")] + body && ts[1..][2..] == body;
    assert !Keyword(ts, "SELECT");
    assert ([Word("WHERE")] + equation)[1..] == equation;
  }

  lemma ParseTokensSelect(st: Statement)
    requires st.Select? && PlainStatement(st)
    ensures ParseTokens(Tokens(st)) == Some(st)
  {
    KeywordsUpper();
    var from := [Word("FROM"), Word(st.table)];
    ParseColumnsOf(st.columns, from);
    assert Tokens(st)[1..] == ColumnTokens(st.columns) + from;
    assert from[1..] == [Word(st.table)];
  }

  lemma {:induction false} SetTokensProper(es: seq<(string, Slot)>)
    requires PlainSets(es)
    ensures AllProper(SetTokens(es))
  {
    if |es| > 1 {
      SetTokensProper(es[1..]);
    }
  }

  lemma {:induction false} ColumnTokensProper(cs: seq<string>)
    requires AllPlain(cs)
    ensures AllProper(ColumnTokens(cs))
  {
    if |cs| > 1 {
      ColumnTokensProper(cs[1..]);
    }
  }

  lemma TokensProper(st: Statement)
    requires PlainStatement(st)
    ensures AllProper(Tokens(st))
  {
    KeywordsUpper();
    match st
    case Select(columns, _) => ColumnTokensProper(columns);
    case Update(_, sets, _, _) => SetTokensProper(sets);
  }

  /** Every statement over plain names is read back from its text, whatever its placeholders. */
  lemma ParseOfRender(st: Statement)
    requires PlainStatement(st)
    ensures Parse(Render(st)) == Some(st)
  {
    TokensProper(st);
    LexTypeset(Tokens(st));
    LexBlank(Render(st));
    match st
    case Select(_, _) => TypesetSelect(st); ParseTokensSelect(st);
    case Update(_, _, _, _) => TypesetUpdate(st); ParseTokensUpdate(st);
  }

  // --- meaning ----------------------------------------------------------------------------------

  /** A row: the text of each column, or NULL. */
  type Row = map<string, Option<string>>

  datatype Table = Table(columns: set<string>, rows: seq<Row>)

  type Database = map<string, Table>

  /** The two forms of placeholder: `$1`, `$2`, … or `?`, by position. A server may accept either or both. */
  datatype Dialect = Dollar | Question

  function Cell(row: Row, column: string): Option<string> { if column in row then row[column] else None }

  function Slots(sets: seq<(string, Slot)>, keySlot: Slot): (r: seq<Slot>)
    ensures |r| == |sets| + 1 && r[|sets|] == keySlot
    ensures forall i :: 0 <= i < |sets| ==> r[i] == sets[i].1
  {
    seq(|sets|, i requires 0 <= i < |sets| => sets[i].1) + [keySlot]
  }

  /** Every placeholder has a value, and every value a placeholder, in a form that the server accepts. */
  predicate Bound(accepts: set<Dialect>, slots: seq<Slot>, binds: seq<string>) {
    || (Dollar in accepts && BoundAs(Dollar, slots, binds))
    || (Question in accepts && BoundAs(Question, slots, binds))
  }

  /** The same, all in one form. */
  predicate BoundAs(dialect: Dialect, slots: seq<Slot>, binds: seq<string>) {
    match dialect
    case Question => |binds| == |slots| && forall i :: 0 <= i < |slots| ==> slots[i].Positional?
    case Dollar =>
      && (forall i :: 0 <= i < |slots| ==> slots[i].Numbered? && 1 <= slots[i].n <= |binds|)
      && (forall n :: 1 <= n <= |binds| ==> Numbered(n) in slots)
  }

  /** The value of the placeholder at place `i` of the text. */
  function ValueAt(slots: seq<Slot>, binds: seq<string>, i: nat): string
    requires i < |slots|
  {
    match slots[i]
    case Positional => if i < |binds| then binds[i] else ""
    case Numbered(n) => if 1 <= n <= |binds| then binds[n - 1] else ""
  }

  predicate Distinct(sets: seq<(string, Slot)>) {
    forall i, j :: 0 <= i < j < |sets| ==> sets[i].0 != sets[j].0
  }

  /** The row with the first `k` columns of the SET clause assigned. */
  function Assign(row: Row, sets: seq<(string, Slot)>, slots: seq<Slot>, binds: seq<string>, k: nat): Row
    requires k <= |sets| <= |slots|
  {
    if k == 0 then row else Assign(row, sets, slots, binds, k - 1)[sets[k - 1].0 := Some(ValueAt(slots, binds, k - 1))]
  }

  predicate Matches(row: Row, key: string, value: string) { Cell(row, key) == Some(value) }

  /** The rows after an update: the condition is evaluated on the old row. */
  function UpdateRows(rows: seq<Row>, st: Statement, binds: seq<string>): (r: seq<Row>)
    requires st.Update?
    ensures |r| == |rows|
  {
    var slots := Slots(st.sets, st.keySlot);
    seq(|rows|, i requires 0 <= i < |rows| =>
      if Matches(rows[i], st.key, ValueAt(slots, binds, |st.sets|))
      then Assign(rows[i], st.sets, slots, binds, |st.sets|)
      else rows[i])
  }

  function CountMatches(rows: seq<Row>, key: string, value: string): (n: nat)
    ensures n <= |rows|
  {
    if rows == [] then 0
    else CountMatches(rows[..|rows| - 1], key, value) + (if Matches(rows[|rows| - 1], key, value) then 1 else 0)
  }

  predicate ValidUpdate(db: Database, accepts: set<Dialect>, st: Statement, binds: seq<string>)
    requires st.Update?
  {
    && st.table in db
    && st.key in db[st.table].columns
    && Distinct(st.sets)
    && (forall i :: 0 <= i < |st.sets| ==> st.sets[i].0 in db[st.table].columns)
    && Bound(accepts, Slots(st.sets, st.keySlot), binds)
  }

  /** Executes the text of an update: the database afterwards and the number of rows affected. */
  function Execute(db: Database, accepts: set<Dialect>, text: string, binds: seq<string>): Result<(Database, nat)> {
    match Parse(text)
    case None => Err("syntax error")
    case Some(st) =>
      if !st.Update? || !ValidUpdate(db, accepts, st, binds) then Err("invalid statement")
      else
        var t := db[st.table];
        Ok((db[st.table := t.(rows := UpdateRows(t.rows, st, binds))],
            CountMatches(t.rows, st.key, ValueAt(Slots(st.sets, st.keySlot), binds, |st.sets|))))
  }

  /** The selected columns of every row. */
  function Project(row: Row, columns: seq<string>): Row {
    map c | c in columns :: Cell(row, c)
  }

  function Query(db: Database, text: string): Result<seq<Row>> {
    match Parse(text)
    case None => Err("syntax error")
    case Some(st) =>
      if !(st.Select? && st.table in db && forall i :: 0 <= i < |st.columns| ==> st.columns[i] in db[st.table].columns)
      then Err("invalid statement")
      else
        var rows := db[st.table].rows;
        Ok(seq(|rows|, i requires 0 <= i < |rows| => Project(rows[i], st.columns)))
  }
}
