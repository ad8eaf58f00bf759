/** Text vocabulary shared by the components: outcomes, decimals, whitespace. */
module Text {

  datatype Option<+T> = None | Some(value: T)

  datatype Result<+T> = Ok(value: T) | Err(error: string)

  type byte = n: int | 0 <= n < 256

  // --- decimals ---------------------------------------------------------------------------------

  predicate IsDigit(c: char) { '0' <= c <= '9' }

  predicate AllDigits(s: string) { forall i :: 0 <= i < |s| ==> IsDigit(s[i]) }

  function DigitValue(c: char): (d: nat)
    requires IsDigit(c)
    ensures d < 10
  {
    c as int - '0' as int
  }

  function DigitChar(d: nat): (c: char)
    requires d < 10
    ensures IsDigit(c) && DigitValue(c) == d
  {
    ('0' as int + d) as char
  }

  /** The number a run of digits denotes. */
  function Number(s: string): nat
    requires AllDigits(s)
  {
    if s == "" then 0 else 10 * Number(s[..|s| - 1]) + DigitValue(s[|s| - 1])
  }

  /** Rust's `to_string` on an unsigned integer: no sign, no leading zero. */
  function Decimal(n: nat): (s: string)
    ensures AllDigits(s) && s != "" && (s[0] == '0' ==> s == "0")
    ensures Number(s) == n
  {
    if n < 10 then [DigitChar(n)] else Decimal(n / 10) + [DigitChar(n % 10)]
  }

  /** How many digits a text begins with. */
  function DigitRun(s: string): (k: nat)
    ensures k <= |s| && AllDigits(s[..k]) && (k < |s| ==> !IsDigit(s[k]))
  {
    if s != "" && IsDigit(s[0]) then
      var k := DigitRun(s[1..]);
      assert s[..k + 1] == [s[0]] + s[1..][..k];
      k + 1
    else 0
  }

  lemma {:induction false} DigitRunOf(d: string, rest: string)
    requires AllDigits(d) && (rest == "" || !IsDigit(rest[0]))
    ensures DigitRun(d + rest) == |d|
  {
    if d == "" {
      assert d + rest == rest;
    } else {
      assert (d + rest)[1..] == d[1..] + rest;
      DigitRunOf(d[1..], rest);
    }
  }

  // --- whitespace -------------------------------------------------------------------------------

  /** The Unicode White_Space characters, which is what `str::trim` strips. */
  predicate IsSpace(c: char) {
    var n := c as int;
    || 0x09 <= n <= 0x0D || n == 0x20 || n == 0x85 || n == 0xA0 || n == 0x1680
    || 0x2000 <= n <= 0x200A || n == 0x2028 || n == 0x2029 || n == 0x202F || n == 0x205F || n == 0x3000
  }

  /** The 25 characters of the White_Space property. */
  lemma SpacesAre(c: char)
    ensures IsSpace(c) <==>
              || c in {'\t', '\n', '\U{B}', '\U{C}', '\r', ' ', '\U{85}', '\U{A0}', '\U{1680}', '\U{2028}', '\U{2029}'}
              || c in {'\U{202F}', '\U{205F}', '\U{3000}'} || '\U{2000}' <= c <= '\U{200A}'
  {
  }

  predicate Blank(s: string) { forall i :: 0 <= i < |s| ==> IsSpace(s[i]) }

  function TrimStart(s: string): (r: string)
    ensures r == "" || !IsSpace(r[0])
    ensures |r| <= |s| && r == s[|s| - |r|..] && Blank(s[..|s| - |r|])
  {
    if s != "" && IsSpace(s[0]) then
      var r := TrimStart(s[1..]);
      var n := |s| - |r|;
      assert forall i :: 1 <= i < n ==> s[i] == s[1..][..n - 1][i - 1];
      r
    else s
  }

  function TrimEnd(s: string): (r: string)
    ensures r == "" || !IsSpace(r[|r| - 1])
    ensures r <= s && Blank(s[|r|..])
  {
    if s != "" && IsSpace(s[|s| - 1]) then
      var init := s[..|s| - 1];
      var r := TrimEnd(init);
      assert forall i :: |r| <= i < |s| - 1 ==> s[i] == init[|r|..][i - |r|];
      r
    else s
  }

  function Trim(s: string): string { TrimEnd(TrimStart(s)) }

  lemma TrimFixed(s: string)
    requires s == "" || (!IsSpace(s[0]) && !IsSpace(s[|s| - 1]))
    ensures Trim(s) == s
  {
  }

  lemma TrimEnds(s: string)
    ensures var r := Trim(s); r == "" || (!IsSpace(r[0]) && !IsSpace(r[|r| - 1]))
    ensures Trim(Trim(s)) == Trim(s)
  {
    var t := TrimStart(s);
    var r := TrimEnd(t);
    if r != "" {
      assert r[0] == t[0];
    }
    TrimFixed(r);
  }

  // --- letter case ------------------------------------------------------------------------------

  function LowerChar(c: char): char {
    if 'A' <= c <= 'Z' then (c as int + 32) as char else c
  }

  predicate EqIgnoreAsciiCase(s: string, t: string) {
    |s| == |t| && forall i :: 0 <= i < |s| ==> LowerChar(s[i]) == LowerChar(t[i])
  }

  // --- splitting --------------------------------------------------------------------------------

  /** The text before the first separator is determined by the whole. */
  lemma FirstSeparator<T>(sep: T, a: seq<T>, b: seq<T>, a': seq<T>, b': seq<T>)
    requires sep !in a && sep !in a'
    requires a + [sep] + b == a' + [sep] + b'
    ensures a == a' && b == b'
  {
    var s := a + [sep] + b;
    assert s == a' + [sep] + b';
    assert s[|a|] == sep && s[|a'|] == sep;
    assert forall i :: 0 <= i < |a| ==> s[i] == a[i] && s[i] in a;
    assert forall i :: 0 <= i < |a'| ==> s[i] == a'[i] && s[i] in a';
    assert |a| == |a'|;
    assert a == s[..|a|] == a';
    assert b == s[|a| + 1..] == b';
  }

  predicate StartsWith(s: string, p: string) { p <= s }

  /** The text after the last separator. */
  function AfterLast(s: string, sep: char): (r: string)
    ensures sep !in r && |r| <= |s| && r == s[|s| - |r|..]
    ensures |r| < |s| ==> s[|s| - |r| - 1] == sep
  {
    if s == "" || s[|s| - 1] == sep then ""
    else
      var r := AfterLast(s[..|s| - 1], sep);
      assert s == s[..|s| - 1] + [s[|s| - 1]];
      r + [s[|s| - 1]]
  }

  lemma {:induction false} AfterLastOf(front: string, last: string, sep: char)
    requires sep !in last
    ensures AfterLast(front + [sep] + last, sep) == last
  {
    var s := front + [sep] + last;
    if last != "" {
      var n := |last| - 1;
      assert s[..|s| - 1] == front + [sep] + last[..n] && s[|s| - 1] == last[n];
      AfterLastOf(front, last[..n], sep);
      assert last == last[..n] + [last[n]];
    }
  }

  /** The text before the first separator. */
  function BeforeFirst(s: string, sep: char): (r: string)
    ensures sep !in r && r <= s && (|r| < |s| ==> s[|r|] == sep)
  {
    if s == "" || s[0] == sep then ""
    else
      var r := BeforeFirst(s[1..], sep);
      assert s == [s[0]] + s[1..];
      [s[0]] + r
  }

  lemma {:induction false} BeforeFirstOf(front: string, rest: string, sep: char)
    requires sep !in front
    ensures BeforeFirst(front + [sep] + rest, sep) == front
  {
    if front != "" {
      assert (front + [sep] + rest)[1..] == front[1..] + [sep] + rest && front[0] in front;
      BeforeFirstOf(front[1..], rest, sep);
      assert front == [front[0]] + front[1..];
    }
  }
}
