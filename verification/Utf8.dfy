/** UTF-8 (section 3 of RFC 3629): what `as_bytes` produces and `from_utf8` accepts. */
module Utf8 {
  import opened Text

  function EncodeChar(c: char): (b: seq<byte>)
    ensures 1 <= |b| <= 4
  {
    var n := c as int;
    if n < 0x80 then [n]
    else if n < 0x800 then [0xC0 + n / 64, 0x80 + n % 64]
    else if n < 0x10000 then [0xE0 + n / 64 / 64, 0x80 + n / 64 % 64, 0x80 + n % 64]
    else [0xF0 + n / 64 / 64 / 64, 0x80 + n / 64 / 64 % 64, 0x80 + n / 64 % 64, 0x80 + n % 64]
  }

  function Encode(s: string): seq<byte> {
    if s == "" then [] else EncodeChar(s[0]) + Encode(s[1..])
  }

  predicate IsTail(b: byte) { 0x80 <= b < 0xC0 }

  /** Appends the six payload bits of a tail byte to the bits read so far. */
  function Join(high: nat, tail: byte): (n: nat)
    requires IsTail(tail)
    ensures n / 64 == high && 0x80 + n % 64 == tail
  {
    64 * high + (tail - 0x80)
  }

  predicate IsScalar(n: int) { 0 <= n < 0xD800 || 0xE000 <= n < 0x110000 }

  /** The first character of `b`, rejecting overlong forms, surrogates and truncated sequences. */
  function DecodeChar(b: seq<byte>): (r: Option<char>)
    ensures r.Some? ==> EncodeChar(r.value) <= b
  {
    if b == [] then None
    else if b[0] < 0x80 then Some(b[0] as char)
    else if 0xC2 <= b[0] < 0xE0 then
      if |b| >= 2 && IsTail(b[1]) then Some(Join(b[0] - 0xC0, b[1]) as char) else None
    else if 0xE0 <= b[0] < 0xF0 then
      if |b| >= 3 && IsTail(b[1]) && IsTail(b[2]) then
        var n := Join(Join(b[0] - 0xE0, b[1]), b[2]);
        if n >= 0x800 && IsScalar(n) then Some(n as char) else None
      else None
    else if 0xF0 <= b[0] < 0xF5 then
      if |b| >= 4 && IsTail(b[1]) && IsTail(b[2]) && IsTail(b[3]) then
        var n := Join(Join(Join(b[0] - 0xF0, b[1]), b[2]), b[3]);
        if n >= 0x10000 && IsScalar(n) then Some(n as char) else None
      else None
    else None
  }

  function Decode(b: seq<byte>): (r: Option<string>)
    ensures r.Some? ==> Encode(r.value) == b
    decreases |b|
  {
    if b == [] then Some("")
    else match DecodeChar(b)
      case None => None
      case Some(c) =>
        match Decode(b[|EncodeChar(c)|..])
        case None => None
        case Some(t) => Some([c] + t)
  }

  lemma DecodeCharOfEncode(c: char, rest: seq<byte>)
    ensures DecodeChar(EncodeChar(c) + rest) == Some(c)
  {
    var n := c as int;
    var e := EncodeChar(c);
    var b := e + rest;
    assert b[0] == e[0] && forall i :: 0 <= i < |e| ==> b[i] == e[i];
    var q, r := n / 64, n / 64 / 64;
    assert n == 64 * q + n % 64 && q == 64 * r + q % 64 && r == 64 * (r / 64) + r % 64;
  }

  /** `from_utf8` undoes `as_bytes`; with the contract of `Decode` the two are inverse bijections. */
  lemma {:induction false} DecodeOfEncode(s: string)
    ensures Decode(Encode(s)) == Some(s)
  {
    if s != "" {
      var b := Encode(s);
      DecodeCharOfEncode(s[0], Encode(s[1..]));
      assert b != [] && b[|EncodeChar(s[0])|..] == Encode(s[1..]);
      DecodeOfEncode(s[1..]);
      assert s == [s[0]] + s[1..];
    }
  }

  lemma Injective(s: string, t: string)
    requires Encode(s) == Encode(t)
    ensures s == t
  {
    DecodeOfEncode(s);
    DecodeOfEncode(t);
  }

  lemma {:induction false} EncodeConcat(s: string, t: string)
    ensures Encode(s + t) == Encode(s) + Encode(t)
  {
    if s == "" {
      assert s + t == t;
    } else {
      assert (s + t)[1..] == s[1..] + t;
      EncodeConcat(s[1..], t);
    }
  }

  lemma FirstChar(c: char, x: seq<byte>, d: char, y: seq<byte>)
    requires EncodeChar(c) + x == EncodeChar(d) + y
    ensures c == d && x == y
  {
    DecodeCharOfEncode(c, x);
    DecodeCharOfEncode(d, y);
    assert x == (EncodeChar(c) + x)[|EncodeChar(c)|..];
    assert y == (EncodeChar(d) + y)[|EncodeChar(d)|..];
  }

  /** A byte prefix that is itself an encoding is the encoding of a character prefix. */
  lemma {:induction false} PrefixReflects(t: string, rest: seq<byte>, s: string)
    requires Encode(s) == Encode(t) + rest
    ensures t <= s && rest == Encode(s[|t|..])
  {
    if t == "" {
      assert s[0..] == s;
    } else {
      assert Encode(t) + rest == EncodeChar(t[0]) + (Encode(t[1..]) + rest);
      assert s != "";
      FirstChar(t[0], Encode(t[1..]) + rest, s[0], Encode(s[1..]));
      PrefixReflects(t[1..], rest, s[1..]);
      assert s[1..][|t| - 1..] == s[|t|..];
    }
  }

  /** Byte 10 occurs only as the encoding of a newline. */
  lemma {:induction false} NewlineFree(s: string)
    requires '\n' !in s
    ensures 10 !in Encode(s)
  {
    if s != "" {
      assert s[0] in s && forall c :: c in s[1..] ==> c in s;
      NewlineFree(s[1..]);
      var n := s[0] as int;
      assert n != 10;
      assert 10 !in EncodeChar(s[0]);
    }
  }

  lemma LastByte(s: string, c: char)
    requires c as int < 0x80
    ensures Encode(s + [c]) == Encode(s) + [c as int]
  {
    EncodeConcat(s, [c]);
    assert Encode([c]) == EncodeChar(c) + Encode("");
  }

  lemma EncodeCons(c: char, t: string)
    ensures Encode([c] + t) == EncodeChar(c) + Encode(t)
  {
    assert ([c] + t)[1..] == t;
  }

  lemma TakeBeyond(a: seq<byte>, b: seq<byte>, k: nat)
    requires |a| <= k <= |a + b|
    ensures (a + b)[..k] == a + b[..k - |a|]
  {
  }

  lemma TakeWithin(a: seq<byte>, b: seq<byte>, k: nat)
    requires k < |a|
    ensures (a + b)[..k] == a[..k] && a[..k] < a
  {
  }

  lemma Assoc(a: seq<byte>, b: seq<byte>, c: seq<byte>)
    ensures a + (b + c) == a + b + c
  {
  }

  /** A cut in an encoding falls after some characters, and at most splits one more. */
  lemma {:induction false} CutEncoding(s: string, k: nat) returns (t: string, part: seq<byte>)
    requires k <= |Encode(s)|
    ensures t <= s && Encode(s)[..k] == Encode(t) + part
    ensures part == [] || (|t| < |s| && part < EncodeChar(s[|t|]))
  {
    t, part := "", [];
    if k > 0 {
      var e, more := EncodeChar(s[0]), Encode(s[1..]);
      if k < |e| {
        part := e[..k];
        TakeWithin(e, more, k);
      } else {
        t, part := CutEncoding(s[1..], k - |e|);
        TakeBeyond(e, more, k);
        EncodeCons(s[0], t);
        Assoc(e, Encode(t), part);
        t := [s[0]] + t;
      }
    }
  }

  /** A split character followed by an ASCII character is not UTF-8. */
  lemma SplitChar(c: char, part: seq<byte>, rest: seq<byte>)
    requires part != [] && part < EncodeChar(c) && rest != [] && rest[0] < 0x80
    ensures DecodeChar(part + rest) == None
  {
    var e := EncodeChar(c);
    var b := part + rest;
    assert b[0] == e[0] && b[|part|] == rest[0] && |part| < |e|;
    assert forall i :: 0 <= i < |part| ==> b[i] == e[i];
  }

  function Prepend(t: string, r: Option<string>): Option<string> {
    match r case None => None case Some(u) => Some(t + u)
  }

  lemma DecodeCons(c: char, more: seq<byte>)
    ensures Decode(EncodeChar(c) + more) == Prepend([c], Decode(more))
  {
    DecodeCharOfEncode(c, more);
    assert (EncodeChar(c) + more)[|EncodeChar(c)|..] == more;
  }

  lemma PrependTwice(c: char, t: string, r: Option<string>)
    ensures Prepend([c], Prepend(t, r)) == Prepend([c] + t, r)
  {
    if r.Some? {
      assert [c] + (t + r.value) == [c] + t + r.value;
    }
  }

  lemma PrependNothing(r: Option<string>)
    ensures Prepend("", r) == r
  {
    if r.Some? {
      assert "" + r.value == r.value;
    }
  }

  /** Decoding undoes encoding in front of anything, and then goes on. */
  lemma {:induction false} DecodeAfter(t: string, rest: seq<byte>)
    ensures Decode(Encode(t) + rest) == Prepend(t, Decode(rest))
  {
    if t == "" {
      assert Encode(t) + rest == rest;
      PrependNothing(Decode(rest));
    } else {
      DecodeAfter(t[1..], rest);
      Assoc(EncodeChar(t[0]), Encode(t[1..]), rest);
      DecodeCons(t[0], Encode(t[1..]) + rest);
      PrependTwice(t[0], t[1..], Decode(rest));
      assert [t[0]] + t[1..] == t;
    }
  }

  lemma DecodeSplit(c: char, part: seq<byte>, rest: seq<byte>)
    requires part != [] && part < EncodeChar(c) && rest != [] && rest[0] < 0x80
    ensures Decode(part + rest) == None
  {
    SplitChar(c, part, rest);
    assert part + rest != [];
  }

  lemma AsciiFirst(u: string)
    requires u != "" && u[0] as int < 0x80
    ensures Encode(u) != [] && Encode(u)[0] == u[0] as int
  {
    assert EncodeChar(u[0]) == [u[0] as int];
  }

  /** What a cut encoding followed by ASCII text decodes to: the whole characters before the cut, if it splits none. */
  lemma DecodeCut(s: string, k: nat, u: string) returns (t: string)
    requires k <= |Encode(s)| && u != "" && u[0] as int < 0x80
    ensures t <= s && (Decode(Encode(s)[..k] + Encode(u)) == None
      || (Encode(s)[..k] == Encode(t) && Decode(Encode(s)[..k] + Encode(u)) == Some(t + u)))
  {
    var part;
    t, part := CutEncoding(s, k);
    AsciiFirst(u);
    Assoc(Encode(t), part, Encode(u));
    DecodeAfter(t, part + Encode(u));
    if part == [] {
      DecodeOfEncode(u);
      assert part + Encode(u) == Encode(u);
      assert Encode(t) + part == Encode(t);
    } else {
      DecodeSplit(s[|t|], part, Encode(u));
    }
  }

  /** One character of each length: the letter a, e with acute, the euro sign, and a face. */
  lemma Samples()
    ensures EncodeChar('a') == [0x61] && EncodeChar('\U{E9}') == [0xC3, 0xA9]
    ensures EncodeChar('\U{20AC}') == [0xE2, 0x82, 0xAC] && EncodeChar('\U{1F600}') == [0xF0, 0x9F, 0x98, 0x80]
  {
  }
}
