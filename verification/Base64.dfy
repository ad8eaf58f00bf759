/** Standard Base64 with canonical padding (section 4 of RFC 4648). */
module Base64 {
  import opened Text

  type sextet = n: int | 0 <= n < 64

  function Symbol(v: sextet): (c: char)
    ensures Value(c) == Some(v) && c != '=' && c != '|' && !IsSpace(c)
  {
    if v < 26 then ('A' as int + v) as char
    else if v < 52 then ('a' as int + v - 26) as char
    else if v < 62 then ('0' as int + v - 52) as char
    else if v == 62 then '+'
    else '/'
  }

  function Value(c: char): (v: Option<sextet>) {
    if 'A' <= c <= 'Z' then Some(c as int - 'A' as int)
    else if 'a' <= c <= 'z' then Some(c as int - 'a' as int + 26)
    else if '0' <= c <= '9' then Some(c as int - '0' as int + 52)
    else if c == '+' then Some(62)
    else if c == '/' then Some(63)
    else None
  }

  lemma SymbolOfValue(c: char)
    requires Value(c).Some?
    ensures Symbol(Value(c).value) == c
  {
  }

  // --- one quantum ------------------------------------------------------------------------------

  function Pack4(high: int, low: int): (n: int)
    requires 0 <= low < 4
    ensures n / 4 == high && n % 4 == low
  {
    4 * high + low
  }

  function Pack16(high: int, low: int): (n: int)
    requires 0 <= low < 16
    ensures n / 16 == high && n % 16 == low
  {
    16 * high + low
  }

  function Pack64(high: int, low: int): (n: int)
    requires 0 <= low < 64
    ensures n / 64 == high && n % 64 == low
  {
    64 * high + low
  }

  function First(v0: sextet, v1: sextet): byte { Pack4(v0, v1 / 16) }

  function Second(v1: sextet, v2: sextet): byte { Pack16(v1 % 16, v2 / 4) }

  function Third(v2: sextet, v3: sextet): byte { Pack64(v2 % 4, v3) }

  /** The four digits of three bytes. */
  function EncodeQuantum(b0: byte, b1: byte, b2: byte): (q: string)
    ensures |q| == 4
  {
    [Symbol(b0 / 4), Symbol(Pack16(b0 % 4, b1 / 16)), Symbol(Pack4(b1 % 16, b2 / 64)), Symbol(b2 % 64)]
  }

  /** The three bytes of four digits, when all four are digits. */
  function DecodeQuantum(q: string): (r: Option<seq<byte>>)
    requires |q| == 4
    ensures r.Some? ==> |r.value| == 3
  {
    match (Value(q[0]), Value(q[1]), Value(q[2]), Value(q[3]))
    case (Some(v0), Some(v1), Some(v2), Some(v3)) => Some([First(v0, v1), Second(v1, v2), Third(v2, v3)])
    case _ => None
  }

  lemma QuantumRoundTrip(b0: byte, b1: byte, b2: byte)
    ensures DecodeQuantum(EncodeQuantum(b0, b1, b2)) == Some([b0, b1, b2])
  {
    var v1, v2 := Pack16(b0 % 4, b1 / 16), Pack4(b1 % 16, b2 / 64);
    assert First(b0 / 4, v1) == b0 && Second(v1, v2) == b1 && Third(v2, b2 % 64) == b2;
  }

  lemma QuantumCanonical(q: string)
    requires |q| == 4 && DecodeQuantum(q).Some?
    ensures var b := DecodeQuantum(q).value; EncodeQuantum(b[0], b[1], b[2]) == q
  {
    var v0, v1, v2, v3 := Value(q[0]).value, Value(q[1]).value, Value(q[2]).value, Value(q[3]).value;
    var b0, b1, b2 := First(v0, v1), Second(v1, v2), Third(v2, v3);
    assert b0 / 4 == v0 && b0 % 4 == v1 / 16 && b1 / 16 == v1 % 16;
    assert b1 % 16 == v2 / 4 && b2 / 64 == v2 % 4 && b2 % 64 == v3;
    assert Pack16(b0 % 4, b1 / 16) == v1 && Pack4(b1 % 16, b2 / 64) == v2;
    SymbolOfValue(q[0]);
    SymbolOfValue(q[1]);
    SymbolOfValue(q[2]);
    SymbolOfValue(q[3]);
    assert q == [q[0], q[1], q[2], q[3]];
  }

  /** One or two last bytes, padded to a quantum. */
  function EncodeLast(b: seq<byte>): (q: string)
    requires 1 <= |b| <= 2
    ensures |q| == 4
  {
    if |b| == 1 then [Symbol(b[0] / 4), Symbol(Pack16(b[0] % 4, 0)), '=', '=']
    else [Symbol(b[0] / 4), Symbol(Pack16(b[0] % 4, b[1] / 16)), Symbol(Pack4(b[1] % 16, 0)), '=']
  }

  /** A padded quantum; the bits it leaves over must be zero. */
  function DecodeLast(q: string): (r: Option<seq<byte>>)
    requires |q| == 4
    ensures r.Some? ==> 1 <= |r.value| <= 2
  {
    if q[3] != '=' then None
    else match (Value(q[0]), Value(q[1]), Value(q[2]))
      case (Some(v0), Some(v1), Some(v2)) => if v2 % 4 == 0 then Some([First(v0, v1), Second(v1, v2)]) else None
      case (Some(v0), Some(v1), None) => if q[2] == '=' && v1 % 16 == 0 then Some([First(v0, v1)]) else None
      case _ => None
  }

  lemma LastRoundTrip(b: seq<byte>)
    requires 1 <= |b| <= 2
    ensures DecodeLast(EncodeLast(b)) == Some(b) && DecodeQuantum(EncodeLast(b)) == None
  {
    if |b| == 1 {
      var v1 := Pack16(b[0] % 4, 0);
      assert First(b[0] / 4, v1) == b[0] && v1 % 16 == 0;
      assert b == [b[0]];
    } else {
      var v1, v2 := Pack16(b[0] % 4, b[1] / 16), Pack4(b[1] % 16, 0);
      assert First(b[0] / 4, v1) == b[0] && Second(v1, v2) == b[1] && v2 % 4 == 0;
      assert b == [b[0], b[1]];
    }
  }

  lemma LastCanonical(q: string)
    requires |q| == 4 && DecodeLast(q).Some?
    ensures EncodeLast(DecodeLast(q).value) == q
  {
    var v0, v1 := Value(q[0]).value, Value(q[1]).value;
    var b0 := First(v0, v1);
    assert b0 / 4 == v0 && b0 % 4 == v1 / 16;
    SymbolOfValue(q[0]);
    SymbolOfValue(q[1]);
    if Value(q[2]).Some? {
      var v2 := Value(q[2]).value;
      var b1 := Second(v1, v2);
      assert b1 / 16 == v1 % 16 && b1 % 16 == v2 / 4;
      assert Pack16(b0 % 4, b1 / 16) == v1 && Pack4(b1 % 16, 0) == v2;
      SymbolOfValue(q[2]);
    } else {
      assert Pack16(b0 % 4, 0) == v1;
    }
    assert q == [q[0], q[1], q[2], q[3]];
  }

  // --- whole texts ------------------------------------------------------------------------------

  function Encode(b: seq<byte>): string {
    if b == [] then ""
    else if |b| < 3 then EncodeLast(b)
    else EncodeQuantum(b[0], b[1], b[2]) + Encode(b[3..])
  }

  function Decode(s: string): Option<seq<byte>> {
    if s == "" then Some([])
    else if |s| < 4 then None
    else match DecodeQuantum(s[..4])
      case None => if |s| == 4 then DecodeLast(s) else None
      case Some(b) => match Decode(s[4..]) case None => None case Some(rest) => Some(b + rest)
  }

  lemma DecodeStep(q: string, b: seq<byte>, text: string, rest: seq<byte>)
    requires |q| == 4 && DecodeQuantum(q) == Some(b) && Decode(text) == Some(rest)
    ensures Decode(q + text) == Some(b + rest)
  {
    assert (q + text)[..4] == q && (q + text)[4..] == text;
  }

  lemma DecodeFinal(q: string)
    requires |q| == 4 && DecodeQuantum(q) == None
    ensures Decode(q) == DecodeLast(q)
  {
    assert q[..4] == q;
  }

  /** Decoding undoes encoding. */
  lemma {:induction false} DecodeOfEncode(b: seq<byte>)
    ensures Decode(Encode(b)) == Some(b)
  {
    if b == [] {
    } else if |b| < 3 {
      LastRoundTrip(b);
      DecodeFinal(EncodeLast(b));
    } else {
      QuantumRoundTrip(b[0], b[1], b[2]);
      DecodeOfEncode(b[3..]);
      DecodeStep(EncodeQuantum(b[0], b[1], b[2]), [b[0], b[1], b[2]], Encode(b[3..]), b[3..]);
      assert b == [b[0], b[1], b[2]] + b[3..];
    }
  }

  /** Only one text decodes to given bytes: their encoding. */
  lemma {:induction false} Canonical(s: string)
    requires Decode(s).Some?
    ensures Encode(Decode(s).value) == s
  {
    if s != "" {
      assert s[..4] + s[4..] == s;
      if DecodeQuantum(s[..4]).Some? {
        var b := DecodeQuantum(s[..4]).value;
        var rest := Decode(s[4..]).value;
        QuantumCanonical(s[..4]);
        Canonical(s[4..]);
        assert (b + rest)[3..] == rest;
      } else {
        LastCanonical(s);
      }
    }
  }

  predicate Plain(s: string) { forall i :: 0 <= i < |s| ==> !IsSpace(s[i]) && s[i] != '|' }

  /** Base64 text holds neither white space nor the separator of the serialized form. */
  lemma {:induction false} EncodePlain(b: seq<byte>)
    ensures Plain(Encode(b)) && (Encode(b) == "" <==> b == [])
  {
    if |b| >= 3 {
      EncodePlain(b[3..]);
    }
  }

  /** The test vectors of section 10 of RFC 4648, and the last two digits of the alphabet. */
  lemma Samples()
    ensures Encode([]) == "" && Encode([0x66]) == "Zg==" && Encode([0x66, 0x6F]) == "Zm8="
    ensures Encode([0x66, 0x6F, 0x6F]) == "Zm9v" && Encode([0xFB, 0xFF]) == "+/8="
  {
  }
}
