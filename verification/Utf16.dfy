/** The `unicodePwd` value: UTF-16LE (section 2 of RFC 2781) of the password in double quotes. */
module Utf16 {
  import opened Text

  type unit = n: int | 0 <= n < 0x10000

  /** The code units of one character: itself, or a surrogate pair beyond the basic plane. */
  function CharUnits(c: char): (u: seq<unit>)
    ensures |u| == if c as int < 0x10000 then 1 else 2
  {
    var n := c as int;
    if n < 0x10000 then [n]
    else [0xD800 + (n - 0x10000) / 0x400, 0xDC00 + (n - 0x10000) % 0x400]
  }

  /** `encode_utf16` followed by `to_le_bytes` on every unit. */
  function UnitBytes(us: seq<unit>): (b: seq<byte>)
    ensures |b| == 2 * |us|
  {
    if us == [] then [] else [us[0] % 256, us[0] / 256] + UnitBytes(us[1..])
  }

  function Encode(s: string): seq<byte> {
    if s == "" then [] else UnitBytes(CharUnits(s[0])) + Encode(s[1..])
  }

  function PasswordBytes(password: string): seq<byte> { Encode("\"" + password + "\"") }

  /** The unit made of a low and a high byte. */
  function UnitOf(low: byte, high: byte): (u: unit)
    ensures u % 256 == low && u / 256 == high
  {
    256 * high + low
  }

  /** The first character of a byte string and its width; a lone surrogate is malformed. */
  function DecodeChar(b: seq<byte>): (r: Option<(char, nat)>)
    ensures r.Some? ==> 0 < r.value.1 <= |b|
  {
    if |b| < 2 then None
    else
      var u := UnitOf(b[0], b[1]);
      if u < 0xD800 || 0xE000 <= u then Some((u as char, 2))
      else if u >= 0xDC00 || |b| < 4 then None
      else
        var v := UnitOf(b[2], b[3]);
        if 0xDC00 <= v < 0xE000 then Some(((0x10000 + (u - 0xD800) * 0x400 + (v - 0xDC00)) as char, 4))
        else None
  }

  function Decode(b: seq<byte>): Option<string>
    decreases |b|
  {
    if b == [] then Some("")
    else match DecodeChar(b)
      case None => None
      case Some((c, width)) =>
        match Decode(b[width..])
        case None => None
        case Some(t) => Some([c] + t)
  }

  lemma DecodeCharOfEncode(c: char, rest: seq<byte>)
    ensures DecodeChar(UnitBytes(CharUnits(c)) + rest) == Some((c, 2 * |CharUnits(c)|))
  {
    var us := CharUnits(c);
    var b := UnitBytes(us);
    assert b[0] == us[0] % 256 && b[1] == us[0] / 256;
    assert UnitOf(b[0], b[1]) == us[0];
    if |us| == 2 {
      assert UnitBytes(us[1..]) == [us[1] % 256, us[1] / 256];
      assert b[2] == us[1] % 256 && b[3] == us[1] / 256;
      assert UnitOf(b[2], b[3]) == us[1];
    }
  }

  lemma {:induction false} DecodeOfEncode(s: string)
    ensures Decode(Encode(s)) == Some(s)
  {
    if s != "" {
      var front := UnitBytes(CharUnits(s[0]));
      DecodeCharOfEncode(s[0], Encode(s[1..]));
      assert Encode(s)[|front|..] == Encode(s[1..]);
      DecodeOfEncode(s[1..]);
      assert [s[0]] + s[1..] == s;
    }
  }

  /** The directory can read back exactly the quoted password, quotes inside it and surrogates included. */
  lemma PasswordRoundTrip(password: string)
    ensures Decode(PasswordBytes(password)) == Some("\"" + password + "\"")
  {
    DecodeOfEncode("\"" + password + "\"");
  }

  lemma PasswordInjective(p: string, q: string)
    requires PasswordBytes(p) == PasswordBytes(q)
    ensures p == q
  {
    PasswordRoundTrip(p);
    PasswordRoundTrip(q);
    assert p == ("\"" + p + "\"")[1..|p| + 1] && q == ("\"" + q + "\"")[1..|q| + 1];
  }

  /** How many characters lie beyond the basic plane. */
  function Astral(s: string): (n: nat)
    ensures n <= |s|
  {
    if s == "" then 0 else (if s[0] as int >= 0x10000 then 1 else 0) + Astral(s[1..])
  }

  lemma {:induction false} EncodeLength(s: string)
    ensures |Encode(s)| == 2 * (|s| + Astral(s))
  {
    if s != "" {
      EncodeLength(s[1..]);
    }
  }

  lemma {:induction false} AstralSnoc(s: string, c: char)
    ensures Astral(s + [c]) == Astral(s) + Astral([c])
  {
    if s == "" {
      assert s + [c] == [c];
    } else {
      assert (s + [c])[1..] == s[1..] + [c];
      AstralSnoc(s[1..], c);
    }
  }

  /** Two bytes for each quote and basic-plane character, four for every other character. */
  lemma PasswordLength(password: string)
    ensures |PasswordBytes(password)| == 2 * (2 + (|password| - Astral(password)) + 2 * Astral(password))
  {
    var quoted := "\"" + password + "\"";
    EncodeLength(quoted);
    assert quoted[1..] == password + ['"'];
    AstralSnoc(password, '"');
  }

  /** The password a, and one beyond the basic plane: low byte first, high surrogate first. */
  lemma Samples()
    ensures PasswordBytes("a") == [0x22, 0x00, 0x61, 0x00, 0x22, 0x00]
    ensures PasswordBytes("\U{1F600}") == [0x22, 0x00, 0x3D, 0xD8, 0x00, 0xDE, 0x22, 0x00]
  {
    assert UnitBytes(CharUnits('"')) == [0x22, 0x00] && UnitBytes(CharUnits('a')) == [0x61, 0x00];
    assert CharUnits('\U{1F600}') == [0xD83D, 0xDE00];
    assert UnitBytes([0xD83D, 0xDE00]) == [0x3D, 0xD8] + UnitBytes([0xDE00]);
    assert UnitBytes([0xDE00]) == [0x00, 0xDE];
    Three('"', 'a', '"');
    Three('"', '\U{1F600}', '"');
    assert "\"" + "a" + "\"" == ['"', 'a', '"'] && "\"" + "\U{1F600}" + "\"" == ['"', '\U{1F600}', '"'];
  }

  lemma Three(a: char, b: char, c: char)
    ensures Encode([a, b, c]) == UnitBytes(CharUnits(a)) + UnitBytes(CharUnits(b)) + UnitBytes(CharUnits(c))
  {
    assert [a, b, c][1..] == [b, c] && [b, c][1..] == [c] && [c][1..] == [];
    assert Encode([c]) == UnitBytes(CharUnits(c)) + Encode([]);
  }
}
