/** The secret codec, and the references that configuration values go through. */
module Secrets {
  import opened Text
  import Base64
  import Utf8

  /** Authenticated encryption: (key, IV, plaintext) to ciphertext and back; either side may refuse. */
  datatype Aead = Aead(
    seal: (seq<byte>, seq<byte>, seq<byte>) -> Option<seq<byte>>,
    unseal: (seq<byte>, seq<byte>, seq<byte>) -> Option<seq<byte>>)

  /** All that is asked of it: decryption undoes encryption, and a ciphertext is never empty. */
  ghost predicate Lawful(a: Aead) {
    forall key, iv, plain :: a.seal(key, iv, plain).Some? ==>
      a.seal(key, iv, plain).value != [] && a.unseal(key, iv, a.seal(key, iv, plain).value) == Some(plain)
  }

  datatype Cipher = Cipher(aead: Aead, key: seq<byte>, keyId: string)

  const IV_SIZE := 12
  const KEY_SIZE := 32
  const ALGORITHM := "AES-256-GCM"

  type Iv = iv: seq<byte> | |iv| == IV_SIZE witness seq(IV_SIZE, _ => 0)

  function CryptoError(message: string): string { "crypto error: " + message }

  function FromBase64Key(aead: Aead, base64Key: string, keyId: string): Result<Cipher> {
    match Base64.Decode(Trim(base64Key))
    case None => Err(CryptoError("invalid base64 key"))
    case Some(bytes) =>
      if |bytes| != KEY_SIZE then Err(CryptoError("key must be 32 bytes (256-bit); got " + Decimal(|bytes|)))
      else Ok(Cipher(aead, bytes, keyId))
  }

  function DecryptB64(c: Cipher, b64: string): Result<string> {
    match Base64.Decode(Trim(b64))
    case None => Err(CryptoError("invalid base64 ciphertext"))
    case Some(combined) =>
      if |combined| <= IV_SIZE then Err(CryptoError("ciphertext too short"))
      else match c.aead.unseal(c.key, combined[..IV_SIZE], combined[IV_SIZE..])
        case None => Err(CryptoError("decryption failed (bad key or tampered data)"))
        case Some(plain) =>
          match Utf8.Decode(plain)
          case None => Err(CryptoError("plaintext not UTF-8"))
          case Some(text) => Ok(text)
  }

  function DecryptSerialized(c: Cipher, serialized: string): Result<string> {
    DecryptB64(c, AfterLast(serialized, '|'))
  }

  function Serialize(keyId: string, combined: seq<byte>): string {
    ALGORITHM + "|" + keyId + "|" + Base64.Encode(combined)
  }

  function EncryptSerialized(c: Cipher, iv: Iv, plaintext: string): Result<string> {
    match c.aead.seal(c.key, iv, Utf8.Encode(plaintext))
    case None => Err(CryptoError("encryption failed"))
    case Some(ct) => Ok(Serialize(c.keyId, iv + ct))
  }

  /** The key id may hold the separator: the text after the last one is the Base64 part. */
  lemma Base64Part(keyId: string, combined: seq<byte>)
    ensures Trim(AfterLast(Serialize(keyId, combined), '|')) == Base64.Encode(combined)
  {
    var b64 := Base64.Encode(combined);
    Base64.EncodePlain(combined);
    AfterLastOf(ALGORITHM + "|" + keyId, b64, '|');
    TrimFixed(b64);
  }

  lemma DecryptCombined(c: Cipher, b64: string, iv: Iv, ct: seq<byte>, plaintext: string)
    requires Base64.Decode(Trim(b64)) == Some(iv + ct) && ct != []
    requires c.aead.unseal(c.key, iv, ct) == Some(Utf8.Encode(plaintext))
    ensures DecryptB64(c, b64) == Ok(plaintext)
  {
    var combined := iv + ct;
    assert combined[..IV_SIZE] == iv && combined[IV_SIZE..] == ct;
    Utf8.DecodeOfEncode(plaintext);
  }

  /**
   Whatever the plaintext, the IV and the key id (separators in it included), decrypting the serialized
   form with the same key gives the plaintext back.
   */
  lemma SerializedRoundTrip(c: Cipher, d: Cipher, iv: Iv, plaintext: string)
    requires Lawful(c.aead) && d.aead == c.aead && d.key == c.key
    requires EncryptSerialized(c, iv, plaintext).Ok?
    ensures DecryptSerialized(d, EncryptSerialized(c, iv, plaintext).value) == Ok(plaintext)
  {
    var ct := c.aead.seal(c.key, iv, Utf8.Encode(plaintext)).value;
    var serialized := Serialize(c.keyId, iv + ct);
    Base64Part(c.keyId, iv + ct);
    Base64.DecodeOfEncode(iv + ct);
    DecryptCombined(d, AfterLast(serialized, '|'), iv, ct, plaintext);
  }

  /** The first `n` bytes of a random generator. */
  function Draw(random: nat -> byte, n: nat): (b: seq<byte>)
    ensures |b| == n
  {
    if n == 0 then [] else Draw(random, n - 1) + [random(n - 1)]
  }

  /** A generated key: the encoding of 32 random bytes. */
  function GeneratedKey(random: nat -> byte): string { Base64.Encode(Draw(random, KEY_SIZE)) }

  /** Every generated key is accepted, and is the key it was generated from. */
  lemma GeneratedKeyAccepted(aead: Aead, random: nat -> byte, keyId: string)
    ensures FromBase64Key(aead, GeneratedKey(random), keyId) == Ok(Cipher(aead, Draw(random, KEY_SIZE), keyId))
  {
    KeyAccepted(aead, Draw(random, KEY_SIZE), keyId);
  }

  lemma KeyAccepted(aead: Aead, bytes: seq<byte>, keyId: string)
    requires |bytes| == KEY_SIZE
    ensures FromBase64Key(aead, Base64.Encode(bytes), keyId) == Ok(Cipher(aead, bytes, keyId))
  {
    Base64.EncodePlain(bytes);
    Base64.DecodeOfEncode(bytes);
    TrimFixed(Base64.Encode(bytes));
  }

  // --- filling the buffers ----------------------------------------------------------------------

  /** `fill_bytes`: the buffer takes the generator's next bytes. */
  method FillBytes(buffer: array<byte>, random: nat -> byte)
    modifies buffer
    ensures buffer[..] == Draw(random, buffer.Length)
  {
    for i := 0 to buffer.Length
      invariant buffer[..i] == Draw(random, i)
    {
      buffer[i] := random(i);
      assert buffer[..i + 1] == buffer[..i] + [random(i)];
    }
    assert buffer[..] == buffer[..buffer.Length];
  }

  method GenerateBase64Key(random: nat -> byte) returns (key: string)
    ensures key == GeneratedKey(random)
  {
    var bytes := new byte[KEY_SIZE](_ => 0);
    FillBytes(bytes, random);
    key := Base64.Encode(bytes[..]);
  }

  method Encrypt(c: Cipher, random: nat -> byte, plaintext: string) returns (serialized: Result<string>)
    ensures serialized == EncryptSerialized(c, Draw(random, IV_SIZE), plaintext)
  {
    var iv := new byte[IV_SIZE](_ => 0);
    FillBytes(iv, random);
    serialized := EncryptWith(c, iv[..], plaintext);
  }

  method EncryptWith(c: Cipher, iv: Iv, plaintext: string) returns (serialized: Result<string>)
    ensures serialized == EncryptSerialized(c, iv, plaintext)
  {
    var ct := c.aead.seal(c.key, iv, Utf8.Encode(plaintext));
    if ct.None? {
      return Err(CryptoError("encryption failed"));
    }
    var combined: seq<byte> := [];
    combined := combined + iv;
    combined := combined + ct.value;
    assert combined == iv + ct.value;
    serialized := Ok(Serialize(c.keyId, combined));
  }

  // --- references in the configuration ----------------------------------------------------------

  type Vars = map<string, string>

  const VAULT_KEY := "NEXUS_AGENT_KEY"

  /** The local vault, when its key is set. */
  function Vault(aead: Aead, vars: Vars): Result<Option<Cipher>> {
    if VAULT_KEY in vars && Trim(vars[VAULT_KEY]) != "" then
      match FromBase64Key(aead, vars[VAULT_KEY], "local")
      case Ok(c) => Ok(Some(c))
      case Err(e) => Err(e)
    else Ok(None)
  }

  function ConfigError(message: string): string { "configuration error: " + message }

  /** A configuration value: an environment reference, a vault secret, or the value itself. */
  function Resolve(aead: Aead, vars: Vars, raw: string): Result<string> {
    if StartsWith(raw, "env:") then
      if raw[4..] in vars then Ok(vars[raw[4..]]) else Err(ConfigError("env var '" + raw[4..] + "' not set"))
    else if StartsWith(raw, "enc:") then
      match Vault(aead, vars)
      case Err(e) => Err(e)
      case Ok(None) => Err(ConfigError("an enc: secret requires NEXUS_AGENT_KEY to be set"))
      case Ok(Some(vault)) => DecryptSerialized(vault, raw[4..])
    else Ok(raw)
  }

  predicate IsReference(v: string) { StartsWith(v, "env:") || StartsWith(v, "enc:") }

  /** What is written to the configuration in place of a secret, and whether a note goes with it. */
  function Harden(value: string, vault: Option<Cipher>, envName: string, iv: Iv): (string, bool) {
    var v := Trim(value);
    if v == "" || IsReference(v) then (v, false)
    else match vault
      case None => ("env:" + envName, true)
      case Some(c) =>
        match EncryptSerialized(c, iv, v)
        case Ok(enc) => ("enc:" + enc, false)
        case Err(_) => ("env:" + envName, true)
  }

  /** No raw secret is ever written: the output is empty, or a reference. */
  lemma HardenedIsReference(value: string, vault: Option<Cipher>, envName: string, iv: Iv)
    ensures var out := Harden(value, vault, envName, iv).0; out == "" || IsReference(out)
    ensures Harden(value, vault, envName, iv).0 == "" <==> Trim(value) == ""
  {
  }

  lemma SerializedTrimmed(c: Cipher, iv: Iv, v: string)
    requires EncryptSerialized(c, iv, v).Ok?
    ensures var out := "enc:" + EncryptSerialized(c, iv, v).value; Trim(out) == out
  {
    var combined := iv + c.aead.seal(c.key, iv, Utf8.Encode(v)).value;
    Base64.EncodePlain(combined);
    Base64Ends(combined);
    PrefixTrimmed("enc:", ALGORITHM + "|" + c.keyId + "|", Base64.Encode(combined));
  }

  lemma Base64Ends(combined: seq<byte>)
    requires combined != []
    ensures var b64 := Base64.Encode(combined); b64 != "" && !IsSpace(b64[|b64| - 1])
  {
    Base64.EncodePlain(combined);
  }

  /** A text is trimmed when its first part begins, and its last part ends, with no white space. */
  lemma PrefixTrimmed(front: string, middle: string, last: string)
    requires front != "" && !IsSpace(front[0]) && last != "" && !IsSpace(last[|last| - 1])
    ensures Trim(front + (middle + last)) == front + (middle + last)
  {
    var s := front + (middle + last);
    assert s[0] == front[0] && s[|s| - 1] == last[|last| - 1];
    TrimFixed(s);
  }

  /** The value is a raw secret and nothing can encrypt it, so the fallback reference is written. */
  predicate FallsBack(value: string, vault: Option<Cipher>, iv: Iv) {
    var v := Trim(value);
    v != "" && !IsReference(v) && (vault.None? || EncryptSerialized(vault.value, iv, v).Err?)
  }

  predicate EndsInSpace(s: string) { s != "" && IsSpace(s[|s| - 1]) }

  /**
   Hardening an output again, with whatever vault and fallback, only trims it. So hardening is idempotent
   exactly unless it falls back on a variable whose name ends in white space.
   */
  lemma HardenTwice(
      value: string, vault: Option<Cipher>, envName: string, iv: Iv,
      vault': Option<Cipher>, envName': string, iv': Iv)
    ensures var out := Harden(value, vault, envName, iv).0; Harden(out, vault', envName', iv') == (Trim(out), false)
    ensures var out := Harden(value, vault, envName, iv).0;
            Harden(out, vault', envName', iv').0 == out <==> !(FallsBack(value, vault, iv) && EndsInSpace(envName))
  {
    var out := Harden(value, vault, envName, iv).0;
    if FallsBack(value, vault, iv) {
      FallbackWritten(value, vault, envName, iv);
      TrimReference(envName);
    } else {
      HardenedTrims(value, vault, envName, iv);
      HardenedIsReference(value, vault, envName, iv);
    }
    HardenReference(out, vault', envName', iv');
  }

  lemma FallbackWritten(value: string, vault: Option<Cipher>, envName: string, iv: Iv)
    requires FallsBack(value, vault, iv)
    ensures Harden(value, vault, envName, iv).0 == "env:" + envName
  {
  }

  /** An output that is not the fallback is trimmed. */
  lemma HardenedTrims(value: string, vault: Option<Cipher>, envName: string, iv: Iv)
    requires !FallsBack(value, vault, iv)
    ensures var out := Harden(value, vault, envName, iv).0; Trim(out) == out
  {
    var v := Trim(value);
    if v == "" || IsReference(v) {
      TrimEnds(value);
    } else {
      HardenedByVault(value, vault, envName, iv);
      SerializedTrimmed(vault.value, iv, v);
    }
  }

  lemma HardenedByVault(value: string, vault: Option<Cipher>, envName: string, iv: Iv)
    requires !FallsBack(value, vault, iv) && Trim(value) != "" && !IsReference(Trim(value))
    ensures vault.Some? && EncryptSerialized(vault.value, iv, Trim(value)).Ok?
    ensures Harden(value, vault, envName, iv).0 == "enc:" + EncryptSerialized(vault.value, iv, Trim(value)).value
  {
  }

  lemma RawSecret(v: string, iv: Iv)
    requires |v| == 1 && !IsSpace(v[0])
    ensures FallsBack(v, None, iv)
  {
    TrimFixed(v);
  }

  /** For instance: without a vault, a secret falls back on the variable "N ", and hardening that drops the blank. */
  lemma HardenNotIdempotent(iv: Iv) returns (value: string, envName: string)
    ensures value == "s" && envName == "N "
    ensures var out := Harden(value, None, envName, iv).0;
            out == "env:" + envName && Harden(out, None, envName, iv).0 != out
  {
    value, envName := "s", "N ";
    FallbackDropsBlank(value, envName, iv);
  }

  lemma FallbackDropsBlank(value: string, envName: string, iv: Iv)
    requires |value| == 1 && !IsSpace(value[0]) && EndsInSpace(envName)
    ensures var out := Harden(value, None, envName, iv).0;
            out == "env:" + envName && Harden(out, None, envName, iv).0 != out
  {
    RawSecret(value, iv);
    FallbackWritten(value, None, envName, iv);
    HardenTwice(value, None, envName, iv, None, envName, iv);
  }

  /** What is empty or a reference once trimmed passes through, trimmed. */
  lemma HardenReference(value: string, vault: Option<Cipher>, envName: string, iv: Iv)
    requires Trim(value) == "" || IsReference(Trim(value))
    ensures Harden(value, vault, envName, iv) == (Trim(value), false)
  {
  }

  /** A fallback reference is trimmed exactly unless its name ends in white space, and is a reference either way. */
  lemma TrimReference(name: string)
    ensures IsReference(Trim("env:" + name))
    ensures Trim("env:" + name) == "env:" + name <==> !EndsInSpace(name)
  {
    TrimKeepsFront("env:", name);
    TrimmedEnd("env:", name);
  }

  lemma TrimKeepsFront(front: string, name: string)
    requires front != "" && !IsSpace(front[0]) && !IsSpace(front[|front| - 1])
    ensures front <= Trim(front + name)
  {
    var s := front + name;
    assert s[0] == front[0] && TrimStart(s) == s;
    var t := TrimEnd(s);
    assert s[|front| - 1] == front[|front| - 1];
    assert |t| >= |front|;
    assert t[..|front|] == front;
  }

  lemma TrimmedEnd(front: string, name: string)
    requires front != "" && !IsSpace(front[0]) && !IsSpace(front[|front| - 1])
    ensures Trim(front + name) == front + name <==> !EndsInSpace(name)
  {
    var s := front + name;
    assert s[0] == front[0] && s[|s| - 1] == (if name == "" then front[|front| - 1] else name[|name| - 1]);
    if EndsInSpace(name) {
      assert Trim(s) != s;
    } else {
      TrimFixed(s);
    }
  }

  /**
   Hardening round trip. A raw secret hardened with a vault comes back trimmed from any process whose
   vault has the same key, whatever the key ids.
   */
  lemma ResolveUndoesHarden(aead: Aead, vars: Vars, value: string, c: Cipher, envName: string, iv: Iv)
    requires Lawful(aead) && c.aead == aead
    requires Vault(aead, vars).Ok? && Vault(aead, vars).value.Some? && Vault(aead, vars).value.value.key == c.key
    requires Trim(value) != "" && !IsReference(Trim(value))
    requires EncryptSerialized(c, iv, Trim(value)).Ok?
    ensures Resolve(aead, vars, Harden(value, Some(c), envName, iv).0) == Ok(Trim(value))
  {
    var v := Trim(value);
    var enc := EncryptSerialized(c, iv, v).value;
    var vault := Vault(aead, vars).value.value;
    VaultAead(aead, vars);
    SerializedRoundTrip(c, vault, iv, v);
    ResolveEnc(aead, vars, enc);
  }

  lemma VaultAead(aead: Aead, vars: Vars)
    ensures Vault(aead, vars).Ok? && Vault(aead, vars).value.Some? ==> Vault(aead, vars).value.value.aead == aead
  {
  }

  lemma ResolveEnc(aead: Aead, vars: Vars, enc: string)
    requires Vault(aead, vars).Ok? && Vault(aead, vars).value.Some?
    ensures Resolve(aead, vars, "enc:" + enc) == DecryptSerialized(Vault(aead, vars).value.value, enc)
  {
    EncShape(enc);
  }

  lemma EncShape(enc: string)
    ensures StartsWith("enc:" + enc, "enc:") && !StartsWith("enc:" + enc, "env:") && ("enc:" + enc)[4..] == enc
  {
    assert "env:"[2] == 'v' && ("enc:" + enc)[2] == 'c';
  }

  /** Without a usable vault, the value comes back exactly when the operator has set the variable to it. */
  lemma ResolveFallback(aead: Aead, vars: Vars, value: string, vault: Option<Cipher>, envName: string, iv: Iv)
    requires Trim(value) != "" && !IsReference(Trim(value))
    requires vault.Some? ==> EncryptSerialized(vault.value, iv, Trim(value)).Err?
    ensures Harden(value, vault, envName, iv) == ("env:" + envName, true)
    ensures Resolve(aead, vars, Harden(value, vault, envName, iv).0) == Ok(Trim(value))
        <==> envName in vars && vars[envName] == Trim(value)
  {
    assert ("env:" + envName)[4..] == envName;
  }

  // --- the values themselves ----------------------------------------------------------------------

  /** A key is accepted if and only if it decodes to exactly 32 bytes. */
  lemma KeyAcceptedExactly(aead: Aead, base64Key: string, keyId: string)
    ensures FromBase64Key(aead, base64Key, keyId).Ok?
        <==> Base64.Decode(Trim(base64Key)).Some? && |Base64.Decode(Trim(base64Key)).value| == 32
    ensures FromBase64Key(aead, base64Key, keyId).Ok? ==>
              FromBase64Key(aead, base64Key, keyId).value.key == Base64.Decode(Trim(base64Key)).value
  {
  }

  /** A serialized secret: the algorithm, the key id, and the encoding of 12 IV bytes before the ciphertext. */
  lemma SerializedForm(c: Cipher, iv: Iv, plaintext: string)
    requires EncryptSerialized(c, iv, plaintext).Ok?
    ensures |iv| == 12 && c.aead.seal(c.key, iv, Utf8.Encode(plaintext)).Some?
    ensures EncryptSerialized(c, iv, plaintext).value
         == "AES-256-GCM" + "|" + c.keyId + "|"
            + Base64.Encode(iv + c.aead.seal(c.key, iv, Utf8.Encode(plaintext)).value)
  {
  }

  /** What decrypts: 12 IV bytes and a ciphertext that the cipher opens to UTF-8 text. */
  lemma DecryptsExactly(c: Cipher, b64: string, plaintext: string)
    ensures DecryptB64(c, b64) == Ok(plaintext)
        <==> && Base64.Decode(Trim(b64)).Some? && |Base64.Decode(Trim(b64)).value| > 12
             && var combined := Base64.Decode(Trim(b64)).value;
                && c.aead.unseal(c.key, combined[..12], combined[12..]).Some?
                && Utf8.Decode(c.aead.unseal(c.key, combined[..12], combined[12..]).value) == Some(plaintext)
  {
  }

  /** References by their prefixes: a variable, a secret of the vault in NEXUS_AGENT_KEY, anything else as it is. */
  lemma ResolveReads(aead: Aead, vars: Vars, raw: string)
    ensures "env:" <= raw ==>
              && (Resolve(aead, vars, raw).Ok? <==> raw[4..] in vars)
              && (raw[4..] in vars ==> Resolve(aead, vars, raw) == Ok(vars[raw[4..]]))
    ensures "enc:" <= raw && ("NEXUS_AGENT_KEY" !in vars || Trim(vars["NEXUS_AGENT_KEY"]) == "") ==>
              Resolve(aead, vars, raw).Err?
    ensures "enc:" <= raw && "NEXUS_AGENT_KEY" in vars && Trim(vars["NEXUS_AGENT_KEY"]) != "" ==>
              match FromBase64Key(aead, vars["NEXUS_AGENT_KEY"], "local")
              case Err(_) => Resolve(aead, vars, raw).Err?
              case Ok(vault) => Resolve(aead, vars, raw) == DecryptSerialized(vault, raw[4..])
    ensures !("env:" <= raw) && !("enc:" <= raw) ==> Resolve(aead, vars, raw) == Ok(raw)
  {
    if "env:" <= raw {
      assert raw[2] == 'v' && "enc:"[2] == 'c';
    }
  }
}
