/**
  Client secrets inside connection configs: sealed on write, opened on read.
  AES-GCM and base64 are a parameter with one law.
 */
module ConnectionSecrets {
  import opened Wrappers
  import opened DbErrors
  import opened Text
  import Json

  type Bytes = seq<bv8>

  /** Seals a text under a key and a nonce; opens a sealed text, or fails. */
  datatype Cipher = Cipher(seal: (string, Bytes, Bytes) -> string, unseal: (string, Bytes) -> Option<string>)

  const KEY_LENGTH := 32

  /** Opening what was sealed under the same 32-byte key returns the text. */
  ghost predicate Lawful(cipher: Cipher) {
    forall text, key, nonce | |key| == KEY_LENGTH :: cipher.unseal(cipher.seal(text, key, nonce), key) == Some(text)
  }

  /** The cipher with the process's key, which may be absent or of the wrong length. */
  datatype Codec = Codec(cipher: Cipher, key: Option<Bytes>)

  function EncryptSecret(c: Codec, secret: string, nonce: Bytes): Result<string, DbError> {
    if c.key.None? then Err(EncryptionKeyMissing)
    else if |c.key.value| != KEY_LENGTH then Err(BadEncryptionKey)
    else Ok(c.cipher.seal(secret, c.key.value, nonce))
  }

  function DecryptSecret(c: Codec, sealed: string): Result<string, DbError> {
    if c.key.None? then Err(EncryptionKeyMissing)
    else if |c.key.value| != KEY_LENGTH then Err(BadEncryptionKey)
    else
      var plain := c.cipher.unseal(sealed, c.key.value);
      if plain.None? then Err(Undecipherable) else Ok(plain.value)
  }

  const SECRET := "client_secret"
  const MARK := "enc:"

  function WithSecret(config: Json.Value, secret: string): Json.Value
    requires config.Object?
  {
    config.(fields := config.fields[SECRET := Json.Text(secret)])
  }

  /** A failure to encrypt is only logged: the secret is then stored as it is. */
  function EncryptConfig(c: Codec, config: Json.Value, nonce: Bytes): Json.Value {
    var secret := Json.GetText(config, SECRET);
    if secret.None? then config
    else
      var sealed := EncryptSecret(c, secret.value, nonce);
      if sealed.Ok? then WithSecret(config, MARK + sealed.value) else config
  }

  function DecryptConfig(c: Codec, config: Json.Value): Json.Value {
    var stored := Json.GetText(config, SECRET);
    if stored.None? || !StartsWith(stored.value, MARK) then config
    else
      var plain := DecryptSecret(c, stored.value[|MARK|..]);
      if plain.Ok? then WithSecret(config, plain.value) else config
  }

  lemma WithSecretAgain(config: Json.Value, secret: string)
    requires Json.GetText(config, SECRET).Some?
    ensures WithSecret(WithSecret(config, secret), Json.GetText(config, SECRET).value) == config
  {
    var back := WithSecret(WithSecret(config, secret), Json.GetText(config, SECRET).value);
    assert back.fields == config.fields;
  }

  /** With one key state, whatever it is, reading undoes writing on every config. */
  lemma ConfigRoundTrip(c: Codec, config: Json.Value, nonce: Bytes)
    requires Lawful(c.cipher)
    ensures DecryptConfig(c, EncryptConfig(c, config, nonce)) == config
  {
    var secret := Json.GetText(config, SECRET);
    if secret.Some? {
      var sealed := EncryptSecret(c, secret.value, nonce);
      if sealed.Ok? {
        assert (MARK + sealed.value)[|MARK|..] == sealed.value;
        WithSecretAgain(config, MARK + sealed.value);
      } else {
        assert DecryptSecret(c, secret.value).Err?;
      }
    }
  }

  /** A config written without a usable key and read after a key arrives is unchanged
      exactly when its secret is not marked text that the key opens to another secret. */
  lemma KeyRolloutReadsBackIff(before: Codec, now: Codec, config: Json.Value, nonce: Bytes)
    requires before.key.None? || |before.key.value| != KEY_LENGTH
    ensures DecryptConfig(now, EncryptConfig(before, config, nonce)) == config <==>
            !(exists inner :: Json.GetText(config, SECRET) == Some(MARK + inner)
                              && DecryptSecret(now, inner).Ok? && DecryptSecret(now, inner).value != MARK + inner)
  {
    var secret := Json.GetText(config, SECRET);
    assert EncryptConfig(before, config, nonce) == config;
    if secret.Some? && StartsWith(secret.value, MARK) {
      var rest := secret.value[|MARK|..];
      assert secret.value == MARK + rest;
      forall inner | secret.value == MARK + inner ensures inner == rest {
        assert (MARK + inner)[|MARK|..] == inner;
      }
      var plain := DecryptSecret(now, rest);
      if plain.Ok? {
        var out := WithSecret(config, plain.value);
        assert Json.GetText(out, SECRET) == Some(plain.value);
        if plain.value == secret.value {
          assert out.fields == config.fields;
        }
      }
    }
  }

  /** The key can be used: it is there and has the right length. */
  predicate Usable(c: Codec) {
    c.key.Some? && |c.key.value| == 32
  }

  /**
    What reaches the table. With a usable key a text secret is stored marked and
    sealed and never otherwise; without one, or without a text secret, the config
    is stored as it is. No other member ever changes.
   */
  lemma StoredConfigMeans(c: Codec, config: Json.Value, nonce: Bytes, other: string)
    ensures var stored := EncryptConfig(c, config, nonce);
            var secret := Json.GetText(config, SECRET);
            && (Usable(c) && secret.Some? ==>
                  Json.Get(stored, SECRET) == Some(Json.Text(MARK + c.cipher.seal(secret.value, c.key.value, nonce))))
            && (!Usable(c) || secret.None? ==> stored == config)
            && (other != SECRET ==> Json.Get(stored, other) == Json.Get(config, other))
  {
  }

  /** A read changes at most the secret, and only one that is marked and opens. */
  lemma ReadConfigMeans(c: Codec, stored: Json.Value, other: string)
    ensures var plain := DecryptConfig(c, stored);
            && (other != SECRET ==> Json.Get(plain, other) == Json.Get(stored, other))
            && (plain != stored ==>
                  && Usable(c) && Json.GetText(stored, SECRET).Some? && MARK <= Json.GetText(stored, SECRET).value
                  && Json.GetText(plain, SECRET).Some?
                  && c.cipher.unseal(Json.GetText(stored, SECRET).value[|MARK|..], c.key.value)
                     == Some(Json.GetText(plain, SECRET).value))
  {
  }
}
