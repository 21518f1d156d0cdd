/** OAuthEncryptionService: packs an OAuth token pair into one encrypted
    payload and unpacks it again. The cipher (AES with Base64) is abstract. */
module OAuthEncryptionService {
  import opened Wrappers
  import opened JavaText

  /** The holders of the token fields the service reads and writes. Java's
      nullable String and Long fields are Options. */
  datatype EncryptedOAuthTokens = EncryptedOAuthTokens(
    name: Option<string>, email: Option<string>, provider: Option<string>,
    scope: Option<string>, expiresInSeconds: Option<int>,
    payload: Option<string>, valid: bool)

  datatype OAuth2Tokens = OAuth2Tokens(
    name: Option<string>, email: Option<string>, provider: Option<string>,
    accessToken: Option<string>, refreshToken: Option<string>, valid: bool)

  datatype OAuth1Tokens = OAuth1Tokens(
    name: Option<string>, email: Option<string>, provider: Option<string>,
    accessToken: Option<string>, accessTokenSecret: Option<string>,
    scope: Option<string>, expiresInSeconds: Option<int>, valid: bool)

  /** encrypt(String) and decrypt(String): Base64 over AES, abstract. */
  datatype Cipher = Cipher(seal: string -> string, open: string -> string)

  /** What the framing relies on from AES and Base64: decryption undoes
      encryption, and a ciphertext is never blank (AES output is at least one
      block, and Base64 produces no whitespace). */
  ghost predicate IsSound(c: Cipher) {
    forall p :: c.open(c.seal(p)) == p && !IsBlank(Some(c.seal(p)))
  }

  /** The constructor's two exceptions. */
  datatype KeyError = BlankKey | InvalidKeyLength(length: nat)

  /** The service's final fields: the key and the ciphers built from it. */
  datatype EncryptionService = EncryptionService(encryptionKey: string, cipher: Cipher)

  /** checkKey: the key's byte length must be one of AES's 16, 24 or 32. */
  function CheckKey(encryptionKey: string): (r: Outcome<KeyError>)
    ensures r.Pass? <==> Utf8Length(encryptionKey) in {16, 24, 32}
    ensures r.Fail? ==> r.error == InvalidKeyLength(Utf8Length(encryptionKey))
  {
    var keyLength := Utf8Length(encryptionKey);
    if keyLength == 16 || keyLength == 24 || keyLength == 32 then Pass else Fail(InvalidKeyLength(keyLength))
  }

  /** The constructor: a blank key is refused first, then the length check;
      `cipherFor` stands for building the AES ciphers from the key. */
  function NewEncryptionService(encryptionKey: Option<string>, cipherFor: string -> Cipher): (r: Result<EncryptionService, KeyError>)
    ensures IsBlank(encryptionKey) ==> r == Failure(BlankKey)
    ensures r.Success? <==> !IsBlank(encryptionKey) && Utf8Length(encryptionKey.value) in {16, 24, 32}
    ensures r.Success? ==> r.value.encryptionKey == encryptionKey.value && r.value.cipher == cipherFor(encryptionKey.value)
  {
    if IsBlank(encryptionKey) then Failure(BlankKey)
    else
      match CheckKey(encryptionKey.value)
      case Fail(e) => Failure(e)
      case Pass => Success(EncryptionService(encryptionKey.value, cipherFor(encryptionKey.value)))
  }

  /** It is the byte length that counts: a 16-character key passes exactly
      when it is all ASCII or its UTF-8 form happens to take 24 or 32 bytes. */
  lemma KeyLengthCountsBytes(key: string)
    requires |key| == 16
    ensures CheckKey(key).Pass? <==> (forall i :: 0 <= i < |key| ==> key[i] as int < 0x80) || Utf8Length(key) in {24, 32}
  {
    Utf8LengthAsciiIff(key);
  }

  /** String.format("%s", s): a null argument prints as "null". */
  function Show(s: Option<string>): string {
    if s.None? then "null" else s.value
  }

  /** String.format("%s:%s", a, b) */
  function FormatPair(a: Option<string>, b: Option<string>): string {
    Show(a) + ":" + Show(b)
  }

  /** new EncryptedOAuthTokens(OAuth2Tokens): the shared descriptive fields. */
  function FromOAuth2(tokens: OAuth2Tokens): EncryptedOAuthTokens {
    EncryptedOAuthTokens(tokens.name, tokens.email, tokens.provider, None, None, None, tokens.valid)
  }

  /** new EncryptedOAuthTokens(OAuth1Tokens): the shared descriptive fields. */
  function FromOAuth1(tokens: OAuth1Tokens): EncryptedOAuthTokens {
    EncryptedOAuthTokens(tokens.name, tokens.email, tokens.provider, tokens.scope,
                         tokens.expiresInSeconds, None, tokens.valid)
  }

  /** new OAuth2Tokens(EncryptedOAuthTokens): tokens unset. */
  function ToOAuth2(tokens: EncryptedOAuthTokens): OAuth2Tokens {
    OAuth2Tokens(tokens.name, tokens.email, tokens.provider, None, None, tokens.valid)
  }

  /** new OAuth1Tokens(EncryptedOAuthTokens): tokens unset. */
  function ToOAuth1(tokens: EncryptedOAuthTokens): OAuth1Tokens {
    OAuth1Tokens(tokens.name, tokens.email, tokens.provider, None, None,
                 tokens.scope, tokens.expiresInSeconds, tokens.valid)
  }

  /** encrypt(OAuth2Tokens): the payload is the sealed "access:refresh". */
  function EncryptOAuth2(service: EncryptionService, tokens: OAuth2Tokens): (out: EncryptedOAuthTokens)
    ensures out.payload == Some(service.cipher.seal(FormatPair(tokens.accessToken, tokens.refreshToken)))
    ensures out.(payload := None) == FromOAuth2(tokens)
  {
    FromOAuth2(tokens).(payload := Some(service.cipher.seal(FormatPair(tokens.accessToken, tokens.refreshToken))))
  }

  /** encrypt(OAuth1Tokens): the payload is the sealed "access:secret". */
  function EncryptOAuth1(service: EncryptionService, tokens: OAuth1Tokens): (out: EncryptedOAuthTokens)
    ensures out.payload == Some(service.cipher.seal(FormatPair(tokens.accessToken, tokens.accessTokenSecret)))
    ensures out.(payload := None) == FromOAuth1(tokens)
  {
    FromOAuth1(tokens).(payload := Some(service.cipher.seal(FormatPair(tokens.accessToken, tokens.accessTokenSecret))))
  }

  /** n separators: what String.split drops from the end (as empty parts). */
  function Colons(n: nat): string {
    seq(n, _ => ':')
  }

  /** The two parts a non-blank payload decrypts and splits into, when there
      are exactly two. */
  function PayloadParts(service: EncryptionService, payload: Option<string>): (r: Option<(string, string)>)
    ensures r.Some? <==> !IsBlank(payload) && |Split(service.cipher.open(payload.value), ':')| == 2
    ensures r.Some? ==> var plain := service.cipher.open(payload.value);
      && ':' !in r.value.0 && ':' !in r.value.1 && r.value.1 != ""
      && exists n: nat :: plain == r.value.0 + ":" + r.value.1 + Colons(n)
  {
    if IsBlank(payload) then None
    else
      var plain := service.cipher.open(payload.value);
      var parts := Split(plain, ':');
      if |parts| == 2 then
        SplitTwo(plain, ':');
        var n := |plain| - |parts[0]| - 1 - |parts[1]|;
        assert plain == parts[0] + ":" + parts[1] + Colons(n);
        Some((parts[0], parts[1]))
      else None
  }

  /** decrypt(EncryptedOAuthTokens): both tokens are set only from a payload
      that splits into exactly two parts; otherwise both stay null. */
  function DecryptOAuth2(service: EncryptionService, tokens: EncryptedOAuthTokens): (out: OAuth2Tokens)
    ensures out.(accessToken := None, refreshToken := None) == ToOAuth2(tokens)
    ensures out.accessToken.Some? <==> PayloadParts(service, tokens.payload).Some?
    ensures out.accessToken.Some? ==> var p := PayloadParts(service, tokens.payload).value;
      out.accessToken == Some(p.0) && out.refreshToken == Some(p.1)
    ensures out.accessToken.None? ==> out.refreshToken.None?
  {
    var out := ToOAuth2(tokens);
    match PayloadParts(service, tokens.payload)
    case None => out
    case Some((access, refresh)) => out.(accessToken := Some(access), refreshToken := Some(refresh))
  }

  /** decryptOAuth1: the same split-and-assign, into access token and secret. */
  function DecryptOAuth1(service: EncryptionService, tokens: EncryptedOAuthTokens): (out: OAuth1Tokens)
    ensures out.(accessToken := None, accessTokenSecret := None) == ToOAuth1(tokens)
    ensures out.accessToken.Some? <==> PayloadParts(service, tokens.payload).Some?
    ensures out.accessToken.Some? ==> var p := PayloadParts(service, tokens.payload).value;
      out.accessToken == Some(p.0) && out.accessTokenSecret == Some(p.1)
    ensures out.accessToken.None? ==> out.accessTokenSecret.None?
  {
    var out := ToOAuth1(tokens);
    match PayloadParts(service, tokens.payload)
    case None => out
    case Some((access, secret)) => out.(accessToken := Some(access), accessTokenSecret := Some(secret))
  }

  /** Framing round trip: with a sound cipher, two tokens without ':' (the
      second non-empty) are recovered by decrypt from what encrypt produced,
      together with the descriptive fields. */
  lemma OAuth2RoundTrip(service: EncryptionService, tokens: OAuth2Tokens)
    requires IsSound(service.cipher)
    requires tokens.accessToken.Some? && tokens.refreshToken.Some?
    requires ':' !in tokens.accessToken.value && ':' !in tokens.refreshToken.value
    requires tokens.refreshToken.value != ""
    ensures DecryptOAuth2(service, EncryptOAuth2(service, tokens)) == tokens
  {
    var plain := FormatPair(tokens.accessToken, tokens.refreshToken);
    assert service.cipher.open(service.cipher.seal(plain)) == plain;
    assert !IsBlank(Some(service.cipher.seal(plain)));
    SplitJoin(tokens.accessToken.value, tokens.refreshToken.value, ':');
    assert plain == tokens.accessToken.value + [':'] + tokens.refreshToken.value;
  }

  /** The same round trip for OAuth1 access token and secret. */
  lemma OAuth1RoundTrip(service: EncryptionService, tokens: OAuth1Tokens)
    requires IsSound(service.cipher)
    requires tokens.accessToken.Some? && tokens.accessTokenSecret.Some?
    requires ':' !in tokens.accessToken.value && ':' !in tokens.accessTokenSecret.value
    requires tokens.accessTokenSecret.value != ""
    ensures DecryptOAuth1(service, EncryptOAuth1(service, tokens)) == tokens
  {
    var plain := FormatPair(tokens.accessToken, tokens.accessTokenSecret);
    assert service.cipher.open(service.cipher.seal(plain)) == plain;
    assert !IsBlank(Some(service.cipher.seal(plain)));
    SplitJoin(tokens.accessToken.value, tokens.accessTokenSecret.value, ':');
    assert plain == tokens.accessToken.value + [':'] + tokens.accessTokenSecret.value;
  }

  /** A null token is framed as the text "null", so it comes back as the
      four-character string rather than as null. */
  lemma NullTokenComesBackAsText(service: EncryptionService, tokens: OAuth2Tokens)
    requires IsSound(service.cipher)
    requires tokens.accessToken.None? && tokens.refreshToken.Some?
    requires ':' !in tokens.refreshToken.value && tokens.refreshToken.value != ""
    ensures DecryptOAuth2(service, EncryptOAuth2(service, tokens)).accessToken == Some("null")
  {
    OAuth2RoundTrip(service, tokens.(accessToken := Some("null")));
    assert EncryptOAuth2(service, tokens) == EncryptOAuth2(service, tokens.(accessToken := Some("null")));
  }

  /** A blank or null payload is not decrypted: the tokens stay null. */
  lemma BlankPayloadLeavesTokensUnset(service: EncryptionService, tokens: EncryptedOAuthTokens)
    requires IsBlank(tokens.payload)
    ensures DecryptOAuth2(service, tokens) == ToOAuth2(tokens)
    ensures DecryptOAuth1(service, tokens) == ToOAuth1(tokens)
  {
  }

  /** String.split(":") drops a trailing empty part, so "a:" is one part
      and decrypts to no tokens. */
  lemma SplitDropsTrailingEmpty()
    ensures Split("a:", ':') == ["a"]
  {
    var s := "a:";
    IndexOfFirst(s, ':', 1);
    assert s[..1] == "a" && s[2..] == "";
    assert SplitAll(s, ':') == ["a", ""];
  }

  /** A leading empty part is kept: ":b" is two parts, the first empty. */
  lemma SplitKeepsLeadingEmpty()
    ensures Split(":b", ':') == ["", "b"]
  {
    SplitJoin("", "b", ':');
    assert ":b" == "" + [':'] + "b";
  }

  /** A third part is kept, so "a:b:c" decrypts to no tokens. */
  lemma SplitKeepsThirdPart()
    ensures |Split("a:b:c", ':')| == 3
  {
    var t := "a:b:c";
    IndexOfFirst(t, ':', 1);
    assert t[..1] == "a" && t[2..] == "b:c";
    var u := "b:c";
    IndexOfFirst(u, ':', 1);
    assert u[..1] == "b" && u[2..] == "c";
    assert SplitAll("c", ':') == ["c"];
    assert SplitAll(u, ':') == ["b", "c"];
    assert SplitAll(t, ':') == ["a", "b", "c"];
  }
}
