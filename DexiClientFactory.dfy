/** DexiClientFactory: builds per-activation clients against a normalised
    base URL, and reads an app's configuration header. */
module DexiClientFactory {
  import opened Wrappers
  import opened JavaText
  import DexiConfig
  import opened DexiAuth

  /** safeBaseUrl: a trailing '/' is appended when missing. */
  function SafeBaseUrl(baseUrl: string): (r: string)
    ensures EndsWith(r, "/")
    ensures StartsWith(r, baseUrl)
    ensures EndsWith(baseUrl, "/") ==> r == baseUrl
    ensures !EndsWith(baseUrl, "/") ==> |r| == |baseUrl| + 1
  {
    if !EndsWith(baseUrl, "/") then baseUrl + "/" else baseUrl
  }

  /** Normalising twice is normalising once. */
  lemma SafeBaseUrlIdempotent(baseUrl: string)
    ensures SafeBaseUrl(SafeBaseUrl(baseUrl)) == SafeBaseUrl(baseUrl)
  {
  }

  /** The normalised URL is the shortest extension of the given one that ends
      with '/'. */
  lemma SafeBaseUrlIsShortest(baseUrl: string, v: string)
    requires StartsWith(v, baseUrl) && EndsWith(v, "/")
    ensures |SafeBaseUrl(baseUrl)| <= |v|
  {
  }

  /** The built-in default base URL is already normalised. */
  lemma DefaultBaseUrlUnchanged()
    ensures SafeBaseUrl(DexiConfig.DefaultBaseUrl) == DexiConfig.DefaultBaseUrl
  {
    assert DexiConfig.DefaultBaseUrl[|DexiConfig.DefaultBaseUrl| - 1..] == "/";
  }

  /** The factory's two final fields. */
  datatype ClientFactory = ClientFactory(baseUrl: string, auth: DexiAuth)

  /** DexiClientFactory(baseUrl, auth) */
  function NewClientFactory(baseUrl: string, auth: DexiAuth): (f: ClientFactory)
    ensures EndsWith(f.baseUrl, "/") && StartsWith(f.baseUrl, baseUrl)
    ensures f.baseUrl == SafeBaseUrl(baseUrl) && f.auth == auth
  {
    ClientFactory(SafeBaseUrl(baseUrl), auth)
  }

  /** DexiClientFactory(auth): the base URL DexiConfig holds, normalised. */
  function NewClientFactoryFromConfig(props: map<string, string>, auth: DexiAuth): (f: ClientFactory)
    ensures f == NewClientFactory(DexiConfig.BaseUrlOf(props), auth)
    ensures DexiConfig.KeyBaseUrl !in props ==> f.baseUrl == DexiConfig.DefaultBaseUrl
  {
    DefaultBaseUrlUnchanged();
    NewClientFactory(DexiConfig.BaseUrlOf(props), auth)
  }

  /** getConfiguration's guard: a missing or whitespace-only header yields
      null before any parsing; otherwise the header text is what is parsed. */
  function ConfigurationJson(header: Option<string>): (json: Option<string>)
    ensures json.None? <==> header.None? || forall i :: 0 <= i < |header.value| ==> header.value[i] <= ' '
    ensures json.Some? ==> json == header
  {
    if header.None? then None
    else
      TrimEmptyIff(header.value);
      if Trim(header.value) == "" then None else header
  }

  /** The inner client's identity. */
  datatype DexiClient = DexiClient(activationId: string, baseUrl: string, auth: DexiAuth)

  /** create(activationId): the assertion demands a non-empty id. */
  function Create(factory: ClientFactory, activationId: string): (c: DexiClient)
    requires activationId != ""
    ensures c.activationId == activationId
    ensures c.baseUrl == factory.baseUrl && c.auth == factory.auth
  {
    DexiClient(activationId, factory.baseUrl, factory.auth)
  }
}
