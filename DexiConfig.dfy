/** DexiConfig: the process-wide configuration table, filled by `Load` from
    the default local file, then the file named by
    DEXI_APP_CREDENTIALS, then the DEXI_APP_* environment variables. */
module DexiConfig {
  import opened Wrappers
  import opened JavaText
  import opened ConfigStore

  const CredentialsName: string := "DEXI_APP_CREDENTIALS"
  const DefaultBaseUrl: string := "https://api.dexi.io/"
  const KeyBaseUrl: string := "baseUrl"
  const KeyApiKey: string := "apiKey"
  const KeyAccount: string := "account"
  const DefaultConfigFileUnderHome: string := "/.dexi/configuration.yml"

  /** The text after the last '.' of a path, or the whole path if it has none. */
  function ExtensionOf(path: string): (ext: string)
    ensures '.' !in ext
    ensures '.' !in path ==> ext == path
    ensures '.' in path ==> |ext| < |path| && path == path[..|path| - |ext| - 1] + "." + ext
  {
    var dot := LastIndexOf(path, '.');
    assert dot >= 0 ==> path == path[..dot] + "." + path[dot + 1..];
    path[dot + 1..]
  }

  /** The extension switch of readLocalConfiguration: the four supported
      extensions all select the YAML reader; any other has none. */
  function FormatFor(ext: string): (f: Option<Format>)
    ensures f.Some? <==> ext in {"yml", "json", "xml", "ini"}
    ensures f.Some? ==> f.value == Yaml
  {
    match ext
    case "yml" => Some(Yaml)
    case "json" => Some(Yaml)
    case "xml" => Some(Yaml)
    case "ini" => Some(Yaml)
    case _ => None
  }

  /** readLocalConfiguration: the extension is checked before anything is
      read, then the default file is loaded and merged first-wins. */
  function ReadLocalStage(props: map<string, string>, localFile: string, sources: Sources): (r: Resolution)
    ensures FormatFor(ExtensionOf(localFile)).None? ==> r == Resolution(props, Fail(UnsupportedExtension(ExtensionOf(localFile))))
    ensures r.outcome.Fail? ==> r.props == props
  {
    var ext := ExtensionOf(localFile);
    match FormatFor(ext)
    case None => Resolution(props, Fail(UnsupportedExtension(ext)))
    case Some(format) => LoadAndMerge(props, localFile, format, sources)
  }

  /** load: local file, then the URL file, then the environment; a stage
      that throws ends the load with the table as the earlier stages left it. */
  function Resolve(props: map<string, string>, localFile: string, env: Environment,
                   systemProperty: Option<string>, sources: Sources): (r: Resolution)
    ensures r.outcome.Fail? ==> r.props == ReadLocalStage(props, localFile, sources).props
  {
    var local := ReadLocalStage(props, localFile, sources);
    if local.outcome.Fail? then local
    else
      var urlStage := UrlStage(local.props, env, CredentialsName, systemProperty, sources);
      if urlStage.outcome.Fail? then urlStage
      else Resolution(ApplyEnvironment(urlStage.props, env, CredentialsName), Pass)
  }

  /** The document the default file contributes, or nothing. */
  function LocalDocument(localFile: string, sources: Sources): Document {
    LoadedDocument(localFile, Yaml, sources)
  }

  /** A local stage that completes has merged the local document first-wins. */
  lemma LocalStageMerges(props: map<string, string>, localFile: string, sources: Sources)
    requires ReadLocalStage(props, localFile, sources).outcome.Pass?
    ensures ReadLocalStage(props, localFile, sources).props == MergeFirstWins(props, LocalDocument(localFile, sources))
  {
    var f := FormatFor(ExtensionOf(localFile));
    assert f.Some?;
    assert f.value == Yaml;
    assert ReadLocalStage(props, localFile, sources) == LoadAndMerge(props, localFile, Yaml, sources);
    LoadAndMergeMerges(props, localFile, Yaml, sources);
  }

  /** The precedence a completed load establishes, for every key: the last
      environment entry decoding to it, else what the table held before, else
      the default local file's value, else the URL file's value. So the
      environment beats both files, and the local file beats the URL file. */
  lemma ResolvePrecedence(props: map<string, string>, localFile: string, env: Environment,
                          systemProperty: Option<string>, sources: Sources, k: string)
    requires Resolve(props, localFile, env, systemProperty, sources).outcome.Pass?
    ensures Get(Resolve(props, localFile, env, systemProperty, sources).props, k)
         == OrElse(LastDecoded(env, CredentialsName, k),
            OrElse(Get(props, k),
            OrElse(Lookup(LocalDocument(localFile, sources), k),
                   Lookup(UrlDocument(env, CredentialsName, systemProperty, sources), k))))
  {
    var local := ReadLocalStage(props, localFile, sources);
    LocalStageMerges(props, localFile, sources);
    var urlStage := UrlStage(local.props, env, CredentialsName, systemProperty, sources);
    UrlStageMerges(local.props, env, CredentialsName, systemProperty, sources);
    assert Resolve(props, localFile, env, systemProperty, sources).props
        == ApplyEnvironment(urlStage.props, env, CredentialsName);
  }

  /** An unsupported extension of the default file throws before any source
      is read: the table is left exactly as it was. */
  lemma UnsupportedExtensionLoadsNothing(props: map<string, string>, localFile: string, env: Environment,
                                         systemProperty: Option<string>, sources: Sources)
    requires ExtensionOf(localFile) !in {"yml", "json", "xml", "ini"}
    ensures Resolve(props, localFile, env, systemProperty, sources)
         == Resolution(props, Fail(UnsupportedExtension(ExtensionOf(localFile))))
  {
  }

  /** A configuration URL that cannot be fetched ends the load after the local file:
      no environment override is applied. */
  lemma FailedUrlSkipsEnvironment(props: map<string, string>, localFile: string, env: Environment,
                                      systemProperty: Option<string>, sources: Sources)
    requires ReadLocalStage(props, localFile, sources).outcome.Pass?
    requires ConfigUrlValue(env, CredentialsName, systemProperty).Some?
    requires GetConfigurationFile(ConfigUrlValue(env, CredentialsName, systemProperty).value, Yaml, sources).Failure?
    ensures var r := Resolve(props, localFile, env, systemProperty, sources);
      && r.outcome.Fail?
      && r.props == MergeFirstWins(props, LocalDocument(localFile, sources))
  {
    var local := ReadLocalStage(props, localFile, sources);
    LocalStageMerges(props, localFile, sources);
    var urlStage := UrlStage(local.props, env, CredentialsName, systemProperty, sources);
    assert urlStage.outcome.Fail?;
    assert urlStage.props == local.props;
    assert Resolve(props, localFile, env, systemProperty, sources) == urlStage;
  }

  /** The outcome of each load stage depends on the sources only, not on the table. */
  lemma StageOutcomesIgnoreTable(p: map<string, string>, q: map<string, string>, localFile: string,
                                 env: Environment, systemProperty: Option<string>, sources: Sources)
    ensures ReadLocalStage(p, localFile, sources).outcome == ReadLocalStage(q, localFile, sources).outcome
    ensures UrlStage(p, env, CredentialsName, systemProperty, sources).outcome
         == UrlStage(q, env, CredentialsName, systemProperty, sources).outcome
  {
    UrlOutcomeIgnoresTable(p, q, env, CredentialsName, systemProperty, sources);
    match FormatFor(ExtensionOf(localFile))
    case None =>
    case Some(format) =>
      assert ReadLocalStage(p, localFile, sources) == LoadAndMerge(p, localFile, format, sources);
      assert ReadLocalStage(q, localFile, sources) == LoadAndMerge(q, localFile, format, sources);
      LoadOutcomeIgnoresTable(p, q, localFile, format, sources);
  }

  /** Merging two documents again into a table that already answers every key
      they hold leaves that key as it was. */
  lemma RemergeKeepsKey(props: map<string, string>, first: Document, second: Document, k: string)
    requires Lookup(first, k).Some? || Lookup(second, k).Some? ==> Get(props, k).Some?
    ensures Get(MergeFirstWins(MergeFirstWins(props, first), second), k) == Get(props, k)
  {
  }

  /** After a completed load, reading both files again merges the same two
      documents into the loaded table, and neither stage throws. */
  lemma SecondFileStages(props: map<string, string>, localFile: string, env: Environment,
                         systemProperty: Option<string>, sources: Sources)
    requires Resolve(props, localFile, env, systemProperty, sources).outcome.Pass?
    ensures var s1 := Resolve(props, localFile, env, systemProperty, sources).props;
      var local2 := ReadLocalStage(s1, localFile, sources);
      var urlStage2 := UrlStage(local2.props, env, CredentialsName, systemProperty, sources);
      && urlStage2.outcome.Pass?
      && urlStage2.props == MergeFirstWins(MergeFirstWins(s1, LocalDocument(localFile, sources)),
                                           UrlDocument(env, CredentialsName, systemProperty, sources))
  {
    var s1 := Resolve(props, localFile, env, systemProperty, sources).props;
    var local1 := ReadLocalStage(props, localFile, sources);
    var local2 := ReadLocalStage(s1, localFile, sources);
    var urlStage2 := UrlStage(local2.props, env, CredentialsName, systemProperty, sources);
    StageOutcomesIgnoreTable(props, s1, localFile, env, systemProperty, sources);
    StageOutcomesIgnoreTable(local1.props, local2.props, localFile, env, systemProperty, sources);
    LocalStageMerges(s1, localFile, sources);
    UrlStageMerges(local2.props, env, CredentialsName, systemProperty, sources);
  }

  /** Both file stages of a second load only fill keys the first load already set. */
  lemma ReloadedFilesAddNothing(props: map<string, string>, localFile: string, env: Environment,
                                systemProperty: Option<string>, sources: Sources)
    requires Resolve(props, localFile, env, systemProperty, sources).outcome.Pass?
    ensures var s1 := Resolve(props, localFile, env, systemProperty, sources).props;
      var local2 := ReadLocalStage(s1, localFile, sources);
      UrlStage(local2.props, env, CredentialsName, systemProperty, sources).props == s1
  {
    var s1 := Resolve(props, localFile, env, systemProperty, sources).props;
    var localDoc := LocalDocument(localFile, sources);
    var urlDoc := UrlDocument(env, CredentialsName, systemProperty, sources);
    var remerged := MergeFirstWins(MergeFirstWins(s1, localDoc), urlDoc);
    SecondFileStages(props, localFile, env, systemProperty, sources);
    forall k ensures Get(remerged, k) == Get(s1, k) {
      ResolvePrecedence(props, localFile, env, systemProperty, sources, k);
      RemergeKeepsKey(s1, localDoc, urlDoc, k);
    }
    GetExtensional(remerged, s1);
  }

  /** Loading again without a reset changes nothing: both files only fill keys
      that are already present, and the environment re-applies the values it
      already wrote. */
  lemma ResolveIsStable(props: map<string, string>, localFile: string, env: Environment,
                        systemProperty: Option<string>, sources: Sources)
    requires Resolve(props, localFile, env, systemProperty, sources).outcome.Pass?
    ensures var first := Resolve(props, localFile, env, systemProperty, sources);
      Resolve(first.props, localFile, env, systemProperty, sources) == first
  {
    var first := Resolve(props, localFile, env, systemProperty, sources);
    var local1 := ReadLocalStage(props, localFile, sources);
    var urlStage1 := UrlStage(local1.props, env, CredentialsName, systemProperty, sources);
    assert first == Resolution(ApplyEnvironment(urlStage1.props, env, CredentialsName), Pass);
    var s1 := first.props;
    StageOutcomesIgnoreTable(props, s1, localFile, env, systemProperty, sources);
    var local2 := ReadLocalStage(s1, localFile, sources);
    StageOutcomesIgnoreTable(local1.props, local2.props, localFile, env, systemProperty, sources);
    var urlStage2 := UrlStage(local2.props, env, CredentialsName, systemProperty, sources);
    ReloadedFilesAddNothing(props, localFile, env, systemProperty, sources);
    assert Resolve(s1, localFile, env, systemProperty, sources)
        == Resolution(ApplyEnvironment(urlStage2.props, env, CredentialsName), Pass);
    ApplyEnvironmentIdempotent(urlStage1.props, env, CredentialsName);
  }

  /** getBaseUrl over a table: the bare key "baseUrl", else the default. */
  function BaseUrlOf(props: map<string, string>): string {
    if KeyBaseUrl in props then props[KeyBaseUrl] else DefaultBaseUrl
  }

  /** The getters read bare keys, which the environment never writes (it only
      writes "app."-prefixed keys), so an environment override is never
      visible through them. */
  lemma GettersIgnoreEnvironment(props: map<string, string>, env: Environment)
    ensures var r := ApplyEnvironment(props, env, CredentialsName);
      && BaseUrlOf(r) == BaseUrlOf(props)
      && Get(r, KeyApiKey) == Get(props, KeyApiKey)
      && Get(r, KeyAccount) == Get(props, KeyAccount)
  {
    BareKeysUntouchedByEnvironment(props, env, CredentialsName, KeyBaseUrl);
    BareKeysUntouchedByEnvironment(props, env, CredentialsName, KeyApiKey);
    BareKeysUntouchedByEnvironment(props, env, CredentialsName, KeyAccount);
  }

  /** A name is stored at all exactly when it is selected, and then under
      "app." and its lower-cased remainder. */
  lemma DecodesTo(name: string, key: string)
    ensures DecodeEnvKey(name, CredentialsName) == Some(key)
      <==> IsSelectedEnvName(name, CredentialsName) && key == "app." + ToLower(name[9..])
  {
    if IsSelectedEnvName(name, CredentialsName) {
      assert name[..9] == EnvironmentPrefix;
      DecodedSectionIsApp(name, CredentialsName);
    }
  }

  /** The documented override DEXI_APP_dexi_baseUrl lands under
      "app.dexi_baseurl", not "dexi.baseUrl". */
  lemma DocumentedOverrideLandsUnderApp()
    ensures DecodeEnvKey("DEXI_APP_dexi_baseUrl", CredentialsName) == Some("app.dexi_baseurl")
  {
    var name := "DEXI_APP_dexi_baseUrl";
    assert name[..9] == EnvironmentPrefix;
    assert name[9] != CredentialsName[9];
    assert "app." + ToLower(name[9..]) == "app.dexi_baseurl";
    DecodesTo(name, "app.dexi_baseurl");
  }

  /** Two selected names whose remainders differ only in letter case write the
      same key, and the later entry's value wins. */
  lemma CaseCollidingNamesCollapse(props: map<string, string>, env: Environment,
                                   a: string, x: string, b: string, y: string)
    requires IsSelectedEnvName(a, CredentialsName) && IsSelectedEnvName(b, CredentialsName)
    requires ToLower(a[9..]) == ToLower(b[9..])
    ensures DecodeEnvKey(a, CredentialsName) == DecodeEnvKey(b, CredentialsName) == Some("app." + ToLower(b[9..]))
    ensures Get(ApplyEnvironment(props, env + [(a, x), (b, y)], CredentialsName), "app." + ToLower(b[9..])) == Some(y)
  {
    var key := "app." + ToLower(b[9..]);
    DecodedSectionIsApp(a, CredentialsName);
    DecodedSectionIsApp(b, CredentialsName);
    var e := env + [(a, x), (b, y)];
    assert e[|e| - 1] == (b, y);
    assert LastDecoded(e, CredentialsName, key) == Some(y);
  }

  /** The configuration holder: DexiConfig's two static fields. */
  class DexiConfig {
    const properties: PropertyTable
    var defaultLocalConfigFile: string

    /** Static initialisation, with the value of the user.home property. */
    constructor (userHome: string)
      ensures defaultLocalConfigFile == userHome + DefaultConfigFileUnderHome
      ensures fresh(properties) && properties.props == map[]
    {
      defaultLocalConfigFile := userHome + DefaultConfigFileUnderHome;
      properties := new PropertyTable();
    }

    /** setLocalConfigFile: replaces the default file and nothing else. */
    method SetLocalConfigFile(localConfigFile: string)
      modifies this
      ensures defaultLocalConfigFile == localConfigFile
      ensures unchanged(properties)
    {
      defaultLocalConfigFile := localConfigFile;
    }

    /** readEnvironment, excluding every name that starts with the URL variable's name. */
    method ReadEnvironment(env: Environment)
      modifies properties
      ensures properties.props == ApplyEnvironment(old(properties.props), env, CredentialsName)
    {
      properties.ReadEnvironment(env, CredentialsName);
    }

    /** readLocalConfiguration: the extension check, then the default file. */
    method ReadLocalConfiguration(sources: Sources) returns (outcome: Outcome<ConfigError>)
      modifies properties
      ensures Resolution(properties.props, outcome) == ReadLocalStage(old(properties.props), defaultLocalConfigFile, sources)
    {
      var ext := ExtensionOf(defaultLocalConfigFile);
      var format := FormatFor(ext);
      if format.None? {
        return Fail(UnsupportedExtension(ext));
      }
      outcome := properties.MergeFile(defaultLocalConfigFile, format.value, sources);
    }

    /** getConfigurationFromURL, with the DEXI_APP_CREDENTIALS variable. */
    method GetConfigurationFromUrl(env: Environment, systemProperty: Option<string>, sources: Sources)
      returns (outcome: Outcome<ConfigError>)
      modifies properties
      ensures Resolution(properties.props, outcome)
           == UrlStage(old(properties.props), env, CredentialsName, systemProperty, sources)
    {
      outcome := properties.MergeUrl(env, CredentialsName, systemProperty, sources);
    }

    /** load */
    method Load(env: Environment, systemProperty: Option<string>, sources: Sources)
      returns (outcome: Outcome<ConfigError>)
      modifies properties
      ensures Resolution(properties.props, outcome)
           == Resolve(old(properties.props), defaultLocalConfigFile, env, systemProperty, sources)
    {
      outcome := ReadLocalConfiguration(sources);
      if outcome.Fail? {
        return;
      }
      outcome := GetConfigurationFromUrl(env, systemProperty, sources);
      if outcome.Fail? {
        return;
      }
      ReadEnvironment(env);
    }

    /** getProperties: the shared table itself, not a copy. A caller that changes it, as
        getProperties().clear() does, changes the loader's table. */
    method GetProperties() returns (t: PropertyTable)
      ensures t == properties
    {
      t := properties;
    }

    /** The reset the integration tests run after each case,
        getProperties().clear(): through the shared table it empties the
        loader's own table. */
    method ClearProperties()
      modifies properties
      ensures properties.props == map[]
      ensures defaultLocalConfigFile == old(defaultLocalConfigFile)
    {
      var t := GetProperties();
      t.Clear();
    }

    /** getBaseUrl */
    function GetBaseUrl(): (r: string)
      reads properties
      ensures KeyBaseUrl in properties.props ==> r == properties.props[KeyBaseUrl]
      ensures KeyBaseUrl !in properties.props ==> r == DefaultBaseUrl
    {
      BaseUrlOf(properties.props)
    }

    /** getApiKey: the bare key's value or null. */
    function GetApiKey(): (r: Option<string>)
      reads properties
      ensures r == Get(properties.props, KeyApiKey)
    {
      properties.GetProperty(KeyApiKey)
    }

    /** getAccount: the bare key's value or null. */
    function GetAccount(): (r: Option<string>)
      reads properties
      ensures r == Get(properties.props, KeyAccount)
    {
      properties.GetProperty(KeyAccount)
    }
  }
}
