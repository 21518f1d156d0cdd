/** Config: the older loader. It reads `<appName>.yml`, `.json`, `.xml` and
    `.ini` in that order, then the file named by DEXI_APP_CONFIG_URL,
    then the DEXI_APP_* environment variables. */
module Config {
  import opened Wrappers
  import opened ConfigStore

  const ConfigUrlName: string := "DEXI_APP_CONFIG_URL"

  /** The four local files of readLocalConfiguration, in reading order. */
  function LocalFiles(appName: string): seq<(string, Format)> {
    [(appName + ".yml", Yaml), (appName + ".json", Json), (appName + ".xml", Xml), (appName + ".ini", Ini)]
  }

  /** Loading a sequence of files in order, each merged first-wins, stopping at
      the first load that throws. */
  function LoadAll(props: map<string, string>, files: seq<(string, Format)>, sources: Sources): (r: Resolution)
    ensures files == [] ==> r == Resolution(props, Pass)
    ensures props.Items <= r.props.Items
    decreases |files|
  {
    if files == [] then Resolution(props, Pass)
    else
      var r := LoadAndMerge(props, files[0].0, files[0].1, sources);
      if r.outcome.Fail? then r else LoadAll(r.props, files[1..], sources)
  }

  /** The documents of a sequence of files, concatenated in order. */
  function Documents(files: seq<(string, Format)>, sources: Sources): Document
    decreases |files|
  {
    if files == [] then [] else LoadedDocument(files[0].0, files[0].1, sources) + Documents(files[1..], sources)
  }

  /** Every file of the sequence loads without throwing. */
  predicate AllLoad(files: seq<(string, Format)>, sources: Sources) {
    forall i :: 0 <= i < |files| ==> GetConfigurationFile(files[i].0, files[i].1, sources).Success?
  }

  /** A cascade completes exactly when every file loads, and then it is one
      first-wins merge of all the documents in reading order: a key takes its
      value from the earliest file that has it. */
  lemma {:induction false} LoadAllMergesInOrder(props: map<string, string>, files: seq<(string, Format)>, sources: Sources)
    ensures LoadAll(props, files, sources).outcome.Pass? <==> AllLoad(files, sources)
    ensures LoadAll(props, files, sources).outcome.Pass? ==>
      LoadAll(props, files, sources).props == MergeFirstWins(props, Documents(files, sources))
    decreases |files|
  {
    if files != [] {
      var r := LoadAndMerge(props, files[0].0, files[0].1, sources);
      LoadAndMergeMerges(props, files[0].0, files[0].1, sources);
      if r.outcome.Pass? {
        LoadAllMergesInOrder(r.props, files[1..], sources);
        MergeFirstWinsAppend(props, LoadedDocument(files[0].0, files[0].1, sources), Documents(files[1..], sources));
        assert AllLoad(files, sources) <==> AllLoad(files[1..], sources) by {
          if AllLoad(files[1..], sources) {
            forall i | 0 <= i < |files| ensures GetConfigurationFile(files[i].0, files[i].1, sources).Success? {
              if i > 0 { assert files[i] == files[1..][i - 1]; }
            }
          }
          if AllLoad(files, sources) {
            forall i | 0 <= i < |files| - 1
              ensures GetConfigurationFile(files[1..][i].0, files[1..][i].1, sources).Success?
            {
              assert files[1..][i] == files[i + 1];
            }
          }
        }
      } else {
        assert !AllLoad(files, sources) by {
          assert !GetConfigurationFile(files[0].0, files[0].1, sources).Success?;
        }
      }
    }
  }

  /** The first file that throws ends the cascade with its error; the files
      before it have been merged and none after it has been read. */
  lemma {:induction false} LoadAllStopsAtFirstFailure(props: map<string, string>, files: seq<(string, Format)>,
                                                     sources: Sources, i: nat)
    requires i < |files| && AllLoad(files[..i], sources)
    requires GetConfigurationFile(files[i].0, files[i].1, sources).Failure?
    ensures LoadAll(props, files, sources)
         == Resolution(MergeFirstWins(props, Documents(files[..i], sources)),
                       Fail(GetConfigurationFile(files[i].0, files[i].1, sources).error))
    decreases i
  {
    var r := LoadAndMerge(props, files[0].0, files[0].1, sources);
    LoadAndMergeMerges(props, files[0].0, files[0].1, sources);
    if i == 0 {
      assert files[..0] == [];
    } else {
      assert files[..i][0] == files[0];
      assert r.outcome.Pass?;
      var rest := files[1..];
      assert rest[..i - 1] == files[..i][1..];
      var before := rest[..i - 1];
      assert AllLoad(before, sources) by {
        forall j | 0 <= j < |before| ensures GetConfigurationFile(before[j].0, before[j].1, sources).Success? {
          assert before[j] == files[..i][j + 1];
        }
      }
      assert rest[i - 1] == files[i];
      LoadAllStopsAtFirstFailure(r.props, rest, sources, i - 1);
      assert Documents(files[..i], sources)
          == LoadedDocument(files[0].0, files[0].1, sources) + Documents(rest[..i - 1], sources);
      MergeFirstWinsAppend(props, LoadedDocument(files[0].0, files[0].1, sources), Documents(rest[..i - 1], sources));
    }
  }

  /** load(appName) over a table: the local cascade, then the URL file,
      then the environment, stopping at the first stage that throws. */
  function Resolve(props: map<string, string>, appName: string, env: Environment,
                   systemProperty: Option<string>, sources: Sources): (r: Resolution)
    ensures r.outcome.Fail? ==> r.props == LoadAll(props, LocalFiles(appName), sources).props
  {
    var local := LoadAll(props, LocalFiles(appName), sources);
    if local.outcome.Fail? then local
    else
      var urlStage := UrlStage(local.props, env, ConfigUrlName, systemProperty, sources);
      if urlStage.outcome.Fail? then urlStage
      else Resolution(ApplyEnvironment(urlStage.props, env, ConfigUrlName), Pass)
  }

  /** The precedence a completed load establishes: the environment, then what
      the table held, then the local files in the order yml, json, xml, ini,
      then the URL file. */
  lemma ResolvePrecedence(props: map<string, string>, appName: string, env: Environment,
                          systemProperty: Option<string>, sources: Sources, k: string)
    requires Resolve(props, appName, env, systemProperty, sources).outcome.Pass?
    ensures Get(Resolve(props, appName, env, systemProperty, sources).props, k)
         == OrElse(LastDecoded(env, ConfigUrlName, k),
            OrElse(Get(props, k),
            OrElse(Lookup(LoadedDocument(appName + ".yml", Yaml, sources), k),
            OrElse(Lookup(LoadedDocument(appName + ".json", Json, sources), k),
            OrElse(Lookup(LoadedDocument(appName + ".xml", Xml, sources), k),
            OrElse(Lookup(LoadedDocument(appName + ".ini", Ini, sources), k),
                   Lookup(UrlDocument(env, ConfigUrlName, systemProperty, sources), k)))))))
  {
    ResolvedTable(props, appName, env, systemProperty, sources);
    LocalDocuments(appName, sources);
    var d0 := LoadedDocument(appName + ".yml", Yaml, sources);
    var d1 := LoadedDocument(appName + ".json", Json, sources);
    var d2 := LoadedDocument(appName + ".xml", Xml, sources);
    var d3 := LoadedDocument(appName + ".ini", Ini, sources);
    LookupAppend(d0, d1 + (d2 + d3), k);
    LookupAppend(d1, d2 + d3, k);
    LookupAppend(d2, d3, k);
  }

  /** A completed load is the environment applied over the URL document merged
      over the four local documents merged over the old table. */
  lemma ResolvedTable(props: map<string, string>, appName: string, env: Environment,
                      systemProperty: Option<string>, sources: Sources)
    requires Resolve(props, appName, env, systemProperty, sources).outcome.Pass?
    ensures Resolve(props, appName, env, systemProperty, sources).props
         == ApplyEnvironment(MergeFirstWins(MergeFirstWins(props, Documents(LocalFiles(appName), sources)),
                                            UrlDocument(env, ConfigUrlName, systemProperty, sources)),
                             env, ConfigUrlName)
  {
    var files := LocalFiles(appName);
    var local := LoadAll(props, files, sources);
    LoadAllMergesInOrder(props, files, sources);
    var urlStage := UrlStage(local.props, env, ConfigUrlName, systemProperty, sources);
    UrlStageMerges(local.props, env, ConfigUrlName, systemProperty, sources);
    assert Resolve(props, appName, env, systemProperty, sources).props
        == ApplyEnvironment(urlStage.props, env, ConfigUrlName);
  }

  /** The four local documents, concatenated in reading order. */
  lemma LocalDocuments(appName: string, sources: Sources)
    ensures Documents(LocalFiles(appName), sources)
         == LoadedDocument(appName + ".yml", Yaml, sources)
          + (LoadedDocument(appName + ".json", Json, sources)
          + (LoadedDocument(appName + ".xml", Xml, sources)
          + LoadedDocument(appName + ".ini", Ini, sources)))
  {
    var files := LocalFiles(appName);
    var f1 := files[1..];
    var f2 := f1[1..];
    var f3 := f2[1..];
    assert f3[1..] == [];
    var d0 := LoadedDocument(appName + ".yml", Yaml, sources);
    var d1 := LoadedDocument(appName + ".json", Json, sources);
    var d2 := LoadedDocument(appName + ".xml", Xml, sources);
    var d3 := LoadedDocument(appName + ".ini", Ini, sources);
    assert f3[0] == (appName + ".ini", Ini);
    assert Documents(f3, sources) == d3 + Documents(f3[1..], sources);
    assert Documents(f3, sources) == d3;
    assert f2[0] == (appName + ".xml", Xml);
    assert Documents(f2, sources) == d2 + d3;
    assert f1[0] == (appName + ".json", Json);
    assert Documents(f1, sources) == d1 + (d2 + d3);
    assert files[0] == (appName + ".yml", Yaml);
    assert Documents(files, sources) == d0 + (d1 + (d2 + d3));
  }

  /** Config's two static members. */
  class Config {
    const properties: PropertyTable

    constructor ()
      ensures fresh(properties) && properties.props == map[]
    {
      properties := new PropertyTable();
    }

    /** getProperties: the shared table itself, not a copy. A caller that changes it, as
        getProperties().clear() does, changes the loader's table. */
    method GetProperties() returns (t: PropertyTable)
      ensures t == properties
    {
      t := properties;
    }

    /** readEnvironment, excluding every name that starts with the URL variable's name. */
    method ReadEnvironment(env: Environment)
      modifies properties
      ensures properties.props == ApplyEnvironment(old(properties.props), env, ConfigUrlName)
    {
      properties.ReadEnvironment(env, ConfigUrlName);
    }

    /** readLocalConfiguration: the four files, each with its own reader. */
    method ReadLocalConfiguration(appName: string, sources: Sources) returns (outcome: Outcome<ConfigError>)
      modifies properties
      ensures Resolution(properties.props, outcome) == LoadAll(old(properties.props), LocalFiles(appName), sources)
    {
      var files := LocalFiles(appName);
      assert files[1..][1..][1..][1..] == [];
      outcome := properties.MergeFile(appName + ".yml", Yaml, sources);
      if outcome.Fail? {
        return;
      }
      ghost var afterYml := properties.props;
      outcome := properties.MergeFile(appName + ".json", Json, sources);
      if outcome.Fail? {
        assert LoadAll(afterYml, files[1..], sources) == Resolution(properties.props, outcome);
        return;
      }
      ghost var afterJson := properties.props;
      outcome := properties.MergeFile(appName + ".xml", Xml, sources);
      if outcome.Fail? {
        assert LoadAll(afterJson, files[1..][1..], sources) == Resolution(properties.props, outcome);
        assert LoadAll(afterYml, files[1..], sources) == Resolution(properties.props, outcome);
        return;
      }
      ghost var afterXml := properties.props;
      outcome := properties.MergeFile(appName + ".ini", Ini, sources);
      assert LoadAll(afterXml, files[1..][1..][1..], sources) == Resolution(properties.props, outcome);
      assert LoadAll(afterJson, files[1..][1..], sources) == Resolution(properties.props, outcome);
      assert LoadAll(afterYml, files[1..], sources) == Resolution(properties.props, outcome);
    }

    /** getConfigurationFromURL, with the DEXI_APP_CONFIG_URL variable. */
    method GetConfigurationFromUrl(env: Environment, systemProperty: Option<string>, sources: Sources)
      returns (outcome: Outcome<ConfigError>)
      modifies properties
      ensures Resolution(properties.props, outcome)
           == UrlStage(old(properties.props), env, ConfigUrlName, systemProperty, sources)
    {
      outcome := properties.MergeUrl(env, ConfigUrlName, systemProperty, sources);
    }

    /** load(appName) */
    method Load(appName: string, env: Environment, systemProperty: Option<string>, sources: Sources)
      returns (outcome: Outcome<ConfigError>)
      modifies properties
      ensures Resolution(properties.props, outcome)
           == Resolve(old(properties.props), appName, env, systemProperty, sources)
    {
      outcome := ReadLocalConfiguration(appName, sources);
      if outcome.Fail? {
        return;
      }
      outcome := GetConfigurationFromUrl(env, systemProperty, sources);
      if outcome.Fail? {
        return;
      }
      ReadEnvironment(env);
    }
  }
}
