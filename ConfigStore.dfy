/** The machinery DexiConfig and Config share: the flat properties table, the
    two merge policies that fill it (first-wins for files, overwrite for the
    environment), the decoding of DEXI_APP_* environment names, and the
    dispatch of a location to a remote fetch or a local resource. */
module ConfigStore {
  import opened Wrappers
  import opened JavaText

  /** A parsed configuration file: its keys in iteration order, each with its
      string value. */
  type Document = seq<(string, string)>

  /** The process environment as (name, value) entries in iteration order. */
  type Environment = seq<(string, string)>

  /** The reader a file is parsed with (YAMLConfiguration, JSONConfiguration, ...). */
  datatype Format = Yaml | Json | Xml | Ini

  /** What the loading code can throw. */
  datatype ConfigError =
    | UnsupportedExtension(extension: string)  // IllegalArgumentException
    | MalformedLocation(location: string)      // URISyntaxException in the scheme
    | RemoteUnavailable(location: string)      // ConfigurationException from a URL fetch

  /** What the outside world holds: the documents a URL serves (a URL without
      an entry cannot be fetched or parsed) and the documents on the class path
      (a resource without an entry does not exist), each as parsed by a reader. */
  datatype Sources = Sources(
    remote: map<(string, Format), Document>,
    resources: map<(string, Format), Document>)

  /** The table after a loading step, and whether the step threw. */
  datatype Resolution = Resolution(props: map<string, string>, outcome: Outcome<ConfigError>)

  const EnvironmentPrefix: string := "DEXI_APP_"

  /** Properties.getProperty: the value or null. */
  function Get(m: map<string, string>, k: string): Option<string> {
    if k in m then Some(m[k]) else None
  }

  /** The first of two optional values that is present. */
  function OrElse(a: Option<string>, b: Option<string>): Option<string> {
    if a.Some? then a else b
  }

  /** Two tables answering every lookup alike are the same table. */
  lemma GetExtensional(a: map<string, string>, b: map<string, string>)
    requires forall k :: Get(a, k) == Get(b, k)
    ensures a == b
  {
    assert forall k :: k in a <==> Get(a, k).Some?;
    assert a.Keys == b.Keys;
    forall k | k in a ensures a[k] == b[k] {
      assert Get(a, k) == Get(b, k);
    }
  }

  // ---------------------------------------------------------------------------
  // Locations: java.net.URI's scheme, and resource versus URL

  predicate IsAsciiLetter(c: char) {
    'a' <= c <= 'z' || 'A' <= c <= 'Z'
  }

  predicate IsSchemeChar(c: char) {
    IsAsciiLetter(c) || '0' <= c <= '9' || c == '+' || c == '-' || c == '.'
  }

  predicate IsDelimiter(c: char) {
    c == ':' || c == '/' || c == '?' || c == '#'
  }

  /** Position of the first ':', '/', '?' or '#', or -1. */
  function FirstDelimiter(s: string): (r: int)
    ensures -1 <= r < |s|
    ensures r >= 0 ==> IsDelimiter(s[r])
    ensures forall j :: 0 <= j < (if r == -1 then |s| else r) ==> !IsDelimiter(s[j])
  {
    if s == [] then -1
    else if IsDelimiter(s[0]) then 0
    else
      var r := FirstDelimiter(s[1..]);
      if r == -1 then -1 else r + 1
  }

  /** The scheme java.net.URI finds: the text before a ':' that precedes every
      '/', '?' and '#'; that text must be a letter followed by letters, digits,
      '+', '-' or '.', or the constructor throws. */
  function SchemeOf(location: string): (r: Result<Option<string>, ConfigError>)
    ensures r.Failure? ==> r.error == MalformedLocation(location) && ':' in location
    ensures var p := FirstDelimiter(location);
      r == Success(None) <==> p == -1 || location[p] != ':'
    ensures var p := FirstDelimiter(location);
      r.Failure? <==> (p != -1 && location[p] == ':'
                       && !(0 < p && IsAsciiLetter(location[0]) && forall j :: 1 <= j < p ==> IsSchemeChar(location[j])))
    ensures r.Success? && r.value.Some? ==>
      var scheme := r.value.value;
      && 0 < |scheme| < |location| && location[..|scheme|] == scheme && location[|scheme|] == ':'
      && IsAsciiLetter(scheme[0]) && forall j :: 0 <= j < |scheme| ==> IsSchemeChar(scheme[j])
  {
    var p := FirstDelimiter(location);
    if p == -1 || location[p] != ':' then Success(None)
    else if p == 0 || !IsAsciiLetter(location[0]) || exists j :: 1 <= j < p && !IsSchemeChar(location[j])
    then Failure(MalformedLocation(location))
    else Success(Some(location[..p]))
  }

  /** `"http".equalsIgnoreCase(scheme)`: only plain http counts as remote. */
  predicate IsRemoteScheme(scheme: Option<string>) {
    scheme.Some? && EqualsIgnoreCase(scheme.value, "http")
  }

  predicate IsRemoteLocation(location: string) {
    SchemeOf(location).Success? && IsRemoteScheme(SchemeOf(location).value)
  }

  /** A location is fetched over the network exactly when it starts with
      "http:" in any letter case; "https:" is looked up locally. */
  lemma RemoteIffHttpPrefix(location: string)
    ensures IsRemoteLocation(location) <==> |location| >= 5 && ToLower(location[..5]) == "http:"
  {
    if |location| >= 5 && ToLower(location[..5]) == "http:" {
      assert ToLower(location[..5])[4] == ':';
      assert location[4] == ':';
      forall j | 0 <= j < 4 ensures IsAsciiLetter(location[j]) {
        assert ToLower(location[..5])[j] == LowerChar(location[j]);
      }
      assert FirstDelimiter(location) == 4 by {
        forall j | 0 <= j < 4 ensures !IsDelimiter(location[j]) { }
        assert IsDelimiter(location[4]);
      }
      assert ToLower(location[..4]) == "http" by {
        forall j | 0 <= j < 4 ensures ToLower(location[..4])[j] == "http"[j] {
          assert ToLower(location[..5])[j] == LowerChar(location[j]);
        }
      }
    }
    if IsRemoteLocation(location) {
      var p := FirstDelimiter(location);
      var scheme := location[..p];
      assert ToLower(scheme) == "http";
      assert p == 4;
      assert ToLower(location[..5]) == ToLower(scheme) + [':'] by {
        forall j | 0 <= j < 5 ensures ToLower(location[..5])[j] == (ToLower(scheme) + [':'])[j] {
          if j < 4 { assert ToLower(scheme)[j] == LowerChar(location[j]); }
        }
      }
    }
  }

  /** getConfigurationFile: a remote location is fetched (a failed fetch
      throws); any other location is looked up as a class-path resource, and a
      missing resource gives null. */
  function GetConfigurationFile(location: string, format: Format, sources: Sources): (r: Result<Option<Document>, ConfigError>)
    ensures r.Failure? <==> SchemeOf(location).Failure? || (IsRemoteLocation(location) && (location, format) !in sources.remote)
    ensures r.Success? && IsRemoteLocation(location) ==> r.value == Some(sources.remote[(location, format)])
    ensures r.Success? && !IsRemoteLocation(location) ==>
      r.value == if (location, format) in sources.resources then Some(sources.resources[(location, format)]) else None
  {
    match SchemeOf(location)
    case Failure(e) => Failure(e)
    case Success(scheme) =>
      if IsRemoteScheme(scheme) then
        if (location, format) in sources.remote then Success(Some(sources.remote[(location, format)]))
        else Failure(RemoteUnavailable(location))
      else
        Success(if (location, format) in sources.resources then Some(sources.resources[(location, format)]) else None)
  }

  /** An https location never touches the network: whatever URLs serve, it is
      the class-path resource of that name, or nothing. */
  lemma HttpsIsLocal(location: string, format: Format, sources: Sources)
    requires StartsWith(location, "https:")
    ensures GetConfigurationFile(location, format, sources)
         == Success(if (location, format) in sources.resources then Some(sources.resources[(location, format)]) else None)
  {
    assert location[..6] == "https:";
    assert FirstDelimiter(location) == 5 by {
      forall j | 0 <= j < 5 ensures !IsDelimiter(location[j]) { assert location[j] == "https:"[j]; }
      var r := FirstDelimiter(location);
      assert IsDelimiter(location[5]);
    }
    assert location[..5] == "https";
    assert SchemeOf(location) == Success(Some("https"));
    assert ToLower("https") != ToLower("http") by { assert |ToLower("https")| == 5; }
  }

  // ---------------------------------------------------------------------------
  // First-wins merge of a file (addConfigurationToProperties)

  /** The value of the first entry of `doc` with key `k`. */
  function Lookup(doc: Document, k: string): Option<string> {
    if doc == [] then None
    else if doc[0].0 == k then Some(doc[0].1)
    else Lookup(doc[1..], k)
  }

  function KeysOf(doc: Document): set<string> {
    set i | 0 <= i < |doc| :: doc[i].0
  }

  lemma {:induction false} LookupAppend(a: Document, b: Document, k: string)
    ensures Lookup(a + b, k) == OrElse(Lookup(a, k), Lookup(b, k))
  {
    if a != [] {
      assert (a + b)[1..] == a[1..] + b;
      LookupAppend(a[1..], b, k);
    } else {
      assert a + b == b;
    }
  }

  lemma {:induction false} LookupPresent(doc: Document, k: string)
    ensures Lookup(doc, k).Some? <==> k in KeysOf(doc)
  {
    if doc != [] {
      LookupPresent(doc[1..], k);
      assert KeysOf(doc) == {doc[0].0} + KeysOf(doc[1..]) by {
        forall x | x in KeysOf(doc) ensures x in {doc[0].0} + KeysOf(doc[1..]) {
          var i :| 0 <= i < |doc| && doc[i].0 == x;
          if i > 0 { assert doc[1..][i - 1].0 == x; }
        }
        forall x | x in KeysOf(doc[1..]) ensures x in KeysOf(doc) {
          var i :| 0 <= i < |doc[1..]| && doc[1..][i].0 == x;
          assert doc[i + 1].0 == x;
        }
      }
    }
  }

  /** The table after merging `doc` into `props` entry by entry, writing a key
      only when it has no value yet. Every key answers with its old value if it
      had one, and otherwise with the first value `doc` gives it. */
  function MergeFirstWins(props: map<string, string>, doc: Document): (r: map<string, string>)
    ensures forall k :: Get(r, k) == OrElse(Get(props, k), Lookup(doc, k))
    decreases |doc|
  {
    if doc == [] then props
    else
      var init := doc[..|doc| - 1];
      var last := doc[|doc| - 1];
      var p := MergeFirstWins(props, init);
      assert doc == init + [last];
      assert forall k :: Lookup(doc, k) == OrElse(Lookup(init, k), Lookup([last], k)) by {
        forall k ensures Lookup(doc, k) == OrElse(Lookup(init, k), Lookup([last], k)) {
          LookupAppend(init, [last], k);
        }
      }
      assert forall k :: Lookup([last], k) == if last.0 == k then Some(last.1) else None;
      if last.0 in p then p else p[last.0 := last.1]
  }

  /** addConfigurationToProperties with a null configuration does nothing. */
  function MergeConfiguration(props: map<string, string>, configuration: Option<Document>): (r: map<string, string>)
    ensures configuration.None? ==> r == props
    ensures forall k :: Get(r, k) == OrElse(Get(props, k), if configuration.None? then None else Lookup(configuration.value, k))
    ensures props.Items <= r.Items
  {
    if configuration.None? then props
    else
      MergeFirstWinsShape(props, configuration.value);
      MergeFirstWins(props, configuration.value)
  }

  /** A file merge never changes a key that already has a value, and the
      resulting key set is the old keys together with the file's keys. */
  lemma MergeFirstWinsShape(props: map<string, string>, doc: Document)
    ensures var r := MergeFirstWins(props, doc);
      && r.Keys == props.Keys + KeysOf(doc)
      && forall k :: k in props ==> r[k] == props[k]
  {
    var r := MergeFirstWins(props, doc);
    forall k ensures k in r <==> k in props || k in KeysOf(doc) {
      LookupPresent(doc, k);
      assert Get(r, k) == OrElse(Get(props, k), Lookup(doc, k));
    }
    forall k | k in props ensures r[k] == props[k] {
      assert Get(r, k) == Get(props, k);
    }
  }

  /** Merging two files one after the other is merging their concatenation:
      on a shared key the earlier file wins. */
  lemma MergeFirstWinsAppend(props: map<string, string>, a: Document, b: Document)
    ensures MergeFirstWins(MergeFirstWins(props, a), b) == MergeFirstWins(props, a + b)
  {
    var left := MergeFirstWins(MergeFirstWins(props, a), b);
    var right := MergeFirstWins(props, a + b);
    forall k ensures Get(left, k) == Get(right, k) {
      LookupAppend(a, b, k);
    }
    GetExtensional(left, right);
  }

  /** Merging the same file twice is merging it once. */
  lemma MergeFirstWinsIdempotent(props: map<string, string>, doc: Document)
    ensures MergeFirstWins(MergeFirstWins(props, doc), doc) == MergeFirstWins(props, doc)
  {
    var once := MergeFirstWins(props, doc);
    var twice := MergeFirstWins(once, doc);
    forall k ensures Get(twice, k) == Get(once, k) {
      assert Get(twice, k) == OrElse(Get(once, k), Lookup(doc, k));
    }
    GetExtensional(twice, once);
  }

  /** A file load merged into the table: the load's failure leaves the table
      as it was and is passed on. */
  function LoadAndMerge(props: map<string, string>, location: string, format: Format, sources: Sources): (r: Resolution)
    ensures r.outcome.Fail? <==> GetConfigurationFile(location, format, sources).Failure?
    ensures r.outcome.Fail? ==> r.props == props
    ensures props.Items <= r.props.Items
  {
    match GetConfigurationFile(location, format, sources)
    case Failure(e) => Resolution(props, Fail(e))
    case Success(configuration) => Resolution(MergeConfiguration(props, configuration), Pass)
  }

  // ---------------------------------------------------------------------------
  // Environment overrides (readEnvironment)

  /** The name is a DEXI_APP_ override and does not start with the URL
      variable's name (so DEXI_APP_CREDENTIALS_X is excluded too). */
  predicate IsSelectedEnvName(name: string, reserved: string) {
    StartsWith(name, EnvironmentPrefix) && !StartsWith(name, reserved)
  }

  /** The key readEnvironment stores a selected name under: the name without
      its first five characters, lower-cased, split at its first '_' into
      section and key, written "section.key". */
  function DecodeEnvKey(name: string, reserved: string): (r: Option<string>)
    ensures r.Some? <==> IsSelectedEnvName(name, reserved)
  {
    if !IsSelectedEnvName(name, reserved) then None
    else
      var rest := ToLower(name[5..]);
      assert name[..9] == EnvironmentPrefix;
      assert rest[3] == LowerChar(name[8]) == '_';
      var i := IndexOf(rest, '_');
      if i == -1 then None else Some(rest[..i] + "." + rest[i + 1..])
  }

  /** Since only five of the nine prefix characters are stripped, every selected
      name keeps "app_" in front: the underscore is always found at position 3,
      no selected name is ever skipped, and the section is always "app". */
  lemma DecodedSectionIsApp(name: string, reserved: string)
    requires IsSelectedEnvName(name, reserved)
    ensures DecodeEnvKey(name, reserved) == Some("app." + ToLower(name[9..]))
  {
    assert name[..9] == EnvironmentPrefix;
    var rest := ToLower(name[5..]);
    assert rest[..4] == "app_" by {
      forall j | 0 <= j < 4 ensures rest[j] == "app_"[j] {
        assert name[5..][j] == name[5 + j] == EnvironmentPrefix[5 + j];
      }
    }
    assert rest[..3] == "app";
    IndexOfFirst(rest, '_', 3);
    assert rest[4..] == ToLower(name[9..]) by {
      forall j | 0 <= j < |name| - 9 ensures rest[4..][j] == ToLower(name[9..])[j] {
        assert name[5..][4 + j] == name[9..][j];
      }
    }
    assert rest[..3] + "." + rest[4..] == "app." + ToLower(name[9..]);
  }

  /** System.getenv(name). */
  function EnvValue(env: Environment, name: string): (r: Option<string>)
    ensures r.None? <==> forall i :: 0 <= i < |env| ==> env[i].0 != name
    ensures r.Some? ==> exists i :: 0 <= i < |env| && env[i] == (name, r.value)
                                && forall j :: i < j < |env| ==> env[j].0 != name
  {
    if env == [] then None
    else if env[|env| - 1].0 == name then Some(env[|env| - 1].1)
    else
      var init := env[..|env| - 1];
      var r := EnvValue(init, name);
      assert r.None? ==> forall i :: 0 <= i < |env| ==> env[i].0 != name by {
        if r.None? {
          forall i | 0 <= i < |env| ensures env[i].0 != name {
            if i < |init| { assert init[i] == env[i]; }
          }
        }
      }
      assert r.Some? ==> exists i :: 0 <= i < |env| && env[i] == (name, r.value)
                                  && forall j :: i < j < |env| ==> env[j].0 != name by {
        if r.Some? {
          var i :| 0 <= i < |init| && init[i] == (name, r.value) && forall j :: i < j < |init| ==> init[j].0 != name;
          assert env[i] == init[i];
          forall j | i < j < |env| ensures env[j].0 != name {
            if j < |init| { assert init[j] == env[j]; }
          }
        }
      }
      r
  }

  /** The value of the last entry of `env` whose name decodes to `k`. */
  function LastDecoded(env: Environment, reserved: string, k: string): Option<string> {
    if env == [] then None
    else if DecodeEnvKey(env[|env| - 1].0, reserved) == Some(k) then Some(env[|env| - 1].1)
    else LastDecoded(env[..|env| - 1], reserved, k)
  }

  /** The table after writing every decoded entry unconditionally, in order:
      a key some entry decodes to holds the value of the last such entry;
      every other key is as it was. */
  function ApplyEnvironment(props: map<string, string>, env: Environment, reserved: string): (r: map<string, string>)
    ensures forall k :: Get(r, k) == OrElse(LastDecoded(env, reserved, k), Get(props, k))
    ensures props.Keys <= r.Keys
    decreases |env|
  {
    if env == [] then props
    else
      var p := ApplyEnvironment(props, env[..|env| - 1], reserved);
      var (name, value) := env[|env| - 1];
      match DecodeEnvKey(name, reserved)
      case None =>
        assert forall k :: LastDecoded(env, reserved, k) == LastDecoded(env[..|env| - 1], reserved, k);
        p
      case Some(key) =>
        assert LastDecoded(env, reserved, key) == Some(value);
        assert forall k :: k != key ==> LastDecoded(env, reserved, k) == LastDecoded(env[..|env| - 1], reserved, k);
        p[key := value]
  }

  /** Applying the same environment twice is applying it once. */
  lemma ApplyEnvironmentIdempotent(props: map<string, string>, env: Environment, reserved: string)
    ensures ApplyEnvironment(ApplyEnvironment(props, env, reserved), env, reserved)
         == ApplyEnvironment(props, env, reserved)
  {
    var once := ApplyEnvironment(props, env, reserved);
    var twice := ApplyEnvironment(once, env, reserved);
    forall k ensures Get(twice, k) == Get(once, k) { }
    GetExtensional(twice, once);
  }

  /** Every key the environment writes starts with "app.". */
  lemma {:induction false} EnvironmentKeysAreNamespaced(env: Environment, reserved: string, k: string)
    ensures LastDecoded(env, reserved, k).Some? ==> StartsWith(k, "app.") && '.' in k
  {
    if env != [] {
      var name := env[|env| - 1].0;
      if DecodeEnvKey(name, reserved) == Some(k) {
        DecodedSectionIsApp(name, reserved);
        assert k[..4] == "app.";
        assert k[3] == '.';
      } else {
        EnvironmentKeysAreNamespaced(env[..|env| - 1], reserved, k);
      }
    }
  }

  /** A key without a '.' (such as the getters' "baseUrl", "apiKey" and
      "account") is never reached by an environment override. */
  lemma BareKeysUntouchedByEnvironment(props: map<string, string>, env: Environment, reserved: string, k: string)
    requires '.' !in k
    ensures Get(ApplyEnvironment(props, env, reserved), k) == Get(props, k)
  {
    EnvironmentKeysAreNamespaced(env, reserved, k);
  }

  // ---------------------------------------------------------------------------
  // The configuration URL naming a further file

  /** The URL variable read from the environment, falling back to the
      system property of the same name only when the variable is empty; None
      when both are empty. */
  function ConfigUrlValue(env: Environment, name: string, systemProperty: Option<string>): (r: Option<string>)
    ensures r.Some? ==> r.value != ""
    ensures !IsEmpty(EnvValue(env, name)) ==> r == EnvValue(env, name)
    ensures IsEmpty(EnvValue(env, name)) && !IsEmpty(systemProperty) ==> r == systemProperty
    ensures IsEmpty(EnvValue(env, name)) && IsEmpty(systemProperty) ==> r.None?
  {
    var url := if IsEmpty(EnvValue(env, name)) then systemProperty else EnvValue(env, name);
    if IsEmpty(url) then None else url
  }

  /** getConfigurationFromURL: the file the configuration URL names, read with the YAML
      reader and no extension check, merged first-wins. */
  function UrlStage(props: map<string, string>, env: Environment, name: string,
                  systemProperty: Option<string>, sources: Sources): (r: Resolution)
    ensures ConfigUrlValue(env, name, systemProperty).None? ==> r == Resolution(props, Pass)
    ensures r.outcome.Fail? ==> r.props == props
    ensures props.Items <= r.props.Items
  {
    match ConfigUrlValue(env, name, systemProperty)
    case None => Resolution(props, Pass)
    case Some(location) => LoadAndMerge(props, location, Yaml, sources)
  }

  /** The document a load step merges, or nothing. */
  function LoadedDocument(location: string, format: Format, sources: Sources): Document {
    match GetConfigurationFile(location, format, sources)
    case Success(Some(doc)) => doc
    case _ => []
  }

  /** The document the configuration URL contributes, or nothing. */
  function UrlDocument(env: Environment, name: string, systemProperty: Option<string>, sources: Sources): Document {
    match ConfigUrlValue(env, name, systemProperty)
    case None => []
    case Some(location) => LoadedDocument(location, Yaml, sources)
  }

  /** A load that completes has merged its document first-wins; one that fails
      has left the table alone. */
  lemma LoadAndMergeMerges(props: map<string, string>, location: string, format: Format, sources: Sources)
    ensures var r := LoadAndMerge(props, location, format, sources);
      && (r.outcome.Pass? <==> GetConfigurationFile(location, format, sources).Success?)
      && (r.outcome.Pass? ==> r.props == MergeFirstWins(props, LoadedDocument(location, format, sources)))
      && (r.outcome.Fail? ==> r.props == props)
  {
  }

  /** Whether a load throws depends on the sources, never on the table. */
  lemma LoadOutcomeIgnoresTable(p: map<string, string>, q: map<string, string>,
                                location: string, format: Format, sources: Sources)
    ensures LoadAndMerge(p, location, format, sources).outcome == LoadAndMerge(q, location, format, sources).outcome
  {
    match GetConfigurationFile(location, format, sources)
    case Failure(e) =>
    case Success(configuration) =>
  }

  /** Whether a URL stage throws depends on the sources, never on the table. */
  lemma UrlOutcomeIgnoresTable(p: map<string, string>, q: map<string, string>, env: Environment,
                                   name: string, systemProperty: Option<string>, sources: Sources)
    ensures UrlStage(p, env, name, systemProperty, sources).outcome
         == UrlStage(q, env, name, systemProperty, sources).outcome
  {
    match ConfigUrlValue(env, name, systemProperty)
    case None =>
    case Some(location) => LoadOutcomeIgnoresTable(p, q, location, Yaml, sources);
  }

  /** A URL stage that completes has merged the URL document first-wins. */
  lemma UrlStageMerges(props: map<string, string>, env: Environment, name: string,
                           systemProperty: Option<string>, sources: Sources)
    requires UrlStage(props, env, name, systemProperty, sources).outcome.Pass?
    ensures UrlStage(props, env, name, systemProperty, sources).props
         == MergeFirstWins(props, UrlDocument(env, name, systemProperty, sources))
  {
    match ConfigUrlValue(env, name, systemProperty)
    case None =>
    case Some(location) =>
      LoadAndMergeMerges(props, location, Yaml, sources);
  }

  // ---------------------------------------------------------------------------
  // The table itself

  /** java.util.Properties, as the two loaders fill it. */
  class PropertyTable {
    var props: map<string, string>

    constructor ()
      ensures props == map[]
    {
      props := map[];
    }

    /** Properties.clear, the reset between loads. */
    method Clear()
      modifies this
      ensures props == map[]
    {
      props := map[];
    }

    /** Properties.getProperty */
    function GetProperty(key: string): (r: Option<string>)
      reads this
      ensures r.Some? <==> key in props
      ensures r.Some? ==> r.value == props[key]
    {
      Get(props, key)
    }

    /** addConfigurationToProperties: walks the file's keys and writes each
        one only when the table has no value for it yet. */
    method AddConfiguration(configuration: Option<Document>)
      modifies this
      ensures props == MergeConfiguration(old(props), configuration)
    {
      if configuration.Some? {
        var keys := configuration.value;
        var i := 0;
        while i < |keys|
          invariant 0 <= i <= |keys|
          invariant props == MergeFirstWins(old(props), keys[..i])
        {
          var (key, value) := keys[i];
          assert keys[..i + 1][..i] == keys[..i];
          if key !in props {
            props := props[key := value];
          }
          i := i + 1;
        }
        assert keys[..|keys|] == keys;
      }
    }

    /** getConfigurationFile followed by addConfigurationToProperties: a load
        that throws leaves the table as it was. */
    method MergeFile(location: string, format: Format, sources: Sources) returns (outcome: Outcome<ConfigError>)
      modifies this
      ensures Resolution(props, outcome) == LoadAndMerge(old(props), location, format, sources)
    {
      var configuration := GetConfigurationFile(location, format, sources);
      if configuration.Failure? {
        return Fail(configuration.error);
      }
      AddConfiguration(configuration.value);
      outcome := Pass;
    }

    /** getConfigurationFromURL: reads the URL variable, falls back to the
        system property when it is empty, and merges the file it names. */
    method MergeUrl(env: Environment, name: string, systemProperty: Option<string>, sources: Sources)
      returns (outcome: Outcome<ConfigError>)
      modifies this
      ensures Resolution(props, outcome) == UrlStage(old(props), env, name, systemProperty, sources)
    {
      var url := EnvValue(env, name);
      if IsEmpty(url) {
        url := systemProperty;
      }
      outcome := Pass;
      if !IsEmpty(url) {
        outcome := MergeFile(url.value, Yaml, sources);
      }
    }

    /** readEnvironment: every selected, decodable entry is written,
        overwriting whatever the key held. */
    method ReadEnvironment(env: Environment, reserved: string)
      modifies this
      ensures props == ApplyEnvironment(old(props), env, reserved)
    {
      for i := 0 to |env|
        invariant props == ApplyEnvironment(old(props), env[..i], reserved)
      {
        assert env[..i + 1][..i] == env[..i];
        var (name, value) := env[i];
        var key := DecodeEnvKey(name, reserved);
        if key.Some? {
          props := props[key.value := value];
        }
      }
      assert env[..|env|] == env;
    }
  }
}
