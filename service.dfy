/** `ConfigurableService`: a layered configuration store built once from a default file, an
    environment-specific file and the process environment, with raw-key lookups and writes.
    The file system is a map from path to parsed content (a path that is absent is a file that
    is missing or does not parse), and the process environment is a snapshot of its
    `(name, value)` pairs in enumeration order. */
module Service {
  import opened Wrappers
  import opened JsonValues
  import opened Keys
  import opened Flattening

  /** What `typeof` says of a JavaScript value that is not a string. */
  type NonStringType = t: string | t != "string" witness "number"

  /** The argument given to `getProperty`/`setProperty`: a string, or some other JavaScript value
      described by what `typeof` says of it. */
  datatype Key = StringKey(name: string) | NonStringKey(typeOf: NonStringType)

  /** The `Error` thrown for a key that is not a string; it reports the actual type. */
  datatype ConfigError = WrongPropertyType(actualType: string)

  const DefaultConfigPath: string := "./config/default.json"

  /** JavaScript truthiness of an environment value: defined and not the empty string. */
  predicate Truthy(v: Option<string>) {
    v.Some? && v.value != ""
  }

  /** `process.env[name]`: the value of the variable `name`, or `undefined`. Should the
      snapshot list a name twice, the later pair counts, as it would in an object built from it. */
  function EnvLookup(env: seq<(string, string)>, name: string): (r: Option<string>)
    ensures r.None? <==> forall i :: 0 <= i < |env| ==> env[i].0 != name
    ensures r.Some? ==> exists i :: 0 <= i < |env| && env[i] == (name, r.value) &&
                                    forall j :: i < j < |env| ==> env[j].0 != name
  {
    if env == [] then None
    else
      var last := |env| - 1;
      if env[last].0 == name then Some(env[last].1)
      else
        var earlier := env[..last];
        assert forall i :: 0 <= i < last ==> earlier[i] == env[i];
        EnvLookup(earlier, name)
  }

  /** The value of `c0 || c1 || ... || cn`: the first truthy operand, or the last one when none
      is truthy. */
  function FirstTruthy(cs: seq<Option<string>>): (r: Option<string>)
    requires |cs| > 0
    ensures Truthy(r) <==> exists i :: 0 <= i < |cs| && Truthy(cs[i])
    ensures forall i :: 0 <= i < |cs| && Truthy(cs[i]) && (forall j :: 0 <= j < i ==> !Truthy(cs[j]))
                        ==> r == cs[i]
    ensures !Truthy(r) ==> r == cs[|cs| - 1]
  {
    if |cs| == 1 || Truthy(cs[0]) then cs[0]
    else
      var r := FirstTruthy(cs[1..]);
      assert forall i :: 1 <= i < |cs| ==> cs[1..][i - 1] == cs[i];
      r
  }

  /** The variables consulted for the environment name, in the order they are tried. */
  const EnvNameVariables: seq<string> := ["NODE.ENV", "node.env", "NODE_ENV", "node_env"]

  /** The values of those variables, in the same order. */
  function VariableValues(env: seq<(string, string)>): (vs: seq<Option<string>>)
    ensures |vs| == |EnvNameVariables|
    ensures forall i :: 0 <= i < |vs| ==> vs[i] == EnvLookup(env, EnvNameVariables[i])
  {
    seq(|EnvNameVariables|, i requires 0 <= i < |EnvNameVariables| => EnvLookup(env, EnvNameVariables[i]))
  }

  /** `nodeEnv_ || process.env["NODE.ENV"] || process.env["node.env"] || process.env["NODE_ENV"]
      || process.env["node_env"]`: a truthy argument wins; otherwise the first variable with a
      truthy value; and when nothing is truthy, whatever `node_env` holds, possibly `undefined`. */
  function ResolveEnvName(nodeEnvArg: Option<string>, env: seq<(string, string)>): (r: Option<string>)
    ensures Truthy(nodeEnvArg) ==> r == nodeEnvArg
    ensures !Truthy(nodeEnvArg) ==>
              var vs := VariableValues(env);
              forall i :: 0 <= i < |vs| && Truthy(vs[i]) && (forall j :: 0 <= j < i ==> !Truthy(vs[j])) ==> r == vs[i]
    ensures Truthy(r) <==> Truthy(nodeEnvArg) || exists i :: 0 <= i < |VariableValues(env)| && Truthy(VariableValues(env)[i])
    ensures !Truthy(r) ==> r == EnvLookup(env, "node_env")
  {
    if Truthy(nodeEnvArg) then nodeEnvArg
    else
      var vs := VariableValues(env);
      assert vs[|vs| - 1] == EnvLookup(env, "node_env");
      FirstTruthy(vs)
  }

  /** The text a name is interpolated as: `undefined` becomes the text "undefined". */
  function NameText(nodeEnv: Option<string>): string {
    match nodeEnv
    case None => "undefined"
    case Some(name) => name
  }

  /** `./config/${nodeEnv}.json`: the name can be read back between the directory and the
      extension. */
  function EnvFilePath(nodeEnv: Option<string>): (r: string)
    ensures |r| == |NameText(nodeEnv)| + 14
    ensures r[..9] == "./config/" && r[|r| - 5..] == ".json"
    ensures r[9..|r| - 5] == NameText(nodeEnv)
  {
    var r := "./config/" + NameText(nodeEnv) + ".json";
    assert r[9..|r| - 5] == NameText(nodeEnv);
    r
  }

  /** Two names select the same file exactly when they are interpolated alike; in particular an
      `undefined` name and the name "undefined" read the same file. */
  lemma EnvFilePathDistinguishes(a: Option<string>, b: Option<string>)
    ensures EnvFilePath(a) == EnvFilePath(b) <==> NameText(a) == NameText(b)
    ensures EnvFilePath(None) == EnvFilePath(Some("undefined"))
  {
    if EnvFilePath(a) == EnvFilePath(b) {
      var p := EnvFilePath(a);
      assert NameText(a) == p[9..|p| - 5] == NameText(b);
    }
  }

  /** `#getConfigFromFile(path)`: the parsed file, or `undefined` when reading or parsing fails. */
  function ReadConfig(files: map<string, Json>, path: string): (r: Option<Json>)
    ensures r.Some? <==> path in files
    ensures r.Some? ==> r.value == files[path]
  {
    if path in files then Some(files[path]) else None
  }

  /** `process.env` seen as an object whose members are the variables, in order, with their
      string values. */
  function EnvSource(env: seq<(string, string)>): (r: Json)
    ensures r.Obj? && |r.fields| == |env|
    ensures forall i :: 0 <= i < |env| ==> r.fields[i] == (env[i].0, Str(env[i].1))
  {
    Obj(seq(|env|, i requires 0 <= i < |env| => (env[i].0, Str(env[i].1))))
  }

  /** `new Map([...defaults, ...specified, ...osEnv])`: later layers override earlier ones. */
  function Merge(defaults: map<string, Json>, specified: map<string, Json>, osEnv: map<string, Json>)
    : (r: map<string, Json>)
    ensures r.Keys == defaults.Keys + specified.Keys + osEnv.Keys
    ensures forall k :: k in osEnv ==> r[k] == osEnv[k]
    ensures forall k :: k in specified && k !in osEnv ==> r[k] == specified[k]
    ensures forall k :: k in defaults && k !in specified && k !in osEnv ==> r[k] == defaults[k]
  {
    defaults + specified + osEnv
  }

  /** The store the constructor builds for a resolved environment name. Every key in it is
      normalised. */
  function InitialProperties(nodeEnv: Option<string>, files: map<string, Json>, env: seq<(string, string)>)
    : (r: map<string, Json>)
    ensures forall k :: k in r ==> IsNormalized(k)
  {
    Merge(Flatten(ReadConfig(files, DefaultConfigPath), ""),
          Flatten(ReadConfig(files, EnvFilePath(nodeEnv)), ""),
          Flatten(Some(EnvSource(env)), ""))
  }

  /** `getProperty(property)` as written: the raw key is looked up; its normalised copy is
      computed and discarded, so it plays no part. */
  function Get(properties: map<string, Json>, key: Key): (r: Result<Option<Json>, ConfigError>)
    ensures key.NonStringKey? ==> r == Failure(WrongPropertyType(key.typeOf))
    ensures key.StringKey? ==> r.Success? && (r.value.Some? <==> key.name in properties)
    ensures key.StringKey? && key.name in properties ==> r.value == Some(properties[key.name])
  {
    match key
    case NonStringKey(t) => Failure(WrongPropertyType(t))
    case StringKey(name) => Success(if name in properties then Some(properties[name]) else None)
  }

  /** `setProperty(property, value)` as written: the raw key is written, and the result is the
      updated map itself. */
  function Set(properties: map<string, Json>, key: Key, value: Json): (r: Result<map<string, Json>, ConfigError>)
    ensures key.NonStringKey? ==> r == Failure(WrongPropertyType(key.typeOf))
    ensures key.StringKey? ==> r.Success? && r.value.Keys == properties.Keys + {key.name}
    ensures key.StringKey? ==> r.value[key.name] == value
    ensures key.StringKey? ==> forall k :: k in properties && k != key.name ==> r.value[k] == properties[k]
  {
    match key
    case NonStringKey(t) => Failure(WrongPropertyType(t))
    case StringKey(name) => Success(properties[name := value])
  }

  class ConfigurableService {
    var nodeEnv: Option<string>
    var properties: map<string, Json>

    /** Resolves the environment name, then flattens the default file, the environment file and
        the process environment and merges them in that order. */
    constructor (nodeEnvArg: Option<string>, files: map<string, Json>, env: seq<(string, string)>)
      ensures nodeEnv == ResolveEnvName(nodeEnvArg, env)
      ensures properties == InitialProperties(nodeEnv, files, env)
    {
      var resolved := ResolveEnvName(nodeEnvArg, env);
      var defaultProperties := JsonToMap(ReadConfig(files, DefaultConfigPath), "");
      var specifiedProperties := JsonToMap(ReadConfig(files, EnvFilePath(resolved)), "");
      var osEnvVars := JsonToMap(Some(EnvSource(env)), "");
      nodeEnv := resolved;
      properties := Merge(defaultProperties, specifiedProperties, osEnvVars);
    }

    method GetProperty(key: Key) returns (r: Result<Option<Json>, ConfigError>)
      ensures r == Get(properties, key)
    {
      if !key.StringKey? {
        return Failure(WrongPropertyType(key.typeOf));
      }
      var name := key.name;
      if name in properties {
        r := Success(Some(properties[name]));
      } else {
        r := Success(None);
      }
    }

    method SetProperty(key: Key, value: Json) returns (r: Result<map<string, Json>, ConfigError>)
      modifies this
      ensures nodeEnv == old(nodeEnv)
      ensures r == Set(old(properties), key, value)
      ensures properties == if r.Success? then r.value else old(properties)
    {
      if !key.StringKey? {
        return Failure(WrongPropertyType(key.typeOf));
      }
      properties := properties[key.name := value];
      r := Success(properties);
    }
  }

  /** With neither file present, the store holds exactly the process environment. */
  lemma MissingFilesLeaveOnlyEnvironment(nodeEnv: Option<string>, files: map<string, Json>,
                                         env: seq<(string, string)>)
    requires DefaultConfigPath !in files && EnvFilePath(nodeEnv) !in files
    ensures InitialProperties(nodeEnv, files, env) == Flatten(Some(EnvSource(env)), "")
  {
    NothingToEnumerate(None, "");
  }

  /** Precedence: a key the process environment defines takes the environment's value, else the
      environment file's, else the default file's; no other key is present. */
  lemma LayerPrecedence(nodeEnv: Option<string>, files: map<string, Json>, env: seq<(string, string)>, k: string)
    ensures var defaults := Flatten(ReadConfig(files, DefaultConfigPath), "");
            var specified := Flatten(ReadConfig(files, EnvFilePath(nodeEnv)), "");
            var osEnv := Flatten(Some(EnvSource(env)), "");
            var store := InitialProperties(nodeEnv, files, env);
            && (k in store <==> k in defaults || k in specified || k in osEnv)
            && (k in osEnv ==> store[k] == osEnv[k])
            && (k !in osEnv && k in specified ==> store[k] == specified[k])
            && (k !in osEnv && k !in specified && k in defaults ==> store[k] == defaults[k])
  {
  }

  /** The variable at position `j` writes one entry: its value under its normalised name. */
  lemma EnvEntry(env: seq<(string, string)>, j: nat)
    requires j < |env|
    ensures MemberEntries(EnvSource(env).fields[j], "", EnvSource(env)) == map[Normalize(env[j].0) := Str(env[j].1)]
  {
  }

  /** A variable lands in the flattened environment under its normalised name, with its value,
      unless a later variable's name normalises to the same key. */
  lemma EnvironmentVariableFlattened(env: seq<(string, string)>, i: nat)
    requires i < |env|
    requires forall j :: i < j < |env| ==> Normalize(env[j].0) != Normalize(env[i].0)
    ensures Normalize(env[i].0) in Flatten(Some(EnvSource(env)), "")
    ensures Flatten(Some(EnvSource(env)), "")[Normalize(env[i].0)] == Str(env[i].1)
  {
    var owner := EnvSource(env);
    var members := Members(Some(owner));
    var k := Normalize(env[i].0);
    assert Flatten(Some(owner), "") == FlattenMembers(members, "", owner);
    EnvEntry(env, i);
    forall j | i < j < |members|
      ensures k !in MemberEntries(members[j], "", owner)
    {
      EnvEntry(env, j);
    }
    LastWriterWins(members, "", owner, i, k);
  }

  /** Such a variable overrides both files: a variable `DB_HOST=y` is read back as
      `dbhost -> "y"`, whatever the files say. */
  lemma EnvironmentVariableWins(nodeEnv: Option<string>, files: map<string, Json>, env: seq<(string, string)>, i: nat)
    requires i < |env|
    requires forall j :: i < j < |env| ==> Normalize(env[j].0) != Normalize(env[i].0)
    ensures Normalize(env[i].0) in InitialProperties(nodeEnv, files, env)
    ensures InitialProperties(nodeEnv, files, env)[Normalize(env[i].0)] == Str(env[i].1)
  {
    EnvironmentVariableFlattened(env, i);
  }

  /** The layered example: default `{a: 1}`, environment file `{a: 2}` and variable `A=3`
      resolve `a` to `"3"`. */
  lemma PrecedenceExample()
    ensures var files := map[DefaultConfigPath := Obj([("a", Num(1.0))]),
                             "./config/stage.json" := Obj([("a", Num(2.0))])];
            var store := InitialProperties(Some("stage"), files, [("A", "3")]);
            "a" in store && store["a"] == Str("3")
  {
    NormalizeWithoutSeparators("A");
    assert ToLower("A") == "a";
    LeafYieldsOneEntry("A", Str("3"), "");
    assert EnvSource([("A", "3")]) == Obj([("A", Str("3"))]);
  }

  /** A raw-key write is read back by the same raw key. */
  lemma GetAfterSet(properties: map<string, Json>, name: string, value: Json)
    ensures Get(Set(properties, StringKey(name), value).value, StringKey(name)) == Success(Some(value))
  {
  }

  /** A write leaves every other raw key's lookup as it was. */
  lemma SetLeavesOtherKeys(properties: map<string, Json>, name: string, other: string, value: Json)
    requires other != name
    ensures Get(Set(properties, StringKey(name), value).value, StringKey(other)) == Get(properties, StringKey(other))
  {
  }

  /** Both operations throw for a key that is not a string, naming its type. (That the failed
      write leaves the store unchanged is part of `ConfigurableService.SetProperty`'s contract.) */
  lemma NonStringKeyRejected(properties: map<string, Json>, typeOf: NonStringType, value: Json)
    ensures Get(properties, NonStringKey(typeOf)) == Failure(WrongPropertyType(typeOf))
    ensures Set(properties, NonStringKey(typeOf), value) == Failure(WrongPropertyType(typeOf))
  {
  }

  // The lookups as written, and as the discarded normalised copy `property_` evidently intends them.

  /** As written, a freshly built store never answers a key that is not normalised: the raw key
      cannot match any stored key. */
  lemma RawLookupMissesUnnormalizedKey(nodeEnv: Option<string>, files: map<string, Json>,
                                       env: seq<(string, string)>, name: string)
    requires !IsNormalized(name)
    ensures Get(InitialProperties(nodeEnv, files, env), StringKey(name)) == Success(None)
  {
  }

  /** The files of the running example: only a default file holding `{db: {host: "x", port: 5432}}`. */
  function DbExampleFiles(): map<string, Json> {
    map[DefaultConfigPath := Obj([("db", Obj([("host", Str("x")), ("port", Num(5432.0))]))])]
  }

  /** With no environment name and an empty environment, the example store holds `dbhost` and
      `dbport`; the environment file `./config/undefined.json` is absent. */
  lemma DbExampleStore()
    ensures InitialProperties(None, DbExampleFiles(), []) == map["dbhost" := Str("x"), "dbport" := Num(5432.0)]
  {
    var nested := Obj([("db", Obj([("host", Str("x")), ("port", Num(5432.0))]))]);
    NestedObjectExample();
    ExampleFilesRead();
    NothingToEnumerate(None, "");
    EmptyEnvironmentFlattensToNothing();
    assert InitialProperties(None, DbExampleFiles(), [])
        == Merge(Flatten(Some(nested), ""), Flatten(None, ""), Flatten(Some(EnvSource([])), ""));
  }

  /** In the example, the default file is read and `./config/undefined.json` is missing. */
  lemma ExampleFilesRead()
    ensures ReadConfig(DbExampleFiles(), DefaultConfigPath)
            == Some(Obj([("db", Obj([("host", Str("x")), ("port", Num(5432.0))]))]))
    ensures ReadConfig(DbExampleFiles(), EnvFilePath(None)) == None
  {
    assert EnvFilePath(None) == "./config/undefined.json";
    assert EnvFilePath(None)[9] == 'u' != DefaultConfigPath[9];
  }

  /** An empty environment contributes no entry. */
  lemma EmptyEnvironmentFlattensToNothing()
    ensures Flatten(Some(EnvSource([])), "") == map[]
  {
    assert Members(Some(EnvSource([]))) == [];
  }

  /** As written: `getProperty("db.host")` on the example store is `undefined`, although
      `getProperty("dbhost")` finds the entry. */
  lemma RawLookupExample()
    ensures Get(InitialProperties(None, DbExampleFiles(), []), StringKey("db.host")) == Success(None)
    ensures Get(InitialProperties(None, DbExampleFiles(), []), StringKey("dbhost")) == Success(Some(Str("x")))
  {
    DbExampleStore();
    assert "db.host" != "dbhost" && "db.host" != "dbport";
  }

  /** The lookup the discarded `property_` (ConfigurableService.js:56-58) was evidently meant for: the key is
      normalised first. */
  function GetNormalized(properties: map<string, Json>, key: Key): (r: Result<Option<Json>, ConfigError>)
    ensures key.NonStringKey? ==> r == Failure(WrongPropertyType(key.typeOf))
    ensures key.StringKey? ==> r == Get(properties, StringKey(Normalize(key.name)))
  {
    match key
    case NonStringKey(t) => Failure(WrongPropertyType(t))
    case StringKey(name) =>
      var normalized := Normalize(name);
      Success(if normalized in properties then Some(properties[normalized]) else None)
  }

  /** The write the discarded `property_` (ConfigurableService.js:66-68) was evidently meant for: the key is
      normalised first. */
  function SetNormalized(properties: map<string, Json>, key: Key, value: Json): (r: Result<map<string, Json>, ConfigError>)
    ensures key.NonStringKey? ==> r == Failure(WrongPropertyType(key.typeOf))
    ensures key.StringKey? ==> r == Set(properties, StringKey(Normalize(key.name)), value)
  {
    match key
    case NonStringKey(t) => Failure(WrongPropertyType(t))
    case StringKey(name) => Success(properties[Normalize(name) := value])
  }

  /** With normalisation, a write under any spelling is read back under every spelling that
      normalises alike, and keys that normalise differently are untouched. */
  lemma NormalizedSpellingsAgree(properties: map<string, Json>, written: string, read: string, value: Json)
    ensures var after := SetNormalized(properties, StringKey(written), value).value;
            Normalize(written) == Normalize(read) ==> GetNormalized(after, StringKey(read)) == Success(Some(value))
    ensures var after := SetNormalized(properties, StringKey(written), value).value;
            Normalize(written) != Normalize(read) ==>
              GetNormalized(after, StringKey(read)) == GetNormalized(properties, StringKey(read))
  {
  }

  /** With normalisation, the store keeps the invariant construction establishes: every key is
      normalised. As written, one raw write of `db.host` breaks it. */
  lemma NormalizedWritesKeepKeysNormalized(properties: map<string, Json>, name: string, value: Json)
    requires forall k :: k in properties ==> IsNormalized(k)
    ensures forall k :: k in SetNormalized(properties, StringKey(name), value).value ==> IsNormalized(k)
    ensures !IsNormalized(name) ==> name in Set(properties, StringKey(name), value).value
  {
  }

  /** Corrected: `getProperty("db.host")` finds the entry stored under `dbhost`. */
  lemma NormalizedLookupExample()
    ensures GetNormalized(InitialProperties(None, DbExampleFiles(), []), StringKey("db.host")) == Success(Some(Str("x")))
  {
    DbExampleStore();
    DbHostPath();
  }
}
