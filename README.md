# ConfigurableService in Dafny

A model of `ConfigurableService`, a layered configuration store for Node.js. The store is built
once, when the service is constructed:

1. the environment name is resolved;
2. three sources are read and flattened into maps from normalised dotted keys to values: the
   default file `./config/default.json`, the environment file `./config/<name>.json` and the
   process environment;
3. the three maps are merged so that later sources override earlier ones.

After construction, `getProperty` and `setProperty` read and write single keys.

The project has five modules:

- `Wrappers` (`wrappers.dfy`): `Option` and `Result`.
- `JsonValues` (`json.dfy`): the parsed JSON value.
- `Keys` (`keys.dfy`): key normalisation. It deletes every `.`, then every `_`, then lowercases.
  It is proved idempotent, character-wise (it distributes over concatenation) and to have
  exactly the normalised keys as fixed points.
- `Flattening` (`flattening.dfy`): `#jsonToMap`.
  - `Flatten` is the specification, as functions.
  - `JsonToMap` is the imperative loop, with the nested-map copy loop in `CopyEntries`. It is
    proved equal to `Flatten`.
  - Lemmas give the properties of the flattened map: every key is normalised; every key starts
    with the normalised parent key; a key is present exactly when some member wrote it; the
    last writer wins; leaves, empty objects, arrays and scalars behave as the code says.
- `Service` (`service.dfy`): the rest of the service.
  - Environment-name resolution: the JavaScript `||` chain, which yields the first truthy
    operand, or the last operand when none is truthy.
  - The file paths, and the three-layer merge with its precedence.
  - The `ConfigurableService` class. It has the fields `nodeEnv` and `properties`, a
    constructor, and `GetProperty` and `SetProperty`.

The outside world becomes parameters:

- The file system is a map `files` from path to parsed content. A path that is absent stands
  for a file that cannot be read or does not parse; the code catches both and returns
  `undefined`.
- `process.env` is a snapshot `env` of `(name, value)` pairs in enumeration order.
- A JavaScript argument to `getProperty`/`setProperty` is a `Key`: either a string, or another
  value described by its `typeof`.

`getProperty` and `setProperty` are modelled as the code is written
(`ConfigurableService.js:56-59` and `:66-69`). The code computes a lowercased copy of the key,
discards it, and calls `replaceAll` without using the results, so the lookup and the write use
the raw key. Had the normalised copy been used, `db.host` would find the entry stored under
`dbhost`. That evidently intended behaviour is modelled separately, as `GetNormalized` and
`SetNormalized`; see "Findings".

## Model

| member | source | states |
|---|---|---|
| Keys.LowerChar | ConfigurableService.js:45 | the result is never an upper-case ASCII letter; an upper-case letter moves to its lower-case letter, and every other character is unchanged |
| Keys.RemoveAll | ConfigurableService.js:43-44 | the result is no longer than the input and does not contain the removed character |
| Keys.RemoveAllKeeps | ConfigurableService.js:43-44 | a character is in the result exactly when it is in the input and is not the removed one |
| Keys.RemoveAllAbsent | ConfigurableService.js:43-44 | removing a character that does not occur leaves the string unchanged |
| Keys.RemoveAllAppend | ConfigurableService.js:43-44 | removal distributes over concatenation |
| Keys.ToLower | ConfigurableService.js:45 | same length, and each position is lowercased on its own |
| Keys.ToLowerAppend | ConfigurableService.js:45 | lowercasing distributes over concatenation |
| Keys.Normalize | ConfigurableService.js:43-45 | the stored key contains no `.`, no `_` and no upper-case letter, and is no longer than the path |
| Keys.NormalizeFixedPoint | ConfigurableService.js:43-45 | normalisation leaves a key unchanged exactly when the key is already normalised |
| Keys.NormalizeIdempotent | ConfigurableService.js:43-45 | normalising twice is the same as normalising once |
| Keys.NormalizeAppend | ConfigurableService.js:43-45 | normalisation distributes over concatenation |
| Keys.NormalizeWithoutSeparators | ConfigurableService.js:43-45 | on a key without `.` or `_`, normalisation is plain lowercasing |
| Keys.NormalizeSeparator | ConfigurableService.js:43-44 | a lone `.` or `_` normalises to the empty key |
| Keys.NormalizeSeparated | ConfigurableService.js:43-45 | `a.b`, `a_b` and `ab` normalise to the same key, which is the normalised `a` followed by the normalised `b` |
| Flattening.IndexName | ConfigurableService.js:34 | the index name is a string of decimal digits that spells the index, with a leading zero only for index 0 |
| Flattening.IndexNameInjective | ConfigurableService.js:34 | two different indices never get the same key |
| Flattening.Members | ConfigurableService.js:34-37 | the members visited are exactly an object's fields in order; for an array or a string, one `(index name, element)` pair per position (a string's element is its one-character string); nothing for `undefined`, `null`, numbers and booleans (`Subject` maps `undefined` to `null`); every nested object visited is a proper part of the source |
| Flattening.NormalizeJoin | ConfigurableService.js:35-45 | `Join` builds `${parentKey}${parentKey ? "." : ""}${key}`; normalising it gives the normalised parent key followed by the normalised member key |
| Flattening.Flatten | ConfigurableService.js:31-50 | every key of the flattened map is normalised |
| Flattening.FlattenMembers | ConfigurableService.js:34-48 | after any prefix of the members is visited, every key written so far is normalised |
| Flattening.MemberEntries | ConfigurableService.js:37-47 | every key one member writes is normalised; only a value `IsNested` accepts (an object that is neither `null` nor an array) is recursed into |
| Flattening.JsonToMap | ConfigurableService.js:31-50 | the loop returns exactly the flattened map of the source under the parent key |
| Flattening.AddMember | ConfigurableService.js:35-47 | one iteration writes the member's entries over the map built so far: the nested map for an object, one normalised-path entry for any other value |
| Flattening.CopyEntries | ConfigurableService.js:38-41 | after the copy, the keys are the union of both maps' keys, and each nested entry overrides the existing one |
| Flattening.FlattenMembersStep | ConfigurableService.js:34-46 | each further iteration adds the next member's entries over the map so far |
| Flattening.FlattenMembersLast | ConfigurableService.js:34-46 | the map for a member list is the map for all but the last member, with the last member's entries written over it |
| Flattening.FlattenKeysPrefixed | ConfigurableService.js:35-38 | every key of a nested object's map starts with the normalised path of that object |
| Flattening.FlattenMembersKeysPrefixed | ConfigurableService.js:34-48 | every key written by a run of members starts with the normalised parent key |
| Flattening.MemberEntriesKeysPrefixed | ConfigurableService.js:35-47 | every key one member writes starts with the normalised parent key |
| Flattening.WrittenKeyPresent | ConfigurableService.js:40-46 | a key that any member writes ends up in the map |
| Flattening.PresentKeyWritten | ConfigurableService.js:40-46 | every key in the map was written by some member, whose position the lemma returns |
| Flattening.FlattenMembersDomain | ConfigurableService.js:34-48 | a key is in the map exactly when some member writes it |
| Flattening.LastWriterWins | ConfigurableService.js:40-46 | a key holds the value from the last member that wrote it |
| Flattening.CollidingLeavesLaterWins | ConfigurableService.js:43-46 | when two leaves normalise to the same key, the later leaf's value is stored, unless a still later member writes that key |
| Flattening.LeafYieldsOneEntry | ConfigurableService.js:42-46 | a scalar, `null` or array member yields exactly one entry, its value under the normalised path |
| Flattening.EmptyObjectYieldsNothing | ConfigurableService.js:37-41 | a nested empty object yields no entry at all |
| Flattening.NothingToEnumerate | ConfigurableService.js:21-34 | a missing source, `null`, a number or a boolean flattens to the empty map |
| Flattening.JoinNormalized | ConfigurableService.js:35-45 | joining two normalised parts and normalising gives their plain concatenation |
| Flattening.TwoLeaves | ConfigurableService.js:34-46 | two leaves are written in enumeration order, so the second write overrides the first |
| Flattening.ArrayOfLeavesKeys | ConfigurableService.js:34-46 | the map of a source that is itself an array of leaves holds exactly the index names `0`, `1`, ... |
| Flattening.ArrayOfLeavesValues | ConfigurableService.js:34-46 | in that map, each index name holds the element at that index |
| Flattening.ArrayKeyIndex | ConfigurableService.js:34-46 | every key in the map of an array of leaves is the name of some index, which the lemma returns |
| Flattening.IndexEntry | ConfigurableService.js:35-46 | in an array of leaves, the element at index `j` writes one entry, under the index name of `j` |
| Flattening.LaterIndexMisses | ConfigurableService.js:34-46 | in an array of leaves, a later index never writes the key of an earlier one |
| Flattening.NestedObjectExample | ConfigurableService.js:37-41 | `{db: {host: "x", port: 5432}}` flattens to exactly `dbhost -> "x"` and `dbport -> 5432` |
| Flattening.ArrayLeafExample | ConfigurableService.js:37-46 | an array value is stored whole, as a leaf |
| Service.EnvLookup | ConfigurableService.js:9 | a variable is `undefined` exactly when no pair has its name; otherwise its value comes from the last pair with that name |
| Service.FirstTruthy | ConfigurableService.js:9 | with `Truthy` as JavaScript truthiness of an environment value (defined and non-empty), the chain of `or` operands is truthy exactly when some operand is; it yields the first truthy operand, or the last operand when none is truthy |
| Service.VariableValues | ConfigurableService.js:9 | the values of `NODE.ENV`, `node.env`, `NODE_ENV` and `node_env`, in the order the chain tries them |
| Service.ResolveEnvName | ConfigurableService.js:9 | a truthy argument is the environment name; otherwise the first of those variables with a truthy value; the name is truthy exactly when one of the operands is; and when none is, it is whatever `node_env` holds, possibly `undefined` |
| Service.EnvFilePath | ConfigurableService.js:11 | the environment file is `./config/` + the name + `.json`, and the name can be read back from the path; an `undefined` name is interpolated as the text `undefined` |
| Service.EnvFilePathDistinguishes | ConfigurableService.js:11 | two names select the same file exactly when they are interpolated alike; an `undefined` name and the name `"undefined"` read the same file |
| Service.ReadConfig | ConfigurableService.js:16-24 | the file is read exactly when it is present (readable and parsable), and then its parsed content is returned; otherwise `undefined` |
| Service.EnvSource | ConfigurableService.js:12-29 | the process environment is an object with one string-valued member per variable, in order |
| Service.Merge | ConfigurableService.js:13 | the merged keys are the union of all three layers; the environment variables override the environment file, which overrides the default file |
| Service.InitialProperties | ConfigurableService.js:8-16 | every key of the constructed store is normalised (the store merges the default file `DefaultConfigPath`, the environment file and the process environment) |
| Service.LayerPrecedence | ConfigurableService.js:10-13 | for any key of the constructed store, the OS environment's value wins, else the environment file's, else the default file's; no other key is present |
| Service.MissingFilesLeaveOnlyEnvironment | ConfigurableService.js:10-23 | for any file system that lacks both `./config/default.json` and the environment file, the store is exactly the flattened process environment |
| Service.EnvEntry | ConfigurableService.js:12-46 | each variable writes one entry: its string value under its normalised name |
| Service.EnvironmentVariableFlattened | ConfigurableService.js:12-46 | a variable appears in the flattened environment under its normalised name with its value, unless a later variable normalises to the same key |
| Service.EnvironmentVariableWins | ConfigurableService.js:10-13 | such a variable overrides both files in the constructed store |
| Service.PrecedenceExample | ConfigurableService.js:9-13 | default `{a: 1}`, file `./config/stage.json` with `{a: 2}` and variable `A=3` give `a -> "3"` |
| Service.Get | ConfigurableService.js:52-60 | a non-string key raises the wrong-type error that names the actual type; a string key finds a value exactly when that raw key is stored, and finds the stored value |
| Service.Set | ConfigurableService.js:62-70 | a non-string key raises the wrong-type error; a string key yields the map with that raw key added, mapped to the value, and every other key unchanged |
| Service.ConfigurableService.constructor | ConfigurableService.js:8-14 | `nodeEnv` is the resolved environment name, and `properties` is the merge of the three flattened sources |
| Service.ConfigurableService.GetProperty | ConfigurableService.js:52-60 | answers as `Get` on the current store |
| Service.ConfigurableService.SetProperty | ConfigurableService.js:62-70 | returns the updated map as `Set` does; the store becomes that map on success and is unchanged on error; `nodeEnv` is untouched |
| Service.GetAfterSet | ConfigurableService.js:59-69 | a raw-key write is read back under the same raw key |
| Service.SetLeavesOtherKeys | ConfigurableService.js:59-69 | a write leaves the lookup of every other raw key unchanged |
| Service.NonStringKeyRejected | ConfigurableService.js:53-65 | both operations reject a key that is not a string, naming its type |
| Service.RawLookupMissesUnnormalizedKey | ConfigurableService.js:56-59 | as written, a freshly built store never finds a key that is not normalised |
| Service.DbExampleStore | ConfigurableService.js:8-14 | with only `{db: {host: "x", port: 5432}}` as the default file and an empty environment, the store is exactly `dbhost -> "x"`, `dbport -> 5432` |
| Service.ExampleFilesRead | ConfigurableService.js:11-23 | with no environment name, the environment file looked up is `./config/undefined.json`, which is missing |
| Service.EmptyEnvironmentFlattensToNothing | ConfigurableService.js:12-29 | an empty process environment contributes no entry |
| Service.RawLookupExample | ConfigurableService.js:56-59 | as written, `getProperty("db.host")` on the example store is `undefined`, while `getProperty("dbhost")` finds `"x"` |
| Service.GetNormalized | ConfigurableService.js:56-59 | corrected: the lookup normalises the key first, and otherwise behaves as `Get` |
| Service.SetNormalized | ConfigurableService.js:66-69 | corrected: the write normalises the key first, and otherwise behaves as `Set` |
| Service.NormalizedSpellingsAgree | ConfigurableService.js:56-69 | corrected: a write under one spelling is read back under every spelling that normalises alike, and lookups of other keys are unchanged |
| Service.NormalizedWritesKeepKeysNormalized | ConfigurableService.js:56-69 | corrected writes keep every stored key normalised; as written, a write under an unnormalised key stores that raw key |
| Service.NormalizedLookupExample | ConfigurableService.js:56-59 | corrected: `getProperty("db.host")` on the example store finds `"x"` |

## Left out

- Reading files (`fs.readFileSync`) and `JSON.parse` are not modelled. The model receives the
  parsed files as a map, where an absent path is an unreadable or unparsable file.
- The `console.debug` logging (`ConfigurableService.js:19,22,27`) has no effect on the store
  and is left out.
- `process.env` is a snapshot sequence of `(name, value)` pairs. Its live, host-defined
  behaviour, such as case-insensitive names on Windows, is not modelled.
- Keys.LowerChar: only ASCII letters are lowercased. `toLowerCase` maps the full Unicode case
  tables, and some characters grow when lowercased; neither is modelled.
- Flattening.Members: an object's fields are visited in the order they are given.
  JavaScript's `for...in` visits integer-like keys first, in ascending order. Duplicate keys in
  the JSON text are also not modelled, since `JSON.parse` keeps only the last one.
- Flattening.Members: a top-level string source is enumerated by character index, but a
  character outside the Basic Multilingual Plane counts as one index, not two UTF-16 units.
- Numbers are `real` and are taken as the value `JSON.parse` produced. The rounding of a
  literal to a double, and the `Infinity` an out-of-range literal gives, are not modelled; the
  store only carries numbers and never computes with them.
- Service.ConfigurableService.SetProperty: the returned value is the store's map itself, so a
  caller that mutates it later also mutates the store. That aliasing is not modelled; the
  model returns the map's value after the write.
- Service.Set: `setProperty` accepts any JavaScript value. The model accepts only JSON values,
  so `undefined`, functions and class instances are not modelled.
- Service.ResolveEnvName: only a string or `undefined` is modelled as the constructor
  argument. Other truthy values, such as a number, are not modelled; they would be
  interpolated into the file path as text.
- The module export (`ConfigurableService.js:73`) is not modelled. `index.js`, a demo script
  that only constructs the service, reads one key and prints it, is not part of this model.

## Findings

| source | as written | input that shows it | evidently intended | confidence | as-written member | corrected member |
|---|---|---|---|---|---|---|
| ConfigurableService.js:56-59 | `getProperty` lowercases a copy of the key, calls `replaceAll` and drops the results, then looks up the raw key | a store built from `{db: {host: "x"}}` holds `dbhost`; `getProperty("db.host")` returns `undefined` | the key is normalised as in `#jsonToMap` before the lookup, so `db.host`, `DB_HOST` and `dbhost` all find `"x"` | not executed | Service.RawLookupExample | Service.NormalizedLookupExample |
| ConfigurableService.js:66-69 | `setProperty` likewise writes under the raw key | `setProperty("db.host", "y")` adds a second key `db.host`, and `getProperty("dbhost")` still returns `"x"` | the key is normalised before the write, so every stored key stays normalised | not executed | Service.NormalizedWritesKeepKeysNormalized | Service.NormalizedSpellingsAgree |
