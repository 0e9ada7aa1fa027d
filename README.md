# flowbber core, modelled in Dafny

flowbber runs pipelines of plugins: sources collect data, aggregators combine
it, and sinks distribute it. This project models the parts every plugin goes
through, and proves properties about them:

- **The `Configurator`** (`config.py`). Each plugin declares its options with
  `add_option` and registers hooks with `add_validator`. `validate` then does
  the following, in order:
  - checks a user mapping for missing mandatory keys, then for unknown keys;
  - coerces values through their Cerberus schemas;
  - merges in defaults and runs the hooks;
  - logs the configuration with secret values masked;
  - builds a record of `(key, value, is_secret)` items.
- **The `PluginLoader`** (`loaders/loader.py`):
  - the entry-point group name;
  - the class-level registry of locally registered plugins (`register`);
  - `load_plugins`, with its cache, its discovery loop and its overlay of
    local registrations.
- **The Google Test source** (`plugins/sources/gtest.py`): `trycast`,
  `element_to_dict`, and `collect` with its three nested loops over suites and
  cases, the PASS/FAIL/SKIP classification and the `passed` counters.
- **The JSON source** (`plugins/sources/json.py`):
  - its option declarations;
  - the split of `file_uri` into scheme and resource;
  - the dispatch to a file read or a URL fetch, with the optional zip member.
- **The archive sink** (`plugins/sinks/archive.py`):
  - its option declarations;
  - `distribute`: the override guard, the creation of parent directories, the
    parent check, the `dumps` arguments and the `.zip` naming.
- **The `cpud` example's `build_definition`** (`examples/cpud/cpud.py`).

## How the model is laid out

**Stateful code is written as classes.**
- `Configurator`, the loader's class-level `Registry` and `PluginLoader` are
  Dafny classes whose methods update their fields.
- `OrderedDict` is an ordered map, `OrderedMaps.OMap`. It is a key sequence
  without duplicates plus a map.

**Code that works step by step is written as methods, each proved against a
specification function.**
- Loops: `Validate` against `ValidateSpec`, `LoadPlugins` against
  `LoadSpec`, `Collect` against `CollectSpec`.
- Sequences of guarded steps without a loop: `Distribute` against
  `ArchiveSpec`, `BuildDefinition` against `Build`.

The lemmas then state what these functions promise.

**Things the model cannot see are parameters.**
- The Cerberus validator is an oracle, `SchemaCheck`. It returns the coerced
  value, or `None` when the value is rejected.
- The text `str.format` produces for a value is the `render` oracle.
- A validator hook is a function. It returns the mapping it leaves, or says
  that it raised. The Python hook mutates the mapping in place; the model
  passes the new mapping on.
- `int(...)` and `float(...)` on attribute text are the `Parsers` oracles.
- What `iter_entry_points` yields is an input sequence. For each entry point
  it gives the outcome of `ep.load()`.
- The file system is a value: a set of file paths and a set of directory
  paths.
- `pathlib` is modelled as `PurePaths`: parse, render, name, parent, suffix,
  stem.

**Where the documentation and the code disagree, the model follows the
code.** The archive sink documents `create_parents` as defaulting to
`False`, but `archive.py:189` declares `True`.

## Model

| member | source | states |
|---|---|---|
| `Config.MandatoryAfterDeclare` | lib/flowbber/config.py:82-87 | re-declaring a key replaces its declaration: the key is mandatory afterwards exactly when the new declaration is not optional, and no other key changes status |
| `Config.CoerceMeaning` | lib/flowbber/config.py:120-145 | the schema pass keeps the set of user keys. On success, each present key with a schema holds the value its schema check produced, and every other key keeps the user's value. On failure, it names the first present key with a schema, in declaration order, whose original value the check rejected. Every present key with a schema declared before it was accepted and holds its coerced value in the mapping left behind; every other key keeps the user's value |
| `Config.LogConfiguration` | lib/flowbber/config.py:163-178 | the log loop produces exactly the log specification, one line per declared key still present, in declaration order |
| `Config.LogLinesShown` | lib/flowbber/config.py:166-174 | every log line is for a declared key still in the mapping; a secret key shows the twenty-asterisk mask, any other key shows its rendered value |
| `Config.LogLinesKeySet` | lib/flowbber/config.py:164-168 | the keys named in the log are exactly the declared keys still present, so a key a hook deleted is not logged |
| `Config.LogLinesMeaning` | lib/flowbber/config.py:160-178 | combines the two previous rows for each index of the log |
| `Config.Configurator.constructor` | lib/flowbber/config.py:55-63 | a new configurator has no declarations, no hooks and no record type |
| `Config.Configurator.AddOption` | lib/flowbber/config.py:65-87 | the four `ValueError`s, in the source's order: empty key, non-bool `optional`, a schema that is neither `None` nor a dict, non-bool `secret`. It succeeds iff none applies. On error the declarations are unchanged; on success the key is bound to the new declaration, keeping its old position when it was already declared |
| `Config.Configurator.AddValidator` | lib/flowbber/config.py:89-90 | the hook is appended after those already registered |
| `Config.Configurator.ApplySchemas` | lib/flowbber/config.py:120-145 | the schema loop computes exactly the schema-pass specification, including the partially coerced mapping it leaves when a value is rejected |
| `Config.Configurator.RunValidators` | lib/flowbber/config.py:155-157 | the hook loop computes the hooks run in order, each on what the previous one left, stopping at the first that raises |
| `Config.FinishRecord` | lib/flowbber/config.py:159-191 | the log loop and the record computed step by step are exactly the record specification: the `namedtuple` `ValueError` for keys that cannot be fields comes first and leaves no record type; otherwise the record type is created, and an undeclared key then fails |
| `Config.Configurator.FinishValidate` | lib/flowbber/config.py:120-191 | schema pass, defaults, hooks, log and record, as the specification says. The record type is created from the keys the hooks left when they can all be fields, even when a hook added an undeclared key and building the record then fails; when some key cannot be a field, the previous record type stays |
| `Config.Configurator.Validate` | lib/flowbber/config.py:92-191 | `validate` returns or raises exactly what the specification says (including the `namedtuple` `ValueError` for a key that is not an identifier, is a keyword or starts with `_`), and leaves the caller's mapping as the specification says. With nothing declared, it returns an empty record and accepts any mapping |
| `ConfigProperties.MissingOptionsExact` | lib/flowbber/config.py:100-110 | when mandatory keys are missing, this is the error, whatever else is wrong. It lists exactly the missing mandatory keys, strictly sorted, and the user's mapping is untouched |
| `ConfigProperties.SingleMandatoryMissing` | lib/flowbber/config.py:100-110 | with one mandatory key and that key absent, the error lists exactly that key |
| `ConfigProperties.UnknownOptionsExact` | lib/flowbber/config.py:112-118 | with every mandatory key present, undeclared keys are the error, listed exactly and strictly sorted |
| `ConfigProperties.MergedHoldsDeclaredKeys` | lib/flowbber/config.py:147-153 | after the key checks and a successful schema pass, the merged mapping has exactly the declared keys. A key the user gave holds its coerced value (or the user's value when it has no schema); every other key holds its default |
| `ConfigProperties.OnlyMandatoryGivesDefaults` | lib/flowbber/config.py:147-191 | when every declared key can be a `namedtuple` field, giving exactly the mandatory keys, with values the schemas accept and no hooks, validates, and every optional key holds its default |
| `ConfigProperties.SingleMandatoryGivesDefaults` | lib/flowbber/config.py:147-191 | the same for a single mandatory key given alone |
| `ConfigProperties.ResultFollowsHooks` | lib/flowbber/config.py:155-191 | `validate` succeeds iff the hooks left only declared keys and every key they left can be a `namedtuple` field. A key that cannot be a field is the `ValueError` listing exactly such keys, and no record type is created. Otherwise the record type has the keys the hooks left. On success, the record has exactly those keys, each carrying its value and its declaration's secret flag, and the log names exactly those keys |
| `ConfigProperties.RecordMeaning` | lib/flowbber/config.py:180-191 | building the record from what the hooks left: the same three outcomes as the previous row, stated for the record step alone |
| `ConfigProperties.HooksRunInOrder` | lib/flowbber/config.py:155-157 | hooks run in registration order: a hook added last runs after all the others and sees exactly what they left |
| `ConfigProperties.SecretValuesNeverLogged` | lib/flowbber/config.py:160-174 | the log does not depend on the values of secret keys: two mappings that differ only there log the same lines, and every secret line is twenty asterisks |
| `Strings.Sorted` | lib/flowbber/config.py:107-110 | `sorted` of a set of keys is strictly increasing in code-point order and holds exactly the set's elements |
| `OrderedMaps.Put` | lib/flowbber/config.py:82-87 | assigning into an `OrderedDict` keeps an existing key's position and appends a new key at the end; the value map is updated at that key only |
| `OrderedMaps.Update` | lib/flowbber/loaders/loader.py:162-164 | `OrderedDict.update` gives the other mapping's values priority and keeps the receiver's keys first, in their order, without duplicates |
| `Loader.EntryPointName` | lib/flowbber/loaders/loader.py:55-57 | the group name is `flowbber_plugin_`, the entity, `_`, then the API version with every `.` replaced by `_` and no `.` left |
| `Strings.ReplaceChar` | lib/flowbber/loaders/loader.py:56 | `str.replace` of one character keeps the length and changes exactly the occurrences of that character |
| `Loader.ConformsAsWritten` | lib/flowbber/loaders/loader.py:146-149 | the interface check as written raises `TypeError` exactly when the object is not a class; otherwise it answers whether the object is a subclass of the base |
| `Loader.DiscoverKeys` | lib/flowbber/loaders/loader.py:134-159 | after discovery, a name is bound iff it was bound before, or some entry point of that name loaded a conforming class |
| `Loader.DiscoverConforms` | lib/flowbber/loaders/loader.py:146-159 | discovery only ever binds conforming classes |
| `Loader.DiscoverKeepsOrder` | lib/flowbber/loaders/loader.py:129-159 | discovery keeps the names already bound first, in their order |
| `Loader.DiscoverLastWins` | lib/flowbber/loaders/loader.py:159 | a name is bound to the last accepted entry point that carries it |
| `Loader.DiscoverUntouched` | lib/flowbber/loaders/loader.py:134-159 | a bound name that no accepted entry point carries keeps its plugin |
| `Loader.DiscoverAsWrittenFailsOnNonClass` | lib/flowbber/loaders/loader.py:146-157 | discovery as written fails iff some entry point loaded a non-class; otherwise it agrees with the skipping discovery |
| `Loader.NonClassEntryPointAbortsLoading` | lib/flowbber/loaders/loader.py:146-149 | one entry point that loads a function makes discovery as written raise `TypeError`, where skipping it gives no plugins |
| `Loader.Registry.constructor` | lib/flowbber/loaders/loader.py:49-50 | a new registry is empty and remembers its base class |
| `Loader.Registry.Register` | lib/flowbber/loaders/loader.py:90-102 | a non-class raises `TypeError` and a non-subclass raises `ValueError`, in both cases leaving the registry unchanged. A conforming class is bound under its key, replacing an earlier binding, and is returned. Every registered plugin conforms |
| `Loader.PluginLoader.constructor` | lib/flowbber/loaders/loader.py:52-61 | a new loader has the group name of its entity and API version, and an empty cache |
| `Loader.PluginLoader.LoadPlugins` | lib/flowbber/loaders/loader.py:106-168 | a non-empty cache is returned unchanged when caching is allowed. Otherwise the result is the discovered plugins overlaid with the local registrations, it becomes the new cache, and every returned plugin is a subclass of the base. Discovery here is the corrected one, which skips an entry point that is not a class (see Findings) |
| `Loader.LocalRegistrationsWin` | lib/flowbber/loaders/loader.py:161-164 | a locally registered name always maps to the local plugin; the loaded names are exactly the local ones plus the accepted entry-point names; discovered names come first, in discovery order |
| `Loader.LastEntryPointWins` | lib/flowbber/loaders/loader.py:159-164 | a name not registered locally maps to the last accepted entry point that carries it |
| `KeyedLoops.Loop` | lib/flowbber/plugins/sources/gtest.py:242-286 | the keyed loop of `collect` computes exactly the fold specification: entries are stored under their keys in order and counted, stopping at the first element that raises |
| `KeyedLoops.FoldErrorSticks` | lib/flowbber/plugins/sources/gtest.py:221-288 | once an element raised, later elements do not change the outcome |
| `KeyedLoops.FoldOutcome` | lib/flowbber/plugins/sources/gtest.py:221-288 | the loop succeeds iff every element succeeds; otherwise its error is that of the first failing element |
| `KeyedLoops.FoldValid` | lib/flowbber/plugins/sources/gtest.py:233 | the ordered dictionary the loop builds never holds a key twice |
| `KeyedLoops.FoldKeys` | lib/flowbber/plugins/sources/gtest.py:233 | the keys of the built dictionary are exactly the keys of the elements |
| `KeyedLoops.FoldLastWins` | lib/flowbber/plugins/sources/gtest.py:286 | when two elements have the same key, the later one's data is kept |
| `GTest.TryCast` | lib/flowbber/plugins/sources/gtest.py:145-155 | the integer reading if there is one, else the float reading if there is one, else the original text |
| `GTest.CastFieldsMeaning` | lib/flowbber/plugins/sources/gtest.py:164-167 | reading the spec fails iff some field is missing or does not cast, and then with the first such field's error. Otherwise every spec key holds its cast value, the last entry of a repeated key wins, and nothing else is added |
| `GTest.ElementToDictMeaning` | lib/flowbber/plugins/sources/gtest.py:158-180 | a missing `name` is a `KeyError`. The name is returned, never kept as data. The data are exactly the cast spec attributes. `properties` is present iff some other attribute is left, and then holds exactly those attributes through `trycast` |
| `GTest.Failures` | lib/flowbber/plugins/sources/gtest.py:268-271 | the failure list is empty iff the case has no `failure` child |
| `GTest.CaseEntryMeaning` | lib/flowbber/plugins/sources/gtest.py:242-286 | a case yields an entry iff it is a `testcase` with `classname`, `name`, `status` and a parsable `time`, and `classname` is dropped. FAIL iff it has a `failure` child, keeping the name and listing the failure texts. Otherwise SKIP iff the name starts with `DISABLED_`, with the prefix stripped from the key. Otherwise PASS. Leftover attributes take precedence over nested `<property>` pairs |
| `GTest.CollectSuite` | lib/flowbber/plugins/sources/gtest.py:221-288 | one pass of the suite loop computes exactly the suite entry specification |
| `GTest.Collect` | lib/flowbber/plugins/sources/gtest.py:194-290 | `collect` on a parsed tree computes exactly the report specification |
| `GTest.CasesCountPassing` | lib/flowbber/plugins/sources/gtest.py:282-284 | after n passes of the case loop, the suite's `passed` is the number of passing cases among the first n |
| `GTest.SuiteEntryPassed` | lib/flowbber/plugins/sources/gtest.py:239-284 | a suite's `passed` is its number of passing cases |
| `GTest.SuitesCountPassing` | lib/flowbber/plugins/sources/gtest.py:288 | after n passes of the suite loop, the top-level `passed` is the number of passing cases in the first n suites |
| `GTest.SuiteEntryWellFormed` | lib/flowbber/plugins/sources/gtest.py:222-247 | a suite entry exists only for a `testsuite` element with a name whose children are all `testcase` elements with `classname` and `name` |
| `GTest.CollectMeaning` | lib/flowbber/plugins/sources/gtest.py:194-290 | a report exists only when the file exists and the tree has the `testsuites`/`testsuite`/`testcase` shape; its `passed` is the number of passing cases in the whole tree |
| `JsonSource.DeclareConfig` | lib/flowbber/plugins/sources/json.py:193-233 | declaring the JSON source's options adds its five declarations to the configurator |
| `JsonSource.FreshDeclarationOrder` | lib/flowbber/plugins/sources/json.py:193-233 | the options are declared in the order `file_uri`, `encoding`, `ordered`, `verify_ssl`, `extract` |
| `JsonSource.DeclareValid` | lib/flowbber/plugins/sources/json.py:193-233 | declaring keeps the declarations an ordered map without duplicate keys |
| `JsonSource.FreshDeclarationValues` | lib/flowbber/plugins/sources/json.py:193-233 | each option carries its own default, optional flag and schema, and `file_uri` is the only mandatory option |
| `JsonSource.FreshDeclarationEntries` | lib/flowbber/plugins/sources/json.py:201-233 | the four optional options, one by one, with their declarations |
| `JsonSource.FileUriIsRequired` | lib/flowbber/plugins/sources/json.py:194-200 | without `file_uri`, validation fails naming exactly `file_uri` |
| `JsonSource.FreshDeclarationFieldNames` | lib/flowbber/plugins/sources/json.py:193-233 | every option the JSON source declares is a valid `namedtuple` field name |
| `JsonSource.DefaultsApply` | lib/flowbber/plugins/sources/json.py:201-233 | given only an accepted `file_uri`, validation succeeds with encoding `utf-8`, `ordered` false, `verify_ssl` true and `extract` false |
| `JsonSource.SplitUri` | lib/flowbber/plugins/sources/json.py:265-269 | without `://` the scheme is `file` and the resource is the whole URI. Otherwise scheme, separator and resource rebuild the URI, and the scheme holds no separator (the split is at the first one) |
| `JsonSource.SplitUriOfJoin` | lib/flowbber/plugins/sources/json.py:265-266 | splitting a scheme without separator joined to any resource gives that scheme and resource back |
| `JsonSource.UrlPath` | lib/flowbber/plugins/sources/json.py:287 | the path of a URL holds no query or fragment character |
| `JsonSource.FirstOfAfter` | lib/flowbber/plugins/sources/json.py:287 | the first index of a character of a set, after a prefix free of that set, is shifted by the prefix's length |
| `JsonSource.UrlPathOfParts` | lib/flowbber/plugins/sources/json.py:287 | for `host` + `path` + `tail`, with a host free of `/`, `?` and `#`, a path that starts with `/` and has no `?`, `#` or `;`, and a tail that is empty or starts a query or fragment, the URL's path is exactly `path` |
| `JsonSource.PlainPathIsFile` | lib/flowbber/plugins/sources/json.py:264-275 | a URI without `://` is read from disk; a zip member is read iff `extract`, and it is the path's stem |
| `JsonSource.DispatchMeaning` | lib/flowbber/plugins/sources/json.py:264-290 | only `file`, `http` and `https` are accepted; any other scheme is the `ValueError` carrying it. `file` reads the resource; the web schemes fetch the whole URI with the configured SSL verification. The encoding and decoder are the configured ones. A zip member is read iff `extract`: for `file` it is the resource's stem, for the web schemes the stem of the URL's path |
| `JsonSource.HttpsUrlDispatch` | lib/flowbber/plugins/sources/json.py:277-287 | with `extract`, `https://host/path?query` fetches the whole URI and reads the member named by the stem of `/path` |
| `JsonSource.FileUriDispatch` | lib/flowbber/plugins/sources/json.py:272-275 | a `file://` URI reads the path after the separator; with `extract`, the member is that path's stem |
| `JsonSource.EmptySchemeRejected` | lib/flowbber/plugins/sources/json.py:265-290 | a URI starting with `://` has the empty scheme and is rejected |
| `Archive.DeclareConfig` | lib/flowbber/plugins/sinks/archive.py:169-210 | declaring the archive sink's options adds its five declarations to the configurator |
| `Archive.FreshDeclarationOrder` | lib/flowbber/plugins/sinks/archive.py:172-210 | the options are declared in the order `output`, `override`, `create_parents`, `pretty`, `compress` |
| `Archive.DeclareValid` | lib/flowbber/plugins/sinks/archive.py:172-210 | declaring keeps the declarations an ordered map without duplicate keys |
| `Archive.FreshDeclarationValues` | lib/flowbber/plugins/sinks/archive.py:172-210 | each option carries its own declaration (`create_parents` defaults to true), and `output` is the only mandatory option |
| `Archive.MakeDirs` | lib/flowbber/plugins/sinks/archive.py:227-228 | creating the parents fails iff a file stands where the directory or one of its ancestors belongs. On success, the directories are the old ones plus the directory and all its ancestors, and the files are unchanged |
| `Archive.Distribute` | lib/flowbber/plugins/sinks/archive.py:212-257 | `distribute` step by step computes exactly the archive specification, with the override guard on the written path and the `IsADirectoryError` of a target that is a directory |
| `Archive.DumpArgumentsMeaning` | lib/flowbber/plugins/sinks/archive.py:236-241 | `dumps` never escapes non-ASCII characters or forward slashes, and indents by four exactly when `pretty` is set |
| `Archive.ArchiveGuards` | lib/flowbber/plugins/sinks/archive.py:220-256 | the guards, in order. An existing target without `override` fails before any directory is made. With `create_parents`, a file in the way of the parent directories is the `mkdir` failure. A missing parent directory, after the optional creation, fails. A target that is a directory fails when opened. `distribute` succeeds iff every guard passes. On success the target becomes a file, no file or directory disappears, and the `dumps` arguments are those of `pretty` |
| `Archive.NoSilentOverwrite` | lib/flowbber/plugins/sinks/archive.py:220-224 | without `override`, an existing file is never written over |
| `Archive.AsWrittenOverwritesZip` | lib/flowbber/plugins/sinks/archive.py:220-253 | as written, compressing `name` without `override` succeeds and writes over an existing `name.zip`; the guard on the written path refuses |
| `Archive.ZipNaming` | lib/flowbber/plugins/sinks/archive.py:252-253 | the zip file stays in the configured directory. Its name ends in `.zip`, and is the configured name plus `.zip` unless that suffix was already there. The member written is then the configured name |
| `Archive.ArchiveThenExtract` | lib/flowbber/plugins/sinks/archive.py:252-257 | what the archive writes with `compress`, the JSON source with `extract` reads back: the same file and the very member that was written |
| `PurePaths.Parse` | lib/flowbber/plugins/sinks/archive.py:218 | a parsed path is normal: no empty and no `.` components |
| `PurePaths.RenderParse` | lib/flowbber/plugins/sinks/archive.py:218 | rendering a normal path and parsing it again gives the same path |
| `PurePaths.Suffix` | lib/flowbber/plugins/sinks/archive.py:252 | a suffix is empty, or a dot followed by no other dot. It is non-empty iff the name has a dot, neither first nor last, with no dot after it; it is then the end of the name from that dot |
| `PurePaths.Stem` | lib/flowbber/plugins/sinks/archive.py:257 | stem and suffix rebuild the name |
| `PurePaths.SuffixOfAppended` | lib/flowbber/plugins/sinks/archive.py:253 | appending a suffix to a non-empty name makes it the suffix, and the name the stem |
| `Strings.IndexOf` | lib/flowbber/plugins/sources/json.py:265-266 | the first occurrence of a pattern at or after a position, or none at all |
| `Cpud.Lookup` | examples/cpud/cpud.py:46-47 | subscripting a section succeeds iff it is a table holding the key. A missing key is a `KeyError` naming it; a non-table section cannot be subscripted |
| `Cpud.BuildDefinition` | examples/cpud/cpud.py:29-67 | building the definition step by step computes exactly the definition specification, errors included |
| `Cpud.DefinitionShape` | examples/cpud/cpud.py:33-62 | a definition has one `cpu` source without config, no aggregators, and one or two sinks. Each sink's type is its id, the ids are distinct, and each sink config sets `key` to None |
| `Cpud.InfluxSinkIff` | examples/cpud/cpud.py:41-50 | the InfluxDB sink is present iff the `influxdb` section is truthy. It comes first, and its config is that section's `uri` and `database` |
| `Cpud.MongoSinkIff` | examples/cpud/cpud.py:52-62 | the MongoDB sink is present iff the `mongodb` section is truthy. It comes last, and its config is that section's `uri`, `database` and `collection` |
| `Cpud.BuildSucceedsIff` | examples/cpud/cpud.py:29-67 | a definition is built iff both sections exist, at least one is truthy, and each truthy one is a table with its fields |
| `Cpud.BuildErrors` | examples/cpud/cpud.py:41-65 | both sections present but falsy is exactly the "no sinks" error. A missing `influxdb` section is a `KeyError` for it. A falsy `influxdb` with a missing `mongodb` is a `KeyError` for `mongodb` |

## Left out

- The pipeline engine, scheduler and command line. `args.py`, `loaders/aggregator.py`, the `lcov_html` sink, the `memcheck` source and the `cpud` `main` are not part of this model.
- Cerberus itself is not modelled. Schema validation and coercion are the `SchemaCheck` parameter, so no property depends on what a schema means.
- `pprintpp` and the text of log messages are not modelled. The log is a sequence of (key, shown text) lines; a value's text is the `render` parameter.
- `Config.FieldName`: identifiers are judged on ASCII letters, digits and `_`; every character beyond ASCII is taken as an identifier character, so the Unicode rules of `str.isidentifier` are not modelled.
- `Config.FinishRecord`: the `namedtuple` `ValueError` names the first refused key in its message; the model carries the sorted list of every refused key. Likewise the `KeyError` of an undeclared key names the first such key in the mapping's order, where the model carries the sorted list of undeclared keys.
- The order of the record's fields is not modelled. The `namedtuple` record is a map from key to item, and `Configurator.configFields` keeps its field names as a set.
- The record type's name and the `ConfigItem` namedtuple class are not modelled.
- `validate` writes coerced values back into the caller's mapping. The model returns that mapping as a second result instead of mutating it, so aliasing with the caller is not modelled.
- Validator hooks mutate the merged mapping in place. The model passes the mapping they leave to the next hook, which is the same observable sequence.
- `iter_entry_points` and `ep.load()` are not modelled. They are an input sequence; a load that raises is a `LoadFailed` entry, and the log messages are left out.
- The `assert issubclass(self.__class__._base_class, BaseEntity)` of the loader constructor is not modelled; `BaseEntity` is not part of this model.
- Python objects are abstract: an identity, whether the object is a class, and the identities in its method resolution order.
- `copy()` of the cache is not modelled as a separate object: the result is a value, so changing it cannot reach the cache.
- XML parsing is not modelled; `collect` receives the parsed element tree. `int()` and `float()` on attribute text are parser parameters, so NaN, infinities and float rounding are not modelled.
- `element_to_dict` pops `name` off the element's attributes. The model passes the attributes without `name` on, and does not model the mutation of the element itself.
- The `FilterSink` base class is not modelled: its `declare_config` (`include`/`exclude` options) and its filtering `distribute`. `archive.py:170` and `archive.py:216` call them.
- File I/O, `urlopen`, SSL contexts, zip compression and JSON encoding and decoding are not modelled. `Dispatch` returns a plan of what is read, from where and how, and `Distribute` returns what is written, where and with which `dumps` arguments.
- `JsonSource.UrlPath`: only cuts the query and fragment and strips `;` parameters. It does not model `urlparse`'s netloc rules, IPv6 checks or whitespace stripping.
- `Archive.MakeDirs`: a file in the way is the only `mkdir` failure modelled. Permission and other operating-system errors are not.
- Timestamps and `time` values are carried as values. Floats are mathematical reals.
- `Cpud` works on the parsed TOML document as a map. TOML parsing and the key order of tables are not modelled.

## Findings

| source | as written | input that shows it | evidently intended | confidence | as-written member | corrected member |
|---|---|---|---|---|---|---|
| lib/flowbber/loaders/loader.py:146-149 | `all((isclass(plugin), issubclass(plugin, base)))` builds the whole tuple first, so `issubclass` runs on a plugin that is not a class, raises `TypeError` and ends `load_plugins` | an entry point whose `load()` returns a function rather than a class | log the plugin as not matching the interface and skip it, as the following `log.error` and `continue` do | high, not executed | `Loader.NonClassEntryPointAbortsLoading` | `Loader.DiscoverConforms` |
| lib/flowbber/plugins/sinks/archive.py:220-224 | the override guard tests the configured `output` path, but with `compress` the file written is `output + '.zip'` | `output = "out.json"`, `compress = true`, `override = false`, and `out.json.zip` already exists | refuse with `FileExistsError` unless `override` is set, for the file actually written | medium, not executed | `Archive.AsWrittenOverwritesZip` | `Archive.NoSilentOverwrite` |

Two things go with these findings:

- `register` at `loader.py:91-94` uses the same tuple. There it only changes which exception a non-class raises: `TypeError` instead of `ValueError`. The model keeps that behaviour as written.
- The discovery the rest of the model uses is `Loader.Discover`, which skips a non-class. The archive specification the rest of the model uses, `Archive.ArchiveSpec`, guards the written path. `Archive.ArchiveAsWritten` is kept for the comparison only.
