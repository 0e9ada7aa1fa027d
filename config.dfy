/** The Configurator of a plugin: options are declared one by one (key,
    default, optional flag, schema, secret flag), post-merge hooks are
    registered, and `validate` checks a user configuration against the
    declarations, coerces values through their schemas, merges in defaults,
    runs the hooks, logs the result with secrets masked and returns an
    immutable record of (key, value, is_secret) items.

    The Cerberus schema validator is the `SchemaCheck` oracle, and the text
    that `str.format` produces for a value in the log is the `render` oracle. */
module Config {

  import opened Wrappers
  import opened Values
  import opened Strings
  import OM = OrderedMaps

  /** A Cerberus rule set, e.g. `{'type': 'string', 'empty': False}`. */
  type Schema = map<string, Value>

  /** One `add_option` declaration. */
  datatype Decl = Decl(default: Value, optional: bool, schema: Option<Schema>, secret: bool)

  /** `_declared`: declarations in declaration order. */
  type Declarations = OM.OMap<string, Decl>

  /** `Validator({key: schema}).validated({key: value})[key]`: `None` when the
      value is rejected, otherwise the coerced value. */
  type SchemaCheck = (string, Schema, Value) -> Option<Value>

  /** What a registered validator hook does to the merged mapping: it may
      change it (deleting keys in particular) or raise. */
  datatype HookOutcome = Keep(conf: map<string, Value>) | Raise(reason: string)

  type Hook = map<string, Value> -> HookOutcome

  /** The `ValueError`s of `add_option`. */
  datatype DeclareError = MissingKey | OptionalNotBool | SchemaNotDict | SecretNotBool

  datatype ConfigError =
    | MissingOptions(keys: seq<string>)      // MissingOptions, keys sorted
    | UnknownOptions(keys: seq<string>)      // UnknownOptions, keys sorted
    | InvalidOption(key: string, value: Value) // SyntaxError from the schema check
    | HookRaised(index: nat, reason: string) // an exception from the index-th hook
    | InvalidFieldNames(keys: seq<string>)   // ValueError from `namedtuple`: keys that cannot be fields
    | UndeclaredKeys(keys: seq<string>)      // KeyError: a hook added undeclared keys

  /** One field of the validated record. */
  datatype ConfigItem = ConfigItem(key: string, value: Value, isSecret: bool)

  /** One line `key = shown` of the "Using configuration" log message. */
  datatype LogLine = LogLine(key: string, shown: string)

  datatype Validated = Validated(items: map<string, ConfigItem>, log: seq<LogLine>)

  /** What `validate` returns or raises, the caller's mapping afterwards (the
      schema step writes coerced values back into it), and the field names of
      the record type when `validate` got as far as creating it. */
  datatype Validation = Validation(result: Result<Validated, ConfigError>, userconf: map<string, Value>,
                                   recordFields: Option<set<string>>)

  /** The mask that replaces a secret value in the log: twenty asterisks. */
  const Redacted: string := "********************"

  /** The words `keyword.iskeyword` accepts that are `n` characters long. */
  function KeywordsOfLength(n: nat): set<string>
  {
    if n == 2 then {"as", "if", "in", "is", "or"}
    else if n == 3 then {"and", "def", "del", "for", "not", "try"}
    else if n == 4 then {"None", "True", "elif", "else", "from", "pass", "with"}
    else if n == 5 then {"False", "async", "await", "break", "class", "raise", "while", "yield"}
    else if n == 6 then {"assert", "except", "global", "import", "lambda", "return"}
    else if n == 7 then {"finally"}
    else if n == 8 then {"continue", "nonlocal"}
    else {}
  }

  /** `k` is a Python keyword. */
  predicate IsKeyword(k: string)
  {
    k in KeywordsOfLength(|k|)
  }

  /** A character `str.isidentifier` allows after the first one. */
  predicate IdentifierChar(c: char)
  {
    ('a' <= c <= 'z') || ('A' <= c <= 'Z') || ('0' <= c <= '9') || c == '_' || c as int >= 128
  }

  /** A name `namedtuple` accepts as a field: an identifier that does not
      start with a digit, is not a keyword and does not start with `_`. */
  predicate FieldName(k: string)
  {
    && k != ""
    && !('0' <= k[0] <= '9')
    && k[0] != '_'
    && (forall i :: 0 <= i < |k| ==> IdentifierChar(k[i]))
    && !IsKeyword(k)
  }

  /** The keys of `conf` that `namedtuple` refuses. */
  function BadFieldNames(conf: map<string, Value>): (r: set<string>)
    ensures forall k :: k in r <==> k in conf && !FieldName(k)
  {
    set k | k in conf && !FieldName(k)
  }

  /** Keys declared with `optional=False`. */
  function Mandatory(decls: map<string, Decl>): set<string>
  {
    set k | k in decls && !decls[k].optional
  }

  /** Declaring a key again replaces its declaration: it is mandatory
      afterwards iff the new declaration says so. */
  lemma MandatoryAfterDeclare(decls: map<string, Decl>, key: string, d: Decl)
    ensures Mandatory(decls[key := d]) == (Mandatory(decls) - {key}) + (if d.optional then {} else {key})
  {
  }

  predicate Distinct(keys: seq<string>)
  {
    forall i, j :: 0 <= i < j < |keys| ==> keys[i] != keys[j]
  }

  datatype Coercion =
    | Coerced(conf: map<string, Value>)
    | Rejected(key: string, value: Value, conf: map<string, Value>)

  /** The schema pass: visits `keys` in order; a present key with a schema is
      replaced by its coerced value, and the first rejected value stops the
      pass (the values coerced before it stay written). */
  function Coerce(keys: seq<string>, decls: map<string, Decl>, check: SchemaCheck,
                  conf: map<string, Value>): Coercion
    requires forall i :: 0 <= i < |keys| ==> keys[i] in decls
    decreases |keys|
  {
    if keys == [] then Coerced(conf)
    else
      var key := keys[0];
      if key in conf && decls[key].schema.Some? then
        match check(key, decls[key].schema.value, conf[key])
        case None => Rejected(key, conf[key], conf)
        case Some(v) => Coerce(keys[1..], decls, check, conf[key := v])
      else Coerce(keys[1..], decls, check, conf)
  }

  /** The schema pass keeps the set of keys; on success every present key with
      a schema holds the value its schema check produced and every other key
      its original value; on failure it names a present key with a schema,
      that key's original value, and the check rejected that value. */
  lemma {:induction false} CoerceMeaning(keys: seq<string>, decls: map<string, Decl>, check: SchemaCheck,
                                         conf: map<string, Value>)
    requires forall i :: 0 <= i < |keys| ==> keys[i] in decls
    requires Distinct(keys)
    ensures Coerce(keys, decls, check, conf).conf.Keys == conf.Keys
    ensures Coerce(keys, decls, check, conf).Coerced? ==>
      forall k :: k in conf && k in keys && decls[k].schema.Some? ==>
        && check(k, decls[k].schema.value, conf[k]).Some?
        && Coerce(keys, decls, check, conf).conf[k] == check(k, decls[k].schema.value, conf[k]).value
    ensures Coerce(keys, decls, check, conf).Coerced? ==>
      forall k :: k in conf && (k !in keys || decls[k].schema.None?) ==>
        Coerce(keys, decls, check, conf).conf[k] == conf[k]
    ensures Coerce(keys, decls, check, conf).Rejected? ==>
      var r := Coerce(keys, decls, check, conf);
      && r.key in keys && r.key in conf && decls[r.key].schema.Some?
      && r.value == conf[r.key]
      && check(r.key, decls[r.key].schema.value, r.value).None?
      && exists i :: 0 <= i < |keys| && keys[i] == r.key && RejectedAt(keys, i, decls, check, conf, r.conf)
    decreases |keys|
  {
    if keys != [] {
      var key := keys[0];
      var r := Coerce(keys, decls, check, conf);
      assert forall i :: 0 <= i < |keys[1..]| ==> keys[1..][i] == keys[i + 1];
      assert forall k :: k in keys <==> k == key || k in keys[1..];
      if key in conf && decls[key].schema.Some? {
        match check(key, decls[key].schema.value, conf[key])
        case None =>
          assert keys[..0] == [];
          assert RejectedAt(keys, 0, decls, check, conf, r.conf);
        case Some(v) =>
          CoerceMeaning(keys[1..], decls, check, conf[key := v]);
          if r.Rejected? {
            var i :| 0 <= i < |keys[1..]| && keys[1..][i] == r.key
                     && RejectedAt(keys[1..], i, decls, check, conf[key := v], r.conf);
            RejectedAtShift(keys, i, decls, check, conf, r.conf);
          }
      } else {
        CoerceMeaning(keys[1..], decls, check, conf);
        if r.Rejected? {
          var i :| 0 <= i < |keys[1..]| && keys[1..][i] == r.key
                   && RejectedAt(keys[1..], i, decls, check, conf, r.conf);
          RejectedAtShift(keys, i, decls, check, conf, r.conf);
        }
      }
    }
  }

  /** `after` is what the schema pass leaves when it stops at `keys[i]`:
      every present key before it with a schema holds its accepted coerced
      value, and every other key its value in `conf`. */
  predicate RejectedAt(keys: seq<string>, i: nat, decls: map<string, Decl>, check: SchemaCheck,
                       conf: map<string, Value>, after: map<string, Value>)
    requires forall j :: 0 <= j < |keys| ==> keys[j] in decls
    requires i <= |keys|
  {
    && (forall k :: k in conf && k in keys[..i] && decls[k].schema.Some? ==>
          && check(k, decls[k].schema.value, conf[k]).Some?
          && k in after && after[k] == check(k, decls[k].schema.value, conf[k]).value)
    && (forall k :: k in conf && (k !in keys[..i] || decls[k].schema.None?) ==> k in after && after[k] == conf[k])
  }

  /** A stop at `keys[1..][i]` after the first key is a stop at `keys[i + 1]`. */
  lemma RejectedAtShift(keys: seq<string>, i: nat, decls: map<string, Decl>, check: SchemaCheck,
                        conf: map<string, Value>, after: map<string, Value>)
    requires forall j :: 0 <= j < |keys| ==> keys[j] in decls
    requires Distinct(keys) && i < |keys| - 1
    requires var key := keys[0];
      key in conf && decls[key].schema.Some? ==> check(key, decls[key].schema.value, conf[key]).Some?
    requires var key := keys[0];
      RejectedAt(keys[1..], i, decls, check,
                 if key in conf && decls[key].schema.Some?
                 then conf[key := check(key, decls[key].schema.value, conf[key]).value] else conf,
                 after)
    ensures RejectedAt(keys, i + 1, decls, check, conf, after)
  {
    var key := keys[0];
    var next := if key in conf && decls[key].schema.Some?
                then conf[key := check(key, decls[key].schema.value, conf[key]).value] else conf;
    assert keys[..i + 1] == [key] + keys[1..][..i];
    assert key !in keys[1..][..i] by {
      forall j | 0 <= j < i
        ensures keys[1..][..i][j] != key
      {
        assert keys[1..][..i][j] == keys[j + 1];
      }
    }
    assert forall k :: k in conf && k != key ==> k in next && next[k] == conf[k];
  }

  /** The merged mapping: the user's (coerced) values, plus the default of
      every declared key the user left out. */
  function Merge(decls: map<string, Decl>, conf: map<string, Value>): map<string, Value>
  {
    conf + map k | k in decls && k !in conf :: decls[k].default
  }

  /** The hooks from position `i` on, each applied to what the previous one
      left; the first one that raises stops the run. */
  function RunHooks(hooks: seq<Hook>, conf: map<string, Value>, i: nat): Result<map<string, Value>, ConfigError>
    requires i <= |hooks|
    decreases |hooks| - i
  {
    if i == |hooks| then Ok(conf)
    else
      match hooks[i](conf)
      case Raise(reason) => Err(HookRaised(i, reason))
      case Keep(next) => RunHooks(hooks, next, i + 1)
  }

  /** One log line per key of `keys` still present in `conf`, in the order of
      `keys`; a secret value is shown as the mask. */
  function LogLines(keys: seq<string>, decls: map<string, Decl>, conf: map<string, Value>,
                    render: Value -> string): seq<LogLine>
    requires forall i :: 0 <= i < |keys| ==> keys[i] in decls
    decreases |keys|
  {
    if keys == [] then []
    else
      var rest := LogLines(keys[1..], decls, conf, render);
      if keys[0] !in conf then rest
      else
        var shown := if decls[keys[0]].secret then Redacted else render(conf[keys[0]]);
        [LogLine(keys[0], shown)] + rest
  }

  /** One step of the log loop: the lines from position `i` on are the line
      of `keys[i]`, when it is still present, then those from `i + 1` on. */
  lemma LogLinesStep(keys: seq<string>, decls: map<string, Decl>, conf: map<string, Value>,
                     render: Value -> string, i: nat)
    requires forall j :: 0 <= j < |keys| ==> keys[j] in decls
    requires i < |keys|
    ensures LogLines(keys[i..], decls, conf, render) ==
      (if keys[i] !in conf then []
       else [LogLine(keys[i], if decls[keys[i]].secret then Redacted else render(conf[keys[i]]))])
      + LogLines(keys[i + 1..], decls, conf, render)
    ensures i + 1 == |keys| ==> LogLines(keys[i + 1..], decls, conf, render) == []
  {
    assert keys[i..][1..] == keys[i + 1..];
  }

  /** The loop of `validate` that builds the log lines, in declaration
      order. */
  method LogConfiguration(keys: seq<string>, decls: map<string, Decl>, merged: map<string, Value>,
                          render: Value -> string) returns (log: seq<LogLine>)
    requires forall j :: 0 <= j < |keys| ==> keys[j] in decls
    ensures log == LogLines(keys, decls, merged, render)
  {
    log := [];
    var i := 0;
    while i < |keys|
      invariant 0 <= i <= |keys|
      invariant log + LogLines(keys[i..], decls, merged, render) == LogLines(keys, decls, merged, render)
    {
      LogLinesStep(keys, decls, merged, render, i);
      var key := keys[i];
      if key in merged {
        var shown := if decls[key].secret then Redacted else render(merged[key]);
        log := log + [LogLine(key, shown)];
      }
      i := i + 1;
    }
  }

  /** The log has one line for each of `keys` still present in `conf` and no
      other; a line of a secret key shows the mask, any other line shows the
      rendered value. */
  lemma LogLinesMeaning(keys: seq<string>, decls: map<string, Decl>, conf: map<string, Value>,
                        render: Value -> string)
    requires forall i :: 0 <= i < |keys| ==> keys[i] in decls
    ensures var r := LogLines(keys, decls, conf, render);
      && (forall j :: 0 <= j < |r| ==> r[j].key in keys && r[j].key in conf)
      && (forall j :: 0 <= j < |r| ==>
            r[j].shown == if decls[r[j].key].secret then Redacted else render(conf[r[j].key]))
      && (set line | line in r :: line.key) == (set k | k in keys && k in conf)
  {
    LogLinesShown(keys, decls, conf, render);
    LogLinesKeySet(keys, decls, conf, render);
    var r := LogLines(keys, decls, conf, render);
    assert forall j :: 0 <= j < |r| ==> r[j] in r;
  }

  /** Each line is of a key in `keys` and `conf`, and shows the mask or the
      rendered value. */
  lemma {:induction false} LogLinesShown(keys: seq<string>, decls: map<string, Decl>, conf: map<string, Value>,
                                         render: Value -> string)
    requires forall i :: 0 <= i < |keys| ==> keys[i] in decls
    ensures forall line :: line in LogLines(keys, decls, conf, render) ==>
      && line.key in keys && line.key in conf
      && line.shown == if decls[line.key].secret then Redacted else render(conf[line.key])
    decreases |keys|
  {
    if keys != [] {
      LogLinesShown(keys[1..], decls, conf, render);
      var rest := LogLines(keys[1..], decls, conf, render);
      assert forall k :: k in keys[1..] ==> k in keys;
      if keys[0] in conf {
        var r := LogLines(keys, decls, conf, render);
        assert r == [r[0]] + rest;
      }
    }
  }

  /** The keys that have lines are exactly those of `keys` present in `conf`. */
  lemma {:induction false} LogLinesKeySet(keys: seq<string>, decls: map<string, Decl>, conf: map<string, Value>,
                                          render: Value -> string)
    requires forall i :: 0 <= i < |keys| ==> keys[i] in decls
    ensures (set line | line in LogLines(keys, decls, conf, render) :: line.key) == (set k | k in keys && k in conf)
    decreases |keys|
  {
    if keys != [] {
      var rest := LogLines(keys[1..], decls, conf, render);
      LogLinesKeySet(keys[1..], decls, conf, render);
      assert forall k :: k in keys <==> k == keys[0] || k in keys[1..];
      if keys[0] in conf {
        var r := LogLines(keys, decls, conf, render);
        assert r == [r[0]] + rest;
        assert (set line | line in r :: line.key) == {keys[0]} + (set line | line in rest :: line.key);
      } else {
        assert LogLines(keys, decls, conf, render) == rest;
      }
    }
  }

  /** The record: one item per key of the final mapping, tagged with the
      declaration's secret flag. */
  function Items(decls: map<string, Decl>, conf: map<string, Value>): map<string, ConfigItem>
    requires conf.Keys <= decls.Keys
  {
    map k | k in conf :: ConfigItem(k, conf[k], decls[k].secret)
  }

  /** The two key checks of `validate`: mandatory keys first, then unknown keys. */
  function KeyCheck(decls: map<string, Decl>, userconf: map<string, Value>): Option<ConfigError>
  {
    if Mandatory(decls) - userconf.Keys != {} then
      Some(MissingOptions(Sorted(Mandatory(decls) - userconf.Keys)))
    else if userconf.Keys - decls.Keys != {} then
      Some(UnknownOptions(Sorted(userconf.Keys - decls.Keys)))
    else None
  }

  /** The last steps of `validate`, on the mapping the hooks left: the
      record type is created from its keys, which `namedtuple` refuses when
      some key cannot be a field; then each item looks up its key's secret
      flag, which fails for an undeclared key. Returns the result and the
      field names of the record type, when it was created. */
  function Record(decls: Declarations, render: Value -> string, final: map<string, Value>)
    : (Result<Validated, ConfigError>, Option<set<string>>)
    requires OM.Valid(decls)
  {
    if BadFieldNames(final) != {} then
      (Err(InvalidFieldNames(Sorted(BadFieldNames(final)))), None)
    else if final.Keys <= decls.values.Keys then
      (Ok(Validated(Items(decls.values, final), LogLines(decls.keys, decls.values, final, render))),
       Some(final.Keys))
    else
      (Err(UndeclaredKeys(Sorted(final.Keys - decls.values.Keys))), Some(final.Keys))
  }

  /** The log loop, then the record: `Record` step by step. */
  method FinishRecord(decls: Declarations, render: Value -> string, final: map<string, Value>)
    returns (r: Result<Validated, ConfigError>, fields: Option<set<string>>)
    requires OM.Valid(decls)
    ensures (r, fields) == Record(decls, render, final)
  {
    var log := LogConfiguration(decls.keys, decls.values, final, render);
    var bad := BadFieldNames(final);
    if bad != {} {
      return Err(InvalidFieldNames(Sorted(bad))), None;
    }
    if !(final.Keys <= decls.values.Keys) {
      return Err(UndeclaredKeys(Sorted(final.Keys - decls.values.Keys))), Some(final.Keys);
    }
    return Ok(Validated(Items(decls.values, final), log)), Some(final.Keys);
  }

  /** The steps of `validate` after the key checks. */
  function Finish(decls: Declarations, hooks: seq<Hook>, check: SchemaCheck,
                  render: Value -> string, userconf: map<string, Value>): Validation
    requires OM.Valid(decls)
  {
    match Coerce(decls.keys, decls.values, check, userconf)
    case Rejected(key, value, conf) => Validation(Err(InvalidOption(key, value)), conf, None)
    case Coerced(conf) =>
      match RunHooks(hooks, Merge(decls.values, conf), 0)
      case Err(e) => Validation(Err(e), conf, None)
      case Ok(final) =>
        var (result, fields) := Record(decls, render, final);
        Validation(result, conf, fields)
  }

  /** `validate(userconf)` as a whole. */
  function ValidateSpec(decls: Declarations, hooks: seq<Hook>, check: SchemaCheck,
                        render: Value -> string, userconf: map<string, Value>): Validation
    requires OM.Valid(decls)
  {
    if decls.keys == [] then
      Validation(Ok(Validated(map[], [])), userconf, Some({}))
    else
      match KeyCheck(decls.values, userconf)
      case Some(e) => Validation(Err(e), userconf, None)
      case None => Finish(decls, hooks, check, render, userconf)
  }

  class Configurator {
    var declared: Declarations
    var validators: seq<Hook>
    /** The field names of the last record type created (`_configtype`). */
    var configFields: Option<set<string>>

    ghost predicate Valid()
      reads this
    {
      OM.Valid(declared)
    }

    constructor ()
      ensures Valid()
      ensures declared == OM.Empty() && validators == [] && configFields == None
    {
      declared := OM.Empty();
      validators := [];
      configFields := None;
    }

    /** `add_option`: the arguments Python does not type are `Value`s here;
        `Null` stands for `schema=None`. */
    method AddOption(key: string, default: Value, optional: Value, schema: Value, secret: Value)
      returns (r: Option<DeclareError>)
      requires Valid()
      modifies this`declared
      ensures Valid()
      ensures key == "" ==> r == Some(MissingKey)
      ensures key != "" && !optional.Bool? ==> r == Some(OptionalNotBool)
      ensures key != "" && optional.Bool? && !(schema.Null? || schema.Dict?) ==> r == Some(SchemaNotDict)
      ensures key != "" && optional.Bool? && (schema.Null? || schema.Dict?) && !secret.Bool? ==>
        r == Some(SecretNotBool)
      ensures r.None? <==> key != "" && optional.Bool? && (schema.Null? || schema.Dict?) && secret.Bool?
      ensures r.Some? ==> declared == old(declared)
      ensures r.None? ==>
        declared == OM.Put(old(declared), key,
                           Decl(default, optional.b, if schema.Dict? then Some(schema.entries) else None, secret.b))
    {
      if key == "" {
        return Some(MissingKey);
      }
      if !optional.Bool? {
        return Some(OptionalNotBool);
      }
      if !(schema.Null? || schema.Dict?) {
        return Some(SchemaNotDict);
      }
      if !secret.Bool? {
        return Some(SecretNotBool);
      }
      var rules := if schema.Dict? then Some(schema.entries) else None;
      declared := OM.Put(declared, key, Decl(default, optional.b, rules, secret.b));
      r := None;
    }

    /** `add_validator`: hooks run in registration order. */
    method AddValidator(hook: Hook)
      modifies this`validators
      ensures validators == old(validators) + [hook]
    {
      validators := validators + [hook];
    }

    /** The schema loop of `validate`. */
    method ApplySchemas(userconf: map<string, Value>, check: SchemaCheck) returns (c: Coercion)
      requires Valid()
      ensures c == Coerce(declared.keys, declared.values, check, userconf)
    {
      var keys := declared.keys;
      var coerced := userconf;
      var i := 0;
      while i < |keys|
        invariant 0 <= i <= |keys|
        invariant Coerce(keys[i..], declared.values, check, coerced) == Coerce(keys, declared.values, check, userconf)
      {
        assert keys[i..][1..] == keys[i + 1..];
        var key := keys[i];
        var info := declared.values[key];
        if key in coerced && info.schema.Some? {
          var validated := check(key, info.schema.value, coerced[key]);
          if validated.None? {
            return Rejected(key, coerced[key], coerced);
          }
          coerced := coerced[key := validated.value];
        }
        i := i + 1;
      }
      assert keys[i..] == [];
      c := Coerced(coerced);
    }

    /** The loop of `validate` that passes the merged mapping to every hook. */
    method RunValidators(merged: map<string, Value>) returns (res: Result<map<string, Value>, ConfigError>)
      ensures res == RunHooks(validators, merged, 0)
    {
      var conf := merged;
      var j := 0;
      while j < |validators|
        invariant 0 <= j <= |validators|
        invariant RunHooks(validators, conf, j) == RunHooks(validators, merged, 0)
      {
        match validators[j](conf)
        case Raise(reason) =>
          return Err(HookRaised(j, reason));
        case Keep(next) =>
          conf := next;
        j := j + 1;
      }
      res := Ok(conf);
    }

    /** The steps of `validate` after the key checks. */
    method FinishValidate(userconf: map<string, Value>, check: SchemaCheck, render: Value -> string)
      returns (r: Result<Validated, ConfigError>, coerced: map<string, Value>)
      requires Valid()
      modifies this`configFields
      ensures var spec := Finish(declared, validators, check, render, userconf);
        && r == spec.result && coerced == spec.userconf
        && configFields == if spec.recordFields.Some? then spec.recordFields else old(configFields)
    {
      var decls := declared;
      var c := ApplySchemas(userconf, check);
      coerced := c.conf;
      if c.Rejected? {
        return Err(InvalidOption(c.key, c.value)), coerced;
      }

      var hooked := RunValidators(Merge(decls.values, coerced));
      if hooked.Err? {
        return Err(hooked.error), coerced;
      }
      var merged := hooked.value;

      var fields;
      r, fields := FinishRecord(decls, render, merged);
      if fields.Some? {
        configFields := fields;
      }
    }

    /** `validate(userconf)`: returns the record or the error, and the user's
        mapping as the schema step left it. */
    method Validate(userconf: map<string, Value>, check: SchemaCheck, render: Value -> string)
      returns (r: Result<Validated, ConfigError>, coerced: map<string, Value>)
      requires Valid()
      modifies this`configFields
      ensures var spec := ValidateSpec(declared, validators, check, render, userconf);
        && r == spec.result && coerced == spec.userconf
        && configFields == if spec.recordFields.Some? then spec.recordFields else old(configFields)
    {
      coerced := userconf;
      if declared.keys == [] {
        configFields := Some({});
        return Ok(Validated(map[], [])), coerced;
      }

      // All mandatory keys are present
      var missing := Mandatory(declared.values) - userconf.Keys;
      if missing != {} {
        return Err(MissingOptions(Sorted(missing))), coerced;
      }

      // No unknown keys
      var unknown := userconf.Keys - declared.values.Keys;
      if unknown != {} {
        return Err(UnknownOptions(Sorted(unknown))), coerced;
      }
      assert KeyCheck(declared.values, userconf).None?;

      r, coerced := FinishValidate(userconf, check, render);
    }
  }
}
