/** What `Configurator.validate` promises, stated over its specification
    `Config.ValidateSpec` for all declarations, hooks, schema oracles and user
    mappings. */
module ConfigProperties {

  import opened Wrappers
  import opened Values
  import opened Strings
  import OM = OrderedMaps
  import opened Config

  /** Missing mandatory keys are reported before anything else, as exactly the
      missing set in sorted order, and the user mapping is left alone. */
  lemma MissingOptionsExact(decls: Declarations, hooks: seq<Hook>, check: SchemaCheck,
                            render: Value -> string, userconf: map<string, Value>)
    requires OM.Valid(decls) && decls.keys != []
    requires Mandatory(decls.values) - userconf.Keys != {}
    ensures var v := ValidateSpec(decls, hooks, check, render, userconf);
      && v.result.Err? && v.result.error.MissingOptions?
      && StrictlySorted(v.result.error.keys)
      && (forall k :: k in v.result.error.keys <==>
            k in decls.values && !decls.values[k].optional && k !in userconf)
      && v.userconf == userconf && v.recordFields.None?
  {
  }

  /** With a single mandatory key, leaving it out is reported as exactly
      that key. */
  lemma {:induction false} SingleMandatoryMissing(decls: Declarations, hooks: seq<Hook>, check: SchemaCheck,
                                                  render: Value -> string, userconf: map<string, Value>, key: string)
    requires OM.Valid(decls) && decls.keys != []
    requires Mandatory(decls.values) == {key} && key !in userconf
    ensures ValidateSpec(decls, hooks, check, render, userconf).result == Err(MissingOptions([key]))
  {
    assert Mandatory(decls.values) - userconf.Keys == {key};
    MissingOptionsExact(decls, hooks, check, render, userconf);
    var keys := ValidateSpec(decls, hooks, check, render, userconf).result.error.keys;
    assert key in keys;
    assert |keys| == 1 by {
      if |keys| > 1 {
        assert false;
      }
    }
    assert keys == [key];
  }

  /** With every mandatory key present, keys that were never declared are
      reported as exactly that set in sorted order. */
  lemma UnknownOptionsExact(decls: Declarations, hooks: seq<Hook>, check: SchemaCheck,
                            render: Value -> string, userconf: map<string, Value>)
    requires OM.Valid(decls) && decls.keys != []
    requires Mandatory(decls.values) <= userconf.Keys
    requires userconf.Keys - decls.values.Keys != {}
    ensures var v := ValidateSpec(decls, hooks, check, render, userconf);
      && v.result.Err? && v.result.error.UnknownOptions?
      && StrictlySorted(v.result.error.keys)
      && (forall k :: k in v.result.error.keys <==> k in userconf && k !in decls.values)
      && v.userconf == userconf
  {
    assert Mandatory(decls.values) - userconf.Keys == {};
  }

  /** After the key checks and a successful schema pass, the merged mapping
      has exactly the declared keys: a key the user gave holds the value the
      schema check produced for it (or the user's value when it has no
      schema), any other key holds its declared default. */
  lemma {:induction false} MergedHoldsDeclaredKeys(decls: Declarations, check: SchemaCheck,
                                                   userconf: map<string, Value>)
    requires OM.Valid(decls)
    requires KeyCheck(decls.values, userconf).None?
    requires Coerce(decls.keys, decls.values, check, userconf).Coerced?
    ensures var merged := Merge(decls.values, Coerce(decls.keys, decls.values, check, userconf).conf);
      && merged.Keys == decls.values.Keys
      && (forall k :: k in decls.values && k !in userconf ==> merged[k] == decls.values[k].default)
      && (forall k :: k in userconf && decls.values[k].schema.None? ==> merged[k] == userconf[k])
      && (forall k :: k in userconf && decls.values[k].schema.Some? ==>
            Some(merged[k]) == check(k, decls.values[k].schema.value, userconf[k]))
  {
    assert Distinct(decls.keys);
    CoerceMeaning(decls.keys, decls.values, check, userconf);
    assert userconf.Keys - decls.values.Keys == {};
    assert userconf.Keys <= decls.values.Keys;
  }

  /** A configuration with exactly the mandatory keys, no hooks, values the
      schemas accept, and keys that can all be record fields, validates;
      every optional key then holds its default. */
  lemma {:induction false} OnlyMandatoryGivesDefaults(decls: Declarations, check: SchemaCheck,
                                                      render: Value -> string, userconf: map<string, Value>)
    requires OM.Valid(decls) && decls.keys != []
    requires userconf.Keys == Mandatory(decls.values)
    requires forall k :: k in decls.values ==> FieldName(k)
    requires forall k :: k in userconf && decls.values[k].schema.Some? ==>
      check(k, decls.values[k].schema.value, userconf[k]).Some?
    ensures var v := ValidateSpec(decls, [], check, render, userconf);
      && v.result.Ok?
      && (forall k :: k in decls.values && decls.values[k].optional ==>
            k in v.result.value.items && v.result.value.items[k].value == decls.values[k].default)
  {
    assert KeyCheck(decls.values, userconf).None? by {
      assert Mandatory(decls.values) - userconf.Keys == {};
      assert userconf.Keys - decls.values.Keys == {};
    }
    assert Distinct(decls.keys);
    CoerceMeaning(decls.keys, decls.values, check, userconf);
    MergedHoldsDeclaredKeys(decls, check, userconf);
    var merged := Merge(decls.values, Coerce(decls.keys, decls.values, check, userconf).conf);
    ResultFollowsHooks(decls, [], check, render, userconf, merged);
  }

  /** With a single mandatory key, giving just that key with a value its
      schema accepts validates when every declared key can be a record
      field, and every optional key holds its default. */
  lemma SingleMandatoryGivesDefaults(decls: Declarations, check: SchemaCheck,
                                     render: Value -> string, key: string, value: Value)
    requires OM.Valid(decls) && decls.keys != []
    requires Mandatory(decls.values) == {key} && key in decls.values
    requires forall k :: k in decls.values ==> FieldName(k)
    requires decls.values[key].schema.Some? ==> check(key, decls.values[key].schema.value, value).Some?
    ensures var v := ValidateSpec(decls, [], check, render, map[key := value]);
      && v.result.Ok?
      && (forall k :: k in decls.values && decls.values[k].optional ==>
            k in v.result.value.items && v.result.value.items[k].value == decls.values[k].default)
  {
    OnlyMandatoryGivesDefaults(decls, check, render, map[key := value]);
  }

  /** The record's items are exactly the keys the hooks left, each carrying
      its own key and the declaration's secret flag; the log names exactly
      the declared keys the hooks left, so a key a hook deleted is in neither.
      A key that cannot be a `namedtuple` field makes `validate` fail before
      the record type exists; otherwise a hook that adds an undeclared key
      makes it fail after. */
  lemma {:induction false} ResultFollowsHooks(decls: Declarations, hooks: seq<Hook>, check: SchemaCheck,
                                              render: Value -> string, userconf: map<string, Value>,
                                              final: map<string, Value>)
    requires OM.Valid(decls) && decls.keys != []
    requires KeyCheck(decls.values, userconf).None?
    requires Coerce(decls.keys, decls.values, check, userconf).Coerced?
    requires RunHooks(hooks, Merge(decls.values, Coerce(decls.keys, decls.values, check, userconf).conf), 0) == Ok(final)
    ensures var v := ValidateSpec(decls, hooks, check, render, userconf);
      && (v.result.Ok? <==> final.Keys <= decls.values.Keys && forall k :: k in final ==> FieldName(k))
      && ((exists k :: k in final && !FieldName(k)) ==>
            && v.result == Err(InvalidFieldNames(Sorted(BadFieldNames(final))))
            && v.recordFields.None?)
      && ((forall k :: k in final ==> FieldName(k)) ==> v.recordFields == Some(final.Keys))
      && (v.result.Ok? ==>
            && v.result.value.items.Keys == final.Keys
            && (forall k :: k in final ==>
                  v.result.value.items[k] == ConfigItem(k, final[k], decls.values[k].secret))
            && (set line | line in v.result.value.log :: line.key) == final.Keys)
  {
    var v := ValidateSpec(decls, hooks, check, render, userconf);
    assert (v.result, v.recordFields) == Record(decls, render, final);
    RecordMeaning(decls, render, final);
  }

  /** Building the record from what the hooks left: refused keys first, then
      undeclared keys, otherwise one item per key and one log line per key. */
  lemma RecordMeaning(decls: Declarations, render: Value -> string, final: map<string, Value>)
    requires OM.Valid(decls)
    ensures var (result, fields) := Record(decls, render, final);
      && (result.Ok? <==> final.Keys <= decls.values.Keys && forall k :: k in final ==> FieldName(k))
      && ((exists k :: k in final && !FieldName(k)) ==>
            result == Err(InvalidFieldNames(Sorted(BadFieldNames(final)))) && fields.None?)
      && ((forall k :: k in final ==> FieldName(k)) ==> fields == Some(final.Keys))
      && (result.Ok? ==>
            && result.value.items.Keys == final.Keys
            && (forall k :: k in final ==> result.value.items[k] == ConfigItem(k, final[k], decls.values[k].secret))
            && (set line | line in result.value.log :: line.key) == final.Keys)
  {
    LogLinesMeaning(decls.keys, decls.values, final, render);
    if final.Keys <= decls.values.Keys {
      assert (set k | k in decls.keys && k in final) == final.Keys;
    }
  }

  /** Hooks run in registration order: the hooks registered so far run first,
      and a hook added last sees exactly what they left. */
  lemma {:induction false} HooksRunInOrder(hooks: seq<Hook>, last: Hook, conf: map<string, Value>, i: nat)
    requires i <= |hooks|
    ensures RunHooks(hooks + [last], conf, i) ==
      match RunHooks(hooks, conf, i)
      case Err(e) => Err(e)
      case Ok(c) =>
        match last(c)
        case Raise(reason) => Err(HookRaised(|hooks|, reason))
        case Keep(next) => Ok(next)
    decreases |hooks| - i
  {
    var all := hooks + [last];
    if i < |hooks| {
      assert all[i] == hooks[i];
      match hooks[i](conf)
      case Raise(_) =>
      case Keep(next) =>
        HooksRunInOrder(hooks, last, next, i + 1);
    } else {
      assert all[i] == last;
      match last(conf)
      case Raise(_) =>
      case Keep(next) =>
        assert RunHooks(all, next, i + 1) == Ok(next);
    }
  }

  /** The log does not depend on secret values: two mappings with the same
      keys that differ only in the values of secret keys log the same lines.
      Each secret line shows exactly twenty asterisks. */
  lemma {:induction false} SecretValuesNeverLogged(keys: seq<string>, decls: map<string, Decl>,
                                                   c1: map<string, Value>, c2: map<string, Value>,
                                                   render: Value -> string)
    requires forall i :: 0 <= i < |keys| ==> keys[i] in decls
    requires c1.Keys == c2.Keys
    requires forall k :: k in c1 && k in decls && !decls[k].secret ==> c1[k] == c2[k]
    ensures LogLines(keys, decls, c1, render) == LogLines(keys, decls, c2, render)
    ensures forall line :: line in LogLines(keys, decls, c1, render) && line.key in decls && decls[line.key].secret ==>
      |line.shown| == 20 && forall j :: 0 <= j < 20 ==> line.shown[j] == '*'
    decreases |keys|
  {
    LogLinesMeaning(keys, decls, c1, render);
    if keys != [] {
      SecretValuesNeverLogged(keys[1..], decls, c1, c2, render);
    }
  }
}
