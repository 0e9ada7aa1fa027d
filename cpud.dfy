/** The `cpud` example's `build_definition`: a pipeline definition with one
    `cpu` source, no aggregators, and an InfluxDB and/or a MongoDB sink
    according to the sections of the parsed TOML configuration. */
module Cpud {

  import opened Wrappers
  import opened Values

  /** One plugin entry of a pipeline definition: `{'type': …, 'id': …}` with
      an optional `config` dictionary. */
  datatype Entry = Entry(pluginType: string, id: string, config: Option<map<string, Value>>)

  /** The definition dictionary with its three stages. */
  datatype Definition = Definition(sources: seq<Entry>, sinks: seq<Entry>, aggregators: seq<Entry>)

  /** The exceptions `build_definition` can raise: a `KeyError` for a missing
      section or field, a `TypeError` for subscripting a section that is a
      truthy non-table value, and the `RuntimeError` when no sink is set. */
  datatype CpudError =
    | KeyMissing(key: string)
    | NotSubscriptable(section: string)
    | NoSinksConfigured

  /** The only source: `{'type': 'cpu', 'id': 'cpu'}`. */
  const CpuSource := Entry("cpu", "cpu", None)

  /** `section[key]`. */
  function Lookup(section: Value, name: string, key: string): (r: Result<Value, CpudError>)
    ensures r.Ok? <==> section.Dict? && key in section.entries
    ensures r.Ok? ==> r.value == section.entries[key]
    ensures r.Err? ==> r.error == if section.Dict? then KeyMissing(key) else NotSubscriptable(name)
  {
    if !section.Dict? then Err(NotSubscriptable(name))
    else if key !in section.entries then Err(KeyMissing(key))
    else Ok(section.entries[key])
  }

  /** The InfluxDB sink built from a truthy `influxdb` section. */
  function InfluxSink(section: Value): Result<Entry, CpudError>
  {
    match Lookup(section, "influxdb", "uri")
    case Err(e) => Err(e)
    case Ok(uri) =>
      match Lookup(section, "influxdb", "database")
      case Err(e) => Err(e)
      case Ok(database) =>
        Ok(Entry("influxdb", "influxdb", Some(map["uri" := uri, "database" := database, "key" := Null])))
  }

  /** The MongoDB sink built from a truthy `mongodb` section. */
  function MongoSink(section: Value): Result<Entry, CpudError>
  {
    match Lookup(section, "mongodb", "uri")
    case Err(e) => Err(e)
    case Ok(uri) =>
      match Lookup(section, "mongodb", "database")
      case Err(e) => Err(e)
      case Ok(database) =>
        match Lookup(section, "mongodb", "collection")
        case Err(e) => Err(e)
        case Ok(collection) =>
          Ok(Entry("mongodb", "mongodb",
                   Some(map["uri" := uri, "database" := database, "collection" := collection, "key" := Null])))
  }

  /** The sinks a section contributes: none when it is falsy, else the one
      its builder makes. */
  function SectionSinks(section: Value, sink: Result<Entry, CpudError>): Result<seq<Entry>, CpudError>
  {
    if !Truthy(section) then Ok([])
    else if sink.Err? then Err(sink.error)
    else Ok([sink.value])
  }

  /** What `build_definition` returns or raises. */
  function Build(config: map<string, Value>): Result<Definition, CpudError>
  {
    if "influxdb" !in config then Err(KeyMissing("influxdb"))
    else
      var influx := SectionSinks(config["influxdb"], InfluxSink(config["influxdb"]));
      if influx.Err? then Err(influx.error)
      else if "mongodb" !in config then Err(KeyMissing("mongodb"))
      else
        var mongo := SectionSinks(config["mongodb"], MongoSink(config["mongodb"]));
        if mongo.Err? then Err(mongo.error)
        else if influx.value + mongo.value == [] then Err(NoSinksConfigured)
        else Ok(Definition([CpuSource], influx.value + mongo.value, []))
  }

  /** `build_definition`, step by step: the definition starts with empty
      sinks, each truthy section appends its sink, and an empty sink list
      raises. */
  method BuildDefinition(config: map<string, Value>) returns (r: Result<Definition, CpudError>)
    ensures r == Build(config)
  {
    var definition := Definition([CpuSource], [], []);
    if "influxdb" !in config {
      return Err(KeyMissing("influxdb"));
    }
    if Truthy(config["influxdb"]) {
      var section := config["influxdb"];
      var uri := Lookup(section, "influxdb", "uri");
      if uri.Err? {
        return Err(uri.error);
      }
      var database := Lookup(section, "influxdb", "database");
      if database.Err? {
        return Err(database.error);
      }
      var sinkConfig := map["uri" := uri.value, "database" := database.value, "key" := Null];
      assert InfluxSink(section) == Ok(Entry("influxdb", "influxdb", Some(sinkConfig)));
      definition := definition.(sinks := definition.sinks + [Entry("influxdb", "influxdb", Some(sinkConfig))]);
      assert definition.sinks == [Entry("influxdb", "influxdb", Some(sinkConfig))];
      assert SectionSinks(section, InfluxSink(section)) == Ok(definition.sinks);
    } else {
      assert SectionSinks(config["influxdb"], InfluxSink(config["influxdb"])) == Ok([]);
    }
    var influx := definition.sinks;
    assert SectionSinks(config["influxdb"], InfluxSink(config["influxdb"])) == Ok(influx);
    if "mongodb" !in config {
      return Err(KeyMissing("mongodb"));
    }
    if Truthy(config["mongodb"]) {
      var section := config["mongodb"];
      var uri := Lookup(section, "mongodb", "uri");
      if uri.Err? {
        return Err(uri.error);
      }
      var database := Lookup(section, "mongodb", "database");
      if database.Err? {
        return Err(database.error);
      }
      var collection := Lookup(section, "mongodb", "collection");
      if collection.Err? {
        return Err(collection.error);
      }
      var sinkConfig := map["uri" := uri.value, "database" := database.value,
                            "collection" := collection.value, "key" := Null];
      assert MongoSink(section) == Ok(Entry("mongodb", "mongodb", Some(sinkConfig)));
      definition := definition.(sinks := definition.sinks + [Entry("mongodb", "mongodb", Some(sinkConfig))]);
      assert definition.sinks == influx + [Entry("mongodb", "mongodb", Some(sinkConfig))];
      assert SectionSinks(section, MongoSink(section)) == Ok([Entry("mongodb", "mongodb", Some(sinkConfig))]);
    } else {
      assert definition.sinks == influx + [];
    }
    if definition.sinks == [] {
      return Err(NoSinksConfigured);
    }
    return Ok(definition);
  }

  /** Every definition has the one `cpu` source without config, no
      aggregators, and one or two sinks whose type is their id, so ids are
      unique within the stage; every sink config sets `key` to None. */
  lemma DefinitionShape(config: map<string, Value>)
    requires Build(config).Ok?
    ensures var d := Build(config).value;
      && d.sources == [Entry("cpu", "cpu", None)]
      && d.aggregators == []
      && 1 <= |d.sinks| <= 2
      && (forall i :: 0 <= i < |d.sinks| ==> d.sinks[i].pluginType == d.sinks[i].id)
      && (forall i, j :: 0 <= i < j < |d.sinks| ==> d.sinks[i].id != d.sinks[j].id)
      && (forall i :: 0 <= i < |d.sinks| ==>
            d.sinks[i].config.Some? && "key" in d.sinks[i].config.value && d.sinks[i].config.value["key"] == Null)
  {
  }

  /** The InfluxDB sink is present exactly when the `influxdb` section is
      truthy, it comes first, and its config is that section's `uri` and
      `database` with `key` None. */
  lemma InfluxSinkIff(config: map<string, Value>)
    requires Build(config).Ok?
    ensures "influxdb" in config
    ensures var sinks := Build(config).value.sinks;
      (exists i :: 0 <= i < |sinks| && sinks[i].id == "influxdb") <==> Truthy(config["influxdb"])
    ensures var section := config["influxdb"];
      Truthy(section) ==> section.Dict? && "uri" in section.entries && "database" in section.entries
    ensures var section := config["influxdb"];
      Truthy(section) ==>
        Build(config).value.sinks[0] ==
          Entry("influxdb", "influxdb", Some(map["uri" := section.entries["uri"],
                                                 "database" := section.entries["database"],
                                                 "key" := Null]))
  {
    var sinks := Build(config).value.sinks;
    if Truthy(config["influxdb"]) {
      assert sinks[0].id == "influxdb";
    } else {
      assert forall i :: 0 <= i < |sinks| ==> sinks[i].id == "mongodb";
    }
  }

  /** The MongoDB sink is present exactly when the `mongodb` section is
      truthy, it comes last (after any InfluxDB sink), and its config is that
      section's `uri`, `database` and `collection` with `key` None. */
  lemma MongoSinkIff(config: map<string, Value>)
    requires Build(config).Ok?
    ensures "mongodb" in config
    ensures var sinks := Build(config).value.sinks;
      (exists i :: 0 <= i < |sinks| && sinks[i].id == "mongodb") <==> Truthy(config["mongodb"])
    ensures var section := config["mongodb"];
      Truthy(section) ==>
        section.Dict? && "uri" in section.entries && "database" in section.entries
        && "collection" in section.entries
    ensures var section := config["mongodb"];
      var sinks := Build(config).value.sinks;
      Truthy(section) ==>
        sinks[|sinks| - 1] ==
          Entry("mongodb", "mongodb", Some(map["uri" := section.entries["uri"],
                                               "database" := section.entries["database"],
                                               "collection" := section.entries["collection"],
                                               "key" := Null]))
  {
    var sinks := Build(config).value.sinks;
    if Truthy(config["mongodb"]) {
      assert sinks[|sinks| - 1].id == "mongodb";
    }
  }

  /** A definition is built exactly when both sections exist, at least one
      is truthy, and each truthy one is a table with its fields. */
  lemma BuildSucceedsIff(config: map<string, Value>)
    ensures Build(config).Ok? <==>
      && "influxdb" in config && "mongodb" in config
      && (Truthy(config["influxdb"]) || Truthy(config["mongodb"]))
      && (Truthy(config["influxdb"]) ==>
            config["influxdb"].Dict? && "uri" in config["influxdb"].entries
            && "database" in config["influxdb"].entries)
      && (Truthy(config["mongodb"]) ==>
            config["mongodb"].Dict? && "uri" in config["mongodb"].entries
            && "database" in config["mongodb"].entries && "collection" in config["mongodb"].entries)
  {
  }

  /** With both sections present but falsy, the error is that no sink is
      configured; a missing section is a `KeyError` naming it, the
      `influxdb` one first. */
  lemma BuildErrors(config: map<string, Value>)
    ensures Build(config) == Err(NoSinksConfigured) <==>
      && "influxdb" in config && "mongodb" in config
      && !Truthy(config["influxdb"]) && !Truthy(config["mongodb"])
    ensures "influxdb" !in config ==> Build(config) == Err(KeyMissing("influxdb"))
    ensures "influxdb" in config && !Truthy(config["influxdb"]) && "mongodb" !in config ==>
      Build(config) == Err(KeyMissing("mongodb"))
  {
  }
}
