/** The plugin loader: every loader subclass has a base class and a
    class-level registry of locally registered plugins, shared by all its
    instances; an instance knows its entry-point group name and caches the
    plugins it last loaded.

    Python objects are abstract: an identity, whether the object is a class,
    and (for a class) the identities of the classes in its method resolution
    order. What `iter_entry_points` yields for the group is an input sequence
    of entry points, each with the outcome of `ep.load()`. */
module Loader {

  import opened Wrappers
  import opened Strings
  import OM = OrderedMaps

  datatype PyObject = PyObject(ident: nat, isClass: bool, mro: set<nat>)

  /** The exceptions `register` raises. */
  datatype PyError = TypeError | ValueError

  datatype LoadResult = Loaded(obj: PyObject) | LoadFailed(reason: string)

  datatype EntryPoint = EntryPoint(name: string, load: LoadResult)

  type Plugins = OM.OMap<string, PyObject>

  /** `isclass(p) and issubclass(p, base)`. */
  predicate Conforms(p: PyObject, base: nat)
  {
    p.isClass && base in p.mro
  }

  predicate AllConform(m: map<string, PyObject>, base: nat)
  {
    forall k :: k in m ==> Conforms(m[k], base)
  }

  /** `all((isclass(p), issubclass(p, base)))`: the tuple is built before
      `all` looks at it, so `issubclass` runs even on a non-class and raises
      `TypeError` there. */
  function ConformsAsWritten(p: PyObject, base: nat): (r: Result<bool, PyError>)
    ensures r.Err? <==> !p.isClass
    ensures r.Ok? ==> r.value == Conforms(p, base)
  {
    if !p.isClass then Err(TypeError) else Ok(base in p.mro)
  }

  /** The entry-point group of a loader: `flowbber_plugin_`, the entity, `_`
      and the API version with each `.` turned into `_`. */
  function EntryPointName(entity: string, apiVersion: string): (r: string)
    ensures |r| == 17 + |entity| + |apiVersion|
    ensures r[..16] == "flowbber_plugin_"
    ensures r[16..16 + |entity|] == entity && r[16 + |entity|] == '_'
    ensures forall i :: 0 <= i < |apiVersion| ==>
      r[17 + |entity| + i] == (if apiVersion[i] == '.' then '_' else apiVersion[i])
    ensures '.' !in r[17 + |entity|..]
  {
    var version := ReplaceChar(apiVersion, '.', '_');
    var r := "flowbber_plugin_" + entity + "_" + version;
    assert r[17 + |entity|..] == version;
    r
  }

  /** Whether the loop of `load_plugins` keeps an entry point: it loaded and
      what it loaded is a subclass of the base class. */
  predicate Accepted(ep: EntryPoint, base: nat)
  {
    ep.load.Loaded? && Conforms(ep.load.obj, base)
  }

  /** One turn of the discovery loop: an accepted entry point is written
      under its name, any other leaves the plugins as they are. */
  function Visit(acc: Plugins, ep: EntryPoint, base: nat): (r: Plugins)
    requires OM.Valid(acc)
    ensures OM.Valid(r)
  {
    if Accepted(ep, base) then
      OM.PutValid(acc, ep.name, ep.load.obj);
      OM.Put(acc, ep.name, ep.load.obj)
    else acc
  }

  /** The discovery loop: each accepted entry point is written under its name
      into `acc` (an `OrderedDict`), in discovery order; the others are skipped. */
  function Discover(eps: seq<EntryPoint>, base: nat, acc: Plugins): (r: Plugins)
    requires OM.Valid(acc)
    ensures OM.Valid(r)
    decreases |eps|
  {
    if eps == [] then acc
    else
      var next := Visit(acc, eps[0], base);
      Discover(eps[1..], base, next)
  }

  /** The discovery loop as written: a loaded object that is not a class makes
      the interface check raise, which ends `load_plugins` with the exception. */
  function DiscoverAsWritten(eps: seq<EntryPoint>, base: nat, acc: Plugins): Result<Plugins, PyError>
    requires OM.Valid(acc)
    decreases |eps|
  {
    if eps == [] then Ok(acc)
    else if eps[0].load.LoadFailed? then DiscoverAsWritten(eps[1..], base, acc)
    else match ConformsAsWritten(eps[0].load.obj, base)
      case Err(e) => Err(e)
      case Ok(ok) =>
        var next := if ok then OM.Put(acc, eps[0].name, eps[0].load.obj) else acc;
        DiscoverAsWritten(eps[1..], base, next)
  }

  /** What `load_plugins` returns, given the cache before the call and the
      current local registry: the cache when asked to use it and it is not
      empty, otherwise the discovered plugins overlaid with the local ones. */
  function LoadSpec(cache: Plugins, useCache: bool, eps: seq<EntryPoint>, base: nat, local: Plugins): (r: Plugins)
    requires OM.Valid(cache) && OM.Valid(local)
    ensures OM.Valid(r)
  {
    if useCache && cache.values != map[] then cache
    else OM.Update(Discover(eps, base, OM.Empty()), local)
  }

  /** A name is bound after discovery iff it was bound before or some
      accepted entry point carries it. */
  lemma {:induction false} DiscoverKeys(eps: seq<EntryPoint>, base: nat, acc: Plugins, k: string)
    requires OM.Valid(acc)
    ensures k in Discover(eps, base, acc).values <==>
      k in acc.values || exists i :: 0 <= i < |eps| && eps[i].name == k && Accepted(eps[i], base)
    decreases |eps|
  {
    if eps != [] {
      var next := Visit(acc, eps[0], base);
      DiscoverKeys(eps[1..], base, next, k);
      if k !in acc.values && k !in next.values &&
         exists i :: 0 <= i < |eps[1..]| && eps[1..][i].name == k && Accepted(eps[1..][i], base) {
        var i :| 0 <= i < |eps[1..]| && eps[1..][i].name == k && Accepted(eps[1..][i], base);
        assert eps[i + 1] == eps[1..][i];
      }
      if exists i :: 0 <= i < |eps| && eps[i].name == k && Accepted(eps[i], base) {
        var i :| 0 <= i < |eps| && eps[i].name == k && Accepted(eps[i], base);
        if i > 0 {
          assert eps[1..][i - 1] == eps[i];
        }
      }
    }
  }

  /** Discovery binds only conforming plugins. */
  lemma {:induction false} DiscoverConforms(eps: seq<EntryPoint>, base: nat, acc: Plugins)
    requires OM.Valid(acc)
    ensures AllConform(acc.values, base) ==> AllConform(Discover(eps, base, acc).values, base)
    decreases |eps|
  {
    if eps != [] {
      DiscoverConforms(eps[1..], base, Visit(acc, eps[0], base));
    }
  }

  /** Discovery keeps the positions of names bound before. */
  lemma {:induction false} DiscoverKeepsOrder(eps: seq<EntryPoint>, base: nat, acc: Plugins)
    requires OM.Valid(acc)
    ensures |acc.keys| <= |Discover(eps, base, acc).keys|
    ensures Discover(eps, base, acc).keys[..|acc.keys|] == acc.keys
    decreases |eps|
  {
    if eps != [] {
      var next := Visit(acc, eps[0], base);
      DiscoverKeepsOrder(eps[1..], base, next);
      var r := Discover(eps, base, acc);
      assert r.keys[..|acc.keys|] == r.keys[..|next.keys|][..|acc.keys|];
    }
  }

  /** The last accepted entry point of a name is the plugin bound to it. */
  lemma {:induction false} DiscoverLastWins(eps: seq<EntryPoint>, base: nat, acc: Plugins, i: nat)
    requires OM.Valid(acc)
    requires i < |eps| && Accepted(eps[i], base)
    requires forall j :: i < j < |eps| && eps[j].name == eps[i].name ==> !Accepted(eps[j], base)
    ensures eps[i].name in Discover(eps, base, acc).values
    ensures Discover(eps, base, acc).values[eps[i].name] == eps[i].load.obj
    decreases |eps|
  {
    var next := Visit(acc, eps[0], base);
    if i > 0 {
      assert eps[1..][i - 1] == eps[i];
      forall j | i - 1 < j < |eps[1..]| && eps[1..][j].name == eps[1..][i - 1].name
        ensures !Accepted(eps[1..][j], base)
      {
        assert eps[1..][j] == eps[j + 1];
      }
      DiscoverLastWins(eps[1..], base, next, i - 1);
    } else {
      forall j | 0 <= j < |eps[1..]| && Accepted(eps[1..][j], base)
        ensures eps[1..][j].name != eps[0].name
      {
        assert eps[1..][j] == eps[j + 1];
      }
      DiscoverUntouched(eps[1..], base, next, eps[0].name);
    }
  }

  /** A name that no accepted entry point carries keeps its earlier binding. */
  lemma {:induction false} DiscoverUntouched(eps: seq<EntryPoint>, base: nat, acc: Plugins, k: string)
    requires OM.Valid(acc)
    requires k in acc.values
    requires forall i :: 0 <= i < |eps| && Accepted(eps[i], base) ==> eps[i].name != k
    ensures k in Discover(eps, base, acc).values && Discover(eps, base, acc).values[k] == acc.values[k]
    decreases |eps|
  {
    if eps != [] {
      var next := Visit(acc, eps[0], base);
      forall i | 0 <= i < |eps[1..]| && Accepted(eps[1..][i], base)
        ensures eps[1..][i].name != k
      {
        assert eps[1..][i] == eps[i + 1];
      }
      DiscoverUntouched(eps[1..], base, next, k);
    }
  }

  /** As written, discovery fails exactly when some entry point loaded an
      object that is not a class; otherwise it agrees with `Discover`. */
  lemma {:induction false} DiscoverAsWrittenFailsOnNonClass(eps: seq<EntryPoint>, base: nat, acc: Plugins)
    requires OM.Valid(acc)
    ensures DiscoverAsWritten(eps, base, acc).Err? <==>
      exists i :: 0 <= i < |eps| && eps[i].load.Loaded? && !eps[i].load.obj.isClass
    ensures DiscoverAsWritten(eps, base, acc).Ok? ==>
      DiscoverAsWritten(eps, base, acc).value == Discover(eps, base, acc)
    decreases |eps|
  {
    if eps != [] {
      var next := Visit(acc, eps[0], base);
      DiscoverAsWrittenFailsOnNonClass(eps[1..], base, next);
      if exists i :: 0 <= i < |eps| && eps[i].load.Loaded? && !eps[i].load.obj.isClass {
        var i :| 0 <= i < |eps| && eps[i].load.Loaded? && !eps[i].load.obj.isClass;
        if i > 0 {
          assert eps[1..][i - 1] == eps[i];
        }
      }
      if exists i :: 0 <= i < |eps[1..]| && eps[1..][i].load.Loaded? && !eps[1..][i].load.obj.isClass {
        var i :| 0 <= i < |eps[1..]| && eps[1..][i].load.Loaded? && !eps[1..][i].load.obj.isClass;
        assert eps[i + 1] == eps[1..][i];
      }
    }
  }

  /** One entry point that loads a plain function (not a class) is enough to
      make the loader as written fail, where skipping it yields no plugins. */
  lemma NonClassEntryPointAbortsLoading()
    ensures var eps := [EntryPoint("broken", Loaded(PyObject(1, false, {})))];
      DiscoverAsWritten(eps, 0, OM.Empty()) == Err(TypeError) &&
      Discover(eps, 0, OM.Empty()) == OM.Empty()
  {
  }

  /** The class-level `_locally_registered` dictionary of one loader subclass,
      together with that subclass's `_base_class`. Every instance of the
      subclass refers to the same registry object. */
  class Registry {
    const base: nat
    var plugins: Plugins

    ghost predicate Valid()
      reads this
    {
      OM.Valid(plugins) && AllConform(plugins.values, base)
    }

    constructor (base: nat)
      ensures Valid()
      ensures this.base == base && plugins == OM.Empty()
    {
      this.base := base;
      plugins := OM.Empty();
    }

    /** `register(key)(plugin)`: binds `key` to a conforming class, replacing
        an earlier binding of the same key, and returns the plugin. A class
        that is not a subclass of the base raises `ValueError`; any other
        object makes `issubclass` raise `TypeError`. On error nothing changes. */
    method Register(key: string, plugin: PyObject) returns (r: Result<PyObject, PyError>)
      requires Valid()
      modifies this`plugins
      ensures Valid()
      ensures !plugin.isClass ==> r == Err(TypeError)
      ensures plugin.isClass && base !in plugin.mro ==> r == Err(ValueError)
      ensures Conforms(plugin, base) ==> r == Ok(plugin)
      ensures r.Err? ==> plugins == old(plugins)
      ensures r.Ok? ==> plugins == OM.Put(old(plugins), key, plugin)
    {
      var conforms := ConformsAsWritten(plugin, base);
      if conforms.Err? {
        return Err(conforms.error);
      }
      if !conforms.value {
        return Err(ValueError);
      }
      plugins := OM.Put(plugins, key, plugin);
      return Ok(plugin);
    }
  }

  class PluginLoader {
    const entrypoint: string
    const registry: Registry
    var cache: Plugins

    ghost predicate Valid()
      reads this, registry
    {
      OM.Valid(cache) && AllConform(cache.values, registry.base) && registry.Valid()
    }

    constructor (entity: string, registry: Registry, apiVersion: string := "1.0")
      requires registry.Valid()
      ensures Valid()
      ensures entrypoint == EntryPointName(entity, apiVersion)
      ensures this.registry == registry && cache == OM.Empty()
    {
      entrypoint := EntryPointName(entity, apiVersion);
      this.registry := registry;
      cache := OM.Empty();
    }

    /** `load_plugins(cache)`, where `eps` is what `iter_entry_points` yields
        for `entrypoint`. A non-empty cache is returned when allowed, without
        looking at the entry points; otherwise discovery runs, the local
        registry is laid over it, and the outcome becomes the new cache. The
        result is a value, so changing it later cannot touch the cache. */
    method LoadPlugins(useCache: bool, eps: seq<EntryPoint>) returns (r: Plugins)
      requires Valid()
      modifies this`cache
      ensures Valid()
      ensures r == LoadSpec(old(cache), useCache, eps, registry.base, registry.plugins)
      ensures useCache && old(cache).values != map[] ==> cache == old(cache)
      ensures !(useCache && old(cache).values != map[]) ==> cache == r
      ensures AllConform(r.values, registry.base)
    {
      if useCache && cache.values != map[] {
        return cache;
      }
      var available: Plugins := OM.Empty();
      var i := 0;
      while i < |eps|
        invariant 0 <= i <= |eps|
        invariant OM.Valid(available)
        invariant Discover(eps[i..], registry.base, available) == Discover(eps, registry.base, OM.Empty())
      {
        var ep := eps[i];
        assert eps[i..][1..] == eps[i + 1..];
        if ep.load.Loaded? && Conforms(ep.load.obj, registry.base) {
          OM.PutValid(available, ep.name, ep.load.obj);
          available := OM.Put(available, ep.name, ep.load.obj);
        }
        i := i + 1;
      }
      assert eps[i..] == [];
      DiscoverConforms(eps, registry.base, OM.Empty());
      available := OM.Update(available, registry.plugins);
      cache := available;
      r := cache;
    }
  }

  /** Local registrations are laid over discovered plugins: a locally
      registered name always maps to the local plugin, any other name to the
      last accepted entry point of that name; discovered names come first, in
      discovery order. */
  lemma {:induction false} LocalRegistrationsWin(eps: seq<EntryPoint>, base: nat, local: Plugins, k: string)
    requires OM.Valid(local)
    ensures var found := Discover(eps, base, OM.Empty());
      var r := OM.Update(found, local);
      && (k in r.values <==> k in local.values || exists i :: 0 <= i < |eps| && eps[i].name == k && Accepted(eps[i], base))
      && (k in local.values ==> r.values[k] == local.values[k])
      && r.keys[..|found.keys|] == found.keys
  {
    DiscoverKeys(eps, base, OM.Empty(), k);
  }

  /** A name that is not registered locally maps to the last accepted entry
      point that carries it. */
  lemma {:induction false} LastEntryPointWins(eps: seq<EntryPoint>, base: nat, local: Plugins, i: nat)
    requires OM.Valid(local)
    requires i < |eps| && Accepted(eps[i], base) && eps[i].name !in local.values
    requires forall j :: i < j < |eps| && eps[j].name == eps[i].name ==> !Accepted(eps[j], base)
    ensures eps[i].name in OM.Update(Discover(eps, base, OM.Empty()), local).values
    ensures OM.Update(Discover(eps, base, OM.Empty()), local).values[eps[i].name] == eps[i].load.obj
  {
    DiscoverLastWins(eps, base, OM.Empty(), i);
  }
}
