/** The archive sink: its declared options, and what `distribute` does with
    them. It refuses to replace an existing file unless `override` is set,
    optionally creates the parent directories, requires the parent directory
    to exist, serialises with fixed `ujson.dumps` options (indented iff
    `pretty`), and writes either a plain file or, with `compress`, a zip file
    whose name ends in `.zip` and whose single member is named after the
    stem of that zip file's name.

    The file system is the `FileSystem` value: the paths that are files and
    the paths that are directories. Serialising, encoding and the bytes
    written are not modelled; `Written` says where and how. */
module Archive {

  import opened Wrappers
  import opened Values
  import opened Strings
  import OM = OrderedMaps
  import opened Config
  import PP = PurePaths
  import JS = JsonSource

  /** The five declarations, in declaration order. */
  const Output := Decl(Null, false, Some(JS.NonEmptyString), false)
  const Override := Decl(Bool(false), true, Some(JS.Boolean), false)
  const CreateParents := Decl(Bool(true), true, Some(JS.Boolean), false)
  const Pretty := Decl(Bool(false), true, Some(JS.Boolean), false)
  const Compress := Decl(Bool(false), true, Some(JS.Boolean), false)

  /** The declarations `declare_config` adds to `decls`. */
  function Declare(decls: Declarations): Declarations
  {
    var d := OM.Put(decls, "output", Output);
    var d := OM.Put(d, "override", Override);
    var d := OM.Put(d, "create_parents", CreateParents);
    var d := OM.Put(d, "pretty", Pretty);
    OM.Put(d, "compress", Compress)
  }

  /** `ArchiveSink.declare_config`: five `add_option` calls. */
  method DeclareConfig(config: Configurator)
    requires config.Valid()
    modifies config`declared
    ensures config.Valid()
    ensures config.declared == Declare(old(config.declared))
  {
    var e := config.AddOption("output", Null, Bool(false), Dict(JS.NonEmptyString), Bool(false));
    e := config.AddOption("override", Bool(false), Bool(true), Dict(JS.Boolean), Bool(false));
    e := config.AddOption("create_parents", Bool(true), Bool(true), Dict(JS.Boolean), Bool(false));
    e := config.AddOption("pretty", Bool(false), Bool(true), Dict(JS.Boolean), Bool(false));
    e := config.AddOption("compress", Bool(false), Bool(true), Dict(JS.Boolean), Bool(false));
  }

  /** On a fresh configurator the five options are declared in this order. */
  lemma FreshDeclarationOrder()
    ensures Declare(OM.Empty()).keys == ["output", "override", "create_parents", "pretty", "compress"]
  {
    var d := OM.Put(OM.Empty(), "output", Output);
    d := OM.Put(d, "override", Override);
    d := OM.Put(d, "create_parents", CreateParents);
    assert d.keys == ["output", "override", "create_parents"];
    d := OM.Put(d, "pretty", Pretty);
    assert "compress" !in d.values;
  }

  /** Declaring the options keeps every key listed once. */
  lemma DeclareValid(decls: Declarations)
    requires OM.Valid(decls)
    ensures OM.Valid(Declare(decls))
  {
    var d := OM.Put(decls, "output", Output);
    OM.PutValid(decls, "output", Output);
    OM.PutValid(d, "override", Override);
    d := OM.Put(d, "override", Override);
    OM.PutValid(d, "create_parents", CreateParents);
    d := OM.Put(d, "create_parents", CreateParents);
    OM.PutValid(d, "pretty", Pretty);
    d := OM.Put(d, "pretty", Pretty);
    OM.PutValid(d, "compress", Compress);
  }

  /** On a fresh configurator each option carries its own declaration (so
      `create_parents` defaults to true), and `output` is the only mandatory
      one. */
  lemma FreshDeclarationValues()
    ensures var d := Declare(OM.Empty()).values;
      && d == map["output" := Output, "override" := Override, "create_parents" := CreateParents,
                  "pretty" := Pretty, "compress" := Compress]
      && d["create_parents"].default == Bool(true)
      && Mandatory(d) == {"output"}
  {
    var d1 := map["output" := Output];
    var d2 := d1["override" := Override];
    var d3 := d2["create_parents" := CreateParents];
    var d4 := d3["pretty" := Pretty];
    assert Declare(OM.Empty()).values == d4["compress" := Compress];
    MandatoryAfterDeclare(map[], "output", Output);
    MandatoryAfterDeclare(d1, "override", Override);
    MandatoryAfterDeclare(d2, "create_parents", CreateParents);
    MandatoryAfterDeclare(d3, "pretty", Pretty);
    MandatoryAfterDeclare(d4, "compress", Compress);
    assert Mandatory(map[]) == {};
  }

  /** The validated option values `distribute` reads. */
  datatype ArchiveOptions = ArchiveOptions(output: string, override: bool, createParents: bool,
                                           pretty: bool, compress: bool)

  datatype FileSystem = FileSystem(files: set<PP.Path>, dirs: set<PP.Path>)

  datatype ArchiveError =
    | FileExists(path: PP.Path)      // `FileExistsError` of the override guard
    | MkdirFailed(path: PP.Path)     // `mkdir` met a file where a directory belongs
    | NoSuchDirectory(path: PP.Path) // `FileNotFoundError`: the parent is missing
    | IsADirectory(path: PP.Path)    // `IsADirectoryError` of `open` or `ZipFile`: the target is a directory

  /** Where the data went: a plain file, or a zip file with one member; and
      the keyword arguments given to `ujson.dumps`. */
  datatype Written = Written(path: PP.Path, member: Option<string>, kwargs: map<string, Value>)

  /** `Path.is_dir`: the root and the current directory always exist. */
  predicate IsDir(fs: FileSystem, p: PP.Path)
  {
    p.parts == [] || p in fs.dirs
  }

  /** `p` and every path above it. */
  function Ancestors(p: PP.Path): set<PP.Path>
  {
    set i | 0 <= i <= |p.parts| :: PP.Path(p.absolute, p.parts[..i])
  }

  /** `p.mkdir(parents=True, exist_ok=True)`. */
  function MakeDirs(fs: FileSystem, p: PP.Path): (r: Result<FileSystem, ArchiveError>)
    ensures r.Err? <==> Ancestors(p) * fs.files != {}
    ensures r.Err? ==> r.error == MkdirFailed(p)
    ensures r.Ok? ==> IsDir(r.value, p) && r.value.files == fs.files && r.value.dirs == fs.dirs + Ancestors(p)
  {
    if Ancestors(p) * fs.files != {} then Err(MkdirFailed(p))
    else
      assert p == PP.Path(p.absolute, p.parts[..|p.parts|]);
      Ok(fs.(dirs := fs.dirs + Ancestors(p)))
  }

  /** The name of a compressed archive: `name + '.zip'` in the same
      directory, unless the suffix is already `.zip`. */
  function ZipPath(p: PP.Path): PP.Path
  {
    if PP.Suffix(PP.Name(p)) != ".zip" then PP.Child(PP.Parent(p), PP.Name(p) + ".zip") else p
  }

  /** The path `distribute` writes to. */
  function Target(opts: ArchiveOptions): PP.Path
  {
    var outfile := PP.Parse(opts.output);
    if opts.compress then ZipPath(outfile) else outfile
  }

  /** The keyword arguments of `ujson.dumps`. */
  function DumpArguments(pretty: bool): map<string, Value>
  {
    var kwargs := map["ensure_ascii" := Bool(false), "escape_forward_slashes" := Bool(false)];
    if pretty then kwargs["indent" := Int(4)] else kwargs
  }

  /** What `distribute` does after its override guard: directories, the
      parent check, and the write, which fails when the target is a
      directory. */
  function AfterGuard(opts: ArchiveOptions, fs: FileSystem): Result<(FileSystem, Written), ArchiveError>
  {
    var outfile := PP.Parse(opts.output);
    var made := if opts.createParents then MakeDirs(fs, PP.Parent(outfile)) else Ok(fs);
    if made.Err? then Err(made.error)
    else if !IsDir(made.value, PP.Parent(outfile)) then Err(NoSuchDirectory(PP.Parent(outfile)))
    else
      var target := Target(opts);
      if IsDir(made.value, target) then Err(IsADirectory(target)) else
      var member := if opts.compress then Some(PP.Stem(PP.Name(target))) else None;
      Ok((made.value.(files := made.value.files + {target}), Written(target, member, DumpArguments(opts.pretty))))
  }

  /** `distribute` as written: the override guard looks at the configured
      path, which is not the path written when `.zip` is appended. */
  function ArchiveAsWritten(opts: ArchiveOptions, fs: FileSystem): Result<(FileSystem, Written), ArchiveError>
  {
    var outfile := PP.Parse(opts.output);
    if outfile in fs.files && !opts.override then Err(FileExists(outfile))
    else AfterGuard(opts, fs)
  }

  /** `distribute` with the override guard on the path that is written. */
  function ArchiveSpec(opts: ArchiveOptions, fs: FileSystem): Result<(FileSystem, Written), ArchiveError>
  {
    var target := Target(opts);
    if target in fs.files && !opts.override then Err(FileExists(target))
    else AfterGuard(opts, fs)
  }

  /** `ArchiveSink.distribute`, step by step: the guard, the directories,
      the `kwargs` dictionary, and the renaming of `outfile` for a zip. */
  method Distribute(opts: ArchiveOptions, fs: FileSystem) returns (r: Result<(FileSystem, Written), ArchiveError>)
    ensures r == ArchiveSpec(opts, fs)
  {
    var outfile := PP.Parse(opts.output);
    var target := if opts.compress then ZipPath(outfile) else outfile;
    if target in fs.files && !opts.override {
      return Err(FileExists(target));
    }
    var current := fs;
    if opts.createParents {
      var made := MakeDirs(current, PP.Parent(outfile));
      if made.Err? {
        return Err(made.error);
      }
      current := made.value;
    }
    if !IsDir(current, PP.Parent(outfile)) {
      return Err(NoSuchDirectory(PP.Parent(outfile)));
    }
    var kwargs := map["ensure_ascii" := Bool(false), "escape_forward_slashes" := Bool(false)];
    if opts.pretty {
      kwargs := kwargs["indent" := Int(4)];
    }
    if !opts.compress {
      if IsDir(current, outfile) {
        return Err(IsADirectory(outfile));
      }
      return Ok((current.(files := current.files + {outfile}), Written(outfile, None, kwargs)));
    }
    if PP.Suffix(PP.Name(outfile)) != ".zip" {
      outfile := PP.Child(PP.Parent(outfile), PP.Name(outfile) + ".zip");
    }
    if IsDir(current, outfile) {
      return Err(IsADirectory(outfile));
    }
    return Ok((current.(files := current.files + {outfile}), Written(outfile, Some(PP.Stem(PP.Name(outfile))), kwargs)));
  }

  /** `dumps` never escapes non-ASCII characters or forward slashes, and
      indents by four exactly when `pretty` is set. */
  lemma DumpArgumentsMeaning(pretty: bool)
    ensures var kwargs := DumpArguments(pretty);
      && kwargs.Keys == {"ensure_ascii", "escape_forward_slashes"} + (if pretty then {"indent"} else {})
      && kwargs["ensure_ascii"] == Bool(false)
      && kwargs["escape_forward_slashes"] == Bool(false)
      && ("indent" in kwargs <==> pretty)
      && (pretty ==> kwargs["indent"] == Int(4))
  {
  }

  /** The guards, in order: an existing target without `override` fails
      before any directory is made; with `create_parents`, a file where a
      parent directory belongs fails; a missing parent directory (after the
      optional creation) fails; a target that is a directory fails.
      `distribute` succeeds exactly when every guard passes, and then the
      target becomes a file, nothing else is removed, and the arguments are
      those of `DumpArguments`. */
  lemma ArchiveGuards(opts: ArchiveOptions, fs: FileSystem)
    ensures var r := ArchiveSpec(opts, fs);
      var outfile := PP.Parse(opts.output);
      var parent := PP.Parent(outfile);
      var guarded := Target(opts) in fs.files && !opts.override;
      var blocked := opts.createParents && Ancestors(parent) * fs.files != {};
      var prepared := if opts.createParents then fs.(dirs := fs.dirs + Ancestors(parent)) else fs;
      && (r.Ok? <==> !guarded && !blocked && IsDir(prepared, parent) && !IsDir(prepared, Target(opts)))
      && (guarded ==> r == Err(FileExists(Target(opts))))
      && (!guarded && blocked ==> r == Err(MkdirFailed(parent)))
      && (!guarded && !blocked && !IsDir(prepared, parent) ==> r == Err(NoSuchDirectory(parent)))
      && (!guarded && !blocked && IsDir(prepared, parent) && IsDir(prepared, Target(opts)) ==>
            r == Err(IsADirectory(Target(opts))))
      && (r.Ok? ==> && IsDir(r.value.0, PP.Parent(outfile))
                    && r.value.0.files == fs.files + {Target(opts)}
                    && fs.dirs <= r.value.0.dirs
                    && r.value.1.path == Target(opts)
                    && r.value.1.kwargs == DumpArguments(opts.pretty))
  {
  }

  /** An existing file is never replaced unless `override` is set. */
  lemma NoSilentOverwrite(opts: ArchiveOptions, fs: FileSystem)
    requires !opts.override
    ensures ArchiveSpec(opts, fs).Ok? ==> ArchiveSpec(opts, fs).value.1.path !in fs.files
  {
  }

  /** As written, an existing zip file is replaced: archiving a plain file
      name such as `out.json` with `compress` and without `override`, when
      only `out.json.zip` exists, writes over `out.json.zip`; the guard on the
      written path refuses instead. */
  lemma AsWrittenOverwritesZip(name: string)
    requires PP.IsComponent(name) && PP.Suffix(name) != ".zip"
    ensures var opts := ArchiveOptions(name, false, false, false, true);
      var fs := FileSystem({PP.Parse(name + ".zip")}, {});
      && ArchiveAsWritten(opts, fs).Ok?
      && ArchiveAsWritten(opts, fs).value.1.path in fs.files
      && ArchiveSpec(opts, fs) == Err(FileExists(PP.Parse(name + ".zip")))
  {
    var zipped := name + ".zip";
    assert '/' !in zipped by {
      assert forall i :: 0 <= i < |zipped| ==> zipped[i] == if i < |name| then name[i] else ".zip"[i - |name|];
    }
    PP.ParseComponent(name);
    PP.ParseComponent(zipped);
    var opts := ArchiveOptions(name, false, false, false, true);
    var fs := FileSystem({PP.Parse(zipped)}, {});
    var outfile := PP.Path(false, [name]);
    assert PP.Name(outfile) == name;
    assert PP.Parent(outfile) == PP.Path(false, []);
    assert PP.Child(PP.Path(false, []), zipped) == PP.Path(false, [zipped]);
    assert Target(opts) == PP.Parse(zipped);
    assert PP.Parse(name) !in fs.files by {
      assert |zipped| != |name|;
    }
    assert IsDir(fs, PP.Parent(outfile));
  }

  /** The zip file's name ends in `.zip`, its directory is the configured
      one, and its member is the configured file name when `.zip` was
      appended (the stem otherwise). */
  lemma ZipNaming(p: PP.Path)
    requires PP.Normal(p)
    ensures PP.Normal(ZipPath(p))
    ensures PP.Parent(ZipPath(p)) == PP.Parent(p)
    ensures PP.Name(p) != "" ==> PP.Suffix(PP.Name(ZipPath(p))) == ".zip"
    ensures PP.Suffix(PP.Name(p)) != ".zip" ==> PP.Name(ZipPath(p)) == PP.Name(p) + ".zip"
    ensures PP.Name(p) != "" && PP.Suffix(PP.Name(p)) != ".zip" ==> PP.Stem(PP.Name(ZipPath(p))) == PP.Name(p)
    ensures PP.Suffix(PP.Name(p)) == ".zip" ==> ZipPath(p) == p
  {
    ZipPathPlace(p);
    ZipPathName(p);
  }

  /** The zip path is a normal path in the configured directory. */
  lemma ZipPathPlace(p: PP.Path)
    requires PP.Normal(p)
    ensures PP.Normal(ZipPath(p))
    ensures PP.Parent(ZipPath(p)) == PP.Parent(p)
  {
    var name := PP.Name(p);
    if PP.Suffix(name) != ".zip" {
      var zipped := name + ".zip";
      assert '/' !in zipped by {
        assert p.parts != [] ==> PP.IsComponent(p.parts[|p.parts| - 1]);
        assert forall i :: 0 <= i < |zipped| ==> zipped[i] == if i < |name| then name[i] else ".zip"[i - |name|];
      }
      assert ZipPath(p) == PP.Path(p.absolute, PP.Parent(p).parts + [zipped]);
    }
  }

  /** The zip path's name: the configured name plus `.zip` unless that
      suffix was already there, whose suffix is `.zip` and whose stem is the
      configured name. */
  lemma ZipPathName(p: PP.Path)
    ensures PP.Name(p) != "" ==> PP.Suffix(PP.Name(ZipPath(p))) == ".zip"
    ensures PP.Suffix(PP.Name(p)) != ".zip" ==> PP.Name(ZipPath(p)) == PP.Name(p) + ".zip"
    ensures PP.Name(p) != "" && PP.Suffix(PP.Name(p)) != ".zip" ==> PP.Stem(PP.Name(ZipPath(p))) == PP.Name(p)
    ensures PP.Suffix(PP.Name(p)) == ".zip" ==> ZipPath(p) == p
  {
    var name := PP.Name(p);
    if PP.Suffix(name) != ".zip" && name != "" {
      PP.SuffixOfAppended(name, ".zip");
    }
  }

  /** What the archive writes with `compress`, the JSON source reads back:
      given the written path as a `file://` URI and `extract`, it reads that
      file and the very member the archive wrote. */
  lemma ArchiveThenExtract(opts: ArchiveOptions, fs: FileSystem, encoding: string, ordered: bool, verifySsl: bool)
    requires opts.compress
    ensures ArchiveSpec(opts, fs).Ok? ==>
      var w := ArchiveSpec(opts, fs).value.1;
      var uri := "file" + JS.Separator + PP.Render(w.path);
      JS.Dispatch(uri, encoding, ordered, verifySsl, true) ==
        Ok(JS.Plan(JS.ReadFile(PP.Render(w.path)), w.member, encoding,
                   if ordered then JS.OrderedJson else JS.PlainJson))
  {
    if ArchiveSpec(opts, fs).Ok? {
      var w := ArchiveSpec(opts, fs).value.1;
      ArchiveGuards(opts, fs);
      assert w.path == ZipPath(PP.Parse(opts.output));
      assert w.member == Some(PP.Stem(PP.Name(w.path)));
      ZipNaming(PP.Parse(opts.output));
      PP.RenderParse(w.path);
      JS.FileUriDispatch(PP.Render(w.path), encoding, ordered, verifySsl, true);
    }
  }
}
