/** The JSON source: its declared options, and how `collect` turns the
    configured `file_uri` into a plan for reading the data. The URI is split
    at its first `://` (no `://` means the `file` scheme with the whole URI as
    the resource); `file` reads the resource from disk, `http` and `https`
    fetch the whole URI, anything else is rejected. With `extract` the data
    is the zip member named after the stem of the file path or URL path.

    Opening files and URLs, SSL contexts, unzipping, decoding bytes and
    parsing JSON are not modelled: the plan says what would be read and how. */
module JsonSource {

  import opened Wrappers
  import opened Values
  import opened Strings
  import OM = OrderedMaps
  import opened Config
  import CP = ConfigProperties
  import PP = PurePaths

  /** `{'type': 'string', 'empty': False}` */
  const NonEmptyString: Schema := map["type" := Str("string"), "empty" := Bool(false)]

  /** `{'type': 'boolean'}` */
  const Boolean: Schema := map["type" := Str("boolean")]

  /** The five declarations, in declaration order. */
  const FileUri := Decl(Null, false, Some(NonEmptyString), false)
  const Encoding := Decl(Str("utf-8"), true, Some(NonEmptyString), false)
  const Ordered := Decl(Bool(false), true, Some(Boolean), false)
  const VerifySsl := Decl(Bool(true), true, Some(Boolean), false)
  const Extract := Decl(Bool(false), true, Some(Boolean), false)

  /** The declarations `declare_config` adds to `decls`. */
  function Declare(decls: Declarations): Declarations
  {
    var d := OM.Put(decls, "file_uri", FileUri);
    var d := OM.Put(d, "encoding", Encoding);
    var d := OM.Put(d, "ordered", Ordered);
    var d := OM.Put(d, "verify_ssl", VerifySsl);
    OM.Put(d, "extract", Extract)
  }

  /** `JSONSource.declare_config`: five `add_option` calls. */
  method DeclareConfig(config: Configurator)
    requires config.Valid()
    modifies config`declared
    ensures config.Valid()
    ensures config.declared == Declare(old(config.declared))
  {
    var e := config.AddOption("file_uri", Null, Bool(false), Dict(NonEmptyString), Bool(false));
    e := config.AddOption("encoding", Str("utf-8"), Bool(true), Dict(NonEmptyString), Bool(false));
    e := config.AddOption("ordered", Bool(false), Bool(true), Dict(Boolean), Bool(false));
    e := config.AddOption("verify_ssl", Bool(true), Bool(true), Dict(Boolean), Bool(false));
    e := config.AddOption("extract", Bool(false), Bool(true), Dict(Boolean), Bool(false));
  }

  /** On a fresh configurator the five options are declared in this order. */
  lemma FreshDeclarationOrder()
    ensures Declare(OM.Empty()).keys == ["file_uri", "encoding", "ordered", "verify_ssl", "extract"]
  {
    var d := OM.Put(OM.Empty(), "file_uri", FileUri);
    d := OM.Put(d, "encoding", Encoding);
    d := OM.Put(d, "ordered", Ordered);
    assert d.keys == ["file_uri", "encoding", "ordered"];
    d := OM.Put(d, "verify_ssl", VerifySsl);
    assert "extract" !in d.values;
  }

  /** Declaring the options keeps every key listed once. */
  lemma DeclareValid(decls: Declarations)
    requires OM.Valid(decls)
    ensures OM.Valid(Declare(decls))
  {
    var d := OM.Put(decls, "file_uri", FileUri);
    OM.PutValid(decls, "file_uri", FileUri);
    OM.PutValid(d, "encoding", Encoding);
    d := OM.Put(d, "encoding", Encoding);
    OM.PutValid(d, "ordered", Ordered);
    d := OM.Put(d, "ordered", Ordered);
    OM.PutValid(d, "verify_ssl", VerifySsl);
    d := OM.Put(d, "verify_ssl", VerifySsl);
    OM.PutValid(d, "extract", Extract);
  }

  /** On a fresh configurator each option carries its own declaration, and
      `file_uri` is the only mandatory one. */
  lemma FreshDeclarationValues()
    ensures var d := Declare(OM.Empty()).values;
      && d == map["file_uri" := FileUri, "encoding" := Encoding, "ordered" := Ordered,
                  "verify_ssl" := VerifySsl, "extract" := Extract]
      && Mandatory(d) == {"file_uri"}
  {
    var d1 := map["file_uri" := FileUri];
    var d2 := d1["encoding" := Encoding];
    var d3 := d2["ordered" := Ordered];
    var d4 := d3["verify_ssl" := VerifySsl];
    assert Declare(OM.Empty()).values == d4["extract" := Extract];
    MandatoryAfterDeclare(map[], "file_uri", FileUri);
    MandatoryAfterDeclare(d1, "encoding", Encoding);
    MandatoryAfterDeclare(d2, "ordered", Ordered);
    MandatoryAfterDeclare(d3, "verify_ssl", VerifySsl);
    MandatoryAfterDeclare(d4, "extract", Extract);
    assert Mandatory(map[]) == {};
  }

  /** The optional options of a fresh declaration, one by one. */
  lemma FreshDeclarationEntries()
    ensures var d := Declare(OM.Empty()).values;
      && "encoding" in d && d["encoding"] == Encoding
      && "ordered" in d && d["ordered"] == Ordered
      && "verify_ssl" in d && d["verify_ssl"] == VerifySsl
      && "extract" in d && d["extract"] == Extract
  {
    FreshDeclarationValues();
  }

  /** Every option name of the JSON source can be a record field. */
  /** Every option of a fresh declaration can be a record field. */
  lemma FreshDeclarationFieldNames()
    ensures forall k :: k in Declare(OM.Empty()).values ==> FieldName(k)
  {
    FreshDeclarationValues();
    FileUriName();
    EncodingName();
    OrderedName();
    VerifySslName();
    ExtractName();
  }

  /** Each option name, one at a time, can be a record field. */
  lemma FileUriName() ensures FieldName("file_uri") {}
  lemma EncodingName() ensures FieldName("encoding") {}
  lemma OrderedName() ensures FieldName("ordered") {}
  lemma VerifySslName() ensures FieldName("verify_ssl") {}
  lemma ExtractName() ensures FieldName("extract") {}

  /** Without `file_uri` the configuration is rejected, naming exactly
      `file_uri` as missing. */
  lemma FileUriIsRequired(hooks: seq<Hook>, check: SchemaCheck, render: Value -> string,
                          userconf: map<string, Value>)
    requires "file_uri" !in userconf
    ensures OM.Valid(Declare(OM.Empty()))
    ensures ValidateSpec(Declare(OM.Empty()), hooks, check, render, userconf).result ==
      Err(MissingOptions(["file_uri"]))
  {
    DeclareValid(OM.Empty());
    FreshDeclarationValues();
    FreshDeclarationOrder();
    CP.SingleMandatoryMissing(Declare(OM.Empty()), hooks, check, render, userconf, "file_uri");
  }

  /** Given only `file_uri`, with a value the schema accepts and no hooks, the
      other options take their defaults: encoding `utf-8`, `ordered` false,
      `verify_ssl` true and `extract` false. */
  lemma DefaultsApply(check: SchemaCheck, render: Value -> string, uri: Value)
    requires check("file_uri", NonEmptyString, uri).Some?
    ensures OM.Valid(Declare(OM.Empty()))
    ensures var r := ValidateSpec(Declare(OM.Empty()), [], check, render, map["file_uri" := uri]).result;
      && r.Ok?
      && "encoding" in r.value.items && r.value.items["encoding"].value == Str("utf-8")
      && "ordered" in r.value.items && r.value.items["ordered"].value == Bool(false)
      && "verify_ssl" in r.value.items && r.value.items["verify_ssl"].value == Bool(true)
      && "extract" in r.value.items && r.value.items["extract"].value == Bool(false)
  {
    DeclareValid(OM.Empty());
    FreshDeclarationValues();
    FreshDeclarationEntries();
    FreshDeclarationFieldNames();
    CP.SingleMandatoryGivesDefaults(Declare(OM.Empty()), check, render, "file_uri", uri);
  }

  /** The `://` separator. */
  const Separator: string := "://"

  /** The scheme and resource of `file_uri`: split at the first `://`, or
      `file` and the whole URI when there is none. */
  function SplitUri(uri: string): (r: (string, string))
    ensures IndexOf(uri, Separator).None? ==> r == ("file", uri)
    ensures IndexOf(uri, Separator).Some? ==> r.0 + Separator + r.1 == uri
    ensures IndexOf(uri, Separator).Some? ==> forall i :: !OccursAt(r.0, Separator, i)
  {
    match IndexOf(uri, Separator)
    case None => ("file", uri)
    case Some(i) =>
      var scheme := uri[..i];
      assert forall j :: OccursAt(scheme, Separator, j) ==> OccursAt(uri, Separator, j) by {
        forall j: nat | OccursAt(scheme, Separator, j)
          ensures OccursAt(uri, Separator, j)
        {
          assert uri[j..j + 3] == scheme[j..j + 3];
        }
      }
      assert scheme + Separator + uri[i + 3..] == uri;
      (scheme, uri[i + 3..])
  }

  /** Splitting undoes joining, for any scheme that does not itself contain
      `://`, whatever the resource contains. */
  lemma SplitUriOfJoin(scheme: string, resource: string)
    requires forall i :: !OccursAt(scheme, Separator, i)
    ensures SplitUri(scheme + Separator + resource) == (scheme, resource)
  {
    var uri := scheme + Separator + resource;
    assert OccursAt(uri, Separator, |scheme|) by {
      assert uri[|scheme|..|scheme| + 3] == Separator;
    }
    forall j: nat | j < |scheme|
      ensures !OccursAt(uri, Separator, j)
    {
      if j + 3 <= |scheme| {
        assert uri[j..j + 3] == scheme[j..j + 3];
        assert !OccursAt(scheme, Separator, j);
      } else if j + 3 <= |uri| {
        // A match here would straddle the end of the scheme, where `uri`
        // has ':' but the separator has '/'.
        assert uri[j..j + 3][|scheme| - j] == uri[|scheme|] == ':';
        assert Separator[|scheme| - j] == '/';
      }
    }
    assert uri[..|scheme|] == scheme;
    assert uri[|scheme| + 3..] == resource;
  }

  /** A scheme without a colon, such as `file` or `http`, does not contain
      the separator. */
  lemma SchemeWithoutSeparator(scheme: string)
    requires ':' !in scheme
    ensures forall i :: !OccursAt(scheme, Separator, i)
  {
    forall i: nat
      ensures !OccursAt(scheme, Separator, i)
    {
      if i + |Separator| <= |scheme| {
        assert scheme[i] in scheme;
        assert scheme[i..i + |Separator|][0] == scheme[i] != Separator[0];
      }
    }
  }

  /** The first index of a character of `cs` in `s`, or `|s|`. */
  function FirstOf(s: string, cs: set<char>): (r: nat)
    ensures r <= |s|
    ensures r < |s| ==> s[r] in cs
    ensures forall i :: 0 <= i < r ==> s[i] !in cs
  {
    if s == [] then 0
    else if s[0] in cs then 0
    else 1 + FirstOf(s[1..], cs)
  }

  /** The last index of `c` in `s`, as Python's `rfind`. */
  function LastIndexOf(s: string, c: char): (r: Option<nat>)
    ensures r.Some? ==> r.value < |s| && s[r.value] == c
    ensures r.Some? ==> forall i :: r.value < i < |s| ==> s[i] != c
    ensures r.None? ==> c !in s
  {
    if s == [] then None
    else if s[|s| - 1] == c then Some(|s| - 1)
    else
      var r := LastIndexOf(s[..|s| - 1], c);
      assert forall i :: 0 <= i < |s| - 1 ==> s[..|s| - 1][i] == s[i];
      r
  }

  /** `urllib.parse._splitparams`: a `;` in the last segment of the path
      starts the parameters, which are not part of the path. */
  function StripParams(path: string): (r: string)
    ensures |r| <= |path| && r == path[..|r|]
    ensures ';' !in path ==> r == path
  {
    if ';' !in path then path
    else
      var from := match LastIndexOf(path, '/') case Some(j) => j case None => 0;
      var i := from + FirstOf(path[from..], {';'});
      path[..i]
  }

  /** `urlparse(url).path` for a URL `scheme://rest` whose scheme is `http`
      or `https`: the network location runs up to the first `/`, `?` or `#`;
      the fragment is cut at `#`, then the query at `?`, then parameters. */
  function UrlPath(rest: string): (r: string)
    ensures forall i :: 0 <= i < |r| ==> r[i] != '?' && r[i] != '#'
  {
    var afterNetloc := rest[FirstOf(rest, {'/', '?', '#'})..];
    var noFragment := afterNetloc[..FirstOf(afterNetloc, {'#'})];
    var noQuery := noFragment[..FirstOf(noFragment, {'?'})];
    StripParams(noQuery)
  }

  /** Skipping a prefix free of `cs` shifts the first index by its length. */
  lemma {:induction false} FirstOfAfter(a: string, b: string, cs: set<char>)
    requires forall i :: 0 <= i < |a| ==> a[i] !in cs
    ensures FirstOf(a + b, cs) == |a| + FirstOf(b, cs)
  {
    if a != [] {
      assert (a + b)[1..] == a[1..] + b;
      FirstOfAfter(a[1..], b, cs);
    } else {
      assert a + b == b;
    }
  }

  /** The path of `host/path?query#fragment`: whatever follows a host free of
      `/`, `?` and `#`, up to the query or fragment, when the path has no
      parameters. */
  lemma UrlPathOfParts(host: string, path: string, tail: string)
    requires forall i :: 0 <= i < |host| ==> host[i] != '/' && host[i] != '?' && host[i] != '#'
    requires path != [] && path[0] == '/'
    requires forall i :: 0 <= i < |path| ==> path[i] != '?' && path[i] != '#' && path[i] != ';'
    requires tail == [] || tail[0] == '?' || tail[0] == '#'
    ensures UrlPath(host + path + tail) == path
  {
    AfterNetloc(host, path + tail);
    assert host + path + tail == host + (path + tail);
    CutQueryAndFragment(path, tail);
  }

  /** The network location ends at the first `/`, `?` or `#`. */
  lemma AfterNetloc(host: string, rest: string)
    requires forall i :: 0 <= i < |host| ==> host[i] != '/' && host[i] != '?' && host[i] != '#'
    requires rest != [] && rest[0] == '/'
    ensures (host + rest)[FirstOf(host + rest, {'/', '?', '#'})..] == rest
  {
    FirstOfAfter(host, rest, {'/', '?', '#'});
  }

  /** Cutting the fragment, then the query, off `path + tail` leaves `path`
      when `tail` is empty or starts either. */
  lemma CutQueryAndFragment(path: string, tail: string)
    requires forall i :: 0 <= i < |path| ==> path[i] != '?' && path[i] != '#'
    requires tail == [] || tail[0] == '?' || tail[0] == '#'
    ensures var noFragment := (path + tail)[..FirstOf(path + tail, {'#'})];
      noFragment[..FirstOf(noFragment, {'?'})] == path
  {
    FirstOfAfter(path, tail, {'#'});
    var k := FirstOf(tail, {'#'});
    var noFragment := (path + tail)[..FirstOf(path + tail, {'#'})];
    assert noFragment == path + tail[..k];
    FirstOfAfter(path, tail[..k], {'?'});
    assert FirstOf(tail[..k], {'?'}) == 0 by {
      if k > 0 { assert tail[..k][0] == tail[0] == '?'; }
    }
  }

  /** `Path(p).stem`. */
  function PathStem(p: string): string
  {
    PP.Stem(PP.Name(PP.Parse(p)))
  }

  /** Where the data is read from. */
  datatype Fetch =
    | ReadFile(path: string)               // `open(resource, 'rb')`
    | ReadUrl(url: string, verifySsl: bool) // `urlopen(file_uri, context=...)`

  /** `json.loads` with `OrderedDict` objects, or `ujson.loads`. */
  datatype Decoder = OrderedJson | PlainJson

  /** What `collect` reads and how it decodes it; `member` is the zip member
      read when `extract` is set. */
  datatype Plan = Plan(fetch: Fetch, member: Option<string>, encoding: string, decoder: Decoder)

  datatype JsonError = UnsupportedSchema(schema: string)

  /** The dispatch in `collect`. */
  function Dispatch(uri: string, encoding: string, ordered: bool, verifySsl: bool, extract: bool)
    : Result<Plan, JsonError>
  {
    var (scheme, resource) := SplitUri(uri);
    var decoder := if ordered then OrderedJson else PlainJson;
    if scheme == "file" then
      Ok(Plan(ReadFile(resource), if extract then Some(PathStem(resource)) else None, encoding, decoder))
    else if scheme == "http" || scheme == "https" then
      Ok(Plan(ReadUrl(uri, verifySsl), if extract then Some(PathStem(UrlPath(resource))) else None,
              encoding, decoder))
    else Err(UnsupportedSchema(scheme))
  }

  /** A URI without `://` is a path on disk, read whole. */
  lemma PlainPathIsFile(uri: string, encoding: string, ordered: bool, verifySsl: bool, extract: bool)
    requires forall i :: !OccursAt(uri, Separator, i)
    ensures var r := Dispatch(uri, encoding, ordered, verifySsl, extract);
      && r.Ok? && r.value.fetch == ReadFile(uri)
      && (r.value.member.Some? <==> extract)
      && (extract ==> r.value.member.value == PathStem(uri))
  {
  }

  /** Only `file`, `http` and `https` are accepted; any other scheme (the
      empty one included) is the error, carrying that scheme. `file` reads
      the resource, the web schemes fetch the whole URI with the configured
      SSL verification, and the decoder and encoding are the configured ones. */
  lemma DispatchMeaning(scheme: string, resource: string, encoding: string, ordered: bool,
                        verifySsl: bool, extract: bool)
    requires forall i :: !OccursAt(scheme, Separator, i)
    ensures var uri := scheme + Separator + resource;
      var r := Dispatch(uri, encoding, ordered, verifySsl, extract);
      && (r.Ok? <==> scheme in {"file", "http", "https"})
      && (r.Err? ==> r.error == UnsupportedSchema(scheme))
      && (scheme == "file" ==> r.Ok? && r.value.fetch == ReadFile(resource))
      && (scheme in {"http", "https"} ==> r.Ok? && r.value.fetch == ReadUrl(uri, verifySsl))
      && (r.Ok? ==> && r.value.encoding == encoding
                    && (r.value.decoder == OrderedJson <==> ordered)
                    && (r.value.member.Some? <==> extract))
      && (scheme == "file" && extract ==> r.value.member == Some(PathStem(resource)))
      && (scheme in {"http", "https"} && extract ==> r.value.member == Some(PathStem(UrlPath(resource))))
  {
    SplitUriOfJoin(scheme, resource);
  }

  /** A `file://` URI reads the path after the separator; with `extract`
      the member is that path's stem. */
  lemma FileUriDispatch(path: string, encoding: string, ordered: bool, verifySsl: bool, extract: bool)
    ensures Dispatch("file" + Separator + path, encoding, ordered, verifySsl, extract) ==
      Ok(Plan(ReadFile(path), if extract then Some(PathStem(path)) else None, encoding,
              if ordered then OrderedJson else PlainJson))
  {
    SchemeWithoutSeparator("file");
    SplitUriOfJoin("file", path);
  }

  /** With `extract`, an `https://host/path?query` URI reads the URL and
      names the zip member after the stem of the URL's path. */
  lemma HttpsUrlDispatch(host: string, path: string, tail: string, encoding: string, ordered: bool,
                         verifySsl: bool)
    requires forall i :: 0 <= i < |host| ==> host[i] != '/' && host[i] != '?' && host[i] != '#'
    requires path != [] && path[0] == '/'
    requires forall i :: 0 <= i < |path| ==> path[i] != '?' && path[i] != '#' && path[i] != ';'
    requires tail == [] || tail[0] == '?' || tail[0] == '#'
    ensures var uri := "https" + Separator + (host + path + tail);
      Dispatch(uri, encoding, ordered, verifySsl, true) ==
        Ok(Plan(ReadUrl(uri, verifySsl), Some(PathStem(path)), encoding,
                if ordered then OrderedJson else PlainJson))
  {
    SchemeWithoutSeparator("https");
    DispatchMeaning("https", host + path + tail, encoding, ordered, verifySsl, true);
    UrlPathOfParts(host, path, tail);
  }

  /** `://x` has the empty scheme, which is rejected. */
  lemma EmptySchemeRejected(resource: string, encoding: string, ordered: bool, verifySsl: bool, extract: bool)
    ensures Dispatch(Separator + resource, encoding, ordered, verifySsl, extract) == Err(UnsupportedSchema(""))
  {
    DispatchMeaning("", resource, encoding, ordered, verifySsl, extract);
    assert "" + Separator + resource == Separator + resource;
  }
}
