/** The part of Python's `pathlib.PurePosixPath` that the archive sink and the
    JSON source rely on: parsing a path string, rendering it back, `name`,
    `parent`, `suffix`, `stem` and joining one component with `/`. */
module PurePaths {

  import opened Wrappers
  import opened Strings

  /** A path is absolute or relative and has a list of components; parsing
      drops empty components and `.` components, as pathlib does. */
  datatype Path = Path(absolute: bool, parts: seq<string>)

  /** A component that parsing can produce. */
  predicate IsComponent(c: string)
  {
    c != "" && c != "." && '/' !in c
  }

  predicate Normal(p: Path)
  {
    forall i :: 0 <= i < |p.parts| ==> IsComponent(p.parts[i])
  }

  function Components(raw: seq<string>): (r: seq<string>)
    ensures forall i :: 0 <= i < |r| ==> r[i] != "" && r[i] != "."
    ensures forall i :: 0 <= i < |r| ==> r[i] in raw
  {
    if raw == [] then []
    else
      var rest := Components(raw[1..]);
      if raw[0] == "" || raw[0] == "." then rest else [raw[0]] + rest
  }

  lemma {:induction false} ComponentsOfComponents(raw: seq<string>)
    requires forall i :: 0 <= i < |raw| ==> raw[i] != "" && raw[i] != "."
    ensures Components(raw) == raw
  {
    if raw != [] {
      ComponentsOfComponents(raw[1..]);
      assert [raw[0]] + raw[1..] == raw;
    }
  }

  /** `PurePosixPath(s)`. */
  function Parse(s: string): (p: Path)
    ensures Normal(p)
  {
    var raw := Split(s, '/');
    var parts := Components(raw);
    assert forall i :: 0 <= i < |parts| ==> '/' !in parts[i] by {
      SplitPartsHaveNoSeparator(s, '/');
    }
    Path(|s| > 0 && s[0] == '/', parts)
  }

  lemma {:induction false} SplitPartsHaveNoSeparator(s: string, sep: char)
    ensures forall i :: 0 <= i < |Split(s, sep)| ==> sep !in Split(s, sep)[i]
  {
    if s != [] {
      SplitPartsHaveNoSeparator(s[1..], sep);
    }
  }

  /** `str(p)`: the empty relative path is written `.`. */
  function Render(p: Path): string
  {
    if p.absolute then "/" + Join(p.parts, '/')
    else if p.parts == [] then "."
    else Join(p.parts, '/')
  }

  /** Rendering a parsed path and parsing it again gives the same path. */
  lemma RenderParse(p: Path)
    requires Normal(p)
    ensures Parse(Render(p)) == p
  {
    if p.parts == [] {
      if p.absolute {
        assert Render(p) == "/" + "";
        assert Split("/", '/') == [""] + Split("", '/');
      } else {
        SplitWithoutSeparator(".", '/');
      }
    } else {
      SplitJoin(p.parts, '/');
      ComponentsOfComponents(p.parts);
      if p.absolute {
        SplitAtSeparator("", '/', Join(p.parts, '/'));
        assert "" + ['/'] + Join(p.parts, '/') == Render(p);
        assert Components([""] + p.parts) == Components(p.parts);
      } else {
        assert Join(p.parts, '/')[0] != '/' by {
          JoinStartsWithFirst(p.parts, '/');
        }
      }
    }
  }

  lemma {:induction false} JoinStartsWithFirst(parts: seq<string>, sep: char)
    requires parts != [] && parts[0] != ""
    ensures |Join(parts, sep)| > 0 && Join(parts, sep)[0] == parts[0][0]
  {
  }

  /** A single component parses to the relative path of that component. */
  lemma ParseComponent(c: string)
    requires IsComponent(c)
    ensures Parse(c) == Path(false, [c])
  {
    SplitWithoutSeparator(c, '/');
    assert Components([c]) == [c] + Components([]);
  }

  /** `p.name`: the last component, or the empty string. */
  function Name(p: Path): string
  {
    if p.parts == [] then "" else p.parts[|p.parts| - 1]
  }

  /** `p.parent`: the path without its last component (the root and `.` are
      their own parents). */
  function Parent(p: Path): Path
  {
    if p.parts == [] then p else p.(parts := p.parts[..|p.parts| - 1])
  }

  /** `p / c` for one component `c`. */
  function Child(p: Path, c: string): Path
  {
    p.(parts := p.parts + [c])
  }

  /** `name.rfind('.')`, as an index, or `None` for -1. */
  function LastDot(name: string): (r: Option<nat>)
    ensures r.Some? ==> r.value < |name| && name[r.value] == '.'
    ensures r.Some? ==> forall i :: r.value < i < |name| ==> name[i] != '.'
    ensures r.None? ==> '.' !in name
    ensures forall i :: 0 <= i < |name| && name[i] == '.' ==> r.Some? && i <= r.value
  {
    if name == [] then None
    else if name[|name| - 1] == '.' then Some(|name| - 1)
    else
      var r := LastDot(name[..|name| - 1]);
      assert forall i :: 0 <= i < |name| - 1 ==> name[..|name| - 1][i] == name[i];
      r
  }

  /** The index of the dot that starts the suffix: the last dot, provided it
      is neither the first nor the last character of the name. */
  function SuffixDot(name: string): Option<nat>
  {
    match LastDot(name)
    case Some(i) => if 0 < i < |name| - 1 then Some(i) else None
    case None => None
  }

  /** `p.suffix` for a path whose name is `name`. */
  function Suffix(name: string): (r: string)
    ensures r == "" || (r[0] == '.' && '.' !in r[1..])
    ensures r != "" <==> exists i :: 0 < i < |name| - 1 && name[i] == '.' && '.' !in name[i + 1..]
    ensures |r| <= |name|
    ensures r != "" ==> |r| >= 2 && r == name[|name| - |r|..]
  {
    match SuffixDot(name)
    case Some(i) =>
      var after := name[i + 1..];
      assert forall j :: 0 <= j < |after| ==> after[j] == name[i + 1 + j];
      name[i..]
    case None =>
      assert forall i :: 0 < i < |name| - 1 && name[i] == '.' ==> '.' in name[i + 1..] by {
        forall i | 0 < i < |name| - 1 && name[i] == '.'
          ensures '.' in name[i + 1..]
        {
          var j := LastDot(name).value;
          assert name[i + 1..][j - i - 1] == name[j];
        }
      }
      ""
  }

  /** `p.stem` for a path whose name is `name`. */
  function Stem(name: string): (r: string)
    ensures r + Suffix(name) == name
  {
    match SuffixDot(name)
    case Some(i) => name[..i]
    case None => name
  }

  /** Appending a suffix such as `.zip` to a non-empty name makes it the
      suffix, and the name the stem. */
  lemma SuffixOfAppended(name: string, suffix: string)
    requires name != "" && |suffix| >= 2 && suffix[0] == '.' && '.' !in suffix[1..]
    ensures Suffix(name + suffix) == suffix
    ensures Stem(name + suffix) == name
  {
    var s := name + suffix;
    assert s[|name|] == '.';
    assert forall i :: |name| < i < |s| ==> s[i] == suffix[1..][i - |name| - 1];
    var r := LastDot(s);
    assert r == Some(|name|);
    assert s[|name|..] == suffix;
  }
}
