/** The Google Test source: it turns the parsed XML report of a test run
    (`testsuites` holding `testsuite` elements holding `testcase` elements)
    into nested data, classifying every test case as PASS, FAIL or SKIP and
    counting the passing cases per suite and overall.

    The XML tree is the `Element` datatype, already parsed. Python's `int`
    and `float` applied to attribute text are the `Parsers` oracles. */
module GTest {

  import opened Wrappers
  import opened Values
  import OM = OrderedMaps
  import KL = KeyedLoops

  datatype Element = Element(tag: string, attrib: map<string, string>, children: seq<Element>, text: Option<string>)

  /** `int(s)` and `float(s)`: `None` where Python raises `ValueError`. */
  datatype Parsers = Parsers(parseInt: string -> Option<int>, parseFloat: string -> Option<real>)

  /** The cast applied to one spec attribute: `int`, `float` or `str`. */
  datatype Cast = IntCast | FloatCast | StrCast

  datatype Status = Pass | Fail | Skip

  datatype GTestError =
    | FileNotFound                         // the XML file does not exist
    | Malformed(expected: string)          // an AssertionError on an element's tag
    | MissingAttribute(key: string)        // a KeyError on the attribute map
    | BadNumber(key: string, text: string) // a ValueError from int or float

  /** What `element_to_dict` returns besides the name: the cast spec
      attributes, and the remaining attributes when there are any. */
  datatype Fields = Fields(data: map<string, Value>, properties: Option<map<string, Value>>)

  /** A case's properties: the leftover attributes, or else the name/value
      pairs of its nested `<properties><property>` elements, where a missing
      `name` or `value` attribute gives `None`. */
  datatype CaseProperties =
    | Attributes(attrs: map<string, Value>)
    | Nested(pairs: map<Option<string>, Option<string>>)

  datatype CaseReport = CaseReport(time: Value, status: Status, properties: CaseProperties,
                                   failures: Option<seq<Option<string>>>)

  datatype SuiteReport = SuiteReport(fields: Fields, cases: OM.OMap<string, CaseReport>, passed: nat)

  datatype Report = Report(fields: Fields, suites: OM.OMap<string, SuiteReport>, passed: nat)

  const TopSpec: seq<(string, Cast)> :=
    [("tests", IntCast), ("failures", IntCast), ("disabled", IntCast), ("errors", IntCast),
     ("timestamp", StrCast), ("time", FloatCast)]
  const SuiteSpec: seq<(string, Cast)> :=
    [("tests", IntCast), ("failures", IntCast), ("disabled", IntCast), ("errors", IntCast),
     ("time", FloatCast)]
  const CaseSpec: seq<(string, Cast)> := [("status", StrCast), ("time", FloatCast)]

  const DisabledPrefix: string := "DISABLED_"

  /** `trycast`: the integer reading if there is one, else the floating
      point reading if there is one, else the text itself. */
  function TryCast(p: Parsers, s: string): (r: Value)
    ensures r.Int? <==> p.parseInt(s).Some?
    ensures r.Int? ==> r.i == p.parseInt(s).value
    ensures r.Float? <==> p.parseInt(s).None? && p.parseFloat(s).Some?
    ensures r.Float? ==> r.f == p.parseFloat(s).value
    ensures r.Int? || r.Float? || r == Str(s)
  {
    match p.parseInt(s)
    case Some(i) => Int(i)
    case None =>
      match p.parseFloat(s)
      case Some(f) => Float(f)
      case None => Str(s)
  }

  function ApplyCast(p: Parsers, c: Cast, s: string): Option<Value>
  {
    match c
    case IntCast => (match p.parseInt(s) case Some(i) => Some(Int(i)) case None => None)
    case FloatCast => (match p.parseFloat(s) case Some(f) => Some(Float(f)) case None => None)
    case StrCast => Some(Str(s))
  }

  /** The exception reading one spec attribute raises, if any. */
  function FieldError(p: Parsers, attrib: map<string, string>, field: (string, Cast)): Option<GTestError>
  {
    if field.0 !in attrib then Some(MissingAttribute(field.0))
    else if ApplyCast(p, field.1, attrib[field.0]).None? then Some(BadNumber(field.0, attrib[field.0]))
    else None
  }

  function SpecKeys(spec: seq<(string, Cast)>): set<string>
  {
    set i | 0 <= i < |spec| :: spec[i].0
  }

  /** The dictionary comprehension over the spec, added to `acc`, in spec
      order; the first attribute that is missing or does not cast raises. */
  function CastFields(p: Parsers, attrib: map<string, string>, spec: seq<(string, Cast)>,
                      acc: map<string, Value>): Result<map<string, Value>, GTestError>
    decreases |spec|
  {
    if spec == [] then Ok(acc)
    else match FieldError(p, attrib, spec[0])
      case Some(e) => Err(e)
      case None => CastFields(p, attrib, spec[1..], acc[spec[0].0 := ApplyCast(p, spec[0].1, attrib[spec[0].0]).value])
  }

  /** Reading the spec fails iff some field fails, and then with the error of
      the first failing field; otherwise every spec key holds its cast value
      (the last field of a key wins) and nothing else is added. */
  lemma {:induction false} CastFieldsMeaning(p: Parsers, attrib: map<string, string>, spec: seq<(string, Cast)>,
                                             acc: map<string, Value>)
    ensures var r := CastFields(p, attrib, spec, acc);
      && (r.Ok? <==> forall i :: 0 <= i < |spec| ==> FieldError(p, attrib, spec[i]).None?)
      && (r.Err? ==> exists i :: (0 <= i < |spec| && FieldError(p, attrib, spec[i]) == Some(r.error) &&
            forall j :: 0 <= j < i ==> FieldError(p, attrib, spec[j]).None?))
      && (r.Ok? ==> r.value.Keys == acc.Keys + SpecKeys(spec))
      && (r.Ok? ==> forall k :: k in acc && k !in SpecKeys(spec) ==> r.value[k] == acc[k])
      && (r.Ok? ==> forall i :: 0 <= i < |spec| && (forall j :: i < j < |spec| ==> spec[j].0 != spec[i].0) ==>
            Some(r.value[spec[i].0]) == ApplyCast(p, spec[i].1, attrib[spec[i].0]))
    decreases |spec|
  {
    if spec != [] {
      var rest := spec[1..];
      assert forall i :: 0 <= i < |rest| ==> rest[i] == spec[i + 1];
      assert SpecKeys(spec) == {spec[0].0} + SpecKeys(rest) by {
        forall k | k in SpecKeys(spec) ensures k in {spec[0].0} + SpecKeys(rest) {
          var i :| 0 <= i < |spec| && spec[i].0 == k;
          if i > 0 { assert rest[i - 1] == spec[i]; }
        }
      }
      if FieldError(p, attrib, spec[0]).None? {
        var acc' := acc[spec[0].0 := ApplyCast(p, spec[0].1, attrib[spec[0].0]).value];
        CastFieldsMeaning(p, attrib, rest, acc');
        var r := CastFields(p, attrib, spec, acc);
        if r.Err? {
          var i :| 0 <= i < |rest| && FieldError(p, attrib, rest[i]) == Some(r.error) &&
            forall j :: 0 <= j < i ==> FieldError(p, attrib, rest[j]).None?;
          assert FieldError(p, attrib, spec[i + 1]) == Some(r.error);
          forall j | 0 <= j < i + 1 ensures FieldError(p, attrib, spec[j]).None? {
            if j > 0 { assert spec[j] == rest[j - 1]; }
          }
        }
        if r.Ok? {
          forall i | 0 <= i < |spec| && (forall j :: i < j < |spec| ==> spec[j].0 != spec[i].0)
            ensures Some(r.value[spec[i].0]) == ApplyCast(p, spec[i].1, attrib[spec[i].0])
          {
            if i > 0 {
              assert spec[i] == rest[i - 1];
              forall j | i - 1 < j < |rest| ensures rest[j].0 != rest[i - 1].0 {
                assert rest[j] == spec[j + 1];
              }
            } else {
              assert spec[0].0 !in SpecKeys(rest);
              assert FieldError(p, attrib, spec[0]).None?;
            }
          }
        }
        if !(forall i :: 0 <= i < |spec| ==> FieldError(p, attrib, spec[i]).None?) {
          var i :| 0 <= i < |spec| && FieldError(p, attrib, spec[i]).Some?;
          assert spec[i] == rest[i - 1];
        }
      }
    }
  }

  /** `element_to_dict(element, spec)`: pops `name` off the attributes,
      reads the spec attributes, and collects what is left over. */
  function ElementToDict(p: Parsers, attrib: map<string, string>, spec: seq<(string, Cast)>)
    : Result<(string, Fields), GTestError>
  {
    if "name" !in attrib then Err(MissingAttribute("name"))
    else
      var rest := attrib - {"name"};
      match CastFields(p, rest, spec, map[])
      case Err(e) => Err(e)
      case Ok(data) =>
        var leftovers := rest.Keys - data.Keys;
        Ok((attrib["name"], Fields(data, if leftovers == {} then None
                                         else Some(map k | k in leftovers :: TryCast(p, rest[k])))))
  }

  /** `name` is returned and never kept as data or property; the data are
      exactly the spec attributes with their casts; the properties are
      present iff some other attribute is left, and then hold exactly those
      attributes passed through `trycast`. Failure means a missing `name`, or
      the first failing spec field. */
  lemma ElementToDictMeaning(p: Parsers, attrib: map<string, string>, spec: seq<(string, Cast)>)
    requires "name" !in SpecKeys(spec)
    ensures var r := ElementToDict(p, attrib, spec);
      var rest := attrib - {"name"};
      && (r.Ok? <==> "name" in attrib && forall i :: 0 <= i < |spec| ==> FieldError(p, rest, spec[i]).None?)
      && ("name" !in attrib ==> r == Err(MissingAttribute("name")))
      && (r.Ok? ==>
            && r.value.0 == attrib["name"]
            && r.value.1.data.Keys == SpecKeys(spec)
            && (forall i :: 0 <= i < |spec| && (forall j :: i < j < |spec| ==> spec[j].0 != spec[i].0) ==>
                  Some(r.value.1.data[spec[i].0]) == ApplyCast(p, spec[i].1, attrib[spec[i].0]))
            && (r.value.1.properties.Some? <==> attrib.Keys - {"name"} - SpecKeys(spec) != {})
            && (r.value.1.properties.Some? ==>
                  && r.value.1.properties.value.Keys == attrib.Keys - {"name"} - SpecKeys(spec)
                  && forall k :: k in r.value.1.properties.value ==>
                       r.value.1.properties.value[k] == TryCast(p, attrib[k])))
  {
    CastFieldsMeaning(p, attrib - {"name"}, spec, map[]);
  }

  /** The texts of the `failure` children, in order. */
  function Failures(children: seq<Element>): (r: seq<Option<string>>)
    ensures r == [] <==> forall i :: 0 <= i < |children| ==> children[i].tag != "failure"
  {
    if children == [] then []
    else
      var rest := Failures(children[1..]);
      assert forall i :: 1 <= i < |children| ==> children[i] == children[1..][i - 1];
      if children[0].tag == "failure" then [children[0].text] + rest else rest
  }

  /** The name/value pairs of the `property` children of one element, added
      in order, later names replacing earlier ones. */
  function PropertyPairs(props: seq<Element>, acc: map<Option<string>, Option<string>>)
    : map<Option<string>, Option<string>>
    decreases |props|
  {
    if props == [] then acc
    else
      var e := props[0];
      var next := if e.tag == "property" then
        acc[(if "name" in e.attrib then Some(e.attrib["name"]) else None) :=
            (if "value" in e.attrib then Some(e.attrib["value"]) else None)]
      else acc;
      PropertyPairs(props[1..], next)
  }

  /** The pairs of every `properties` child, in order. */
  function NestedProperties(children: seq<Element>, acc: map<Option<string>, Option<string>>)
    : map<Option<string>, Option<string>>
    decreases |children|
  {
    if children == [] then acc
    else
      var next := if children[0].tag == "properties" then PropertyPairs(children[0].children, acc) else acc;
      NestedProperties(children[1..], next)
  }

  predicate HasDisabledPrefix(name: string)
  {
    |name| >= |DisabledPrefix| && name[..|DisabledPrefix|] == DisabledPrefix
  }

  /** One pass of the innermost loop of `collect`: the key and the data of
      one test case. */
  function CaseEntry(p: Parsers, e: Element): Result<(string, CaseReport), GTestError>
  {
    if e.tag != "testcase" then Err(Malformed("testcase"))
    else if "classname" !in e.attrib then Err(MissingAttribute("classname"))
    else match ElementToDict(p, e.attrib - {"classname"}, CaseSpec)
      case Err(err) => Err(err)
      case Ok((name, fields)) =>
        if "time" !in fields.data then Err(MissingAttribute("time"))
        else
          var props := match fields.properties
            case Some(attrs) => Attributes(attrs)
            case None => Nested(NestedProperties(e.children, map[]));
          var failures := Failures(e.children);
          if failures != [] then Ok((name, CaseReport(fields.data["time"], Fail, props, Some(failures))))
          else if HasDisabledPrefix(name) then
            Ok((name[|DisabledPrefix|..], CaseReport(fields.data["time"], Skip, props, None)))
          else Ok((name, CaseReport(fields.data["time"], Pass, props, None)))
  }

  /** The reference classification: a case passes iff it has no `failure`
      child and its name does not start with `DISABLED_`. */
  predicate Passing(e: Element)
  {
    && "name" in e.attrib
    && (forall i :: 0 <= i < |e.children| ==> e.children[i].tag != "failure")
    && !HasDisabledPrefix(e.attrib["name"])
  }

  /** A test case yields an entry iff its tag is `testcase` and it has
      `classname`, `name`, `status` and a `time` that parses; `classname` is
      dropped. FAIL iff some `failure` child exists (with their texts as the
      failures, the name kept as it is, `DISABLED_` or not); otherwise SKIP
      with the prefix stripped from the key iff the name is disabled;
      otherwise PASS. Leftover attributes win over nested properties. */
  lemma CaseEntryMeaning(p: Parsers, e: Element)
    ensures var r := CaseEntry(p, e);
      var attrib := e.attrib - {"classname"};
      && (r.Ok? <==> (e.tag == "testcase" && "classname" in e.attrib && "name" in e.attrib &&
            "status" in attrib && "time" in attrib && p.parseFloat(attrib["time"]).Some?))
      && (r.Ok? ==>
            var name := e.attrib["name"];
            var c := r.value.1;
            && c.time == Float(p.parseFloat(attrib["time"]).value)
            && (c.status == Fail <==> exists i :: 0 <= i < |e.children| && e.children[i].tag == "failure")
            && (c.status == Fail ==> r.value.0 == name && c.failures == Some(Failures(e.children)))
            && (c.status == Skip <==> !c.status.Fail? && HasDisabledPrefix(name))
            && (c.status == Skip ==> r.value.0 == name[9..] && c.failures.None?)
            && (c.status == Pass <==> Passing(e))
            && (c.status == Pass ==> r.value.0 == name && c.failures.None?)
            && (c.properties.Attributes? <==> attrib.Keys - {"name", "status", "time"} != {})
            && (c.properties.Attributes? ==> c.properties.attrs.Keys == e.attrib.Keys - {"classname", "name", "status", "time"})
            && (c.properties.Nested? ==> c.properties.pairs == NestedProperties(e.children, map[])))
  {
    var attrib := e.attrib - {"classname"};
    assert SpecKeys(CaseSpec) == {"status", "time"} by {
      assert CaseSpec[0].0 == "status" && CaseSpec[1].0 == "time";
    }
    ElementToDictMeaning(p, attrib, CaseSpec);
    if e.tag == "testcase" && "classname" in e.attrib && "name" in e.attrib {
      var rest := attrib - {"name"};
      assert FieldError(p, rest, CaseSpec[0]).None? <==> "status" in attrib;
      assert FieldError(p, rest, CaseSpec[1]).None? <==> "time" in attrib && p.parseFloat(attrib["time"]).Some?;
    }
  }

  /** What one passing entry adds to `passed`: one for a PASS case. */
  function CaseCount(c: CaseReport): nat
  {
    if c.status == Pass then 1 else 0
  }

  /** What one suite adds to the top-level `passed`: its own `passed`. */
  function SuiteCount(s: SuiteReport): nat
  {
    s.passed
  }

  /** One pass of the innermost loop, as a function of the case element. */
  function CaseStep(p: Parsers): Element -> Result<(string, CaseReport), GTestError>
  {
    e => CaseEntry(p, e)
  }

  /** One pass of the middle loop of `collect`: the name and data of a suite,
      after the loop over its cases. */
  function SuiteEntry(p: Parsers, e: Element): Result<(string, SuiteReport), GTestError>
  {
    if e.tag != "testsuite" then Err(Malformed("testsuite"))
    else
      var suite := ElementToDict(p, e.attrib, SuiteSpec);
      if suite.Err? then Err(suite.error)
      else
        var cases := KL.Fold(e.children, CaseStep(p), CaseCount, |e.children|);
        if cases.Err? then Err(cases.error)
        else Ok((suite.value.0, SuiteReport(suite.value.1, cases.value.0, cases.value.1)))
  }

  /** One pass of the outer loop, as a function of the suite element. */
  function SuiteStep(p: Parsers): Element -> Result<(string, SuiteReport), GTestError>
  {
    e => SuiteEntry(p, e)
  }

  /** `GTestSource.collect` on an already parsed tree; `fileExists` is what
      `Path.is_file` said about the configured path. */
  function CollectSpec(p: Parsers, fileExists: bool, root: Element): Result<Report, GTestError>
  {
    if !fileExists then Err(FileNotFound)
    else if root.tag != "testsuites" then Err(Malformed("testsuites"))
    else
      var top := ElementToDict(p, root.attrib, TopSpec);
      if top.Err? then Err(top.error)
      else
        var suites := KL.Fold(root.children, SuiteStep(p), SuiteCount, |root.children|);
        if suites.Err? then Err(suites.error)
        else Ok(Report(top.value.1, suites.value.0, suites.value.1))
  }

  /** One pass of the outer loop of `collect`: the suite element's tag and
      attributes, then the loop over its cases. */
  method CollectSuite(p: Parsers, child: Element) returns (r: Result<(string, SuiteReport), GTestError>)
    ensures r == SuiteEntry(p, child)
  {
    if child.tag != "testsuite" {
      return Err(Malformed("testsuite"));
    }
    var suite := ElementToDict(p, child.attrib, SuiteSpec);
    if suite.Err? {
      return Err(suite.error);
    }
    var cases := KL.Loop(child.children, CaseStep(p), CaseCount);
    if cases.Err? {
      return Err(cases.error);
    }
    var (suitename, fields) := suite.value;
    return Ok((suitename, SuiteReport(fields, cases.value.0, cases.value.1)));
  }

  /** `GTestSource.collect`: the outer loop over suites, each running the
      loop over its cases. */
  method Collect(p: Parsers, fileExists: bool, root: Element) returns (r: Result<Report, GTestError>)
    ensures r == CollectSpec(p, fileExists, root)
  {
    if !fileExists {
      return Err(FileNotFound);
    }
    if root.tag != "testsuites" {
      return Err(Malformed("testsuites"));
    }
    var top := ElementToDict(p, root.attrib, TopSpec);
    if top.Err? {
      return Err(top.error);
    }
    var suites := KL.Loop(root.children, SuiteStep(p), SuiteCount);
    if suites.Err? {
      return Err(suites.error);
    }
    return Ok(Report(top.value.1, suites.value.0, suites.value.1));
  }

  /** The number of passing cases among `children`. */
  function CountPassing(children: seq<Element>): nat
  {
    if children == [] then 0
    else CountPassing(children[..|children| - 1]) + (if Passing(children[|children| - 1]) then 1 else 0)
  }

  /** The number of passing cases over all suites. */
  function TotalPassing(suites: seq<Element>): nat
  {
    if suites == [] then 0
    else TotalPassing(suites[..|suites| - 1]) + CountPassing(suites[|suites| - 1].children)
  }

  /** After `n` passes of a suite's loop, `passed` is the number of passing
      cases among the first `n` case elements. */
  lemma {:induction false} CasesCountPassing(p: Parsers, children: seq<Element>, n: nat)
    requires n <= |children|
    ensures var r := KL.Fold(children, CaseStep(p), CaseCount, n);
      r.Ok? ==> r.value.1 == CountPassing(children[..n])
  {
    if n > 0 {
      CasesCountPassing(p, children, n - 1);
      CaseEntryMeaning(p, children[n - 1]);
      assert CaseStep(p)(children[n - 1]) == CaseEntry(p, children[n - 1]);
      assert children[..n][..n - 1] == children[..n - 1];
    }
  }

  /** A suite's `passed` is its number of passing case elements. */
  lemma SuiteEntryPassed(p: Parsers, e: Element)
    ensures SuiteEntry(p, e).Ok? ==> SuiteEntry(p, e).value.1.passed == CountPassing(e.children)
  {
    CasesCountPassing(p, e.children, |e.children|);
    assert e.children[..|e.children|] == e.children;
  }

  /** After `n` passes of the outer loop, the top-level `passed` is the number
      of passing cases in the first `n` suites. */
  lemma {:induction false} SuitesCountPassing(p: Parsers, children: seq<Element>, n: nat)
    requires n <= |children|
    ensures var r := KL.Fold(children, SuiteStep(p), SuiteCount, n);
      r.Ok? ==> r.value.1 == TotalPassing(children[..n])
  {
    if n > 0 {
      SuitesCountPassing(p, children, n - 1);
      SuiteEntryPassed(p, children[n - 1]);
      assert SuiteStep(p)(children[n - 1]) == SuiteEntry(p, children[n - 1]);
      assert children[..n][..n - 1] == children[..n - 1];
    }
  }

  /** The tree shape `collect` accepts: every case element is a `testcase`
      with `classname` and `name`. */
  predicate WellFormedCases(children: seq<Element>)
  {
    forall i :: 0 <= i < |children| ==>
      children[i].tag == "testcase" && "classname" in children[i].attrib && "name" in children[i].attrib
  }

  predicate WellFormedSuites(children: seq<Element>)
  {
    forall i :: 0 <= i < |children| ==>
      children[i].tag == "testsuite" && "name" in children[i].attrib && WellFormedCases(children[i].children)
  }

  lemma SuiteEntryWellFormed(p: Parsers, e: Element)
    ensures SuiteEntry(p, e).Ok? ==> e.tag == "testsuite" && "name" in e.attrib && WellFormedCases(e.children)
  {
    KL.FoldOutcome(e.children, CaseStep(p), CaseCount, |e.children|);
    if SuiteEntry(p, e).Ok? {
      forall i | 0 <= i < |e.children|
        ensures e.children[i].tag == "testcase" && "classname" in e.children[i].attrib && "name" in e.children[i].attrib
      {
        assert CaseStep(p)(e.children[i]).Ok?;
        CaseEntryMeaning(p, e.children[i]);
      }
    }
  }

  /** When `collect` succeeds the file existed, the tree has the
      testsuites/testsuite/testcase shape, and the overall `passed` is the
      number of passing cases in the whole tree. */
  lemma CollectMeaning(p: Parsers, fileExists: bool, root: Element)
    ensures var r := CollectSpec(p, fileExists, root);
      r.Ok? ==>
        && fileExists && root.tag == "testsuites" && "name" in root.attrib
        && WellFormedSuites(root.children)
        && r.value.passed == TotalPassing(root.children)
  {
    KL.FoldOutcome(root.children, SuiteStep(p), SuiteCount, |root.children|);
    SuitesCountPassing(p, root.children, |root.children|);
    assert root.children[..|root.children|] == root.children;
    if CollectSpec(p, fileExists, root).Ok? {
      forall i | 0 <= i < |root.children|
        ensures root.children[i].tag == "testsuite" && "name" in root.children[i].attrib &&
          WellFormedCases(root.children[i].children)
      {
        assert SuiteStep(p)(root.children[i]).Ok?;
        SuiteEntryWellFormed(p, root.children[i]);
      }
    }
  }
}
