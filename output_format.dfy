/** The discovery output of `testing_tools/adapter/output_format.py`: the
    record for one discovered test, and the lists `serialize_discovered`
    collects through its callbacks.

    A JSON value is `Json`; an object is a map from its keys to its values.
    The tree walk itself (`serialize_discovered_folder` and its helpers) has
    no body in the source, so the callbacks it makes are given as a sequence
    of events together with the value it returns. */
module OutputFormat {
  import opened Wrappers
  import opened Text
  import opened TestResults

  datatype Json =
    | JNull
    | JInt(i: int)
    | JStr(s: string)
    | JArray(items: seq<Json>)
    | JObject(fields: map<string, Json>)

  /** `obj[key]`, or `None` when the key is absent or `obj` is no object. */
  function Lookup(obj: Json, key: string): (r: Option<Json>)
    ensures r.Some? <==> obj.JObject? && key in obj.fields
    ensures r.Some? ==> r.value == obj.fields[key]
  {
    if obj.JObject? && key in obj.fields then Some(obj.fields[key]) else None
  }

  /** The empty dict `{}`. */
  const EmptyObject: Json := JObject(map[])

  /** `qualname.rpartition('.')[-1]`: the text after the last dot, or the
      whole name when it has none. */
  function LastComponent(qualname: string): (r: string)
    ensures '.' !in r
    ensures EndsWith(qualname, r)
    ensures '.' in qualname ==> |r| < |qualname| && qualname[|qualname| - |r| - 1] == '.'
    ensures '.' !in qualname ==> r == qualname
  {
    match LastIndexOf(qualname, '.')
    case None =>
      assert EndsWith(qualname, qualname) by {
        assert qualname[0..] == qualname;
      }
      qualname
    case Some(i) =>
      assert qualname[i] == '.';
      qualname[i + 1..]
  }

  /** The keys of a serialised test differ from each other. */
  lemma TestKeysDistinct()
    ensures "name" != "time"
    ensures "file" != "name" && "file" != "time" && "line" != "name" && "line" != "time" && "line" != "file"
  {
    assert "name"[0] != "time"[0];
    assert "file"[0] != "name"[0] && "file"[0] != "time"[0] && "line"[0] != "name"[0];
    assert "line"[0] != "time"[0] && "line"[0] != "file"[0];
  }

  /** `serialize_discovered_test(test, timestamp)`: the last component of
      the name and the timestamp always, the file and the line only when
      they are truthy, and nothing else. */
  function SerializeDiscoveredTest(test: Test, timestamp: int): (r: Json)
    ensures r.JObject?
    ensures Lookup(r, "name") == Some(JStr(LastComponent(test.qualname)))
    ensures Lookup(r, "time") == Some(JInt(timestamp))
    ensures Lookup(r, "file").Some? <==> FilenameTruthy(test.filename)
    ensures FilenameTruthy(test.filename) ==> Lookup(r, "file") == Some(JStr(test.filename.value))
    ensures Lookup(r, "line").Some? <==> LinenoTruthy(test.lineno)
    ensures LinenoTruthy(test.lineno) ==> Lookup(r, "line") == Some(JInt(test.lineno.value))
    ensures forall k :: k in r.fields ==> k in ["name", "time", "file", "line"]
  {
    TestKeysDistinct();
    var base := map["name" := JStr(LastComponent(test.qualname)), "time" := JInt(timestamp)];
    var withFile := if FilenameTruthy(test.filename) then base["file" := JStr(test.filename.value)] else base;
    JObject(if LinenoTruthy(test.lineno) then withFile["line" := JInt(test.lineno.value)] else withFile)
  }

  /** A test added by `add_test(name)` is serialised under that name, as long
      as the name itself has no dot. */
  lemma SerializedNameOfAddedTest(parent: string, name: string, filename: Option<string>, lineno: Option<int>, timestamp: int)
    requires '.' !in name
    ensures Lookup(SerializeDiscoveredTest(Test(Qualify(parent, name), filename, lineno), timestamp), "name")
      == Some(JStr(name))
  {
    var q := Qualify(parent, name);
    var r := LastComponent(q);
    var n := |q|;
    assert q == parent + "." + name;
    assert q[|parent|] == '.';
    assert '.' in q;
    assert q[n - |r|..] == r;
    if |r| < |name| {
      assert false;
    } else if |r| > |name| {
      assert false;
    }
    assert q[n - |name|..] == name;
  }

  /** One callback made by the tree walk. */
  datatype Callback =
    | OnFolder(data: Json)
    | OnFile(data: Json)
    | OnSuite(data: Json, filedata: Json)
    | OnTest(data: Json, suitedata: Json, filedata: Json)

  datatype Collected = Collected(files: seq<Json>, folders: seq<Json>, suites: seq<Json>, functions: seq<Json>)

  const MISSING_NAME := "KeyError: 'name'"

  /** The keys of the suite and test records differ from each other. */
  lemma EntryKeysDistinct()
    ensures "testSuite" != "parentTestFile" && "testSuite" != "xmlClassName" && "parentTestFile" != "xmlClassName"
    ensures "testFunction" != "parentTestFile" && "parentTestSuite" != "testFunction" && "xmlClassName" != "testFunction"
    ensures "parentTestSuite" != "parentTestFile"
  {
    assert "testSuite"[0] != "parentTestFile"[0] && "testSuite"[0] != "xmlClassName"[0];
    assert "parentTestFile"[0] != "xmlClassName"[0];
    assert "testFunction"[0] != "parentTestFile"[0] && "xmlClassName"[0] != "testFunction"[0];
    assert "parentTestSuite"[0] != "testFunction"[0];
    assert "parentTestSuite"[10] != "parentTestFile"[10];
  }

  /** `on_suite`'s record: `data['name']` raises when the key is missing. */
  function SuiteEntry(data: Json, filedata: Json): (r: Result<Json>)
    ensures r.Err? <==> Lookup(data, "name").None?
    ensures r.Ok? ==>
      && Lookup(r.value, "testSuite") == Some(data)
      && Lookup(r.value, "parentTestFile") == Some(filedata)
      && Lookup(r.value, "xmlClassName") == Lookup(data, "name")
  {
    match Lookup(data, "name")
    case None => Err(MISSING_NAME)
    case Some(name) =>
      EntryKeysDistinct();
      Ok(JObject(map["testSuite" := data, "parentTestFile" := filedata, "xmlClassName" := name]))
  }

  /** `on_test`'s record; the suite data is not recorded. */
  function TestEntry(data: Json, filedata: Json): (r: Json)
    ensures Lookup(r, "testFunction") == Some(data) && Lookup(r, "parentTestFile") == Some(filedata)
    ensures Lookup(r, "parentTestSuite").None? && Lookup(r, "xmlClassName").None?
  {
    EntryKeysDistinct();
    JObject(map["testFunction" := data, "parentTestFile" := filedata])
  }

  /** One callback's effect on the lists. */
  function Collect(c: Collected, event: Callback): (r: Result<Collected>)
    ensures r.Err? <==> event.OnSuite? && Lookup(event.data, "name").None?
    ensures r.Ok? ==>
      && c.files <= r.value.files && c.folders <= r.value.folders
      && c.suites <= r.value.suites && c.functions <= r.value.functions
      && |r.value.files| + |r.value.folders| + |r.value.suites| + |r.value.functions|
         == |c.files| + |c.folders| + |c.suites| + |c.functions| + 1
    ensures r.Ok? && event.OnFolder? ==>
      |c.folders| < |r.value.folders| && r.value.folders[|c.folders|] == event.data
    ensures r.Ok? && event.OnFile? ==>
      |c.files| < |r.value.files| && r.value.files[|c.files|] == event.data
    ensures r.Ok? && event.OnSuite? ==>
      |c.suites| < |r.value.suites| && Lookup(r.value.suites[|c.suites|], "testSuite") == Some(event.data)
    ensures r.Ok? && event.OnTest? ==>
      |c.functions| < |r.value.functions| && Lookup(r.value.functions[|c.functions|], "testFunction") == Some(event.data)
  {
    match event
    case OnFolder(data) => Ok(c.(folders := c.folders + [data]))
    case OnFile(data) => Ok(c.(files := c.files + [data]))
    case OnSuite(data, filedata) =>
      (match SuiteEntry(data, filedata)
       case Err(msg) => Err(msg)
       case Ok(entry) => Ok(c.(suites := c.suites + [entry])))
    case OnTest(data, _, filedata) => Ok(c.(functions := c.functions + [TestEntry(data, filedata)]))
  }

  /** The lists after the callbacks, in the order they were made. */
  function CollectAll(c: Collected, events: seq<Callback>): Result<Collected>
    decreases |events|
  {
    if events == [] then Ok(c)
    else match Collect(c, events[0])
      case Err(msg) => Err(msg)
      case Ok(c1) => CollectAll(c1, events[1..])
  }

  /** The six keys of the serialised dict have six different lengths. */
  lemma DiscoveredKeyLengths()
    ensures |"summary"| == 7 && |"testFiles"| == 9 && |"testFunctions"| == 13
    ensures |"testSuites"| == 10 && |"testFolders"| == 11 && |"rootTestFolders"| == 15
  {
    assert |"summary"| == 7 && |"testFiles"| == 9 && |"testFunctions"| == 13;
    assert |"testSuites"| == 10 && |"testFolders"| == 11 && |"rootTestFolders"| == 15;
  }

  /** The dict `serialize_discovered` hands to `json.dumps`. */
  function DiscoveredData(c: Collected, root: Json): (r: Json)
    ensures r.JObject?
    ensures Lookup(r, "summary") == Some(EmptyObject)
    ensures Lookup(r, "testFiles") == Some(JArray(c.files))
    ensures Lookup(r, "testFunctions") == Some(JArray(c.functions))
    ensures Lookup(r, "testSuites") == Some(JArray(c.suites))
    ensures Lookup(r, "testFolders") == Some(JArray(c.folders))
    ensures Lookup(r, "rootTestFolders") == Some(JArray([root]))
  {
    DiscoveredKeyLengths();
    JObject(
      map[
        "summary" := EmptyObject,
        "testFiles" := JArray(c.files),
        "testFunctions" := JArray(c.functions),
        "testSuites" := JArray(c.suites),
        "testFolders" := JArray(c.folders),
        "rootTestFolders" := JArray([root])])
  }

  /** The folder records of the events, in order. */
  function FoldersOf(events: seq<Callback>): seq<Json> {
    if events == [] then []
    else (if events[0].OnFolder? then [events[0].data] else []) + FoldersOf(events[1..])
  }

  /** The file records of the events, in order. */
  function FilesOf(events: seq<Callback>): seq<Json> {
    if events == [] then []
    else (if events[0].OnFile? then [events[0].data] else []) + FilesOf(events[1..])
  }

  /** The suite records of the named suite events, in order. */
  function SuitesOf(events: seq<Callback>): seq<Json> {
    if events == [] then []
    else
      (if events[0].OnSuite? && SuiteEntry(events[0].data, events[0].filedata).Ok?
       then [SuiteEntry(events[0].data, events[0].filedata).value] else [])
      + SuitesOf(events[1..])
  }

  /** The test records of the events, in order. */
  function FunctionsOf(events: seq<Callback>): seq<Json> {
    if events == [] then []
    else (if events[0].OnTest? then [TestEntry(events[0].data, events[0].filedata)] else []) + FunctionsOf(events[1..])
  }

  /** Whether some suite event has data without a name. */
  predicate SomeSuiteUnnamed(events: seq<Callback>) {
    exists i :: 0 <= i < |events| && events[i].OnSuite? && Lookup(events[i].data, "name").None?
  }

  /** Every suite record's `xmlClassName` is its suite's name. */
  predicate SuitesNamed(suites: seq<Json>) {
    forall k :: 0 <= k < |suites| ==>
      && Lookup(suites[k], "testSuite").Some?
      && Lookup(suites[k], "xmlClassName").Some?
      && Lookup(suites[k], "xmlClassName") == Lookup(Lookup(suites[k], "testSuite").value, "name")
  }

  /** Collecting fails exactly when some suite's data has no name. */
  lemma {:induction false} CollectAllFails(c: Collected, events: seq<Callback>)
    ensures CollectAll(c, events).Err? <==> SomeSuiteUnnamed(events)
    decreases |events|
  {
    if events != [] {
      var e := events[0];
      match Collect(c, e)
      case Err(msg) =>
        assert e.OnSuite? && Lookup(e.data, "name").None?;
        assert SomeSuiteUnnamed(events) by {
          assert events[0] == e;
        }
      case Ok(c1) =>
        CollectAllFails(c1, events[1..]);
        if SomeSuiteUnnamed(events) {
          var i :| 0 <= i < |events| && events[i].OnSuite? && Lookup(events[i].data, "name").None?;
          assert i > 0;
          assert events[1..][i - 1] == events[i];
        }
        if SomeSuiteUnnamed(events[1..]) {
          var i :| 0 <= i < |events[1..]| && events[1..][i].OnSuite? && Lookup(events[1..][i].data, "name").None?;
          assert events[i + 1] == events[1..][i];
        }
    }
  }

  /** Each of the four lists holds the callbacks' records in callback order,
      after those collected before. */
  lemma {:induction false} CollectAllLists(c: Collected, events: seq<Callback>)
    ensures CollectAll(c, events).Ok? ==>
      && CollectAll(c, events).value.folders == c.folders + FoldersOf(events)
      && CollectAll(c, events).value.files == c.files + FilesOf(events)
      && CollectAll(c, events).value.suites == c.suites + SuitesOf(events)
      && CollectAll(c, events).value.functions == c.functions + FunctionsOf(events)
    decreases |events|
  {
    if events != [] {
      match Collect(c, events[0])
      case Err(_) =>
      case Ok(c1) =>
        CollectAllLists(c1, events[1..]);
        CollectStepLists(c, events);
    }
  }

  /** One callback adds its record to its own list and to no other. */
  lemma CollectStepLists(c: Collected, events: seq<Callback>)
    requires events != [] && Collect(c, events[0]).Ok?
    ensures var c1 := Collect(c, events[0]).value;
      && c1.folders + FoldersOf(events[1..]) == c.folders + FoldersOf(events)
      && c1.files + FilesOf(events[1..]) == c.files + FilesOf(events)
      && c1.suites + SuitesOf(events[1..]) == c.suites + SuitesOf(events)
      && c1.functions + FunctionsOf(events[1..]) == c.functions + FunctionsOf(events)
  {
    var e, rest := events[0], events[1..];
    var c1 := Collect(c, e).value;
    match e
    case OnFolder(data) =>
      assert c1 == c.(folders := c.folders + [data]);
      assert FoldersOf(events) == [data] + FoldersOf(rest);
      assert FilesOf(events) == FilesOf(rest) && SuitesOf(events) == SuitesOf(rest);
      assert FunctionsOf(events) == FunctionsOf(rest);
      Regroup(c.folders, [data], FoldersOf(rest));
    case OnFile(data) =>
      assert c1 == c.(files := c.files + [data]);
      assert FilesOf(events) == [data] + FilesOf(rest);
      assert FoldersOf(events) == FoldersOf(rest) && SuitesOf(events) == SuitesOf(rest);
      assert FunctionsOf(events) == FunctionsOf(rest);
      Regroup(c.files, [data], FilesOf(rest));
    case OnSuite(data, filedata) =>
      var entry := SuiteEntry(data, filedata).value;
      assert c1 == c.(suites := c.suites + [entry]);
      assert SuitesOf(events) == [entry] + SuitesOf(rest);
      assert FoldersOf(events) == FoldersOf(rest) && FilesOf(events) == FilesOf(rest);
      assert FunctionsOf(events) == FunctionsOf(rest);
      Regroup(c.suites, [entry], SuitesOf(rest));
    case OnTest(data, _, filedata) =>
      var entry := TestEntry(data, filedata);
      assert c1 == c.(functions := c.functions + [entry]);
      assert FunctionsOf(events) == [entry] + FunctionsOf(rest);
      assert FoldersOf(events) == FoldersOf(rest) && FilesOf(events) == FilesOf(rest);
      assert SuitesOf(events) == SuitesOf(rest);
      Regroup(c.functions, [entry], FunctionsOf(rest));
  }

  lemma Regroup(a: seq<Json>, b: seq<Json>, c: seq<Json>)
    ensures a + b + c == a + (b + c)
  {
  }

  /** Collecting keeps every suite record named after its suite. */
  lemma {:induction false} CollectAllSuitesNamed(c: Collected, events: seq<Callback>)
    requires SuitesNamed(c.suites)
    ensures CollectAll(c, events).Ok? ==> SuitesNamed(CollectAll(c, events).value.suites)
    decreases |events|
  {
    if events != [] {
      match Collect(c, events[0])
      case Err(_) =>
      case Ok(c1) =>
        if events[0].OnSuite? {
          assert c1.suites == c.suites + [SuiteEntry(events[0].data, events[0].filedata).value];
        }
        assert SuitesNamed(c1.suites);
        CollectAllSuitesNamed(c1, events[1..]);
    }
  }

  /** The callbacks' lists. */
  class Collector {
    var files: seq<Json>
    var folders: seq<Json>
    var suites: seq<Json>
    var functions: seq<Json>

    function State(): Collected
      reads this
    {
      Collected(files, folders, suites, functions)
    }

    constructor ()
      ensures State() == Collected([], [], [], [])
    {
      files := [];
      folders := [];
      suites := [];
      functions := [];
    }

    /** `on_folder`, `on_file`, `on_suite` and `on_test`. */
    method Dispatch(event: Callback) returns (r: Outcome)
      modifies this
      ensures r.Fail? <==> Collect(old(State()), event).Err?
      ensures r.Pass? ==> State() == Collect(old(State()), event).value
      ensures r.Fail? ==> State() == old(State())
    {
      r := Pass;
      match event
      case OnFolder(data) =>
        folders := folders + [data];
      case OnFile(data) =>
        files := files + [data];
      case OnSuite(data, filedata) =>
        var entry := SuiteEntry(data, filedata);
        if entry.Err? {
          return Fail(entry.msg);
        }
        suites := suites + [entry.value];
      case OnTest(data, _, filedata) =>
        functions := functions + [TestEntry(data, filedata)];
    }
  }

  /** `serialize_discovered(results)` up to `json.dumps`, with the tree walk's
      callbacks and returned root given. */
  method SerializeDiscovered(events: seq<Callback>, root: Json) returns (r: Result<Json>)
    ensures r.Err? <==> CollectAll(Collected([], [], [], []), events).Err?
    ensures r.Ok? ==> r.value == DiscoveredData(CollectAll(Collected([], [], [], []), events).value, root)
  {
    var collector := new Collector();
    var k := 0;
    while k < |events|
      invariant 0 <= k <= |events|
      invariant CollectAll(collector.State(), events[k..]) == CollectAll(Collected([], [], [], []), events)
    {
      assert events[k..][1..] == events[k + 1..];
      var outcome := collector.Dispatch(events[k]);
      if outcome.Fail? {
        return Err(outcome.error);
      }
      k := k + 1;
    }
    assert events[k..] == [];
    r := Ok(DiscoveredData(collector.State(), root));
  }

  /** The serialised dict lists the folders, files, suites and tests in
      callback order, and its root list holds just the walk's root. */
  lemma DiscoveredDataShape(events: seq<Callback>, root: Json)
    requires !SomeSuiteUnnamed(events)
    ensures CollectAll(Collected([], [], [], []), events).Ok?
    ensures var d := DiscoveredData(CollectAll(Collected([], [], [], []), events).value, root);
      && Lookup(d, "testFolders") == Some(JArray(FoldersOf(events)))
      && Lookup(d, "testFiles") == Some(JArray(FilesOf(events)))
      && Lookup(d, "testSuites") == Some(JArray(SuitesOf(events)))
      && Lookup(d, "testFunctions") == Some(JArray(FunctionsOf(events)))
      && Lookup(d, "rootTestFolders") == Some(JArray([root]))
  {
    CollectAllFails(Collected([], [], [], []), events);
    CollectAllLists(Collected([], [], [], []), events);
    assert [] + FoldersOf(events) == FoldersOf(events);
    assert [] + FilesOf(events) == FilesOf(events);
    assert [] + SuitesOf(events) == SuitesOf(events);
    assert [] + FunctionsOf(events) == FunctionsOf(events);
  }
}
