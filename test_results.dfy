/** The discovered-test tree of `testing_tools/adapter/results.py`.

    `Test` is a value: it is never changed once made. Suites, files and
    folders are objects whose lists the `add_*` methods extend in place; each
    has an abstraction `Value()` into a plain record, and two objects are
    equal under `Compares.__eq__` exactly when their records are equal. A
    Python `None` is `None`, and falsy values are the empty string and 0. */
module TestResults {
  import opened Wrappers
  import opened Text
  import Paths

  datatype Test = Test(qualname: string, filename: Option<string>, lineno: Option<int>)

  predicate FilenameTruthy(filename: Option<string>) {
    filename.Some? && filename.value != ""
  }

  predicate LinenoTruthy(lineno: Option<int>) {
    lineno.Some? && lineno.value != 0
  }

  /** The check shared by `Test` and `TestSuite`: a truthy line number needs a
      truthy file name. */
  predicate MissingFilename(filename: Option<string>, lineno: Option<int>) {
    LinenoTruthy(lineno) && !FilenameTruthy(filename)
  }

  const MISSING_FILENAME := "TypeError: missing filename"
  const NON_PYTHON_FILE := "NotImplementedError: non-python files not supported"

  /** `'{}.{}'.format(parent, name)`. */
  function Qualify(parent: string, name: string): (r: string)
    ensures StartsWith(r, parent + ".") && |r| == |parent| + 1 + |name|
    ensures r[|parent| + 1..] == name
  {
    parent + "." + name
  }

  /** `Test(qualname, filename, lineno)`. */
  function MakeTest(qualname: string, filename: Option<string>, lineno: Option<int>): (r: Result<Test>)
    ensures r.Err? <==> MissingFilename(filename, lineno)
    ensures r.Ok? ==> r.value.qualname == qualname && r.value.filename == filename && r.value.lineno == lineno
  {
    if MissingFilename(filename, lineno) then Err(MISSING_FILENAME)
    else Ok(Test(qualname, filename, lineno))
  }

  datatype SuiteRecord = SuiteRecord(
    qualname: string,
    filename: Option<string>,
    lineno: Option<int>,
    tests: seq<Test>,
    subsuites: seq<SuiteRecord>)

  /** `TestSuite.all_tests()`: the suite's own tests, then each subsuite's in
      order. */
  function SuiteTests(s: SuiteRecord): seq<Test>
    decreases s, 1
  {
    s.tests + SuitesTests(s.subsuites)
  }

  function SuitesTests(suites: seq<SuiteRecord>): seq<Test>
    decreases suites, 0
  {
    if suites == [] then [] else SuitesTests(suites[..|suites| - 1]) + SuiteTests(suites[|suites| - 1])
  }

  /** A suite built by `add_test`/`add_subsuite` alone: every test and
      subsuite is named below it and shares its file name. */
  predicate SuiteWellNamed(s: SuiteRecord)
    decreases s
  {
    && (forall t :: t in s.tests ==> StartsWith(t.qualname, s.qualname + ".") && t.filename == s.filename)
    && (forall i :: 0 <= i < |s.subsuites| ==>
          && StartsWith(s.subsuites[i].qualname, s.qualname + ".")
          && s.subsuites[i].filename == s.filename
          && SuiteWellNamed(s.subsuites[i]))
  }

  lemma StartsWithTransitive(s: string, p: string, q: string)
    requires StartsWith(s, p) && StartsWith(p, q)
    ensures StartsWith(s, q)
  {
    assert s[..|q|] == p[..|p|][..|q|];
  }

  /** Every test a well-named suite collects is named below the suite and
      comes from its file. */
  lemma {:induction false} SuiteTestsWellNamed(s: SuiteRecord)
    requires SuiteWellNamed(s)
    ensures forall t :: t in SuiteTests(s) ==> StartsWith(t.qualname, s.qualname + ".") && t.filename == s.filename
    decreases s, 1
  {
    SuitesTestsWellNamed(s.subsuites, s.qualname + ".", s.filename);
  }

  lemma {:induction false} SuitesTestsWellNamed(suites: seq<SuiteRecord>, prefix: string, filename: Option<string>)
    requires forall i :: 0 <= i < |suites| ==>
      StartsWith(suites[i].qualname, prefix) && suites[i].filename == filename && SuiteWellNamed(suites[i])
    ensures forall t :: t in SuitesTests(suites) ==> StartsWith(t.qualname, prefix) && t.filename == filename
    decreases suites, 0
  {
    if suites != [] {
      var last := suites[|suites| - 1];
      SuitesTestsWellNamed(suites[..|suites| - 1], prefix, filename);
      SuiteTestsWellNamed(last);
      forall t | t in SuiteTests(last)
        ensures StartsWith(t.qualname, prefix)
      {
        StartsWithTransitive(t.qualname, last.qualname + ".", last.qualname);
        StartsWithTransitive(t.qualname, last.qualname, prefix);
      }
    }
  }

  /** `add_test` and `add_subsuite` keep a suite well named. */
  lemma AddsKeepSuiteWellNamed(s: SuiteRecord, name: string, lineno: Option<int>)
    requires SuiteWellNamed(s)
    ensures SuiteWellNamed(s.(tests := s.tests + [Test(Qualify(s.qualname, name), s.filename, lineno)]))
    ensures SuiteWellNamed(s.(subsuites := s.subsuites + [SuiteRecord(Qualify(s.qualname, name), s.filename, lineno, [], [])]))
  {
    var s2 := s.(subsuites := s.subsuites + [SuiteRecord(Qualify(s.qualname, name), s.filename, lineno, [], [])]);
    assert forall i :: 0 <= i < |s.subsuites| ==> s2.subsuites[i] == s.subsuites[i];
  }

  /** The order of the suite test in results' tests: own tests in the order
      added, then each subsuite's. */
  lemma SuiteTestsOrder(q: string, f: Option<string>, t1: Test, t2: Test, t3: Test, t4: Test, sub1: string, sub2: string)
    ensures SuiteTests(SuiteRecord(q, f, None, [t1, t4], [
        SuiteRecord(sub1, f, None, [t2], []),
        SuiteRecord(sub2, f, None, [t3], [])]))
      == [t1, t4, t2, t3]
  {
    var a := SuiteRecord(sub1, f, None, [t2], []);
    var b := SuiteRecord(sub2, f, None, [t3], []);
    assert SuiteTests(a) == [t2] && SuiteTests(b) == [t3];
    assert SuitesTests([a]) == [t2] by {
      assert [a][..0] == [];
    }
    assert SuitesTests([a, b]) == [t2, t3] by {
      assert [a, b][..1] == [a];
    }
  }

  /** `TestSuite`. */
  /** The objects the given suites are made of. */
  ghost function SuitesRepr(suites: seq<TestSuite>): (r: set<object>)
    reads suites
    ensures forall i :: 0 <= i < |suites| ==> suites[i].Repr <= r
  {
    if suites == [] then {}
    else
      var front := suites[..|suites| - 1];
      assert forall i :: 0 <= i < |front| ==> front[i] == suites[i];
      SuitesRepr(front) + suites[|suites| - 1].Repr
  }

  class TestSuite {
    var qualname: string
    var filename: Option<string>
    var lineno: Option<int>
    var tests: seq<Test>
    var subsuites: seq<TestSuite>
    ghost var Repr: set<object>

    ghost predicate Valid()
      reads this, Repr
      decreases Repr
    {
      && this in Repr
      && !MissingFilename(filename, lineno)
      && (forall i :: 0 <= i < |subsuites| ==>
            && subsuites[i] in Repr
            && subsuites[i].Repr <= Repr
            && this !in subsuites[i].Repr
            && subsuites[i].Valid())
    }

    ghost function Value(): SuiteRecord
      requires Valid()
      reads this, Repr
      decreases Repr
    {
      SuiteRecord(qualname, filename, lineno, tests,
        seq(|subsuites|, i requires 0 <= i < |subsuites| && Valid() reads this, Repr => subsuites[i].Value()))
    }

    /** The record's fields, one by one. */
    lemma ValueFields()
      requires Valid()
      ensures Value().qualname == qualname && Value().filename == filename && Value().lineno == lineno
      ensures Value().tests == tests && |Value().subsuites| == |subsuites|
      ensures forall i :: 0 <= i < |subsuites| ==> Value().subsuites[i] == subsuites[i].Value()
    {
    }

    /** `TestSuite(qualname, filename, lineno, tests, subsuites)` after its
        filename check passed: the lists are copied. */
    constructor (qualname: string, filename: Option<string>, lineno: Option<int>, tests: seq<Test>, subsuites: seq<TestSuite>)
      requires !MissingFilename(filename, lineno)
      requires forall i :: 0 <= i < |subsuites| ==> subsuites[i].Valid()
      ensures Valid() && Repr == {this} + SuitesRepr(subsuites)
      ensures this.qualname == qualname && this.filename == filename && this.lineno == lineno
      ensures this.tests == tests && this.subsuites == subsuites
    {
      this.qualname := qualname;
      this.filename := filename;
      this.lineno := lineno;
      this.tests := tests;
      this.subsuites := subsuites;
      new;
      Repr := {this} + SuitesRepr(subsuites);
    }

    /** Takes in `grown`, the objects the subsuites gained since this suite
        last counted them. A Python object has no footprint, so this step has
        no counterpart in `results.py`: it lets a suite be used again after a
        subsuite it handed out was grown through that handle. */
    ghost method Refresh(grown: set<object>)
      requires this in Repr && !MissingFilename(filename, lineno)
      requires forall i :: 0 <= i < |subsuites| ==>
        subsuites[i].Valid() && this !in subsuites[i].Repr && subsuites[i].Repr <= Repr + grown
      modifies this
      ensures Valid() && Repr == old(Repr) + grown
      ensures qualname == old(qualname) && filename == old(filename) && lineno == old(lineno)
      ensures tests == old(tests) && subsuites == old(subsuites)
      ensures forall i :: 0 <= i < |subsuites| ==> subsuites[i].Value() == old(subsuites[i].Value())
    {
      Repr := Repr + grown;
    }

    /** `add_test(name, lineno)`. */
    method AddTest(name: string, lineno: Option<int>) returns (r: Result<Test>)
      requires Valid()
      modifies this
      ensures Valid() && Repr == old(Repr)
      ensures r == MakeTest(Qualify(qualname, name), filename, lineno)
      ensures qualname == old(qualname) && filename == old(filename) && this.lineno == old(this.lineno)
      ensures subsuites == old(subsuites) && tests == if r.Ok? then old(tests) + [r.value] else old(tests)
      ensures r.Ok? ==> Value() == old(Value()).(tests := old(tests) + [r.value])
      ensures r.Err? ==> Value() == old(Value())
      ensures r.Ok? ==> SuiteTests(Value()) == old(tests) + [r.value] + SuitesTests(old(Value()).subsuites)
    {
      r := MakeTest(Qualify(qualname, name), filename, lineno);
      if r.Ok? {
        tests := tests + [r.value];
      }
    }

    /** `add_subsuite(name, lineno)`: a suite of the same class, named below
        this one and in the same file, appended to the subsuites. */
    method AddSubsuite(name: string, lineno: Option<int>) returns (r: Result<TestSuite>)
      requires Valid()
      modifies this
      ensures Valid()
      ensures r.Err? <==> MissingFilename(filename, lineno)
      ensures r.Err? ==> Repr == old(Repr) && Value() == old(Value())
      ensures qualname == old(qualname) && filename == old(filename) && this.lineno == old(this.lineno) && tests == old(tests)
      ensures r.Err? ==> subsuites == old(subsuites)
      ensures r.Ok? ==>
        && fresh(r.value) && fresh(r.value.Repr) && r.value.Valid() && Repr == old(Repr) + r.value.Repr
        && r.value.qualname == Qualify(qualname, name) && r.value.filename == filename && r.value.lineno == lineno
        && r.value.tests == [] && r.value.subsuites == []
        && r.value.Value() == SuiteRecord(Qualify(qualname, name), filename, lineno, [], [])
        && subsuites == old(subsuites) + [r.value]
        && Value() == old(Value()).(subsuites := old(Value()).subsuites + [r.value.Value()])
    {
      if MissingFilename(filename, lineno) {
        return Err(MISSING_FILENAME);
      }
      var suite := new TestSuite(Qualify(qualname, name), filename, lineno, [], []);
      subsuites := subsuites + [suite];
      Repr := Repr + suite.Repr;
      r := Ok(suite);
    }

    /** `all_tests()`. */
    method AllTests() returns (r: seq<Test>)
      requires Valid()
      ensures r == SuiteTests(Value())
      decreases Repr
    {
      ghost var v := Value();
      r := tests;
      var k := 0;
      while k < |subsuites|
        invariant 0 <= k <= |subsuites|
        invariant r == tests + SuitesTests(v.subsuites[..k])
      {
        var more := subsuites[k].AllTests();
        assert more == SuiteTests(v.subsuites[k]);
        assert v.subsuites[..k + 1][..k] == v.subsuites[..k];
        r := r + more;
        k := k + 1;
      }
      assert v.subsuites[..k] == v.subsuites;
    }
  }

  datatype FileRecord = FileRecord(filename: string, qualname: string, suites: seq<SuiteRecord>, tests: seq<Test>)

  /** `TestFile.all_tests()`: the file's own tests, then each suite's. */
  function FileTests(f: FileRecord): seq<Test> {
    f.tests + SuitesTests(f.suites)
  }

  /** A file built by `add_test`/`add_suite` alone. */
  predicate FileWellNamed(f: FileRecord) {
    && (forall t :: t in f.tests ==> StartsWith(t.qualname, f.qualname + ".") && t.filename == Some(f.filename))
    && (forall i :: 0 <= i < |f.suites| ==>
          && StartsWith(f.suites[i].qualname, f.qualname + ".")
          && f.suites[i].filename == Some(f.filename)
          && SuiteWellNamed(f.suites[i]))
  }

  /** Every test a well-named file collects is named below the file and
      comes from it. */
  lemma FileTestsWellNamed(f: FileRecord)
    requires FileWellNamed(f)
    ensures forall t :: t in FileTests(f) ==> StartsWith(t.qualname, f.qualname + ".") && t.filename == Some(f.filename)
  {
    SuitesTestsWellNamed(f.suites, f.qualname + ".", Some(f.filename));
  }

  /** `TestSuite(qualname, filename, lineno, tests, subsuites)` as a caller
      sees it: the `TypeError` of a truthy line number without a file name,
      or a new suite holding copies of the lists. */
  method MakeSuite(qualname: string, filename: Option<string>, lineno: Option<int>,
                   tests: seq<Test>, subsuites: seq<TestSuite>) returns (r: Result<TestSuite>)
    requires forall i :: 0 <= i < |subsuites| ==> subsuites[i].Valid()
    ensures r.Err? <==> MissingFilename(filename, lineno)
    ensures r.Err? ==> r.msg == MISSING_FILENAME
    ensures r.Ok? ==>
      && fresh(r.value) && r.value.Valid()
      && r.value.qualname == qualname && r.value.filename == filename && r.value.lineno == lineno
      && r.value.tests == tests && r.value.subsuites == subsuites
  {
    if MissingFilename(filename, lineno) {
      return Err(MISSING_FILENAME);
    }
    var suite := new TestSuite(qualname, filename, lineno, tests, subsuites);
    r := Ok(suite);
  }

  /** `TestFile`. */
  class TestFile {
    var filename: string
    var qualname: string
    var suites: seq<TestSuite>
    var tests: seq<Test>
    ghost var Repr: set<object>

    ghost predicate Valid()
      reads this, Repr
    {
      && this in Repr
      && (forall i :: 0 <= i < |suites| ==>
            && suites[i] in Repr
            && suites[i].Repr <= Repr
            && this !in suites[i].Repr
            && suites[i].Valid())
    }

    ghost function Value(): FileRecord
      requires Valid()
      reads this, Repr
    {
      FileRecord(filename, qualname,
        seq(|suites|, i requires 0 <= i < |suites| && Valid() reads this, Repr => suites[i].Value()),
        tests)
    }

    /** The record's fields, one by one. */
    lemma ValueFields()
      requires Valid()
      ensures Value().filename == filename && Value().qualname == qualname && Value().tests == tests
      ensures |Value().suites| == |suites|
      ensures forall i :: 0 <= i < |suites| ==> Value().suites[i] == suites[i].Value()
    {
    }

    /** `TestFile(filename, qualname, suites, tests)`: the lists are copied. */
    constructor (filename: string, qualname: string, suites: seq<TestSuite>, tests: seq<Test>)
      requires forall i :: 0 <= i < |suites| ==> suites[i].Valid()
      ensures Valid() && Repr == {this} + SuitesRepr(suites)
      ensures this.filename == filename && this.qualname == qualname
      ensures this.suites == suites && this.tests == tests
    {
      this.filename := filename;
      this.qualname := qualname;
      this.suites := suites;
      this.tests := tests;
      new;
      Repr := {this} + SuitesRepr(suites);
    }

    /** Takes in `grown`, the objects the suites gained, as
        `TestSuite.Refresh` does. */
    ghost method Refresh(grown: set<object>)
      requires this in Repr
      requires forall i :: 0 <= i < |suites| ==>
        suites[i].Valid() && this !in suites[i].Repr && suites[i].Repr <= Repr + grown
      modifies this
      ensures Valid() && Repr == old(Repr) + grown
      ensures filename == old(filename) && qualname == old(qualname)
      ensures suites == old(suites) && tests == old(tests)
      ensures forall i :: 0 <= i < |suites| ==> suites[i].Value() == old(suites[i].Value())
    {
      Repr := Repr + grown;
    }

    /** `add_suite(name, lineno)`. */
    method AddSuite(name: string, lineno: Option<int>) returns (r: Result<TestSuite>)
      requires Valid()
      modifies this
      ensures Valid()
      ensures r.Err? <==> MissingFilename(Some(filename), lineno)
      ensures r.Err? ==> Repr == old(Repr) && Value() == old(Value())
      ensures filename == old(filename) && qualname == old(qualname) && tests == old(tests)
      ensures r.Err? ==> suites == old(suites)
      ensures r.Ok? ==>
        && fresh(r.value) && fresh(r.value.Repr) && r.value.Valid() && Repr == old(Repr) + r.value.Repr
        && r.value.qualname == Qualify(qualname, name) && r.value.filename == Some(filename) && r.value.lineno == lineno
        && r.value.tests == [] && r.value.subsuites == []
        && r.value.Value() == SuiteRecord(Qualify(qualname, name), Some(filename), lineno, [], [])
        && suites == old(suites) + [r.value]
        && Value() == old(Value()).(suites := old(Value()).suites + [r.value.Value()])
    {
      if MissingFilename(Some(filename), lineno) {
        return Err(MISSING_FILENAME);
      }
      var suite := new TestSuite(Qualify(qualname, name), Some(filename), lineno, [], []);
      suites := suites + [suite];
      Repr := Repr + suite.Repr;
      r := Ok(suite);
    }

    /** `add_test(name, lineno)`. */
    method AddTest(name: string, lineno: Option<int>) returns (r: Result<Test>)
      requires Valid()
      modifies this
      ensures Valid() && Repr == old(Repr)
      ensures r == MakeTest(Qualify(qualname, name), Some(filename), lineno)
      ensures filename == old(filename) && qualname == old(qualname)
      ensures suites == old(suites) && tests == if r.Ok? then old(tests) + [r.value] else old(tests)
      ensures r.Ok? ==> Value() == old(Value()).(tests := old(tests) + [r.value])
      ensures r.Err? ==> Value() == old(Value())
    {
      r := MakeTest(Qualify(qualname, name), Some(filename), lineno);
      if r.Ok? {
        tests := tests + [r.value];
      }
    }

    /** `all_tests()`. */
    method AllTests() returns (r: seq<Test>)
      requires Valid()
      ensures r == FileTests(Value())
    {
      ghost var v := Value();
      r := tests;
      var k := 0;
      while k < |suites|
        invariant 0 <= k <= |suites|
        invariant r == tests + SuitesTests(v.suites[..k])
      {
        var more := suites[k].AllTests();
        assert more == SuiteTests(v.suites[k]);
        assert v.suites[..k + 1][..k] == v.suites[..k];
        r := r + more;
        k := k + 1;
      }
      assert v.suites[..k] == v.suites;
    }
  }

  datatype FolderRecord = FolderRecord(dirname: string, qualname: string, files: seq<FileRecord>, subfolders: seq<FolderRecord>)

  function FilesTests(files: seq<FileRecord>): seq<Test> {
    if files == [] then [] else FilesTests(files[..|files| - 1]) + FileTests(files[|files| - 1])
  }

  /** `TestFolder.all_tests()`: each file's tests in order, then each
      subfolder's. */
  function FolderTests(f: FolderRecord): seq<Test>
    decreases f, 1
  {
    FilesTests(f.files) + FoldersTests(f.subfolders)
  }

  function FoldersTests(folders: seq<FolderRecord>): seq<Test>
    decreases folders, 0
  {
    if folders == [] then [] else FoldersTests(folders[..|folders| - 1]) + FolderTests(folders[|folders| - 1])
  }

  /** A folder built by `add_file`/`add_subfolder` and well-named files. */
  predicate FolderWellNamed(f: FolderRecord)
    decreases f
  {
    && (forall i :: 0 <= i < |f.files| ==>
          StartsWith(f.files[i].qualname, f.qualname + ".") && FileWellNamed(f.files[i]))
    && (forall i :: 0 <= i < |f.subfolders| ==>
          StartsWith(f.subfolders[i].qualname, f.qualname + ".") && FolderWellNamed(f.subfolders[i]))
  }

  lemma {:induction false} FilesTestsWellNamed(files: seq<FileRecord>, prefix: string)
    requires forall i :: 0 <= i < |files| ==> StartsWith(files[i].qualname, prefix) && FileWellNamed(files[i])
    ensures forall t :: t in FilesTests(files) ==> StartsWith(t.qualname, prefix)
  {
    if files != [] {
      var last := files[|files| - 1];
      FilesTestsWellNamed(files[..|files| - 1], prefix);
      FileTestsWellNamed(last);
      forall t | t in FileTests(last)
        ensures StartsWith(t.qualname, prefix)
      {
        StartsWithTransitive(t.qualname, last.qualname + ".", last.qualname);
        StartsWithTransitive(t.qualname, last.qualname, prefix);
      }
    }
  }

  /** Every test a well-named folder collects is named below the folder. */
  lemma {:induction false} FolderTestsWellNamed(f: FolderRecord)
    requires FolderWellNamed(f)
    ensures forall t :: t in FolderTests(f) ==> StartsWith(t.qualname, f.qualname + ".")
    decreases f, 1
  {
    FilesTestsWellNamed(f.files, f.qualname + ".");
    FoldersTestsWellNamed(f.subfolders, f.qualname + ".");
  }

  lemma {:induction false} FoldersTestsWellNamed(folders: seq<FolderRecord>, prefix: string)
    requires forall i :: 0 <= i < |folders| ==> StartsWith(folders[i].qualname, prefix) && FolderWellNamed(folders[i])
    ensures forall t :: t in FoldersTests(folders) ==> StartsWith(t.qualname, prefix)
    decreases folders, 0
  {
    if folders != [] {
      var last := folders[|folders| - 1];
      FoldersTestsWellNamed(folders[..|folders| - 1], prefix);
      FolderTestsWellNamed(last);
      forall t | t in FolderTests(last)
        ensures StartsWith(t.qualname, prefix)
      {
        StartsWithTransitive(t.qualname, last.qualname + ".", last.qualname);
        StartsWithTransitive(t.qualname, last.qualname, prefix);
      }
    }
  }

  /** `add_file(basename)` on a folder's record: NotImplementedError unless
      the name ends in ".py"; otherwise the file is named by the stem. */
  function FileFor(dirname: string, qualname: string, basename: string): (r: Result<FileRecord>)
    ensures r.Err? <==> !EndsWith(basename, ".py")
    ensures r.Ok? ==>
      && r.value.qualname + ".py" == qualname + "." + basename
      && r.value.suites == [] && r.value.tests == []
  {
    if !EndsWith(basename, ".py") then Err(NON_PYTHON_FILE)
    else
      var stem := basename[..|basename| - 3];
      assert stem + ".py" == basename;
      Ok(FileRecord(Paths.Join(dirname, basename), Qualify(qualname, stem), [], []))
  }

  /** `add_file` and `add_subfolder` keep a folder well named. */
  lemma AddsKeepFolderWellNamed(f: FolderRecord, basename: string)
    requires FolderWellNamed(f)
    ensures FileFor(f.dirname, f.qualname, basename).Ok? ==>
      FolderWellNamed(f.(files := f.files + [FileFor(f.dirname, f.qualname, basename).value]))
    ensures FolderWellNamed(f.(subfolders := f.subfolders + [FolderRecord(Paths.Join(f.dirname, basename), Qualify(f.qualname, basename), [], [])]))
  {
    var r := FileFor(f.dirname, f.qualname, basename);
    if r.Ok? {
      assert r.value.qualname == Qualify(f.qualname, basename[..|basename| - 3]);
      AppendKeepsFolderWellNamed(f, r.value);
    }
    var sub := FolderRecord(Paths.Join(f.dirname, basename), Qualify(f.qualname, basename), [], []);
    var f3 := f.(subfolders := f.subfolders + [sub]);
    assert FolderWellNamed(sub);
    assert forall i :: 0 <= i < |f.subfolders| ==> f3.subfolders[i] == f.subfolders[i];
  }

  /** Appending an empty file named below a well-named folder keeps it well
      named. */
  lemma AppendKeepsFolderWellNamed(f: FolderRecord, file: FileRecord)
    requires FolderWellNamed(f)
    requires StartsWith(file.qualname, f.qualname + ".") && file.suites == [] && file.tests == []
    ensures FolderWellNamed(f.(files := f.files + [file]))
  {
    var g := f.(files := f.files + [file]);
    assert FileWellNamed(file);
    assert forall i :: 0 <= i < |f.files| ==> g.files[i] == f.files[i];
  }

  /** `from_dirname(dirname)`: the folder's directory and qualified name. An
      absolute directory is named by its base name; a relative one by its
      path with separators as dots, and made absolute by `absPath` (standing
      for `os.path.abspath`). */
  function FolderNames(dirname: string, absPath: string -> string): (r: (string, string))
    ensures '/' !in r.1
  {
    if Paths.IsAbsolute(dirname) then (dirname, Paths.Basename(dirname))
    else
      var q := ReplaceChar(StripChar(dirname, '/'), '/', '.');
      assert forall i :: 0 <= i < |q| ==> q[i] != '/';
      (StripEndChar(absPath(dirname), '/'), q)
  }

  /** The two rules of `from_dirname`: an absolute directory is kept and named
      by the text after its last separator; a relative one is made absolute
      without a trailing separator and named by its separator-delimited
      components joined with dots. */
  lemma FolderNamesRules(dirname: string, absPath: string -> string)
    ensures var r := FolderNames(dirname, absPath);
      Paths.IsAbsolute(dirname) ==>
        && r.0 == dirname
        && EndsWith(dirname, r.1) && |r.1| < |dirname| && dirname[|dirname| - |r.1| - 1] == '/'
    ensures var r := FolderNames(dirname, absPath);
      !Paths.IsAbsolute(dirname) ==>
        && r.0 == StripEndChar(absPath(dirname), '/')
        && r.1 == Join(Split(StripChar(dirname, '/'), '/'), ".")
  {
    if Paths.IsAbsolute(dirname) {
      assert dirname[0] == '/';
      Paths.BasenameAfterSeparator(dirname);
    } else {
      ReplaceCharIsJoinSplit(StripChar(dirname, '/'), '/', '.');
    }
  }

  /** `from_dirname` of an absolute directory, as in its tests. */
  lemma FolderNamesAbsolute(absPath: string -> string)
    ensures FolderNames("/x/y/z", absPath) == ("/x/y/z", "z")
  {
    assert Paths.IsAbsolute("/x/y/z") by {
      assert "/x/y/z"[..1] == "/";
    }
    assert LastIndexOf("/x/y/z", '/') == Some(4);
    assert "/x/y/z"[5..] == "z";
  }

  /** `from_dirname` of a relative directory, as in its tests. */
  lemma FolderNamesRelative(absPath: string -> string)
    ensures FolderNames("x/y/z", absPath) == (StripEndChar(absPath("x/y/z"), '/'), "x.y.z")
  {
    var d := "x/y/z";
    assert !Paths.IsAbsolute(d) by {
      assert d[..1] == "x";
    }
    assert StripStartChar(d, '/') == d by {
      assert d[0] == 'x';
    }
    assert StripEndChar(d, '/') == d by {
      assert d[|d| - 1] == 'z';
    }
    var q := ReplaceChar(d, '/', '.');
    assert d[0] == 'x' && d[1] == '/' && d[2] == 'y' && d[3] == '/' && d[4] == 'z';
    assert |q| == 5 && q[0] == 'x' && q[1] == '.' && q[2] == 'y' && q[3] == '.' && q[4] == 'z';
    assert q == "x.y.z";
  }

  /** The objects the given files are made of. */
  ghost function FilesRepr(files: seq<TestFile>): (r: set<object>)
    reads files
    ensures forall i :: 0 <= i < |files| ==> files[i].Repr <= r
  {
    if files == [] then {}
    else
      var front := files[..|files| - 1];
      assert forall i :: 0 <= i < |front| ==> front[i] == files[i];
      FilesRepr(front) + files[|files| - 1].Repr
  }

  /** The objects the given folders are made of. */
  ghost function FoldersRepr(folders: seq<TestFolder>): (r: set<object>)
    reads folders
    ensures forall i :: 0 <= i < |folders| ==> folders[i].Repr <= r
  {
    if folders == [] then {}
    else
      var front := folders[..|folders| - 1];
      assert forall i :: 0 <= i < |front| ==> front[i] == folders[i];
      FoldersRepr(front) + folders[|folders| - 1].Repr
  }

  /** `TestFolder`. */
  class TestFolder {
    var dirname: string
    var qualname: string
    var files: seq<TestFile>
    var subfolders: seq<TestFolder>
    ghost var Repr: set<object>

    ghost predicate Valid()
      reads this, Repr
      decreases Repr
    {
      && this in Repr
      && (forall i :: 0 <= i < |files| ==>
            && files[i] in Repr
            && files[i].Repr <= Repr
            && this !in files[i].Repr
            && files[i].Valid())
      && (forall i :: 0 <= i < |subfolders| ==>
            && subfolders[i] in Repr
            && subfolders[i].Repr <= Repr
            && this !in subfolders[i].Repr
            && subfolders[i].Valid())
    }

    ghost function Value(): FolderRecord
      requires Valid()
      reads this, Repr
      decreases Repr
    {
      FolderRecord(dirname, qualname,
        seq(|files|, i requires 0 <= i < |files| && Valid() reads this, Repr => files[i].Value()),
        seq(|subfolders|, i requires 0 <= i < |subfolders| && Valid() reads this, Repr => subfolders[i].Value()))
    }

    /** The record's fields, one by one. */
    lemma ValueFields()
      requires Valid()
      ensures Value().dirname == dirname && Value().qualname == qualname
      ensures |Value().files| == |files| && |Value().subfolders| == |subfolders|
      ensures forall i :: 0 <= i < |files| ==> Value().files[i] == files[i].Value()
      ensures forall i :: 0 <= i < |subfolders| ==> Value().subfolders[i] == subfolders[i].Value()
    {
    }

    /** `TestFolder(dirname, qualname, files, subfolders)`: the lists are copied. */
    constructor (dirname: string, qualname: string, files: seq<TestFile>, subfolders: seq<TestFolder>)
      requires forall i :: 0 <= i < |files| ==> files[i].Valid()
      requires forall i :: 0 <= i < |subfolders| ==> subfolders[i].Valid()
      ensures Valid()
      ensures Repr == {this} + FilesRepr(files) + FoldersRepr(subfolders)
      ensures this.dirname == dirname && this.qualname == qualname
      ensures this.files == files && this.subfolders == subfolders
    {
      this.dirname := dirname;
      this.qualname := qualname;
      this.files := files;
      this.subfolders := [];
      new;
      assert forall i :: 0 <= i < |files| ==> this !in files[i].Repr;
      assert forall i :: 0 <= i < |subfolders| ==> this !in subfolders[i].Repr;
      Repr := {this} + FilesRepr(files);
      AdoptSubfolders(subfolders);
    }

    /** The second half of the constructor: the given folders become the
        subfolders. */
    method AdoptSubfolders(more: seq<TestFolder>)
      requires Valid() && subfolders == []
      requires forall i :: 0 <= i < |more| ==> more[i].Valid() && this !in more[i].Repr
      modifies this
      ensures Valid()
      ensures Repr == old(Repr) + FoldersRepr(more)
      ensures dirname == old(dirname) && qualname == old(qualname) && files == old(files)
      ensures subfolders == more
      ensures FilesRepr(files) == old(FilesRepr(files))
    {
      subfolders := more;
      Repr := Repr + FoldersRepr(more);
    }

    /** Takes in `grown`, the objects the files and subfolders gained, as
        `TestSuite.Refresh` does. */
    ghost method Refresh(grown: set<object>)
      requires this in Repr
      requires forall i :: 0 <= i < |files| ==>
        files[i].Valid() && this !in files[i].Repr && files[i].Repr <= Repr + grown
      requires forall i :: 0 <= i < |subfolders| ==>
        subfolders[i].Valid() && this !in subfolders[i].Repr && subfolders[i].Repr <= Repr + grown
      modifies this
      ensures Valid() && Repr == old(Repr) + grown
      ensures dirname == old(dirname) && qualname == old(qualname)
      ensures files == old(files) && subfolders == old(subfolders)
      ensures forall i :: 0 <= i < |files| ==> files[i].Value() == old(files[i].Value())
      ensures forall i :: 0 <= i < |subfolders| ==> subfolders[i].Value() == old(subfolders[i].Value())
    {
      Repr := Repr + grown;
    }

    /** `TestFolder.from_dirname(dirname)`. */
    constructor FromDirname(dirname: string, absPath: string -> string)
      ensures Valid() && fresh(Repr)
      ensures Value() == FolderRecord(FolderNames(dirname, absPath).0, FolderNames(dirname, absPath).1, [], [])
    {
      var names := FolderNames(dirname, absPath);
      this.dirname := names.0;
      this.qualname := names.1;
      files := [];
      subfolders := [];
      Repr := {this};
    }

    /** `add_file(basename)`. */
    method AddFile(basename: string) returns (r: Result<TestFile>)
      requires Valid()
      modifies this
      ensures Valid()
      ensures r.Err? <==> FileFor(dirname, qualname, basename).Err?
      ensures r.Err? ==> Repr == old(Repr) && Value() == old(Value())
      ensures dirname == old(dirname) && qualname == old(qualname) && subfolders == old(subfolders)
      ensures r.Err? ==> files == old(files)
      ensures r.Ok? ==>
        && fresh(r.value) && fresh(r.value.Repr) && r.value.Valid() && Repr == old(Repr) + r.value.Repr
        && r.value.filename == FileFor(dirname, qualname, basename).value.filename
        && r.value.qualname == FileFor(dirname, qualname, basename).value.qualname
        && r.value.suites == [] && r.value.tests == []
        && r.value.Value() == FileFor(dirname, qualname, basename).value
        && files == old(files) + [r.value]
        && Value() == old(Value()).(files := old(Value()).files + [r.value.Value()])
    {
      if !EndsWith(basename, ".py") {
        return Err(NON_PYTHON_FILE);
      }
      var file := new TestFile(Paths.Join(dirname, basename), Qualify(qualname, basename[..|basename| - 3]), [], []);
      files := files + [file];
      Repr := Repr + file.Repr;
      r := Ok(file);
    }

    /** `add_subfolder(basename)`. */
    method AddSubfolder(basename: string) returns (folder: TestFolder)
      requires Valid()
      modifies this
      ensures Valid()
      ensures fresh(folder) && fresh(folder.Repr) && folder.Valid() && Repr == old(Repr) + folder.Repr
      ensures dirname == old(dirname) && qualname == old(qualname) && files == old(files)
      ensures folder.dirname == Paths.Join(dirname, basename) && folder.qualname == Qualify(qualname, basename)
      ensures folder.files == [] && folder.subfolders == []
      ensures folder.Value() == FolderRecord(Paths.Join(dirname, basename), Qualify(qualname, basename), [], [])
      ensures subfolders == old(subfolders) + [folder]
      ensures Value() == old(Value()).(subfolders := old(Value()).subfolders + [folder.Value()])
    {
      ghost var v := Value();
      folder := new TestFolder(Paths.Join(dirname, basename), Qualify(qualname, basename), [], []);
      assert folder.Value() == FolderRecord(Paths.Join(dirname, basename), Qualify(qualname, basename), [], []);
      assert folder.Repr == {folder} by {
        assert FilesRepr([]) == {} && FoldersRepr([]) == {};
      }
      ghost var before := subfolders;
      subfolders := subfolders + [folder];
      Repr := Repr + folder.Repr;
      assert forall i :: 0 <= i < |before| ==> subfolders[i] == before[i];
      assert subfolders[|before|] == folder;
      assert Valid();
      assert Value().files == v.files;
      assert Value().subfolders == v.subfolders + [folder.Value()];
    }

    /** `all_tests()`. */
    method AllTests() returns (r: seq<Test>)
      requires Valid()
      ensures r == FolderTests(Value())
      decreases Repr, 1
    {
      r := FileListTests();
      var below := SubfoldersTests();
      r := r + below;
    }

    /** The first loop of `all_tests()`: the files' tests in order. */
    method FileListTests() returns (r: seq<Test>)
      requires Valid()
      ensures r == FilesTests(Value().files)
    {
      ghost var v := Value();
      r := [];
      var k := 0;
      while k < |files|
        invariant 0 <= k <= |files|
        invariant r == FilesTests(v.files[..k])
      {
        var more := files[k].AllTests();
        assert v.files[k] == files[k].Value();
        assert v.files[..k + 1][..k] == v.files[..k];
        r := r + more;
        k := k + 1;
      }
      assert v.files[..k] == v.files;
    }

    /** The second loop of `all_tests()`: the subfolders' tests in order. */
    method SubfoldersTests() returns (r: seq<Test>)
      requires Valid()
      ensures r == FoldersTests(Value().subfolders)
      decreases Repr, 0
    {
      ghost var v := Value();
      r := [];
      var k := 0;
      while k < |subfolders|
        invariant 0 <= k <= |subfolders|
        invariant r == FoldersTests(v.subfolders[..k])
      {
        var more := subfolders[k].AllTests();
        assert v.subfolders[k] == subfolders[k].Value();
        assert v.subfolders[..k + 1][..k] == v.subfolders[..k];
        r := r + more;
        k := k + 1;
      }
      assert v.subfolders[..k] == v.subfolders;
    }
  }
}
