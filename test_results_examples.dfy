/** The `test_all_tests` cases of the adapter's result tests, replayed on the
    classes of `TestResults`. Each case grows children through the handles
    the `add_*` methods hand out, as the tests do. After such a step the
    parent's footprint is read again by a ghost `Refresh`, which does
    nothing at run time. Each case then asks the root for all its tests.

    The building steps track the objects' fields only; the records of
    `Value()` are read once, in the final heap, by the lemmas that close
    each case. */
module TestResultsExamples {
  import opened Wrappers
  import opened TestResults

  // The cases compare the collected tests with the ones `add_test`
  // returned, so the expected names below are built as `add_test` builds
  // them: `Qualify("x.y.z", "test_spam")` is `x.y.z.test_spam`.

  const ZFile := "/x/y/z.py"

  // The suites and tests of `TestSuiteTests.test_all_tests`.
  const Sub1Suite := Qualify("x.y.z.ATests", "Sub1Tests")
  const Sub2Suite := Qualify("x.y.z.ATests", "Sub2Tests")
  const SuiteSpam := Test(Qualify("x.y.z.ATests", "test_spam"), Some(ZFile), Some(15))
  const SuiteEggs := Test(Qualify("x.y.z.ATests", "test_eggs"), Some(ZFile), Some(100))
  const Sub1Ham := Test(Qualify(Sub1Suite, "test_ham"), Some(ZFile), Some(35))
  const Sub2Ham := Test(Qualify(Sub2Suite, "test_ham"), Some(ZFile), Some(72))

  // The suites and tests of `TestFileTests.test_all_tests`, also built by
  // the folder case.
  const ASuite := Qualify("x.y.z", "ATests")
  const SubSuite := Qualify(ASuite, "SubTests")
  const BSuite := Qualify("x.y.z", "BTests")
  const ZSpam := Test(Qualify("x.y.z", "test_spam"), Some(ZFile), Some(15))
  const ZEggs := Test(Qualify("x.y.z", "test_eggs"), Some(ZFile), Some(100))
  const AHam := Test(Qualify(ASuite, "test_ham"), Some(ZFile), Some(35))
  const SubSpam := Test(Qualify(SubSuite, "test_spam"), Some(ZFile), Some(47))
  const BHam := Test(Qualify(BSuite, "test_ham"), Some(ZFile), Some(72))

  // The subfolder, file, suite and test the folder case adds below `/x/y`.
  const SubDir := Paths.Join("/x/y", "sub")
  const SubQual := Qualify("x.y", "sub")
  const WFile := Paths.Join(SubDir, "w.py")
  const WQual := Qualify(SubQual, "w")
  const CSuite := Qualify(WQual, "CTests")
  const CTest := Test(Qualify(CSuite, "test_x"), Some(WFile), Some(15))

  /** The fields of a suite, its subsuites as objects. */
  ghost predicate SuiteIs(s: TestSuite, qualname: string, filename: Option<string>, lineno: Option<int>,
                          tests: seq<Test>, subsuites: seq<TestSuite>)
    reads s
  {
    s.qualname == qualname && s.filename == filename && s.lineno == lineno && s.tests == tests && s.subsuites == subsuites
  }

  /** The fields of a file, its suites as objects. */
  ghost predicate FileIs(f: TestFile, filename: string, qualname: string, suites: seq<TestSuite>, tests: seq<Test>)
    reads f
  {
    f.filename == filename && f.qualname == qualname && f.suites == suites && f.tests == tests
  }

  /** The fields of a folder, its files and subfolders as objects. */
  ghost predicate FolderIs(f: TestFolder, dirname: string, qualname: string, files: seq<TestFile>, subfolders: seq<TestFolder>)
    reads f
  {
    f.dirname == dirname && f.qualname == qualname && f.files == files && f.subfolders == subfolders
  }

  /** A suite without subsuites: its tests are its own. */
  lemma LeafTests(s: SuiteRecord)
    requires s.subsuites == []
    ensures SuiteTests(s) == s.tests
  {
  }

  /** The tests of two suites in a row. */
  lemma TwoSuitesTests(a: SuiteRecord, b: SuiteRecord)
    ensures SuitesTests([a, b]) == SuiteTests(a) + SuiteTests(b)
  {
    assert [a, b][..1] == [a] && [a][..0] == [];
    assert SuitesTests([a]) == SuiteTests(a);
  }

  // ---------------------------------------------------------------------
  // `TestSuiteTests.test_all_tests`

  /** The suite's own tests first, then each subsuite's. */
  method SuiteAllTestsExample() returns (tests: seq<Test>)
    ensures tests == [SuiteSpam, SuiteEggs, Sub1Ham, Sub2Ham]
  {
    var suite := new TestSuite("x.y.z.ATests", Some(ZFile), None, [], []);
    var sub1 := SuiteCaseFirst(suite);
    var sub2 := SuiteCaseSecond(suite, sub1);
    tests := suite.AllTests();
    SuiteCaseTests(suite, sub1, sub2);
  }

  method SuiteCaseFirst(suite: TestSuite) returns (sub1: TestSuite)
    requires suite.Valid() && SuiteIs(suite, "x.y.z.ATests", Some(ZFile), None, [], [])
    modifies suite
    ensures suite.Valid() && sub1.Valid() && suite !in sub1.Repr
    ensures SuiteIs(suite, "x.y.z.ATests", Some(ZFile), None, [SuiteSpam], [sub1])
    ensures SuiteIs(sub1, Sub1Suite, Some(ZFile), Some(30), [Sub1Ham], [])
  {
    var test1 := suite.AddTest("test_spam", Some(15));
    var r := suite.AddSubsuite("Sub1Tests", Some(30));
    sub1 := r.value;
    var test2 := sub1.AddTest("test_ham", Some(35));
    suite.Refresh({});
  }

  method SuiteCaseSecond(suite: TestSuite, sub1: TestSuite) returns (sub2: TestSuite)
    requires suite.Valid() && sub1.Valid() && suite !in sub1.Repr
    requires SuiteIs(suite, "x.y.z.ATests", Some(ZFile), None, [SuiteSpam], [sub1])
    modifies suite
    ensures suite.Valid() && sub1.Valid() && sub2.Valid()
    ensures SuiteIs(suite, "x.y.z.ATests", Some(ZFile), None, [SuiteSpam, SuiteEggs], [sub1, sub2])
    ensures SuiteIs(sub1, old(sub1.qualname), old(sub1.filename), old(sub1.lineno), old(sub1.tests), old(sub1.subsuites))
    ensures SuiteIs(sub2, Sub2Suite, Some(ZFile), Some(70), [Sub2Ham], [])
  {
    var r := suite.AddSubsuite("Sub2Tests", Some(70));
    sub2 := r.value;
    var test3 := sub2.AddTest("test_ham", Some(72));
    suite.Refresh({});
    var test4 := suite.AddTest("test_eggs", Some(100));
  }

  lemma SuiteCaseTests(suite: TestSuite, sub1: TestSuite, sub2: TestSuite)
    requires suite.Valid() && sub1.Valid() && sub2.Valid()
    requires SuiteIs(suite, "x.y.z.ATests", Some(ZFile), None, [SuiteSpam, SuiteEggs], [sub1, sub2])
    requires SuiteIs(sub1, Sub1Suite, Some(ZFile), Some(30), [Sub1Ham], [])
    requires SuiteIs(sub2, Sub2Suite, Some(ZFile), Some(70), [Sub2Ham], [])
    ensures SuiteTests(suite.Value()) == [SuiteSpam, SuiteEggs, Sub1Ham, Sub2Ham]
  {
    suite.ValueFields();
    sub1.ValueFields();
    sub2.ValueFields();
    var s1 := SuiteRecord(sub1.qualname, sub1.filename, sub1.lineno, sub1.tests, []);
    var s2 := SuiteRecord(sub2.qualname, sub2.filename, sub2.lineno, sub2.tests, []);
    assert sub1.Value() == s1 && sub2.Value() == s2;
    assert suite.Value().subsuites == [s1, s2];
    LeafTests(s1);
    LeafTests(s2);
    TwoSuitesTests(s1, s2);
  }

  // ---------------------------------------------------------------------
  // `TestFileTests.test_all_tests`

  /** The file's own tests first, then each suite's, a suite's own before
      its subsuites'. */
  method FileAllTestsExample() returns (tests: seq<Test>)
    ensures tests == [ZSpam, ZEggs, AHam, SubSpam, BHam]
  {
    var file := new TestFile(ZFile, "x.y.z", [], []);
    var a, sub, b := FillZFile(file);
    tests := file.AllTests();
    ZFileTests(file, a, sub, b);
  }

  /** The steps of the file case on an empty `/x/y/z.py`. */
  method FillZFile(file: TestFile) returns (a: TestSuite, sub: TestSuite, b: TestSuite)
    requires file.Valid() && FileIs(file, ZFile, "x.y.z", [], [])
    modifies file
    ensures file.Valid() && fresh(file.Repr - old(file.Repr))
    ensures a.Valid() && sub.Valid() && b.Valid()
    ensures FileIs(file, ZFile, "x.y.z", [a, b], [ZSpam, ZEggs])
    ensures SuiteIs(a, ASuite, Some(ZFile), Some(30), [AHam], [sub])
    ensures SuiteIs(sub, SubSuite, Some(ZFile), Some(45), [SubSpam], [])
    ensures SuiteIs(b, BSuite, Some(ZFile), Some(70), [BHam], [])
  {
    a := ZFileFirst(file);
    sub := ZFileSecond(file, a);
    b := ZFileThird(file, a, sub);
  }

  method ZFileFirst(file: TestFile) returns (a: TestSuite)
    requires file.Valid() && FileIs(file, ZFile, "x.y.z", [], [])
    modifies file
    ensures file.Valid() && fresh(file.Repr - old(file.Repr))
    ensures a.Valid() && fresh(a) && file !in a.Repr
    ensures FileIs(file, ZFile, "x.y.z", [a], [ZSpam])
    ensures SuiteIs(a, ASuite, Some(ZFile), Some(30), [AHam], [])
  {
    var test1 := file.AddTest("test_spam", Some(15));
    var r := file.AddSuite("ATests", Some(30));
    a := r.value;
    var test2 := a.AddTest("test_ham", Some(35));
    file.Refresh({});
  }

  method ZFileSecond(file: TestFile, a: TestSuite) returns (sub: TestSuite)
    requires file.Valid() && a.Valid() && file !in a.Repr
    requires FileIs(file, ZFile, "x.y.z", [a], [ZSpam])
    requires SuiteIs(a, ASuite, Some(ZFile), Some(30), [AHam], [])
    modifies file, a
    ensures file.Valid() && fresh(file.Repr - old(file.Repr))
    ensures a.Valid() && sub.Valid() && file !in a.Repr && sub.Repr <= a.Repr
    ensures FileIs(file, ZFile, "x.y.z", [a], [ZSpam])
    ensures SuiteIs(a, ASuite, Some(ZFile), Some(30), [AHam], [sub])
    ensures SuiteIs(sub, SubSuite, Some(ZFile), Some(45), [SubSpam], [])
  {
    var r := a.AddSubsuite("SubTests", Some(45));
    sub := r.value;
    var test3 := sub.AddTest("test_spam", Some(47));
    a.Refresh({});
    file.Refresh(sub.Repr);
  }

  method ZFileThird(file: TestFile, a: TestSuite, sub: TestSuite) returns (b: TestSuite)
    requires file.Valid() && a.Valid() && sub.Valid() && file !in a.Repr && sub.Repr <= a.Repr
    requires FileIs(file, ZFile, "x.y.z", [a], [ZSpam])
    modifies file
    ensures file.Valid() && fresh(file.Repr - old(file.Repr))
    ensures a.Valid() && sub.Valid() && b.Valid()
    ensures FileIs(file, ZFile, "x.y.z", [a, b], [ZSpam, ZEggs])
    ensures SuiteIs(a, old(a.qualname), old(a.filename), old(a.lineno), old(a.tests), old(a.subsuites))
    ensures SuiteIs(sub, old(sub.qualname), old(sub.filename), old(sub.lineno), old(sub.tests), old(sub.subsuites))
    ensures SuiteIs(b, BSuite, Some(ZFile), Some(70), [BHam], [])
  {
    var r := file.AddSuite("BTests", Some(70));
    b := r.value;
    var test4 := b.AddTest("test_ham", Some(72));
    file.Refresh({});
    var test5 := file.AddTest("test_eggs", Some(100));
  }

  lemma ZFileTests(file: TestFile, a: TestSuite, sub: TestSuite, b: TestSuite)
    requires file.Valid() && a.Valid() && sub.Valid() && b.Valid()
    requires FileIs(file, ZFile, "x.y.z", [a, b], [ZSpam, ZEggs])
    requires SuiteIs(a, ASuite, Some(ZFile), Some(30), [AHam], [sub])
    requires SuiteIs(sub, SubSuite, Some(ZFile), Some(45), [SubSpam], [])
    requires SuiteIs(b, BSuite, Some(ZFile), Some(70), [BHam], [])
    ensures FileTests(file.Value()) == [ZSpam, ZEggs, AHam, SubSpam, BHam]
  {
    file.ValueFields();
    a.ValueFields();
    sub.ValueFields();
    b.ValueFields();
    var vs := SuiteRecord(sub.qualname, sub.filename, sub.lineno, sub.tests, []);
    var va := SuiteRecord(a.qualname, a.filename, a.lineno, a.tests, [vs]);
    var vb := SuiteRecord(b.qualname, b.filename, b.lineno, b.tests, []);
    assert sub.Value() == vs && b.Value() == vb;
    assert a.Value() == va;
    assert file.Value().suites == [va, vb];
    LeafTests(vs);
    LeafTests(vb);
    assert SuitesTests([vs]) == [SubSpam] by {
      assert [vs][..0] == [];
    }
    TwoSuitesTests(va, vb);
  }

  // ---------------------------------------------------------------------
  // `TestFolderTests.test_all_tests`

  /** `folder.add_file('z.py')` on `/x/y` names the file as the file case does. */
  lemma ZFileFor()
    ensures FileFor("/x/y", "x.y", "z.py") == Ok(FileRecord(ZFile, "x.y.z", [], []))
  {
    assert "z.py"[1..] == ".py" && "z.py"[..1] == "z";
    ZFileJoin();
    ZFileQualify();
  }

  lemma ZFileJoin()
    ensures Paths.Join("/x/y", "z.py") == ZFile
  {
    assert "z.py"[..1][0] == 'z' && "/x/y"[3..][0] == 'y';
    assert "/x/y" + "/" + "z.py" == ZFile;
  }

  lemma ZFileQualify()
    ensures Qualify("x.y", "z") == "x.y.z"
  {
    assert "x.y" + "." + "z" == "x.y.z";
  }

  lemma WFileFor()
    ensures FileFor(SubDir, SubQual, "w.py") == Ok(FileRecord(WFile, WQual, [], []))
  {
    assert "w.py"[1..] == ".py" && "w.py"[..1] == "w";
  }

  /** Each file's tests in order, then each subfolder's. */
  method FolderAllTestsExample() returns (tests: seq<Test>)
    ensures tests == [ZSpam, ZEggs, AHam, SubSpam, BHam, CTest]
  {
    var folder := new TestFolder("/x/y", "x.y", [], []);
    var file := FolderCaseFirst(folder);
    var subfolder, w, c := FolderCaseSecond(folder, file);
    tests := folder.AllTests();
    FolderCaseTests(folder, file, subfolder, w, c);
  }

  /** `folder.add_file('z.py')` and the steps of the file case on it. */
  method FolderCaseFirst(folder: TestFolder) returns (file: TestFile)
    requires folder.Valid() && FolderIs(folder, "/x/y", "x.y", [], [])
    modifies folder
    ensures folder.Valid() && file.Valid() && folder !in file.Repr
    ensures FolderIs(folder, "/x/y", "x.y", [file], [])
    ensures FileTests(file.Value()) == [ZSpam, ZEggs, AHam, SubSpam, BHam]
  {
    ZFileFor();
    var r := folder.AddFile("z.py");
    file := r.value;
    ghost var before := file.Repr;
    var a, sub, b := FillZFile(file);
    folder.Refresh(file.Repr - before);
    ZFileTests(file, a, sub, b);
  }

  method FolderCaseSecond(folder: TestFolder, file: TestFile) returns (subfolder: TestFolder, w: TestFile, c: TestSuite)
    requires folder.Valid() && file.Valid() && folder !in file.Repr && FolderIs(folder, "/x/y", "x.y", [file], [])
    modifies folder
    ensures folder.Valid() && subfolder.Valid() && w.Valid() && c.Valid()
    ensures FolderIs(folder, "/x/y", "x.y", [file], [subfolder])
    ensures FolderIs(subfolder, SubDir, SubQual, [w], [])
    ensures FileIs(w, WFile, WQual, [c], [])
    ensures SuiteIs(c, CSuite, Some(WFile), Some(10), [CTest], [])
  {
    subfolder := folder.AddSubfolder("sub");
    ghost var before := subfolder.Repr;
    w, c := FillWFile(subfolder);
    folder.Refresh(subfolder.Repr - before);
  }

  /** `sub.add_file('w.py')` and the suite and test put in it. */
  method FillWFile(subfolder: TestFolder) returns (w: TestFile, c: TestSuite)
    requires subfolder.Valid() && FolderIs(subfolder, SubDir, SubQual, [], [])
    modifies subfolder
    ensures subfolder.Valid() && fresh(subfolder.Repr - old(subfolder.Repr)) && w.Valid() && c.Valid()
    ensures FolderIs(subfolder, SubDir, SubQual, [w], [])
    ensures FileIs(w, WFile, WQual, [c], [])
    ensures SuiteIs(c, CSuite, Some(WFile), Some(10), [CTest], [])
  {
    WFileFor();
    var r := subfolder.AddFile("w.py");
    w := r.value;
    c := FillCSuite(subfolder, w);
  }

  method FillCSuite(subfolder: TestFolder, w: TestFile) returns (c: TestSuite)
    requires subfolder.Valid() && w.Valid() && subfolder !in w.Repr
    requires FolderIs(subfolder, SubDir, SubQual, [w], []) && FileIs(w, WFile, WQual, [], [])
    modifies subfolder, w
    ensures subfolder.Valid() && fresh(subfolder.Repr - old(subfolder.Repr)) && w.Valid() && c.Valid()
    ensures FolderIs(subfolder, SubDir, SubQual, [w], [])
    ensures FileIs(w, WFile, WQual, [c], [])
    ensures SuiteIs(c, CSuite, Some(WFile), Some(10), [CTest], [])
  {
    var r := w.AddSuite("CTests", Some(10));
    c := r.value;
    var test6 := c.AddTest("test_x", Some(15));
    w.Refresh({});
    subfolder.Refresh(c.Repr);
  }

  lemma FolderCaseTests(folder: TestFolder, file: TestFile, subfolder: TestFolder, w: TestFile, c: TestSuite)
    requires folder.Valid() && file.Valid() && subfolder.Valid() && w.Valid() && c.Valid()
    requires FolderIs(folder, "/x/y", "x.y", [file], [subfolder])
    requires FileTests(file.Value()) == [ZSpam, ZEggs, AHam, SubSpam, BHam]
    requires FolderIs(subfolder, SubDir, SubQual, [w], [])
    requires FileIs(w, WFile, WQual, [c], [])
    requires SuiteIs(c, CSuite, Some(WFile), Some(10), [CTest], [])
    ensures FolderTests(folder.Value()) == [ZSpam, ZEggs, AHam, SubSpam, BHam, CTest]
  {
    folder.ValueFields();
    subfolder.ValueFields();
    w.ValueFields();
    c.ValueFields();
    var vc := SuiteRecord(c.qualname, c.filename, c.lineno, c.tests, []);
    assert c.Value() == vc;
    var vw := FileRecord(w.filename, w.qualname, [vc], []);
    assert w.Value() == vw;
    var vsub := FolderRecord(subfolder.dirname, subfolder.qualname, [vw], []);
    assert subfolder.Value() == vsub;
    var vfile := file.Value();
    assert folder.Value() == FolderRecord(folder.dirname, folder.qualname, [vfile], [vsub]);
    LeafTests(vc);
    assert SuitesTests([vc]) == [CTest] by {
      assert [vc][..0] == [];
    }
    assert FilesTests([vw]) == [CTest] by {
      assert [vw][..0] == [];
    }
    assert FolderTests(vsub) == [CTest];
    assert FilesTests([vfile]) == FileTests(vfile) by {
      assert [vfile][..0] == [];
    }
    assert FoldersTests([vsub]) == [CTest] by {
      assert [vsub][..0] == [];
    }
  }
}
