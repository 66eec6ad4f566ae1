/** The path helpers of `pythonEnvironments/common/commonUtils.ts`: the
    environment-directory heuristic, the interpreter search over a directory
    tree, the choice of the interpreter binary in an environment, and the two
    version folds. The file system is an in-memory tree and the probes the
    folds consult are parameters. */
module CommonUtils {
  import opened Wrappers
  import opened Text
  import opened Paths
  import opened BasicVersion
  import opened PythonVersion

  /** `getEnvironmentDirFromPath`: the interpreter's directory, or its parent
      when that directory is a `bin` or `scripts` directory in any case. */
  function GetEnvironmentDirFromPath(interpreterPath: string): (r: string)
    ensures ToLower(Basename(Dirname(interpreterPath))) in ["bin", "scripts"] ==> r == Dirname(Dirname(interpreterPath))
    ensures ToLower(Basename(Dirname(interpreterPath))) !in ["bin", "scripts"] ==> r == Dirname(interpreterPath)
  {
    var dir := Basename(Dirname(interpreterPath));
    if ToLower(dir) !in ["bin", "scripts"] then Dirname(interpreterPath)
    else Dirname(Dirname(interpreterPath))
  }

  /** For an interpreter `root/dir/exe`, the environment directory is `root`
      when `dir` is a binary directory and `root/dir` otherwise. */
  lemma EnvironmentDirOfLayout(root: string, dir: string, exe: string)
    requires root != "" && !EndsWith(root, "/")
    requires dir != "" && '/' !in dir && exe != "" && '/' !in exe
    ensures ToLower(dir) in ["bin", "scripts"] ==> GetEnvironmentDirFromPath(Paths.Join(Paths.Join(root, dir), exe)) == root
    ensures ToLower(dir) !in ["bin", "scripts"] ==>
      GetEnvironmentDirFromPath(Paths.Join(Paths.Join(root, dir), exe)) == Paths.Join(root, dir)
  {
    var binDir := Paths.Join(root, dir);
    JoinSplitsBack(root, dir);
    assert binDir == root + "/" + dir by {
      assert !StartsWith(dir, "/") by {
        assert dir[..1][0] == dir[0];
      }
    }
    assert !EndsWith(binDir, "/") by {
      assert binDir[|binDir| - 1] == dir[|dir| - 1];
      assert binDir[|binDir| - 1..] == [binDir[|binDir| - 1]];
    }
    JoinSplitsBack(binDir, dir);
    JoinSplitsBack(binDir, exe);
  }

  /** The `filter` closure of `getInterpreterPathFromDir`, applied to a full
      path: the whole path lowercased is `bin` or `scripts`, or it contains
      `python` anywhere. */
  predicate InterpreterDirFilter(fullPath: string): (r: bool)
    ensures r <==>
      || ToLower(fullPath) == "bin" || ToLower(fullPath) == "scripts"
      || exists i :: OccursAt(ToLower(fullPath), "python", i)
  {
    var lower := ToLower(fullPath);
    ContainsIff(lower, "python");
    lower in ["bin", "scripts"] || Contains(lower, "python")
  }

  /** A string that contains a non-empty text contains its first character. */
  lemma {:induction false} ContainsFirstChar(s: string, sub: string)
    requires sub != [] && Contains(s, sub)
    ensures sub[0] in s
    decreases |s|
  {
    if StartsWith(s, sub) {
      assert s[0] == s[..|sub|][0];
    } else {
      ContainsFirstChar(s[1..], sub);
      assert sub[0] in s[1..];
    }
  }

  /** The filter sees full paths, so a `bin` directory under a path without
      `python` in it is rejected. */
  lemma BinDirRejected()
    ensures !InterpreterDirFilter("/env/bin")
  {
    var lower := ToLower("/env/bin");
    assert 'p' !in lower by {
      forall i | 0 <= i < |lower|
        ensures lower[i] != 'p'
      {
        assert "/env/bin"[i] in "/envbi";
      }
    }
    if Contains(lower, "python") {
      ContainsFirstChar(lower, "python");
    }
  }

  /** A directory whose full path contains `python` is accepted. */
  lemma PythonDirAccepted(parent: string, suffix: string)
    ensures InterpreterDirFilter(parent + "/python" + suffix)
  {
    var s := parent + "/python" + suffix;
    var lower := ToLower(s);
    var k := |parent| + 1;
    assert lower[k..k + 6] == "python" by {
      forall j | 0 <= j < 6
        ensures lower[k + j] == "python"[j]
      {
        assert s[k + j] == "/python"[j + 1];
      }
    }
    ContainsAt(lower, "python", k);
  }

  /** So the search of `getInterpreterPathFromDir` finds nothing in an
      environment laid out as `/env/bin/python`. */
  lemma InterpreterSearchSkipsBinDir(checkBin: string -> bool)
    ensures FindInterpretersInDir("/env", [Folder("bin", [File("python")])], 2, InterpreterDirFilter, checkBin) == {}
  {
    var entries := [Folder("bin", [File("python")])];
    EnvBinPath();
    BinDirRejected();
    assert entries[1..] == [];
    assert FindInterpretersInDir("/env", [], 2, InterpreterDirFilter, checkBin) == {};
  }

  lemma EnvBinPath()
    ensures Paths.Join("/env", "bin") == "/env/bin"
  {
    assert "bin"[..1][0] == 'b' && "/env"[3..][0] == 'v';
    assert "/env" + "/" + "bin" == "/env/bin";
  }

  /** The filter used when none is given. */
  predicate AcceptAll(fullPath: string) {
    true
  }

  /** A directory entry of the in-memory file system. */
  datatype Node = File(name: string) | Folder(name: string, entries: seq<Node>)

  /** The files directly in a listing that the filter and the binary test
      accept, as full paths. */
  function TopLevelBinaries(root: string, entries: seq<Node>, filter: string -> bool, checkBin: string -> bool): set<string> {
    set i | 0 <= i < |entries| && entries[i].File?
      && filter(Paths.Join(root, entries[i].name)) && checkBin(Paths.Join(root, entries[i].name))
      :: Paths.Join(root, entries[i].name)
  }

  /** `findInterpretersInDir(root, recurseLevels, filter)` over the listing
      `entries` of `root`: each entry's full path that passes the filter is
      yielded when it is a file the binary test `checkBin` accepts, and
      searched with one level less and no filter when it is a directory and
      levels remain. A missing `recurseLevels` behaves as 0. The generators
      are consumed concurrently, so the result is a set. */
  function FindInterpretersInDir(
    root: string, entries: seq<Node>, recurseLevels: int, filter: string -> bool, checkBin: string -> bool): (r: set<string>)
    ensures forall x :: x in r ==> checkBin(x)
    ensures recurseLevels <= 0 ==> r == TopLevelBinaries(root, entries, filter, checkBin)
    decreases if recurseLevels > 0 then recurseLevels else 0, |entries|
  {
    if entries == [] then {}
    else
      var fullPath := Paths.Join(root, entries[0].name);
      var first :=
        if !filter(fullPath) then {}
        else match entries[0]
          case File(_) => if checkBin(fullPath) then {fullPath} else {}
          case Folder(_, children) =>
            if recurseLevels > 0 then FindInterpretersInDir(fullPath, children, recurseLevels - 1, AcceptAll, checkBin)
            else {};
      var rest := FindInterpretersInDir(root, entries[1..], recurseLevels, filter, checkBin);
      TopLevelStep(root, entries, filter, checkBin);
      first + rest
  }

  lemma TopLevelStep(root: string, entries: seq<Node>, filter: string -> bool, checkBin: string -> bool)
    requires entries != []
    ensures TopLevelBinaries(root, entries, filter, checkBin) ==
      (var fullPath := Paths.Join(root, entries[0].name);
       (if entries[0].File? && filter(fullPath) && checkBin(fullPath) then {fullPath} else {})
       + TopLevelBinaries(root, entries[1..], filter, checkBin))
  {
    var fullPath := Paths.Join(root, entries[0].name);
    var whole := TopLevelBinaries(root, entries, filter, checkBin);
    var tail := TopLevelBinaries(root, entries[1..], filter, checkBin);
    var head: set<string> := if entries[0].File? && filter(fullPath) && checkBin(fullPath) then {fullPath} else {};
    forall x | x in whole
      ensures x in head + tail
    {
      var i :| 0 <= i < |entries| && entries[i].File?
        && filter(Paths.Join(root, entries[i].name)) && checkBin(Paths.Join(root, entries[i].name))
        && x == Paths.Join(root, entries[i].name);
      if i > 0 {
        assert entries[1..][i - 1] == entries[i];
      }
    }
    forall x | x in tail
      ensures x in whole
    {
      var i :| 0 <= i < |entries[1..]| && entries[1..][i].File?
        && filter(Paths.Join(root, entries[1..][i].name)) && checkBin(Paths.Join(root, entries[1..][i].name))
        && x == Paths.Join(root, entries[1..][i].name);
      assert entries[i + 1] == entries[1..][i];
    }
  }

  /** A directory at the top level that passes the filter is searched with one
      level less and without the filter: the filter is not passed down. */
  lemma {:induction false} FindInterpretersDescends(
    root: string, entries: seq<Node>, recurseLevels: int, filter: string -> bool, checkBin: string -> bool, i: nat)
    requires i < |entries| && entries[i].Folder? && recurseLevels > 0
    requires filter(Paths.Join(root, entries[i].name))
    ensures FindInterpretersInDir(Paths.Join(root, entries[i].name), entries[i].entries, recurseLevels - 1, AcceptAll, checkBin)
      <= FindInterpretersInDir(root, entries, recurseLevels, filter, checkBin)
    decreases i
  {
    if i > 0 {
      FindInterpretersDescends(root, entries[1..], recurseLevels, filter, checkBin, i - 1);
      assert entries[1..][i - 1] == entries[i];
    }
  }

  /** A file at the top level is found exactly when it passes the filter and
      the binary test, whatever the depth. */
  lemma {:induction false} FindInterpretersTopFile(
    root: string, entries: seq<Node>, recurseLevels: int, filter: string -> bool, checkBin: string -> bool, i: nat)
    requires i < |entries| && entries[i].File?
    requires filter(Paths.Join(root, entries[i].name)) && checkBin(Paths.Join(root, entries[i].name))
    ensures Paths.Join(root, entries[i].name) in FindInterpretersInDir(root, entries, recurseLevels, filter, checkBin)
    decreases i
  {
    if i > 0 {
      FindInterpretersTopFile(root, entries[1..], recurseLevels, filter, checkBin, i - 1);
      assert entries[1..][i - 1] == entries[i];
    }
  }

  /** The binary names `getInterpreterPathFromDir` accepts: a base name of six
      or ten characters that, lowercased, spells the start of `python.exe`. */
  predicate IsPythonBinaryName(path: string): (r: bool)
    ensures r <==>
      var base := Basename(path);
      && (|base| == 6 || |base| == 10)
      && forall i :: 0 <= i < |base| ==> ToLowerChar(base[i]) == "python.exe"[i]
  {
    var base := Basename(path);
    ToLowerIs(base, "python");
    ToLowerIs(base, "python.exe");
    assert forall i :: 0 <= i < 6 ==> "python"[i] == "python.exe"[i];
    ToLower(base) == "python.exe" || ToLower(base) == "python"
  }

  /** `found[i]` is the first binary name in `found`. */
  predicate FirstPythonBinaryAt(found: seq<string>, i: int) {
    0 <= i < |found| && IsPythonBinaryName(found[i]) && forall j :: 0 <= j < i ==> !IsPythonBinaryName(found[j])
  }

  /** `getInterpreterPathFromDir(envDir)`: the first of the paths the search
      `findInterpretersInDir(envDir, 2, filter)` yields whose lowercased base
      name is `python` or `python.exe`. `entries` is the listing of `envDir`,
      `checkBin` the binary test of the search, and `found` the search's
      paths in the order they arrive. */
  method GetInterpreterPathFromDir(envDir: string, entries: seq<Node>, checkBin: string -> bool, found: seq<string>)
    returns (r: Option<string>)
    requires forall x :: x in found <==> x in FindInterpretersInDir(envDir, entries, 2, InterpreterDirFilter, checkBin)
    ensures r.None? <==> forall i :: 0 <= i < |found| ==> !IsPythonBinaryName(found[i])
    ensures r.Some? ==> exists i :: FirstPythonBinaryAt(found, i) && found[i] == r.value
    ensures r.None? <==> forall x :: x in FindInterpretersInDir(envDir, entries, 2, InterpreterDirFilter, checkBin) ==> !IsPythonBinaryName(x)
    ensures r.Some? ==> r.value in FindInterpretersInDir(envDir, entries, 2, InterpreterDirFilter, checkBin) && checkBin(r.value)
  {
    r := FirstPythonBinary(found);
    FoundIsSearch(found, FindInterpretersInDir(envDir, entries, 2, InterpreterDirFilter, checkBin));
  }

  /** The loop of `getInterpreterPathFromDir` over the paths as they arrive. */
  method FirstPythonBinary(found: seq<string>) returns (r: Option<string>)
    ensures r.None? <==> forall i :: 0 <= i < |found| ==> !IsPythonBinaryName(found[i])
    ensures r.Some? ==> exists i :: FirstPythonBinaryAt(found, i) && found[i] == r.value
  {
    var k := 0;
    while k < |found|
      invariant 0 <= k <= |found|
      invariant forall j :: 0 <= j < k ==> !IsPythonBinaryName(found[j])
    {
      if IsPythonBinaryName(found[k]) {
        assert FirstPythonBinaryAt(found, k);
        return Some(found[k]);
      }
      k := k + 1;
    }
    return None;
  }

  /** The paths of a search, whatever order they arrive in, hold a binary
      name exactly when the search's set does. */
  lemma FoundIsSearch(found: seq<string>, search: set<string>)
    requires forall x :: x in found <==> x in search
    ensures (forall i :: 0 <= i < |found| ==> !IsPythonBinaryName(found[i])) <==> (forall x :: x in search ==> !IsPythonBinaryName(x))
  {
  }

  /** One step of `getPythonVersionFromNearByFiles`: a file name that parses
      to a version `compareVersions` puts BEFORE the current one replaces it. */
  function NearByStep(current: Version, interpreter: string): Version {
    match ParseVersion(Basename(interpreter))
    case Err(_) => current
    case Ok(v) => if CompareVersions(v, current) > 0 then v else current
  }

  function NearByFold(current: Version, interpreters: seq<string>): Version
    decreases |interpreters|
  {
    if interpreters == [] then current
    else NearByFold(NearByStep(current, interpreters[0]), interpreters[1..])
  }

  /** `getPythonVersionFromNearByFiles`, given the interpreters the search
      of the interpreter's directory yields, in that order. */
  method GetPythonVersionFromNearByFiles(interpreters: seq<string>) returns (version: Version)
    ensures version == NearByFold(GetEmptyVersion(), interpreters)
  {
    version := GetEmptyVersion();
    var k := 0;
    while k < |interpreters|
      invariant 0 <= k <= |interpreters|
      invariant NearByFold(version, interpreters[k..]) == NearByFold(GetEmptyVersion(), interpreters)
    {
      assert interpreters[k..][1..] == interpreters[k + 1..];
      var parsed := ParseVersion(Basename(interpreters[k]));
      if parsed.Ok? {
        var curVersion := parsed.value;
        if CompareVersions(curVersion, version) > 0 {
          version := curVersion;
        }
      }
      k := k + 1;
    }
    assert interpreters[k..] == [];
  }

  /** A parsed version never has a major part below the -1 sentinel. */
  lemma ParseVersionMajor(s: string)
    requires ParseVersion(s).Ok?
    ensures ParseVersion(s).value.major >= -1
  {
    if s != "" {
      var basic := ParseBasicVersionInfo(s);
      assert basic.Some?;
    }
  }

  /** No version whose major part is at least -1 comes before the empty
      version. */
  lemma NothingBeforeEmpty(v: Version)
    requires v.major >= -1
    ensures !VersionLess(v, GetEmptyVersion())
  {
  }

  /** Under the sign convention of `compareVersions`, the search for a
      version among nearby files replaces the current version only by one
      that comes before it; starting from the empty version, which comes
      before every parsed version, it always ends with the empty version. */
  lemma {:induction false} NearByFoldFromEmpty(interpreters: seq<string>)
    ensures NearByFold(GetEmptyVersion(), interpreters) == GetEmptyVersion()
    decreases |interpreters|
  {
    if interpreters != [] {
      var parsed := ParseVersion(Basename(interpreters[0]));
      if parsed.Ok? {
        ParseVersionMajor(Basename(interpreters[0]));
        NothingBeforeEmpty(parsed.value);
      }
      assert NearByStep(GetEmptyVersion(), interpreters[0]) == GetEmptyVersion();
      NearByFoldFromEmpty(interpreters[1..]);
    }
  }

  /** The version a hint gives: the empty version for no hint or a hint that
      does not parse. */
  function HintVersion(hint: Option<string>): (r: Version)
    ensures hint.None? || hint == Some("") ==> r == GetEmptyVersion()
    ensures hint.Some? && ParseVersion(hint.value).Err? ==> r == GetEmptyVersion()
    ensures hint.Some? && ParseVersion(hint.value).Ok? ==> r == ParseVersion(hint.value).value
  {
    if hint.None? || hint == Some("") then GetEmptyVersion()
    else match ParseVersion(hint.value)
      case Ok(v) => v
      case Err(_) => GetEmptyVersion()
  }

  /** One step of the fold in `getPythonVersionFromPath`: the current version
      is kept when `compareVersions` puts it before the next one. */
  function KeepStep(current: Version, v: Version): (r: Version)
    ensures r == current || r == v
    ensures !VersionLess(v, r)
    ensures VersionLess(current, v) <==> r == current && current != v
  {
    VersionTrichotomy(current, v);
    VersionLessIrreflexive(v);
    if CompareVersions(current, v) > 0 then current else v
  }

  function KeepFold(current: Version, vs: seq<Version>): Version
    decreases |vs|
  {
    if vs == [] then current else KeepFold(KeepStep(current, vs[0]), vs[1..])
  }

  /** The fold keeps a least version under `compareVersions`' order: one of
      the inputs, with none of the inputs before it. */
  lemma {:induction false} KeepFoldLeast(current: Version, vs: seq<Version>)
    ensures KeepFold(current, vs) == current || KeepFold(current, vs) in vs
    ensures !VersionLess(current, KeepFold(current, vs))
    ensures forall i :: 0 <= i < |vs| ==> !VersionLess(vs[i], KeepFold(current, vs))
    decreases |vs|
  {
    VersionLessIrreflexive(current);
    if vs != [] {
      var next := KeepStep(current, vs[0]);
      KeepFoldLeast(next, vs[1..]);
      var r := KeepFold(current, vs);
      assert r == KeepFold(next, vs[1..]);
      forall i | 0 <= i < |vs|
        ensures !VersionLess(vs[i], r)
      {
        if i > 0 {
          assert vs[i] == vs[1..][i - 1];
        } else if VersionLess(vs[0], r) {
          VersionLessTransitive(next, vs[0], r);
        }
      }
      if VersionLess(current, r) {
        if next == current {
        } else {
          VersionTrichotomy(current, vs[0]);
          if VersionLess(vs[0], current) {
            VersionLessTransitive(vs[0], current, r);
          } else {
            assert VersionEquiv(current, vs[0]);
            VersionEquivLess(current, vs[0], r);
          }
        }
      }
    }
  }

  /** Versions the order cannot tell apart have the same successors. */
  lemma VersionEquivLess(a: Version, b: Version, c: Version)
    requires VersionEquiv(a, b) && VersionLess(a, c)
    ensures VersionLess(b, c)
  {
  }

  /** The four candidates of `getPythonVersionFromPath`: the hint's version,
      then the nearby-files, virtual-environment and conda probes, all empty
      when there is no interpreter path. */
  function PathCandidates(
    interpreterPath: Option<string>, hint: Option<string>, nearBy: Version, venv: Version, conda: Version): seq<Version>
  {
    var hasPath := interpreterPath.Some? && interpreterPath.value != "";
    [HintVersion(hint),
     if hasPath then nearBy else GetEmptyVersion(),
     if hasPath then venv else GetEmptyVersion(),
     if hasPath then conda else GetEmptyVersion()]
  }

  /** `getPythonVersionFromPath`. The interpreters near the given path (as
      the search yields them) and the versions the virtual-environment and
      conda probes report, which need a file system, are parameters. */
  method GetPythonVersionFromPath(
    interpreterPath: Option<string>, hint: Option<string>,
    nearByInterpreters: seq<string>, venvVersion: Version, condaVersion: Version) returns (version: Version)
    ensures version == KeepFold(GetEmptyVersion(),
      PathCandidates(interpreterPath, hint, NearByFold(GetEmptyVersion(), nearByInterpreters), venvVersion, condaVersion))
  {
    var hasPath := interpreterPath.Some? && interpreterPath.value != "";
    var versionA := HintVersion(hint);
    var versionB := GetEmptyVersion();
    if hasPath {
      versionB := GetPythonVersionFromNearByFiles(nearByInterpreters);
    }
    var versionC := if hasPath then venvVersion else GetEmptyVersion();
    var versionD := if hasPath then condaVersion else GetEmptyVersion();
    var candidates := [versionA, versionB, versionC, versionD];
    assert candidates == PathCandidates(interpreterPath, hint, NearByFold(GetEmptyVersion(), nearByInterpreters), venvVersion, condaVersion);
    version := GetEmptyVersion();
    var k := 0;
    while k < |candidates|
      invariant 0 <= k <= |candidates|
      invariant KeepFold(version, candidates[k..]) == KeepFold(GetEmptyVersion(), candidates)
    {
      assert candidates[k..][1..] == candidates[k + 1..];
      version := if CompareVersions(version, candidates[k]) > 0 then version else candidates[k];
      k := k + 1;
    }
    assert candidates[k..] == [];
  }

  /** Whatever the hint says, when the probes report versions whose major part
      is at least -1, `getPythonVersionFromPath` returns a version the order
      cannot tell from the empty one: major -1 and no release object. */
  lemma GetPythonVersionFromPathIsEmpty(
    interpreterPath: Option<string>, hint: Option<string>, nearBy: Version, venv: Version, conda: Version)
    requires nearBy.major >= -1 && venv.major >= -1 && conda.major >= -1
    ensures var r := KeepFold(GetEmptyVersion(), PathCandidates(interpreterPath, hint, nearBy, venv, conda));
      r.major == -1 && r.release.None?
  {
    var vs := PathCandidates(interpreterPath, hint, nearBy, venv, conda);
    var r := KeepFold(GetEmptyVersion(), vs);
    if hint.Some? && hint.value != "" && ParseVersion(hint.value).Ok? {
      ParseVersionMajor(hint.value);
    }
    KeepFoldLeast(GetEmptyVersion(), vs);
    assert r in [GetEmptyVersion()] + vs;
    NothingBeforeEmpty(r);
  }
}
