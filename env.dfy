/** The whole environment record of `base/info/env.ts`: building and updating
    it, normalizing and validating it, its display name, the same-environment
    test, priority sorting and the merge of two records. */
module Env {
  import opened Wrappers
  import opened Text
  import opened Paths
  import opened BasicVersion
  import opened PythonVersion
  import opened EnvKind
  import opened Executable
  import opened EnvBase
  import opened PythonBuild
  import opened PythonDistroMeta
  import opened PythonDistro
  import opened Uri

  /** `PythonEnvInfo`: the base and build parts flattened into one record,
      plus the distro and the two optional top-level properties. */
  datatype EnvInfo = EnvInfo(
    kind: Kind,
    executable: Executable,
    name: string,
    location: string,
    version: Version,
    arch: Arch,
    distro: Distro,
    defaultDisplayName: Option<string>,
    searchLocation: Option<Uri>)

  function BaseOf(e: EnvInfo): EnvBase {
    EnvBase(e.kind, e.executable, e.name, e.location)
  }

  function BuildOf(e: EnvInfo): Build {
    Build(e.version, e.arch)
  }

  /** `{ ...env, ...base }` */
  function WithBase(e: EnvInfo, b: EnvBase): (r: EnvInfo)
    ensures BaseOf(r) == b && BuildOf(r) == BuildOf(e)
  {
    e.(kind := b.kind, executable := b.executable, name := b.name, location := b.location)
  }

  /** `{ ...env, ...build }` */
  function WithBuild(e: EnvInfo, b: Build): (r: EnvInfo)
    ensures BuildOf(r) == b && BaseOf(r) == BaseOf(e)
  {
    e.(version := b.version, arch := b.arch)
  }

  /** `EMPTY_ENV`. */
  const EMPTY_ENV: EnvInfo := EnvInfo(
    Unknown, EMPTY_EXECUTABLE, "", "", EMPTY_VERSION, ArchUnknown,
    Distro(Some(""), None, None, None), None, None)

  /** `getEmptyEnv`. */
  function GetEmptyEnv(): (r: EnvInfo)
    ensures r.kind == Unknown && r.executable.filename == "" && IsVersionEmpty(r.version)
    ensures r.name == "" && r.location == "" && r.arch == ArchUnknown
  {
    EMPTY_ENV
  }

  /** The version given to `updateEnv`: none, a text to parse, or a record. */
  datatype VersionUpdate = NoVersion | VersionText(text: string) | VersionValue(version: Version)

  /** The `updates` argument of `updateEnv`; `None` is a missing property. */
  datatype EnvUpdates = EnvUpdates(
    kind: Option<Kind>, executable: Option<string>, location: Option<string>, version: VersionUpdate)

  /** The `init` argument of `buildEnvInfo`. */
  datatype BuildInit = BuildInit(
    updates: EnvUpdates, org: Option<string>, arch: Option<Arch>, fileInfo: Option<(int, int)>)

  /** `updateEnv`: each given property is written into the record in turn.
      A version text that does not parse raises an error after the kind,
      executable and location have already been written: `err` carries the
      error and `r` the record as the exception leaves it. */
  method UpdateEnv(env: EnvInfo, updates: EnvUpdates) returns (r: EnvInfo, err: Option<string>)
    ensures r.kind == updates.kind.GetOr(env.kind)
    ensures r.executable == env.executable.(filename := updates.executable.GetOr(env.executable.filename))
    ensures r.location == updates.location.GetOr(env.location)
    ensures err.Some? <==> updates.version.VersionText? && ParseVersion(updates.version.text).Err?
    ensures err.Some? ==> err.value == "invalid version " + updates.version.text
    ensures updates.version.NoVersion? || err.Some? ==> r.version == env.version
    ensures updates.version.VersionValue? ==> r.version == updates.version.version
    ensures updates.version.VersionText? && err.None? ==> r.version == ParseVersion(updates.version.text).value
    ensures r.(kind := env.kind, executable := env.executable, location := env.location, version := env.version) == env
  {
    r := env;
    err := None;
    if updates.kind.Some? {
      r := r.(kind := updates.kind.value);
    }
    if updates.executable.Some? {
      r := r.(executable := r.executable.(filename := updates.executable.value));
    }
    if updates.location.Some? {
      r := r.(location := updates.location.value);
    }
    match updates.version {
      case NoVersion =>
      case VersionValue(v) =>
        r := r.(version := v);
      case VersionText(text) =>
        var parsed := ParseVersion(text);
        if parsed.Ok? {
          r := r.(version := parsed.value);
        } else {
          err := Some(parsed.msg);
        }
    }
  }

  /** `buildEnvInfo`: the empty record with the file times, architecture and
      organisation of `init` set, then `updateEnv`; an unparsable version text
      is an error. */
  method BuildEnvInfo(init: Option<BuildInit>) returns (r: Result<EnvInfo>)
    ensures init.None? ==> r == Ok(EMPTY_ENV)
    ensures init.Some? ==> (r.Err? <==>
      init.value.updates.version.VersionText? && ParseVersion(init.value.updates.version.text).Err?)
    ensures r.Ok? && init.Some? ==>
      var i := init.value;
      var e := r.value;
      && e.kind == i.updates.kind.GetOr(Unknown)
      && e.executable.filename == i.updates.executable.GetOr("")
      && e.executable.sysPrefix == ""
      && (i.fileInfo.Some? ==> e.executable.ctime == i.fileInfo.value.0 && e.executable.mtime == i.fileInfo.value.1)
      && (i.fileInfo.None? ==> e.executable.ctime == -1 && e.executable.mtime == -1)
      && e.location == i.updates.location.GetOr("")
      && e.name == ""
      && e.arch == i.arch.GetOr(ArchUnknown)
      && e.distro == EMPTY_ENV.distro.(org := if i.org.Some? then i.org else Some(""))
      && (i.updates.version.NoVersion? ==> e.version == EMPTY_VERSION)
      && (i.updates.version.VersionValue? ==> e.version == i.updates.version.version)
      && (i.updates.version.VersionText? ==> e.version == ParseVersion(i.updates.version.text).value)
      && e.defaultDisplayName.None? && e.searchLocation.None?
  {
    var env := GetEmptyEnv();
    if init.None? {
      return Ok(env);
    }
    var i := init.value;
    if i.fileInfo.Some? {
      env := env.(executable := env.executable.(ctime := i.fileInfo.value.0));
      env := env.(executable := env.executable.(mtime := i.fileInfo.value.1));
    }
    if i.arch.Some? {
      env := env.(arch := i.arch.value);
    }
    if i.org.Some? {
      env := env.(distro := env.distro.(org := i.org));
    }
    var updated, err := UpdateEnv(env, i.updates);
    if err.Some? {
      return Err(err.value);
    }
    return Ok(updated);
  }

  /** `copyStrict`: the base, build and distro parts copied separately; as
      values, the record itself. */
  function CopyStrict(env: EnvInfo): (r: EnvInfo)
    ensures r == env
  {
    var copied := WithBuild(WithBase(env, CopyEnvBase(BaseOf(env))), CopyBuild(BuildOf(env)));
    copied.(distro := CopyDistro(copied.distro))
  }

  /** `copyEnvInfo`: a copy of the record with the given kind applied. */
  method CopyEnvInfo(env: EnvInfo, kind: Option<Kind>, strict: bool) returns (r: EnvInfo)
    ensures r == env.(kind := kind.GetOr(env.kind))
  {
    var copied := if strict then CopyStrict(env) else env;
    var err;
    r, err := UpdateEnv(copied, EnvUpdates(kind, None, None, NoVersion));
  }

  /** The words before the parenthesised suffix of a display name: "Python",
      the short version unless the version is empty, and the architecture
      unless it is unknown. */
  function DisplayNameParts(env: EnvInfo): (parts: seq<string>)
    ensures |parts| >= 1 && parts[0] == "Python"
    ensures forall i :: 0 <= i < |parts| ==> parts[i] != []
  {
    ["Python"]
    + (if !IsVersionEmpty(env.version) then [ShortVersionString(env.version)] else [])
    + (if env.arch != ArchUnknown then [ArchDisplayName(env.arch)] else [])
  }

  /** The parts inside the parentheses: the quoted name unless it is '' and
      the kind's display name unless it is ''. */
  function EnvSuffixParts(env: EnvInfo): seq<string> {
    (if env.name != "" then ["'" + env.name + "'"] else [])
    + (var kindName := GetKindDisplayName(env.kind); if kindName != "" then [kindName] else [])
  }

  /** The name parts joined by spaces, a space, the suffix parts joined by
      ": " in parentheses (nothing when there are none), and the whole
      trimmed. */
  function JoinDisplayName(nameParts: seq<string>, suffixParts: seq<string>): string {
    var suffix := if |suffixParts| == 0 then "" else "(" + Text.Join(suffixParts, ": ") + ")";
    Trim(Text.Join(nameParts, " ") + " " + suffix)
  }

  /** `buildEnvDisplayName`: the name starts with "Python" and is exactly the
      joined name parts followed, when there is any suffix part, by a space
      and the parenthesised suffix; the trim removes nothing else. */
  function BuildEnvDisplayName(env: EnvInfo): (r: string)
    ensures StartsWith(r, "Python")
    ensures EnvSuffixParts(env) == [] ==> r == Text.Join(DisplayNameParts(env), " ")
    ensures EnvSuffixParts(env) != [] ==>
      r == Text.Join(DisplayNameParts(env), " ") + " (" + Text.Join(EnvSuffixParts(env), ": ") + ")"
  {
    DisplayNamePartsEnd(env);
    JoinDisplayNameShape(DisplayNameParts(env), EnvSuffixParts(env));
    JoinDisplayName(DisplayNameParts(env), EnvSuffixParts(env))
  }

  /** Every display-name part ends in a letter or digit. */
  lemma DisplayNamePartsEnd(env: EnvInfo)
    ensures var parts := DisplayNameParts(env); !IsSpace(parts[|parts| - 1][|parts[|parts| - 1]| - 1])
  {
    if !IsVersionEmpty(env.version) {
      ShortVersionStringEnds(env.version);
    }
  }

  /** Trimming `joined + " " + suffix` drops only the separating space, and
      only when the suffix is empty. */
  lemma TrimJoinedSuffix(joined: string, suffix: string)
    requires joined != [] && !IsSpace(joined[0]) && !IsSpace(joined[|joined| - 1])
    requires suffix == [] || !IsSpace(suffix[|suffix| - 1])
    ensures suffix == [] ==> Trim(joined + " " + suffix) == joined
    ensures suffix != [] ==> Trim(joined + " " + suffix) == joined + " " + suffix
  {
    if suffix == [] {
      assert joined + " " + suffix == joined + " ";
      TrimOfTrailingSpace(joined);
    } else {
      var full := joined + " " + suffix;
      assert full[0] == joined[0];
      assert full[|full| - 1] == suffix[|suffix| - 1];
      TrimOfUnpadded(full);
    }
  }

  /** For name parts that end in a non-space, the trimming only removes the
      separating space when there is no suffix. */
  lemma JoinDisplayNameText(nameParts: seq<string>, suffixParts: seq<string>)
    requires |nameParts| >= 1 && nameParts[0] == "Python"
    requires nameParts[|nameParts| - 1] != [] && !IsSpace(nameParts[|nameParts| - 1][|nameParts[|nameParts| - 1]| - 1])
    ensures suffixParts == [] ==> JoinDisplayName(nameParts, suffixParts) == Text.Join(nameParts, " ")
    ensures suffixParts != [] ==>
      JoinDisplayName(nameParts, suffixParts) == Text.Join(nameParts, " ") + " (" + Text.Join(suffixParts, ": ") + ")"
  {
    var joined := Text.Join(nameParts, " ");
    var suffix := if |suffixParts| == 0 then "" else "(" + Text.Join(suffixParts, ": ") + ")";
    JoinFirst(nameParts, " ");
    JoinLast(nameParts, " ");
    TrimJoinedSuffix(joined, suffix);
    if suffixParts != [] {
      assert joined + " " + suffix == joined + " (" + Text.Join(suffixParts, ": ") + ")";
    }
  }

  /** For name parts that start with "Python" and end in a non-space, so
      does the display name. */
  lemma JoinDisplayNameShape(nameParts: seq<string>, suffixParts: seq<string>)
    requires |nameParts| >= 1 && nameParts[0] == "Python"
    requires nameParts[|nameParts| - 1] != [] && !IsSpace(nameParts[|nameParts| - 1][|nameParts[|nameParts| - 1]| - 1])
    ensures StartsWith(JoinDisplayName(nameParts, suffixParts), "Python")
    ensures suffixParts == [] ==> JoinDisplayName(nameParts, suffixParts) == Text.Join(nameParts, " ")
    ensures suffixParts != [] ==>
      JoinDisplayName(nameParts, suffixParts) == Text.Join(nameParts, " ") + " (" + Text.Join(suffixParts, ": ") + ")"
  {
    JoinDisplayNameText(nameParts, suffixParts);
    JoinStartsWith(nameParts, " ");
    if suffixParts != [] {
      StartsWithAppend(Text.Join(nameParts, " "), " (" + Text.Join(suffixParts, ": ") + ")", "Python");
    }
  }

  /** A named environment of a kind with a display name has both suffix
      parts. */
  lemma SuffixPartsOfNamed(env: EnvInfo)
    requires env.name != "" && GetKindDisplayName(env.kind) != ""
    ensures EnvSuffixParts(env) == ["'" + env.name + "'", GetKindDisplayName(env.kind)]
  {
  }

  lemma JoinTwo(a: string, b: string, sep: string)
    ensures Text.Join([a, b], sep) == a + sep + b
  {
    assert [a, b][1..] == [b];
  }

  lemma JoinThree(a: string, b: string, c: string, sep: string)
    ensures Text.Join([a, b, c], sep) == a + sep + b + sep + c
  {
    assert [a, b, c][1..] == [b, c];
    JoinTwo(b, c, sep);
  }

  /** The name parts of a 64-bit 3.8.1rc2 record. */
  lemma RcVersionParts(env: EnvInfo)
    requires env.version == Version(3, 8, 1, Some(Release(Candidate, 2)), None) && env.arch == X64
    ensures DisplayNameParts(env) == ["Python", "3.8.1rc2", "64-bit"]
  {
    assert IntToString(3) == "3" && IntToString(8) == "8";
    assert IntToString(1) == "1" && IntToString(2) == "2";
    assert ShortVersionString(env.version) == "3.8.1rc2";
  }

  lemma QuotedFoo(name: string)
    requires name == "foo"
    ensures "'" + name + "'" == "'foo'"
  {
  }

  /** The suffix parts of a conda record named 'foo'. */
  lemma CondaFooSuffixParts(env: EnvInfo)
    requires env.kind == Conda && env.name == "foo"
    ensures EnvSuffixParts(env) == ["'foo'", "conda"]
  {
    var kindName := GetKindDisplayName(env.kind);
    assert kindName == "conda" by { CondaKindsDisplayName(); }
    var quoted := "'" + env.name + "'";
    assert quoted == "'foo'" by { QuotedFoo(env.name); }
    assert EnvSuffixParts(env) == [quoted, kindName] by { SuffixPartsOfNamed(env); }
  }

  /** The display name of a 3.8.1rc2 64-bit conda environment named 'foo'. */
  lemma BuildEnvDisplayNameFull(env: EnvInfo)
    requires env.version == Version(3, 8, 1, Some(Release(Candidate, 2)), None) && env.arch == X64
    requires env.kind == Conda && env.name == "foo"
    ensures BuildEnvDisplayName(env) == "Python 3.8.1rc2 64-bit ('foo': conda)"
  {
    RcVersionParts(env);
    CondaFooSuffixParts(env);
    CondaFooJoined();
  }

  /** The joined text of those parts. */
  lemma CondaFooJoined()
    ensures JoinDisplayName(["Python", "3.8.1rc2", "64-bit"], ["'foo'", "conda"]) == "Python 3.8.1rc2 64-bit ('foo': conda)"
  {
    var nameParts := ["Python", "3.8.1rc2", "64-bit"];
    var suffixParts := ["'foo'", "conda"];
    assert JoinDisplayName(nameParts, suffixParts)
      == "Python" + " " + "3.8.1rc2" + " " + "64-bit" + " (" + ("'foo'" + ": " + "conda") + ")" by {
      JoinDisplayNameShape(nameParts, suffixParts);
      JoinThree("Python", "3.8.1rc2", "64-bit", " ");
      JoinTwo("'foo'", "conda", ": ");
    }
    CondaFooText();
  }

  lemma CondaFooText()
    ensures "Python" + " " + "3.8.1rc2" + " " + "64-bit" + " (" + ("'foo'" + ": " + "conda") + ")"
      == "Python 3.8.1rc2 64-bit ('foo': conda)"
  {
  }

  /** A record with an empty version, unknown architecture, no name and the
      Unknown kind, whose display name is '???', is displayed as
      "Python (???)" rather than "Python". */
  lemma BuildEnvDisplayNameEmpty(env: EnvInfo)
    requires IsVersionEmpty(env.version) && env.arch == ArchUnknown && env.name == "" && env.kind == Unknown
    ensures BuildEnvDisplayName(env) == "Python (???)"
  {
    assert DisplayNameParts(env) == ["Python"];
    assert EnvSuffixParts(env) == ["???"] by {
      UnknownKindsDisplayName();
    }
    assert JoinDisplayName(["Python"], ["???"]) == "Python (???)" by {
      JoinDisplayNameShape(["Python"], ["???"]);
      assert Text.Join(["Python"], " ") == "Python";
      assert Text.Join(["???"], ": ") == "???";
      UnknownText();
    }
  }

  lemma UnknownText()
    ensures "Python" + " (" + "???" + ")" == "Python (???)"
  {
  }

  /** `normalizeEnv`: the base, build and distro parts normalized, a falsy
      display name replaced, an empty version re-read from the executable's
      file name, and then an empty display name built from the record. */
  function NormalizeEnv(info: EnvInfo): (r: EnvInfo)
    ensures BaseOf(r) == BaseOf(info) && r.arch == info.arch && r.searchLocation == info.searchLocation
    ensures r.distro == NormalizeDistro(info.distro)
    ensures !IsVersionEmpty(info.version) ==> r.version == info.version
    ensures IsVersionEmpty(info.version) ==> r.version == ParseExeVersionIgnoringErrors(info.executable.filename)
    ensures !Blank(info.defaultDisplayName) ==> r.defaultDisplayName == info.defaultDisplayName
    ensures Blank(info.defaultDisplayName) ==> r.defaultDisplayName == Some(BuildEnvDisplayName(r))
    ensures r.defaultDisplayName.Some? && r.defaultDisplayName != Some("")
  {
    var base := NormalizeEnvBase(LiftEnvBase(BaseOf(info)));
    var build := NormalizeBuild(LiftBuild(BuildOf(info)));
    NormalizeEnvBaseOfComplete(BaseOf(info));
    NormalizeBuildOfComplete(BuildOf(info));
    var norm0 := WithBuild(WithBase(info, base), build);
    var norm1 := norm0.(distro := NormalizeDistro(norm0.distro));
    var norm2 := if Blank(norm1.defaultDisplayName) then norm1.(defaultDisplayName := Some("")) else norm1;
    var norm3 :=
      if IsVersionEmpty(norm2.version) then norm2.(version := ParseExeVersionIgnoringErrors(norm2.executable.filename))
      else norm2;
    if norm3.defaultDisplayName == Some("") then
      var r := norm3.(defaultDisplayName := Some(BuildEnvDisplayName(norm3)));
      DisplayNameIgnoresDisplayName(norm3, r.defaultDisplayName);
      r
    else norm3
  }

  lemma DisplayNameIgnoresDisplayName(env: EnvInfo, d: Option<string>)
    ensures BuildEnvDisplayName(env.(defaultDisplayName := d)) == BuildEnvDisplayName(env)
  {
  }

  /** Normalizing a normalized record changes nothing. */
  lemma NormalizeEnvIdempotent(info: EnvInfo)
    ensures NormalizeEnv(NormalizeEnv(info)) == NormalizeEnv(info)
  {
    var n := NormalizeEnv(info);
    NormalizeDistroIdempotent(info.distro);
    if IsVersionEmpty(n.version) {
      assert n.version == ParseExeVersionIgnoringErrors(info.executable.filename);
    }
  }

  /** `validateEnv`: the base, then the build, then the distro part. */
  function ValidateEnv(info: EnvInfo): (r: Outcome)
    ensures r.Pass? <==>
      ValidateEnvBase(BaseOf(info)).Pass? && ValidateBuild(BuildOf(info)).Pass? && ValidateDistro(info.distro).Pass?
    ensures ValidateEnvBase(BaseOf(info)).Fail? ==> r == ValidateEnvBase(BaseOf(info))
  {
    match ValidateEnvBase(BaseOf(info))
    case Fail(e) => Fail(e)
    case Pass =>
      match ValidateBuild(BuildOf(info))
      case Fail(e) => Fail(e)
      case Pass => ValidateDistro(info.distro)
  }

  /** A `Partial<PythonEnvInfo>`, restricted to the two properties the
      same-environment test reads. */
  datatype PartialEnv = PartialEnv(executable: Option<Executable>, version: Option<Version>)

  /** An argument that is either an executable path or a partial record. */
  datatype EnvQuery = PathQuery(path: string) | InfoQuery(info: PartialEnv)

  /** The executable file name a query names, '' when it names none. */
  function QueryFilename(q: EnvQuery): string {
    match q
    case PathQuery(p) => p
    case InfoQuery(info) => if info.executable.Some? then info.executable.value.filename else ""
  }

  /** `getMinimalPartialInfo`: nothing for an empty path or a record without
      an executable file name; otherwise a partial record naming it. */
  function GetMinimalPartialInfo(q: EnvQuery): (r: Option<PartialEnv>)
    ensures r.None? <==> QueryFilename(q) == ""
    ensures r.Some? ==> r.value.executable.Some? && r.value.executable.value.filename == QueryFilename(q)
    ensures r.Some? && q.InfoQuery? ==> r.value == q.info
  {
    match q
    case PathQuery(p) =>
      if p == "" then None else Some(PartialEnv(Some(Executable(p, "", -1, -1)), None))
    case InfoQuery(info) =>
      if info.executable.None? then None
      else if info.executable.value.filename == "" then None
      else Some(info)
  }

  /** The version a query carries: a path carries none. */
  function QueryVersion(q: EnvQuery): Option<Version> {
    match q
    case PathQuery(_) => None
    case InfoQuery(info) => info.version
  }

  /** `areSameEnv`: undefined when either side names no executable; true for
      equal executable paths; otherwise true only for executables in the same
      directory with versions on both sides that are identical, or similar
      when partial matches are allowed. */
  function AreSameEnv(left: EnvQuery, right: EnvQuery, allowPartialMatch: bool): (r: Option<bool>)
    ensures r.None? <==> QueryFilename(left) == "" || QueryFilename(right) == ""
    ensures r.Some? && ArePathsSame(QueryFilename(left), QueryFilename(right)) ==> r == Some(true)
    ensures r == Some(true) <==> (
      && r.Some?
      && (|| ArePathsSame(QueryFilename(left), QueryFilename(right))
          || (&& ArePathsSame(Dirname(QueryFilename(left)), Dirname(QueryFilename(right)))
              && QueryVersion(left).Some? && QueryVersion(right).Some?
              && (|| AreIdenticalVersion(QueryVersion(left).value, QueryVersion(right).value)
                  || (allowPartialMatch && AreSimilarVersions(QueryVersion(left).value, QueryVersion(right).value))))))
  {
    var leftInfo := GetMinimalPartialInfo(left);
    var rightInfo := GetMinimalPartialInfo(right);
    if leftInfo.None? || rightInfo.None? then None
    else
      var leftFilename := leftInfo.value.executable.value.filename;
      var rightFilename := rightInfo.value.executable.value.filename;
      if ArePathsSame(leftFilename, rightFilename) then Some(true)
      else if ArePathsSame(Dirname(leftFilename), Dirname(rightFilename)) then
        var leftVersion := QueryVersion(left);
        var rightVersion := QueryVersion(right);
        if leftVersion.Some? && rightVersion.Some?
          && (AreIdenticalVersion(leftVersion.value, rightVersion.value)
              || (allowPartialMatch && AreSimilarVersions(leftVersion.value, rightVersion.value)))
        then Some(true)
        else Some(false)
      else Some(false)
  }

  /** Two different non-empty paths are never the same environment: a path
      carries no version. */
  lemma AreSameEnvOfPaths(left: string, right: string, allowPartialMatch: bool)
    requires left != "" && right != "" && left != right
    ensures AreSameEnv(PathQuery(left), PathQuery(right), allowPartialMatch) == Some(false)
  {
  }

  /** `getEnvExecutable`, imported from a module that is not part of this
      model: assumed to give the path of a path query, the executable file
      name of a record, '' when it has none. */
  function GetEnvExecutable(q: EnvQuery): string {
    QueryFilename(q)
  }

  /** `getEnvMatcher`: a predicate on records that holds exactly for records
      whose executable is the query's, and never when the query names none. */
  function GetEnvMatcher(query: EnvQuery): (m: EnvInfo -> bool)
    ensures forall env :: m(env) <==> GetEnvExecutable(query) != "" && ArePathsSame(GetEnvExecutable(query), env.executable.filename)
  {
    var executable := GetEnvExecutable(query);
    if executable == "" then (env: EnvInfo) => false
    else (env: EnvInfo) => ArePathsSame(executable, env.executable.filename)
  }

  /** `getFastEnvInfo`: an empty record with the kind and executable set and
      the version read from the executable's file name when it names one. */
  method GetFastEnvInfo(kind: Kind, executable: string) returns (r: EnvInfo)
    ensures r.(version := EMPTY_VERSION) == EMPTY_ENV.(kind := kind, executable := EMPTY_EXECUTABLE.(filename := executable))
    ensures ParseExeVersion(executable).Ok? ==> r.version == ParseExeVersion(executable).value
    ensures ParseExeVersion(executable).Err? ==> r.version == EMPTY_VERSION
  {
    var built := BuildEnvInfo(Some(BuildInit(EnvUpdates(Some(kind), Some(executable), None, NoVersion), None, None, None)));
    r := built.value;
    var parsed := ParseExeVersion(r.executable.filename);
    if parsed.Ok? {
      r := r.(version := parsed.value);
    }
  }

  /** `getMaxDerivedEnvInfo`: an empty version is re-read from the executable's
      file name when it names one; nothing else changes. */
  function GetMaxDerivedEnvInfo(minimal: EnvInfo): (r: EnvInfo)
    ensures r.(version := minimal.version) == minimal
    ensures !IsVersionEmpty(minimal.version) ==> r == minimal
    ensures IsVersionEmpty(minimal.version) && ParseExeVersion(minimal.executable.filename).Ok? ==>
      r.version == ParseExeVersion(minimal.executable.filename).value
    ensures IsVersionEmpty(minimal.version) && ParseExeVersion(minimal.executable.filename).Err? ==> r == minimal
  {
    if IsVersionEmpty(minimal.version) then
      match ParseExeVersion(minimal.executable.filename)
      case Ok(v) => minimal.(version := v)
      case Err(_) => minimal
    else minimal
  }

  /** The sort key of `sortByPriority`. */
  function Priority(env: EnvInfo): nat {
    PriorityIndex(env.kind)
  }

  predicate SortedByPriority(s: seq<EnvInfo>) {
    forall a, b :: 0 <= a < b < |s| ==> Priority(s[a]) <= Priority(s[b])
  }

  /** The position of a least key in `a[from..]`. */
  method MinKeyIndex<T>(a: array<T>, from: int, key: T -> nat) returns (m: int)
    requires 0 <= from < a.Length
    ensures from <= m < a.Length
    ensures forall k :: from <= k < a.Length ==> key(a[m]) <= key(a[k])
    ensures forall k :: from <= k < m ==> key(a[k]) > key(a[m])
  {
    m := from;
    var k := from + 1;
    while k < a.Length
      invariant from <= m < k <= a.Length
      invariant forall l :: from <= l < k ==> key(a[m]) <= key(a[l])
      invariant forall l :: from <= l < m ==> key(a[l]) > key(a[m])
    {
      if key(a[k]) < key(a[m]) {
        m := k;
      }
      k := k + 1;
    }
  }

  /** Exchanges `a[i]` and `a[m]`. */
  method Swap<T>(a: array<T>, i: int, m: int)
    requires 0 <= i <= m < a.Length
    modifies a
    ensures a[..] == old(a[..])[i := old(a[m])][m := old(a[i])]
    ensures multiset(a[..]) == multiset(old(a[..]))
  {
    a[i], a[m] := a[m], a[i];
  }

  /** The first `n` keys ascend. */
  predicate KeysAscend<T>(s: seq<T>, key: T -> nat, n: int)
    requires 0 <= n <= |s|
  {
    forall x, y :: 0 <= x < y < n ==> key(s[x]) <= key(s[y])
  }

  /** No key among the first `n` exceeds a key after them. */
  predicate KeysBelow<T>(s: seq<T>, key: T -> nat, n: int)
    requires 0 <= n <= |s|
  {
    forall x, y :: 0 <= x < n <= y < |s| ==> key(s[x]) <= key(s[y])
  }

  /** Moving a least key of `s[i..]` to position `i` extends the sorted
      prefix by one. */
  lemma SelectionStep<T>(s: seq<T>, key: T -> nat, i: int, m: int)
    requires 0 <= i <= m < |s|
    requires KeysAscend(s, key, i) && KeysBelow(s, key, i)
    requires forall k :: i <= k < |s| ==> key(s[m]) <= key(s[k])
    ensures KeysAscend(s[i := s[m]][m := s[i]], key, i + 1)
    ensures KeysBelow(s[i := s[m]][m := s[i]], key, i + 1)
  {
    var t := s[i := s[m]][m := s[i]];
    assert t[i] == s[m];
    forall x, y | 0 <= x < i + 1 <= y < |t|
      ensures key(t[x]) <= key(t[y])
    {
      assert t[y] == s[y] || t[y] == s[i];
    }
  }

  /** `envs.sort(compare)` where `compare` subtracts the keys of its two
      arguments: the array reordered in place so that the keys ascend. */
  method SortByKey<T>(a: array<T>, key: T -> nat)
    modifies a
    ensures forall i, j :: 0 <= i < j < a.Length ==> key(a[i]) <= key(a[j])
    ensures multiset(a[..]) == multiset(old(a[..]))
    ensures a.Length > 0 ==> FirstLeast(old(a[..]), key, a[0])
  {
    ghost var before := a[..];
    var i := 0;
    while i < a.Length
      invariant 0 <= i <= a.Length
      invariant KeysAscend(a[..], key, i) && KeysBelow(a[..], key, i)
      invariant multiset(a[..]) == multiset(old(a[..]))
      invariant i == 0 ==> a[..] == before
      invariant i > 0 ==> FirstLeast(before, key, a[0])
    {
      var m := MinKeyIndex(a, i, key);
      SelectionStep(a[..], key, i, m);
      if i == 0 {
        FirstLeastAt(before, key, m);
      }
      ghost var head := a[0];
      Swap(a, i, m);
      assert a[0] == if i == 0 then before[m] else head;
      i := i + 1;
    }
    assert KeysAscend(a[..], key, a.Length);
  }

  lemma FirstLeastAt<T>(s: seq<T>, key: T -> nat, m: int)
    requires 0 <= m < |s|
    requires forall j :: 0 <= j < m ==> key(s[j]) > key(s[m])
    requires forall j :: m < j < |s| ==> key(s[m]) <= key(s[j])
    ensures FirstLeast(s, key, s[m])
  {
  }

  /** `x` is the element at the first position of `s` whose key is least. */
  ghost predicate FirstLeast<T>(s: seq<T>, key: T -> nat, x: T) {
    exists k :: 0 <= k < |s| && s[k] == x && (forall j :: 0 <= j < k ==> key(s[j]) > key(x))
      && (forall j :: k < j < |s| ==> key(x) <= key(s[j]))
  }

  /** `sortByPriority`: the records ordered in place by their kind's position
      in the priority list. */
  method SortByPriority(envs: array<EnvInfo>)
    modifies envs
    ensures SortedByPriority(envs[..])
    ensures multiset(envs[..]) == multiset(old(envs[..]))
    ensures envs.Length > 0 ==> FirstLeast(old(envs[..]), Priority, envs[0])
  {
    SortByKey(envs, Priority);
  }

  /** `pickBestEnv`: the first record after the stable sort by priority, so
      the earliest candidate whose kind has the best priority of all; nothing
      for no candidates. */
  method PickBestEnv(candidates: seq<EnvInfo>) returns (r: Option<EnvInfo>)
    ensures r.None? <==> candidates == []
    ensures r.Some? ==> r.value in candidates
    ensures r.Some? ==> forall c :: c in candidates ==> Priority(r.value) <= Priority(c)
    ensures r.Some? ==>
      exists k :: 0 <= k < |candidates| && candidates[k] == r.value
        && forall j :: 0 <= j < k ==> Priority(candidates[j]) > Priority(r.value)
  {
    var sorted := new EnvInfo[|candidates|](i requires 0 <= i < |candidates| => candidates[i]);
    assert sorted[..] == candidates;
    SortByPriority(sorted);
    if sorted.Length == 0 {
      return None;
    }
    var best := sorted[0];
    assert FirstLeast(candidates, Priority, best);
    assert best in multiset(sorted[..]);
    forall c | c in candidates
      ensures Priority(best) <= Priority(c)
    {
      assert c in multiset(sorted[..]);
      var k :| 0 <= k < sorted.Length && sorted[k] == c;
      if k > 0 {
        assert Priority(sorted[..][0]) <= Priority(sorted[..][k]);
      }
    }
    return Some(best);
  }

  /** `mergeBaseInfo`: `base`'s kind unless Unknown, its name and location
      unless '', and the merged executables. */
  function MergeBaseInfo(base: EnvBase, other: EnvBase): (r: EnvBase)
    ensures base.kind != Unknown ==> r.kind == base.kind
    ensures base.kind == Unknown ==> r.kind == other.kind
    ensures base.name != "" ==> r.name == base.name
    ensures base.name == "" ==> r.name == other.name
    ensures base.location != "" ==> r.location == base.location
    ensures base.location == "" ==> r.location == other.location
    ensures r.executable == MergeExecutables(base.executable, other.executable)
  {
    var merged := EnvBase(base.kind, MergeExecutables(base.executable, other.executable), base.name, base.location);
    var m1 := if base.kind == Unknown then merged.(kind := other.kind) else merged;
    var m2 := if base.name == "" then m1.(name := other.name) else m1;
    if base.location == "" then m2.(location := other.location) else m2
  }

  /** `mergeEnvs`: `env`'s properties are favoured and `other`'s fill the
      gaps; the inputs are values and are not changed. */
  function MergeEnvs(env: EnvInfo, other: EnvInfo): (r: EnvInfo)
    ensures BaseOf(r) == MergeBaseInfo(BaseOf(env), BaseOf(other))
    ensures BuildOf(r) == MergeBuilds(BuildOf(env), BuildOf(other))
    ensures r.distro == MergeDistros(env.distro, other.distro)
    ensures !Blank(env.defaultDisplayName) ==> r.defaultDisplayName == env.defaultDisplayName
    ensures Blank(env.defaultDisplayName) ==> r.defaultDisplayName == other.defaultDisplayName
    ensures env.searchLocation.Some? ==> r.searchLocation == env.searchLocation
    ensures env.searchLocation.None? ==> r.searchLocation == other.searchLocation
  {
    var merged := WithBuild(WithBase(env, MergeBaseInfo(BaseOf(env), BaseOf(other))), MergeBuilds(BuildOf(env), BuildOf(other)));
    var m1 := merged.(distro := MergeDistros(env.distro, other.distro));
    var m2 :=
      if env.defaultDisplayName.None? || env.defaultDisplayName == Some("") then
        if other.defaultDisplayName.Some? then m1.(defaultDisplayName := other.defaultDisplayName)
        else m1.(defaultDisplayName := None)
      else m1;
    if env.searchLocation.None? then
      if other.searchLocation.Some? then m2.(searchLocation := other.searchLocation)
      else m2.(searchLocation := None)
    else m2
  }

  /** Merging a record with itself gives the record back. */
  lemma MergeEnvsIdempotent(env: EnvInfo)
    ensures MergeEnvs(env, env) == env
  {
    MergeDistrosIdempotent(env.distro);
    MergeVersionsIdempotent(env.version);
    MergeExecutablesIdempotent(env.executable);
  }
}
