/** The executable record and the helpers of `base/info/executable`, which the
    env-base and whole-record operations import. That file is not part of
    this model: each helper here is a stated definition. */
module Executable {
  import opened Wrappers
  import opened Text
  import opened Paths
  import opened BasicVersion
  import opened PythonVersion

  /** `PythonExecutableInfo`: -1 stands for an unknown time stamp. */
  datatype Executable = Executable(filename: string, sysPrefix: string, ctime: int, mtime: int)

  /** An executable record whose properties may be missing. */
  datatype PartialExecutable = PartialExecutable(
    filename: Option<string>, sysPrefix: Option<string>, ctime: Option<int>, mtime: Option<int>)

  const EMPTY_EXECUTABLE: Executable := Executable("", "", -1, -1)

  function LiftExecutable(e: Executable): PartialExecutable {
    PartialExecutable(Some(e.filename), Some(e.sysPrefix), Some(e.ctime), Some(e.mtime))
  }

  /** `normalizeExecutable`: missing names become '' and missing times -1. */
  function NormalizeExecutable(e: PartialExecutable): (r: Executable)
    ensures r.filename == e.filename.GetOr("") && r.sysPrefix == e.sysPrefix.GetOr("")
    ensures r.ctime == e.ctime.GetOr(-1) && r.mtime == e.mtime.GetOr(-1)
  {
    Executable(e.filename.GetOr(""), e.sysPrefix.GetOr(""), e.ctime.GetOr(-1), e.mtime.GetOr(-1))
  }

  lemma NormalizeExecutableOfComplete(e: Executable)
    ensures NormalizeExecutable(LiftExecutable(e)) == e
  {
  }

  /** `copyExecutable`, imported from a module that is not part of this model:
      assumed to return an equal copy. */
  function CopyExecutable(e: Executable): Executable {
    e
  }

  /** `validateExecutable`: an executable needs a file name. */
  function ValidateExecutable(e: Executable): (r: Outcome)
    ensures r.Fail? <==> e.filename == ""
  {
    if e.filename == "" then Fail("missing executable filename") else Pass
  }

  /** `mergeExecutables`: each property of `e` unless it is empty ('' or -1),
      when `other`'s is taken. */
  function MergeExecutables(e: Executable, other: Executable): (r: Executable)
    ensures e.filename != "" ==> r.filename == e.filename
    ensures e.filename == "" ==> r.filename == other.filename
  {
    Executable(
      if e.filename == "" then other.filename else e.filename,
      if e.sysPrefix == "" then other.sysPrefix else e.sysPrefix,
      if e.ctime == -1 then other.ctime else e.ctime,
      if e.mtime == -1 then other.mtime else e.mtime)
  }

  lemma MergeExecutablesIdempotent(e: Executable)
    ensures MergeExecutables(e, e) == e
  {
  }

  /** The version text in an executable's file name: the part after "python"
      without an ".exe" suffix. */
  function ExeVersionText(filename: string): Option<string> {
    var b := Basename(filename);
    if !StartsWith(b, "python") then None
    else
      var rest := b[6..];
      var text := if EndsWith(rest, ".exe") then rest[..|rest| - 4] else rest;
      if text == "" then None else Some(text)
  }

  /** `parseExeVersion`: the version named by an executable's file name, an
      error when the name carries none. */
  function ParseExeVersion(filename: string): (r: Result<Version>)
    ensures ExeVersionText(filename).None? ==> r.Err?
    ensures r.Ok? ==> ParseVersion(ExeVersionText(filename).value) == r
  {
    match ExeVersionText(filename)
    case None => Err("no version in executable name " + filename)
    case Some(text) => ParseVersion(text)
  }

  /** `parseExeVersion(filename, {ignoreErrors: true})`: the empty version
      instead of an error. */
  function ParseExeVersionIgnoringErrors(filename: string): (r: Version)
    ensures ParseExeVersion(filename).Err? ==> r == EMPTY_VERSION
    ensures ParseExeVersion(filename).Ok? ==> r == ParseExeVersion(filename).value
  {
    match ParseExeVersion(filename)
    case Ok(v) => v
    case Err(_) => GetEmptyVersion()
  }
}
