/** The base part of an environment record (`base/info/envBase.ts`): kind,
    executable, name and location. */
module EnvBase {
  import opened Wrappers
  import opened EnvKind
  import opened Executable

  /** `PythonEnvBaseInfo`. */
  datatype EnvBase = EnvBase(kind: Kind, executable: Executable, name: string, location: string)

  /** A base record whose properties may be missing, as `normalizeEnvBase`
      accepts it. */
  datatype PartialEnvBase = PartialEnvBase(
    kind: Option<Kind>, executable: Option<PartialExecutable>, name: Option<string>, location: Option<string>)

  function LiftEnvBase(b: EnvBase): PartialEnvBase {
    PartialEnvBase(Some(b.kind), Some(LiftExecutable(b.executable)), Some(b.name), Some(b.location))
  }

  /** `copyEnvBase`: a copy with its own executable record; as values, equal. */
  function CopyEnvBase(b: EnvBase): (r: EnvBase)
    ensures r == b
  {
    b.(executable := CopyExecutable(b.executable))
  }

  /** `normalizeEnvBase`: a missing kind becomes Unknown, a missing or empty
      name or location '', and the executable is normalized. */
  function NormalizeEnvBase(b: PartialEnvBase): (r: EnvBase)
    ensures b.kind.None? ==> r.kind == Unknown
    ensures b.kind.Some? ==> r.kind == b.kind.value
    ensures r.name == b.name.GetOr("") && r.location == b.location.GetOr("")
    ensures b.executable.None? ==> r.executable == EMPTY_EXECUTABLE
    ensures b.executable.Some? ==> r.executable == NormalizeExecutable(b.executable.value)
  {
    var kind := if b.kind.None? then Unknown else b.kind.value;
    var exe := if b.executable.None? then PartialExecutable(None, None, None, None) else b.executable.value;
    var name := if b.name.None? || b.name == Some("") then "" else b.name.value;
    var location := if b.location.None? || b.location == Some("") then "" else b.location.value;
    EnvBase(kind, NormalizeExecutable(exe), name, location)
  }

  /** A complete record is already normal: normalizing leaves it unchanged. */
  lemma NormalizeEnvBaseOfComplete(b: EnvBase)
    ensures NormalizeEnvBase(LiftEnvBase(b)) == b
  {
  }

  /** `validateEnvBase`: the executable is validated first, then a record
      with neither name nor location is refused with 'missing name'. */
  function ValidateEnvBase(b: EnvBase): (r: Outcome)
    ensures ValidateExecutable(b.executable).Fail? ==> r == ValidateExecutable(b.executable)
    ensures ValidateExecutable(b.executable).Pass? ==>
      (r == Fail("missing name") <==> b.name == "" && b.location == "")
    ensures r.Pass? <==> ValidateExecutable(b.executable).Pass? && (b.name != "" || b.location != "")
  {
    match ValidateExecutable(b.executable)
    case Fail(e) => Fail(e)
    case Pass => if b.name == "" && b.location == "" then Fail("missing name") else Pass
  }
}
