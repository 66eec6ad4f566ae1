/** The version record and the helpers of `common/utils/version`, which the
    version model imports (`compareVersions` as `compareBasicVersions`,
    `parseBasicVersionInfo`, `isVersionInfoEmpty`, `EMPTY_VERSION`, and for the
    distro record `normalizeVersionInfo`, `validateVersionInfo`, `mergeVersions`).
    That module is not part of this model: each helper here is a stated
    definition, and the list of imported helpers under "## Left out" in
    README.md gives the behaviour assumed of each. */
module BasicVersion {
  import opened Wrappers
  import opened Text

  /** `PythonReleaseLevel`, a string enum. */
  datatype ReleaseLevel = Alpha | Beta | Candidate | Final

  /** The string value of each release level. */
  function LevelName(l: ReleaseLevel): string {
    match l
    case Alpha => "alpha"
    case Beta => "beta"
    case Candidate => "candidate"
    case Final => "final"
  }

  datatype Release = Release(level: ReleaseLevel, serial: int)

  /** `PythonVersion`: -1 in a numeric field means "not known". */
  datatype Version = Version(
    major: int,
    minor: int,
    micro: int,
    release: Option<Release>,
    sysVersion: Option<string>)

  /** The property name a comparison stopped at; `NoProp` is the empty string. */
  datatype Prop = NoProp | MajorProp | MinorProp | MicroProp | LevelProp | SerialProp | ReleaseProp

  /** `EMPTY_VERSION`: every numeric field -1 and no release object. */
  const EMPTY_VERSION: Version := Version(-1, -1, -1, None, None)

  /** `isVersionInfoEmpty`: the major version is the -1 sentinel. */
  predicate IsVersionInfoEmpty(v: Version) {
    v.major == -1
  }

  /** The order `compareBasicVersions` decides: major, then minor, then micro,
      where a field that is -1 on both sides ends the comparison as equal. */
  predicate BasicLess(a: Version, b: Version) {
    a.major < b.major
    || (a.major == b.major && a.major != -1
        && (a.minor < b.minor
            || (a.minor == b.minor && a.minor != -1 && a.micro < b.micro)))
  }

  predicate BasicEqual(a: Version, b: Version) {
    a.major == b.major
    && (a.major == -1 || (a.minor == b.minor && (a.minor == -1 || a.micro == b.micro)))
  }

  /** `compareBasicVersions(left, right)`: a POSITIVE result means that `left`
      is the lesser version, the convention every caller in the version model
      relies on; the second component names the field that decided. */
  function CompareBasic(left: Version, right: Version): (r: (int, Prop))
    ensures r.0 == 1 || r.0 == 0 || r.0 == -1
    ensures r.0 > 0 <==> BasicLess(left, right)
    ensures r.0 < 0 <==> BasicLess(right, left)
    ensures r.0 == 0 <==> BasicEqual(left, right)
    ensures r.0 == 0 <==> r.1 == NoProp
    ensures r.1 == NoProp || r.1 == MajorProp || r.1 == MinorProp || r.1 == MicroProp
  {
    if left.major < right.major then (1, MajorProp)
    else if left.major > right.major then (-1, MajorProp)
    else if left.major == -1 then (0, NoProp)
    else if left.minor < right.minor then (1, MinorProp)
    else if left.minor > right.minor then (-1, MinorProp)
    else if left.minor == -1 then (0, NoProp)
    else if left.micro < right.micro then (1, MicroProp)
    else if left.micro > right.micro then (-1, MicroProp)
    else (0, NoProp)
  }

  /** The run of digits at the start of `s`, as a number, and what follows. */
  function LeadingNumber(s: string): Option<(nat, string)> {
    var k := LeadingDigitCount(s);
    if k == 0 then None else Some((DigitsValue(s[..k]), s[k..]))
  }

  /** "." followed by a number at the start of `s`, or -1 and `s` unchanged. */
  function DottedNumber(s: string): (int, string) {
    if |s| >= 1 && s[0] == '.' then
      match LeadingNumber(s[1..])
      case Some((n, rest)) => (n as int, rest)
      case None => (-1, s)
    else (-1, s)
  }

  /** `parseBasicVersionInfo(text)`: `MAJOR[.MINOR[.MICRO]]` at the start of the
      text, missing parts -1, a final release with serial 0 and the text after
      the match; `None` when the text does not start with a digit. */
  function ParseBasicVersionInfo(s: string): (r: Option<(Version, string)>)
    ensures r.None? <==> s == [] || !IsDigit(s[0])
  {
    match LeadingNumber(s)
    case None => None
    case Some((major, r1)) =>
      var (minor, r2) := DottedNumber(r1);
      var (micro, r3) := if minor >= 0 then DottedNumber(r2) else (-1, r2);
      Some((Version(major, minor, micro, Some(Release(Final, 0)), None), r3))
  }

  /** `normalizeVersionInfo`: a complete record is already normal. */
  function NormalizeVersionInfo(v: Version): Version {
    v
  }

  /** `validateVersionInfo`: a numeric field below the -1 sentinel is invalid. */
  function ValidateVersionInfo(v: Version): Outcome {
    if v.major < -1 || v.minor < -1 || v.micro < -1 then Fail("invalid version") else Pass
  }

  /** `mergeVersions` of `common/utils/version`: the first version unless the
      basic comparison puts it lower, then the second. */
  function MergeVersionInfos(v: Version, other: Version): Version {
    if CompareBasic(v, other).0 > 0 then other else v
  }
}
