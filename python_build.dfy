/** The build part of an environment record (`base/info/pythonBuild.ts`):
    version and architecture. */
module PythonBuild {
  import opened Wrappers
  import opened BasicVersion
  import opened PythonVersion

  /** `Architecture`. */
  datatype Arch = ArchUnknown | X86 | X64

  /** `getArchitectureDisplayName`, whose body is not part of this model. */
  function ArchDisplayName(a: Arch): (r: string)
    ensures a == X64 ==> r == "64-bit"
    ensures a == X86 ==> r == "32-bit"
  {
    match a
    case X64 => "64-bit"
    case X86 => "32-bit"
    case ArchUnknown => ""
  }

  /** `PythonBuildInfo`. */
  datatype Build = Build(version: Version, arch: Arch)

  /** A build record whose properties may be missing. */
  datatype PartialBuild = PartialBuild(version: Option<Version>, arch: Option<Arch>)

  function LiftBuild(b: Build): PartialBuild {
    PartialBuild(Some(b.version), Some(b.arch))
  }

  /** `copyBuild`: a copy with its own version record; as values, equal. */
  function CopyBuild(b: Build): (r: Build)
    ensures r == b
  {
    b.(version := CopyVersion(b.version))
  }

  /** `normalizeBuild`: a missing version becomes `normalizeVersion({})`, a
      present one is normalized; a missing architecture becomes Unknown. */
  function NormalizeBuild(b: PartialBuild): (r: Build)
    ensures b.version.None? ==> IsVersionEmpty(r.version)
    ensures b.version.Some? ==> r.version == b.version.value
    ensures b.arch.None? ==> r.arch == ArchUnknown
    ensures b.arch.Some? ==> r.arch == b.arch.value
  {
    Build(NormalizeVersion(b.version), if b.arch.None? then ArchUnknown else b.arch.value)
  }

  lemma NormalizeBuildOfComplete(b: Build)
    ensures NormalizeBuild(LiftBuild(b)) == b
  {
  }

  /** `validateBuild`: only the version is checked. */
  function ValidateBuild(b: Build): (r: Outcome)
    ensures r == ValidateVersion(b.version)
  {
    ValidateVersion(b.version)
  }

  /** The architecture plays no part in validation. */
  lemma ValidateBuildIgnoresArch(b: Build, a: Arch)
    ensures ValidateBuild(b.(arch := a)) == ValidateBuild(b)
  {
  }

  /** `mergeBuilds`: the merged versions, and `build`'s architecture unless it
      is Unknown. */
  function MergeBuilds(build: Build, other: Build): (r: Build)
    ensures r.version == MergeVersions(build.version, other.version)
    ensures build.arch != ArchUnknown ==> r.arch == build.arch
    ensures build.arch == ArchUnknown ==> r.arch == other.arch
  {
    var merged := Build(MergeVersions(build.version, other.version), build.arch);
    if build.arch == ArchUnknown then merged.(arch := other.arch) else merged
  }

  /** The merged build never has a lesser version than either input. */
  lemma MergeBuildsVersionUpperBound(build: Build, other: Build)
    ensures !VersionLess(MergeBuilds(build, other).version, build.version)
    ensures !VersionLess(MergeBuilds(build, other).version, other.version)
    ensures MergeBuilds(build, build) == build
  {
    MergeVersionsUpperBound(build.version, other.version);
    MergeVersionsIdempotent(build.version);
  }
}
