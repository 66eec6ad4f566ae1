/** The distribution record (`base/info/pythonDistro.ts`): the metadata plus
    the installed version and the binary directory. */
module PythonDistro {
  import opened Wrappers
  import opened BasicVersion
  import opened PythonDistroMeta

  /** `PythonDistroInfo`; a `None` property is missing. */
  datatype Distro = Distro(
    org: Option<string>,
    defaultDisplayName: Option<string>,
    version: Option<Version>,
    binDir: Option<string>)

  /** The metadata part of a distro record. */
  function Meta(d: Distro): DistroMeta {
    DistroMeta(d.org, d.defaultDisplayName)
  }

  /** `copyDistro`: a shallow copy; as values, equal. */
  function CopyDistro(d: Distro): (r: Distro)
    ensures r == d
  {
    Distro(d.org, d.defaultDisplayName, d.version, d.binDir)
  }

  /** `normalizeDistro`: the metadata normalized, a missing version kept
      missing and a present one normalized, and an empty binary directory
      made missing. The source's additional test of the version against a
      fresh `{}` literal compares object identity and is always false. */
  function NormalizeDistro(d: Distro): (r: Distro)
    ensures Meta(r) == NormalizeDistroMeta(Meta(d))
    ensures d.version.None? <==> r.version.None?
    ensures d.version.Some? ==> r.version == Some(NormalizeVersionInfo(d.version.value))
    ensures Blank(d.binDir) ==> r.binDir.None?
    ensures !Blank(d.binDir) ==> r.binDir == d.binDir
  {
    var meta := NormalizeDistroMeta(Meta(d));
    var version := if d.version.None? then None else Some(NormalizeVersionInfo(d.version.value));
    var binDir := if Blank(d.binDir) then None else d.binDir;
    Distro(meta.org, meta.defaultDisplayName, version, binDir)
  }

  lemma NormalizeDistroIdempotent(d: Distro)
    ensures NormalizeDistro(NormalizeDistro(d)) == NormalizeDistro(d)
  {
    NormalizeDistroMetaIdempotent(Meta(d));
  }

  /** `validateDistro`: the metadata, then the version only when present; the
      binary directory is never checked. */
  function ValidateDistro(d: Distro): (r: Outcome)
    ensures d.version.None? ==> r.Pass?
    ensures d.version.Some? ==> r == ValidateVersionInfo(d.version.value)
  {
    match ValidateDistroMeta(Meta(d))
    case Fail(e) => Fail(e)
    case Pass =>
      if d.version.Some? then ValidateVersionInfo(d.version.value) else Pass
  }

  /** The binary directory plays no part in validation. */
  lemma ValidateDistroIgnoresBinDir(d: Distro, binDir: Option<string>)
    ensures ValidateDistro(d.(binDir := binDir)) == ValidateDistro(d)
  {
  }

  /** `mergeDistros`: the merged metadata; the version present iff either
      side has one, copied when only one side has it and merged when both do;
      `distro`'s binary directory unless it is missing or empty, then
      `other`'s. */
  function MergeDistros(distro: Distro, other: Distro): (r: Distro)
    ensures Meta(r) == MergeMetaDistros(Meta(distro), Meta(other))
    ensures r.version.Some? <==> distro.version.Some? || other.version.Some?
    ensures distro.version.Some? && other.version.None? ==> r.version == distro.version
    ensures distro.version.None? && other.version.Some? ==> r.version == other.version
    ensures distro.version.Some? && other.version.Some? ==>
      r.version == Some(MergeVersionInfos(distro.version.value, other.version.value))
    ensures !Blank(distro.binDir) ==> r.binDir == distro.binDir
    ensures Blank(distro.binDir) ==> r.binDir == other.binDir
  {
    var meta := MergeMetaDistros(Meta(distro), Meta(other));
    var version :=
      if other.version.Some? then
        if distro.version.None? then other.version
        else Some(MergeVersionInfos(distro.version.value, other.version.value))
      else if distro.version.Some? then distro.version
      else None;
    var binDir :=
      if distro.binDir.Some? && distro.binDir != Some("") then distro.binDir
      else if other.binDir.Some? then other.binDir
      else None;
    Distro(meta.org, meta.defaultDisplayName, version, binDir)
  }

  lemma MergeDistrosIdempotent(d: Distro)
    ensures MergeDistros(d, d) == d
  {
    MergeMetaDistrosIdempotent(Meta(d));
  }
}
