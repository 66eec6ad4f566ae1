/** The distribution metadata record (`base/info/pythonDistroMeta.ts`): the
    organisation and the default display name. */
module PythonDistroMeta {
  import opened Wrappers

  /** `PythonDistroMetaInfo`; a `None` property is missing. */
  datatype DistroMeta = DistroMeta(org: Option<string>, defaultDisplayName: Option<string>)

  /** A property that is missing or the empty string. */
  predicate Blank(s: Option<string>) {
    s.None? || s == Some("")
  }

  /** The normal form: an organisation is always present and a display name,
      if any, is not empty. */
  predicate IsNormalMeta(m: DistroMeta) {
    m.org.Some? && !(m.defaultDisplayName == Some(""))
  }

  /** `normalizeDistroMeta`: a falsy organisation becomes '', an empty display
      name becomes missing, anything else is kept. */
  function NormalizeDistroMeta(m: DistroMeta): (r: DistroMeta)
    ensures IsNormalMeta(r)
    ensures Blank(m.org) ==> r.org == Some("")
    ensures !Blank(m.org) ==> r.org == m.org
    ensures Blank(m.defaultDisplayName) ==> r.defaultDisplayName.None?
    ensures !Blank(m.defaultDisplayName) ==> r.defaultDisplayName == m.defaultDisplayName
  {
    var org := if Blank(m.org) then Some("") else m.org;
    var name := if Blank(m.defaultDisplayName) then None else m.defaultDisplayName;
    DistroMeta(org, name)
  }

  /** Normalizing a normal record changes nothing, so normalizing twice is
      normalizing once. */
  lemma NormalizeDistroMetaIdempotent(m: DistroMeta)
    ensures IsNormalMeta(m) ==> NormalizeDistroMeta(m) == m
    ensures NormalizeDistroMeta(NormalizeDistroMeta(m)) == NormalizeDistroMeta(m)
  {
  }

  /** `validateDistroMeta`: both properties can be anything. */
  function ValidateDistroMeta(m: DistroMeta): (r: Outcome)
    ensures r.Pass?
  {
    Pass
  }

  /** `mergeMetaDistros`: `meta`'s organisation unless it is '' (a missing
      one is kept missing), and `meta`'s display name unless it is missing or
      empty, then `other`'s. */
  function MergeMetaDistros(meta: DistroMeta, other: DistroMeta): (r: DistroMeta)
    ensures meta.org != Some("") ==> r.org == meta.org
    ensures meta.org == Some("") ==> r.org == other.org
    ensures !Blank(meta.defaultDisplayName) ==> r.defaultDisplayName == meta.defaultDisplayName
    ensures Blank(meta.defaultDisplayName) ==> r.defaultDisplayName == other.defaultDisplayName
    ensures r.defaultDisplayName.None? <==> Blank(meta.defaultDisplayName) && other.defaultDisplayName.None?
  {
    var org := if meta.org == Some("") then other.org else meta.org;
    var name :=
      if meta.defaultDisplayName.Some? && meta.defaultDisplayName != Some("") then meta.defaultDisplayName
      else if other.defaultDisplayName.Some? then other.defaultDisplayName
      else None;
    DistroMeta(org, name)
  }

  lemma MergeMetaDistrosIdempotent(m: DistroMeta)
    ensures MergeMetaDistros(m, m) == m
  {
  }
}
