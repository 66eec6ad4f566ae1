/** The Python version model of `base/info/pythonVersion.ts`: parsing the two
    textual forms, the three-way comparison and its derived predicates, and
    the merge of two versions. Comparison results follow the convention of
    the code: a POSITIVE result means the left version is the lesser one. */
module PythonVersion {
  import opened Wrappers
  import opened Text
  import opened Paths
  import opened BasicVersion

  /** Position of a release level in the order of its string values. */
  function LevelRank(l: ReleaseLevel): int {
    match l
    case Alpha => 1
    case Beta => 2
    case Candidate => 3
    case Final => 4
  }

  /** `<` on the level strings is the order alpha, beta, candidate, final. */
  lemma LevelNameOrder(a: ReleaseLevel, b: ReleaseLevel)
    ensures StringLess(LevelName(a), LevelName(b)) <==> LevelRank(a) < LevelRank(b)
  {
    if a == b {
      StringLessIrreflexive(LevelName(a));
    } else {
      assert LevelName(a)[0] != LevelName(b)[0];
    }
  }

  /** The rank of a version's release: no release object ranks below alpha. */
  function ReleaseRank(v: Version): int {
    match v.release
    case None => 0
    case Some(r) => LevelRank(r.level)
  }

  /** The serial that takes part in comparisons: a final release's is ignored. */
  function ReleaseSerial(v: Version): int {
    match v.release
    case None => 0
    case Some(r) => if r.level == Final then 0 else r.serial
  }

  /** `a`'s release is older than `b`'s. */
  predicate ReleaseLess(a: Version, b: Version) {
    ReleaseRank(a) < ReleaseRank(b)
    || (ReleaseRank(a) == ReleaseRank(b) && ReleaseSerial(a) < ReleaseSerial(b))
  }

  /** The order the comparison functions decide: the numeric fields first,
      then the release. */
  predicate VersionLess(a: Version, b: Version) {
    BasicLess(a, b) || (BasicEqual(a, b) && ReleaseLess(a, b))
  }

  /** Versions the comparison cannot tell apart. */
  predicate VersionEquiv(a: Version, b: Version) {
    BasicEqual(a, b) && ReleaseRank(a) == ReleaseRank(b) && ReleaseSerial(a) == ReleaseSerial(b)
  }

  /** `compareVersionRelease`: a missing release object is the lesser, then the
      level strings decide, then the serial unless both are final. */
  function CompareVersionRelease(left: Version, right: Version): (r: (int, Prop))
    ensures r.0 == 1 || r.0 == 0 || r.0 == -1
    ensures r.0 > 0 <==> ReleaseLess(left, right)
    ensures r.0 < 0 <==> ReleaseLess(right, left)
    ensures r.0 == 0 <==> r.1 == NoProp
    ensures r.1 == NoProp || r.1 == LevelProp || r.1 == SerialProp
  {
    match (left.release, right.release)
    case (None, None) => (0, NoProp)
    case (None, Some(_)) => (1, LevelProp)
    case (Some(_), None) => (-1, LevelProp)
    case (Some(lr), Some(rr)) =>
      LevelNameOrder(lr.level, rr.level);
      LevelNameOrder(rr.level, lr.level);
      if StringLess(LevelName(lr.level), LevelName(rr.level)) then (1, LevelProp)
      else if StringLess(LevelName(rr.level), LevelName(lr.level)) then (-1, LevelProp)
      else if lr.level == Final then (0, NoProp)
      else if lr.serial < rr.serial then (1, SerialProp)
      else if lr.serial > rr.serial then (-1, SerialProp)
      else (0, NoProp)
  }

  lemma CompareVersionReleaseReflexive(v: Version)
    ensures CompareVersionRelease(v, v) == (0, NoProp)
  {
  }

  lemma CompareVersionReleaseAntisymmetric(a: Version, b: Version)
    ensures CompareVersionRelease(b, a).0 == -CompareVersionRelease(a, b).0
  {
  }

  /** Two final releases compare equal whatever their serials. */
  lemma CompareVersionReleaseFinalIgnoresSerial(a: Version, b: Version)
    requires a.release.Some? && a.release.value.level == Final
    requires b.release.Some? && b.release.value.level == Final
    ensures CompareVersionRelease(a, b) == (0, NoProp)
  {
  }

  /** `compareVersionsRaw`: the numeric fields, then the release. */
  function CompareVersionsRaw(left: Version, right: Version): (r: (int, Prop))
    ensures r.0 == 1 || r.0 == 0 || r.0 == -1
    ensures r.0 > 0 <==> VersionLess(left, right)
    ensures r.0 < 0 <==> VersionLess(right, left)
    ensures r.0 == 0 <==> VersionEquiv(left, right)
    ensures r.0 == 0 <==> r.1 == NoProp
    ensures r.1 == NoProp || r.1 == MajorProp || r.1 == MinorProp || r.1 == MicroProp || r.1 == ReleaseProp
    ensures BasicLess(left, right) || BasicLess(right, left) ==> r == CompareBasic(left, right)
  {
    var (result, prop) := CompareBasic(left, right);
    if result != 0 then (result, prop)
    else
      var (release, _) := CompareVersionRelease(left, right);
      if release == 0 then (0, NoProp) else (release, ReleaseProp)
  }

  /** `compareVersions`. */
  function CompareVersions(left: Version, right: Version): (r: int)
    ensures r == 1 || r == 0 || r == -1
    ensures r > 0 <==> VersionLess(left, right)
    ensures r < 0 <==> VersionLess(right, left)
    ensures r == 0 <==> VersionEquiv(left, right)
  {
    CompareVersionsRaw(left, right).0
  }

  /** The order decided by the comparison is a strict weak order. */
  lemma VersionLessIrreflexive(v: Version)
    ensures !VersionLess(v, v)
  {
  }

  lemma VersionLessTransitive(a: Version, b: Version, c: Version)
    requires VersionLess(a, b) && VersionLess(b, c)
    ensures VersionLess(a, c)
  {
  }

  lemma VersionTrichotomy(a: Version, b: Version)
    ensures VersionLess(a, b) || VersionLess(b, a) || VersionEquiv(a, b)
    ensures !(VersionLess(a, b) && VersionLess(b, a))
    ensures VersionEquiv(a, b) ==> !VersionLess(a, b) && !VersionLess(b, a)
  {
  }

  /** `areIdenticalVersion`: equal under the comparison, so `sysVersion` and a
      final release's serial are ignored. */
  predicate AreIdenticalVersion(left: Version, right: Version): (r: bool)
    ensures r <==> VersionEquiv(left, right)
    ensures r <==> VersionEquiv(right, left)
  {
    CompareVersionsRaw(left, right).0 == 0
  }

  lemma AreIdenticalVersionIgnoresSysVersion(v: Version, sys: Option<string>)
    ensures AreIdenticalVersion(v, v.(sysVersion := sys))
  {
  }

  /** `version[prop] === -1`: only the three numeric fields can hold -1; the
      release object and the missing property '' never do. */
  predicate PropIsMinusOne(v: Version, prop: Prop) {
    match prop
    case MajorProp => v.major == -1
    case MinorProp => v.minor == -1
    case MicroProp => v.micro == -1
    case _ => false
  }

  function Min(a: int, b: int): int {
    if a <= b then a else b
  }

  /** The first numeric field the comparison finds different holds -1 on the
      lesser side. */
  predicate FirstDiffUnset(a: Version, b: Version) {
    if a.major != b.major then Min(a.major, b.major) == -1
    else if a.major == -1 then false
    else if a.minor != b.minor then Min(a.minor, b.minor) == -1
    else if a.minor == -1 then false
    else if a.micro != b.micro then Min(a.micro, b.micro) == -1
    else false
  }

  /** `areSimilarVersions`. */
  function AreSimilarVersions(left: Version, right: Version): (r: bool)
    ensures AreIdenticalVersion(left, right) ==> r
    ensures !(left.major == 2 && right.major == 2) ==>
      (r <==> VersionEquiv(left, right) || FirstDiffUnset(left, right))
  {
    var (result, prop) := CompareVersionsRaw(left, right);
    if result == 0 then true
    else
      var (result2, prop2) :=
        if left.major == 2 && right.major == 2 then
          var first := if left.minor == -1 then CompareBasic(left.(minor := 7), right) else (result, prop);
          if right.minor == -1 then CompareBasic(left, right.(minor := 7)) else first
        else (result, prop);
      if result2 < 0 then PropIsMinusOne(right, prop2) else PropIsMinusOne(left, prop2)
  }

  /** For major version 2 an unset minor is compared as 7, but the -1 test
      then looks at the field the recomputed comparison stopped at: against a
      2.7 version the answer is false, against 2.8 and above it is true. */
  lemma AreSimilarVersionsTwoUnsetMinor(left: Version, right: Version)
    requires left.major == 2 && right.major == 2
    requires left.minor == -1 && right.minor >= 0
    ensures AreSimilarVersions(left, right) <==>
      right.minor > 7 || (right.minor == 7 && left.micro != right.micro && Min(left.micro, right.micro) == -1)
  {
    assert CompareVersionsRaw(left, right).0 == 1;
  }

  lemma AreSimilarVersionsTwoUnsetMinorExample()
    ensures !AreSimilarVersions(Version(2, -1, 5, None, None), Version(2, 7, 5, None, None))
    ensures AreSimilarVersions(Version(2, -1, 5, None, None), Version(2, 8, 5, None, None))
  {
    AreSimilarVersionsTwoUnsetMinor(Version(2, -1, 5, None, None), Version(2, 7, 5, None, None));
    AreSimilarVersionsTwoUnsetMinor(Version(2, -1, 5, None, None), Version(2, 8, 5, None, None));
  }

  /** `mergeVersions`: the greater version; on a tie `version`, unless it is a
      2.x version with unset minor, when `other` is taken. */
  function MergeVersions(version: Version, other: Version): (r: Version)
    ensures r == version || r == other
    ensures VersionLess(version, other) ==> r == other
    ensures VersionLess(other, version) ==> r == version
    ensures VersionEquiv(version, other) ==>
      (r == other <==> (version.major == 2 && version.minor == -1) || version == other)
  {
    var (result, _) := CompareVersionsRaw(version, other);
    if result == 0 then
      if version.major == 2 && version.minor == -1 then other else version
    else if result > 0 then other
    else version
  }

  lemma MergeVersionsIdempotent(v: Version)
    ensures MergeVersions(v, v) == v
  {
  }

  /** The merged version is at least as great as both inputs. */
  lemma MergeVersionsUpperBound(version: Version, other: Version)
    ensures !VersionLess(MergeVersions(version, other), version)
    ensures !VersionLess(MergeVersions(version, other), other)
  {
    VersionTrichotomy(version, other);
  }

  /** The level named by a `a`, `b` or `rc` prefix, and the text after it. */
  function TrailerLevel(t: string): Option<(ReleaseLevel, string)> {
    if StartsWith(t, "a") then Some((Alpha, t[1..]))
    else if StartsWith(t, "b") then Some((Beta, t[1..]))
    else if StartsWith(t, "rc") then Some((Candidate, t[2..]))
    else None
  }

  /** The release named by text matching `^(a|b|rc)(\d+)$`. */
  function ReleaseTrailer(t: string): (r: Option<Release>)
    ensures r.Some? ==> r.value.level != Final && r.value.serial >= 0
  {
    match TrailerLevel(t)
    case None => None
    case Some((level, digits)) =>
      if digits != [] && AllDigits(digits) then Some(Release(level, DigitsValue(digits))) else None
  }

  /** `getEmptyVersion`. */
  function GetEmptyVersion(): (r: Version)
    ensures IsVersionEmpty(r) && r.release.None?
  {
    EMPTY_VERSION
  }

  /** `isVersionEmpty`: only the major version decides; an empty version is
      one the basic comparison puts level with `EMPTY_VERSION`. */
  predicate IsVersionEmpty(v: Version): (r: bool)
    ensures r <==> v.major == -1
    ensures r <==> BasicEqual(v, EMPTY_VERSION)
  {
    IsVersionInfoEmpty(v)
  }

  /** `parseVersion`: the empty text is the empty version, text the basic
      parser rejects is an error, and an `a|b|rc` trailer sets the release. */
  function ParseVersion(s: string): (r: Result<Version>)
    ensures s == "" ==> r == Ok(EMPTY_VERSION)
    ensures r.Err? <==> s != "" && !IsDigit(s[0])
    ensures r.Err? ==> r.msg == "invalid version " + s
    ensures r.Ok? && s != "" ==> !IsVersionEmpty(r.value) && r.value.release.Some?
  {
    match ParseBasicVersionInfo(s)
    case None => if s == "" then Ok(GetEmptyVersion()) else Err("invalid version " + s)
    case Some((version, after)) =>
      match ReleaseTrailer(after)
      case Some(release) => Ok(version.(release := Some(release)))
      case None => Ok(version)
  }

  /** The release suffix of the short version string. */
  function ReleaseSuffix(r: Option<Release>): string {
    match r
    case None => ""
    case Some(Release(Alpha, serial)) => "a" + IntToString(serial)
    case Some(Release(Beta, serial)) => "b" + IntToString(serial)
    case Some(Release(Candidate, serial)) => "rc" + IntToString(serial)
    case Some(Release(Final, _)) => ""
  }

  /** `getShortVersionString`: `MAJOR[.MINOR[.MICRO]]` up to the first unset
      field, then the release suffix (`a`, `b` or `rc` and the serial, nothing
      for a final release). */
  function ShortVersionString(v: Version): string {
    var numbers :=
      if v.minor == -1 then IntToString(v.major)
      else if v.micro == -1 then IntToString(v.major) + "." + IntToString(v.minor)
      else IntToString(v.major) + "." + IntToString(v.minor) + "." + IntToString(v.micro);
    numbers + ReleaseSuffix(v.release)
  }

  /** The short form starts with the major version and ends with a digit. */
  lemma ShortVersionStringEnds(v: Version)
    ensures ShortVersionString(v) != []
    ensures ShortVersionString(v)[0] == IntToString(v.major)[0]
    ensures IsDigit(ShortVersionString(v)[|ShortVersionString(v)| - 1])
  {
    var s := ShortVersionString(v);
    var suffix := ReleaseSuffix(v.release);
    if suffix != [] {
      assert IsDigit(suffix[|suffix| - 1]);
      assert s[|s| - 1] == suffix[|suffix| - 1];
    }
  }

  /** A version the short form represents exactly. */
  predicate Renderable(v: Version) {
    v.major >= 0 && v.minor >= 0 && v.micro >= 0
    && v.release.Some? && v.release.value.serial >= 0
    && (v.release.value.level == Final ==> v.release.value.serial == 0)
    && v.sysVersion.None?
  }

  lemma {:induction false} LeadingNumberOfNat(n: nat, rest: string)
    requires rest == [] || !IsDigit(rest[0])
    ensures LeadingNumber(NatToString(n) + rest) == Some((n, rest))
  {
    var d := NatToString(n);
    LeadingDigitCountOfDigits(d, rest);
    assert (d + rest)[..|d|] == d;
    assert (d + rest)[|d|..] == rest;
    DigitsValueOfNatToString(n);
  }

  lemma {:induction false} DottedNumberOfNat(n: nat, rest: string)
    requires rest == [] || !IsDigit(rest[0])
    ensures DottedNumber(['.'] + NatToString(n) + rest) == (n, rest)
  {
    var t := ['.'] + NatToString(n) + rest;
    assert t[1..] == NatToString(n) + rest;
    LeadingNumberOfNat(n, rest);
  }

  lemma RegroupNumbers(a: string, b: string, c: string, suffix: string)
    ensures a + ['.'] + b + ['.'] + c + suffix == a + (['.'] + b + (['.'] + c + suffix))
  {
  }

  /** The basic parser reads three rendered numbers and leaves the suffix. */
  lemma {:induction false} ParseBasicOfNumbers(major: nat, minor: nat, micro: nat, suffix: string)
    requires suffix == [] || !IsDigit(suffix[0])
    ensures ParseBasicVersionInfo(
        NatToString(major) + ['.'] + NatToString(minor) + ['.'] + NatToString(micro) + suffix)
      == Some((Version(major, minor, micro, Some(Release(Final, 0)), None), suffix))
  {
    var r2 := ['.'] + NatToString(micro) + suffix;
    var r1 := ['.'] + NatToString(minor) + r2;
    RegroupNumbers(NatToString(major), NatToString(minor), NatToString(micro), suffix);
    LeadingNumberOfNat(major, r1);
    DottedNumberOfNat(minor, r2);
    DottedNumberOfNat(micro, suffix);
  }

  lemma {:induction false} ReleaseTrailerOfSuffix(r: Release)
    requires r.serial >= 0 && (r.level == Final ==> r.serial == 0)
    ensures ReleaseSuffix(Some(r)) == [] || !IsDigit(ReleaseSuffix(Some(r))[0])
    ensures r.level != Final ==> ReleaseTrailer(ReleaseSuffix(Some(r))) == Some(r)
    ensures r.level == Final ==> ReleaseTrailer(ReleaseSuffix(Some(r))) == None
  {
    var t := ReleaseSuffix(Some(r));
    if r.level != Final {
      var digits := NatToString(r.serial);
      DigitsValueOfNatToString(r.serial);
      if r.level == Candidate {
        assert t == "rc" + digits;
        assert t[2..] == digits;
      } else {
        assert t[1..] == digits;
      }
    } else {
      assert t == "";
    }
  }

  /** Rendering a complete version and parsing it back gives the version. */
  lemma {:induction false} ParseShortVersionString(v: Version)
    requires Renderable(v)
    ensures ParseVersion(ShortVersionString(v)) == Ok(v)
  {
    var rel := v.release.value;
    var suffix := ReleaseSuffix(v.release);
    ReleaseTrailerOfSuffix(rel);
    var s := ShortVersionString(v);
    assert s == NatToString(v.major) + ['.'] + NatToString(v.minor) + ['.'] + NatToString(v.micro) + suffix;
    ParseBasicOfNumbers(v.major, v.minor, v.micro, suffix);
  }

  lemma ParseVersionExamples()
    ensures ParseVersion("0.9.2b2") == Ok(Version(0, 9, 2, Some(Release(Beta, 2)), None))
    ensures ParseVersion("3.3.1") == Ok(Version(3, 3, 1, Some(Release(Final, 0)), None))
    ensures ParseVersion("3.9.0rc1") == Ok(Version(3, 9, 0, Some(Release(Candidate, 1)), None))
    ensures ParseVersion("2.7.11a3") == Ok(Version(2, 7, 11, Some(Release(Alpha, 3)), None))
  {
    var v1 := Version(0, 9, 2, Some(Release(Beta, 2)), None);
    var v2 := Version(3, 3, 1, Some(Release(Final, 0)), None);
    var v3 := Version(3, 9, 0, Some(Release(Candidate, 1)), None);
    var v4 := Version(2, 7, 11, Some(Release(Alpha, 3)), None);
    assert ShortVersionString(v1) == "0.9.2b2";
    assert ShortVersionString(v2) == "3.3.1";
    assert ShortVersionString(v3) == "3.9.0rc1";
    assert ShortVersionString(v4) == "2.7.11a3";
    ParseShortVersionString(v1);
    ParseShortVersionString(v2);
    ParseShortVersionString(v3);
    ParseShortVersionString(v4);
  }

  /** `parseInt(part, 10)`, with NaN represented by the -1 sentinel. */
  function PartNumber(part: string): int {
    JsParseInt(part).GetOr(-1)
  }

  /** A level name accepted by `parseVersionInfo`, compared after lowercasing. */
  function ParseLevel(part: string): (r: Option<ReleaseLevel>)
    ensures r.Some? <==> ToLower(part) in ["alpha", "beta", "candidate", "final"]
    ensures r.Some? ==> LevelName(r.value) == ToLower(part)
  {
    var level := ToLower(part);
    if level == "alpha" then Some(Alpha)
    else if level == "beta" then Some(Beta)
    else if level == "candidate" then Some(Candidate)
    else if level == "final" then Some(Final)
    else None
  }

  /** The level part of `parseVersionInfo`: stored only when there are at
      least four parts, the version has a release object and the part names a
      level. */
  function WithLevelPart(v: Version, parts: seq<string>): (r: Version)
    ensures r.release.None? <==> v.release.None?
    ensures r.(release := v.release) == v
    ensures r.release.Some? ==> r.release.value.serial == v.release.value.serial
    ensures r.release.Some? ==>
      r.release.value.level == if |parts| >= 4 && ParseLevel(parts[3]).Some? then ParseLevel(parts[3]).value else v.release.value.level
  {
    if |parts| >= 4 && v.release.Some? then
      match ParseLevel(parts[3])
      case Some(level) => v.(release := Some(v.release.value.(level := level)))
      case None => v
    else v
  }

  /** The serial part of `parseVersionInfo`: stored only when there are at
      least five parts and the version has a release object. */
  function WithSerialPart(v: Version, parts: seq<string>): (r: Version)
    ensures r.release.None? <==> v.release.None?
    ensures r.(release := v.release) == v
    ensures r.release.Some? ==> r.release.value.level == v.release.value.level
    ensures r.release.Some? ==>
      r.release.value.serial == if |parts| >= 5 then PartNumber(parts[4]) else v.release.value.serial
  {
    if |parts| >= 5 && v.release.Some? then
      v.(release := Some(v.release.value.(serial := PartNumber(parts[4]))))
    else v
  }

  /** `parseVersionInfo`: dotted parts assigned onto a fresh empty version:
      the first two parts as major and minor, the third as micro. The empty
      version carries no release object, so the level and serial parts are
      never stored. */
  function ParseVersionInfo(s: string): (r: Version)
    ensures |Split(s, '.')| < 2 ==> r == EMPTY_VERSION
    ensures var parts := Split(s, '.');
      |parts| >= 2 ==> r.major == PartNumber(parts[0]) && r.minor == PartNumber(parts[1])
    ensures var parts := Split(s, '.'); |parts| >= 3 ==> r.micro == PartNumber(parts[2])
    ensures |Split(s, '.')| == 2 ==> r.micro == -1
    ensures r.release.None? && r.sysVersion.None?
  {
    var parts := Split(s, '.');
    var v0 := GetEmptyVersion();
    var v1 := if |parts| >= 2 then v0.(major := PartNumber(parts[0]), minor := PartNumber(parts[1])) else v0;
    var v2 := if |parts| >= 3 then v1.(micro := PartNumber(parts[2])) else v1;
    WithSerialPart(WithLevelPart(v2, parts), parts)
  }

  /** The numeric parts of a `MAJOR.MINOR.MICRO.level.serial` text are read
      back; the level and serial are dropped. */
  lemma {:induction false} ParseVersionInfoNumbers(major: int, minor: int, micro: int, tail: string)
    ensures ParseVersionInfo(IntToString(major) + ['.'] + IntToString(minor) + ['.'] + IntToString(micro) + ['.'] + tail)
      == Version(major, minor, micro, None, None)
  {
    var a, b, c := IntToString(major), IntToString(minor), IntToString(micro);
    IntToStringHasNoDot(major);
    IntToStringHasNoDot(minor);
    IntToStringHasNoDot(micro);
    var parts := SplitNumbers(a, b, c, tail);
    JsParseIntOfIntToString(major);
    JsParseIntOfIntToString(minor);
    JsParseIntOfIntToString(micro);
  }

  /** "M.m" parses to M.m with the micro version unset. */
  lemma {:induction false} ParseVersionInfoTwoNumbers(major: int, minor: int)
    ensures ParseVersionInfo(IntToString(major) + ['.'] + IntToString(minor)) == Version(major, minor, -1, None, None)
  {
    var a, b := IntToString(major), IntToString(minor);
    IntToStringHasNoDot(major);
    IntToStringHasNoDot(minor);
    SplitCons(a, '.', b);
    assert Split(b, '.') == [b];
    JsParseIntOfIntToString(major);
    JsParseIntOfIntToString(minor);
  }

  lemma {:induction false} SplitNumbers(a: string, b: string, c: string, tail: string) returns (parts: seq<string>)
    requires '.' !in a && '.' !in b && '.' !in c
    ensures parts == Split(a + ['.'] + b + ['.'] + c + ['.'] + tail, '.')
    ensures |parts| >= 4 && parts[0] == a && parts[1] == b && parts[2] == c
  {
    var t2 := c + ['.'] + tail;
    var t1 := b + ['.'] + t2;
    assert a + ['.'] + b + ['.'] + c + ['.'] + tail == a + ['.'] + t1;
    SplitCons(a, '.', t1);
    SplitCons(b, '.', t2);
    SplitCons(c, '.', tail);
    parts := Split(a + ['.'] + t1, '.');
  }

  lemma IntToStringHasNoDot(i: int)
    ensures '.' !in IntToString(i)
  {
    var s := IntToString(i);
    if i >= 0 {
      assert forall k :: 0 <= k < |s| ==> IsDigit(s[k]);
    } else {
      var n := NatToString(-i);
      assert s == "-" + n;
      assert forall k :: 0 <= k < |n| ==> IsDigit(n[k]);
    }
  }

  /** `getPythonVersionFromPath` of this file: the version named by the
      executable's file name, or the empty version when it does not parse. */
  function VersionFromExeName(exe: string): (r: Version)
    ensures ParseVersion(Basename(exe)).Ok? ==> r == ParseVersion(Basename(exe)).value
    ensures ParseVersion(Basename(exe)).Err? ==> r == EMPTY_VERSION
  {
    match ParseVersion(Basename(exe))
    case Ok(v) => v
    case Err(_) => GetEmptyVersion()
  }

  /** `normalizeVersion`, `copyVersion` and `validateVersion` are imported from
      this file by the build record but their bodies are not part of this
      model; they are stated here. A missing version (`{}`) normalizes to the
      empty version and a present one is kept. */
  function NormalizeVersion(v: Option<Version>): (r: Version)
    ensures v.None? ==> IsVersionEmpty(r)
    ensures v.Some? ==> r == v.value
  {
    match v
    case None => GetEmptyVersion()
    case Some(version) => version
  }

  /** A deep copy of a value is the value itself. */
  function CopyVersion(v: Version): Version {
    v
  }

  /** A numeric field below the -1 sentinel or a negative serial is invalid. */
  function ValidateVersion(v: Version): (r: Outcome)
    ensures r.Pass? ==> v.major >= -1 && v.minor >= -1 && v.micro >= -1
    ensures r.Pass? <==> ValidateVersionInfo(v).Pass? && (v.release.Some? ==> v.release.value.serial >= 0)
  {
    match ValidateVersionInfo(v)
    case Fail(e) => Fail(e)
    case Pass =>
      if v.release.Some? && v.release.value.serial < 0 then Fail("invalid release serial") else Pass
  }
}
