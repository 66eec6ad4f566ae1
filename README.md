# Python environment information and test discovery results, in Dafny

This project models two parts of the VS Code Python extension and proves properties of them.

The first part is the extension's environment-information algebra (`src/client/pythonEnvironments/base/info/`):

- the `PythonVersion` record, with its parser, comparison, similarity test and merge;
- the copy, normalize, validate and merge operations of the environment base, build, distro and distro-meta records;
- the whole-environment operations: building and updating an environment, normalizing and validating it, its display name, the "same environment" test, the matcher, and kind-priority sorting;
- the environment-kind tables: name, display name and priority.

Around that algebra sit the stateful pieces:

- the workspace locator registry, with its URI matcher and the extension-locator ordering;
- the per-path environment-information service, with its cache and queue;
- the `Disposables` and `Activatable` resource-lifecycle helpers;
- the interpreter-search helpers of `commonUtils.ts`, over an in-memory directory tree.

The second part is the Python test adapter:

- the discovered-test tree of `results.py`: `TestFolder`, `TestFile`, `TestSuite` and `Test`, with qualified-name building and the `all_tests` order;
- the test serialiser and the collector lists of `output_format.py`.

Modelling conventions:

- Plain TypeScript records and Python values are Dafny datatypes.
- Objects whose fields change in place are classes. Each class has a `Valid()` invariant and an abstraction (`State()` or `Value()`) into a datatype. Each method's new state is stated through a specification function, and the lemmas about those functions carry the properties.
- The test tree's objects are shared: `add_suite`, `add_subsuite`, `add_file` and `add_subfolder` hand out the child they store, and callers grow it through that handle. Each class keeps the set of objects it is made of (`Repr`). After a child grows through its handle, a ghost `Refresh` step re-establishes the parent's `Valid()` over the larger set; it changes no Python-visible field. The replays of the `test_all_tests` cases in `TestResultsExamples` use it.
- A TypeScript `undefined` and a Python `None` are `None`. An exception is an `Err` or `Fail` value.
- Awaited operations are split into a request half and a completion half.
- File-system probes are parameters.

## Model

| member | source | states |
|---|---|---|
| PythonVersion.LevelNameOrder | src/client/pythonEnvironments/base/info/pythonVersion.ts:193-198 | the string order of the level names alpha < beta < candidate < final is the order of release levels |
| PythonVersion.CompareVersionRelease | src/client/pythonEnvironments/base/info/pythonVersion.ts:181-213 | result is -1, 0 or 1; positive exactly when the left release ranks lower (level, then serial for non-final levels), negative exactly when the right one does; the property name is empty exactly on a tie |
| PythonVersion.CompareVersionReleaseReflexive | src/client/pythonEnvironments/base/info/pythonVersion.ts:181-213 | a version compared with itself gives 0 and no property |
| PythonVersion.CompareVersionReleaseAntisymmetric | src/client/pythonEnvironments/base/info/pythonVersion.ts:181-213 | swapping the arguments negates the result |
| PythonVersion.CompareVersionReleaseFinalIgnoresSerial | src/client/pythonEnvironments/base/info/pythonVersion.ts:200-203 | two final releases compare equal whatever their serials |
| PythonVersion.CompareVersionsRaw | src/client/pythonEnvironments/base/info/pythonVersion.ts:172-179 | result is -1, 0 or 1 and is positive/negative/zero exactly when the left version is lower/higher/equivalent in the (major, minor, micro, release) order; it agrees with the basic comparison whenever the numbers differ |
| PythonVersion.CompareVersions | src/client/pythonEnvironments/base/info/pythonVersion.ts:167-170 | the sign of the raw comparison: positive iff left is lower, negative iff right is lower, zero iff equivalent |
| PythonVersion.VersionLessIrreflexive | src/client/pythonEnvironments/base/info/pythonVersion.ts:167-213 | no version is lower than itself |
| PythonVersion.VersionLessTransitive | src/client/pythonEnvironments/base/info/pythonVersion.ts:167-213 | the version order is transitive |
| PythonVersion.VersionTrichotomy | src/client/pythonEnvironments/base/info/pythonVersion.ts:167-213 | any two versions are lower, higher or equivalent, and never two of these at once |
| PythonVersion.AreIdenticalVersion | src/client/pythonEnvironments/base/info/pythonVersion.ts:129-133 | true exactly when the two versions are equivalent under the comparison (basic fields as far as set, release level, and serial unless final), whichever order they are given in |
| PythonVersion.AreIdenticalVersionIgnoresSysVersion | src/client/pythonEnvironments/base/info/pythonVersion.ts:129-133 | identity ignores the `sysVersion` text |
| PythonVersion.AreSimilarVersions | src/client/pythonEnvironments/base/info/pythonVersion.ts:140-162 | identical versions are similar; outside the 2.x special case, similar iff the versions are equivalent or the first field where they differ is unset (-1) on the lower side |
| PythonVersion.AreSimilarVersionsTwoUnsetMinor | src/client/pythonEnvironments/base/info/pythonVersion.ts:145-160 | for 2.x with an unset minor against a set one, similarity holds iff the other minor is above 7, or it is 7 and the micros differ with one unset |
| PythonVersion.AreSimilarVersionsTwoUnsetMinorExample | src/client/pythonEnvironments/base/info/pythonVersion.ts:145-160 | 2.-1.5 is not similar to 2.7.5 but is similar to 2.8.5 |
| PythonVersion.MergeVersions | src/client/pythonEnvironments/base/info/pythonVersion.ts:221-232 | the result is one of the inputs: the higher one; on equivalence `other` only for a 2.x `version` with unset minor |
| PythonVersion.MergeVersionsIdempotent | src/client/pythonEnvironments/base/info/pythonVersion.ts:221-232 | merging a version with itself gives it back |
| PythonVersion.MergeVersionsUpperBound | src/client/pythonEnvironments/base/info/pythonVersion.ts:221-232 | the merge is lower than neither input |
| PythonVersion.ReleaseTrailer | src/client/pythonEnvironments/base/info/pythonVersion.ts:46-63 | a recognised `a`/`b`/`rc` trailer gives a non-final level and a non-negative serial |
| PythonVersion.GetEmptyVersion | src/client/pythonEnvironments/base/info/pythonVersion.ts:111-113 | a copy of the empty version: empty, and (under the assumed shape of `EMPTY_VERSION`) without a release |
| PythonVersion.IsVersionEmpty | src/client/pythonEnvironments/base/info/pythonVersion.ts:115-122 | true exactly when the major version is -1, which is exactly when the basic comparison puts the version level with `EMPTY_VERSION` |
| PythonVersion.ParseVersion | src/client/pythonEnvironments/base/info/pythonVersion.ts:37-65 | '' gives the empty version; an error exactly for non-empty text not starting with a digit, with message "invalid version <text>"; otherwise a non-empty version with a release |
| PythonVersion.ShortVersionStringEnds | src/test/pythonEnvironments/base/info/pythonVersion.unit.test.ts:37-46 | the rendered version starts with the major's first character and ends in a digit |
| PythonVersion.ParseShortVersionString | src/test/pythonEnvironments/base/info/pythonVersion.unit.test.ts:37-57 | parsing the short rendering of a renderable version gives that version back |
| PythonVersion.ParseVersionExamples | src/test/pythonEnvironments/base/info/pythonVersion.unit.test.ts:30-57 | '0.9.2b2', '3.3.1', '3.9.0rc1' and '2.7.11a3' parse to the tabulated records; '3.3.1' is final, serial 0 |
| PythonVersion.ParseBasicOfNumbers | src/client/pythonEnvironments/base/info/pythonVersion.ts:42-45 | the basic parser reads rendered major.minor.micro back, as a final release, leaving the suffix |
| PythonVersion.ReleaseTrailerOfSuffix | src/client/pythonEnvironments/base/info/pythonVersion.ts:46-63 | the rendered release suffix is read back as the same non-final release, and a final one as no trailer |
| PythonVersion.ParseLevel | src/client/pythonEnvironments/base/info/pythonVersion.ts:93-98 | a level is recognised iff its lower-cased text is alpha, beta, candidate or final, and it names that level |
| PythonVersion.WithLevelPart | src/client/pythonEnvironments/base/info/pythonVersion.ts:93-99 | only the release's level may change; when a release exists it takes the level named by the fourth part if that names one, and keeps its level otherwise |
| PythonVersion.WithSerialPart | src/client/pythonEnvironments/base/info/pythonVersion.ts:101-103 | only the release's serial may change; when a release exists and there are five parts it takes `parseInt` of the fifth |
| PythonVersion.ParseVersionInfo | src/client/pythonEnvironments/base/info/pythonVersion.ts:81-106 | fewer than two dotted parts gives the empty version; otherwise major and minor are `parseInt` of the first two parts, micro that of the third when there is one and unset when there are just two; the result never has a release or sys-version |
| PythonVersion.ParseVersionInfoNumbers | src/client/pythonEnvironments/base/info/pythonVersion.ts:81-91 | "M.m.u.<rest>" parses to version M.m.u |
| PythonVersion.ParseVersionInfoTwoNumbers | src/client/pythonEnvironments/base/info/pythonVersion.ts:81-91 | "M.m" parses to version M.m with the micro version unset |
| PythonVersion.VersionFromExeName | src/client/pythonEnvironments/base/info/pythonVersion.ts:16-24 | the version parsed from the executable's base name, or the empty version when that does not parse |
| PythonVersion.NormalizeVersion | src/client/pythonEnvironments/base/info/pythonBuild.ts:5 | a missing version normalizes to an empty one; a present one is kept |
| PythonVersion.ValidateVersion | src/client/pythonEnvironments/base/info/pythonBuild.ts:5 | passes iff the basic numbers are valid and any release serial is non-negative |
| BasicVersion.CompareBasic | src/client/pythonEnvironments/base/info/pythonVersion.ts:7-12 | lexicographic on (major, minor, micro): positive iff the left is lower, zero iff equal, with the differing field named |
| BasicVersion.ParseBasicVersionInfo | src/client/pythonEnvironments/base/info/pythonVersion.ts:7-12 | no version exactly when the text is empty or does not start with a digit |
| EnvKind.FirstKeyOf | src/client/pythonEnvironments/base/info/envKind.ts:25-35 | the name found is paired with the kind in the table; none iff no row has the kind |
| EnvKind.FirstValueOf | src/client/pythonEnvironments/base/info/envKind.ts:42-47 | the kind found is paired with the name in the table; none iff no row has the name |
| EnvKind.FirstValueOfMember | src/client/pythonEnvironments/base/info/envKind.ts:42-47 | with distinct keys, looking up a table row's key finds that row's value |
| EnvKind.FirstValueOfAt | src/client/pythonEnvironments/base/info/envKind.ts:42-47 | the lookup returns the value of the first row with the key |
| EnvKind.KindsByNameKeysDistinct | src/client/pythonEnvironments/base/info/envKind.ts:6-20 | the names in `kindsByName` are pairwise distinct |
| EnvKind.GetKindName | src/client/pythonEnvironments/base/info/envKind.ts:25-35 | Unknown gives ''; a non-empty name is the kind's table name; '' iff Unknown or the kind is not in the table |
| EnvKind.UnknownOnlyFirst | src/client/pythonEnvironments/base/info/envKind.ts:6-8 | the only name paired with Unknown is 'unknown' |
| EnvKind.GetKind | src/client/pythonEnvironments/base/info/envKind.ts:42-47 | 'unknown' gives undefined; a found kind is the name's table kind and not Unknown; undefined iff 'unknown' or an absent name |
| EnvKind.GetKindOfGetKindName | src/client/pythonEnvironments/base/info/envKind.ts:25-47 | `getKind(getKindName(k)) == k` for every kind with a name |
| EnvKind.KindsWithoutName | src/client/pythonEnvironments/base/info/envKind.ts:6-20 | Poetry and VirtualEnvWrapper have no name |
| EnvKind.GetKindDisplayName | src/client/pythonEnvironments/base/info/envKind.ts:54-77 | a non-empty result is the kind's display entry; '' iff the kind has no entry |
| EnvKind.DisplayEntry | src/client/pythonEnvironments/base/info/envKind.ts:54-77 | the index of the first display entry for the kind |
| EnvKind.DisplayNameOfEntry | src/client/pythonEnvironments/base/info/envKind.ts:54-77 | the display name is the text of the kind's first entry |
| EnvKind.EveryKindHasDisplayName | src/client/pythonEnvironments/base/info/envKind.ts:54-77 | every kind has a non-empty display name |
| EnvKind.UnknownKindsDisplayName | src/client/pythonEnvironments/base/info/envKind.ts:54-77 | Unknown, OtherGlobal and OtherVirtual display as '???' |
| EnvKind.CondaKindsDisplayName | src/client/pythonEnvironments/base/info/envKind.ts:54-77 | Conda and CondaBase both display as 'conda' |
| EnvKind.VirtualEnvKindsDisplayName | src/client/pythonEnvironments/base/info/envKind.ts:54-77 | VirtualEnv and VirtualEnvWrapper both display as 'virtualenv' |
| EnvKind.PrioritizedEnvKindsComplete | src/client/pythonEnvironments/base/info/envKind.ts:101-119 | the priority list holds all 15 kinds without repeats, CondaBase first and Unknown last |
| EnvKind.IndexOfKind | src/client/pythonEnvironments/base/info/envKind.ts:101-119 | the first position of the kind in the list |
| EnvKind.PriorityIndex | src/client/pythonEnvironments/base/info/env.ts:413-421 | every kind has a position in the priority list |
| Executable.NormalizeExecutable | src/client/pythonEnvironments/base/info/envBase.ts:4 | missing filename and sys-prefix become '', missing times -1, present fields are kept |
| Executable.NormalizeExecutableOfComplete | src/client/pythonEnvironments/base/info/envBase.ts:4 | normalizing a complete executable gives it back |
| Executable.ValidateExecutable | src/client/pythonEnvironments/base/info/envBase.ts:4 | fails exactly when the filename is empty |
| Executable.MergeExecutables | src/client/pythonEnvironments/base/info/env.ts:19-23 | the primary's filename wins unless it is empty |
| Executable.MergeExecutablesIdempotent | src/client/pythonEnvironments/base/info/env.ts:19-23 | merging an executable with itself gives it back |
| Executable.ParseExeVersion | src/client/pythonEnvironments/base/info/env.ts:19-23 | no version text in the name is an error; a success is the parse of that text |
| Executable.ParseExeVersionIgnoringErrors | src/client/pythonEnvironments/base/info/env.ts:19-23 | the parsed version, or the empty version on error |
| EnvBase.CopyEnvBase | src/client/pythonEnvironments/base/info/envBase.ts:11-15 | the copy equals the input |
| EnvBase.NormalizeEnvBase | src/client/pythonEnvironments/base/info/envBase.ts:20-39 | a missing kind becomes Unknown, a missing or empty name/location ''; a present kind, name and location are kept; the executable is normalized, a missing one giving the empty executable |
| EnvBase.NormalizeEnvBaseOfComplete | src/client/pythonEnvironments/base/info/envBase.ts:20-39 | normalizing a complete base gives it back |
| EnvBase.ValidateEnvBase | src/client/pythonEnvironments/base/info/envBase.ts:48-54 | an executable failure is passed on; otherwise 'missing name' exactly when both name and location are '' |
| PythonBuild.ArchDisplayName | src/test/pythonEnvironments/base/info/env.unit.test.ts:25-31 | x64 displays as '64-bit', x86 as '32-bit' |
| PythonBuild.CopyBuild | src/client/pythonEnvironments/base/info/pythonBuild.ts:12-16 | the copy equals the input |
| PythonBuild.NormalizeBuild | src/client/pythonEnvironments/base/info/pythonBuild.ts:21-32 | a missing version becomes an empty one and a missing arch Unknown; present fields are kept |
| PythonBuild.NormalizeBuildOfComplete | src/client/pythonEnvironments/base/info/pythonBuild.ts:21-32 | normalizing a complete build gives it back |
| PythonBuild.ValidateBuild | src/client/pythonEnvironments/base/info/pythonBuild.ts:41-44 | the build is as valid as its version |
| PythonBuild.ValidateBuildIgnoresArch | src/client/pythonEnvironments/base/info/pythonBuild.ts:41-44 | validation does not look at the arch |
| PythonBuild.MergeBuilds | src/client/pythonEnvironments/base/info/pythonBuild.ts:49-60 | version is the version merge; the primary's arch wins unless Unknown |
| PythonBuild.MergeBuildsVersionUpperBound | src/client/pythonEnvironments/base/info/pythonBuild.ts:49-60 | the merged version is lower than neither input, and merging a build with itself gives it back |
| PythonDistroMeta.NormalizeDistroMeta | src/client/pythonEnvironments/base/info/pythonDistroMeta.ts:9-18 | a falsy org becomes '', a blank display name undefined; other values are kept; the result is normal |
| PythonDistroMeta.NormalizeDistroMetaIdempotent | src/client/pythonEnvironments/base/info/pythonDistroMeta.ts:9-18 | a normal meta is unchanged, so normalizing twice is normalizing once |
| PythonDistroMeta.ValidateDistroMeta | src/client/pythonEnvironments/base/info/pythonDistroMeta.ts:27-30 | validation never fails |
| PythonDistroMeta.MergeMetaDistros | src/client/pythonEnvironments/base/info/pythonDistroMeta.ts:35-54 | the primary's org wins unless it is ''; the primary's display name wins unless blank; the display name is absent iff the primary's is blank and the other's missing |
| PythonDistroMeta.MergeMetaDistrosIdempotent | src/client/pythonEnvironments/base/info/pythonDistroMeta.ts:35-54 | merging a meta with itself gives it back |
| PythonDistro.CopyDistro | src/client/pythonEnvironments/base/info/pythonDistro.ts:13-15 | the copy equals the input |
| PythonDistro.NormalizeDistro | src/client/pythonEnvironments/base/info/pythonDistro.ts:20-31 | the meta part is normalized; a missing version stays missing, a present one is normalized; a blank `binDir` becomes undefined |
| PythonDistro.NormalizeDistroIdempotent | src/client/pythonEnvironments/base/info/pythonDistro.ts:20-31 | normalizing twice is normalizing once |
| PythonDistro.ValidateDistro | src/client/pythonEnvironments/base/info/pythonDistro.ts:40-46 | passes without a version; otherwise as valid as the version |
| PythonDistro.ValidateDistroIgnoresBinDir | src/client/pythonEnvironments/base/info/pythonDistro.ts:40-46 | validation does not look at `binDir` |
| PythonDistro.MergeDistros | src/client/pythonEnvironments/base/info/pythonDistro.ts:51-71 | meta parts merge; version present iff either has one, copied from the only side that has it, merged when both do; the primary's `binDir` wins unless blank |
| PythonDistro.MergeDistrosIdempotent | src/client/pythonEnvironments/base/info/pythonDistro.ts:51-71 | merging a distro with itself gives it back |
| Env.WithBase | src/client/pythonEnvironments/base/info/env.ts:127-143 | replaces the base fields and keeps the build fields |
| Env.WithBuild | src/client/pythonEnvironments/base/info/env.ts:127-143 | replaces the build fields and keeps the base fields |
| Env.GetEmptyEnv | src/client/pythonEnvironments/base/info/env.ts:51-76 | the empty environment has kind Unknown, no filename, an empty version, no name or location and an Unknown arch |
| Env.UpdateEnv | src/client/pythonEnvironments/base/info/env.ts:155-181 | given kind, executable filename and location replace the old ones; a version text that does not parse is an "invalid version" error and leaves the version; all other fields are unchanged |
| Env.BuildEnvInfo | src/client/pythonEnvironments/base/info/env.ts:83-113 | no argument gives the empty environment; an error iff the version text does not parse; otherwise kind, filename and file times come from the arguments |
| Env.CopyStrict | src/client/pythonEnvironments/base/info/env.ts:145-153 | the strict copy equals the input |
| Env.CopyEnvInfo | src/client/pythonEnvironments/base/info/env.ts:127-143 | the copy equals the input except for a given kind |
| Env.DisplayNameParts | src/client/pythonEnvironments/base/info/env.ts:225-234 | the name parts begin with 'Python' and none is empty |
| Env.DisplayNamePartsEnd | src/client/pythonEnvironments/base/info/env.ts:225-234 | the last name part does not end in white space |
| Env.TrimJoinedSuffix | src/client/pythonEnvironments/base/info/env.ts:242-244 | trimming drops the separator space when the suffix is empty and changes nothing otherwise |
| Env.JoinDisplayNameText | src/client/pythonEnvironments/base/info/env.ts:243-244 | the display name is the space-joined name parts, followed by " (<suffix parts joined by ': '>)" when there are suffix parts |
| Env.JoinDisplayNameShape | src/client/pythonEnvironments/base/info/env.ts:243-244 | the display name starts with 'Python', and has the joined shape above |
| Env.BuildEnvDisplayName | src/client/pythonEnvironments/base/info/env.ts:225-245 | every display name starts with 'Python'; it is the name parts joined by spaces, followed only when there is a suffix part by a space and the suffix parts joined by ': ' in parentheses, so the trim removes nothing else |
| Env.SuffixPartsOfNamed | src/client/pythonEnvironments/base/info/env.ts:235-241 | a named environment whose kind has a display name gets the suffix parts `'name'` and the kind label |
| Env.RcVersionParts | src/test/pythonEnvironments/base/info/env.unit.test.ts:22-32 | version 3.8.1rc2 on x64 gives the parts Python, 3.8.1rc2, 64-bit |
| Env.CondaFooSuffixParts | src/test/pythonEnvironments/base/info/env.unit.test.ts:22-32 | a conda environment named foo gives the suffix parts 'foo' and conda |
| Env.BuildEnvDisplayNameFull | src/test/pythonEnvironments/base/info/env.unit.test.ts:22-32 | that environment displays as "Python 3.8.1rc2 64-bit ('foo': conda)" |
| Env.BuildEnvDisplayNameEmpty | src/test/pythonEnvironments/base/info/env.unit.test.ts:14-20 | an environment with nothing set displays as "Python (???)" |
| Env.NormalizeEnv | src/client/pythonEnvironments/base/info/env.ts:186-204 | base, arch and search location kept; distro normalized; an empty version replaced by the one in the executable's name; a blank display name replaced by the built one; the display name is then non-empty |
| Env.DisplayNameIgnoresDisplayName | src/client/pythonEnvironments/base/info/env.ts:225-245 | the built display name does not depend on the stored one |
| Env.NormalizeEnvIdempotent | src/client/pythonEnvironments/base/info/env.ts:186-204 | normalizing twice is normalizing once |
| Env.ValidateEnv | src/client/pythonEnvironments/base/info/env.ts:213-220 | passes iff base, build and distro all pass; a base failure is reported first |
| Env.GetMinimalPartialInfo | src/client/pythonEnvironments/base/info/env.ts:253-274 | undefined exactly when the query has no filename; otherwise the filename is the query's; a record query is returned as is |
| Env.AreSameEnv | src/client/pythonEnvironments/base/info/env.ts:376-407 | undefined iff either side has no filename; true iff the filenames are path-equal, or the directories are path-equal, both versions are present and they are identical, or similar when partial matches are allowed |
| Env.AreSameEnvOfPaths | src/client/pythonEnvironments/base/info/env.ts:394-406 | two different plain paths are never the same environment |
| Env.GetEnvMatcher | src/client/pythonEnvironments/base/info/env.ts:350-362 | the matcher accepts exactly the environments whose executable is path-equal to the query's non-empty executable |
| Env.GetFastEnvInfo | src/client/pythonEnvironments/base/info/env.ts:284-297 | an empty environment of the kind with the executable set, and the version from the executable's name when it parses |
| Env.GetMaxDerivedEnvInfo | src/client/pythonEnvironments/base/info/env.ts:311-343 | only the version may change; a set version is kept; an empty one is filled from the executable's name when that parses |
| Env.MinKeyIndex | src/client/pythonEnvironments/base/info/env.ts:413-421 | an index in range whose key is no greater than any later key |
| Env.SelectionStep | src/client/pythonEnvironments/base/info/env.ts:413-421 | swapping the minimum into place extends the sorted, bounded prefix by one |
| Env.SortByKey | src/client/pythonEnvironments/base/info/env.ts:413-421 | the array ends sorted by key and is a permutation of its old contents |
| Env.SortByPriority | src/client/pythonEnvironments/base/info/env.ts:413-421 | the environments end ordered by kind priority and are a permutation of the old ones |
| Env.PickBestEnv | src/client/pythonEnvironments/base/info/env.ts:414-431 | none iff no candidates; otherwise the earliest candidate whose priority is no worse than any other's, as the stable sort puts first |
| Env.MergeBaseInfo | src/client/pythonEnvironments/base/info/env.ts:467-488 | the primary's kind wins unless Unknown, its name and location unless ''; executables merge |
| Env.MergeEnvs | src/client/pythonEnvironments/base/info/env.ts:440-465 | base, build and distro parts merge; the primary's display name wins unless blank and its search location unless undefined |
| Env.MergeEnvsIdempotent | src/client/pythonEnvironments/base/info/env.ts:440-465 | merging an environment with itself gives it back |
| Paths.Basename | src/client/pythonEnvironments/common/commonUtils.ts:4 | the base name is a suffix of the path without a separator |
| Paths.JoinSplitsBack | src/client/pythonEnvironments/common/commonUtils.ts:4 | the directory and base name of `join(dir, name)` are `dir` and `name` |
| CommonUtils.GetEnvironmentDirFromPath | src/client/pythonEnvironments/common/commonUtils.ts:129-144 | the grandparent when the parent's base name is bin or scripts in any case, else the parent |
| CommonUtils.EnvironmentDirOfLayout | src/client/pythonEnvironments/common/commonUtils.ts:129-144 | for `root/dir/exe` the environment directory is `root` when `dir` is a binary directory and `root/dir` otherwise |
| CommonUtils.ContainsFirstChar | src/client/pythonEnvironments/common/commonUtils.ts:109-112 | a string containing a word contains its first letter |
| CommonUtils.InterpreterDirFilter | src/client/pythonEnvironments/common/commonUtils.ts:109-112 | the filter accepts a path exactly when its lowercase form is 'bin' or 'scripts' or has 'python' at some position |
| Text.ContainsIff | src/client/pythonEnvironments/common/commonUtils.ts:111 | `search('python') >= 0` holds exactly when the text occurs at some position of the string |
| CommonUtils.IsPythonBinaryName | src/client/pythonEnvironments/common/commonUtils.ts:116-117 | a path is accepted exactly when its base name has six or ten characters that, lowercased, spell the start of 'python.exe' |
| CommonUtils.BinDirRejected | src/client/pythonEnvironments/common/commonUtils.ts:109-112 | the directory filter rejects /env/bin, as its full path has no 'python' |
| CommonUtils.PythonDirAccepted | src/client/pythonEnvironments/common/commonUtils.ts:109-112 | the directory filter accepts any full path containing '/python' |
| CommonUtils.InterpreterSearchSkipsBinDir | src/client/pythonEnvironments/common/commonUtils.ts:107-122 | a search of /env with the filter finds nothing in /env/bin |
| CommonUtils.FindInterpretersInDir | src/client/pythonEnvironments/common/commonUtils.ts:21-53 | every result passes the binary check; with no levels left only the top-level files are returned |
| CommonUtils.TopLevelStep | src/client/pythonEnvironments/common/commonUtils.ts:26-46 | the top-level files of a listing are those of its first entry and of the rest |
| CommonUtils.FindInterpretersDescends | src/client/pythonEnvironments/common/commonUtils.ts:28-41 | a top-level directory the filter accepts is searched one level less deep and without the filter, and its finds are included |
| CommonUtils.FindInterpretersTopFile | src/client/pythonEnvironments/common/commonUtils.ts:26-46 | a top-level file accepted by the filter and the binary check is found |
| CommonUtils.GetInterpreterPathFromDir | src/client/pythonEnvironments/common/commonUtils.ts:107-122 | given the paths the depth-2 search with the directory filter yields, undefined iff none of them is a binary name; otherwise the first binary name among them, which is a path the search yields and that passes the binary test |
| CommonUtils.FirstPythonBinary | src/client/pythonEnvironments/common/commonUtils.ts:115-121 | the loop returns undefined iff no path in the list is a binary name, and otherwise the first one that is |
| CommonUtils.GetPythonVersionFromNearByFiles | src/client/pythonEnvironments/common/commonUtils.ts:59-73 | the loop computes the fold of the parsed file names from the empty version |
| CommonUtils.ParseVersionMajor | src/client/pythonEnvironments/base/info/pythonVersion.ts:37-65 | a parsed version's major is at least -1 |
| CommonUtils.NothingBeforeEmpty | src/client/pythonEnvironments/common/commonUtils.ts:59-73 | no version with major at least -1 is lower than the empty version |
| CommonUtils.NearByFoldFromEmpty | src/client/pythonEnvironments/common/commonUtils.ts:59-73 | the nearby-files fold from the empty version stays the empty version |
| CommonUtils.HintVersion | src/client/pythonEnvironments/common/commonUtils.ts:85-90 | an absent, empty or unparseable hint gives the empty version; otherwise the parsed one |
| CommonUtils.KeepStep | src/client/pythonEnvironments/common/commonUtils.ts:95-98 | keeps the current version exactly when it is lower than the candidate, else takes the candidate; never higher than the candidate |
| CommonUtils.KeepFoldLeast | src/client/pythonEnvironments/common/commonUtils.ts:95-98 | the fold is the start or a candidate, and lower than neither the start nor any candidate |
| CommonUtils.VersionEquivLess | src/client/pythonEnvironments/base/info/pythonVersion.ts:167-213 | equivalent versions are lower than the same versions |
| CommonUtils.GetPythonVersionFromPath | src/client/pythonEnvironments/common/commonUtils.ts:81-100 | the loop computes the fold over the hint, nearby-files, venv and conda candidates, with the probes empty when there is no path |
| CommonUtils.GetPythonVersionFromPathIsEmpty | src/client/pythonEnvironments/common/commonUtils.ts:81-100 | when the probes' majors are at least -1 the result has major -1 and no release |
| WorkspaceLocators.ExtensionLocatorOrder | src/client/pythonEnvironments/discovery/locators/index.ts:13-23 | the non-workspace locators in order, then the workspace locator last |
| WorkspaceLocators.MatchUri | src/client/pythonEnvironments/discovery/locators/index.ts:137-149 | true iff some candidate has the scheme and either the same path or a path starting with the descendant prefix |
| WorkspaceLocators.MatchUriCases | src/client/pythonEnvironments/discovery/locators/index.ts:137-149 | different schemes never match; equal paths match; a root ending in '/' matches its descendants; one without does not |
| WorkspaceLocators.RemoveRootRecords | src/client/pythonEnvironments/discovery/locators/index.ts:118-128 | removal keeps the locator and root maps on the same keys, each locator recording its root |
| WorkspaceLocators.RemoveRootIds | src/client/pythonEnvironments/discovery/locators/index.ts:118-128 | removal keeps locator ids unique and below the next id |
| WorkspaceLocators.RemoveRootOrder | src/client/pythonEnvironments/discovery/locators/index.ts:118-128 | removal keeps the key order exactly the registered keys, without repeats |
| WorkspaceLocators.RemoveRootValid | src/client/pythonEnvironments/discovery/locators/index.ts:118-128 | removal keeps the registry valid and the key is gone from both maps |
| WorkspaceLocators.AddRootRecords | src/client/pythonEnvironments/discovery/locators/index.ts:95-116 | adding keeps the two maps on the same keys, each locator recording its root |
| WorkspaceLocators.AddRootIds | src/client/pythonEnvironments/discovery/locators/index.ts:95-116 | adding keeps locator ids unique and below the next id |
| WorkspaceLocators.AddRootOrder | src/client/pythonEnvironments/discovery/locators/index.ts:95-116 | adding keeps the key order exactly the registered keys |
| WorkspaceLocators.AddRootValid | src/client/pythonEnvironments/discovery/locators/index.ts:95-116 | adding keeps the registry valid and registers the root with a new locator under its key |
| WorkspaceLocators.RemoveUnknownRoot | src/client/pythonEnvironments/discovery/locators/index.ts:118-123 | removing an unknown root changes nothing and fires no event |
| WorkspaceLocators.AddRootEvents | src/client/pythonEnvironments/discovery/locators/index.ts:95-108 | re-adding a known root disables the old locator and fires two events; a new root fires one; other keys keep their locators |
| WorkspaceLocators.AddThenRemove | src/client/pythonEnvironments/discovery/locators/index.ts:95-128 | adding then removing a root leaves the other keys as they were and the new locator disabled |
| WorkspaceLocators.AddRootKeys | src/client/pythonEnvironments/discovery/locators/index.ts:95-116 | adding gives the root's key a locator and keeps the other keys |
| WorkspaceLocators.ActivateValid | src/client/pythonEnvironments/discovery/locators/index.ts:55-61 | activation keeps the registry valid |
| WorkspaceLocators.ActivateKeys | src/client/pythonEnvironments/discovery/locators/index.ts:55-61 | after activation the keys are the old ones plus those of the initial roots |
| WorkspaceLocators.FirstAnswer | src/client/pythonEnvironments/discovery/locators/index.ts:86-92 | none iff no locator answers; otherwise the answer of the first locator that does |
| WorkspaceLocators.WorkspaceLocators.constructor | src/client/pythonEnvironments/discovery/locators/index.ts:95-128 | the registry starts empty and valid |
| WorkspaceLocators.WorkspaceLocators.RemoveRoot | src/client/pythonEnvironments/discovery/locators/index.ts:118-128 | the new state is the removal of the old one, and the registry stays valid |
| WorkspaceLocators.WorkspaceLocators.AddRoot | src/client/pythonEnvironments/discovery/locators/index.ts:95-116 | the new state is the addition to the old one, and the registry stays valid |
| WorkspaceLocators.WorkspaceLocators.Activate | src/client/pythonEnvironments/discovery/locators/index.ts:55-61 | the initial roots are added in turn, and the registry stays valid |
| WorkspaceLocators.WorkspaceLocators.ForwardChange | src/client/pythonEnvironments/discovery/locators/index.ts:110-115 | a locator's change event is re-fired with its search location, or its root when none is given |
| WorkspaceLocators.WorkspaceLocators.IterEnvs | src/client/pythonEnvironments/discovery/locators/index.ts:63-76 | one entry per key in order: that locator, or a no-op when a query is given and the root matches none of its locations |
| WorkspaceLocators.WorkspaceLocators.ResolveEnv | src/client/pythonEnvironments/discovery/locators/index.ts:78-93 | a known search location goes to its locator with no fallback; otherwise the first answer in key order |
| EnvironmentInfoService.BuildEnvironmentInfo | src/client/pythonEnvironments/info/environmentInfoService.ts:23-31 | information is returned iff the probe gave some with a version |
| EnvironmentInfoService.ActivateDisposeValid | src/client/pythonEnvironments/info/environmentInfoService.ts:51-67 | activation and disposal keep the service valid, act only on a transition, so repeating changes nothing, and set the active flag |
| EnvironmentInfoService.RequestValid | src/client/pythonEnvironments/info/environmentInfoService.ts:69-90 | a request keeps the service valid; a cached path changes nothing; a new path is queued once, at the front for high priority and at the back otherwise, and is not yet provided |
| EnvironmentInfoService.CompleteValid | src/client/pythonEnvironments/info/environmentInfoService.ts:83-89 | completion keeps the service valid; a defined answer is provided; an undefined one evicts the path so a later request queues it again; other paths are untouched |
| EnvironmentInfoService.RequestTwiceQueuesOnce | src/client/pythonEnvironments/info/environmentInfoService.ts:73-77 | a second request for a path queues nothing more |
| EnvironmentInfoService.EnvironmentInfoService.constructor | src/client/pythonEnvironments/info/environmentInfoService.ts:33-49 | the service starts inactive with an empty cache and queue |
| EnvironmentInfoService.EnvironmentInfoService.Activate | src/client/pythonEnvironments/info/environmentInfoService.ts:51-58 | the new state is the activation of the old one |
| EnvironmentInfoService.EnvironmentInfoService.Dispose | src/client/pythonEnvironments/info/environmentInfoService.ts:60-67 | the new state is the disposal of the old one |
| EnvironmentInfoService.EnvironmentInfoService.GetEnvironmentInfo | src/client/pythonEnvironments/info/environmentInfoService.ts:69-90 | the new state is the request's; a cached path returns its existing entry |
| EnvironmentInfoService.EnvironmentInfoService.Complete | src/client/pythonEnvironments/info/environmentInfoService.ts:78-89 | the new state is the completion's |
| EnvironmentInfoService.EnvironmentInfoService.IsInfoProvided | src/client/pythonEnvironments/info/environmentInfoService.ts:92-95 | true iff the path has an entry and it is completed |
| ResourceLifecycle.FailedIndicesExact | src/client/common/utils/resourceLifecycle.ts:14-24 | the logged indices are exactly those of the failing disposables, in ascending order |
| ResourceLifecycle.DisposeAll | src/client/common/utils/resourceLifecycle.ts:14-24 | every disposable is disposed in order; a warning for exactly each failing one, in ascending order |
| ResourceLifecycle.Disposables.Push | src/client/common/utils/resourceLifecycle.ts:32-34 | the items are appended in argument order |
| ResourceLifecycle.Disposables.Dispose | src/client/common/utils/resourceLifecycle.ts:36-40 | every held item is disposed, the list is empty afterwards, and a warning is given for exactly each failing one |
| ResourceLifecycle.TransitionsValid | src/client/common/utils/resourceLifecycle.ts:60-79 | every transition keeps the flags consistent; a full activation ends activated and idle with the resources appended; a full disposal ends inactive and idle |
| ResourceLifecycle.PendingCallsIgnored | src/client/common/utils/resourceLifecycle.ts:60-79 | while a call is pending both activate and dispose do nothing |
| ResourceLifecycle.CycleDisposesAll | src/client/common/utils/resourceLifecycle.ts:60-79 | an activate/dispose cycle disposes everything held so far and keeps it all in the list |
| ResourceLifecycle.SecondCycleRedisposes | src/client/common/utils/resourceLifecycle.ts:66-77 | after two cycles the first cycle's resources have been disposed twice |
| ResourceLifecycle.Activatable.constructor | src/client/common/utils/resourceLifecycle.ts:49-58 | starts not pending, not activated, with no disposables |
| ResourceLifecycle.Activatable.Activate | src/client/common/utils/resourceLifecycle.ts:60-69 | the first half of activation: nothing when pending or activated, else pending |
| ResourceLifecycle.Activatable.ActivationDone | src/client/common/utils/resourceLifecycle.ts:60-69 | the resources are appended and the object is activated and idle |
| ResourceLifecycle.Activatable.Dispose | src/client/common/utils/resourceLifecycle.ts:71-79 | nothing when pending or not activated; else every held resource is disposed, with a warning for exactly each failing one |
| ResourceLifecycle.Activatable.DisposalDone | src/client/common/utils/resourceLifecycle.ts:71-79 | the object is idle again |
| TestResults.Qualify | pythonFiles/testing_tools/adapter/results.py:103-119 | the qualified name is the parent's name, a dot, and then exactly the child's name |
| TestResults.MakeTest | pythonFiles/testing_tools/adapter/results.py:169-177 | a TypeError exactly when the line number is truthy and the file name falsy; otherwise a test with the given fields |
| TestResults.SuiteTestsWellNamed | pythonFiles/testing_tools/adapter/results.py:161-166 | every test of a well-named suite is qualified under the suite and has its file |
| TestResults.SuitesTestsWellNamed | pythonFiles/testing_tools/adapter/results.py:161-166 | every test of a list of well-named suites is qualified under their common prefix and file |
| TestResults.AddsKeepSuiteWellNamed | pythonFiles/testing_tools/adapter/results.py:142-159 | adding a test or a subsuite keeps a suite well named |
| TestResults.SuiteTestsOrder | pythonFiles/testing_tools/adapter/results.py:161-166 | a suite's own tests come first in the order added, then each subsuite's |
| TestResults.TestSuite.constructor | pythonFiles/testing_tools/adapter/results.py:135-140 | once the filename check has passed, the suite holds the given fields and copies of the given lists |
| TestResults.MakeSuite | pythonFiles/testing_tools/adapter/results.py:131-140 | `TypeError: missing filename` iff the line number is truthy and the file name falsy; otherwise a new valid suite with the given fields and lists |
| TestResults.TestSuite.AddTest | pythonFiles/testing_tools/adapter/results.py:142-149 | the qualified test with the suite's file is appended, or a TypeError leaves the suite unchanged; the suite's tests become the old own tests, the new one, then the subsuites' |
| TestResults.TestSuite.AddSubsuite | pythonFiles/testing_tools/adapter/results.py:151-159 | a TypeError exactly when the line is truthy and the file falsy; otherwise an empty qualified subsuite with the suite's file is appended |
| TestResults.TestSuite.AllTests | pythonFiles/testing_tools/adapter/results.py:161-166 | the suite's tests in order: own tests, then subsuites' depth first |
| TestResults.TestSuite.Refresh | pythonFiles/tests/testing_tools/adapter/test_results.py:278-285 | ghost step with no Python counterpart: after a subsuite grew through its handle, the suite is valid again over the grown footprint, with its fields and its subsuites' values unchanged |
| TestResults.FileTestsWellNamed | pythonFiles/testing_tools/adapter/results.py:121-126 | every test of a well-named file is qualified under the file and has its file name |
| TestResults.TestFile.constructor | pythonFiles/testing_tools/adapter/results.py:97-101 | the file holds the given fields and copies of the given lists |
| TestResults.TestFile.AddSuite | pythonFiles/testing_tools/adapter/results.py:103-110 | a TypeError exactly when the line is truthy and the file name falsy; otherwise an empty qualified suite with the file's name is appended |
| TestResults.TestFile.AddTest | pythonFiles/testing_tools/adapter/results.py:112-119 | the qualified test with the file's name is appended, or a TypeError leaves the file unchanged |
| TestResults.TestFile.AllTests | pythonFiles/testing_tools/adapter/results.py:121-126 | the file's own tests, then its suites' |
| TestResults.TestFile.Refresh | pythonFiles/tests/testing_tools/adapter/test_results.py:188-197 | ghost step with no Python counterpart: after a suite grew through its handle, the file is valid again over the grown footprint, with its fields and its suites' values unchanged |
| TestResults.FilesTestsWellNamed | pythonFiles/testing_tools/adapter/results.py:85-92 | every test of well-named files under a prefix is qualified under it |
| TestResults.FolderTestsWellNamed | pythonFiles/testing_tools/adapter/results.py:85-92 | every test of a well-named folder is qualified under the folder |
| TestResults.FoldersTestsWellNamed | pythonFiles/testing_tools/adapter/results.py:85-92 | every test of well-named folders under a prefix is qualified under it |
| TestResults.FileFor | pythonFiles/testing_tools/adapter/results.py:67-75 | NotImplementedError exactly for names not ending in '.py'; otherwise an empty file qualified by the stem |
| TestResults.AddsKeepFolderWellNamed | pythonFiles/testing_tools/adapter/results.py:67-83 | adding a file or a subfolder keeps a folder well named |
| TestResults.FolderNames | pythonFiles/testing_tools/adapter/results.py:52-59 | the qualified name has no separator |
| TestResults.FolderNamesRules | pythonFiles/testing_tools/adapter/results.py:52-59 | an absolute directory is kept and named by the text after its last '/'; a relative one becomes `abspath` without trailing '/', named by its '/'-separated components (after stripping '/') joined with '.' |
| TestResults.FolderNamesAbsolute | pythonFiles/tests/testing_tools/adapter/test_results.py:43-53 | /x/y/z is kept and named z |
| TestResults.FolderNamesRelative | pythonFiles/tests/testing_tools/adapter/test_results.py:43-53 | x/y/z is made absolute and named x.y.z |
| TestResults.TestFolder.constructor | pythonFiles/testing_tools/adapter/results.py:61-65 | a valid folder holding the given names and copies of the given file and subfolder lists, made of itself and their objects |
| TestResults.TestFolder.AdoptSubfolders | pythonFiles/testing_tools/adapter/results.py:61-65 | the given folders become the subfolders; the folder stays valid, its footprint grows by theirs, and its names and files are unchanged |
| TestResults.TestFolder.FromDirname | pythonFiles/testing_tools/adapter/results.py:52-59 | an empty folder named as `from_dirname` names it |
| TestResults.TestFolder.AddFile | pythonFiles/testing_tools/adapter/results.py:67-75 | the error exactly for a non-Python name, leaving the folder unchanged; otherwise the new file is appended and earlier files are unchanged |
| TestResults.TestFolder.AddSubfolder | pythonFiles/testing_tools/adapter/results.py:77-83 | an empty folder with the joined directory and dotted name is appended |
| TestResults.TestFolder.AllTests | pythonFiles/testing_tools/adapter/results.py:85-92 | the folder's files' tests, then its subfolders' |
| TestResults.TestFolder.FileListTests | pythonFiles/testing_tools/adapter/results.py:88-89 | the tests of the files in order |
| TestResults.TestFolder.SubfoldersTests | pythonFiles/testing_tools/adapter/results.py:90-91 | the tests of the subfolders in order |
| TestResults.TestFolder.Refresh | pythonFiles/tests/testing_tools/adapter/test_results.py:102-117 | ghost step with no Python counterpart: after a file or subfolder grew through its handle, the folder is valid again over the grown footprint, with its fields and its children's values unchanged |
| TestResultsExamples.SuiteAllTestsExample | pythonFiles/tests/testing_tools/adapter/test_results.py:278-293 | replaying the suite test, `all_tests` gives test1, test4, test2, test3 |
| TestResultsExamples.FileAllTestsExample | pythonFiles/tests/testing_tools/adapter/test_results.py:188-206 | replaying the file test, `all_tests` gives test1, test5, test2, test3, test4 |
| TestResultsExamples.FolderAllTestsExample | pythonFiles/tests/testing_tools/adapter/test_results.py:102-125 | replaying the folder test, `all_tests` gives test1, test5, test2, test3, test4, test6 |
| OutputFormat.Lookup | pythonFiles/testing_tools/adapter/output_format.py:179-196 | a key is found exactly when the value is an object holding it, and the value is its field |
| OutputFormat.LastComponent | pythonFiles/testing_tools/adapter/output_format.py:181 | the text after the last dot: a dot-free suffix of the name, preceded by a dot when the name has one, the whole name otherwise |
| OutputFormat.SerializeDiscoveredTest | pythonFiles/testing_tools/adapter/output_format.py:179-196 | 'name' is the last qualname component, 'time' the timestamp; 'file' present iff the file name is truthy, 'line' iff the line number is truthy; no other keys |
| OutputFormat.SerializedNameOfAddedTest | pythonFiles/testing_tools/adapter/output_format.py:181 | a test added under a dot-free name is serialised under that name |
| OutputFormat.SuiteEntry | pythonFiles/testing_tools/adapter/output_format.py:138-144 | a missing 'name' raises; otherwise the record holds the suite data, the file data, and 'xmlClassName' equal to the suite's name |
| OutputFormat.TestEntry | pythonFiles/testing_tools/adapter/output_format.py:146-152 | the record holds the test data and the file data, and neither the suite nor an xml class name |
| OutputFormat.Collect | pythonFiles/testing_tools/adapter/output_format.py:132-152 | a KeyError exactly for a suite without 'name'; otherwise exactly one record is appended, to the callback's own list, every old list is a prefix of its new one, and the new record holds the callback's data |
| OutputFormat.DiscoveredData | pythonFiles/testing_tools/adapter/output_format.py:156-163 | an empty summary, the four collected lists under their keys, and the root as the one root folder |
| OutputFormat.CollectAllFails | pythonFiles/testing_tools/adapter/output_format.py:132-155 | collecting fails exactly when some suite callback has no 'name' |
| OutputFormat.CollectAllLists | pythonFiles/testing_tools/adapter/output_format.py:132-151 | folder, file, suite and test records are each appended to their own list in callback order |
| OutputFormat.CollectAllSuitesNamed | pythonFiles/testing_tools/adapter/output_format.py:138-144 | every suite record's 'xmlClassName' stays its suite's name |
| OutputFormat.Collector.Dispatch | pythonFiles/testing_tools/adapter/output_format.py:132-152 | the lists become the callback's effect on the old ones, or stay unchanged when the callback raises |
| OutputFormat.SerializeDiscovered | pythonFiles/testing_tools/adapter/output_format.py:121-164 | fails iff collecting fails; otherwise the dictionary of the collected lists and the root |
| OutputFormat.DiscoveredDataShape | pythonFiles/testing_tools/adapter/output_format.py:121-164 | when every suite is named, the folders, files, suites and tests appear in callback order and the root list is just the root |

## Left out

- File-system access (`listDir`, `isDirectory`, file times, the conda and virtual-environment version probes) is I/O. The directory tree is an in-memory value, and the probes' answers are parameters.
- The interleaving of `chain(...)` over concurrent generators is not modelled. `findInterpretersInDir`'s results are a set.
- Promises and `await` are not modelled as concurrency. Each awaited call is a request method and a completion method, and calls arriving between the two are stated through the pending flag.
- The worker pool of the environment-information service and the interpreter probe it runs are not part of this model. The probe's answer is a parameter of `Complete`.
- When `addToQueue` rejects (`environmentInfoService.ts:78-90`), the path stays cached with a deferred that is never resolved, so `isInfoProvided` stays false for it for good. The model has no rejection: every request is completed with an answer or `undefined`.
- `EMPTY_VERSION`, `compareBasicVersions`, `parseBasicVersionInfo`, `isVersionInfoEmpty`, `normalizeVersionInfo`, `validateVersionInfo`, `mergeVersions` (of `common/utils/version`), `getShortVersionString`, `normalizeVersion`, `copyVersion`, `validateVersion`, `parseExeVersion`, `copyExecutable` (imported at `envBase.ts:4`), `mergeExecutables`, `normalizeExecutable`, `validateExecutable`, `getEnvExecutable` (imported at `env.ts:20`), `arePathsSame`, `getArchitectureDisplayName` and the `path` functions are imported but their source is not part of this model. Each has a small definition with the behaviour its callers and tests rely on:
  - `EMPTY_VERSION` has major, minor and micro -1 and no `release` object; this is an assumption, in line with `env.ts:63`, which calls the empty environment's version "effectively" `EMPTY_VERSION`;
  - comparison is lexicographic on (major, minor, micro) and positive when the left side is lower;
  - the basic parser reads leading dotted numbers and gives a final release, serial 0;
  - an executable's version is the text after 'python' in its base name, without a '.exe' suffix;
  - paths are POSIX paths compared as plain strings, with no normalisation. `Join` returns its second argument when that is absolute, and `Basename` gives '' for a path ending in '/'. Both follow Python's `os.path`; Node's `path.join` would concatenate and `path.basename` would drop the trailing '/'. On the TypeScript side (`getPythonVersionFromPath`, `getEnvironmentDirFromPath`, the interpreter search) the model therefore differs from Node only for an executable or directory path that ends in '/' or for an absolute name joined onto a directory;
  - x64 displays as '64-bit' and x86 as '32-bit';
  - `normalizeVersionInfo` is the identity (`BasicVersion.NormalizeVersionInfo`);
  - `validateVersionInfo` fails exactly when major, minor or micro is below -1 (`BasicVersion.ValidateVersionInfo`);
  - `mergeVersions` of `common/utils/version` keeps the first version unless the basic comparison puts it lower, and then takes the second (`BasicVersion.MergeVersionInfos`);
  - `copyExecutable` returns an equal copy (`Executable.CopyExecutable`);
  - `getEnvExecutable` gives a path query's path, a record's executable file name, and '' when the record has none (`Env.GetEnvExecutable`).
- `Uri.toString` is modelled as `scheme://authority/path`, without percent-encoding.
- `cloneDeep` and spread copies are value copies of Dafny datatypes, so copies are equal to their inputs and no input is changed. `getEmptyVersion`'s spread copy would share any nested object of `EMPTY_VERSION`; the assumed constant has none, and values cannot alias.
- PythonVersion.ParseVersionInfo: a part that `parseInt` cannot read ("x" in "x.y") is `NaN` in the code; the model reads it as -1, the unset value. The comparison, similarity and emptiness tests then treat that field as unset, where `NaN` compares false with everything. Leading white space before a number is skipped, as `parseInt` does.
- EnvKind.GetKind: a name with no table entry gives undefined. In JavaScript, `kindsByName[name]` (`envKind.ts:6-20`, `envKind.ts:46`) also finds the keys every object literal inherits, so 'toString', 'constructor', 'hasOwnProperty' and '__proto__' give a function or `Object.prototype` rather than undefined. The model's table has only its thirteen own keys.
- Env.SortByPriority: the sort is a selection sort, so the stability of `Array.prototype.sort` is not modelled. Only the order by priority and the permutation are stated.
- PythonVersion.ParseShortVersionString: the round trip is proved for renderable versions only: non-negative major, minor and micro, a release with a non-negative serial (0 for a final release), and no sys-version. This covers the strings of `pythonVersion.unit.test.ts:37-57`, not every record.
- PythonVersion.AreSimilarVersions: the 2.x special case is characterised only where the left minor is unset and the right one set, by `AreSimilarVersionsTwoUnsetMinor`.
- CommonUtils.FindInterpretersInDir: the contract states soundness, the top-level case, and which directories are descended into (`FindInterpretersDescends`, `FindInterpretersTopFile`), not the exact result set.
- Python's `Compares.__eq__` compares all instance attributes; here two nodes are equal when their `Value()` records are equal, which is Dafny's structural equality.
- `HasRepr.__repr__` relies on reflection, and `DiscoveryResults`' default timestamp reads the clock. Both are left out.
- `json.dumps` and the stub bodies of `serialize_discovered_folder`, `serialize_discovered_file` and `serialize_discovered_suite` are left out. The JSON value is a datatype, and the tree walk is the sequence of callbacks it makes.
- Host plumbing is left out: extension activation, service registration, VS Code events, progress UI, telemetry, the argument-parsing entry points and the low-level files and known-paths locators.

## Behaviour kept as written

These follow the code, not the documentation or the tests:

- `compareVersions` is documented as returning -1 when the left side is lower. Every use in the code treats a positive result as "left is lower", and the model follows that convention.
  - Consequence: the folds in `getPythonVersionFromNearByFiles` and `getPythonVersionFromPath` keep the lowest version, not the highest.
  - Consequence: the nearby-files fold from the empty version always stays empty (`NearByFoldFromEmpty`), and `getPythonVersionFromPath` returns an empty-ordered version (`GetPythonVersionFromPathIsEmpty`).
- `getKindDisplayName(Unknown)` is '???'. A record with nothing set therefore displays as "Python (???)", where a test expects "Python" (`BuildEnvDisplayNameEmpty`).
- `matchURI` builds the literal text `{uri.path}/` rather than interpolating the path. A root without a trailing '/' therefore matches no descendants (`MatchUriCases`).
- `normalizeDistro` compares the version with a fresh `{}`, which never holds, so that check is dead.
- `Activatable` never empties its list of disposables, so a later disposal disposes earlier resources again (`SecondCycleRedisposes`).
- In `areSimilarVersions` the 2.x recomputation can yield an equal comparison with no property name, which makes 2.-1.5 and 2.7.5 not similar (`AreSimilarVersionsTwoUnsetMinorExample`).
- The directory filter of `getInterpreterPathFromDir` sees full paths, so a search from `/env` does not look inside `/env/bin` (`InterpreterSearchSkipsBinDir`).
- `parseVersionInfo` starts from a copy of `EMPTY_VERSION`. Under the assumed shape of that constant (no `release` object, see "## Left out"), its level and serial branches never apply and its result never carries a release (`ParseVersionInfo`). Its doc comment says "3.9.0.final.0" and "3.9.0.alpha.1" parse; `WithLevelPart` and `WithSerialPart` state what would be stored were a release present.
