/** The environment kinds of `base/info/envKind.ts`: the name table and its two
    lookups, the user-facing display names and the identification priority. */
module EnvKind {
  import opened Wrappers

  /** `PythonEnvKind`. */
  datatype Kind =
    | Unknown | System | MacDefault | WindowsStore | Pyenv | CondaBase | Poetry | Custom
    | OtherGlobal | Venv | VirtualEnv | VirtualEnvWrapper | Pipenv | Conda | OtherVirtual

  /** `kindsByName`, in declaration order (the order `Object.keys` yields).
      Poetry and VirtualEnvWrapper have no entry. */
  const KindsByName: seq<(string, Kind)> := [
    ("unknown", Unknown),
    ("system", System),
    ("macDefault", MacDefault),
    ("winStore", WindowsStore),
    ("pyenv", Pyenv),
    ("condaBase", CondaBase),
    ("customGlobal", Custom),
    ("otherGlobal", OtherGlobal),
    ("venv", Venv),
    ("virtualenv", VirtualEnv),
    ("pipenv", Pipenv),
    ("conda", Conda),
    ("otherVirtual", OtherVirtual)
  ]

  /** The key of the first entry holding `kind`. */
  function FirstKeyOf<K, V(==)>(table: seq<(K, V)>, v: V): (r: Option<K>)
    ensures r.Some? ==> (r.value, v) in table
    ensures r.None? <==> forall i :: 0 <= i < |table| ==> table[i].1 != v
  {
    if table == [] then None
    else if table[0].1 == v then Some(table[0].0)
    else FirstKeyOf(table[1..], v)
  }

  /** The value of the first entry under `key`. */
  function FirstValueOf<K(==), V>(table: seq<(K, V)>, key: K): (r: Option<V>)
    ensures r.Some? ==> (key, r.value) in table
    ensures r.None? <==> forall i :: 0 <= i < |table| ==> table[i].0 != key
  {
    if table == [] then None
    else if table[0].0 == key then Some(table[0].1)
    else FirstValueOf(table[1..], key)
  }

  predicate KeysDistinct<K(==), V>(table: seq<(K, V)>) {
    forall i, j :: 0 <= i < j < |table| ==> table[i].0 != table[j].0
  }

  /** In a table with distinct keys, looking up the key of an entry finds
      that entry's value. */
  lemma {:induction false} FirstValueOfMember<K, V>(table: seq<(K, V)>, key: K, v: V)
    requires KeysDistinct(table)
    requires (key, v) in table
    ensures FirstValueOf(table, key) == Some(v)
  {
    if table[0] != (key, v) {
      assert table[0].0 != key by {
        var j :| 0 <= j < |table| && table[j] == (key, v);
        assert j != 0;
      }
      assert (key, v) in table[1..];
      FirstValueOfMember(table[1..], key, v);
    }
  }

  /** The lookup finds the first entry under the key. */
  lemma {:induction false} FirstValueOfAt<K, V>(table: seq<(K, V)>, key: K, i: nat)
    requires i < |table| && table[i].0 == key
    requires forall j :: 0 <= j < i ==> table[j].0 != key
    ensures FirstValueOf(table, key) == Some(table[i].1)
  {
    if i > 0 {
      FirstValueOfAt(table[1..], key, i - 1);
    }
  }

  lemma KindsByNameKeysDistinct()
    ensures KeysDistinct(KindsByName)
  {
  }

  /** `getKindName`: '' for Unknown and for the kinds without an entry,
      otherwise the name of the first entry holding the kind. */
  function GetKindName(kind: Kind): (r: string)
    ensures kind == Unknown ==> r == ""
    ensures r != "" ==> (r, kind) in KindsByName
    ensures r == "" <==> kind == Unknown || forall i :: 0 <= i < |KindsByName| ==> KindsByName[i].1 != kind
  {
    if kind == Unknown then ""
    else FirstKeyOf(KindsByName, kind).GetOr("")
  }

  /** Only the first entry of the name table holds Unknown. */
  lemma UnknownOnlyFirst(name: string)
    requires (name, Unknown) in KindsByName
    ensures name == "unknown"
  {
    var i :| 0 <= i < |KindsByName| && KindsByName[i] == (name, Unknown);
    assert i == 0;
  }

  /** `getKind`: no kind for 'unknown' or for a name without an entry. */
  function GetKind(name: string): (r: Option<Kind>)
    ensures name == "unknown" ==> r == None
    ensures r.Some? ==> (name, r.value) in KindsByName && r.value != Unknown
    ensures r.None? <==> name == "unknown" || forall i :: 0 <= i < |KindsByName| ==> KindsByName[i].0 != name
  {
    if name == "unknown" then None
    else
      var r := FirstValueOf(KindsByName, name);
      if r.Some? && r.value == Unknown then
        UnknownOnlyFirst(name);
        assert false;
        r
      else r
  }

  /** Every kind with a name is found again under that name. */
  lemma GetKindOfGetKindName(kind: Kind)
    requires GetKindName(kind) != ""
    ensures GetKind(GetKindName(kind)) == Some(kind)
  {
    KindsByNameKeysDistinct();
    FirstValueOfMember(KindsByName, GetKindName(kind), kind);
  }

  /** Poetry and VirtualEnvWrapper have no name. */
  lemma KindsWithoutName()
    ensures GetKindName(Poetry) == "" && GetKindName(VirtualEnvWrapper) == ""
  {
    assert forall i :: 0 <= i < |KindsByName| ==> KindsByName[i].1 != Poetry && KindsByName[i].1 != VirtualEnvWrapper;
  }

  /** The display names of `getKindDisplayName`, in its order. */
  const KindDisplayNames: seq<(Kind, string)> := [
    (Unknown, "???"),
    (System, "system"),
    (MacDefault, "mac default"),
    (WindowsStore, "windows store"),
    (Pyenv, "pyenv"),
    (CondaBase, "conda"),
    (Poetry, "poetry"),
    (Custom, "custom"),
    (OtherGlobal, "???"),
    (Venv, "venv"),
    (VirtualEnv, "virtualenv"),
    (VirtualEnvWrapper, "virtualenv"),
    (Pipenv, "pipenv"),
    (Conda, "conda"),
    (OtherVirtual, "???")
  ]

  /** `getKindDisplayName`: the display name of the first entry for the kind,
      '' when there is none. */
  function GetKindDisplayName(kind: Kind): (r: string)
    ensures r != "" ==> (kind, r) in KindDisplayNames
    ensures r == "" <==> forall i :: 0 <= i < |KindDisplayNames| ==> KindDisplayNames[i].0 != kind
  {
    FirstValueOf(KindDisplayNames, kind).GetOr("")
  }

  /** Position of each kind's entry in the display-name table. */
  function DisplayEntry(k: Kind): (i: nat)
    ensures i < |KindDisplayNames| && KindDisplayNames[i].0 == k
    ensures forall j :: 0 <= j < i ==> KindDisplayNames[j].0 != k
  {
    match k
    case Unknown => 0 case System => 1 case MacDefault => 2 case WindowsStore => 3
    case Pyenv => 4 case CondaBase => 5 case Poetry => 6 case Custom => 7
    case OtherGlobal => 8 case Venv => 9 case VirtualEnv => 10 case VirtualEnvWrapper => 11
    case Pipenv => 12 case Conda => 13 case OtherVirtual => 14
  }

  /** Each kind's display name is the one its entry gives. */
  lemma {:induction false} DisplayNameOfEntry(k: Kind)
    ensures GetKindDisplayName(k) == KindDisplayNames[DisplayEntry(k)].1
  {
    FirstValueOfAt(KindDisplayNames, k, DisplayEntry(k));
  }

  /** Every kind has a display name. */
  lemma EveryKindHasDisplayName()
    ensures forall k: Kind :: GetKindDisplayName(k) != ""
  {
    forall k: Kind
      ensures GetKindDisplayName(k) != ""
    {
      assert KindDisplayNames[DisplayEntry(k)].0 == k;
    }
  }

  /** The unknown kind and both "other" kinds display as "???". */
  lemma UnknownKindsDisplayName()
    ensures GetKindDisplayName(Unknown) == "???"
    ensures GetKindDisplayName(OtherGlobal) == "???"
    ensures GetKindDisplayName(OtherVirtual) == "???"
  {
    DisplayNameOfEntry(Unknown);
    DisplayNameOfEntry(OtherGlobal);
    DisplayNameOfEntry(OtherVirtual);
  }

  /** Conda environments, base or not, display as "conda". */
  lemma CondaKindsDisplayName()
    ensures GetKindDisplayName(Conda) == "conda" && GetKindDisplayName(CondaBase) == "conda"
  {
    DisplayNameOfEntry(Conda);
    DisplayNameOfEntry(CondaBase);
  }

  /** virtualenv environments, wrapped or not, display as "virtualenv". */
  lemma VirtualEnvKindsDisplayName()
    ensures GetKindDisplayName(VirtualEnv) == "virtualenv"
    ensures GetKindDisplayName(VirtualEnvWrapper) == "virtualenv"
  {
    DisplayNameOfEntry(VirtualEnv);
    DisplayNameOfEntry(VirtualEnvWrapper);
  }

  /** `getPrioritizedEnvKinds`. */
  const PrioritizedEnvKinds: seq<Kind> := [
    CondaBase, Conda, WindowsStore, Pipenv, Pyenv, Poetry, Venv, VirtualEnvWrapper,
    VirtualEnv, OtherVirtual, OtherGlobal, MacDefault, System, Custom, Unknown
  ]

  /** The priority list names every kind exactly once, conda base first and
      unknown last. */
  lemma PrioritizedEnvKindsComplete()
    ensures |PrioritizedEnvKinds| == 15
    ensures forall k: Kind :: k in PrioritizedEnvKinds
    ensures forall i, j :: 0 <= i < j < |PrioritizedEnvKinds| ==> PrioritizedEnvKinds[i] != PrioritizedEnvKinds[j]
    ensures PrioritizedEnvKinds[0] == CondaBase && PrioritizedEnvKinds[14] == Unknown
  {
    forall k: Kind
      ensures k in PrioritizedEnvKinds
    {
      var i := match k
        case CondaBase => 0 case Conda => 1 case WindowsStore => 2 case Pipenv => 3
        case Pyenv => 4 case Poetry => 5 case Venv => 6 case VirtualEnvWrapper => 7
        case VirtualEnv => 8 case OtherVirtual => 9 case OtherGlobal => 10 case MacDefault => 11
        case System => 12 case Custom => 13 case Unknown => 14;
      assert PrioritizedEnvKinds[i] == k;
    }
  }

  /** The position of a kind in a list of kinds. */
  function IndexOfKind(kinds: seq<Kind>, kind: Kind): (i: nat)
    requires kind in kinds
    ensures i < |kinds| && kinds[i] == kind && kind !in kinds[..i]
  {
    if kinds[0] == kind then 0
    else
      var i := 1 + IndexOfKind(kinds[1..], kind);
      assert kinds[..i] == [kinds[0]] + kinds[1..][..i - 1];
      i
  }

  /** `getPrioritizedEnvKinds().indexOf(kind)`: the lower, the more preferred. */
  function PriorityIndex(kind: Kind): (i: nat)
    ensures i < |PrioritizedEnvKinds| && PrioritizedEnvKinds[i] == kind
  {
    PrioritizedEnvKindsComplete();
    IndexOfKind(PrioritizedEnvKinds, kind)
  }
}
