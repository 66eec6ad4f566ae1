/** The locators of `pythonEnvironments/discovery/locators/index.ts`: the
    per-workspace-root registry `WorkspaceLocators`, its URI matcher and the
    order `ExtensionLocators` gives its locators. A root's locator is opaque:
    the model keeps its identity, the root it was made for and whether it has
    been disabled. */
module WorkspaceLocators {
  import opened Wrappers
  import opened Text
  import opened Uri
  import opened Env

  /** `ExtensionLocators`: the non-workspace locators, then the workspace
      locator. */
  function ExtensionLocatorOrder<L>(nonWorkspace: seq<L>, workspace: L): (r: seq<L>)
    ensures |r| == |nonWorkspace| + 1 && r[|nonWorkspace|] == workspace
    ensures forall i :: 0 <= i < |nonWorkspace| ==> r[i] == nonWorkspace[i]
  {
    nonWorkspace + [workspace]
  }

  /** The prefix a descendant's path must start with. The source writes the
      template without its `$`, so a root path without a trailing '/' yields
      the literal text `{uri.path}/`. */
  function DescendantPrefix(uri: Uri): string {
    if EndsWith(uri.path, "/") then uri.path else "{uri.path}/"
  }

  /** One candidate matches: same scheme, and the same path or a path below
      the root by `DescendantPrefix`. */
  predicate MatchesCandidate(uri: Uri, candidate: Uri) {
    candidate.scheme == uri.scheme
    && (candidate.path == uri.path || StartsWith(candidate.path, DescendantPrefix(uri)))
  }

  predicate MatchesAny(uri: Uri, candidates: seq<Uri>) {
    exists i :: 0 <= i < |candidates| && MatchesCandidate(uri, candidates[i])
  }

  /** `matchURI(uri, ...candidates)`. */
  method MatchUri(uri: Uri, candidates: seq<Uri>) returns (r: bool)
    ensures r <==> MatchesAny(uri, candidates)
  {
    var uriPath := if EndsWith(uri.path, "/") then uri.path else "{uri.path}/";
    var k := 0;
    while k < |candidates|
      invariant 0 <= k <= |candidates|
      invariant forall j :: 0 <= j < k ==> !MatchesCandidate(uri, candidates[j])
    {
      var candidate := candidates[k];
      if candidate.scheme == uri.scheme {
        if candidate.path == uri.path {
          return true;
        } else if StartsWith(candidate.path, uriPath) {
          return true;
        }
      }
      k := k + 1;
    }
    return false;
  }

  /** A different scheme never matches and the same path always does; a
      descendant matches a root ending in '/', but not the same root written
      without it. */
  lemma MatchUriCases(scheme: string, authority: string)
    ensures !MatchesCandidate(Uri("file", authority, "/ws"), Uri("vscode", authority, "/ws"))
    ensures MatchesCandidate(Uri(scheme, authority, "/ws"), Uri(scheme, authority, "/ws"))
    ensures MatchesCandidate(Uri(scheme, authority, "/ws/"), Uri(scheme, authority, "/ws/sub"))
    ensures !MatchesCandidate(Uri(scheme, authority, "/ws"), Uri(scheme, authority, "/ws/sub"))
  {
    assert "/ws/sub"[..4] == "/ws/";
    assert !StartsWith("/ws/sub", "{uri.path}/") by {
      assert "/ws/sub"[0] != "{uri.path}/"[0];
    }
  }

  /** A root's locator: its identity and the root it was made for. */
  datatype RootLocator = RootLocator(id: nat, root: Uri)

  /** The registry's state: the two records keyed by the root's string form,
      the order of their keys, the locators disabled so far, the events fired
      (each carrying its search location) and the next locator identity. */
  datatype Registry = Registry(
    locators: map<string, RootLocator>,
    roots: map<string, Uri>,
    keyOrder: seq<string>,
    disabled: set<nat>,
    events: seq<Uri>,
    nextId: nat)

  /** The two records have the same keys; every root is stored under its
      string form, and every live locator was made for its root. */
  predicate RecordsAgree(g: Registry) {
    && g.locators.Keys == g.roots.Keys
    && (forall k :: k in g.roots ==> UriToString(g.roots[k]) == k)
    && (forall k :: k in g.locators ==> g.locators[k].root == g.roots[k])
  }

  /** Every live locator has an identity of its own and is not disabled;
      identities are fresh. */
  predicate IdsFresh(g: Registry) {
    && (forall k :: k in g.locators ==> g.locators[k].id < g.nextId && g.locators[k].id !in g.disabled)
    && (forall k1, k2 :: k1 in g.locators && k2 in g.locators && k1 != k2 ==> g.locators[k1].id != g.locators[k2].id)
    && (forall id :: id in g.disabled ==> id < g.nextId)
  }

  /** The key order lists the records' keys once each. */
  predicate KeyOrderExact(g: Registry) {
    && NoDuplicates(g.keyOrder)
    && (forall k :: k in g.keyOrder ==> k in g.locators)
    && (forall k :: k in g.locators ==> k in g.keyOrder)
  }

  predicate RegistryValid(g: Registry) {
    RecordsAgree(g) && IdsFresh(g) && KeyOrderExact(g)
  }

  /** `removeRoot`: nothing for an unknown root; otherwise the key leaves both
      records, its locator is disabled and one event is fired. */
  function RemoveRootSpec(g: Registry, root: Uri): Registry {
    var key := UriToString(root);
    if key !in g.locators then g
    else g.(
      locators := g.locators - {key},
      roots := g.roots - {key},
      keyOrder := Without(g.keyOrder, key),
      disabled := g.disabled + {g.locators[key].id},
      events := g.events + [root])
  }

  /** `addRoot`: the old locator for the key is removed, a new one is made and
      stored under the key, and one more event is fired. */
  function AddRootSpec(g: Registry, root: Uri): Registry {
    var key := UriToString(root);
    var h := RemoveRootSpec(g, root);
    h.(
      locators := h.locators[key := RootLocator(h.nextId, root)],
      roots := h.roots[key := root],
      keyOrder := h.keyOrder + [key],
      events := h.events + [root],
      nextId := h.nextId + 1)
  }

  lemma RemoveRootRecords(g: Registry, root: Uri)
    requires RecordsAgree(g)
    ensures RecordsAgree(RemoveRootSpec(g, root))
  {
    var key := UriToString(root);
    if key in g.locators {
      var h := RemoveRootSpec(g, root);
      assert h.locators.Keys == g.locators.Keys - {key};
      assert h.roots.Keys == g.roots.Keys - {key};
    }
  }

  lemma RemoveRootIds(g: Registry, root: Uri)
    requires IdsFresh(g)
    ensures IdsFresh(RemoveRootSpec(g, root))
  {
    var key := UriToString(root);
    if key in g.locators {
      var h := RemoveRootSpec(g, root);
      assert forall k :: k in h.locators ==> k in g.locators && k != key && h.locators[k] == g.locators[k];
    }
  }

  lemma RemoveRootOrder(g: Registry, root: Uri)
    requires KeyOrderExact(g)
    ensures KeyOrderExact(RemoveRootSpec(g, root))
  {
    var key := UriToString(root);
    if key in g.locators {
      var h := RemoveRootSpec(g, root);
      assert forall k :: k in h.keyOrder ==> k in g.keyOrder && k != key;
    }
  }

  /** Removing a root keeps the registry valid, and afterwards its key is in
      neither record. */
  lemma RemoveRootValid(g: Registry, root: Uri)
    requires RegistryValid(g)
    ensures RegistryValid(RemoveRootSpec(g, root))
    ensures UriToString(root) !in RemoveRootSpec(g, root).locators
    ensures UriToString(root) !in RemoveRootSpec(g, root).roots
  {
    RemoveRootRecords(g, root);
    RemoveRootIds(g, root);
    RemoveRootOrder(g, root);
  }

  lemma AddRootRecords(g: Registry, root: Uri)
    requires RecordsAgree(RemoveRootSpec(g, root))
    ensures RecordsAgree(AddRootSpec(g, root))
  {
  }

  lemma AddRootIds(g: Registry, root: Uri)
    requires IdsFresh(RemoveRootSpec(g, root))
    requires UriToString(root) !in RemoveRootSpec(g, root).locators
    ensures IdsFresh(AddRootSpec(g, root))
  {
  }

  lemma AddRootOrder(g: Registry, root: Uri)
    requires KeyOrderExact(RemoveRootSpec(g, root))
    requires UriToString(root) !in RemoveRootSpec(g, root).locators
    ensures KeyOrderExact(AddRootSpec(g, root))
  {
    var key := UriToString(root);
    var h0 := RemoveRootSpec(g, root);
    var h := AddRootSpec(g, root);
    assert key !in h0.keyOrder;
    assert h.keyOrder == h0.keyOrder + [key];
    assert NoDuplicates(h.keyOrder);
  }

  /** Adding a root keeps the registry valid and stores a fresh, enabled
      locator for it under its key. */
  lemma AddRootValid(g: Registry, root: Uri)
    requires RegistryValid(g)
    ensures RegistryValid(AddRootSpec(g, root))
    ensures UriToString(root) in AddRootSpec(g, root).locators
    ensures AddRootSpec(g, root).roots[UriToString(root)] == root
    ensures AddRootSpec(g, root).locators[UriToString(root)] == RootLocator(g.nextId, root)
  {
    RemoveRootValid(g, root);
    AddRootRecords(g, root);
    AddRootIds(g, root);
    AddRootOrder(g, root);
  }

  /** Removing an unknown root changes nothing and fires no event. */
  lemma RemoveUnknownRoot(g: Registry, root: Uri)
    requires UriToString(root) !in g.locators
    ensures RemoveRootSpec(g, root) == g
  {
  }

  /** Adding a root that is already present disables its old locator and
      fires two events for it, the removal and the addition; adding a new
      root fires one. Other keys keep their locators. */
  lemma AddRootEvents(g: Registry, root: Uri)
    requires RegistryValid(g)
    ensures var key := UriToString(root); var h := AddRootSpec(g, root);
      && (key in g.locators ==> h.events == g.events + [root, root] && g.locators[key].id in h.disabled)
      && (key !in g.locators ==> h.events == g.events + [root] && h.disabled == g.disabled)
      && (forall k :: k in g.locators && k != key ==> k in h.locators && h.locators[k] == g.locators[k])
  {
  }

  /** Removing a root after adding it leaves the other keys as they were and
      disables the locator the addition made. */
  lemma AddThenRemove(g: Registry, root: Uri)
    ensures var h := RemoveRootSpec(AddRootSpec(g, root), root);
      && h.locators == g.locators - {UriToString(root)}
      && h.roots == g.roots - {UriToString(root)}
      && g.nextId in h.disabled
  {
    var key := UriToString(root);
    var h1 := AddRootSpec(g, root);
    var h := RemoveRootSpec(h1, root);
    assert h.locators == h1.locators - {key};
    assert h.locators == g.locators - {key} by {
      assert h.locators.Keys == g.locators.Keys - {key};
      forall k | k in h.locators ensures h.locators[k] == g.locators[k] {
        assert h1.locators[k] == g.locators[k];
      }
    }
    assert h.roots == g.roots - {key} by {
      assert h.roots.Keys == g.roots.Keys - {key};
      forall k | k in h.roots ensures h.roots[k] == g.roots[k] {
        assert h1.roots[k] == g.roots[k];
      }
    }
  }

  /** Adding a root gives its key a locator and keeps every other key's. */
  lemma AddRootKeys(g: Registry, root: Uri)
    ensures AddRootSpec(g, root).locators.Keys == g.locators.Keys + {UriToString(root)}
  {
  }

  /** `activate`'s effect: the initial roots added in turn. */
  function ActivateSpec(g: Registry, initialRoots: seq<Uri>): Registry
    decreases |initialRoots|
  {
    if initialRoots == [] then g
    else ActivateSpec(AddRootSpec(g, initialRoots[0]), initialRoots[1..])
  }

  /** Activation keeps the registry valid. */
  lemma {:induction false} ActivateValid(g: Registry, initialRoots: seq<Uri>)
    requires RegistryValid(g)
    ensures RegistryValid(ActivateSpec(g, initialRoots))
    decreases |initialRoots|
  {
    if initialRoots != [] {
      AddRootValid(g, initialRoots[0]);
      ActivateValid(AddRootSpec(g, initialRoots[0]), initialRoots[1..]);
    }
  }

  /** After activation the keys are the old ones and those of the initial
      roots. */
  lemma {:induction false} ActivateKeys(g: Registry, initialRoots: seq<Uri>)
    ensures ActivateSpec(g, initialRoots).locators.Keys
      == g.locators.Keys + set r | r in initialRoots :: UriToString(r)
    decreases |initialRoots|
  {
    if initialRoots != [] {
      AddRootKeys(g, initialRoots[0]);
      ActivateKeys(AddRootSpec(g, initialRoots[0]), initialRoots[1..]);
      assert (set r | r in initialRoots :: UriToString(r))
        == {UriToString(initialRoots[0])} + set r | r in initialRoots[1..] :: UriToString(r);
    }
  }

  /** No locator before position `i` answers. */
  predicate FirstAt<R>(keys: seq<string>, locators: map<string, RootLocator>, answer: RootLocator -> Option<R>, i: nat)
    requires i <= |keys| && forall k :: k in keys ==> k in locators
  {
    forall j :: 0 <= j < i ==> answer(locators[keys[j]]).None?
  }

  /** The first answer in key order that is not undefined. */
  function FirstAnswer<R(==)>(keys: seq<string>, locators: map<string, RootLocator>, answer: RootLocator -> Option<R>): (r: Option<R>)
    requires forall k :: k in keys ==> k in locators
    ensures r.None? <==> forall i :: 0 <= i < |keys| ==> answer(locators[keys[i]]).None?
    ensures r.Some? ==> exists i :: 0 <= i < |keys| && r == answer(locators[keys[i]]) && FirstAt(keys, locators, answer, i)
  {
    if keys == [] then None
    else if answer(locators[keys[0]]).Some? then answer(locators[keys[0]])
    else
      var r := FirstAnswer(keys[1..], locators, answer);
      if r.Some? then
        var i :| 0 <= i < |keys[1..]| && r == answer(locators[keys[1..][i]]) && FirstAt(keys[1..], locators, answer, i);
        assert r == answer(locators[keys[i + 1]]);
        assert FirstAt(keys, locators, answer, i + 1) by {
          forall j | 0 <= j < i + 1
            ensures answer(locators[keys[j]]).None?
          {
            if j > 0 {
              assert keys[j] == keys[1..][j - 1];
            }
          }
        }
        r
      else
        assert forall i :: 0 <= i < |keys| ==> answer(locators[keys[i]]).None? by {
          forall i | 0 <= i < |keys|
            ensures answer(locators[keys[i]]).None?
          {
            if i > 0 {
              assert keys[i] == keys[1..][i - 1];
            }
          }
        }
        r
  }

  /** `WorkspaceLocators`. */
  class WorkspaceLocators {
    var locators: map<string, RootLocator>
    var roots: map<string, Uri>
    /** The order `Object.keys` lists the keys in: insertion order. */
    var keyOrder: seq<string>
    var disabled: set<nat>
    var events: seq<Uri>
    var nextId: nat

    function State(): Registry
      reads this
    {
      Registry(locators, roots, keyOrder, disabled, events, nextId)
    }

    predicate Valid()
      reads this
    {
      RegistryValid(State())
    }

    constructor ()
      ensures Valid()
      ensures State() == Registry(map[], map[], [], {}, [], 0)
    {
      locators := map[];
      roots := map[];
      keyOrder := [];
      disabled := {};
      events := [];
      nextId := 0;
    }

    /** `removeRoot`. */
    method RemoveRoot(root: Uri)
      requires Valid()
      modifies this
      ensures Valid()
      ensures State() == RemoveRootSpec(old(State()), root)
    {
      ghost var g := State();
      RemoveRootValid(g, root);
      var key := UriToString(root);
      if key !in locators {
        return;
      }
      var locator := locators[key];
      locators := locators - {key};
      roots := roots - {key};
      keyOrder := Without(keyOrder, key);
      disabled := disabled + {locator.id};
      events := events + [root];
      assert State() == RemoveRootSpec(g, root);
    }

    /** `addRoot`. */
    method AddRoot(root: Uri)
      requires Valid()
      modifies this
      ensures Valid()
      ensures State() == AddRootSpec(old(State()), root)
    {
      ghost var g := State();
      AddRootValid(g, root);
      RemoveRoot(root);
      ghost var h0 := State();
      assert h0 == RemoveRootSpec(g, root);
      var locator := RootLocator(nextId, root);
      nextId := nextId + 1;
      var key := UriToString(root);
      locators := locators[key := locator];
      roots := roots[key := root];
      keyOrder := keyOrder + [key];
      events := events + [root];
      assert State() == h0.(
        locators := h0.locators[key := RootLocator(h0.nextId, root)],
        roots := h0.roots[key := root],
        keyOrder := h0.keyOrder + [key],
        events := h0.events + [root],
        nextId := h0.nextId + 1);
    }

    /** `activate`: every initial root is added in turn; later additions and
        removals arrive through `AddRoot` and `RemoveRoot`. */
    method Activate(initialRoots: seq<Uri>)
      requires Valid()
      modifies this
      ensures Valid()
      ensures State() == ActivateSpec(old(State()), initialRoots)
    {
      var k := 0;
      while k < |initialRoots|
        invariant 0 <= k <= |initialRoots|
        invariant Valid()
        invariant ActivateSpec(State(), initialRoots[k..]) == ActivateSpec(old(State()), initialRoots)
      {
        assert initialRoots[k..][1..] == initialRoots[k + 1..];
        AddRoot(initialRoots[k]);
        k := k + 1;
      }
    }

    /** A locator's change event is forwarded with the root filled in when
        it names no search location. */
    method ForwardChange(locator: RootLocator, searchLocation: Option<Uri>)
      modifies this
      ensures State() == old(State()).(events := old(events) + [searchLocation.GetOr(locator.root)])
    {
      events := events + [if searchLocation.Some? then searchLocation.value else locator.root];
    }

    /** `iterEnvs(query)`: one iterator per key, in key order. With search
        locations, a key whose root matches none of them gets the no-op
        iterator (`None`); otherwise, and always without search locations,
        its locator's own iterator. An empty list of search locations is
        still a list, so then every key gets the no-op iterator. */
    method IterEnvs(searchLocations: Option<seq<Uri>>) returns (plan: seq<Option<RootLocator>>)
      requires Valid()
      ensures |plan| == |keyOrder|
      ensures forall i :: 0 <= i < |plan| ==>
        plan[i] == if searchLocations.Some? && !MatchesAny(roots[keyOrder[i]], searchLocations.value) then None
                   else Some(locators[keyOrder[i]])
    {
      plan := [];
      var k := 0;
      while k < |keyOrder|
        invariant 0 <= k <= |keyOrder| && |plan| == k
        invariant forall i :: 0 <= i < k ==>
          plan[i] == if searchLocations.Some? && !MatchesAny(roots[keyOrder[i]], searchLocations.value) then None
                     else Some(locators[keyOrder[i]])
      {
        var key := keyOrder[k];
        var next := Some(locators[key]);
        if searchLocations.Some? {
          var matched := MatchUri(roots[key], searchLocations.value);
          if !matched {
            next := None;
          }
        }
        plan := plan + [next];
        k := k + 1;
      }
    }

    /** `resolveEnv(env)`, where `searchLocation` is the environment's search
        location (none for a bare path) and `answer` gives each locator's own
        resolution. A known search location routes to its root's locator with
        no fallback; otherwise the first answer in key order is returned. */
    method ResolveEnv(searchLocation: Option<Uri>, answer: RootLocator -> Option<EnvInfo>) returns (r: Option<EnvInfo>)
      requires Valid()
      ensures searchLocation.Some? && UriToString(searchLocation.value) in locators ==>
        r == answer(locators[UriToString(searchLocation.value)])
      ensures !(searchLocation.Some? && UriToString(searchLocation.value) in locators) ==>
        r == FirstAnswer(keyOrder, locators, answer)
    {
      if searchLocation.Some? {
        var key := UriToString(searchLocation.value);
        if key in locators {
          return answer(locators[key]);
        }
      }
      var k := 0;
      while k < |keyOrder|
        invariant 0 <= k <= |keyOrder|
        invariant FirstAnswer(keyOrder[k..], locators, answer) == FirstAnswer(keyOrder, locators, answer)
      {
        assert keyOrder[k..][1..] == keyOrder[k + 1..];
        var resolved := answer(locators[keyOrder[k]]);
        if resolved.Some? {
          return resolved;
        }
        k := k + 1;
      }
      assert keyOrder[k..] == [];
      return None;
    }
  }
}
