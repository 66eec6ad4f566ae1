/** `common/utils/resourceLifecycle.ts`: disposing a list of resources,
    the `Disposables` list and the `Activatable` two-flag state machine.

    A resource is a value of type `D`; whether its `dispose()` throws is the
    parameter `fails`. Disposals performed are appended to a log, so the
    model can say which resources were disposed and how often. The awaited
    halves of `Activatable.activate` and `Activatable.dispose` are separate
    methods, so that calls arriving while one is pending can be stated. */
module ResourceLifecycle {

  /** The positions, counted from `from`, of the resources whose disposal
      fails. */
  function FailedIndices<D>(disposables: seq<D>, fails: D -> bool, from: nat): seq<nat>
    decreases |disposables|
  {
    if disposables == [] then []
    else (if fails(disposables[0]) then [from] else []) + FailedIndices(disposables[1..], fails, from + 1)
  }

  /** `FailedIndices` lists exactly the failing positions, in increasing
      order. */
  lemma {:induction false} FailedIndicesExact<D>(disposables: seq<D>, fails: D -> bool, from: nat)
    ensures forall i :: i in FailedIndices(disposables, fails, from) <==>
      from <= i < from + |disposables| && fails(disposables[i - from])
    ensures forall k :: 0 <= k < |FailedIndices(disposables, fails, from)| ==>
      FailedIndices(disposables, fails, from)[k] >= from
    ensures forall k, l :: 0 <= k < l < |FailedIndices(disposables, fails, from)| ==>
      FailedIndices(disposables, fails, from)[k] < FailedIndices(disposables, fails, from)[l]
    decreases |disposables|
  {
    if disposables != [] {
      var head := if fails(disposables[0]) then [from] else [];
      var rest := FailedIndices(disposables[1..], fails, from + 1);
      var r := FailedIndices(disposables, fails, from);
      FailedIndicesExact(disposables[1..], fails, from + 1);
      assert r == head + rest;
      forall i
        ensures i in r <==> from <= i < from + |disposables| && fails(disposables[i - from])
      {
        assert i in r <==> i in head || i in rest;
        if from < i < from + |disposables| {
          assert disposables[i - from] == disposables[1..][i - (from + 1)];
        }
      }
      forall k, l | 0 <= k < l < |r|
        ensures r[k] < r[l]
      {
        if head != [] && k == 0 {
          assert r[l] == rest[l - 1];
        } else {
          assert r[k] == rest[k - |head|] && r[l] == rest[l - |head|];
        }
      }
    }
  }

  /** `disposeAll`: every resource is disposed, in order, whether or not an
      earlier one failed; each failure gives one warning with its index. */
  method DisposeAll<D>(disposables: seq<D>, fails: D -> bool) returns (disposed: seq<D>, warnings: seq<nat>)
    ensures disposed == disposables
    ensures warnings == FailedIndices(disposables, fails, 0)
    ensures forall i :: i in warnings <==> 0 <= i < |disposables| && fails(disposables[i])
    ensures forall k, l :: 0 <= k < l < |warnings| ==> warnings[k] < warnings[l]
  {
    disposed := [];
    warnings := [];
    var index := 0;
    while index < |disposables|
      invariant 0 <= index <= |disposables|
      invariant disposed == disposables[..index]
      invariant warnings + FailedIndices(disposables[index..], fails, index) == FailedIndices(disposables, fails, 0)
    {
      var d := disposables[index];
      disposed := disposed + [d];
      assert disposables[index..][1..] == disposables[index + 1..];
      if fails(d) {
        warnings := warnings + [index];
      }
      index := index + 1;
    }
    assert disposables[index..] == [];
    assert warnings == FailedIndices(disposables, fails, 0);
    FailedIndicesExact(disposables, fails, 0);
  }

  /** `Disposables`. */
  class Disposables<D> {
    var items: seq<D>
    /** Every disposal performed, in order. */
    var disposed: seq<D>

    constructor ()
      ensures items == [] && disposed == []
    {
      items := [];
      disposed := [];
    }

    /** `push(...disposables)`: appended in argument order. */
    method Push(disposables: seq<D>)
      modifies this
      ensures items == old(items) + disposables
      ensures disposed == old(disposed)
    {
      items := items + disposables;
    }

    /** `dispose()`: the list is emptied first, then every item pushed so
        far is disposed, failures being reported as warnings. */
    method Dispose(fails: D -> bool) returns (warnings: seq<nat>)
      modifies this
      ensures items == []
      ensures disposed == old(disposed) + old(items)
      ensures forall i :: i in warnings <==> 0 <= i < |old(items)| && fails(old(items)[i])
    {
      var pending := items;
      items := [];
      var done;
      done, warnings := DisposeAll(pending, fails);
      disposed := disposed + done;
    }
  }

  /** Which awaited half of a call is in flight. */
  datatype Phase = Idle | Activating | Disposing

  datatype ActivatableState<D> = ActivatableState(
    pending: bool,
    activated: bool,
    phase: Phase,
    disposables: seq<D>,
    disposed: seq<D>)

  /** `pending` is set exactly while a call is in flight, and no call is in
      flight on an activated object. */
  predicate ActivatableValid<D>(s: ActivatableState<D>) {
    && (s.pending <==> s.phase != Idle)
    && (s.phase != Idle ==> !s.activated)
  }

  /** The first half of `activate()`: nothing while pending or activated. */
  function ActivateSpec<D>(s: ActivatableState<D>): ActivatableState<D> {
    if s.pending || s.activated then s else s.(pending := true, phase := Activating)
  }

  /** The second half of `activate()`: the activation's resources are added. */
  function ActivationDoneSpec<D>(s: ActivatableState<D>, resources: seq<D>): ActivatableState<D> {
    s.(disposables := s.disposables + resources, pending := false, activated := true, phase := Idle)
  }

  /** The first half of `dispose()`: nothing while pending or not activated;
      otherwise every resource held is disposed, and none is dropped. */
  function DisposeSpec<D>(s: ActivatableState<D>): ActivatableState<D> {
    if s.pending || !s.activated then s
    else s.(pending := true, activated := false, phase := Disposing, disposed := s.disposed + s.disposables)
  }

  /** The second half of `dispose()`. */
  function DisposalDoneSpec<D>(s: ActivatableState<D>): ActivatableState<D> {
    s.(pending := false, phase := Idle)
  }

  /** One activation with `resources` followed by one disposal. */
  function Cycle<D>(s: ActivatableState<D>, resources: seq<D>): ActivatableState<D> {
    DisposalDoneSpec(DisposeSpec(ActivationDoneSpec(ActivateSpec(s), resources)))
  }

  /** Each transition keeps the state valid; a full activation ends
      activated and idle with the resources appended, a full disposal ends
      inactive and idle. */
  lemma TransitionsValid<D>(s: ActivatableState<D>, resources: seq<D>)
    requires ActivatableValid(s)
    ensures ActivatableValid(ActivateSpec(s)) && ActivatableValid(DisposeSpec(s))
    ensures s.phase == Activating ==> ActivatableValid(ActivationDoneSpec(s, resources))
    ensures s.phase == Disposing ==> ActivatableValid(DisposalDoneSpec(s))
    ensures !s.pending && !s.activated ==>
      var t := ActivationDoneSpec(ActivateSpec(s), resources);
      t.activated && !t.pending && t.disposables == s.disposables + resources
    ensures !s.pending && s.activated ==>
      var t := DisposalDoneSpec(DisposeSpec(s));
      !t.activated && !t.pending && t.disposables == s.disposables
  {
  }

  /** While a call is in flight, both `activate()` and `dispose()` do nothing. */
  lemma PendingCallsIgnored<D>(s: ActivatableState<D>)
    requires ActivatableValid(s) && s.phase != Idle
    ensures ActivateSpec(s) == s && DisposeSpec(s) == s
  {
  }

  /** A cycle from an inactive, idle state disposes everything held so far,
      the earlier resources included, and keeps all of them. */
  lemma CycleDisposesAll<D>(s: ActivatableState<D>, resources: seq<D>)
    requires !s.pending && !s.activated
    ensures Cycle(s, resources).disposables == s.disposables + resources
    ensures Cycle(s, resources).disposed == s.disposed + s.disposables + resources
    ensures !Cycle(s, resources).activated && !Cycle(s, resources).pending
  {
  }

  /** The list is never emptied: after two cycles the first cycle's
      resources have been disposed twice. */
  lemma SecondCycleRedisposes<D>(first: seq<D>, second: seq<D>)
    ensures Cycle(Cycle(ActivatableState(false, false, Idle, [], []), first), second).disposed
      == first + first + second
  {
    var s0 := ActivatableState(false, false, Idle, [], []);
    CycleDisposesAll(s0, first);
    var s1 := Cycle(s0, first);
    CycleDisposesAll(s1, second);
    assert s1.disposed == first && s1.disposables == first;
  }

  /** `Activatable`. */
  class Activatable<D> {
    var pending: bool
    var activated: bool
    var phase: Phase
    var disposables: seq<D>
    /** Every disposal performed, in order. */
    var disposed: seq<D>

    function State(): ActivatableState<D>
      reads this
    {
      ActivatableState(pending, activated, phase, disposables, disposed)
    }

    predicate Valid()
      reads this
    {
      ActivatableValid(State())
    }

    /** `active`. */
    function Active(): bool
      reads this
    {
      activated
    }

    constructor ()
      ensures Valid()
      ensures State() == ActivatableState(false, false, Idle, [], [])
    {
      pending := false;
      activated := false;
      phase := Idle;
      disposables := [];
      disposed := [];
    }

    /** `activate()` up to its await of the activation. */
    method Activate()
      requires Valid()
      modifies this
      ensures Valid()
      ensures State() == ActivateSpec(old(State()))
    {
      if pending || activated {
        return;
      }
      pending := true;
      phase := Activating;
    }

    /** `activate()` after the activation returned `resources`. */
    method ActivationDone(resources: seq<D>)
      requires Valid() && phase == Activating
      modifies this
      ensures Valid()
      ensures State() == ActivationDoneSpec(old(State()), resources)
    {
      disposables := disposables + resources;
      pending := false;
      activated := true;
      phase := Idle;
    }

    /** `dispose()` up to its await of the disposals. */
    method Dispose(fails: D -> bool) returns (warnings: seq<nat>)
      requires Valid()
      modifies this
      ensures Valid()
      ensures State() == DisposeSpec(old(State()))
      ensures old(pending) || !old(activated) ==> warnings == []
      ensures !old(pending) && old(activated) ==>
        forall i :: i in warnings <==> 0 <= i < |disposables| && fails(disposables[i])
    {
      warnings := [];
      if pending || !activated {
        return;
      }
      pending := true;
      activated := false;
      phase := Disposing;
      var done;
      done, warnings := DisposeAll(disposables, fails);
      disposed := disposed + done;
    }

    /** `dispose()` after the disposals settled. */
    method DisposalDone()
      requires Valid() && phase == Disposing
      modifies this
      ensures Valid()
      ensures State() == DisposalDoneSpec(old(State()))
    {
      pending := false;
      phase := Idle;
    }
  }
}
