/** `EnvironmentInfoService` of
    `pythonEnvironments/info/environmentInfoService.ts`: a per-path cache of
    interpreter-information requests in front of a worker pool.

    The asynchronous request is split in two steps: `GetEnvironmentInfo`
    records the cache entry and queues the job, and `Complete` is the pool
    handing back the job's result. `I` stands for the interpreter
    information; the pool's queue is the sequence of paths whose jobs are
    outstanding, queued or running. */
module EnvironmentInfoService {
  import opened Wrappers
  import opened Text

  datatype QueuePriority = Default | High

  /** `buildEnvironmentInfo`: a probe that failed, or whose information has
      no version, gives undefined. */
  function BuildEnvironmentInfo<I>(probe: Option<I>, hasVersion: I -> bool): (r: Option<I>)
    ensures r.Some? <==> probe.Some? && hasVersion(probe.value)
    ensures r.Some? ==> r == probe
  {
    if probe.None? || !hasVersion(probe.value) then None else probe
  }

  /** The worker pool's life: each `Start` and `Stop` call. */
  datatype PoolCall = Start | Stop

  /** A cache entry: the deferred result, and whether it has been resolved. */
  datatype Entry<I> = Entry(completed: bool, result: Option<I>)

  datatype ServiceState<I> = ServiceState(
    active: bool,
    poolCalls: seq<PoolCall>,
    cache: map<string, Entry<I>>,
    queue: seq<string>)

  /** The pool is started and stopped alternately, it runs exactly while the
      service is active; each path has at most one outstanding job, exactly
      the paths whose entries are unresolved have one, and a resolved entry
      holds information. */
  predicate ServiceValid<I>(s: ServiceState<I>) {
    && (forall i :: 0 <= i < |s.poolCalls| ==> s.poolCalls[i] == if i % 2 == 0 then Start else Stop)
    && (s.active <==> |s.poolCalls| % 2 == 1)
    && NoDuplicates(s.queue)
    && (forall p :: p in s.queue ==> p in s.cache && !s.cache[p].completed)
    && (forall p :: p in s.cache && !s.cache[p].completed ==> p in s.queue)
    && (forall p :: p in s.cache && s.cache[p].completed ==> s.cache[p].result.Some?)
  }

  function ActivateSpec<I>(s: ServiceState<I>): ServiceState<I> {
    if s.active then s else s.(active := true, poolCalls := s.poolCalls + [Start])
  }

  function DisposeSpec<I>(s: ServiceState<I>): ServiceState<I> {
    if !s.active then s else s.(active := false, poolCalls := s.poolCalls + [Stop])
  }

  /** A path already in the cache joins its entry; a new one gets an
      unresolved entry and a job at the front for high priority, at the back
      otherwise. */
  function RequestSpec<I>(s: ServiceState<I>, path: string, priority: Option<QueuePriority>): ServiceState<I> {
    if path in s.cache then s
    else s.(
      cache := s.cache[path := Entry(false, None)],
      queue := if priority == Some(High) then [path] + s.queue else s.queue + [path])
  }

  /** The pool's answer resolves the entry; an undefined answer evicts it. */
  function CompleteSpec<I>(s: ServiceState<I>, path: string, result: Option<I>): ServiceState<I> {
    s.(
      cache := if result.None? then s.cache - {path} else s.cache[path := Entry(true, result)],
      queue := Without(s.queue, path))
  }

  predicate InfoProvided<I>(s: ServiceState<I>, path: string) {
    path in s.cache && s.cache[path].completed
  }

  /** Activation and disposal keep the service valid; each acts only on a
      transition, so repeating either changes nothing more. */
  lemma ActivateDisposeValid<I>(s: ServiceState<I>)
    requires ServiceValid(s)
    ensures ServiceValid(ActivateSpec(s)) && ServiceValid(DisposeSpec(s))
    ensures ActivateSpec(ActivateSpec(s)) == ActivateSpec(s)
    ensures DisposeSpec(DisposeSpec(s)) == DisposeSpec(s)
    ensures ActivateSpec(s).active && !DisposeSpec(s).active
  {
    var n := |s.poolCalls|;
    if !s.active {
      var t := ActivateSpec(s);
      assert forall i :: 0 <= i < |t.poolCalls| ==> t.poolCalls[i] == if i % 2 == 0 then Start else Stop by {
        forall i | 0 <= i < |t.poolCalls|
          ensures t.poolCalls[i] == if i % 2 == 0 then Start else Stop
        {
          if i == n {
            assert n % 2 == 0;
          }
        }
      }
    } else {
      var t := DisposeSpec(s);
      assert forall i :: 0 <= i < |t.poolCalls| ==> t.poolCalls[i] == if i % 2 == 0 then Start else Stop by {
        forall i | 0 <= i < |t.poolCalls|
          ensures t.poolCalls[i] == if i % 2 == 0 then Start else Stop
        {
          if i == n {
            assert n % 2 == 1;
          }
        }
      }
    }
  }

  /** A request keeps the service valid. A cached path is joined without
      queueing anything; a new path is queued once, at the front for high
      priority and at the back otherwise, and is not yet provided. */
  lemma RequestValid<I>(s: ServiceState<I>, path: string, priority: Option<QueuePriority>)
    requires ServiceValid(s)
    ensures var t := RequestSpec(s, path, priority);
      && ServiceValid(t)
      && (path in s.cache ==> t == s)
      && (path !in s.cache ==>
            && path !in s.queue && !InfoProvided(t, path)
            && (priority == Some(High) ==> t.queue == [path] + s.queue)
            && (priority != Some(High) ==> t.queue == s.queue + [path]))
  {
    if path !in s.cache {
      var t := RequestSpec(s, path, priority);
      assert path !in s.queue;
      assert NoDuplicates(t.queue) by {
        forall i, j | 0 <= i < j < |t.queue| ensures t.queue[i] != t.queue[j] {
          if priority == Some(High) {
            if i > 0 {
              assert t.queue[i] == s.queue[i - 1] && t.queue[j] == s.queue[j - 1];
            } else {
              assert t.queue[j] in s.queue;
            }
          } else {
            if j < |s.queue| {
              assert t.queue[i] == s.queue[i] && t.queue[j] == s.queue[j];
            } else {
              assert t.queue[i] in s.queue;
            }
          }
        }
      }
    }
  }

  /** Completing an outstanding job keeps the service valid: a defined
      answer is then provided, an undefined one leaves the path uncached so a
      later request queues it again. Other paths are untouched. */
  lemma CompleteValid<I>(s: ServiceState<I>, path: string, result: Option<I>)
    requires ServiceValid(s) && path in s.queue
    ensures var t := CompleteSpec(s, path, result);
      && ServiceValid(t)
      && (result.Some? ==> InfoProvided(t, path) && t.cache[path].result == result)
      && (result.None? ==> path !in t.cache && RequestSpec(t, path, None).queue == t.queue + [path])
      && (forall p :: p != path ==> (p in t.cache <==> p in s.cache))
      && (forall p :: p != path && p in s.cache ==> t.cache[p] == s.cache[p])
  {
  }

  /** Two requests for one path before its job completes queue a single job. */
  lemma RequestTwiceQueuesOnce<I>(s: ServiceState<I>, path: string, first: Option<QueuePriority>, second: Option<QueuePriority>)
    ensures RequestSpec(RequestSpec(s, path, first), path, second) == RequestSpec(s, path, first)
  {
  }

  class EnvironmentInfoService<I> {
    var active: bool
    var poolCalls: seq<PoolCall>
    var cache: map<string, Entry<I>>
    var queue: seq<string>

    function State(): ServiceState<I>
      reads this
    {
      ServiceState(active, poolCalls, cache, queue)
    }

    predicate Valid()
      reads this
    {
      ServiceValid(State())
    }

    constructor ()
      ensures Valid()
      ensures State() == ServiceState(false, [], map[], [])
    {
      active := false;
      poolCalls := [];
      cache := map[];
      queue := [];
    }

    /** `activate`. */
    method Activate()
      requires Valid()
      modifies this
      ensures Valid()
      ensures State() == ActivateSpec(old(State()))
    {
      ActivateDisposeValid(State());
      if active {
        return;
      }
      active := true;
      poolCalls := poolCalls + [Start];
    }

    /** `dispose`. */
    method Dispose()
      requires Valid()
      modifies this
      ensures Valid()
      ensures State() == DisposeSpec(old(State()))
    {
      ActivateDisposeValid(State());
      if !active {
        return;
      }
      active := false;
      poolCalls := poolCalls + [Stop];
    }

    /** `getEnvironmentInfo(path, priority)`: the entry joined when the path
        is already cached (`None` when a new job was queued). */
    method GetEnvironmentInfo(path: string, priority: Option<QueuePriority>) returns (joined: Option<Entry<I>>)
      requires Valid()
      modifies this
      ensures Valid()
      ensures State() == RequestSpec(old(State()), path, priority)
      ensures joined.Some? <==> path in old(cache)
      ensures joined.Some? ==> joined.value == old(cache)[path]
    {
      RequestValid(State(), path, priority);
      if path in cache {
        return Some(cache[path]);
      }
      cache := cache[path := Entry(false, None)];
      if priority == Some(High) {
        queue := [path] + queue;
      } else {
        queue := queue + [path];
      }
      return None;
    }

    /** The pool's answer for an outstanding job. */
    method Complete(path: string, result: Option<I>)
      requires Valid() && path in queue
      modifies this
      ensures Valid()
      ensures State() == CompleteSpec(old(State()), path, result)
    {
      CompleteValid(State(), path, result);
      queue := Without(queue, path);
      cache := cache[path := Entry(true, result)];
      if result.None? {
        cache := cache - {path};
      }
    }

    /** `isInfoProvided(path)`. */
    method IsInfoProvided(path: string) returns (r: bool)
      ensures r <==> InfoProvided(State(), path)
    {
      r := path in cache && cache[path].completed;
    }
  }
}
