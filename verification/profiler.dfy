/**
 The bookkeeping state of the call-tree profiler (`TimeProfilerBase` in
 timer_module/profiler.py) and its four transitions: construction of the
 singleton, registration of a callable, "enter" (`_set_pcall_hash`) and
 "leave" (`_append_object_profiling`).

 Identities are opaque keys (the source derives them by hashing `str(obj)`),
 and durations are whole nanoseconds. Durations are `int`, not `nat`: the
 source subtracts two readings of the wall clock, which may step backwards.
 */
module Profiler {
  import opened Wrappers

  /** The key under which a callable's statistics are kept. */
  type Identity = nat

  /** `ObjectCall`: accumulated statistics of one instrumented callable. */
  datatype CallRecord = CallRecord(name: string, owner: string, time: int, ncalls: nat)

  /**
   The profiler singleton's fields:
   - `registry` is `_object_refs`,
   - `active` is the "primary call" slot `_pcall_hash`,
   - `groups` is `_prof_timing_refs` (root identity to the identities entered beneath it),
   - `order` lists the keys of `groups` in dictionary insertion order,
   - `total` is `_prof_timing_total`,
   - `realtime` is the flag that makes every completed root call print a report.
   */
  datatype State = State(
    realtime: bool,
    registry: map<Identity, CallRecord>,
    active: Option<Identity>,
    groups: map<Identity, set<Identity>>,
    order: seq<Identity>,
    total: int)

  /** The one fact "enter" relies on: an active root always owns a group. */
  predicate RootTracked(s: State) {
    s.active.Some? ==> s.active.value in s.groups
  }

  /** Every identity in the report order owns a group, so the report can look each one up. */
  predicate OrderTracked(s: State) {
    forall i :: 0 <= i < |s.order| ==> s.order[i] in s.groups
  }

  /** What the wrapper composition needs to run "enter", "leave" and the report. */
  predicate Tracked(s: State) {
    RootTracked(s) && OrderTracked(s)
  }

  /** No identity occurs twice in `xs`. */
  predicate Distinct(xs: seq<Identity>) {
    forall i, j :: 0 <= i < j < |xs| ==> xs[i] != xs[j]
  }

  /**
   The invariant every reachable profiler state keeps: the active root has a
   group, `order` enumerates the group keys once each, every root and member
   is registered, and a callable that was never timed has no time.
   */
  ghost predicate Valid(s: State) {
    && RootTracked(s)
    && Distinct(s.order)
    && (forall r :: r in s.groups <==> r in s.order)
    && (forall r :: r in s.groups ==> r in s.registry && s.groups[r] <= s.registry.Keys)
    && (forall x :: x in s.registry && s.registry[x].ncalls == 0 ==> s.registry[x].time == 0)
  }

  /** The state `__new__` creates the first time the profiler is constructed. */
  function Init(realtime: bool): (s: State)
    ensures Valid(s)
    ensures s.active.None? && s.total == 0
    ensures s.registry == map[] && s.groups == map[] && s.order == []
    ensures s.realtime == realtime
  {
    State(realtime, map[], None, map[], [], 0)
  }

  /**
   `TimeProfiler(realtime)`: `__new__` returns the existing singleton when
   there is one, and `__init__` then runs again and overwrites the flag.
   */
  function Construct(existing: Option<State>, realtime: bool): (s: State)
    ensures s.realtime == realtime
    ensures existing.None? ==> s == Init(realtime)
    ensures existing.Some? ==>
      && s.registry == existing.value.registry
      && s.active == existing.value.active
      && s.groups == existing.value.groups
      && s.order == existing.value.order
      && s.total == existing.value.total
  {
    match existing
    case None => Init(realtime)
    case Some(prev) => prev.(realtime := realtime)
  }

  /**
   `_add_object_ref` with `_create_object_call`: stores a fresh record with no
   time and no calls under `id`, replacing any record already there.
   */
  function Register(s: State, id: Identity, name: string, owner: string): (t: State)
    ensures id in t.registry && t.registry[id] == CallRecord(name, owner, 0, 0)
    ensures t.registry.Keys == s.registry.Keys + {id}
    ensures forall x :: x in s.registry && x != id ==> t.registry[x] == s.registry[x]
    ensures t.active == s.active && t.groups == s.groups && t.order == s.order
    ensures t.total == s.total && t.realtime == s.realtime
  {
    s.(registry := s.registry[id := CallRecord(name, owner, 0, 0)])
  }

  /**
   `_set_pcall_hash`: with no active root, `id` becomes the root and its group
   is replaced by an empty set (even if the root had a group from an earlier
   cycle); then `id` is added to the active root's group. The source returns
   the caller's own identity, never the root's.
   */
  function Enter(s: State, id: Identity): (res: (State, Identity))
    requires RootTracked(s)
    ensures res.1 == id
    ensures s.active.None? ==> res.0.active == Some(id) && res.0.groups == s.groups[id := {id}]
    ensures s.active.None? ==>
      res.0.order == (if id in s.groups then s.order else s.order + [id])
    ensures s.active.Some? ==>
      && res.0.active == s.active
      && res.0.groups == s.groups[s.active.value := s.groups[s.active.value] + {id}]
      && res.0.order == s.order
    ensures RootTracked(res.0)
    ensures OrderTracked(s) ==> OrderTracked(res.0)
    ensures res.0.registry == s.registry && res.0.total == s.total
    ensures res.0.realtime == s.realtime
  {
    if s.active.None? then
      var empty: set<Identity> := {};
      var groups := s.groups[id := empty];
      assert empty + {id} == {id};
      (s.(active := Some(id),
          groups := groups[id := groups[id] + {id}],
          order := if id in s.groups then s.order else s.order + [id]), id)
    else
      var root := s.active.value;
      (s.(groups := s.groups[root := s.groups[root] + {id}]), id)
  }

  /**
   `_append_object_profiling`: adds `duration` to the record of `id` and
   counts one more call; when `id` is the active root the duration also goes
   into the grand total and the root slot is cleared. The record lookup raises
   a `KeyError` for an unregistered identity, hence the precondition.
   */
  function Leave(s: State, id: Identity, duration: int): (t: State)
    requires id in s.registry
    ensures t.registry.Keys == s.registry.Keys
    ensures t.registry[id].time == s.registry[id].time + duration
    ensures t.registry[id].ncalls == s.registry[id].ncalls + 1
    ensures t.registry[id].name == s.registry[id].name
    ensures t.registry[id].owner == s.registry[id].owner
    ensures forall x :: x in s.registry && x != id ==> t.registry[x] == s.registry[x]
    ensures s.active == Some(id) ==> t.active.None? && t.total == s.total + duration
    ensures s.active != Some(id) ==> t.active == s.active && t.total == s.total
    ensures t.groups == s.groups && t.order == s.order && t.realtime == s.realtime
  {
    var rec := s.registry[id];
    var registry := s.registry[id := rec.(time := rec.time + duration, ncalls := rec.ncalls + 1)];
    if s.active == Some(id) then
      s.(registry := registry, total := s.total + duration, active := None)
    else
      s.(registry := registry)
  }

  /** Whether "leave" prints the profiling report: only in realtime mode, and only for the root. */
  predicate LeavePrintsReport(s: State, id: Identity) {
    s.realtime && s.active == Some(id)
  }

  /**
   The report is printed exactly by the "leave" that completes a root call
   cycle (the one that empties an occupied root slot), and only in realtime
   mode; it sees the state that "leave" has already updated.
   */
  lemma LeavePrintsReportAtCycleEnd(s: State, id: Identity, duration: int)
    requires id in s.registry
    ensures LeavePrintsReport(s, id) <==>
      s.realtime && s.active.Some? && Leave(s, id, duration).active.None?
  {
  }

  lemma {:induction false} RegisterPreservesValid(s: State, id: Identity, name: string, owner: string)
    requires Valid(s)
    ensures Valid(Register(s, id, name, owner))
  {
  }

  lemma {:induction false} EnterPreservesValid(s: State, id: Identity)
    requires Valid(s)
    requires id in s.registry
    ensures Valid(Enter(s, id).0)
  {
  }

  lemma {:induction false} LeavePreservesValid(s: State, id: Identity, duration: int)
    requires Valid(s)
    requires id in s.registry
    ensures Valid(Leave(s, id, duration))
  {
  }
}
