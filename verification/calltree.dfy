/**
 The composition `_function_wrapper` performs around every instrumented call
 (enter, read the clock, run the callee, read the clock, leave), replayed
 over a tree of synchronous calls whose callees return normally, and the
 same bookkeeping as a flat trace of enter/leave events. A realtime report
 raised inside "leave" ends the run early.
 */
module CallTree {
  import opened Wrappers
  import opened Profiler
  import opened Report

  /**
   One completed invocation of an instrumented callable: its identity, the
   two clock readings the wrapper takes around the callee, and the
   instrumented calls the callee made, in order.
   */
  datatype Call = Call(id: Identity, start: int, calls: seq<Call>, stop: int)

  /** The elapsed time the wrapper passes to "leave". */
  function Duration(c: Call): int {
    c.stop - c.start
  }

  /** Every identity invoked anywhere in `c`, `c` included. */
  function Ids(c: Call): set<Identity>
    decreases c, 1
  {
    {c.id} + IdsAll(c.calls)
  }

  function IdsAll(cs: seq<Call>): set<Identity>
    decreases cs, 0
  {
    if cs == [] then {} else Ids(cs[0]) + IdsAll(cs[1..])
  }

  /** How many times `x` is invoked in `c`. */
  function Count(c: Call, x: Identity): nat
    decreases c, 1
  {
    (if c.id == x then 1 else 0) + CountAll(c.calls, x)
  }

  function CountAll(cs: seq<Call>, x: Identity): nat
    decreases cs, 0
  {
    if cs == [] then 0 else Count(cs[0], x) + CountAll(cs[1..], x)
  }

  /** The summed duration of all invocations of `x` in `c`. */
  function TimeOf(c: Call, x: Identity): int
    decreases c, 1
  {
    (if c.id == x then Duration(c) else 0) + TimeOfAll(c.calls, x)
  }

  function TimeOfAll(cs: seq<Call>, x: Identity): int
    decreases cs, 0
  {
    if cs == [] then 0 else TimeOf(cs[0], x) + TimeOfAll(cs[1..], x)
  }

  /** A call that makes no instrumented calls counts only itself. */
  lemma LeafTotals(c: Call, x: Identity)
    requires c.calls == []
    ensures Ids(c) == {c.id}
    ensures Count(c, x) == (if c.id == x then 1 else 0)
    ensures TimeOf(c, x) == (if c.id == x then Duration(c) else 0)
  {
    assert IdsAll(c.calls) == {} && CountAll(c.calls, x) == 0 && TimeOfAll(c.calls, x) == 0;
  }

  /** A one-call sequence has the totals of its call. */
  lemma SingletonTotals(c: Call, x: Identity)
    ensures IdsAll([c]) == Ids(c)
    ensures CountAll([c], x) == Count(c, x)
    ensures TimeOfAll([c], x) == TimeOf(c, x)
  {
    assert [c][1..] == [];
  }

  /**
   How a hook call or a wrapped call ends: it returns, or it raises (a
   `KeyError` for an unregistered identity, or whatever the realtime report
   raises). Either way `state` is the profiler state left behind. Nothing in
   the wrapper catches, so a raise skips every "leave" the enclosing wrappers
   would still have performed.
   */
  datatype Outcome = Returned(state: State) | Raised(state: State)

  /**
   `_append_object_profiling` together with the report it may print. The
   record lookup raises before any change for an unregistered identity;
   otherwise the record and the root slot are updated first, and then, when
   this "leave" completes a root call cycle in realtime mode, the report runs
   on the updated state and raises if it cannot print some record.
   */
  function LeaveHook(s: State, id: Identity, duration: int): (r: Outcome)
    requires Tracked(s)
    ensures id !in s.registry ==> r == Raised(s)
    ensures id in s.registry ==> r.state == Leave(s, id, duration)
    ensures r.Raised? <==>
      id !in s.registry || (LeavePrintsReport(s, id) && Render(Leave(s, id, duration)).Failure?)
    ensures Tracked(r.state) && r.state.registry.Keys == s.registry.Keys
    ensures r.state.realtime == s.realtime
  {
    if id !in s.registry then Raised(s)
    else
      var t := Leave(s, id, duration);
      if LeavePrintsReport(s, id) && Render(t).Failure? then Raised(t) else Returned(t)
  }

  /**
   `function_wrapper`: enter, run the nested calls, leave with the elapsed
   time. Every identity in the tree must be registered, as the wrapper only
   exists for a callable it has registered. A raise in a nested call (from a
   realtime report) propagates without this call's "leave".
   */
  function Run(s: State, c: Call): (r: Outcome)
    requires Tracked(s)
    requires Ids(c) <= s.registry.Keys
    ensures Tracked(r.state)
    ensures r.state.registry.Keys == s.registry.Keys
    ensures r.state.realtime == s.realtime
    decreases c, 1
  {
    var entered := Enter(s, c.id).0;
    match RunAll(entered, c.calls)
    case Raised(t) => Raised(t)
    case Returned(inner) => LeaveHook(inner, c.id, Duration(c))
  }

  /** The calls a callee makes, one after another, up to the first that raises. */
  function RunAll(s: State, cs: seq<Call>): (r: Outcome)
    requires Tracked(s)
    requires IdsAll(cs) <= s.registry.Keys
    ensures Tracked(r.state)
    ensures r.state.registry.Keys == s.registry.Keys
    ensures r.state.realtime == s.realtime
    decreases cs, 0
  {
    if cs == [] then Returned(s)
    else
      match Run(s, cs[0])
      case Raised(t) => Raised(t)
      case Returned(mid) => RunAll(mid, cs[1..])
  }

  /** Without realtime reports nothing a registered call tree does can raise. */
  lemma {:induction false} QuietRunReturns(s: State, c: Call)
    requires Tracked(s)
    requires Ids(c) <= s.registry.Keys
    requires !s.realtime
    ensures Run(s, c).Returned?
    decreases c, 1
  {
    QuietRunAllReturns(Enter(s, c.id).0, c.calls);
  }

  lemma {:induction false} QuietRunAllReturns(s: State, cs: seq<Call>)
    requires Tracked(s)
    requires IdsAll(cs) <= s.registry.Keys
    requires !s.realtime
    ensures RunAll(s, cs).Returned?
    decreases cs, 0
  {
    if cs != [] {
      QuietRunReturns(s, cs[0]);
      QuietRunAllReturns(Run(s, cs[0]).state, cs[1..]);
    }
  }

  /**
   Every completed invocation in the tree is recorded: when the run returns,
   the record of each registered identity has gained exactly its number of
   invocations and their summed durations, whatever the root slot held
   before, and keeps its name. When a report raises part-way, the record has
   gained at most that many calls.
   */
  lemma {:induction false} RunCounts(s: State, c: Call, x: Identity)
    requires Tracked(s)
    requires Ids(c) <= s.registry.Keys
    requires x in s.registry
    ensures Run(s, c).Returned? ==>
      Run(s, c).state.registry[x] ==
        s.registry[x].(time := s.registry[x].time + TimeOf(c, x),
                       ncalls := s.registry[x].ncalls + Count(c, x))
    ensures s.registry[x].ncalls <= Run(s, c).state.registry[x].ncalls <= s.registry[x].ncalls + Count(c, x)
    ensures Run(s, c).state.registry[x].name == s.registry[x].name
    decreases c, 1
  {
    RunAllCounts(Enter(s, c.id).0, c.calls, x);
  }

  lemma {:induction false} RunAllCounts(s: State, cs: seq<Call>, x: Identity)
    requires Tracked(s)
    requires IdsAll(cs) <= s.registry.Keys
    requires x in s.registry
    ensures RunAll(s, cs).Returned? ==>
      RunAll(s, cs).state.registry[x] ==
        s.registry[x].(time := s.registry[x].time + TimeOfAll(cs, x),
                       ncalls := s.registry[x].ncalls + CountAll(cs, x))
    ensures s.registry[x].ncalls <= RunAll(s, cs).state.registry[x].ncalls <= s.registry[x].ncalls + CountAll(cs, x)
    ensures RunAll(s, cs).state.registry[x].name == s.registry[x].name
    decreases cs, 0
  {
    if cs != [] {
      RunCounts(s, cs[0], x);
      RunAllCounts(Run(s, cs[0]).state, cs[1..], x);
    }
  }

  /**
   Registration is not idempotent: registering an identity again after a
   cycle in which it was invoked discards the calls and time that cycle
   recorded for it.
   */
  lemma {:induction false} ReRegisterDiscardsStatistics(s: State, c: Call, x: Identity, name: string, owner: string)
    requires Tracked(s)
    requires Ids(c) <= s.registry.Keys
    requires x in s.registry && s.registry[x].ncalls == 0
    requires Count(c, x) > 0
    ensures var t := Run(s, c).state;
      && Register(t, x, name, owner).registry[x].ncalls == 0
      && (Run(s, c).Returned? ==>
            && t.registry[x].ncalls == Count(c, x)
            && Register(t, x, name, owner) != t)
  {
    RunCounts(s, c, x);
  }

  /** Running a call tree keeps the profiler invariant, whether it returns or raises. */
  lemma {:induction false} RunPreservesValid(s: State, c: Call)
    requires Valid(s)
    requires Ids(c) <= s.registry.Keys
    ensures Valid(Run(s, c).state)
    decreases c, 1
  {
    var entered := Enter(s, c.id).0;
    EnterPreservesValid(s, c.id);
    RunAllPreservesValid(entered, c.calls);
    match RunAll(entered, c.calls)
    case Raised(_) =>
    case Returned(inner) => LeavePreservesValid(inner, c.id, Duration(c));
  }

  lemma {:induction false} RunAllPreservesValid(s: State, cs: seq<Call>)
    requires Valid(s)
    requires IdsAll(cs) <= s.registry.Keys
    ensures Valid(RunAll(s, cs).state)
    decreases cs, 0
  {
    if cs != [] {
      RunPreservesValid(s, cs[0]);
      RunAllPreservesValid(Run(s, cs[0]).state, cs[1..]);
    }
  }

  /**
   A call made while root `r` is active, and in which `r` itself is not
   invoked again, returns (no "leave" in it prints a report), leaves `r`
   active and the grand total unchanged, and adds every identity it invokes
   to `r`'s group; no other group changes.
   */
  lemma {:induction false} NestedRun(s: State, c: Call, r: Identity)
    requires Tracked(s)
    requires Ids(c) <= s.registry.Keys
    requires s.active == Some(r)
    requires r !in Ids(c)
    ensures Run(s, c).Returned?
    ensures Run(s, c).state.active == Some(r)
    ensures Run(s, c).state.total == s.total
    ensures Run(s, c).state.groups == s.groups[r := s.groups[r] + Ids(c)]
    ensures Run(s, c).state.order == s.order
    decreases c, 1
  {
    var entered := Enter(s, c.id).0;
    NestedRunAll(entered, c.calls, r);
    assert s.groups[r] + {c.id} + IdsAll(c.calls) == s.groups[r] + Ids(c);
  }

  lemma {:induction false} NestedRunAll(s: State, cs: seq<Call>, r: Identity)
    requires Tracked(s)
    requires IdsAll(cs) <= s.registry.Keys
    requires s.active == Some(r)
    requires r !in IdsAll(cs)
    ensures RunAll(s, cs).Returned?
    ensures RunAll(s, cs).state.active == Some(r)
    ensures RunAll(s, cs).state.total == s.total
    ensures RunAll(s, cs).state.groups == s.groups[r := s.groups[r] + IdsAll(cs)]
    ensures RunAll(s, cs).state.order == s.order
    decreases cs, 0
  {
    if cs == [] {
      assert s.groups[r] + IdsAll(cs) == s.groups[r];
    } else {
      NestedRun(s, cs[0], r);
      var mid := Run(s, cs[0]).state;
      NestedRunAll(mid, cs[1..], r);
      assert s.groups[r] + Ids(cs[0]) + IdsAll(cs[1..]) == s.groups[r] + IdsAll(cs);
    }
  }

  /**
   A root call cycle: a call entered with no active root, that does not
   invoke itself again, becomes the root, collects every identity invoked
   beneath it (and itself) into a group that replaces any earlier group of
   that root, adds its own duration to the grand total, and leaves the root
   slot empty again. A new root goes to the end of the report order. Only
   the root's own "leave" can print a report, and it runs after every record
   update, so the records gain exactly the tree's calls and durations whether
   or not that report raises; the cycle raises exactly when realtime reports
   are on and the report of the final state cannot be printed.
   */
  lemma {:induction false} RootCycle(s: State, c: Call)
    requires Tracked(s)
    requires s.active.None?
    requires Ids(c) <= s.registry.Keys
    requires c.id !in IdsAll(c.calls)
    ensures Run(s, c).state.active.None?
    ensures Run(s, c).state.total == s.total + Duration(c)
    ensures Run(s, c).state.groups == s.groups[c.id := Ids(c)]
    ensures Run(s, c).state.order == (if c.id in s.groups then s.order else s.order + [c.id])
    ensures Run(s, c).Raised? <==> s.realtime && Render(Run(s, c).state).Failure?
    ensures forall x :: x in s.registry ==>
      Run(s, c).state.registry[x] ==
        s.registry[x].(time := s.registry[x].time + TimeOf(c, x),
                       ncalls := s.registry[x].ncalls + Count(c, x))
  {
    var entered := Enter(s, c.id).0;
    NestedRunAll(entered, c.calls, c.id);
    assert {c.id} + IdsAll(c.calls) == Ids(c);
    forall x | x in s.registry
      ensures Run(s, c).state.registry[x] ==
        s.registry[x].(time := s.registry[x].time + TimeOf(c, x),
                       ncalls := s.registry[x].ncalls + Count(c, x))
    {
      RootCycleCounts(s, c, x);
    }
  }

  /**
   The accounting of one record over a root call cycle, which holds whether
   or not the report printed by the root's "leave" raises.
   */
  lemma {:induction false} RootCycleCounts(s: State, c: Call, x: Identity)
    requires Tracked(s)
    requires s.active.None?
    requires Ids(c) <= s.registry.Keys
    requires c.id !in IdsAll(c.calls)
    requires x in s.registry
    ensures Run(s, c).state.registry[x] ==
      s.registry[x].(time := s.registry[x].time + TimeOf(c, x),
                     ncalls := s.registry[x].ncalls + Count(c, x))
  {
    var entered := Enter(s, c.id).0;
    NestedRunAll(entered, c.calls, c.id);
    RunAllCounts(entered, c.calls, x);
    var inner := RunAll(entered, c.calls).state;
    assert Run(s, c).state == Leave(inner, c.id, Duration(c));
  }

  /** One hook invocation as seen by the profiler state. */
  datatype Event = Entered(id: Identity) | Left(id: Identity, duration: int)

  /**
   Applies one hook invocation. "Enter" never raises; "leave" raises for an
   unregistered identity, or when it prints a realtime report that raises.
   */
  function Step(s: State, e: Event): (r: Outcome)
    requires Tracked(s)
    ensures Tracked(r.state) && r.state.registry.Keys == s.registry.Keys
    ensures r.state.realtime == s.realtime
    ensures r.Raised? <==>
      e.Left? && (e.id !in s.registry || (LeavePrintsReport(s, e.id) && Render(Leave(s, e.id, e.duration)).Failure?))
  {
    match e
    case Entered(id) => Returned(Enter(s, id).0)
    case Left(id, d) => LeaveHook(s, id, d)
  }

  /**
   Applies a trace of hook invocations, stopping at the first that raises.
   Without realtime reports, a trace whose every "leave" is of a registered
   identity never raises.
   */
  function Replay(s: State, es: seq<Event>): (r: Outcome)
    requires Tracked(s)
    ensures Tracked(r.state) && r.state.registry.Keys == s.registry.Keys
    ensures r.state.realtime == s.realtime
    ensures !s.realtime && (forall i :: 0 <= i < |es| && es[i].Left? ==> es[i].id in s.registry) ==> r.Returned?
    decreases |es|
  {
    if es == [] then Returned(s)
    else
      match Step(s, es[0])
      case Raised(t) => Raised(t)
      case Returned(t) =>
        assert forall i :: 1 <= i < |es| ==> es[1..][i - 1] == es[i];
        Replay(t, es[1..])
  }

  /** The hook invocations one call tree makes, in the order they happen. */
  function Events(c: Call): seq<Event>
    decreases c, 1
  {
    [Entered(c.id)] + EventsAll(c.calls) + [Left(c.id, Duration(c))]
  }

  function EventsAll(cs: seq<Call>): seq<Event>
    decreases cs, 0
  {
    if cs == [] then [] else Events(cs[0]) + EventsAll(cs[1..])
  }

  lemma {:induction false} ReplayAppend(s: State, a: seq<Event>, b: seq<Event>)
    requires Tracked(s)
    ensures Replay(s, a + b) ==
      match Replay(s, a)
      case Raised(t) => Raised(t)
      case Returned(t) => Replay(t, b)
    decreases |a|
  {
    if a == [] {
      assert a + b == b;
    } else {
      assert (a + b)[0] == a[0];
      assert (a + b)[1..] == a[1..] + b;
      match Step(s, a[0])
      case Raised(_) =>
      case Returned(t) => ReplayAppend(t, a[1..], b);
    }
  }

  /**
   The wrapper composition and the flat event trace agree: running a call
   tree is replaying its enter/leave events, including where a realtime
   report raises and the rest of the trace never happens.
   */
  lemma {:induction false} RunIsReplay(s: State, c: Call)
    requires Tracked(s)
    requires Ids(c) <= s.registry.Keys
    ensures Replay(s, Events(c)) == Run(s, c)
    decreases c, 1
  {
    var entered := Enter(s, c.id).0;
    var leave := Left(c.id, Duration(c));
    ReplayAppend(s, [Entered(c.id)] + EventsAll(c.calls), [leave]);
    ReplayAppend(s, [Entered(c.id)], EventsAll(c.calls));
    assert Replay(s, [Entered(c.id)]) == Returned(entered) by {
      assert [Entered(c.id)][1..] == [];
    }
    RunAllIsReplay(entered, c.calls);
    match RunAll(entered, c.calls)
    case Raised(_) =>
    case Returned(inner) =>
      assert Replay(inner, [leave]) == LeaveHook(inner, c.id, Duration(c)) by {
        assert [leave][1..] == [];
      }
  }

  lemma {:induction false} RunAllIsReplay(s: State, cs: seq<Call>)
    requires Tracked(s)
    requires IdsAll(cs) <= s.registry.Keys
    ensures Replay(s, EventsAll(cs)) == RunAll(s, cs)
    decreases cs, 0
  {
    if cs != [] {
      ReplayAppend(s, Events(cs[0]), EventsAll(cs[1..]));
      RunIsReplay(s, cs[0]);
      match Run(s, cs[0])
      case Raised(_) =>
      case Returned(mid) => RunAllIsReplay(mid, cs[1..]);
    }
  }

  lemma {:induction false} ReplayCons(s: State, e: Event, es: seq<Event>)
    requires Tracked(s)
    ensures Replay(s, [e] + es) ==
      match Step(s, e)
      case Raised(t) => Raised(t)
      case Returned(t) => Replay(t, es)
  {
  }

  /**
   Direct recursion on the event trace: after enter(r), enter(r), leave(r)
   from an idle profiler the root slot is empty although the outer call of
   `r` is still running, so (unless the report that "leave" printed raised)
   the next instrumented call the outer call makes becomes a root of its own
   instead of joining `r`'s group.
   */
  lemma {:induction false} DirectRecursionReleasesRootEarly(s: State, r: Identity, x: Identity, d: int)
    requires Tracked(s)
    requires s.active.None?
    requires r in s.registry
    ensures var t := Replay(s, [Entered(r), Entered(r), Left(r, d)]);
      && t.state.active.None?
      && (!s.realtime ==> t.Returned?)
      && (t.Returned? ==>
            var u := Replay(s, [Entered(r), Entered(r), Left(r, d), Entered(x)]);
            u.Returned? && u.state.active == Some(x) && u.state.groups[x] == {x})
  {
    var s1 := Enter(s, r).0;
    var s2 := Enter(s1, r).0;
    var t3 := LeaveHook(s2, r, d);
    ReplayCons(s2, Left(r, d), []);
    ReplayCons(s2, Left(r, d), [Entered(x)]);
    ReplayCons(s1, Entered(r), [Left(r, d)]);
    ReplayCons(s1, Entered(r), [Left(r, d), Entered(x)]);
    ReplayCons(s, Entered(r), [Entered(r), Left(r, d)]);
    ReplayCons(s, Entered(r), [Entered(r), Left(r, d), Entered(x)]);
    assert [Entered(r), Entered(r), Left(r, d)] == [Entered(r)] + [Entered(r), Left(r, d)];
    assert [Entered(r), Left(r, d)] == [Entered(r)] + [Left(r, d)];
    assert [Left(r, d)] == [Left(r, d)] + [];
    assert [Entered(r), Entered(r), Left(r, d), Entered(x)] == [Entered(r)] + [Entered(r), Left(r, d), Entered(x)];
    assert [Entered(r), Left(r, d), Entered(x)] == [Entered(r)] + [Left(r, d), Entered(x)];
    assert [Left(r, d), Entered(x)] == [Left(r, d)] + [Entered(x)];
    if t3.Returned? {
      ReplayCons(t3.state, Entered(x), []);
      assert [Entered(x)] == [Entered(x)] + [];
    }
  }

  /** The events the wrapper produces for a root `r` that calls itself once, directly. */
  lemma {:induction false} DirectRecursionEvents(r: Identity, a: int, b: int, e: int, f: int)
    ensures Events(Call(r, a, [Call(r, b, [], e)], f)) ==
      [Entered(r), Entered(r), Left(r, e - b), Left(r, f - a)]
  {
    var inner := Call(r, b, [], e);
    assert EventsAll([inner]) == Events(inner) by {
      assert [inner][1..] == [];
      assert EventsAll([]) == [];
    }
    assert Events(inner) == [Entered(r), Left(r, e - b)] by {
      assert inner.calls == [];
      assert EventsAll(inner.calls) == [];
    }
  }

  /**
   A root that calls itself directly, as the wrapper runs it (the events of
   `DirectRecursionEvents`): the inner invocation's "leave" already sees its
   identity in the root slot, so it clears the slot and adds only the inner
   duration to the grand total; the outer "leave" then finds the slot empty
   and adds nothing to the total. Both invocations are counted in the record
   of `r`, unless the realtime report the inner "leave" printed raised, in
   which case the outer one never happens.
   */
  lemma {:induction false} DirectRecursionCountsInnerOnly(s: State, r: Identity, inner: int, outer: int)
    requires Tracked(s)
    requires s.active.None?
    requires r in s.registry
    ensures var t := Replay(s, [Entered(r), Entered(r), Left(r, inner), Left(r, outer)]);
      && t.state.active.None?
      && t.state.total == s.total + inner
      && (!s.realtime ==> t.Returned?)
      && (t.Returned? ==>
            && t.state.registry[r].ncalls == s.registry[r].ncalls + 2
            && t.state.registry[r].time == s.registry[r].time + inner + outer)
      && (t.Raised? ==>
            && t.state.registry[r].ncalls == s.registry[r].ncalls + 1
            && t.state.registry[r].time == s.registry[r].time + inner)
  {
    var s1 := Enter(s, r).0;
    var s2 := Enter(s1, r).0;
    assert s2.active == Some(r) && s2.registry == s.registry && s2.total == s.total;
    var t3 := LeaveHook(s2, r, inner);
    assert t3.state.active.None? && t3.state.total == s.total + inner;
    ReplayCons(s2, Left(r, inner), [Left(r, outer)]);
    ReplayCons(s1, Entered(r), [Left(r, inner), Left(r, outer)]);
    ReplayCons(s, Entered(r), [Entered(r), Left(r, inner), Left(r, outer)]);
    assert [Entered(r), Entered(r), Left(r, inner), Left(r, outer)]
      == [Entered(r)] + [Entered(r), Left(r, inner), Left(r, outer)];
    assert [Entered(r), Left(r, inner), Left(r, outer)] == [Entered(r)] + [Left(r, inner), Left(r, outer)];
    assert [Left(r, inner), Left(r, outer)] == [Left(r, inner)] + [Left(r, outer)];
    if t3.Returned? {
      var t4 := LeaveHook(t3.state, r, outer);
      assert t4.Returned?;
      ReplayCons(t3.state, Left(r, outer), []);
      assert [Left(r, outer)] == [Left(r, outer)] + [];
    }
  }
}
