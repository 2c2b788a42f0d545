/**
 Whole-cycle consequences of the profiler model: a root calling a helper
 twice, and what direct recursion does to a realtime report.
 */
module Scenarios {
  import opened Wrappers
  import opened Profiler
  import opened CallTree
  import opened Report

  /** A fresh profiler, realtime or not, with `outer` and `inner` wrapped (their records start at zero). */
  function Wrapped(outer: Identity, inner: Identity, realtime: bool): State {
    Register(Register(Init(realtime), outer, "outer", "app"), inner, "inner", "app")
  }

  /**
   `outer` runs from 0 to 25 ms and calls `inner` twice, 10 ms each, doing
   5 ms of work of its own.
   */
  function OuterCallsInnerTwice(outer: Identity, inner: Identity): Call {
    Call(outer, 0, [
      Call(inner, 1_000_000, [], 11_000_000),
      Call(inner, 12_000_000, [], 22_000_000)
    ], 25_000_000)
  }

  /** How often, and for how long, each identity is invoked in `OuterCallsInnerTwice`. */
  lemma {:induction false} OuterCallsInnerTwiceTotals(outer: Identity, inner: Identity)
    requires outer != inner
    ensures var c := OuterCallsInnerTwice(outer, inner);
      && Ids(c) == {outer, inner}
      && c.id == outer && outer !in IdsAll(c.calls)
      && Duration(c) == 25_000_000
      && Count(c, outer) == 1 && TimeOf(c, outer) == 25_000_000
      && Count(c, inner) == 2 && TimeOf(c, inner) == 20_000_000
  {
    var c := OuterCallsInnerTwice(outer, inner);
    var i1 := Call(inner, 1_000_000, [], 11_000_000);
    var i2 := Call(inner, 12_000_000, [], 22_000_000);
    assert c.calls == [i1, i2];
    assert c.calls[1..] == [i2];
    LeafTotals(i1, outer);
    LeafTotals(i1, inner);
    LeafTotals(i2, outer);
    LeafTotals(i2, inner);
    SingletonTotals(i2, outer);
    SingletonTotals(i2, inner);
    assert IdsAll(c.calls) == {inner};
    assert CountAll(c.calls, outer) == 0 && TimeOfAll(c.calls, outer) == 0;
    assert CountAll(c.calls, inner) == 2 && TimeOfAll(c.calls, inner) == 20_000_000;
  }

  /** The profiler right after wrapping both callables: valid, idle, and with empty records. */
  lemma WrappedFacts(outer: Identity, inner: Identity, realtime: bool)
    requires outer != inner
    ensures var s := Wrapped(outer, inner, realtime);
      && Valid(s) && Tracked(s)
      && s.realtime == realtime && s.active.None?
      && s.registry.Keys == {outer, inner}
      && s.registry[outer] == CallRecord("outer", "app", 0, 0)
      && s.registry[inner] == CallRecord("inner", "app", 0, 0)
      && s.groups == map[] && s.order == [] && s.total == 0
  {
    RegisterPreservesValid(Init(realtime), outer, "outer", "app");
    RegisterPreservesValid(Register(Init(realtime), outer, "outer", "app"), inner, "inner", "app");
  }

  /** A valid state whose only group is `outer`'s, both members having calls, renders. */
  lemma OneGroupRenders(t: State, outer: Identity, inner: Identity)
    requires Valid(t)
    requires t.groups == map[outer := {outer, inner}]
    requires outer in t.registry && t.registry[outer].ncalls > 0
    requires inner in t.registry && t.registry[inner].ncalls > 0
    ensures Render(t).Success?
  {
    assert SectionPrintable(t.registry, outer, t.groups[outer]);
  }

  /**
   A root cycle of `outer` in which `inner` is invoked twice for 20 ms in all
   and `outer` lasts 25 ms, from any idle profiler whose only records are
   the two, still empty. It returns even with realtime reports on: the
   report printed by the root's "leave" sees both records with calls.
   */
  lemma {:induction false} TwoCallableCycle(s: State, c: Call, outer: Identity, inner: Identity)
    requires outer != inner
    requires Valid(s) && s.active.None?
    requires s.registry.Keys == {outer, inner}
    requires s.registry[outer].ncalls == 0 && s.registry[outer].time == 0
    requires s.registry[inner].ncalls == 0 && s.registry[inner].time == 0
    requires s.groups == map[] && s.order == [] && s.total == 0
    requires Ids(c) == {outer, inner} && c.id == outer && outer !in IdsAll(c.calls)
    requires Duration(c) == 25_000_000
    requires Count(c, outer) == 1 && TimeOf(c, outer) == 25_000_000
    requires Count(c, inner) == 2 && TimeOf(c, inner) == 20_000_000
    ensures Run(s, c).Returned?
    ensures var t := Run(s, c).state;
      && Valid(t)
      && t.active.None?
      && t.total == 25_000_000
      && outer in t.registry && inner in t.registry
      && t.registry[outer].ncalls == 1 && t.registry[outer].time == 25_000_000
      && t.registry[inner].ncalls == 2 && t.registry[inner].time == 20_000_000
      && t.groups == map[outer := {outer, inner}]
      && t.order == [outer]
  {
    var t := Run(s, c).state;
    RootCycle(s, c);
    assert t.registry[outer].ncalls == 1 && t.registry[outer].time == 25_000_000;
    assert t.registry[inner].ncalls == 2 && t.registry[inner].time == 20_000_000;
    assert t.groups == map[outer := {outer, inner}];
    assert t.order == [outer];
    RunPreservesValid(s, c);
    OneGroupRenders(t, outer, inner);
  }

  /** The cycle of `OuterCallsInnerTwice` from any profiler shaped like a freshly wrapped one. */
  lemma {:induction false} OuterCallsInnerTwiceFrom(s: State, outer: Identity, inner: Identity)
    requires outer != inner
    requires Valid(s) && s.active.None?
    requires s.registry.Keys == {outer, inner}
    requires s.registry[outer].ncalls == 0 && s.registry[outer].time == 0
    requires s.registry[inner].ncalls == 0 && s.registry[inner].time == 0
    requires s.groups == map[] && s.order == [] && s.total == 0
    ensures var c := OuterCallsInnerTwice(outer, inner);
      && Ids(c) <= s.registry.Keys
      && Run(s, c).Returned?
      && var t := Run(s, c).state;
      && Valid(t)
      && t.active.None?
      && t.total == 25_000_000
      && outer in t.registry && inner in t.registry
      && t.registry[outer].ncalls == 1 && t.registry[outer].time == 25_000_000
      && t.registry[inner].ncalls == 2 && t.registry[inner].time == 20_000_000
      && t.groups == map[outer := {outer, inner}]
      && t.order == [outer]
  {
    OuterCallsInnerTwiceTotals(outer, inner);
    TwoCallableCycle(s, OuterCallsInnerTwice(outer, inner), outer, inner);
  }

  /**
   After the cycle, which returns whether or not realtime reports are on,
   `inner` has two calls and 20 ms, `outer` one call and 25 ms, the grand
   total is 25 ms, the root slot is free again, and the only group is
   `outer`'s, holding both identities.
   */
  lemma {:induction false} OuterCallsInnerTwiceCycle(outer: Identity, inner: Identity, realtime: bool)
    requires outer != inner
    ensures var s := Wrapped(outer, inner, realtime);
      var c := OuterCallsInnerTwice(outer, inner);
      && Ids(c) <= s.registry.Keys
      && Run(s, c).Returned?
      && var t := Run(s, c).state;
      && Valid(t)
      && t.active.None?
      && t.total == 25_000_000
      && outer in t.registry && inner in t.registry
      && t.registry[outer].ncalls == 1 && t.registry[outer].time == 25_000_000
      && t.registry[inner].ncalls == 2 && t.registry[inner].time == 20_000_000
      && t.groups == map[outer := {outer, inner}]
      && t.order == [outer]
  {
    WrappedFacts(outer, inner, realtime);
    OuterCallsInnerTwiceFrom(Wrapped(outer, inner, realtime), outer, inner);
  }

  /**
   The report for that state: one section for `outer` with a single line,
   for `inner`, at 80 percent of the root's time and 10 ms per call.
   */
  lemma {:induction false} OuterCallsInnerTwiceReport(t: State, outer: Identity, inner: Identity)
    requires Valid(t)
    requires outer != inner
    requires t.total == 25_000_000
    requires outer in t.registry && inner in t.registry
    requires t.registry[outer].ncalls == 1 && t.registry[outer].time == 25_000_000
    requires t.registry[inner].ncalls == 2 && t.registry[inner].time == 20_000_000
    requires t.groups == map[outer := {outer, inner}]
    requires t.order == [outer]
    ensures var r := Render(t);
      && r.Success?
      && |r.value.sections| == 1
      && r.value.sections[0].root == outer
      && r.value.sections[0].rows.Keys == {inner}
      && r.value.sections[0].rows[inner].ncalls == 2
      && r.value.sections[0].rows[inner].percent == 80.0
      && r.value.sections[0].rows[inner].perCall == 10_000_000.0
      && r.value.sections[0].ncalls == 1
      && r.value.total == 25_000_000
  {
  }

  /**
   The state just before the innermost "leave" of `RecursionBreaksLiveReport`:
   `r` is the root and `a`, which has never completed a call, is in its
   group, so the report that "leave" prints raises.
   */
  lemma {:induction false} InnermostLeaveRaises(s: State, r: Identity, a: Identity)
    requires Valid(s)
    requires s.realtime && s.active.None?
    requires r != a && r in s.registry && a in s.registry
    requires s.registry[a].ncalls == 0
    ensures var s3 := Enter(Enter(Enter(s, r).0, a).0, r).0;
      && Tracked(s3)
      && LeaveHook(s3, r, 1) == Raised(Leave(s3, r, 1))
      && s3.registry == s.registry
  {
    var s1 := Enter(s, r).0;
    var s2 := Enter(s1, a).0;
    var s3 := Enter(s2, r).0;
    EnterPreservesValid(s, r);
    EnterPreservesValid(s1, a);
    EnterPreservesValid(s2, r);
    assert s3.active == Some(r);
    var t := Leave(s3, r, 1);
    LeavePreservesValid(s3, r, 1);
    assert a in t.groups[r] && !Printable(t.registry, a);
    assert !SectionPrintable(t.registry, r, t.groups[r]);
  }

  /**
   With realtime reports on, a root `r` that calls `a` which calls `r`
   again: the innermost "leave" of `r` finds `r` in the root slot and prints
   the report while `a` has not returned yet; if `a` had no completed call
   before, that report raises (its per-call average divides by zero). The
   raise escapes both enclosing wrappers, so neither `a` nor the outer `r`
   is ever counted, and the root slot is left empty.
   */
  lemma {:induction false} RecursionBreaksLiveReport(s: State, r: Identity, a: Identity)
    requires Valid(s)
    requires s.realtime && s.active.None?
    requires r != a && r in s.registry && a in s.registry
    requires s.registry[a].ncalls == 0
    ensures var c := Call(r, 0, [Call(a, 1, [Call(r, 2, [], 3)], 4)], 5);
      && Ids(c) <= s.registry.Keys
      && Run(s, c).Raised?
      && Run(s, c).state.active.None?
      && Run(s, c).state.registry[a] == s.registry[a]
      && Run(s, c).state.registry[r].ncalls == s.registry[r].ncalls + 1
  {
    var innermost := Call(r, 2, [], 3);
    var middle := Call(a, 1, [innermost], 4);
    var c := Call(r, 0, [middle], 5);
    assert Ids(innermost) == {r};
    assert IdsAll([innermost]) == {r} by { assert [innermost][1..] == []; }
    assert Ids(middle) == {a, r};
    assert IdsAll([middle]) == {a, r} by { assert [middle][1..] == []; }
    var s1 := Enter(s, r).0;
    var s2 := Enter(s1, a).0;
    var s3 := Enter(s2, r).0;
    InnermostLeaveRaises(s, r, a);
    var t := Leave(s3, r, 1);
    assert Run(s2, innermost) == Raised(t);
    assert RunAll(s2, [innermost]) == Raised(t);
    assert Run(s1, middle) == Raised(t);
    assert RunAll(s1, [middle]) == Raised(t);
    assert Run(s, c) == Raised(t);
  }
}
