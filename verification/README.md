# timer-module in Dafny

A model of the two state machines of the `timer-module` Python package:

- the **call-tree profiler** (`TimeProfilerBase` in `timer_module/profiler.py`): a registry of
  per-callable statistics (`ObjectCall`), a single "primary call" slot `_pcall_hash` naming the
  root of the call chain in progress, a map from each root to the identities entered beneath it
  (`_prof_timing_refs`), and a grand total. Every wrapped call "enters" (`_set_pcall_hash`), runs,
  and "leaves" (`_append_object_profiling`); the first call entered with no active root becomes the
  root, and the root's own leave closes the cycle. The report (`_print_profiling_report`) is
  modelled as data: one section per root, one line per non-root member with its share of the
  root's time and its per-call average, and the unit `_format_time` chooses;
- the **pause/resume timer** (`TimerModule` in `timer_module.py`), whose elapsed time is derived
  from lists of start and pause timestamps by `_calculate_time`.

The wall clock is an explicit input: the profiler's call trees carry the two `time_ns()`
readings the wrapper takes, and every timer operation takes its clock reading `now`.

Files:

- `wrappers.dfy` — `Option` and `Result`.
- `profiler.dfy` — module `Profiler`: `CallRecord`, `State`, the invariant `Valid`, and the
  transitions `Init`, `Construct`, `Register`, `Enter`, `Leave`.
- `calltree.dfy` — module `CallTree`: "leave" together with the realtime report it may print
  (`LeaveHook`), the wrapper's enter/run/leave composition over a tree of synchronous calls
  (`Run`), the same as a flat enter/leave trace (`Replay`), and the theorems about whole cycles.
  Every run ends in an `Outcome`: it returns, or it raises and leaves the state as it was at the
  raise.
- `report.dfy` — module `Report`: percentage, per-call average, unit choice, and rendering.
- `scenarios.dfy` — module `Scenarios`: a root calling a helper twice, and a realtime report
  broken by recursion.
- `stopwatch.dfy` — module `Stopwatch`: the timer, its `TimerBase` helpers (`ResetIntervals`,
  `AppendStart`, `AppendPause`, `RefreshStarts`, `ClearPauses`, `SumIntervals`, `LastInterval`,
  `CalculateTime`), the public operations, and a reference stopwatch every sequence of
  operations is proved to agree with.

Behaviour of the code the model keeps:

- `_add_object_ref` always stores a fresh record, so registering an identity again discards its
  statistics (`Profiler.Register`).
- Entering with no active root always replaces that root's group with a fresh set, even when the
  root has a group from an earlier cycle (`Profiler.Enter`).
- `_set_pcall_hash` returns the caller's own identity.
- In realtime mode the "leave" that completes a root cycle prints the report after updating the
  record, the total and the root slot. The wrappers have no `try`/`finally`, so when that report
  raises, the exception passes through every enclosing wrapper and none of their "leave" steps
  happen (`CallTree.LeaveHook`, `CallTree.Run`).
- The per-call average divides by the call count with no guard, so rendering raises for a member
  or root with no completed call (`Report.Render` returns `Failure`).
- Rendering reads the statistics and changes nothing.
- `set_time` stores its argument directly in the millisecond field, although the parameter is
  named `time_sec`; `get_time` right after `set_time(v)` returns v / 1000
  (`Stopwatch.SetThenGetSeconds`). The model keeps the code's unit: `SetTime` takes milliseconds.

Two consequences of the code that the proofs make explicit:

- Direct recursion releases the root early: after enter(r), enter(r), leave(r) the root slot is
  empty while the outer call of `r` is still running, only the inner duration reaches the grand
  total, and the next call the outer one makes starts a group of its own.
- In every timer state the public operations reach, a running timer has exactly one start and no
  pause (`Stopwatch.Consistent`), so the interval-summing branch of `_calculate_time` is never
  taken; paused time is excluded because `start_time` re-bases the single start on `current`.
  On records where starts and pauses do alternate, that branch would compute the sum of the
  running spans (`Stopwatch.CalculateTimeSumsSpans`).

## Model

| member | source | states |
|---|---|---|
| `Profiler.Init` | timer_module/profiler.py:30-37 | the first construction gives an empty registry, no root, no groups, total 0, and the profiler invariant holds |
| `Profiler.Construct` | timer_module/profiler.py:27-37 | constructing again returns the same singleton data and only overwrites the realtime flag |
| `Profiler.Register` | timer_module/profiler.py:161-165 | the identity gets a record with the callable's name, time 0 and 0 calls, replacing any earlier record (statistics are reset); every other record and the tracker are unchanged |
| `Profiler.Enter` | timer_module/profiler.py:148-159 | with no root the caller becomes root and its group is exactly itself, replacing an older group, a new root going last in report order; with a root active the root stays and gains the caller as member; the caller's own identity is returned; registry and total untouched |
| `Profiler.Leave` | timer_module/profiler.py:52-63 | the caller's record gains the duration and exactly one call, no other record changes; when the caller is the active root the total gains the duration and the slot is cleared, otherwise total and slot are unchanged; requires the caller to be registered |
| `Profiler.RegisterPreservesValid` | timer_module/profiler.py:161-165 | registration keeps the profiler invariant (root has a group, order lists each group once, every root and member registered, no calls means no time) |
| `Profiler.EnterPreservesValid` | timer_module/profiler.py:148-159 | entering a registered identity keeps the profiler invariant, including distinctness of the report order |
| `Profiler.LeavePreservesValid` | timer_module/profiler.py:52-63 | leaving keeps the profiler invariant |
| `Profiler.LeavePrintsReportAtCycleEnd` | timer_module/profiler.py:60-66 | "leave" prints the report exactly when realtime mode is on and this leave empties an occupied root slot |
| `CallTree.LeaveHook` | timer_module/profiler.py:52-66 | "leave" raises with the state untouched for an unregistered identity; otherwise it leaves the updated state, and it raises exactly when it completes a root cycle in realtime mode and the report of the updated state cannot be printed |
| `CallTree.Run` | timer_module/profiler.py:218-224 | the wrapped call (enter, nested calls, leave with the elapsed time, a raise in a nested call skipping this leave) keeps the set of registered identities, the realtime flag, and an active root owning a group |
| `CallTree.RunAll` | timer_module/profiler.py:221 | the nested calls of a callee, run one after another up to the first raise, keep the registered identities, the flag and the root-has-group fact |
| `CallTree.QuietRunReturns` | timer_module/profiler.py:65-66 | without realtime reports a call tree over registered identities never raises |
| `CallTree.QuietRunAllReturns` | timer_module/profiler.py:65-66 | the same for a sequence of calls |
| `CallTree.RunCounts` | timer_module/profiler.py:52-58 | when a call tree returns, every registered identity's record has gained exactly its number of invocations in the tree and their summed durations, whatever the root slot held; when it raises, at most that many calls; the name is kept either way |
| `CallTree.RunAllCounts` | timer_module/profiler.py:52-58 | the same count and time accounting for a sequence of calls |
| `CallTree.ReRegisterDiscardsStatistics` | timer_module/profiler.py:161-165 | registering an identity again after a cycle in which it was invoked resets its call count to 0: the statistics of that cycle do not survive registration |
| `CallTree.RunPreservesValid` | timer_module/profiler.py:218-224 | a call tree over registered identities keeps the profiler invariant, whether it returns or raises |
| `CallTree.RunAllPreservesValid` | timer_module/profiler.py:218-224 | a sequence of calls keeps the profiler invariant |
| `CallTree.NestedRun` | timer_module/profiler.py:148-159 | a call made under active root r that never invokes r returns, keeps r active and the total unchanged, and adds exactly its invoked identities to r's group, no other group changing |
| `CallTree.NestedRunAll` | timer_module/profiler.py:148-159 | the same for a sequence of nested calls |
| `CallTree.RootCycle` | timer_module/profiler.py:52-66 | a call entered with no root, not invoking itself, ends with the slot empty, the total increased by its own duration, its group replaced by exactly the identities of its tree, and every record increased by exactly its calls and durations in the tree, whether or not the report raises; it raises exactly when realtime reports are on and the report of that final state cannot be printed |
| `CallTree.RootCycleCounts` | timer_module/profiler.py:52-66 | over such a root cycle one record gains exactly its invocations and their durations, since the report runs after every update |
| `CallTree.Step` | timer_module/profiler.py:52-66 | one hook invocation raises exactly when it is a leave of an unregistered identity, or a leave that prints a realtime report which cannot be printed; registered identities and the flag are kept |
| `CallTree.Replay` | timer_module/profiler.py:218-224 | a trace of hook invocations keeps the registered identities and the tracked facts, and without realtime reports a trace whose every leave is of a registered identity never raises |
| `CallTree.RunIsReplay` | timer_module/profiler.py:218-224 | running a call tree ends exactly as replaying its enter/leave events in order, including where a report raises and the rest of the trace never happens |
| `CallTree.RunAllIsReplay` | timer_module/profiler.py:218-224 | the same for a sequence of calls |
| `CallTree.DirectRecursionReleasesRootEarly` | timer_module/profiler.py:60-63 | after enter(r), enter(r), leave(r) from no root the slot is empty although the outer r is still running, and, unless that leave's report raised, the next call entered becomes a root whose group is only itself |
| `CallTree.DirectRecursionEvents` | timer_module/profiler.py:218-224 | r calling itself once produces enter(r), enter(r), leave(r) with the inner duration, leave(r) with the outer duration |
| `CallTree.DirectRecursionCountsInnerOnly` | timer_module/profiler.py:60-66 | for r calling itself once, the total gains only the inner duration; r's record counts both calls and both durations, or only the inner one when the report printed at the inner leave raised |
| `Report.Percentage` | timer_module/profiler.py:120-122 | the share is 0 when the member's or the root's time is 0, and otherwise is the unique p with p × root = member × 100 |
| `Report.PercentageBounds` | timer_module/profiler.py:120-122 | a member no longer than its root gets a share from 0 to 100, and exactly 100 when the times are equal and non-zero |
| `Report.PerCall` | timer_module/profiler.py:114-115 | the average times the call count is the time, and it lies between 0 and the time for a non-negative time; defined only for a positive call count |
| `Report.FormatTime` | timer_module/profiler.py:168-182 | the shown amount times the unit's size is the duration, and the amount is at least 1 unless in ns and below 1000 unless in s |
| `Report.FormatTimeUnitUnique` | timer_module/profiler.py:168-182 | the unit chosen is the only unit whose amount lies in that range |
| `Report.FormatTimeMonotone` | timer_module/profiler.py:168-182 | a longer duration never gets a smaller unit |
| `Report.RowOf` | timer_module/profiler.py:110-128 | a member line carries the member's name, time and call count, a share that is 0 when the member's or the root's time is 0 and otherwise satisfies share × root time = time × 100, and an average with average × calls = time |
| `Report.SectionOf` | timer_module/profiler.py:133-143 | a root's section prints without raising exactly when the root and every other member are registered with at least one call; it then lists every member except the root, each line derived from the root's time, and closes with the root's time, calls and average |
| `Report.Sections` | timer_module/profiler.py:133-143 | the sections follow the roots' dictionary order one for one, and the report raises exactly when some root's section would |
| `Report.Render` | timer_module/profiler.py:130-146 | the report succeeds exactly when the group of every root in the report order is printable (on a valid state: every group); it then has, in insertion order, one section per root that is exactly that root's section, listing the group minus its root, and the grand total |
| `Scenarios.TwoCallableCycle` | timer_module/profiler.py:52-66 | a root cycle over two empty records with the tree's counts returns even in realtime mode, since the final report sees both records with calls, and leaves the stated counts, total and single group |
| `Scenarios.OuterCallsInnerTwiceFrom` | timer_module/profiler.py:215-226 | from any idle profiler, realtime or not, whose only records are outer and inner with no calls, the cycle returns with inner at 2 calls and 20 ms, outer at 1 call and 25 ms, total 25 ms and the single group {outer, inner} |
| `Scenarios.OuterCallsInnerTwiceCycle` | timer_module/profiler.py:215-226 | with realtime reports on or off, outer (25 ms) calling inner twice (10 ms each) returns and gives inner 2 calls and 20 ms, outer 1 call and 25 ms, total 25 ms, an empty slot and the single group {outer, inner} |
| `Scenarios.OuterCallsInnerTwiceReport` | timer_module/profiler.py:130-146 | the report of that state has one section for outer with one line, inner at 80 percent and 10 ms per call |
| `Scenarios.InnermostLeaveRaises` | timer_module/profiler.py:60-66 | in realtime mode, after enter(r), enter(a), enter(r) with a never completed, the leave of r raises from its report |
| `Scenarios.RecursionBreaksLiveReport` | timer_module/profiler.py:215-226 | in realtime mode r calling a calling r raises out of the whole tree from the inner leave of r's report when a had no completed call: a keeps its record, r gains one call, and the slot is empty |
| `Stopwatch.ResetIntervals` | timer_module.py:10-12 | both interval lists are emptied; the running flag and current time are kept |
| `Stopwatch.AppendStart` | timer_module.py:18-20 | one start is appended after the kept earlier ones, placed so that the time since it is the given difference |
| `Stopwatch.AppendPause` | timer_module.py:22-24 | one pause at the clock reading is appended after the kept earlier ones |
| `Stopwatch.RefreshStarts` | timer_module.py:26-28 | the starts become a single start placed so that the time since it is the current time |
| `Stopwatch.ClearPauses` | timer_module.py:30-31 | only the pause list is emptied |
| `Stopwatch.SumIntervals` | timer_module.py:33-38 | no pair gives 0, and pairs whose pause is no earlier than its start give a non-negative sum |
| `Stopwatch.LastInterval` | timer_module.py:40-41 | the last start plus the result is the clock reading |
| `Stopwatch.SumIntervalsAppend` | timer_module.py:33-38 | pairing one more start with one more pause adds exactly that run's length, and an unpaired trailing start adds nothing |
| `Stopwatch.SumIntervalsIsSpans` | timer_module.py:33-38 | summing the pairs front to back equals the running spans built from the latest entry back, when starts and pauses are paired one for one |
| `Stopwatch.CalculateTimeSumsSpans` | timer_module.py:43-60 | on a running timer whose starts and pauses alternate, the folded current time is the total of the running spans, the open one measured to the clock reading |
| `Stopwatch.CalculateTime` | timer_module.py:43-60 | a stopped timer is unchanged; a running one with no pauses reads now minus its last start and keeps that start as its only start; otherwise pauses are cleared and the single start is placed current ms before now |
| `Stopwatch.Start` | timer_module.py:67-73 | the timer runs afterwards; a running timer is unchanged; from a consistent timer the elapsed time at the instant of starting is unchanged |
| `Stopwatch.Pause` | timer_module.py:75-80 | the timer is stopped afterwards; a stopped timer is unchanged; from a consistent timer the frozen time equals the elapsed time at the pause |
| `Stopwatch.Reset` | timer_module.py:82-87 | the timer is stopped at 0 with both interval lists empty and reads 0 at every clock reading |
| `Stopwatch.Refresh` | timer_module.py:89-92 | the timer is running, consistent, and reads 0 at the refresh |
| `Stopwatch.SetTime` | timer_module.py:94-98 | running or stopped is kept, and a consistent timer reads the set value, taken as milliseconds, at that clock reading |
| `Stopwatch.SetThenGetSeconds` | timer_module.py:94-103 | reading in seconds right after setting v gives v / 1000: the argument of `set_time` is a millisecond count |
| `Stopwatch.GetTimeMs` | timer_module.py:105-107 | a stopped timer returns its frozen time and is unchanged; a consistent timer returns its reading and afterwards shows the same time at every later clock reading |
| `Stopwatch.GetTime` | timer_module.py:100-103 | the read in seconds is the read in milliseconds divided by 1000, with the same effect on the timer |
| `Stopwatch.ReadingAdvances` | timer_module.py:57-60 | a running timer's reading grows exactly as much as the clock; a stopped one is frozen |
| `Stopwatch.PausedSpanExcluded` | timer_module.py:67-80 | start at s, pause at p, start at q, read at r gives (p − s) + (r − q) |
| `Stopwatch.SetThenGet` | timer_module.py:94-98 | setting a value and reading at the same clock reading returns that value, running or stopped |
| `Stopwatch.FreshSimulates` | timer_module.py:63-65 | a new timer agrees with a stopped reference stopwatch at 0 |
| `Stopwatch.ApplySimulates` | timer_module.py:67-107 | each public operation moves the timer and the reference stopwatch in step and returns the same reading |
| `Stopwatch.ExecMatchesSpec` | timer_module.py:67-107 | over every sequence of operations the timer returns exactly what the reference stopwatch returns: the sum of the running spans, never counting paused time |

## Left out

- Identity hashing (`hash_type_id`, SHA-1 of `str(obj)`): identities are opaque keys supplied by
  the caller.
- Class wrapping (`_class_wrapper`, `_get_method_wrapper`, `_set_attribute`): it relies on
  reflection over members and rebinding attributes; its bookkeeping is the same enter/leave pair.
  Its `__new__` registers the members of every new instance. The identity hashes `str(member)`,
  which for a bound method names the instance, so each instance's methods usually get identities
  of their own; only members whose text is the same for every instance (plain functions found on
  the instance, or a class with a fixed `__repr__`) reuse an identity, and then by
  `Profiler.Register` their statistics are reset.
- The async wrapper (`_async_function_wrapper`): its bookkeeping is identical to the synchronous
  one; suspension and interleaving of several chains are concurrency and are not modelled.
- Exceptions raised by a wrapped callee: the source then skips "leave"; call trees model only
  callees that return (the only raise modelled is the realtime report's, inside "leave").
- Printing: `__del__`'s end-of-process report, the header and separator text, and the `.2f`
  formatting; the report is modelled as data, and `Report.Suffix` gives the unit text.
- Real clocks: `time_ns()` and `time.time_ns() / 1_000_000` become parameters; floating-point
  rounding is not modelled (reals are exact).
- The class-level list defaults of `TimerBase`, shared between instances by Python's aliasing; each
  `Timer` value owns its lists.
- `setup.py`: packaging only.
- Stopwatch.CalculateTime, Stopwatch.Pause, Stopwatch.SetTime, Stopwatch.GetTimeMs,
  Stopwatch.GetTime: the source takes a fresh clock reading in every `_get_timestamp` call, so one
  operation may read the clock several times (`pause_time` on a running timer three times,
  `set_time` up to three, `_calculate_time` and the two reads two); the model uses one reading
  `now` for all of them. The readings differ only by the time between consecutive statements, but
  that gap is lost for good: on a running timer `_calculate_time` measures up to one reading
  (line 58) and then re-bases the start on a later one (line 19), so each such operation drops the
  time between the two from the elapsed total. `GetTimeMs`'s "same time at every later clock
  reading" and `ExecMatchesSpec` hold exactly only with one reading per operation; in the source
  the timer falls behind the reference stopwatch by that gap at every fold.
- Stopwatch.CalculateTime: its own contract leaves `current` open in the interval-summing branch;
  `Stopwatch.CalculateTimeSumsSpans` gives its value when starts and pauses alternate, and no timer
  the public operations reach takes that branch. Records with more pauses than starts, or two or
  more unpaired starts, are not given a meaning.
- CallTree.RunCounts, CallTree.RunAllCounts: exact counts and times are stated for runs that
  return and, by `CallTree.RootCycle`, for every root cycle that does not re-invoke its root,
  raised or not. For a run a realtime report aborted part-way, which needs the root to be
  invoked again inside its own tree, only bounds on the call count are stated, because which
  "leave" steps happened depends on where in the tree that inner "leave" of the root sits.
- CallTree.ReRegisterDiscardsStatistics: the count the cycle recorded is stated for cycles that
  return; for one a realtime report aborted only the reset to 0 is stated.
- Stopwatch.Start: the elapsed-time guarantees of the stopwatch operations are stated for consistent
  timers (every timer the public operations reach), not for arbitrary field values.
- Report.Render: does not say whether rendering raised a `KeyError` or a `ZeroDivisionError`,
  because which comes first depends on the iteration order of a Python set.
- Report.SectionOf: member lines are a map, not a sequence, because their printing order is the
  iteration order of a Python set.
