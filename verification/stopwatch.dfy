/**
 The pause/resume timer of timer_module.py (`TimerBase` and `TimerModule`).
 Timestamps are milliseconds as reals (the source divides `time_ns()` by
 10^6 in floating point); every operation takes the one clock reading it
 uses as the parameter `now`.
 */
module Stopwatch {

  /**
   The timer's fields: `_running`, `_current_time` (milliseconds),
   `_start_intervals` and `_pause_intervals`.
   */
  datatype Timer = Timer(running: bool, current: real, starts: seq<real>, pauses: seq<real>)

  /** A newly constructed `TimerModule`. */
  const Fresh: Timer := Timer(false, 0.0, [], [])

  /** `_reset_intervals`: forgets every recorded start and pause. */
  function ResetIntervals(t: Timer): (u: Timer)
    ensures u.starts == [] && u.pauses == []
    ensures u.running == t.running && u.current == t.current
  {
    t.(starts := [], pauses := [])
  }

  /**
   `_append_start_interval(diff)`: records one more start, placed so that
   `now` is `diff` ms after it; earlier starts are kept.
   */
  function AppendStart(t: Timer, now: real, diff: real): (u: Timer)
    ensures |u.starts| == |t.starts| + 1 && u.starts[..|t.starts|] == t.starts
    ensures LastInterval(u, now) == diff
    ensures u.running == t.running && u.current == t.current && u.pauses == t.pauses
  {
    t.(starts := t.starts + [now - diff])
  }

  /** `_append_pause_interval`: records a pause at `now`; earlier pauses are kept. */
  function AppendPause(t: Timer, now: real): (u: Timer)
    ensures |u.pauses| == |t.pauses| + 1 && u.pauses[..|t.pauses|] == t.pauses
    ensures u.pauses[|t.pauses|] == now
    ensures u.running == t.running && u.current == t.current && u.starts == t.starts
  {
    t.(pauses := t.pauses + [now])
  }

  /** `_refresh_start_intervals`: a single start placed so that `now` is `current` ms after it. */
  function RefreshStarts(t: Timer, now: real): (u: Timer)
    ensures |u.starts| == 1 && LastInterval(u, now) == t.current
    ensures u.running == t.running && u.current == t.current && u.pauses == t.pauses
  {
    AppendStart(t.(starts := []), now, t.current)
  }

  /** `_clear_pause_intervals`: forgets the recorded pauses only. */
  function ClearPauses(t: Timer): (u: Timer)
    ensures u.pauses == []
    ensures u.running == t.running && u.current == t.current && u.starts == t.starts
  {
    t.(pauses := [])
  }

  /**
   `_calculate_intervals`: the sum of `pause - start` over the pairs `zip`
   forms, which stops at the shorter list. No pair, no time; and when every
   pause comes no earlier than the start it is paired with, the sum is not
   negative.
   */
  function SumIntervals(pauses: seq<real>, starts: seq<real>): (r: real)
    ensures pauses == [] || starts == [] ==> r == 0.0
    ensures (forall i :: 0 <= i < |pauses| && i < |starts| ==> starts[i] <= pauses[i]) ==> 0.0 <= r
    decreases |pauses|
  {
    if pauses == [] || starts == [] then 0.0
    else
      assert forall i :: 0 <= i < |pauses| - 1 && i < |starts| - 1 ==>
        pauses[1..][i] == pauses[i + 1] && starts[1..][i] == starts[i + 1];
      (pauses[0] - starts[0]) + SumIntervals(pauses[1..], starts[1..])
  }

  /**
   Each completed run counts once: pairing one more start with one more
   pause adds exactly that run's length, and an unpaired trailing start
   contributes nothing to the sum.
   */
  lemma {:induction false} SumIntervalsAppend(pauses: seq<real>, starts: seq<real>, p: real, s: real)
    requires |pauses| == |starts|
    ensures SumIntervals(pauses + [p], starts + [s]) == SumIntervals(pauses, starts) + (p - s)
    ensures SumIntervals(pauses, starts + [s]) == SumIntervals(pauses, starts)
    decreases |pauses|
  {
    if pauses == [] {
      assert (pauses + [p])[1..] == [];
      assert (starts + [s])[1..] == [];
    } else {
      assert (pauses + [p])[1..] == pauses[1..] + [p];
      assert (starts + [s])[1..] == starts[1..] + [s];
      SumIntervalsAppend(pauses[1..], starts[1..], p, s);
    }
  }

  /** `_get_last_interval`: the time since the last recorded start. */
  function LastInterval(t: Timer, now: real): (r: real)
    requires t.starts != []
    ensures t.starts[|t.starts| - 1] + r == now
  {
    now - t.starts[|t.starts| - 1]
  }

  /**
   `_calculate_time`: does nothing unless running. Otherwise folds the
   recorded intervals (or, without pauses, the time since the last start)
   into `current` and re-bases the start list on it.
   */
  function CalculateTime(t: Timer, now: real): (u: Timer)
    ensures u.running == t.running
    ensures !t.running || t.starts == [] ==> u == t
    ensures t.running && t.starts != [] && t.pauses == [] ==>
      && u.current == LastInterval(t, now)
      && u.starts == [t.starts[|t.starts| - 1]]
      && u.pauses == []
    ensures t.running && t.starts != [] ==> u.starts == [now - u.current] && u.pauses == []
  {
    if !t.running then t
    else if t.starts != [] && t.pauses != [] then
      var diff := SumIntervals(t.pauses, t.starts);
      var total := if |t.pauses| != |t.starts| then diff + LastInterval(t, now) else diff;
      ClearPauses(RefreshStarts(t.(current := total), now))
    else if t.starts != [] && t.pauses == [] then
      RefreshStarts(t.(current := LastInterval(t, now)), now)
    else t
  }

  /**
   The running time an alternating record of starts and pauses describes,
   built from the most recent entry backwards: each start paired with the
   pause at the same position, and a trailing unpaired start running until
   `now`.
   */
  function Spans(starts: seq<real>, pauses: seq<real>, now: real): real
    requires |pauses| <= |starts| <= |pauses| + 1
    decreases |starts|
  {
    if starts == [] then 0.0
    else if |starts| == |pauses| then
      Spans(starts[..|starts| - 1], pauses[..|pauses| - 1], now) + (pauses[|pauses| - 1] - starts[|starts| - 1])
    else
      Spans(starts[..|starts| - 1], pauses, now) + (now - starts[|starts| - 1])
  }

  /** Summing the pairs front to back agrees with the running spans when every start has its pause. */
  lemma {:induction false} SumIntervalsIsSpans(pauses: seq<real>, starts: seq<real>, now: real)
    requires |pauses| == |starts|
    ensures SumIntervals(pauses, starts) == Spans(starts, pauses, now)
    decreases |starts|
  {
    if starts != [] {
      var n := |starts|;
      SumIntervalsIsSpans(pauses[..n - 1], starts[..n - 1], now);
      SumIntervalsAppend(pauses[..n - 1], starts[..n - 1], pauses[n - 1], starts[n - 1]);
      assert pauses[..n - 1] + [pauses[n - 1]] == pauses;
      assert starts[..n - 1] + [starts[n - 1]] == starts;
    }
  }

  /**
   On a running timer whose starts and pauses alternate (one more start than
   pauses while a run is open), `_calculate_time` sets `current` to the total
   of the running spans, the open one measured up to `now`, in both of its
   folding branches.
   */
  lemma {:induction false} CalculateTimeSumsSpans(t: Timer, now: real)
    requires t.running && t.starts != []
    requires |t.pauses| <= |t.starts| <= |t.pauses| + 1
    ensures CalculateTime(t, now).current == Spans(t.starts, t.pauses, now)
  {
    var n := |t.starts|;
    var u := CalculateTime(t, now);
    if t.pauses == [] {
      assert n == 1 && t.starts[..0] == [];
      assert u.current == now - t.starts[0];
      assert Spans(t.starts, t.pauses, now) == Spans([], [], now) + (now - t.starts[0]);
    } else if |t.pauses| == n {
      assert u.current == SumIntervals(t.pauses, t.starts);
      SumIntervalsIsSpans(t.pauses, t.starts, now);
    } else {
      var front := t.starts[..n - 1];
      assert u.current == SumIntervals(t.pauses, t.starts) + LastInterval(t, now);
      SumIntervalsIsSpans(t.pauses, front, now);
      SumIntervalsAppend(t.pauses, front, 0.0, t.starts[n - 1]);
      assert front + [t.starts[n - 1]] == t.starts;
      assert Spans(t.starts, t.pauses, now) == Spans(front, t.pauses, now) + (now - t.starts[n - 1]);
    }
  }

  /**
   The shape every timer reached through the public operations has: while
   running there is exactly one start and no pause. (So the interval-summing
   branch of `_calculate_time` is never taken from such a state.)
   */
  predicate Consistent(t: Timer) {
    t.running ==> |t.starts| == 1 && t.pauses == []
  }

  /** The elapsed milliseconds a consistent timer shows at clock reading `now`. */
  function Reading(t: Timer, now: real): real
    requires Consistent(t)
  {
    if t.running then now - t.starts[0] else t.current
  }

  /** `start_time`: on a stopped timer, one start placed `current` ms back; then running. */
  function Start(t: Timer, now: real): (u: Timer)
    ensures u.running
    ensures t.running ==> u == t
    ensures Consistent(t) ==> Consistent(u) && Reading(u, now) == Reading(t, now)
  {
    var u := if !t.running then CalculateTime(AppendStart(ResetIntervals(t), now, t.current), now) else t;
    u.(running := true)
  }

  /** `pause_time`: on a running timer, brings `current` up to date and records the pause. */
  function Pause(t: Timer, now: real): (u: Timer)
    ensures !u.running
    ensures !t.running ==> u == t
    ensures Consistent(t) ==> Consistent(u) && Reading(u, now) == Reading(t, now)
  {
    var u := if t.running then AppendPause(CalculateTime(t, now), now) else t;
    u.(running := false)
  }

  /** `reset_time`. */
  function Reset(t: Timer): (u: Timer)
    ensures u == Fresh
    ensures Consistent(u) && forall now :: Reading(u, now) == 0.0
  {
    t.(current := 0.0, running := false, starts := [], pauses := [])
  }

  /** `refresh_time`: reset, then start at once. */
  function Refresh(t: Timer, now: real): (u: Timer)
    ensures u.running && Consistent(u)
    ensures Reading(u, now) == 0.0
  {
    Start(Reset(t), now)
  }

  /**
   `set_time(value)`: the timer shows `value` ms now (the argument goes
   straight into the millisecond field), and keeps running or stays stopped.
   */
  function SetTime(t: Timer, now: real, value: real): (u: Timer)
    ensures u.running == t.running
    ensures Consistent(t) ==> Consistent(u) && Reading(u, now) == value
  {
    CalculateTime(AppendStart(t.(current := value), now, value), now)
  }

  /**
   `get_time_ms`: the elapsed milliseconds. On a consistent timer the read
   returns the reading and leaves the timer showing the same time at every
   later clock reading; on a stopped timer it changes nothing at all.
   */
  function GetTimeMs(t: Timer, now: real): (res: (Timer, real))
    ensures !t.running ==> res.0 == t && res.1 == t.current
    ensures Consistent(t) ==>
      && res.1 == Reading(t, now)
      && Consistent(res.0)
      && res.0.running == t.running
      && forall later :: Reading(res.0, later) == Reading(t, later)
  {
    var u := CalculateTime(t, now);
    (u, u.current)
  }

  /** `get_time`: the same read, in seconds. */
  function GetTime(t: Timer, now: real): (res: (Timer, real))
    ensures res.0 == GetTimeMs(t, now).0
    ensures res.1 * 1000.0 == GetTimeMs(t, now).1
  {
    var u := CalculateTime(t, now);
    (u, u.current / 1000.0)
  }

  /** While running, the reading grows exactly with the clock; while stopped it is frozen. */
  lemma ReadingAdvances(t: Timer, a: real, b: real)
    requires Consistent(t)
    ensures t.running ==> Reading(t, b) == Reading(t, a) + (b - a)
    ensures !t.running ==> Reading(t, b) == Reading(t, a)
  {
  }

  /**
   Paused time is excluded: start at `s`, pause at `p`, start again at `q`
   and read at `r` gives `(p - s) + (r - q)`.
   */
  lemma PausedSpanExcluded(s: real, p: real, q: real, r: real)
    ensures GetTimeMs(Start(Pause(Start(Fresh, s), p), q), r).1 == (p - s) + (r - q)
  {
  }

  /**
   `set_time` stores its argument as the millisecond count although the
   parameter is named `time_sec`: `get_time` at the same clock reading
   returns it divided by 1000.
   */
  lemma SetThenGetSeconds(t: Timer, now: real, value: real)
    requires Consistent(t)
    ensures GetTime(SetTime(t, now, value), now).1 == value / 1000.0
  {
  }

  /** `set_time(v)` followed by `get_time_ms` at the same clock reading returns `v`. */
  lemma SetThenGet(t: Timer, now: real, value: real)
    requires Consistent(t)
    ensures GetTimeMs(SetTime(t, now, value), now).1 == value
  {
  }

  /** A call on the public interface of `TimerModule`, with the clock reading it takes. */
  datatype Op =
    | StartOp(now: real)
    | PauseOp(now: real)
    | ResetOp
    | RefreshOp(now: real)
    | SetOp(now: real, value: real)
    | ReadOp(now: real)

  /** Applies one call; a read also yields the milliseconds it returned. */
  function Apply(t: Timer, op: Op): (Timer, seq<real>) {
    match op
    case StartOp(now) => (Start(t, now), [])
    case PauseOp(now) => (Pause(t, now), [])
    case ResetOp => (Reset(t), [])
    case RefreshOp(now) => (Refresh(t, now), [])
    case SetOp(now, value) => (SetTime(t, now, value), [])
    case ReadOp(now) => var (u, ms) := GetTimeMs(t, now); (u, [ms])
  }

  /** Applies a sequence of calls, collecting what the reads returned. */
  function Exec(t: Timer, ops: seq<Op>): (Timer, seq<real>)
    decreases |ops|
  {
    if ops == [] then (t, [])
    else
      var (u, out) := Apply(t, ops[0]);
      var (v, rest) := Exec(u, ops[1..]);
      (v, out + rest)
  }

  /**
   The reference stopwatch: `acc` ms accumulated over earlier running spans,
   plus, while running, the time since `since`.
   */
  datatype Watch = Watch(running: bool, acc: real, since: real)

  function Shows(w: Watch, now: real): real {
    if w.running then w.acc + (now - w.since) else w.acc
  }

  /** What each call does to the reference stopwatch. */
  function SpecApply(w: Watch, op: Op): (Watch, seq<real>) {
    match op
    case StartOp(now) => (if w.running then w else Watch(true, w.acc, now), [])
    case PauseOp(now) => (if w.running then Watch(false, Shows(w, now), now) else w, [])
    case ResetOp => (Watch(false, 0.0, 0.0), [])
    case RefreshOp(now) => (Watch(true, 0.0, now), [])
    case SetOp(now, value) => (Watch(w.running, value, now), [])
    case ReadOp(now) => (w, [Shows(w, now)])
  }

  function SpecExec(w: Watch, ops: seq<Op>): (Watch, seq<real>)
    decreases |ops|
  {
    if ops == [] then (w, [])
    else
      var (v, out) := SpecApply(w, ops[0]);
      var (x, rest) := SpecExec(v, ops[1..]);
      (x, out + rest)
  }

  /** The timer shows what the reference stopwatch shows, at every clock reading. */
  predicate Simulates(t: Timer, w: Watch) {
    && Consistent(t)
    && t.running == w.running
    && (if t.running then t.starts[0] == w.since - w.acc else t.current == w.acc)
  }

  lemma FreshSimulates()
    ensures Simulates(Fresh, Watch(false, 0.0, 0.0))
  {
  }

  lemma {:induction false} ApplySimulates(t: Timer, w: Watch, op: Op)
    requires Simulates(t, w)
    ensures Simulates(Apply(t, op).0, SpecApply(w, op).0)
    ensures Apply(t, op).1 == SpecApply(w, op).1
  {
  }

  /**
   Over every sequence of calls, the timer returns exactly the reads of the
   reference stopwatch: elapsed time is the sum of the running spans, and
   time spent paused is never counted.
   */
  lemma {:induction false} ExecMatchesSpec(t: Timer, w: Watch, ops: seq<Op>)
    requires Simulates(t, w)
    ensures Simulates(Exec(t, ops).0, SpecExec(w, ops).0)
    ensures Exec(t, ops).1 == SpecExec(w, ops).1
    decreases |ops|
  {
    if ops != [] {
      ApplySimulates(t, w, ops[0]);
      ExecMatchesSpec(Apply(t, ops[0]).0, SpecApply(w, ops[0]).0, ops[1..]);
    }
  }
}
