/**
 The data `_print_profiling_report`, `_print_call`, `_print_pcall` and
 `_format_time` derive from the profiler state, as abstract values instead
 of printed text. The report is a `Result`: the source raises a `KeyError`
 for an unregistered identity and a `ZeroDivisionError` for a callable with
 no completed call, and the model only records that rendering raised.
 */
module Report {
  import opened Wrappers
  import opened Profiler

  /**
   `t_prc` in `_print_call`: a member's share of the root's time in percent,
   defined as 0 when either time is 0 instead of dividing.
   */
  function Percentage(member: int, root: int): (p: real)
    ensures member == 0 || root == 0 ==> p == 0.0
    ensures member != 0 && root != 0 ==> p * root as real == member as real * 100.0
  {
    if member != 0 && root != 0 then (member as real / root as real) * 100.0 else 0.0
  }

  /** A quotient of a positive real by one no smaller lies in (0, 1]. */
  lemma QuotientAtMostOne(m: real, n: real)
    requires 0.0 < m <= n
    ensures 0.0 < m / n <= 1.0
  {
  }

  /** A member that took no longer than its root gets a share between 0 and 100 percent. */
  lemma PercentageBounds(member: int, root: int)
    requires 0 <= member <= root
    ensures 0.0 <= Percentage(member, root) <= 100.0
    ensures member == root ==> Percentage(member, root) == (if root == 0 then 0.0 else 100.0)
  {
    if member != 0 && root != 0 {
      QuotientAtMostOne(member as real, root as real);
      if member == root {
        assert member as real / root as real == 1.0;
      }
    }
  }

  /**
   `PerCall` in `_print_call` and `_print_pcall`: the average time per call.
   The source divides without a guard, so a record with no calls raises.
   */
  function PerCall(time: int, ncalls: nat): (avg: real)
    requires ncalls > 0
    ensures avg * ncalls as real == time as real
    ensures 0 <= time ==> 0.0 <= avg <= time as real
  {
    time as real / ncalls as real
  }

  /** The four suffixes `_format_time` chooses from. */
  datatype Unit = Nanos | Micros | Millis | Seconds

  /** Nanoseconds per unit. */
  function Scale(u: Unit): real {
    match u
    case Nanos => 1.0
    case Micros => 1_000.0
    case Millis => 1_000_000.0
    case Seconds => 1_000_000_000.0
  }

  /** The text `_format_time` appends after the two-decimal amount. */
  function Suffix(u: Unit): string {
    match u
    case Nanos => "ns"
    case Micros => "μs"
    case Millis => "ms"
    case Seconds => "s"
  }

  /** A duration as `_format_time` shows it: an amount (printed with two decimals) and a unit. */
  datatype Display = Display(amount: real, unit: Unit)

  /** Whether showing `nanos` in unit `u` gives an amount in that unit's range. */
  predicate Fits(nanos: real, u: Unit) {
    && (u != Nanos ==> nanos / Scale(u) >= 1.0)
    && (u != Seconds ==> nanos / Scale(u) < 1_000.0)
  }

  /**
   `_format_time`: seconds from 10^9 ns, milliseconds from 10^6, microseconds
   from 10^3, nanoseconds below. The amount times the unit is the duration,
   and it is at least 1 (except in ns) and below 1000 (except in s).
   */
  function FormatTime(nanos: real): (d: Display)
    ensures d.amount * Scale(d.unit) == nanos
    ensures Fits(nanos, d.unit)
  {
    if nanos >= 1_000_000_000.0 then Display(nanos / 1_000_000_000.0, Seconds)
    else if nanos >= 1_000_000.0 then Display(nanos / 1_000_000.0, Millis)
    else if nanos >= 1_000.0 then Display(nanos / 1_000.0, Micros)
    else Display(nanos, Nanos)
  }

  /** The unit `_format_time` picks is the only one whose amount is in range. */
  lemma FormatTimeUnitUnique(nanos: real, u: Unit)
    requires Fits(nanos, u)
    ensures FormatTime(nanos).unit == u
  {
  }

  /** A larger duration never gets a smaller unit. */
  lemma FormatTimeMonotone(a: real, b: real)
    requires a <= b
    ensures Scale(FormatTime(a).unit) <= Scale(FormatTime(b).unit)
  {
  }

  /** One member line of a section, as `_print_call` prints it. */
  datatype Row = Row(name: string, time: int, percent: real, ncalls: nat, perCall: real)

  /** One root's section: the header name, the member lines and the closing root line. */
  datatype Section = Section(
    root: Identity,
    name: string,
    rows: map<Identity, Row>,
    time: int,
    ncalls: nat,
    perCall: real)

  /** The whole report: one section per group, in dictionary order, then the grand total. */
  datatype Rendered = Rendered(sections: seq<Section>, total: int)

  /** Rendering raised (`KeyError` or `ZeroDivisionError`, depending on set iteration order). */
  datatype RenderError = RenderRaises

  /** A record the report can print without raising: it exists and has at least one call. */
  predicate Printable(registry: map<Identity, CallRecord>, x: Identity) {
    x in registry && registry[x].ncalls > 0
  }

  /** Every line of `root`'s section can be printed. */
  predicate SectionPrintable(registry: map<Identity, CallRecord>, root: Identity, members: set<Identity>) {
    && Printable(registry, root)
    && forall m :: m in members && m != root ==> Printable(registry, m)
  }

  /** `_print_call` for one member of a root whose time is `rootTime`. */
  function RowOf(rec: CallRecord, rootTime: int): (row: Row)
    requires rec.ncalls > 0
    ensures row.name == rec.name && row.time == rec.time && row.ncalls == rec.ncalls
    ensures rec.time == 0 || rootTime == 0 ==> row.percent == 0.0
    ensures rootTime != 0 ==> row.percent * rootTime as real == rec.time as real * 100.0
    ensures row.perCall * row.ncalls as real == row.time as real
  {
    Row(rec.name, rec.time, Percentage(rec.time, rootTime), rec.ncalls, PerCall(rec.time, rec.ncalls))
  }

  /**
   One iteration of the outer loop of `_print_profiling_report`: the header,
   a line for every member except the root itself, then the root's line.
   */
  function SectionOf(registry: map<Identity, CallRecord>, root: Identity, members: set<Identity>)
    : (r: Result<Section, RenderError>)
    ensures r.Success? <==> SectionPrintable(registry, root, members)
    ensures r.Success? ==>
      && r.value.root == root
      && r.value.rows.Keys == members - {root}
      && r.value.name == registry[root].name
      && r.value.time == registry[root].time
      && r.value.ncalls == registry[root].ncalls
      && r.value.perCall * r.value.ncalls as real == r.value.time as real
      && forall m :: m in r.value.rows ==> r.value.rows[m] == RowOf(registry[m], registry[root].time)
  {
    if !Printable(registry, root) then Failure(RenderRaises)
    else if exists m :: m in members && m != root && !Printable(registry, m) then Failure(RenderRaises)
    else
      var rec := registry[root];
      Success(Section(
        root, rec.name,
        map m | m in members && m != root :: RowOf(registry[m], rec.time),
        rec.time, rec.ncalls, PerCall(rec.time, rec.ncalls)))
  }

  /** The sections for the roots in `order`, stopping at the first that raises. */
  function Sections(registry: map<Identity, CallRecord>, groups: map<Identity, set<Identity>>, order: seq<Identity>)
    : (r: Result<seq<Section>, RenderError>)
    requires forall i :: 0 <= i < |order| ==> order[i] in groups
    ensures r.Success? <==>
      forall i :: 0 <= i < |order| ==> SectionPrintable(registry, order[i], groups[order[i]])
    ensures r.Success? ==>
      && |r.value| == |order|
      && forall i :: 0 <= i < |order| ==>
           SectionOf(registry, order[i], groups[order[i]]) == Success(r.value[i])
    decreases |order|
  {
    if order == [] then Success([])
    else
      match SectionOf(registry, order[0], groups[order[0]])
      case Failure(e) => Failure(e)
      case Success(head) =>
        match Sections(registry, groups, order[1..])
        case Failure(e) => Failure(e)
        case Success(tail) =>
          assert forall i :: 1 <= i < |order| ==> order[i] == order[1..][i - 1];
          Success([head] + tail)
  }

  /**
   `_print_profiling_report`, which reads the state and changes nothing. It
   raises as soon as one group in the report order holds a record it cannot
   print; on a valid state that is any group at all.
   */
  function Render(s: State): (r: Result<Rendered, RenderError>)
    requires OrderTracked(s)
    ensures r.Success? <==>
      forall i :: 0 <= i < |s.order| ==> SectionPrintable(s.registry, s.order[i], s.groups[s.order[i]])
    ensures Valid(s) ==> (r.Success? <==>
      forall root :: root in s.groups ==> SectionPrintable(s.registry, root, s.groups[root]))
    ensures r.Success? ==>
      && r.value.total == s.total
      && |r.value.sections| == |s.order|
      && forall i :: 0 <= i < |s.order| ==>
           && SectionOf(s.registry, s.order[i], s.groups[s.order[i]]) == Success(r.value.sections[i])
           && r.value.sections[i].root == s.order[i]
           && r.value.sections[i].rows.Keys == s.groups[s.order[i]] - {s.order[i]}
  {
    match Sections(s.registry, s.groups, s.order)
    case Failure(e) => Failure(e)
    case Success(sections) =>
      assert Valid(s) ==> forall root :: root in s.groups ==> exists i :: 0 <= i < |s.order| && s.order[i] == root;
      Success(Rendered(sections, s.total))
  }
}
