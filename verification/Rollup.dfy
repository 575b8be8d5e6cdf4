// The aggregation of `build_overview`: samples folded into per-connection accumulators, which are
// then rolled up, against summing the samples directly.
module Rollup {
  import opened Json
  import StableSort

  datatype Metric =
    | QueriesTotal | QueriesRejected | DurationCount | DurationSum
    | ConcurrencyInUse | ConcurrencyMax | QueueDepth | WaitCount | WaitSum
    | QuotaRejections | DisclosureRejections
    | CostAttempts | CostUnavailable | CostWouldReject
    | Unrelated

  datatype Sample = Sample(metric: Metric, labels: map<string, string>, value: real)

  /** `labels.get(key, default)`. */
  function Label(s: Sample, key: string, default: string): string {
    if key in s.labels then s.labels[key] else default
  }

  datatype Status = Succeeded | Refused | Other

  /** Only these two statuses count; a missing or unknown one does not. */
  function StatusOf(s: Sample): Status {
    var status := Label(s, "status", "");
    if status == "success" then Succeeded else if status == "rejected" then Refused else Other
  }

  /** `int(value)`: towards zero. */
  function Trunc(r: real): int {
    if r >= 0.0 then r.Floor else -(-r).Floor
  }

  // ------------------------------------------------------- accumulators

  datatype Wait = Wait(count: int, total: real)

  datatype Totals = Totals(
    success: int, rejected: int, reasons: map<string, int>,
    durationCount: int, durationSum: real,
    inUse: real, maxInUse: real, depth: real,
    waits: map<string, Wait>,
    quota: map<string, int>, disclosure: map<string, int>,
    costAttempts: int, costUnavailable: map<string, int>, costWouldReject: int)

  const Zero := Totals(0, 0, map[], 0, 0.0, 0.0, 0.0, 0.0, map[], map[], map[], 0, map[], 0)

  function Get(m: map<string, int>, k: string): int {
    if k in m then m[k] else 0
  }

  function GetWait(m: map<string, Wait>, k: string): Wait {
    if k in m then m[k] else Wait(0, 0.0)
  }

  function Bump(m: map<string, int>, k: string, n: int): map<string, int> {
    m[k := Get(m, k) + n]
  }

  function AddSample(t: Totals, s: Sample): Totals {
    var n := Trunc(s.value);
    match s.metric
    case QueriesTotal =>
      (match StatusOf(s)
       case Succeeded => t.(success := t.success + n)
       case Refused => t.(rejected := t.rejected + n)
       case Other => t)
    case QueriesRejected => t.(reasons := Bump(t.reasons, Label(s, "reason", "unknown"), n))
    case DurationCount => t.(durationCount := t.durationCount + n)
    case DurationSum => t.(durationSum := t.durationSum + s.value)
    case ConcurrencyInUse => t.(inUse := t.inUse + s.value)
    case ConcurrencyMax => t.(maxInUse := t.maxInUse + s.value)
    case QueueDepth => t.(depth := t.depth + s.value)
    case WaitCount =>
      var k := Label(s, "outcome", "unknown");
      var w := GetWait(t.waits, k);
      t.(waits := t.waits[k := w.(count := w.count + n)])
    case WaitSum =>
      var k := Label(s, "outcome", "unknown");
      var w := GetWait(t.waits, k);
      t.(waits := t.waits[k := w.(total := w.total + s.value)])
    case QuotaRejections => t.(quota := Bump(t.quota, Label(s, "quota_kind", "unknown"), n))
    case DisclosureRejections => t.(disclosure := Bump(t.disclosure, Label(s, "budget_kind", "unknown"), n))
    case CostAttempts => t.(costAttempts := t.costAttempts + n)
    case CostUnavailable => t.(costUnavailable := Bump(t.costUnavailable, Label(s, "reason", "unknown"), n))
    case CostWouldReject => t.(costWouldReject := t.costWouldReject + n)
    case Unrelated => t
  }

  /** `_merge_counts`. */
  function MergeCounts(a: map<string, int>, b: map<string, int>): map<string, int> {
    map k | k in a.Keys + b.Keys :: Get(a, k) + Get(b, k)
  }

  function MergeWaits(a: map<string, Wait>, b: map<string, Wait>): map<string, Wait> {
    map k | k in a.Keys + b.Keys ::
      Wait(GetWait(a, k).count + GetWait(b, k).count, GetWait(a, k).total + GetWait(b, k).total)
  }

  /** Rolling one connection up into the global numbers. */
  function Merge(a: Totals, b: Totals): Totals {
    Totals(
      a.success + b.success, a.rejected + b.rejected, MergeCounts(a.reasons, b.reasons),
      a.durationCount + b.durationCount, a.durationSum + b.durationSum,
      a.inUse + b.inUse, a.maxInUse + b.maxInUse, a.depth + b.depth,
      MergeWaits(a.waits, b.waits), MergeCounts(a.quota, b.quota), MergeCounts(a.disclosure, b.disclosure),
      a.costAttempts + b.costAttempts, MergeCounts(a.costUnavailable, b.costUnavailable),
      a.costWouldReject + b.costWouldReject)
  }

  // ---------------------------------------------------- sums over a set

  ghost function SumOver<K>(keys: set<K>, f: K -> real): real {
    if keys == {} then 0.0 else f(StableSort.Pick(keys)) + SumOver(keys - {StableSort.Pick(keys)}, f)
  }

  // A sum over a set does not depend on the order of summation.
  lemma {:induction false} SumOverRemove<K>(keys: set<K>, f: K -> real, x: K)
    requires x in keys
    ensures SumOver(keys, f) == f(x) + SumOver(keys - {x}, f)
    decreases keys
  {
    var y := StableSort.Pick(keys);
    if x != y {
      SumOverRemove(keys - {y}, f, x);
      SumOverRemove(keys - {x}, f, y);
      assert keys - {y} - {x} == keys - {x} - {y};
    }
  }

  lemma {:induction false} SumOverSame<K>(keys: set<K>, f: K -> real, g: K -> real)
    requires forall k :: k in keys ==> f(k) == g(k)
    ensures SumOver(keys, f) == SumOver(keys, g)
    decreases keys
  {
    if keys != {} {
      SumOverSame(keys - {StableSort.Pick(keys)}, f, g);
    }
  }

  ghost function Plus<K>(f: K -> real, g: K -> real): K -> real {
    k => f(k) + g(k)
  }

  lemma {:induction false} SumOverAdd<K>(keys: set<K>, f: K -> real, g: K -> real)
    ensures SumOver(keys, Plus(f, g)) == SumOver(keys, f) + SumOver(keys, g)
    decreases keys
  {
    if keys != {} {
      SumOverAdd(keys - {StableSort.Pick(keys)}, f, g);
    }
  }

  // Keys that count for nothing can be added.
  lemma {:induction false} SumOverExtend<K>(keys: set<K>, more: set<K>, f: K -> real)
    requires forall k :: k in more && k !in keys ==> f(k) == 0.0
    ensures SumOver(keys + more, f) == SumOver(keys, f)
    decreases more
  {
    if more == {} {
      assert keys + more == keys;
    } else {
      var x := StableSort.Pick(more);
      SumOverExtend(keys, more - {x}, f);
      if x in keys {
        assert keys + more == keys + (more - {x});
      } else {
        SumOverRemove(keys + more, f, x);
        assert keys + more - {x} == keys + (more - {x});
      }
    }
  }

  ghost function CountAt(m: map<string, int>): string -> real {
    (k: string) => Get(m, k) as real
  }

  /** `sum(m.values())`. */
  ghost function SumCounts(m: map<string, int>): real {
    SumOver(m.Keys, CountAt(m))
  }

  lemma SumCountsBump(m: map<string, int>, k: string, n: int)
    ensures SumCounts(Bump(m, k, n)) == SumCounts(m) + n as real
  {
    var after := Bump(m, k, n);
    SumOverRemove(after.Keys, CountAt(after), k);
    var others := after.Keys - {k};
    SumOverSame(others, CountAt(after), CountAt(m));
    if k in m {
      SumOverRemove(m.Keys, CountAt(m), k);
      assert others == m.Keys - {k};
    } else {
      assert others == m.Keys;
    }
  }

  lemma SumCountsMerge(a: map<string, int>, b: map<string, int>)
    ensures SumCounts(MergeCounts(a, b)) == SumCounts(a) + SumCounts(b)
  {
    var both := a.Keys + b.Keys;
    assert MergeCounts(a, b).Keys == both;
    SumOverSame(both, CountAt(MergeCounts(a, b)), Plus(CountAt(a), CountAt(b)));
    SumOverAdd(both, CountAt(a), CountAt(b));
    SumOverExtend(a.Keys, b.Keys, CountAt(a));
    SumOverExtend(b.Keys, a.Keys, CountAt(b));
    assert b.Keys + a.Keys == both;
  }

  // -------------------------------------------- direct sums, slot by slot

  /** One number of an overview. */
  datatype Slot =
    | Success | Rejected | Reason(reason: string)
    | Durations | DurationSeconds | InUse | MaxInUse | Depth
    | Waits(outcome: string) | WaitSeconds(outcome: string)
    | Quota(kind: string) | Disclosure(kind: string)
    | Attempts | Unavailable(reason: string) | AllUnavailable | WouldReject

  ghost function Read(t: Totals, slot: Slot): real {
    match slot
    case Success => t.success as real
    case Rejected => t.rejected as real
    case Reason(r) => Get(t.reasons, r) as real
    case Durations => t.durationCount as real
    case DurationSeconds => t.durationSum
    case InUse => t.inUse
    case MaxInUse => t.maxInUse
    case Depth => t.depth
    case Waits(o) => GetWait(t.waits, o).count as real
    case WaitSeconds(o) => GetWait(t.waits, o).total
    case Quota(k) => Get(t.quota, k) as real
    case Disclosure(k) => Get(t.disclosure, k) as real
    case Attempts => t.costAttempts as real
    case Unavailable(r) => Get(t.costUnavailable, r) as real
    case AllUnavailable => SumCounts(t.costUnavailable)
    case WouldReject => t.costWouldReject as real
  }

  /** The samples that make up a slot. */
  predicate Feeds(s: Sample, slot: Slot) {
    match slot
    case Success => s.metric.QueriesTotal? && StatusOf(s).Succeeded?
    case Rejected => s.metric.QueriesTotal? && StatusOf(s).Refused?
    case Reason(r) => s.metric.QueriesRejected? && Label(s, "reason", "unknown") == r
    case Durations => s.metric.DurationCount?
    case DurationSeconds => s.metric.DurationSum?
    case InUse => s.metric.ConcurrencyInUse?
    case MaxInUse => s.metric.ConcurrencyMax?
    case Depth => s.metric.QueueDepth?
    case Waits(o) => s.metric.WaitCount? && Label(s, "outcome", "unknown") == o
    case WaitSeconds(o) => s.metric.WaitSum? && Label(s, "outcome", "unknown") == o
    case Quota(k) => s.metric.QuotaRejections? && Label(s, "quota_kind", "unknown") == k
    case Disclosure(k) => s.metric.DisclosureRejections? && Label(s, "budget_kind", "unknown") == k
    case Attempts => s.metric.CostAttempts?
    case Unavailable(r) => s.metric.CostUnavailable? && Label(s, "reason", "unknown") == r
    case AllUnavailable => s.metric.CostUnavailable?
    case WouldReject => s.metric.CostWouldReject?
  }

  /** Seconds and gauges count as they are, everything else as an integer. */
  predicate Fractional(slot: Slot) {
    slot.DurationSeconds? || slot.InUse? || slot.MaxInUse? || slot.Depth? || slot.WaitSeconds?
  }

  function Part(s: Sample, slot: Slot): real {
    if !Feeds(s, slot) then 0.0 else if Fractional(slot) then s.value else Trunc(s.value) as real
  }

  /** The sum over all samples of one connection, or of all connections. */
  function Direct(samples: seq<Sample>, connection: Option<string>, slot: Slot): real {
    if samples == [] then 0.0
    else
      var n := |samples| - 1;
      Direct(samples[..n], connection, slot) +
      if connection.None? || ConnectionOf(samples[n]) == connection.value then Part(samples[n], slot) else 0.0
  }

  function ConnectionOf(s: Sample): string {
    Label(s, "connection", "")
  }

  // One more sample moves the slot it feeds, by its part, and no other.
  lemma AddQueryReads(t: Totals, s: Sample, slot: Slot)
    requires s.metric.QueriesTotal?
    ensures Read(AddSample(t, s), slot) == Read(t, slot) + Part(s, slot)
  {
  }

  lemma AddReasonReads(t: Totals, s: Sample, slot: Slot)
    requires s.metric.QueriesRejected?
    ensures Read(AddSample(t, s), slot) == Read(t, slot) + Part(s, slot)
  {
  }

  lemma AddDurationReads(t: Totals, s: Sample, slot: Slot)
    requires s.metric.DurationCount? || s.metric.DurationSum?
    ensures Read(AddSample(t, s), slot) == Read(t, slot) + Part(s, slot)
  {
  }

  lemma AddWaitReads(t: Totals, s: Sample, slot: Slot)
    requires s.metric.WaitCount? || s.metric.WaitSum?
    ensures Read(AddSample(t, s), slot) == Read(t, slot) + Part(s, slot)
  {
  }

  lemma AddGaugeReads(t: Totals, s: Sample, slot: Slot)
    requires s.metric.ConcurrencyInUse? || s.metric.ConcurrencyMax? || s.metric.QueueDepth? || s.metric.Unrelated?
    ensures Read(AddSample(t, s), slot) == Read(t, slot) + Part(s, slot)
  {
  }

  lemma AddRejectionReads(t: Totals, s: Sample, slot: Slot)
    requires s.metric.QuotaRejections? || s.metric.DisclosureRejections?
    ensures Read(AddSample(t, s), slot) == Read(t, slot) + Part(s, slot)
  {
  }

  lemma AddCostReads(t: Totals, s: Sample, slot: Slot)
    requires s.metric.CostAttempts? || s.metric.CostUnavailable? || s.metric.CostWouldReject?
    ensures Read(AddSample(t, s), slot) == Read(t, slot) + Part(s, slot)
  {
    SumCountsBump(t.costUnavailable, Label(s, "reason", "unknown"), Trunc(s.value));
  }

  lemma AddSampleReads(t: Totals, s: Sample, slot: Slot)
    ensures Read(AddSample(t, s), slot) == Read(t, slot) + Part(s, slot)
  {
    match s.metric
    case QueriesTotal => AddQueryReads(t, s, slot);
    case QueriesRejected => AddReasonReads(t, s, slot);
    case DurationCount => AddDurationReads(t, s, slot);
    case DurationSum => AddDurationReads(t, s, slot);
    case WaitCount => AddWaitReads(t, s, slot);
    case WaitSum => AddWaitReads(t, s, slot);
    case QuotaRejections => AddRejectionReads(t, s, slot);
    case DisclosureRejections => AddRejectionReads(t, s, slot);
    case CostAttempts => AddCostReads(t, s, slot);
    case CostUnavailable => AddCostReads(t, s, slot);
    case CostWouldReject => AddCostReads(t, s, slot);
    case _ => AddGaugeReads(t, s, slot);
  }

  // Merging adds up every number.
  lemma MergeReads(a: Totals, b: Totals, slot: Slot)
    ensures Read(Merge(a, b), slot) == Read(a, slot) + Read(b, slot)
  {
    match slot
    case Reason(r) => MergeCountsGet(a.reasons, b.reasons, r);
    case Waits(o) => MergeWaitsGet(a.waits, b.waits, o);
    case WaitSeconds(o) => MergeWaitsGet(a.waits, b.waits, o);
    case Quota(k) => MergeCountsGet(a.quota, b.quota, k);
    case Disclosure(k) => MergeCountsGet(a.disclosure, b.disclosure, k);
    case Unavailable(r) => MergeCountsGet(a.costUnavailable, b.costUnavailable, r);
    case AllUnavailable => SumCountsMerge(a.costUnavailable, b.costUnavailable);
    case _ =>
  }

  lemma MergeCountsGet(a: map<string, int>, b: map<string, int>, k: string)
    ensures Get(MergeCounts(a, b), k) == Get(a, k) + Get(b, k)
  {
  }

  lemma MergeWaitsGet(a: map<string, Wait>, b: map<string, Wait>, k: string)
    ensures GetWait(MergeWaits(a, b), k).count == GetWait(a, k).count + GetWait(b, k).count
    ensures GetWait(MergeWaits(a, b), k).total == GetWait(a, k).total + GetWait(b, k).total
  {
  }

  type Conns = map<string, Totals>

  ghost function ReadAt(conns: Conns, slot: Slot): string -> real {
    (c: string) => if c in conns then Read(conns[c], slot) else 0.0
  }

  // Growing one connection grows the sum over connections by as much.
  lemma SumOverUpdate(conns: Conns, c: string, t: Totals, slot: Slot)
    ensures var after := conns[c := t];
            SumOver(after.Keys, ReadAt(after, slot)) ==
            SumOver(conns.Keys, ReadAt(conns, slot)) + Read(t, slot) - ReadAt(conns, slot)(c)
  {
    var after := conns[c := t];
    SumOverRemove(after.Keys, ReadAt(after, slot), c);
    var others := after.Keys - {c};
    assert others == conns.Keys - {c};
    SumOverSame(others, ReadAt(after, slot), ReadAt(conns, slot));
    if c in conns {
      SumOverRemove(conns.Keys, ReadAt(conns, slot), c);
    } else {
      assert others == conns.Keys;
    }
  }

  // ------------------------------------------------------------ report

  function Ratio(part: real, whole: real): Option<real> {
    if whole == 0.0 then None else Some(part / whole)
  }

  datatype Derived = Derived(
    queries: int, avgDuration: Option<real>, avgWait: map<string, Option<real>>,
    utilization: Option<real>, unavailable: int, failOpenRate: Option<real>)

  /** The derived numbers are sums and ratios of these sums, not of averages. */
  ghost predicate DerivedFrom(d: Derived, outcomes: set<string>, sum: Slot -> real) {
    && d.queries as real == sum(Success) + sum(Rejected)
    && d.avgDuration == Ratio(sum(DurationSeconds), sum(Durations))
    && d.avgWait.Keys == outcomes
    && (forall o :: o in outcomes ==> d.avgWait[o] == Ratio(sum(WaitSeconds(o)), sum(Waits(o))))
    && d.utilization == Ratio(sum(InUse), sum(MaxInUse))
    && d.unavailable as real == sum(AllUnavailable)
    && d.failOpenRate == Ratio(sum(AllUnavailable), sum(Attempts))
  }

  method SumValues(m: map<string, int>) returns (n: int)
    ensures n as real == SumCounts(m)
  {
    n := 0;
    var left := m.Keys;
    while left != {}
      invariant left <= m.Keys && n as real + SumOver(left, CountAt(m)) == SumCounts(m)
      decreases left
    {
      var k :| k in left;
      SumOverRemove(left, CountAt(m), k);
      n := n + m[k];
      left := left - {k};
    }
  }

  method Derive(t: Totals) returns (d: Derived)
    ensures DerivedFrom(d, t.waits.Keys, slot => Read(t, slot))
  {
    var unavailable := SumValues(t.costUnavailable);
    var waits := AverageWaits(t.waits);
    d := Derived(
      t.success + t.rejected,
      Ratio(t.durationSum, t.durationCount as real),
      waits,
      Ratio(t.inUse, t.maxInUse),
      unavailable,
      Ratio(unavailable as real, t.costAttempts as real));
  }

  method AverageWaits(waits: map<string, Wait>) returns (r: map<string, Option<real>>)
    ensures r.Keys == waits.Keys
    ensures forall o :: o in waits ==> r[o] == Ratio(GetWait(waits, o).total, GetWait(waits, o).count as real)
  {
    r := map o | o in waits :: Ratio(waits[o].total, waits[o].count as real);
  }

  // Whatever the order of samples, every number is the same.
  lemma {:induction false} DirectPermutes(a: seq<Sample>, b: seq<Sample>, connection: Option<string>, slot: Slot)
    requires multiset(a) == multiset(b)
    ensures Direct(a, connection, slot) == Direct(b, connection, slot)
    decreases |a|
  {
    if a == [] {
      StableSort.PermutationOfNone(b);
    } else {
      var n := |a| - 1;
      var k := StableSort.TakeOut(a, b);
      var c, d := b[..k], b[k + 1..];
      DirectPermutes(a[..n], c + d, connection, slot);
      DirectConcat(c + [b[k]], d, connection, slot);
      DirectConcat(c, d, connection, slot);
      DirectSnoc(c, b[k], connection, slot);
    }
  }

  lemma {:induction false} DirectConcat(a: seq<Sample>, b: seq<Sample>, connection: Option<string>, slot: Slot)
    ensures Direct(a + b, connection, slot) == Direct(a, connection, slot) + Direct(b, connection, slot)
  {
    if b == [] {
      assert a + b == a;
    } else {
      assert (a + b)[..|a + b| - 1] == a + b[..|b| - 1];
      DirectConcat(a, b[..|b| - 1], connection, slot);
    }
  }

  // ---------------------------------------------------- which keys appear

  /** Numbers that are entries of a map. */
  predicate Keyed(slot: Slot) {
    slot.Reason? || slot.Waits? || slot.WaitSeconds? || slot.Quota? || slot.Disclosure? || slot.Unavailable?
  }

  predicate Present(t: Totals, slot: Slot) {
    match slot
    case Reason(r) => r in t.reasons
    case Waits(o) => o in t.waits
    case WaitSeconds(o) => o in t.waits
    case Quota(k) => k in t.quota
    case Disclosure(k) => k in t.disclosure
    case Unavailable(r) => r in t.costUnavailable
    case _ => true
  }

  /** The sample names the key; a wait outcome is named by either of its metrics. */
  predicate Mentions(s: Sample, slot: Slot) {
    match slot
    case Waits(o) => Feeds(s, Waits(o)) || Feeds(s, WaitSeconds(o))
    case WaitSeconds(o) => Feeds(s, Waits(o)) || Feeds(s, WaitSeconds(o))
    case _ => Feeds(s, slot)
  }

  lemma AddQueryPresent(t: Totals, s: Sample, slot: Slot)
    requires Keyed(slot) && s.metric.QueriesTotal?
    ensures Present(AddSample(t, s), slot) <==> Present(t, slot) || Mentions(s, slot)
  {
  }

  lemma AddDurationPresent(t: Totals, s: Sample, slot: Slot)
    requires Keyed(slot) && (s.metric.DurationCount? || s.metric.DurationSum?)
    ensures Present(AddSample(t, s), slot) <==> Present(t, slot) || Mentions(s, slot)
  {
  }

  lemma AddGaugePresent(t: Totals, s: Sample, slot: Slot)
    requires Keyed(slot) && (s.metric.ConcurrencyInUse? || s.metric.ConcurrencyMax? || s.metric.QueueDepth? || s.metric.Unrelated?)
    ensures Present(AddSample(t, s), slot) <==> Present(t, slot) || Mentions(s, slot)
  {
  }

  lemma AddCostPresent(t: Totals, s: Sample, slot: Slot)
    requires Keyed(slot) && (s.metric.CostAttempts? || s.metric.CostWouldReject?)
    ensures Present(AddSample(t, s), slot) <==> Present(t, slot) || Mentions(s, slot)
  {
  }

  lemma AddWaitPresent(t: Totals, s: Sample, slot: Slot)
    requires Keyed(slot) && (s.metric.WaitCount? || s.metric.WaitSum?)
    ensures Present(AddSample(t, s), slot) <==> Present(t, slot) || Mentions(s, slot)
  {
  }

  lemma AddCountPresent(t: Totals, s: Sample, slot: Slot)
    requires Keyed(slot) && (s.metric.QueriesRejected? || s.metric.CostUnavailable?)
    ensures Present(AddSample(t, s), slot) <==> Present(t, slot) || Mentions(s, slot)
  {
  }

  lemma AddKindPresent(t: Totals, s: Sample, slot: Slot)
    requires Keyed(slot) && (s.metric.QuotaRejections? || s.metric.DisclosureRejections?)
    ensures Present(AddSample(t, s), slot) <==> Present(t, slot) || Mentions(s, slot)
  {
  }

  lemma AddSamplePresent(t: Totals, s: Sample, slot: Slot)
    requires Keyed(slot)
    ensures Present(AddSample(t, s), slot) <==> Present(t, slot) || Mentions(s, slot)
  {
    match s.metric
    case QueriesTotal => AddQueryPresent(t, s, slot);
    case QueriesRejected => AddCountPresent(t, s, slot);
    case DurationCount => AddDurationPresent(t, s, slot);
    case DurationSum => AddDurationPresent(t, s, slot);
    case WaitCount => AddWaitPresent(t, s, slot);
    case WaitSum => AddWaitPresent(t, s, slot);
    case QuotaRejections => AddKindPresent(t, s, slot);
    case DisclosureRejections => AddKindPresent(t, s, slot);
    case CostAttempts => AddCostPresent(t, s, slot);
    case CostUnavailable => AddCountPresent(t, s, slot);
    case CostWouldReject => AddCostPresent(t, s, slot);
    case _ => AddGaugePresent(t, s, slot);
  }

  lemma MergePresent(a: Totals, b: Totals, slot: Slot)
    requires Keyed(slot)
    ensures Present(Merge(a, b), slot) <==> Present(a, slot) || Present(b, slot)
  {
  }

  predicate From(s: Sample, connection: Option<string>) {
    !s.metric.Unrelated? && (connection.None? || ConnectionOf(s) == connection.value)
  }

  ghost predicate Reported(samples: seq<Sample>, connection: Option<string>) {
    exists x :: x in samples && From(x, connection)
  }

  ghost predicate Mentioned(samples: seq<Sample>, connection: Option<string>, slot: Slot) {
    exists x :: x in samples && From(x, connection) && Mentions(x, slot)
  }

  lemma SomeSnoc<T(!new)>(s: seq<T>, x: T, f: T -> bool)
    ensures (exists y :: y in s + [x] && f(y)) <==> (exists y :: y in s && f(y)) || f(x)
  {
    assert x in s + [x];
    forall y ensures y in s + [x] <==> y in s || y == x {
    }
  }

  lemma MentionedSnoc(samples: seq<Sample>, s: Sample, connection: Option<string>, slot: Slot)
    ensures Reported(samples + [s], connection) <==> Reported(samples, connection) || From(s, connection)
    ensures Mentioned(samples + [s], connection, slot) <==>
            Mentioned(samples, connection, slot) || (From(s, connection) && Mentions(s, slot))
  {
    SomeSnoc(samples, s, (x: Sample) => From(x, connection));
    SomeSnoc(samples, s, (x: Sample) => From(x, connection) && Mentions(x, slot));
  }

  /** A connection has an entry, and a map of it a key, exactly when a sample says so. */
  ghost predicate KeysExact(conns: Conns, samples: seq<Sample>) {
    && (forall c :: c in conns <==> Reported(samples, Some(c)))
    && (forall c, slot :: c in conns && Keyed(slot) ==> (Present(conns[c], slot) <==> Mentioned(samples, Some(c), slot)))
  }

  lemma KeysStep(conns: Conns, samples: seq<Sample>, s: Sample)
    requires KeysExact(conns, samples)
    ensures KeysExact(if s.metric.Unrelated? then conns else Added(conns, s), samples + [s])
  {
    var after := if s.metric.Unrelated? then conns else Added(conns, s);
    forall c ensures c in after <==> Reported(samples + [s], Some(c)) {
      MentionedSnoc(samples, s, Some(c), Success);
    }
    forall c, slot | c in after && Keyed(slot)
      ensures Present(after[c], slot) <==> Mentioned(samples + [s], Some(c), slot)
    {
      MentionedSnoc(samples, s, Some(c), slot);
      if !s.metric.Unrelated? {
        KeyStep(conns, samples, s, c, slot);
      }
    }
  }

  lemma KeyStep(conns: Conns, samples: seq<Sample>, s: Sample, c: string, slot: Slot)
    requires KeysExact(conns, samples) && Keyed(slot) && !s.metric.Unrelated? && c in Added(conns, s)
    ensures Present(Added(conns, s)[c], slot) <==> Mentioned(samples, Some(c), slot) || (From(s, Some(c)) && Mentions(s, slot))
  {
    AddSamplePresent(TotalsAt(conns, c), s, slot);
    if c !in conns {
      NotMentioned(samples, c, slot);
    }
  }

  lemma NotMentioned(samples: seq<Sample>, c: string, slot: Slot)
    requires !Reported(samples, Some(c))
    ensures !Mentioned(samples, Some(c), slot)
  {
  }

  // ----------------------------------------------------- imperative form

  /** The numbers of each connection are the direct sums over its samples. */
  ghost predicate ByConnection(conns: Conns, samples: seq<Sample>) {
    forall c, slot :: Direct(samples, Some(c), slot) == ReadAt(conns, slot)(c)
  }

  ghost predicate SumsUp(conns: Conns, samples: seq<Sample>) {
    forall slot :: SumOver(conns.Keys, ReadAt(conns, slot)) == Direct(samples, None, slot)
  }

  function TotalsAt(conns: Conns, c: string): Totals {
    if c in conns then conns[c] else Zero
  }

  function Added(conns: Conns, s: Sample): Conns {
    var c := ConnectionOf(s);
    conns[c := AddSample(TotalsAt(conns, c), s)]
  }

  lemma ReadZero(slot: Slot)
    ensures Read(Zero, slot) == 0.0
  {
  }

  lemma ReadAdded(conns: Conns, s: Sample, c: string, slot: Slot)
    ensures ReadAt(Added(conns, s), slot)(c) ==
            ReadAt(conns, slot)(c) + if c == ConnectionOf(s) then Part(s, slot) else 0.0
  {
    AddSampleReads(TotalsAt(conns, c), s, slot);
    ReadZero(slot);
  }

  lemma SumAdded(conns: Conns, s: Sample, slot: Slot)
    ensures SumOver(Added(conns, s).Keys, ReadAt(Added(conns, s), slot)) ==
            SumOver(conns.Keys, ReadAt(conns, slot)) + Part(s, slot)
  {
    var c := ConnectionOf(s);
    var t := AddSample(TotalsAt(conns, c), s);
    SumOverUpdate(conns, c, t, slot);
    AddSampleReads(TotalsAt(conns, c), s, slot);
    ReadZero(slot);
  }

  lemma DirectSnoc(samples: seq<Sample>, s: Sample, connection: Option<string>, slot: Slot)
    ensures Direct(samples + [s], connection, slot) ==
            Direct(samples, connection, slot) +
            if connection.None? || ConnectionOf(s) == connection.value then Part(s, slot) else 0.0
  {
    assert (samples + [s])[..|samples|] == samples;
  }

  lemma AddSampleByConnection(conns: Conns, samples: seq<Sample>, s: Sample)
    requires ByConnection(conns, samples) && SumsUp(conns, samples)
    ensures ByConnection(Added(conns, s), samples + [s]) && SumsUp(Added(conns, s), samples + [s])
  {
    forall d, slot
      ensures Direct(samples + [s], Some(d), slot) == ReadAt(Added(conns, s), slot)(d)
    {
      assert Direct(samples, Some(d), slot) == ReadAt(conns, slot)(d);
      ReadAdded(conns, s, d, slot);
      DirectSnoc(samples, s, Some(d), slot);
    }
    forall slot
      ensures SumOver(Added(conns, s).Keys, ReadAt(Added(conns, s), slot)) == Direct(samples + [s], None, slot)
    {
      SumAdded(conns, s, slot);
      DirectSnoc(samples, s, None, slot);
    }
  }

  lemma UnrelatedSample(samples: seq<Sample>, s: Sample, connection: Option<string>, slot: Slot)
    requires s.metric.Unrelated?
    ensures Direct(samples + [s], connection, slot) == Direct(samples, connection, slot)
  {
    assert (samples + [s])[..|samples|] == samples;
  }

  method Accumulate(samples: seq<Sample>) returns (conns: Conns)
    ensures ByConnection(conns, samples) && SumsUp(conns, samples) && KeysExact(conns, samples)
  {
    conns := map[];
    for i := 0 to |samples|
      invariant ByConnection(conns, samples[..i]) && SumsUp(conns, samples[..i]) && KeysExact(conns, samples[..i])
    {
      var s := samples[i];
      assert samples[..i + 1] == samples[..i] + [s];
      KeysStep(conns, samples[..i], s);
      if s.metric.Unrelated? {
        forall c: Option<string>, slot {
          UnrelatedSample(samples[..i], s, c, slot);
        }
      } else {
        AddSampleByConnection(conns, samples[..i], s);
        var c := ConnectionOf(s);
        if c !in conns {
          conns := conns[c := AddSample(Zero, s)];
        } else {
          conns := conns[c := AddSample(conns[c], s)];
        }
      }
    }
    assert samples[..|samples|] == samples;
  }

  /** A key is in the global maps exactly when some sample names it. */
  ghost predicate GlobalKeys(global: Totals, samples: seq<Sample>) {
    forall slot :: Keyed(slot) ==> (Present(global, slot) <==> Mentioned(samples, None, slot))
  }

  ghost predicate PresentIn(conns: Conns, keys: set<string>, slot: Slot) {
    exists c :: c in keys && c in conns && Present(conns[c], slot)
  }

  lemma KeysRollUp(conns: Conns, samples: seq<Sample>, slot: Slot)
    requires KeysExact(conns, samples) && Keyed(slot)
    ensures PresentIn(conns, conns.Keys, slot) <==> Mentioned(samples, None, slot)
  {
    if Mentioned(samples, None, slot) {
      var x :| x in samples && From(x, None) && Mentions(x, slot);
      var c := ConnectionOf(x);
      assert From(x, Some(c));
      assert Reported(samples, Some(c)) && Mentioned(samples, Some(c), slot);
      assert c in conns.Keys;
    }
    if PresentIn(conns, conns.Keys, slot) {
      var c :| c in conns.Keys && c in conns && Present(conns[c], slot);
      var x :| x in samples && From(x, Some(c)) && Mentions(x, slot);
      assert From(x, None);
    }
  }

  lemma PresentMerged(conns: Conns, seen: set<string>, global: Totals, c: string, slot: Slot)
    requires c in conns && Keyed(slot) && (Present(global, slot) <==> PresentIn(conns, seen, slot))
    ensures Present(Merge(global, conns[c]), slot) <==> PresentIn(conns, seen + {c}, slot)
  {
    MergePresent(global, conns[c], slot);
    if PresentIn(conns, seen, slot) {
      var d :| d in seen && d in conns && Present(conns[d], slot);
      assert d in seen + {c};
    }
    if Present(conns[c], slot) {
      assert c in seen + {c};
    }
  }

  ghost predicate SumsLeft(global: Totals, conns: Conns, left: set<string>) {
    forall slot :: Read(global, slot) + SumOver(left, ReadAt(conns, slot)) == SumOver(conns.Keys, ReadAt(conns, slot))
  }

  ghost predicate KeysSoFar(global: Totals, conns: Conns, seen: set<string>) {
    forall slot :: Keyed(slot) ==> (Present(global, slot) <==> PresentIn(conns, seen, slot))
  }

  /** Connections are visited in some order and merged one by one. */
  method MergeAll(conns: Conns) returns (global: Totals)
    ensures SumsLeft(global, conns, {}) && KeysSoFar(global, conns, conns.Keys)
  {
    global := Zero;
    var left := conns.Keys;
    while left != {}
      invariant left <= conns.Keys
      invariant SumsLeft(global, conns, left) && KeysSoFar(global, conns, conns.Keys - left)
      decreases left
    {
      var c :| c in left;
      forall slot
        ensures Read(Merge(global, conns[c]), slot) + SumOver(left - {c}, ReadAt(conns, slot)) ==
                Read(global, slot) + SumOver(left, ReadAt(conns, slot))
      {
        MergeReads(global, conns[c], slot);
        SumOverRemove(left, ReadAt(conns, slot), c);
      }
      forall slot | Keyed(slot)
        ensures Present(Merge(global, conns[c]), slot) <==> PresentIn(conns, conns.Keys - (left - {c}), slot)
      {
        PresentMerged(conns, conns.Keys - left, global, c, slot);
        assert conns.Keys - left + {c} == conns.Keys - (left - {c});
      }
      global := Merge(global, conns[c]);
      left := left - {c};
    }
    assert conns.Keys - {} == conns.Keys;
  }

  method RollUp(samples: seq<Sample>) returns (global: Totals, conns: Conns)
    ensures forall slot :: Read(global, slot) == Direct(samples, None, slot)
    ensures ByConnection(conns, samples) && KeysExact(conns, samples) && GlobalKeys(global, samples)
  {
    conns := Accumulate(samples);
    global := MergeAll(conns);
    forall slot ensures Read(global, slot) == Direct(samples, None, slot) {
      assert SumOver({}, ReadAt(conns, slot)) == 0.0;
    }
    forall slot | Keyed(slot) ensures Present(global, slot) <==> Mentioned(samples, None, slot) {
      KeysRollUp(conns, samples, slot);
    }
  }

  /** The averages and rates of every connection. */
  method DeriveAll(conns: Conns) returns (r: map<string, Derived>)
    ensures r.Keys == conns.Keys
    ensures forall c :: c in conns ==> DerivedFrom(r[c], conns[c].waits.Keys, slot => Read(conns[c], slot))
  {
    r := map[];
    var left := conns.Keys;
    while left != {}
      invariant left <= conns.Keys && r.Keys == conns.Keys - left
      invariant forall c :: c in r ==> DerivedFrom(r[c], conns[c].waits.Keys, slot => Read(conns[c], slot))
      decreases left
    {
      var c :| c in left;
      var d := Derive(conns[c]);
      r := r[c := d];
      left := left - {c};
    }
  }
}
