// `build_overview`: what every number of the overview says about the samples,
// in the words of the samples themselves.
module Overview {
  import opened Json
  import opened Rollup

  // ------------------------------------------------- integers from samples

  // `int(value)` is the one integer less than one away from the value, on its
  // side of zero and no further out; a whole number is kept.
  lemma TruncIff(v: real, n: int)
    ensures n == Trunc(v) <==>
            && -1.0 < v - n as real < 1.0
            && (if v >= 0.0 then 0.0 <= n as real <= v else v <= n as real <= 0.0)
    ensures v == n as real ==> Trunc(v) == n
  {
  }

  // ------------------------------------------------- samples, spelled out

  /** The label has this value, or is missing and this is what missing counts as. */
  predicate Bears(s: Sample, key: string, value: string, missing: string) {
    if key in s.labels then s.labels[key] == value else value == missing
  }

  /** A sample of the one connection asked for, or of any. */
  predicate On(s: Sample, at: Option<string>) {
    at.None? || Bears(s, "connection", at.value, "")
  }

  function Of(at: Option<string>, metric: Metric): Sample -> bool {
    (s: Sample) => On(s, at) && s.metric == metric
  }

  function OfStatus(at: Option<string>, status: string): Sample -> bool {
    (s: Sample) => On(s, at) && s.metric == QueriesTotal && "status" in s.labels && s.labels["status"] == status
  }

  function OfLabel(at: Option<string>, metric: Metric, key: string, value: string): Sample -> bool {
    (s: Sample) => On(s, at) && s.metric == metric && Bears(s, key, value, "unknown")
  }

  /** The plain sum of the chosen samples' values. */
  function Total(samples: seq<Sample>, f: Sample -> bool): real {
    if samples == [] then 0.0
    else
      var n := |samples| - 1;
      if f(samples[n]) then Total(samples[..n], f) + samples[n].value else Total(samples[..n], f)
  }

  ghost predicate AnySample(samples: seq<Sample>, f: Sample -> bool) {
    exists s :: s in samples && f(s)
  }

  /** Seconds and gauges may be fractions; every other sample counts something. */
  ghost predicate CountsAreWhole(samples: seq<Sample>) {
    forall s :: s in samples ==>
      || s.metric in {DurationSum, WaitSum, ConcurrencyInUse, ConcurrencyMax, QueueDepth}
      || s.value == s.value.Floor as real
  }

  // ------------------------------------------------- the overview, spelled out

  ghost predicate Counters(t: Totals, samples: seq<Sample>, at: Option<string>) {
    && t.success as real == Total(samples, OfStatus(at, "success"))
    && t.rejected as real == Total(samples, OfStatus(at, "rejected"))
    && t.durationCount as real == Total(samples, Of(at, DurationCount))
    && t.costAttempts as real == Total(samples, Of(at, CostAttempts))
    && t.costWouldReject as real == Total(samples, Of(at, CostWouldReject))
  }

  /** Under each key, the sum over the samples that carry it. */
  ghost predicate Sums(m: map<string, int>, samples: seq<Sample>, at: Option<string>, metric: Metric, key: string) {
    forall k :: k in m ==> m[k] as real == Total(samples, OfLabel(at, metric, key, k))
  }

  /** The keys are those some sample carries. */
  ghost predicate Lists(m: map<string, int>, samples: seq<Sample>, at: Option<string>, metric: Metric, key: string) {
    forall k :: k in m <==> AnySample(samples, OfLabel(at, metric, key, k))
  }

  ghost predicate SumsWaits(m: map<string, Wait>, samples: seq<Sample>, at: Option<string>) {
    forall o :: o in m ==> m[o].count as real == Total(samples, OfLabel(at, WaitCount, "outcome", o))
  }

  ghost predicate SumsSeconds(m: map<string, Wait>, samples: seq<Sample>, at: Option<string>) {
    forall o :: o in m ==> m[o].total == Total(samples, OfLabel(at, WaitSum, "outcome", o))
  }

  ghost predicate ListsWaits(m: map<string, Wait>, samples: seq<Sample>, at: Option<string>) {
    forall o :: o in m <==>
      AnySample(samples, OfLabel(at, WaitCount, "outcome", o)) || AnySample(samples, OfLabel(at, WaitSum, "outcome", o))
  }

  ghost predicate Breakdowns(t: Totals, samples: seq<Sample>, at: Option<string>) {
    && Sums(t.reasons, samples, at, QueriesRejected, "reason")
    && Sums(t.quota, samples, at, QuotaRejections, "quota_kind")
    && Sums(t.disclosure, samples, at, DisclosureRejections, "budget_kind")
    && Sums(t.costUnavailable, samples, at, CostUnavailable, "reason")
    && SumsWaits(t.waits, samples, at)
  }

  ghost predicate Gauges(t: Totals, samples: seq<Sample>, at: Option<string>) {
    && t.durationSum == Total(samples, Of(at, DurationSum))
    && t.inUse == Total(samples, Of(at, ConcurrencyInUse))
    && t.maxInUse == Total(samples, Of(at, ConcurrencyMax))
    && t.depth == Total(samples, Of(at, QueueDepth))
    && SumsSeconds(t.waits, samples, at)
  }

  ghost predicate Keys(t: Totals, samples: seq<Sample>, at: Option<string>) {
    && Lists(t.reasons, samples, at, QueriesRejected, "reason")
    && Lists(t.quota, samples, at, QuotaRejections, "quota_kind")
    && Lists(t.disclosure, samples, at, DisclosureRejections, "budget_kind")
    && Lists(t.costUnavailable, samples, at, CostUnavailable, "reason")
    && ListsWaits(t.waits, samples, at)
  }

  /** Totals, averages and rates, each absent where its divisor is zero. */
  ghost predicate Derives(d: Derived, t: Totals) {
    && d.queries == t.success + t.rejected
    && d.avgDuration == (if t.durationCount == 0 then None else Some(t.durationSum / t.durationCount as real))
    && d.utilization == (if t.maxInUse == 0.0 then None else Some(t.inUse / t.maxInUse))
    && d.failOpenRate == (if t.costAttempts == 0 then None else Some(d.unavailable as real / t.costAttempts as real))
    && d.avgWait.Keys == t.waits.Keys
    && forall o :: o in t.waits ==>
         d.avgWait[o] == if t.waits[o].count == 0 then None else Some(t.waits[o].total / t.waits[o].count as real)
  }

  /** The whole overview of one connection, or of all. */
  ghost predicate Tells(t: Totals, d: Derived, samples: seq<Sample>, at: Option<string>) {
    && Keys(t, samples, at) && Gauges(t, samples, at) && Derives(d, t)
    && (CountsAreWhole(samples) ==>
          Counters(t, samples, at) && Breakdowns(t, samples, at) && d.unavailable as real == Total(samples, Of(at, CostUnavailable)))
  }

  // ------------------------------------------------------------ proofs

  /** The sample counts for the slot with its plain value. */
  ghost predicate Plain(samples: seq<Sample>, at: Option<string>, slot: Slot, f: Sample -> bool) {
    forall s :: s in samples ==>
      && (f(s) <==> On(s, at) && Feeds(s, slot))
      && (f(s) ==> Part(s, slot) == s.value)
  }

  lemma {:induction false} DirectIsTotal(samples: seq<Sample>, at: Option<string>, slot: Slot, f: Sample -> bool)
    requires Plain(samples, at, slot, f)
    ensures Direct(samples, at, slot) == Total(samples, f)
  {
    if samples != [] {
      var n := |samples| - 1;
      assert samples == samples[..n] + [samples[n]];
      DirectIsTotal(samples[..n], at, slot, f);
    }
  }

  lemma DerivedMeans(d: Derived, t: Totals)
    requires DerivedFrom(d, t.waits.Keys, slot => Read(t, slot))
    ensures Derives(d, t)
  {
    var f := slot => Read(t, slot);
    assert f(Success) == t.success as real && f(Rejected) == t.rejected as real;
    assert f(DurationSeconds) == t.durationSum && f(Durations) == t.durationCount as real;
    assert f(InUse) == t.inUse && f(MaxInUse) == t.maxInUse;
    assert f(AllUnavailable) == d.unavailable as real && f(Attempts) == t.costAttempts as real;
    forall o | o in t.waits
      ensures d.avgWait[o] == if t.waits[o].count == 0 then None else Some(t.waits[o].total / t.waits[o].count as real)
    {
      assert f(WaitSeconds(o)) == t.waits[o].total && f(Waits(o)) == t.waits[o].count as real;
    }
  }

  function Chosen(at: Option<string>, slot: Slot): Sample -> bool {
    match slot
    case Success => OfStatus(at, "success")
    case Rejected => OfStatus(at, "rejected")
    case Reason(r) => OfLabel(at, QueriesRejected, "reason", r)
    case Durations => Of(at, DurationCount)
    case DurationSeconds => Of(at, DurationSum)
    case InUse => Of(at, ConcurrencyInUse)
    case MaxInUse => Of(at, ConcurrencyMax)
    case Depth => Of(at, QueueDepth)
    case Waits(o) => OfLabel(at, WaitCount, "outcome", o)
    case WaitSeconds(o) => OfLabel(at, WaitSum, "outcome", o)
    case Quota(k) => OfLabel(at, QuotaRejections, "quota_kind", k)
    case Disclosure(k) => OfLabel(at, DisclosureRejections, "budget_kind", k)
    case Attempts => Of(at, CostAttempts)
    case Unavailable(r) => OfLabel(at, CostUnavailable, "reason", r)
    case AllUnavailable => Of(at, CostUnavailable)
    case WouldReject => Of(at, CostWouldReject)
  }

  lemma ChosenFeeds(s: Sample, at: Option<string>, slot: Slot)
    ensures Chosen(at, slot)(s) <==> On(s, at) && Feeds(s, slot)
  {
  }

  lemma ChosenTotal(samples: seq<Sample>, at: Option<string>, slot: Slot)
    requires Fractional(slot) || CountsAreWhole(samples)
    ensures Direct(samples, at, slot) == Total(samples, Chosen(at, slot))
  {
    forall s | s in samples
      ensures Chosen(at, slot)(s) <==> On(s, at) && Feeds(s, slot)
      ensures Feeds(s, slot) ==> Part(s, slot) == s.value
    {
      ChosenFeeds(s, at, slot);
      if !Fractional(slot) && Feeds(s, slot) {
        TruncIff(s.value, s.value.Floor);
      }
    }
    DirectIsTotal(samples, at, slot, Chosen(at, slot));
  }

  ghost predicate Reads(t: Totals, samples: seq<Sample>, at: Option<string>) {
    forall slot :: Read(t, slot) == Direct(samples, at, slot)
  }

  lemma CountersMean(t: Totals, samples: seq<Sample>, at: Option<string>)
    requires Reads(t, samples, at) && CountsAreWhole(samples)
    ensures Counters(t, samples, at)
  {
    ChosenTotal(samples, at, Success);
    ChosenTotal(samples, at, Rejected);
    ChosenTotal(samples, at, Durations);
    ChosenTotal(samples, at, Attempts);
    ChosenTotal(samples, at, WouldReject);
  }

  lemma ReasonSums(t: Totals, samples: seq<Sample>, at: Option<string>)
    requires Reads(t, samples, at) && CountsAreWhole(samples)
    ensures Sums(t.reasons, samples, at, QueriesRejected, "reason")
  {
    forall k | k in t.reasons ensures t.reasons[k] as real == Total(samples, OfLabel(at, QueriesRejected, "reason", k)) {
      ChosenTotal(samples, at, Reason(k));
      assert Read(t, Reason(k)) == t.reasons[k] as real;
    }
  }

  lemma QuotaSums(t: Totals, samples: seq<Sample>, at: Option<string>)
    requires Reads(t, samples, at) && CountsAreWhole(samples)
    ensures Sums(t.quota, samples, at, QuotaRejections, "quota_kind")
  {
    forall k | k in t.quota ensures t.quota[k] as real == Total(samples, OfLabel(at, QuotaRejections, "quota_kind", k)) {
      ChosenTotal(samples, at, Quota(k));
      assert Read(t, Quota(k)) == t.quota[k] as real;
    }
  }

  lemma DisclosureSums(t: Totals, samples: seq<Sample>, at: Option<string>)
    requires Reads(t, samples, at) && CountsAreWhole(samples)
    ensures Sums(t.disclosure, samples, at, DisclosureRejections, "budget_kind")
  {
    forall k | k in t.disclosure ensures t.disclosure[k] as real == Total(samples, OfLabel(at, DisclosureRejections, "budget_kind", k)) {
      ChosenTotal(samples, at, Disclosure(k));
      assert Read(t, Disclosure(k)) == t.disclosure[k] as real;
    }
  }

  lemma UnavailableSums(t: Totals, samples: seq<Sample>, at: Option<string>)
    requires Reads(t, samples, at) && CountsAreWhole(samples)
    ensures Sums(t.costUnavailable, samples, at, CostUnavailable, "reason")
  {
    forall k | k in t.costUnavailable ensures t.costUnavailable[k] as real == Total(samples, OfLabel(at, CostUnavailable, "reason", k)) {
      ChosenTotal(samples, at, Unavailable(k));
      assert Read(t, Unavailable(k)) == t.costUnavailable[k] as real;
    }
  }

  lemma WaitSums(t: Totals, samples: seq<Sample>, at: Option<string>)
    requires Reads(t, samples, at) && CountsAreWhole(samples)
    ensures SumsWaits(t.waits, samples, at)
  {
    forall o | o in t.waits ensures t.waits[o].count as real == Total(samples, OfLabel(at, WaitCount, "outcome", o)) {
      ChosenTotal(samples, at, Waits(o));
      assert Read(t, Waits(o)) == t.waits[o].count as real;
    }
  }

  lemma SecondsMean(t: Totals, samples: seq<Sample>, at: Option<string>)
    requires Reads(t, samples, at)
    ensures SumsSeconds(t.waits, samples, at)
  {
    forall o | o in t.waits ensures t.waits[o].total == Total(samples, OfLabel(at, WaitSum, "outcome", o)) {
      ChosenTotal(samples, at, WaitSeconds(o));
      assert Read(t, WaitSeconds(o)) == t.waits[o].total;
    }
  }

  lemma BreakdownsMean(t: Totals, samples: seq<Sample>, at: Option<string>)
    requires Reads(t, samples, at) && CountsAreWhole(samples)
    ensures Breakdowns(t, samples, at)
  {
    ReasonSums(t, samples, at);
    QuotaSums(t, samples, at);
    DisclosureSums(t, samples, at);
    UnavailableSums(t, samples, at);
    WaitSums(t, samples, at);
  }

  lemma GaugesMean(t: Totals, samples: seq<Sample>, at: Option<string>)
    requires Reads(t, samples, at)
    ensures Gauges(t, samples, at)
  {
    ChosenTotal(samples, at, DurationSeconds);
    ChosenTotal(samples, at, InUse);
    ChosenTotal(samples, at, MaxInUse);
    ChosenTotal(samples, at, Depth);
    SecondsMean(t, samples, at);
  }

  ghost predicate PresentExact(t: Totals, samples: seq<Sample>, at: Option<string>) {
    forall slot :: Keyed(slot) ==> (Present(t, slot) <==> Mentioned(samples, at, slot))
  }

  lemma MentionedMeans(samples: seq<Sample>, at: Option<string>, slot: Slot)
    requires Keyed(slot)
    ensures !slot.Waits? && !slot.WaitSeconds? ==> (Mentioned(samples, at, slot) <==> AnySample(samples, Chosen(at, slot)))
    ensures slot.Waits? ==> (Mentioned(samples, at, slot) <==>
              AnySample(samples, Chosen(at, slot)) || AnySample(samples, Chosen(at, WaitSeconds(slot.outcome))))
  {
    forall s | s in samples
      ensures From(s, at) && Feeds(s, slot) <==> Chosen(at, slot)(s)
      ensures slot.Waits? ==> (From(s, at) && Feeds(s, WaitSeconds(slot.outcome)) <==> Chosen(at, WaitSeconds(slot.outcome))(s))
    {
      ChosenFeeds(s, at, slot);
      if slot.Waits? {
        ChosenFeeds(s, at, WaitSeconds(slot.outcome));
      }
    }
  }

  lemma ReasonKeys(t: Totals, samples: seq<Sample>, at: Option<string>)
    requires PresentExact(t, samples, at)
    ensures Lists(t.reasons, samples, at, QueriesRejected, "reason")
  {
    forall k ensures k in t.reasons <==> AnySample(samples, OfLabel(at, QueriesRejected, "reason", k)) {
      MentionedMeans(samples, at, Reason(k));
      assert Present(t, Reason(k)) <==> k in t.reasons;
    }
  }

  lemma QuotaKeys(t: Totals, samples: seq<Sample>, at: Option<string>)
    requires PresentExact(t, samples, at)
    ensures Lists(t.quota, samples, at, QuotaRejections, "quota_kind")
  {
    forall k ensures k in t.quota <==> AnySample(samples, OfLabel(at, QuotaRejections, "quota_kind", k)) {
      MentionedMeans(samples, at, Quota(k));
      assert Present(t, Quota(k)) <==> k in t.quota;
    }
  }

  lemma DisclosureKeys(t: Totals, samples: seq<Sample>, at: Option<string>)
    requires PresentExact(t, samples, at)
    ensures Lists(t.disclosure, samples, at, DisclosureRejections, "budget_kind")
  {
    forall k ensures k in t.disclosure <==> AnySample(samples, OfLabel(at, DisclosureRejections, "budget_kind", k)) {
      MentionedMeans(samples, at, Disclosure(k));
      assert Present(t, Disclosure(k)) <==> k in t.disclosure;
    }
  }

  lemma UnavailableKeys(t: Totals, samples: seq<Sample>, at: Option<string>)
    requires PresentExact(t, samples, at)
    ensures Lists(t.costUnavailable, samples, at, CostUnavailable, "reason")
  {
    forall k ensures k in t.costUnavailable <==> AnySample(samples, OfLabel(at, CostUnavailable, "reason", k)) {
      MentionedMeans(samples, at, Unavailable(k));
      assert Present(t, Unavailable(k)) <==> k in t.costUnavailable;
    }
  }

  lemma WaitKeys(t: Totals, samples: seq<Sample>, at: Option<string>)
    requires PresentExact(t, samples, at)
    ensures ListsWaits(t.waits, samples, at)
  {
    forall o ensures o in t.waits <==>
      AnySample(samples, OfLabel(at, WaitCount, "outcome", o)) || AnySample(samples, OfLabel(at, WaitSum, "outcome", o))
    {
      MentionedMeans(samples, at, Waits(o));
      assert Present(t, Waits(o)) <==> o in t.waits;
    }
  }

  lemma KeysMean(t: Totals, samples: seq<Sample>, at: Option<string>)
    requires PresentExact(t, samples, at)
    ensures Keys(t, samples, at)
  {
    ReasonKeys(t, samples, at);
    QuotaKeys(t, samples, at);
    DisclosureKeys(t, samples, at);
    UnavailableKeys(t, samples, at);
    WaitKeys(t, samples, at);
  }

  lemma UnavailableMean(t: Totals, d: Derived, samples: seq<Sample>, at: Option<string>)
    requires Reads(t, samples, at) && CountsAreWhole(samples) && d.unavailable as real == Read(t, AllUnavailable)
    ensures d.unavailable as real == Total(samples, Of(at, CostUnavailable))
  {
    ChosenTotal(samples, at, AllUnavailable);
  }

  lemma TotalsTell(t: Totals, d: Derived, samples: seq<Sample>, at: Option<string>)
    requires Reads(t, samples, at) && PresentExact(t, samples, at) && DerivedFrom(d, t.waits.Keys, slot => Read(t, slot))
    ensures Tells(t, d, samples, at)
  {
    KeysMean(t, samples, at);
    GaugesMean(t, samples, at);
    DerivedMeans(d, t);
    if CountsAreWhole(samples) {
      CountersMean(t, samples, at);
      BreakdownsMean(t, samples, at);
      UnavailableMean(t, d, samples, at);
    }
  }

  lemma ConnectionTells(conns: Conns, c: string, d: Derived, samples: seq<Sample>)
    requires ByConnection(conns, samples) && KeysExact(conns, samples) && c in conns
    requires DerivedFrom(d, conns[c].waits.Keys, slot => Read(conns[c], slot))
    ensures Tells(conns[c], d, samples, Some(c))
  {
    forall slot ensures Read(conns[c], slot) == Direct(samples, Some(c), slot) {
      assert Direct(samples, Some(c), slot) == ReadAt(conns, slot)(c);
    }
    TotalsTell(conns[c], d, samples, Some(c));
  }

  // ------------------------------------------------------------ the report

  /** The fleet numbers and those of each connection. A connection has an entry
      exactly when some sample that counts for anything names it. */
  method BuildOverview(samples: seq<Sample>)
    returns (global: Totals, derived: Derived, conns: Conns, perConn: map<string, Derived>)
    ensures Tells(global, derived, samples, None)
    ensures perConn.Keys == conns.Keys
    ensures forall c :: c in conns <==> exists s :: s in samples && s.metric != Unrelated && Bears(s, "connection", c, "")
    ensures forall c :: c in conns ==> Tells(conns[c], perConn[c], samples, Some(c))
  {
    global, conns := RollUp(samples);
    derived := Derive(global);
    perConn := DeriveAll(conns);
    TotalsTell(global, derived, samples, None);
    forall c | c in conns ensures Tells(conns[c], perConn[c], samples, Some(c)) {
      ConnectionTells(conns, c, perConn[c], samples);
    }
    forall c ensures c in conns <==> exists s :: s in samples && s.metric != Unrelated && Bears(s, "connection", c, "") {
      ReportedMeans(samples, c);
    }
  }

  lemma ReportedMeans(samples: seq<Sample>, c: string)
    ensures Reported(samples, Some(c)) <==> exists s :: s in samples && s.metric != Unrelated && Bears(s, "connection", c, "")
  {
    forall s ensures From(s, Some(c)) <==> s.metric != Unrelated && Bears(s, "connection", c, "") {
    }
  }
}
