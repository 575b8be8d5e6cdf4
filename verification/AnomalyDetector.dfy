// `detect_anomalies` and `build_anomaly_report`: per-principal windows folded
// from scanned events, their signals, and the capped ranking.
module AnomalyDetector {
  import opened Json
  import opened TailScan
  import opened ReverseReader
  import StableSort
  import opened Counting

  datatype AuditEvent = AuditEvent(principal: Option<string>, connection: Option<string>, rejected: bool)

  type Seen = Stamped<AuditEvent>

  datatype Thresholds = Thresholds(
    recentSeconds: int, baselineSeconds: int,
    minBaseline: nat, minRecent: nat,
    volumeRatio: real, rejectionDelta: real,
    maxPrincipals: nat, maxNewConnections: nat)

  /** What the settings model enforces. */
  predicate Sane(th: Thresholds) {
    th.recentSeconds > 0 && th.baselineSeconds > 0 && th.minBaseline >= 1 && th.minRecent >= 1
  }

  function Who(e: Seen): string {
    if e.event.principal.None? || e.event.principal.value == "" then "<unauthenticated>" else e.event.principal.value
  }

  function ScanWindow(now: int, th: Thresholds): Window {
    Window(now - th.recentSeconds - th.baselineSeconds, now)
  }

  predicate Recent(e: Seen, now: int, th: Thresholds) {
    now - th.recentSeconds < e.at <= now
  }

  predicate Baseline(e: Seen, now: int, th: Thresholds) {
    now - th.recentSeconds - th.baselineSeconds < e.at <= now - th.recentSeconds
  }

  // ------------------------------------------------- direct aggregation

  /** The connections named by the chosen events. */
  function Connections(s: seq<Seen>, f: Seen -> bool): set<string> {
    if s == [] then {}
    else
      var e := s[|s| - 1];
      Connections(s[..|s| - 1], f) +
      (if f(e) && e.event.connection.Some? && e.event.connection.value != "" then {e.event.connection.value} else {})
  }

  datatype Acc = Acc(
    recentTotal: nat, recentRejected: nat, recentConnections: set<string>,
    baselineTotal: nat, baselineRejected: nat, baselineConnections: set<string>)

  const NoActivity := Acc(0, 0, {}, 0, 0, {})

  function InRecent(p: string, now: int, th: Thresholds): Seen -> bool {
    (e: Seen) => Who(e) == p && Recent(e, now, th)
  }

  function InBaseline(p: string, now: int, th: Thresholds): Seen -> bool {
    (e: Seen) => Who(e) == p && Baseline(e, now, th)
  }

  function AndRejected(f: Seen -> bool): Seen -> bool {
    (e: Seen) => f(e) && e.event.rejected
  }

  /** A principal's two windows counted directly from a list of events. */
  function Direct(events: seq<Seen>, p: string, now: int, th: Thresholds): Acc {
    var r, b := InRecent(p, now, th), InBaseline(p, now, th);
    Acc(Count(events, r), Count(events, AndRejected(r)), Connections(events, r),
        Count(events, b), Count(events, AndRejected(b)), Connections(events, b))
  }

  lemma {:induction false} ConnectionsMembers(s: seq<Seen>, f: Seen -> bool, c: string)
    ensures c in Connections(s, f) <==> c != "" && exists e :: e in s && f(e) && e.event.connection == Some(c)
  {
    if s != [] {
      var n := |s| - 1;
      ConnectionsMembers(s[..n], f, c);
      assert s == s[..n] + [s[n]];
      assert forall e :: e in s <==> e in s[..n] || e == s[n];
    }
  }

  // Whatever the order of events, every principal's windows are the same.
  lemma DirectPermutes(a: seq<Seen>, b: seq<Seen>, p: string, now: int, th: Thresholds)
    requires multiset(a) == multiset(b)
    ensures Direct(a, p, now, th) == Direct(b, p, now, th)
  {
    var r, bl := InRecent(p, now, th), InBaseline(p, now, th);
    CountPermutes(a, b, r);
    CountPermutes(a, b, AndRejected(r));
    CountPermutes(a, b, bl);
    CountPermutes(a, b, AndRejected(bl));
    SameConnections(a, b, r);
    SameConnections(a, b, bl);
  }

  lemma SameConnections(a: seq<Seen>, b: seq<Seen>, f: Seen -> bool)
    requires multiset(a) == multiset(b)
    ensures Connections(a, f) == Connections(b, f)
  {
    forall e ensures e in a <==> e in b {
      assert e in a <==> e in multiset(a);
      assert e in b <==> e in multiset(b);
    }
    forall c ensures c in Connections(a, f) <==> c in Connections(b, f) {
      ConnectionsMembers(a, f, c);
      ConnectionsMembers(b, f, c);
    }
  }

  /** Every valid query event of the file, in window or not. */
  ghost predicate WindowOnly(f: Seen -> bool, w: Window) {
    forall e :: f(e) ==> w.start < e.at <= w.now
  }

  function Reached(e: Seen): set<string> {
    if e.event.connection.Some? && e.event.connection.value != "" then {e.event.connection.value} else {}
  }

  lemma ConnectionsSnoc(s: seq<Seen>, e: Seen, f: Seen -> bool)
    ensures Connections(s + [e], f) == Connections(s, f) + if f(e) then Reached(e) else {}
  {
    assert (s + [e])[..|s|] == s;
  }

  lemma {:induction false} FilteredCount(cs: seq<Class<AuditEvent>>, w: Window, f: Seen -> bool)
    requires WindowOnly(f, w)
    ensures Count(InWindow(cs, w), f) == Count(AllEvents(cs), f)
  {
    if cs != [] {
      var n := |cs| - 1;
      FilteredCount(cs[..n], w, f);
      if cs[n].Event? {
        var e := cs[n].stamped;
        CountSnoc(AllEvents(cs[..n]), e, f);
        CountSnoc(InWindow(cs[..n], w), e, f);
      }
    }
  }

  lemma {:induction false} FilteredConnections(cs: seq<Class<AuditEvent>>, w: Window, f: Seen -> bool)
    requires WindowOnly(f, w)
    ensures Connections(InWindow(cs, w), f) == Connections(AllEvents(cs), f)
  {
    if cs != [] {
      var n := |cs| - 1;
      FilteredConnections(cs[..n], w, f);
      if cs[n].Event? {
        var e := cs[n].stamped;
        ConnectionsSnoc(AllEvents(cs[..n]), e, f);
        ConnectionsSnoc(InWindow(cs[..n], w), e, f);
      }
    }
  }

  // Counting what a complete scan kept is counting every event of the file.
  lemma {:induction false} DirectFromScan(cs: seq<Class<AuditEvent>>, p: string, now: int, th: Thresholds)
    requires Sane(th)
    ensures Direct(InWindow(cs, ScanWindow(now, th)), p, now, th) == Direct(AllEvents(cs), p, now, th)
  {
    var w, r, b := ScanWindow(now, th), InRecent(p, now, th), InBaseline(p, now, th);
    FilteredCount(cs, w, r);
    FilteredCount(cs, w, AndRejected(r));
    FilteredCount(cs, w, b);
    FilteredCount(cs, w, AndRejected(b));
    FilteredConnections(cs, w, r);
    FilteredConnections(cs, w, b);
  }

  // The two windows partition the scanned one.
  lemma {:induction false} WindowsPartition(events: seq<Seen>, p: string, now: int, th: Thresholds)
    requires Sane(th)
    ensures var acc, w := Direct(events, p, now, th), ScanWindow(now, th);
            acc.recentTotal + acc.baselineTotal ==
            Count(events, (e: Seen) => Who(e) == p && w.start < e.at <= w.now)
  {
    if events != [] {
      WindowsPartition(events[..|events| - 1], p, now, th);
    }
  }

  // ---------------------------------------------------------- signals

  datatype Signal =
    | VolumeSpike(ratio: real)
    | RejectionSpike(recent: real, baseline: real)
    | NewConnection(connection: string)

  function Score(s: Signal): real {
    match s
    case VolumeSpike(ratio) => ratio
    case RejectionSpike(recent, baseline) => recent - baseline
    case NewConnection(_) => 2.0
  }

  predicate EnoughTraffic(acc: Acc, th: Thresholds) {
    acc.baselineTotal >= th.minBaseline && acc.recentTotal >= th.minRecent
  }

  function VolumeRatio(acc: Acc, th: Thresholds): real
    requires Sane(th) && EnoughTraffic(acc, th)
  {
    var recent := acc.recentTotal as real / th.recentSeconds as real;
    var baseline := acc.baselineTotal as real / th.baselineSeconds as real;
    assert baseline > 0.0;
    recent / baseline
  }

  function Share(part: nat, whole: nat): real
    requires whole > 0
  {
    part as real / whole as real
  }

  function Spikes(acc: Acc, th: Thresholds): seq<Signal>
    requires Sane(th) && EnoughTraffic(acc, th)
  {
    var ratio := VolumeRatio(acc, th);
    var recent, baseline := Share(acc.recentRejected, acc.recentTotal), Share(acc.baselineRejected, acc.baselineTotal);
    (if ratio >= th.volumeRatio then [VolumeSpike(ratio)] else []) +
    (if recent - baseline >= th.rejectionDelta then [RejectionSpike(recent, baseline)] else [])
  }

  function Take(s: seq<string>, n: nat): seq<string> {
    if |s| <= n then s else s[..n]
  }

  function AsNew(cs: seq<string>): (r: seq<Signal>)
    ensures |r| == |cs| && forall i :: 0 <= i < |cs| ==> r[i] == NewConnection(cs[i])
  {
    seq(|cs|, i requires 0 <= i < |cs| => NewConnection(cs[i]))
  }

  /** `_principal_signals`. */
  ghost function Signals(acc: Acc, th: Thresholds): seq<Signal>
    requires Sane(th)
  {
    if !EnoughTraffic(acc, th) then []
    else
      var unseen := StableSort.Listing(acc.recentConnections - acc.baselineConnections);
      Spikes(acc, th) + AsNew(Take(unseen, th.maxNewConnections))
  }

  method PrincipalSignals(acc: Acc, th: Thresholds) returns (signals: seq<Signal>)
    requires Sane(th)
    ensures signals == Signals(acc, th)
  {
    if acc.baselineTotal < th.minBaseline || acc.recentTotal < th.minRecent {
      return [];
    }
    signals := [];
    var ratio := VolumeRatio(acc, th);
    if ratio >= th.volumeRatio {
      signals := signals + [VolumeSpike(ratio)];
    }
    var recent, baseline := Share(acc.recentRejected, acc.recentTotal), Share(acc.baselineRejected, acc.baselineTotal);
    if recent - baseline >= th.rejectionDelta {
      signals := signals + [RejectionSpike(recent, baseline)];
    }
    assert signals == Spikes(acc, th);
    var names := StableSort.SortNames(acc.recentConnections - acc.baselineConnections);
    var shown := Take(names, th.maxNewConnections);
    for i := 0 to |shown|
      invariant signals == Spikes(acc, th) + AsNew(shown[..i])
    {
      signals := signals + [NewConnection(shown[i])];
    }
    assert shown[..|shown|] == shown;
  }

  lemma AtLeastRatio(a: real, b: real, r: real)
    requires b > 0.0
    ensures a / b >= r <==> a >= r * b
  {
    assert a / b * b == a;
    if a / b >= r {
      ScaleUp(r, a / b, b);
    } else {
      assert a / b < r;
      ScaleUpStrict(a / b, r, b);
    }
  }

  lemma ScaleUp(x: real, y: real, k: real)
    requires x <= y && k > 0.0
    ensures x * k <= y * k
  {
  }

  lemma ScaleUpStrict(x: real, y: real, k: real)
    requires x < y && k > 0.0
    ensures x * k < y * k
  {
  }

  /** The recent rate is at least the ratio times the baseline rate, told without rates. */
  predicate VolumeJump(acc: Acc, th: Thresholds) {
    acc.recentTotal as real * th.baselineSeconds as real >=
    th.volumeRatio * (acc.baselineTotal as real * th.recentSeconds as real)
  }

  lemma RatioOfRates(a: real, s: real, b: real, t: real)
    requires s > 0.0 && b > 0.0 && t > 0.0
    ensures b / t > 0.0 && a / s / (b / t) == a * t / (b * s)
  {
    var q := a / s / (b / t);
    assert b / t > 0.0;
    assert q * (b / t) == a / s;
    assert b / t * t == b && a / s * s == a;
    assert q * b == q * (b / t) * t;
    assert q * b * s == a / s * t * s == a * t;
    assert q * (b * s) == a * t;
  }

  lemma VolumeSpikeIff(acc: Acc, th: Thresholds)
    requires Sane(th) && EnoughTraffic(acc, th)
    ensures VolumeRatio(acc, th) >= th.volumeRatio <==> VolumeJump(acc, th)
  {
    var a, s, b, t := acc.recentTotal as real, th.recentSeconds as real, acc.baselineTotal as real, th.baselineSeconds as real;
    RatioOfRates(a, s, b, t);
    AtLeastRatio(a * t, b * s, th.volumeRatio);
  }

  // A principal is flagged exactly when both windows carry enough traffic and
  // its rate, its rejected share or its connections moved as the settings say.
  lemma FlaggedIff(acc: Acc, th: Thresholds)
    requires Sane(th)
    ensures Signals(acc, th) != [] <==>
            && EnoughTraffic(acc, th)
            && (|| VolumeJump(acc, th)
                || Share(acc.recentRejected, acc.recentTotal) >= Share(acc.baselineRejected, acc.baselineTotal) + th.rejectionDelta
                || (th.maxNewConnections > 0 && acc.recentConnections - acc.baselineConnections != {}))
  {
    if EnoughTraffic(acc, th) {
      VolumeSpikeIff(acc, th);
      StableSort.ListingLists(acc.recentConnections - acc.baselineConnections);
    }
  }

  // Every new connection is named, unless the cap is reached; then those named
  // come first in alphabetical order.
  lemma NewConnectionsNamed(acc: Acc, th: Thresholds, c: string)
    requires Sane(th) && EnoughTraffic(acc, th)
    ensures NewConnection(c) in Signals(acc, th) ==> c in acc.recentConnections && c !in acc.baselineConnections
    ensures c in acc.recentConnections && c !in acc.baselineConnections && NewConnection(c) !in Signals(acc, th) ==>
              |acc.recentConnections - acc.baselineConnections| > th.maxNewConnections
  {
    var unseen := StableSort.Listing(acc.recentConnections - acc.baselineConnections);
    StableSort.ListingLists(acc.recentConnections - acc.baselineConnections);
    var shown := Take(unseen, th.maxNewConnections);
    var named := AsNew(shown);
    assert Signals(acc, th) == Spikes(acc, th) + named;
    if NewConnection(c) in Signals(acc, th) {
      assert NewConnection(c) in named;
      var i :| 0 <= i < |named| && named[i] == NewConnection(c);
      assert shown[i] in unseen;
    }
    if c in shown {
      var i :| 0 <= i < |shown| && shown[i] == c;
      assert named[i] == NewConnection(c);
      assert NewConnection(c) in named;
    }
  }

  // ------------------------------------------------- folding and ranking

  datatype Flagged = Flagged(principal: string, recentEvents: nat, baselineEvents: nat, signals: seq<Signal>)

  function MaxScore(signals: seq<Signal>): real
    requires signals != []
  {
    if |signals| == 1 then Score(signals[0])
    else
      var rest := MaxScore(signals[1..]);
      if Score(signals[0]) >= rest then Score(signals[0]) else rest
  }

  // The score a principal is ranked by is attained and never exceeded.
  lemma {:induction false} MaxScoreIsMax(signals: seq<Signal>)
    requires signals != []
    ensures exists i :: 0 <= i < |signals| && Score(signals[i]) == MaxScore(signals)
    ensures forall i :: 0 <= i < |signals| ==> Score(signals[i]) <= MaxScore(signals)
  {
    if |signals| == 1 {
      assert Score(signals[0]) == MaxScore(signals);
    } else {
      MaxScoreIsMax(signals[1..]);
      var j :| 0 <= j < |signals[1..]| && Score(signals[1..][j]) == MaxScore(signals[1..]);
      assert Score(signals[j + 1]) == MaxScore(signals[1..]);
      assert forall i :: 1 <= i < |signals| ==> signals[i] == signals[1..][i - 1];
    }
  }

  /** A principal's rank is its strongest signal; nobody is listed without one. */
  function Rank(f: Flagged): real {
    if f.signals == [] then 0.0 else MaxScore(f.signals)
  }

  predicate Outranks(a: Flagged, b: Flagged) {
    Rank(a) >= Rank(b)
  }

  predicate Counts(e: Seen, now: int, th: Thresholds) {
    ScanWindow(now, th).start < e.at <= now
  }

  function AddEvent(acc: Acc, e: Seen, now: int, th: Thresholds): Acc {
    var hit := if e.event.rejected then 1 else 0;
    if e.at > now - th.recentSeconds
    then acc.(recentTotal := acc.recentTotal + 1, recentRejected := acc.recentRejected + hit,
              recentConnections := acc.recentConnections + Reached(e))
    else acc.(baselineTotal := acc.baselineTotal + 1, baselineRejected := acc.baselineRejected + hit,
              baselineConnections := acc.baselineConnections + Reached(e))
  }

  // One more event moves one principal's windows, and only if it lies in them.
  lemma DirectStep(events: seq<Seen>, e: Seen, p: string, now: int, th: Thresholds)
    requires Sane(th)
    ensures Direct(events + [e], p, now, th) ==
            if Counts(e, now, th) && Who(e) == p then AddEvent(Direct(events, p, now, th), e, now, th)
            else Direct(events, p, now, th)
  {
    assert (events + [e])[..|events|] == events;
  }

  /** The principals with any activity in the window. */
  function Active(events: seq<Seen>, now: int, th: Thresholds): set<string> {
    if events == [] then {}
    else
      var n := |events| - 1;
      var rest := Active(events[..n], now, th);
      if Counts(events[n], now, th) then rest + {Who(events[n])} else rest
  }

  ghost predicate Folded(per: map<string, Acc>, events: seq<Seen>, now: int, th: Thresholds) {
    && per.Keys == Active(events, now, th)
    && (forall p :: p in per ==> per[p] == Direct(events, p, now, th))
    && (forall p :: p !in per ==> Direct(events, p, now, th) == NoActivity)
  }

  lemma FoldedStep(per: map<string, Acc>, events: seq<Seen>, e: Seen, now: int, th: Thresholds)
    requires Sane(th) && Folded(per, events, now, th)
    ensures Folded(
              if Counts(e, now, th)
              then per[Who(e) := AddEvent(if Who(e) in per then per[Who(e)] else NoActivity, e, now, th)] else per,
              events + [e], now, th)
  {
    var after := if Counts(e, now, th)
                 then per[Who(e) := AddEvent(if Who(e) in per then per[Who(e)] else NoActivity, e, now, th)] else per;
    ActiveSnoc(events, e, now, th);
    forall p ensures if p in after then after[p] == Direct(events + [e], p, now, th)
                     else Direct(events + [e], p, now, th) == NoActivity {
      DirectStep(events, e, p, now, th);
    }
  }

  /** The accumulating loop of `detect_anomalies`. */
  method Accumulate(events: seq<Seen>, now: int, th: Thresholds) returns (per: map<string, Acc>)
    requires Sane(th)
    ensures Folded(per, events, now, th)
  {
    per := map[];
    for i := 0 to |events|
      invariant Folded(per, events[..i], now, th)
    {
      var e := events[i];
      assert events[..i + 1] == events[..i] + [e];
      FoldedStep(per, events[..i], e, now, th);
      if e.at <= now - th.recentSeconds - th.baselineSeconds || e.at > now {
        continue;
      }
      var p := Who(e);
      var acc := if p in per then per[p] else NoActivity;
      per := per[p := AddEvent(acc, e, now, th)];
    }
    assert events[..|events|] == events;
  }

  /** The row a principal gets if it has any signal. */
  ghost function Row(p: string, acc: Acc, th: Thresholds): Flagged
    requires Sane(th)
  {
    Flagged(p, acc.recentTotal, acc.baselineTotal, Signals(acc, th))
  }

  /** Every flagged principal with its row, told from the events directly. */
  ghost function Table(events: seq<Seen>, now: int, th: Thresholds): map<string, Flagged>
    requires Sane(th)
  {
    map p | p in Active(events, now, th) && Signals(Direct(events, p, now, th), th) != [] ::
      Row(p, Direct(events, p, now, th), th)
  }

  ghost predicate Keyed(m: map<string, Flagged>) {
    forall p :: p in m ==> m[p].principal == p
  }

  /** Distinct rows of the table. */
  ghost predicate FromTable(s: seq<Flagged>, m: map<string, Flagged>) {
    && (forall i :: 0 <= i < |s| ==> s[i].principal in m && s[i] == m[s[i].principal])
    && (forall i, j :: 0 <= i < j < |s| ==> s[i].principal != s[j].principal)
  }

  /** A capped ranking of the table: the best rows, best first. */
  ghost predicate Ranking(r: seq<Flagged>, truncated: bool, m: map<string, Flagged>, cap: nat) {
    && FromTable(r, m)
    && StableSort.SortedBy(r, Outranks)
    && |r| == (if |m| <= cap then |m| else cap)
    && (truncated <==> |m| > cap)
    && (forall p, i :: p in m && 0 <= i < |r| && Missing(r, p) ==> Outranks(r[i], m[p]))
  }

  ghost predicate Missing(r: seq<Flagged>, p: string) {
    forall i :: 0 <= i < |r| ==> r[i].principal != p
  }

  method DetectAnomalies(events: seq<Seen>, now: int, th: Thresholds) returns (r: seq<Flagged>, truncated: bool)
    requires Sane(th)
    ensures Ranked(r, truncated, events, now, th)
  {
    ghost var m := Table(events, now, th);
    var per := Accumulate(events, now, th);
    var flagged := FlaggedRows(per, th, m);
    var sorted := StableSort.Sort(flagged, Outranks);
    SortKeepsRows(flagged, m);
    truncated := |sorted| > th.maxPrincipals;
    r := if truncated then sorted[..th.maxPrincipals] else sorted;
    PrefixRanks(sorted, m, th.maxPrincipals);
  }

  ghost predicate RowHolds(m: map<string, Flagged>, p: string, acc: Acc, th: Thresholds)
    requires Sane(th)
  {
    (p in m <==> Signals(acc, th) != []) && (p in m ==> m[p] == Row(p, acc, th))
  }

  /** The rows of the principals visited so far. */
  ghost predicate Progress(s: seq<Flagged>, m: map<string, Flagged>, left: set<string>) {
    && FromTable(s, m)
    && |s| == |m.Keys - left|
    && forall i :: 0 <= i < |s| ==> s[i].principal !in left
  }

  lemma ProgressStep(s: seq<Flagged>, m: map<string, Flagged>, left: set<string>, row: Flagged)
    requires Progress(s, m, left) && row.principal in left
    requires row.principal in m ==> m[row.principal] == row
    ensures Progress(if row.principal in m then s + [row] else s, m, left - {row.principal})
  {
    Visit(m.Keys, left, row.principal);
  }

  /** The loop that keeps the principals with at least one signal. */
  method FlaggedRows(per: map<string, Acc>, th: Thresholds, ghost m: map<string, Flagged>) returns (flagged: seq<Flagged>)
    requires Sane(th) && m.Keys <= per.Keys
    requires forall p {:trigger RowHolds(m, p, per[p], th)} :: p in per ==> RowHolds(m, p, per[p], th)
    ensures FromTable(flagged, m) && |flagged| == |m|
  {
    flagged := [];
    var left := per.Keys;
    assert m.Keys - left == {};
    while left != {}
      invariant left <= per.Keys && Progress(flagged, m, left)
      decreases left
    {
      var p :| p in left;
      var signals := PrincipalSignals(per[p], th);
      var row := Flagged(p, per[p].recentTotal, per[p].baselineTotal, signals);
      assert RowHolds(m, p, per[p], th);
      ProgressStep(flagged, m, left, row);
      left := left - {p};
      if signals != [] {
        flagged := flagged + [row];
      }
    }
    assert m.Keys - left == m.Keys;
  }

  lemma Visit(keys: set<string>, left: set<string>, p: string)
    requires p in left
    ensures |keys - (left - {p})| == |keys - left| + if p in keys then 1 else 0
  {
    assert keys - (left - {p}) == (keys - left) + if p in keys then {p} else {};
  }

  lemma SortKeepsRows(s: seq<Flagged>, m: map<string, Flagged>)
    requires FromTable(s, m)
    ensures var t := StableSort.Sort(s, Outranks);
            FromTable(t, m) && StableSort.SortedBy(t, Outranks) && |t| == |s|
  {
    StableSort.SortPermutes(s, Outranks);
    StableSort.SortSorts(s, Outranks);
    PermutedRows(s, StableSort.Sort(s, Outranks), m);
  }

  lemma PermutedRows(s: seq<Flagged>, t: seq<Flagged>, m: map<string, Flagged>)
    requires FromTable(s, m) && multiset(s) == multiset(t)
    ensures FromTable(t, m)
  {
    forall i | 0 <= i < |t|
      ensures t[i] in s
    {
      assert t[i] in multiset(t);
    }
    forall i, j | 0 <= i < j < |t|
      ensures t[i].principal != t[j].principal
    {
      OnceInDistinct(s, t[i]);
      OnceMeansApart(t, i, j);
      assert t[i] in s && t[j] in s;
    }
  }

  lemma OnceMeansApart<T>(t: seq<T>, i: nat, j: nat)
    requires i < j < |t| && multiset(t)[t[i]] <= 1
    ensures t[i] != t[j]
  {
    var u := t[..j];
    assert t == u + [t[j]] + t[j + 1..];
    assert t[i] == u[i] && u[i] in multiset(u);
    assert multiset(t)[t[j]] >= multiset(u)[t[j]] + 1;
  }

  lemma {:induction false} OnceInDistinct(s: seq<Flagged>, x: Flagged)
    requires forall a, b :: 0 <= a < b < |s| ==> s[a].principal != s[b].principal
    ensures multiset(s)[x] <= 1
  {
    if s != [] {
      var n := |s| - 1;
      OnceInDistinct(s[..n], x);
      assert s == s[..n] + [s[n]];
      if x == s[n] {
        assert x !in s[..n];
      }
    }
  }

  // As many distinct rows as the table has leave nobody out.
  lemma {:induction false} AllListed(s: seq<Flagged>, m: map<string, Flagged>, p: string)
    requires FromTable(s, m) && |s| == |m| && p in m
    ensures !Missing(s, p)
  {
    var listed := set i | 0 <= i < |s| :: s[i].principal;
    ListedSize(s);
    if Missing(s, p) {
      assert listed <= m.Keys - {p};
      StableSort.SubsetSmaller(listed, m.Keys - {p});
      assert false;
    }
  }

  lemma {:induction false} ListedSize(s: seq<Flagged>)
    requires forall a, b :: 0 <= a < b < |s| ==> s[a].principal != s[b].principal
    ensures |set i | 0 <= i < |s| :: s[i].principal| == |s|
  {
    if s != [] {
      var n := |s| - 1;
      ListedSize(s[..n]);
      var front := set i | 0 <= i < n :: s[..n][i].principal;
      assert (set i | 0 <= i < |s| :: s[i].principal) == front + {s[n].principal};
    }
  }

  // Cutting a sorted list keeps the best rows.
  lemma PrefixRanks(s: seq<Flagged>, m: map<string, Flagged>, cap: nat)
    requires Keyed(m) && FromTable(s, m) && |s| == |m| && StableSort.SortedBy(s, Outranks)
    ensures Ranking(if |s| > cap then s[..cap] else s, |s| > cap, m, cap)
  {
    var r := if |s| > cap then s[..cap] else s;
    forall p, i | p in m && 0 <= i < |r| && Missing(r, p)
      ensures Outranks(r[i], m[p])
    {
      AllListed(s, m, p);
      var k :| 0 <= k < |s| && s[k].principal == p;
      assert k >= |r|;
    }
  }

  // -------------------------------------------------------- the report

  datatype Report = Report(events: nat, malformed: nat, truncated: bool, endedOnRun: bool, principals: seq<Flagged>)

  /** `build_anomaly_report` over a source: scan, then detect. Whenever the scan
      kept as many events as lie in the window, the ranking is the one of every
      genuine query event in the file, cut by the principal cap or not; and it did
      so whenever it neither stopped early nor took the run exit on a file out of
      time order. `stopped` and `cut` are the two reasons for `truncated`. */
  method BuildReport(file: Option<Bytes>, parse: Bytes -> Line<AuditEvent>, reader: Reader, requireEnvelope: bool,
                     now: int, th: Thresholds, lim: Limits)
    returns (report: Report, stopped: bool, cut: bool)
    requires Sane(th) && reader.chunkSize >= 1 && lim.maxRun >= 1
    ensures report.truncated <==> stopped || cut
    ensures file.None? ==> report.principals == [] && report.events == 0 && !report.truncated
    ensures file.Some? ==>
              var lines := LinesFromEnd(file.value);
              var due := |EventsWithin(lines, parse, requireEnvelope, now - th.recentSeconds - th.baselineSeconds, now)|;
              && report.events <= due
              && (report.events == due ==>
                    Ranked(report.principals, cut, Events(lines, parse, requireEnvelope), now, th))
              && (!stopped && (!report.endedOnRun || InTimeOrder(Events(lines, parse, requireEnvelope))) ==> report.events == due)
              && (!stopped && !report.endedOnRun ==> report.malformed == Count(lines, IsBroken(parse, requireEnvelope)))
  {
    var w := ScanWindow(now, th);
    var kept, malformed, ended, linesRead;
    kept, malformed, stopped, ended, linesRead := LoadEvents(file, parse, reader, requireEnvelope, w, lim);
    var rows;
    rows, cut := DetectAnomalies(kept, now, th);
    report := Report(|kept|, malformed, stopped || cut, ended, rows);
    if file.Some? {
      ghost var lines := LinesFromEnd(file.value);
      TableFromLines(lines, parse, requireEnvelope, now, th);
      RankingOfWhole(rows, cut, kept, EventsWithin(lines, parse, requireEnvelope, w.start, w.now),
                     Events(lines, parse, requireEnvelope), now, th);
    } else {
      NobodyActive(now, th);
    }
  }

  /** A capped ranking of everyone these events flag. */
  ghost predicate Ranked(rows: seq<Flagged>, cut: bool, events: seq<Seen>, now: int, th: Thresholds)
    requires Sane(th)
  {
    Ranking(rows, cut, Table(events, now, th), th.maxPrincipals)
  }

  lemma RankingOfWhole(rows: seq<Flagged>, cut: bool, kept: seq<Seen>, due: seq<Seen>, all: seq<Seen>, now: int, th: Thresholds)
    requires Sane(th) && kept <= due && Table(due, now, th) == Table(all, now, th) && Ranked(rows, cut, kept, now, th)
    ensures |kept| == |due| ==> Ranked(rows, cut, all, now, th)
  {
    PrefixWhole(kept, due);
  }

  lemma PrefixWhole<T>(a: seq<T>, b: seq<T>)
    requires a <= b
    ensures |a| == |b| ==> a == b
  {
  }

  lemma TableFromLines(lines: seq<Bytes>, parse: Bytes -> Line<AuditEvent>, requireEnvelope: bool, now: int, th: Thresholds)
    requires Sane(th)
    ensures var w := ScanWindow(now, th);
            Table(EventsWithin(lines, parse, requireEnvelope, w.start, w.now), now, th) ==
            Table(Events(lines, parse, requireEnvelope), now, th)
  {
    WithinAre(lines, parse, requireEnvelope, ScanWindow(now, th));
    EventsAre(lines, parse, requireEnvelope);
    TableFromScan(Classed(lines, parse, requireEnvelope), now, th);
  }

  lemma NobodyActive(now: int, th: Thresholds)
    requires Sane(th)
    ensures Table([], now, th) == map[]
  {
    assert Active([], now, th) == {};
  }

  // The table of what a complete scan kept is the table of the whole file.
  lemma TableFromScan(cs: seq<Class<AuditEvent>>, now: int, th: Thresholds)
    requires Sane(th)
    ensures Table(InWindow(cs, ScanWindow(now, th)), now, th) == Table(AllEvents(cs), now, th)
  {
    var kept, all := InWindow(cs, ScanWindow(now, th)), AllEvents(cs);
    forall p ensures Direct(kept, p, now, th) == Direct(all, p, now, th) {
      DirectFromScan(cs, p, now, th);
    }
    ActiveFromScan(cs, now, th);
  }

  lemma {:induction false} ActiveFromScan(cs: seq<Class<AuditEvent>>, now: int, th: Thresholds)
    ensures Active(InWindow(cs, ScanWindow(now, th)), now, th) == Active(AllEvents(cs), now, th)
  {
    if cs != [] {
      var n := |cs| - 1;
      ActiveFromScan(cs[..n], now, th);
      if cs[n].Event? {
        ActiveSnoc(AllEvents(cs[..n]), cs[n].stamped, now, th);
        ActiveSnoc(InWindow(cs[..n], ScanWindow(now, th)), cs[n].stamped, now, th);
      }
    }
  }

  lemma ActiveSnoc(s: seq<Seen>, e: Seen, now: int, th: Thresholds)
    ensures Active(s + [e], now, th) == Active(s, now, th) + if Counts(e, now, th) then {Who(e)} else {}
  {
    assert (s + [e])[..|s|] == s;
  }
}
