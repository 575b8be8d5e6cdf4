// What the anomaly report's numbers mean: who an event belongs to, which window
// it falls in, what each signal says and how strong it is.
module AnomalyMeaning {
  import opened Json
  import opened TailScan
  import opened Counting
  import opened StableSort
  import opened AnomalyDetector

  // ------------------------------------------------------------ windows

  /** Events without a principal, or with an empty one, share one name. */
  predicate By(e: Seen, p: string) {
    || (e.event.principal == Some(p) && p != "")
    || (p == "<unauthenticated>" && (e.event.principal == None || e.event.principal == Some("")))
  }

  function Between(p: string, start: int, end: int): Seen -> bool {
    (e: Seen) => By(e, p) && start < e.at <= end
  }

  function RefusedBetween(p: string, start: int, end: int): Seen -> bool {
    (e: Seen) => By(e, p) && start < e.at <= end && e.event.rejected
  }

  ghost predicate Reaches(events: seq<Seen>, p: string, start: int, end: int, c: string) {
    c != "" && exists e :: e in events && Between(p, start, end)(e) && e.event.connection == Some(c)
  }

  lemma {:induction false} CountSame<T(!new)>(s: seq<T>, f: T -> bool, g: T -> bool)
    requires forall x :: f(x) == g(x)
    ensures Count(s, f) == Count(s, g)
  {
    if s != [] {
      CountSame(s[..|s| - 1], f, g);
    }
  }

  // A principal's numbers count its events in (now - recent, now] and in the
  // baseline window right before it, and its connections are those they name.
  lemma WindowsMean(events: seq<Seen>, p: string, now: int, th: Thresholds)
    ensures var acc, cut := Direct(events, p, now, th), now - th.recentSeconds;
            var start := cut - th.baselineSeconds;
            && acc.recentTotal == Count(events, Between(p, cut, now))
            && acc.recentRejected == Count(events, RefusedBetween(p, cut, now))
            && acc.baselineTotal == Count(events, Between(p, start, cut))
            && acc.baselineRejected == Count(events, RefusedBetween(p, start, cut))
            && (forall c :: c in acc.recentConnections <==> Reaches(events, p, cut, now, c))
            && (forall c :: c in acc.baselineConnections <==> Reaches(events, p, start, cut, c))
  {
    var cut := now - th.recentSeconds;
    var start := cut - th.baselineSeconds;
    var r, b := InRecent(p, now, th), InBaseline(p, now, th);
    CountSame(events, r, Between(p, cut, now));
    CountSame(events, b, Between(p, start, cut));
    CountSame(events, AndRejected(r), RefusedBetween(p, cut, now));
    CountSame(events, AndRejected(b), RefusedBetween(p, start, cut));
    forall c ensures c in Connections(events, r) <==> Reaches(events, p, cut, now, c) {
      SameReach(events, p, cut, now, r, c);
    }
    forall c ensures c in Connections(events, b) <==> Reaches(events, p, start, cut, c) {
      SameReach(events, p, start, cut, b, c);
    }
  }

  lemma SameReach(events: seq<Seen>, p: string, start: int, end: int, f: Seen -> bool, c: string)
    requires forall e :: f(e) == Between(p, start, end)(e)
    ensures c in Connections(events, f) <==> Reaches(events, p, start, end, c)
  {
    ConnectionsMembers(events, f, c);
  }

  // ------------------------------------------------------------ signals

  ghost function Before(names: set<string>, c: string): set<string> {
    set d | d in names && d != c && NameLe(d, c)
  }

  /** What a signal claims about a principal's two windows; a rate times its
      window, and a share times its total, give back the count. */
  ghost predicate Claims(s: Signal, acc: Acc, th: Thresholds) {
    match s
    case VolumeSpike(ratio) =>
      && ratio >= th.volumeRatio
      && ratio * (acc.baselineTotal as real * th.recentSeconds as real) == acc.recentTotal as real * th.baselineSeconds as real
    case RejectionSpike(recent, baseline) =>
      && recent - baseline >= th.rejectionDelta
      && recent * acc.recentTotal as real == acc.recentRejected as real
      && baseline * acc.baselineTotal as real == acc.baselineRejected as real
    case NewConnection(c) =>
      && c in acc.recentConnections && c !in acc.baselineConnections
      && |Before(acc.recentConnections - acc.baselineConnections, c)| < th.maxNewConnections
  }

  lemma Quotient(q: real, a: real, b: real)
    requires b > 0.0
    ensures q * b == a <==> q == a / b
  {
    assert a / b * b == a;
    if q * b == a {
      assert (q - a / b) * b == 0.0;
    }
  }

  lemma {:induction false} MembersOfNoDuplicates(s: seq<string>)
    requires NoDuplicates(s)
    ensures |set x | x in s| == |s|
  {
    if s != [] {
      var n := |s| - 1;
      MembersOfNoDuplicates(s[..n]);
      assert s == s[..n] + [s[n]];
      assert (set x | x in s) == (set x | x in s[..n]) + {s[n]};
    }
  }

  // A name is among the first k listed exactly when fewer than k precede it.
  lemma ListedAmongFirst(names: set<string>, k: nat, c: string)
    ensures c in Take(Listing(names), k) <==> c in names && |Before(names, c)| < k
  {
    var s := Listing(names);
    ListingLists(names);
    if c in names {
      var i :| 0 <= i < |s| && s[i] == c;
      PlaceIs(names, s, i);
      if c in Take(s, k) {
        var j :| 0 <= j < |Take(s, k)| && Take(s, k)[j] == c;
        assert j == i;
      }
      if i < k {
        assert Take(s, k)[i] == c;
      }
    }
  }

  lemma PlaceIs(names: set<string>, s: seq<string>, i: nat)
    requires SortedBy(s, NameLe) && NoDuplicates(s) && (forall x :: x in s <==> x in names) && i < |s|
    ensures |Before(names, s[i])| == i
  {
    var front := set x | x in s[..i];
    forall d ensures d in Before(names, s[i]) <==> d in front {
      if d in Before(names, s[i]) {
        var j :| 0 <= j < |s| && s[j] == d;
        if j > i {
          NameLeAntisymmetric(s[i], s[j]);
        }
        assert d == s[..i][j];
      }
      if d in front {
        var j :| 0 <= j < i && s[..i][j] == d;
        assert d == s[j] && NameLe(s[j], s[i]);
      }
    }
    assert Before(names, s[i]) == front;
    MembersOfNoDuplicates(s[..i]);
  }

  lemma VolumeMeans(acc: Acc, th: Thresholds, ratio: real)
    requires Sane(th) && EnoughTraffic(acc, th)
    ensures ratio == VolumeRatio(acc, th) <==>
            ratio * (acc.baselineTotal as real * th.recentSeconds as real) == acc.recentTotal as real * th.baselineSeconds as real
  {
    var a, s, b, t := acc.recentTotal as real, th.recentSeconds as real, acc.baselineTotal as real, th.baselineSeconds as real;
    RatioOfRates(a, s, b, t);
    assert b * s > 0.0;
    Quotient(ratio, a * t, b * s);
  }

  lemma SpikesMean(acc: Acc, th: Thresholds, s: Signal)
    requires Sane(th) && EnoughTraffic(acc, th) && !s.NewConnection?
    ensures s in Spikes(acc, th) <==> Claims(s, acc, th)
  {
    match s
    case VolumeSpike(ratio) => VolumeMeans(acc, th, ratio);
    case RejectionSpike(recent, baseline) =>
      Quotient(recent, acc.recentRejected as real, acc.recentTotal as real);
      Quotient(baseline, acc.baselineRejected as real, acc.baselineTotal as real);
  }

  // A principal's signals are exactly those that claim the truth about it, and
  // none without enough traffic in both windows.
  lemma SignalsExact(acc: Acc, th: Thresholds, s: Signal)
    requires Sane(th)
    ensures s in Signals(acc, th) <==>
            acc.baselineTotal >= th.minBaseline && acc.recentTotal >= th.minRecent && Claims(s, acc, th)
  {
    if EnoughTraffic(acc, th) {
      var unseen := acc.recentConnections - acc.baselineConnections;
      var shown := Take(Listing(unseen), th.maxNewConnections);
      var named := AsNew(shown);
      assert Signals(acc, th) == Spikes(acc, th) + named;
      if s.NewConnection? {
        ListedAmongFirst(unseen, th.maxNewConnections, s.connection);
        if s.connection in shown {
          var i :| 0 <= i < |shown| && shown[i] == s.connection;
          assert named[i] == s;
        }
        assert s !in Spikes(acc, th);
      } else {
        SpikesMean(acc, th, s);
        assert s !in named;
      }
    }
  }

  // ------------------------------------------------------------ ranking

  /** How strong a signal is: the rate ratio, the rise of the rejected share, or
      two for a new connection. */
  predicate Strength(s: Signal, x: real) {
    match s
    case VolumeSpike(ratio) => x == ratio
    case RejectionSpike(recent, baseline) => x + baseline == recent
    case NewConnection(_) => x == 2.0
  }

  ghost predicate Attains(signals: seq<Signal>, x: real) {
    exists s :: s in signals && Strength(s, x)
  }

  ghost predicate Bounds(signals: seq<Signal>, x: real) {
    forall s, y :: s in signals && Strength(s, y) ==> y <= x
  }

  // A flagged principal is ranked by its strongest signal.
  lemma RankMeans(f: Flagged, x: real)
    requires f.signals != []
    ensures x == Rank(f) <==> Attains(f.signals, x) && Bounds(f.signals, x)
  {
    MaxScoreIsMax(f.signals);
    var i :| 0 <= i < |f.signals| && Score(f.signals[i]) == MaxScore(f.signals);
    var top := f.signals[i];
    assert Strength(top, Rank(f)) && top in f.signals;
    forall s, y | s in f.signals && Strength(s, y)
      ensures y <= Rank(f)
    {
      var j :| 0 <= j < |f.signals| && f.signals[j] == s;
      assert y == Score(s);
    }
  }
}
