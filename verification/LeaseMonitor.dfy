// `CredentialLeaseMonitor`: polling the soonest lease expiry and reloading
// before it is reached.
module LeaseMonitor {
  import opened Json
  import StableSort

  /** One turn of the loop: what the probe found (or that it raised), the clock,
      and whether the reload it may trigger goes through. */
  datatype Poll = Poll(probe: Probe, now: int, reloads: bool)

  datatype Probe = ProbeFailed | Expiry(soonest: Option<int>)

  predicate Due(last: Option<int>, poll: Poll, margin: int) {
    && poll.probe.Expiry?
    && poll.probe.soonest.Some?
    && poll.probe.soonest != last
    && poll.probe.soonest.value <= poll.now + margin
  }

  /** The expiry a successful refresh acts on. */
  function Acts(last: Option<int>, poll: Poll, margin: int): Option<int> {
    if Due(last, poll, margin) && poll.reloads then poll.probe.soonest else None
  }

  function Remember(last: Option<int>, acted: Option<int>): Option<int> {
    if acted.Some? then acted else last
  }

  /** The expiries acted on in a run, in order. */
  function Refreshes(last: Option<int>, polls: seq<Poll>, margin: int): seq<int>
    decreases |polls|
  {
    if polls == [] then []
    else
      var a := Acts(last, polls[0], margin);
      var rest := Refreshes(Remember(last, a), polls[1..], margin);
      if a.Some? then [a.value] + rest else rest
  }

  lemma {:induction false} FirstRefreshIsNew(last: Option<int>, polls: seq<Poll>, margin: int)
    ensures var r := Refreshes(last, polls, margin); r != [] ==> last != Some(r[0])
    decreases |polls|
  {
    if polls != [] {
      FirstRefreshIsNew(Remember(last, Acts(last, polls[0], margin)), polls[1..], margin);
    }
  }

  // Two successive successful refreshes never act on the same expiry.
  lemma {:induction false} RefreshesAlternate(last: Option<int>, polls: seq<Poll>, margin: int)
    ensures var r := Refreshes(last, polls, margin); forall i :: 0 <= i < |r| - 1 ==> r[i] != r[i + 1]
    decreases |polls|
  {
    if polls != [] {
      var next := Remember(last, Acts(last, polls[0], margin));
      RefreshesAlternate(next, polls[1..], margin);
      FirstRefreshIsNew(next, polls[1..], margin);
    }
  }

  // ------------------------------------------- when an expiry is acted on twice

  /** The poll finds an expiry within the margin and a reload would go through. */
  predicate Live(poll: Poll, margin: int) {
    && poll.probe.Expiry? && poll.probe.soonest.Some?
    && poll.probe.soonest.value <= poll.now + margin && poll.reloads
  }

  /** The expiries of the live polls, whether or not they were acted on before. */
  function LiveExpiries(polls: seq<Poll>, margin: int): seq<int>
    decreases |polls|
  {
    if polls == [] then []
    else if Live(polls[0], margin) then [polls[0].probe.soonest.value] + LiveExpiries(polls[1..], margin)
    else LiveExpiries(polls[1..], margin)
  }

  /** Without repeats of the entry just before. */
  function Collapsed(last: Option<int>, xs: seq<int>): seq<int>
    decreases |xs|
  {
    if xs == [] then []
    else if last == Some(xs[0]) then Collapsed(last, xs[1..])
    else [xs[0]] + Collapsed(Some(xs[0]), xs[1..])
  }

  // The refreshes of a run are its live expiries with consecutive repeats
  // collapsed, and nothing else about the polls matters.
  lemma {:induction false} RefreshesCollapse(last: Option<int>, polls: seq<Poll>, margin: int)
    ensures Refreshes(last, polls, margin) == Collapsed(last, LiveExpiries(polls, margin))
    decreases |polls|
  {
    if polls != [] {
      var a := Acts(last, polls[0], margin);
      RefreshesCollapse(Remember(last, a), polls[1..], margin);
      if Live(polls[0], margin) {
        var live := LiveExpiries(polls, margin);
        assert live[1..] == LiveExpiries(polls[1..], margin);
      }
    }
  }

  /** Equal entries stand next to each other. */
  ghost predicate Contiguous(xs: seq<int>) {
    forall i, j, k :: 0 <= i < j < k < |xs| && xs[i] == xs[k] ==> xs[j] == xs[i]
  }

  ghost predicate ActedOnce(last: Option<int>, r: seq<int>) {
    StableSort.NoDuplicates(Remembered(last) + r)
  }

  function Remembered(last: Option<int>): seq<int> {
    if last.Some? then [last.value] else []
  }

  lemma ContiguousTail(x: int, y: int, rest: seq<int>)
    ensures Contiguous([x, y] + rest) <==> Contiguous([y] + rest) && (x == y || x !in [y] + rest)
  {
    var xs, ys := [x, y] + rest, [y] + rest;
    assert forall i :: 0 <= i < |ys| ==> xs[i + 1] == ys[i];
    if Contiguous(xs) {
      forall i, j, k | 0 <= i < j < k < |ys| && ys[i] == ys[k] ensures ys[j] == ys[i] {
        assert xs[i + 1] == xs[k + 1];
        assert xs[j + 1] == xs[i + 1];
      }
      forall k | 1 <= k < |ys| ensures ys[k] == x ==> x == y {
        assert xs[0] == x && xs[1] == y && xs[k + 1] == ys[k];
        assert xs[0] == xs[k + 1] ==> xs[1] == xs[0];
      }
    }
    if Contiguous(ys) && (x == y || x !in ys) {
      forall i, j, k | 0 <= i < j < k < |xs| && xs[i] == xs[k] ensures xs[j] == xs[i] {
        assert xs[k] == ys[k - 1] && xs[j] == ys[j - 1];
        if i == 0 && j > 1 {
          assert ys[0] == ys[k - 1];
        } else if i > 0 {
          assert xs[i] == ys[i - 1];
        }
      }
    }
  }

  lemma {:induction false} CollapsedMembers(last: Option<int>, xs: seq<int>, e: int)
    ensures e in Remembered(last) + Collapsed(last, xs) <==> e in Remembered(last) + xs
    decreases |xs|
  {
    if xs != [] {
      assert xs == [xs[0]] + xs[1..];
      CollapsedMembers(Some(xs[0]), xs[1..], e);
    }
  }

  lemma {:induction false} CollapsedOnceIff(x: int, xs: seq<int>)
    ensures ActedOnce(Some(x), Collapsed(Some(x), xs)) <==> Contiguous([x] + xs)
    decreases |xs|
  {
    if xs != [] {
      var y, rest := xs[0], xs[1..];
      assert [x] + xs == [x, y] + rest;
      ContiguousTail(x, y, rest);
      CollapsedOnceIff(y, rest);
      if x != y {
        var c := Collapsed(Some(y), rest);
        CollapsedMembers(Some(y), rest, x);
        assert [x] + Collapsed(Some(x), xs) == [x] + ([y] + c);
        OneMore(x, [y] + c);
      }
    }
  }

  lemma OneMore(x: int, s: seq<int>)
    ensures StableSort.NoDuplicates([x] + s) <==> StableSort.NoDuplicates(s) && x !in s
  {
    var t := [x] + s;
    assert forall i :: 0 <= i < |s| ==> t[i + 1] == s[i];
    if StableSort.NoDuplicates(t) {
      forall i, j | 0 <= i < j < |s| ensures s[i] != s[j] {
        assert t[i + 1] != t[j + 1];
      }
      forall j | 0 <= j < |s| ensures s[j] != x {
        assert t[0] != t[j + 1];
      }
    }
  }

  // No expiry is acted on twice exactly when equal live expiries, the one
  // remembered from before included, are reported without another in between.
  lemma NeverTwiceIff(last: Option<int>, polls: seq<Poll>, margin: int)
    ensures ActedOnce(last, Refreshes(last, polls, margin)) <==>
            Contiguous(Remembered(last) + LiveExpiries(polls, margin))
  {
    RefreshesCollapse(last, polls, margin);
    CollapsedIff(last, LiveExpiries(polls, margin));
  }

  lemma CollapsedIff(last: Option<int>, xs: seq<int>)
    ensures ActedOnce(last, Collapsed(last, xs)) <==> Contiguous(Remembered(last) + xs)
  {
    if last.Some? {
      CollapsedOnceIff(last.value, xs);
    } else {
      assert Remembered(None) + xs == xs;
      assert Remembered(None) + Collapsed(None, xs) == Collapsed(None, xs);
      CollapsedFromNone(xs);
    }
  }

  lemma CollapsedFromNone(xs: seq<int>)
    ensures StableSort.NoDuplicates(Collapsed(None, xs)) <==> Contiguous(xs)
  {
    if xs != [] {
      var y, rest := xs[0], xs[1..];
      CollapsedOnceIff(y, rest);
      assert xs == [y] + rest;
    }
  }

  /** Reported expiries never move back in time, starting from a floor. */
  ghost predicate Advancing(polls: seq<Poll>, floor: Option<int>)
    decreases |polls|
  {
    polls != [] ==>
      var e := if polls[0].probe.Expiry? then polls[0].probe.soonest else None;
      (e.Some? && floor.Some? ==> floor.value <= e.value) && Advancing(polls[1..], if e.Some? then e else floor)
  }

  ghost predicate LaterThan(r: seq<int>, last: Option<int>) {
    last.Some? ==> forall i :: 0 <= i < |r| ==> last.value < r[i]
  }

  ghost predicate Ascending(r: seq<int>) {
    forall i, j :: 0 <= i < j < |r| ==> r[i] < r[j]
  }

  // If reported expiries never move back, refreshes act on strictly later ones,
  // so none is ever acted on twice.
  lemma {:induction false} RefreshesAdvance(last: Option<int>, polls: seq<Poll>, margin: int, floor: Option<int>)
    requires Advancing(polls, floor)
    requires last.Some? ==> floor.Some? && last.value <= floor.value
    ensures LaterThan(Refreshes(last, polls, margin), last) && Ascending(Refreshes(last, polls, margin))
    decreases |polls|
  {
    if polls != [] {
      var p := polls[0];
      var e := if p.probe.Expiry? then p.probe.soonest else None;
      var a := Acts(last, p, margin);
      RefreshesAdvance(Remember(last, a), polls[1..], margin, if e.Some? then e else floor);
      assert a.Some? && last.Some? ==> last.value < a.value;
    }
  }

  // Only the latest expiry is remembered: an earlier one that is reported again
  // is acted on again.
  lemma ForgottenExpiryRepeats(a: int, b: int, now: int, margin: int)
    requires a != b && a <= now + margin && b <= now + margin
    ensures var poll := (e: int) => Poll(Expiry(Some(e)), now, true);
            Refreshes(None, [poll(a), poll(b), poll(a)], margin) == [a, b, a]
  {
    var poll := (e: int) => Poll(Expiry(Some(e)), now, true);
    var ps := [poll(a), poll(b), poll(a)];
    assert ps[1..] == [poll(b), poll(a)] && ps[1..][1..] == [poll(a)] && ps[1..][1..][1..] == [];
    assert Refreshes(Some(a), [], margin) == [];
    assert Refreshes(Some(b), [poll(a)], margin) == [a];
    assert Refreshes(Some(a), ps[1..], margin) == [b, a];
  }

  class Monitor {
    const margin: int
    var lastTriggered: Option<int>

    constructor (refreshMargin: int)
      ensures lastTriggered.None? && margin == refreshMargin
    {
      margin, lastTriggered := refreshMargin, None;
    }

    /** The loop of `_run` over a finite stretch of polls: no failed probe and no
        failed reload ends it, and a failed reload is tried again. */
    method Run(polls: seq<Poll>) returns (acted: seq<int>)
      modifies this
      ensures acted == Refreshes(old(lastTriggered), polls, margin)
      ensures acted != [] ==> lastTriggered == Some(acted[|acted| - 1])
      ensures acted == [] ==> lastTriggered == old(lastTriggered)
    {
      acted := [];
      for i := 0 to |polls|
        invariant acted + Refreshes(lastTriggered, polls[i..], margin) == Refreshes(old(lastTriggered), polls, margin)
        invariant acted != [] ==> lastTriggered == Some(acted[|acted| - 1])
        invariant acted == [] ==> lastTriggered == old(lastTriggered)
      {
        assert polls[i..][1..] == polls[i + 1..];
        var p := polls[i];
        if p.probe.ProbeFailed? {
          continue;
        }
        var expiry := p.probe.soonest;
        if expiry.Some? && expiry != lastTriggered && expiry.value <= p.now + margin {
          if p.reloads {
            lastTriggered := expiry;
            acted := acted + [expiry.value];
          }
        }
      }
    }
  }
}
