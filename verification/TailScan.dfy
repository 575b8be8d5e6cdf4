// The bounded newest-first scan of the audit file, shared in shape by the
// anomaly source and the config/catalog change source, against a plain filter
// of the whole file.
module TailScan {
  import opened Json
  import opened ReverseReader
  import opened Counting

  /** `verify_envelope_hash`: True, False or None. */
  datatype Verdict = Verified | Forged | NoEnvelope

  datatype Body<E> = OtherType | Invalid | Valid(event: E, at: int)

  datatype Line<E> = NotJson | Parsed(verdict: Verdict, body: Body<E>)

  datatype Stamped<E> = Stamped(event: E, at: int)

  datatype Class<E> = Malformed | Ignored | Event(stamped: Stamped<E>)

  function Classify<E>(line: Line<E>, requireEnvelope: bool): Class<E> {
    if line.NotJson? then Malformed
    else if line.verdict.Forged? || (line.verdict.NoEnvelope? && requireEnvelope) then Malformed
    else match line.body
         case OtherType => Ignored
         case Invalid => Malformed
         case Valid(event, at) => Event(Stamped(event, at))
  }

  function ClassifyAll<E>(lines: seq<Line<E>>, requireEnvelope: bool): (cs: seq<Class<E>>)
    ensures |cs| == |lines| && forall i :: 0 <= i < |lines| ==> cs[i] == Classify(lines[i], requireEnvelope)
  {
    seq(|lines|, i requires 0 <= i < |lines| => Classify(lines[i], requireEnvelope))
  }

  /** The window is (start, now]. */
  datatype Window = Window(start: int, now: int)

  datatype Limits = Limits(maxEvents: nat, maxLines: nat, maxRun: nat)

  // ---------------------------------------------------------- reference

  predicate Inside<E>(c: Class<E>, w: Window) {
    c.Event? && w.start < c.stamped.at <= w.now
  }

  predicate StaleEvent<E>(c: Class<E>, w: Window) {
    c.Event? && c.stamped.at <= w.start
  }

  /** The plain filter: the valid in-window events, in the order given. */
  function InWindow<E>(cs: seq<Class<E>>, w: Window): seq<Stamped<E>> {
    if cs == [] then []
    else
      var n := |cs| - 1;
      var rest := InWindow(cs[..n], w);
      if Inside(cs[n], w) then rest + [cs[n].stamped] else rest
  }

  function CountMalformed<E>(cs: seq<Class<E>>): nat {
    if cs == [] then 0
    else CountMalformed(cs[..|cs| - 1]) + (if cs[|cs| - 1].Malformed? then 1 else 0)
  }

  /** How many events in a row, counted from the end, lie before the window;
      lines that are not events neither reset nor extend the run. */
  function StaleRun<E>(cs: seq<Class<E>>, w: Window): nat {
    if cs == [] then 0
    else
      var n := |cs| - 1;
      if !cs[n].Event? then StaleRun(cs[..n], w)
      else if StaleEvent(cs[n], w) then StaleRun(cs[..n], w) + 1
      else 0
  }

  predicate RunsOut<E>(cs: seq<Class<E>>, w: Window, lim: Limits, i: nat)
    requires i <= |cs|
  {
    i > 0 && StaleRun(cs[..i], w) >= lim.maxRun
  }

  predicate Capped<E>(cs: seq<Class<E>>, w: Window, lim: Limits, i: nat)
    requires i <= |cs|
  {
    i < |cs| && (|InWindow(cs[..i], w)| >= lim.maxEvents || i >= lim.maxLines)
  }

  /** The first point, from i on, where the scan has a reason to stop. */
  function StopFrom<E>(cs: seq<Class<E>>, w: Window, lim: Limits, i: nat): (n: nat)
    requires i <= |cs|
    ensures i <= n <= |cs|
    ensures n == |cs| || RunsOut(cs, w, lim, n) || Capped(cs, w, lim, n)
    ensures forall j :: i <= j < n ==> !RunsOut(cs, w, lim, j) && !Capped(cs, w, lim, j)
    decreases |cs| - i
  {
    if i == |cs| || RunsOut(cs, w, lim, i) || Capped(cs, w, lim, i) then i else StopFrom(cs, w, lim, i + 1)
  }

  datatype Outcome<E> = Outcome(kept: seq<Stamped<E>>, malformed: nat, stoppedEarly: bool, endedOnRun: bool)

  /** `raised`: the reader ends with `AuditFileReadBounded` after these lines. */
  function Scan<E>(cs: seq<Class<E>>, raised: bool, w: Window, lim: Limits): Outcome<E> {
    var n := StopFrom(cs, w, lim, 0);
    var ended := RunsOut(cs, w, lim, n);
    Outcome(InWindow(cs[..n], w), CountMalformed(cs[..n]), !ended && (Capped(cs, w, lim, n) || raised), ended)
  }

  // ----------------------------------------------------------- theorems

  lemma {:induction false} InWindowSplits<E>(a: seq<Class<E>>, b: seq<Class<E>>, w: Window)
    ensures InWindow(a + b, w) == InWindow(a, w) + InWindow(b, w)
  {
    if b == [] {
      assert a + b == a;
    } else {
      var n := |b| - 1;
      assert (a + b)[..|a + b| - 1] == a + b[..n];
      InWindowSplits(a, b[..n], w);
    }
  }

  ghost predicate NoneInside<E>(cs: seq<Class<E>>, w: Window) {
    forall i :: 0 <= i < |cs| ==> !Inside(cs[i], w)
  }

  lemma {:induction false} InWindowEmptyIff<E>(cs: seq<Class<E>>, w: Window)
    ensures InWindow(cs, w) == [] <==> NoneInside(cs, w)
  {
    if cs != [] {
      InWindowEmptyIff(cs[..|cs| - 1], w);
    }
  }

  /** A reader of `file`: it yields a front part, all of it unless it raises. */
  ghost predicate Reads<E>(cs: seq<Class<E>>, raised: bool, file: seq<Class<E>>) {
    cs <= file && (!raised ==> cs == file)
  }

  // The kept list is always a front part of the plain filter of the whole file;
  // it is all of it exactly when no in-window event lies beyond the stop point;
  // and when neither flag is set, it is all of it.
  lemma ScanAgainstFilter<E>(cs: seq<Class<E>>, raised: bool, file: seq<Class<E>>, w: Window, lim: Limits)
    requires Reads(cs, raised, file)
    ensures var out := Scan(cs, raised, w, lim);
            var n := StopFrom(cs, w, lim, 0);
            && out.kept <= InWindow(file, w)
            && (out.kept == InWindow(file, w) <==> NoneInside(file[n..], w))
            && (!out.stoppedEarly && !out.endedOnRun ==> out.kept == InWindow(file, w) && out.malformed == CountMalformed(file))
  {
    var n := StopFrom(cs, w, lim, 0);
    assert cs[..n] == file[..n];
    assert file == file[..n] + file[n..];
    InWindowSplits(file[..n], file[n..], w);
    InWindowEmptyIff(file[n..], w);
    if n == |file| {
      assert file[..n] == file;
    }
  }

  /** Newest first: no event is later than one yielded before it. */
  ghost predicate TimeOrdered<E>(cs: seq<Class<E>>) {
    forall i, j :: 0 <= i < j < |cs| && cs[i].Event? && cs[j].Event? ==> cs[i].stamped.at >= cs[j].stamped.at
  }

  // A positive run ends in a stale event.
  lemma {:induction false} RunHasStale<E>(cs: seq<Class<E>>, w: Window) returns (i: nat)
    requires StaleRun(cs, w) > 0
    ensures i < |cs| && StaleEvent(cs[i], w)
  {
    var n := |cs| - 1;
    if cs[n].Event? {
      i := n;
    } else {
      i := RunHasStale(cs[..n], w);
    }
  }

  // On a file in time order the run-length exit never loses an event.
  lemma RunExitSafeInOrder<E>(cs: seq<Class<E>>, raised: bool, file: seq<Class<E>>, w: Window, lim: Limits)
    requires Reads(cs, raised, file) && TimeOrdered(file) && lim.maxRun >= 1
    ensures var out := Scan(cs, raised, w, lim);
            out.endedOnRun ==> out.kept == InWindow(file, w)
  {
    var n := StopFrom(cs, w, lim, 0);
    ScanAgainstFilter(cs, raised, file, w, lim);
    if RunsOut(cs, w, lim, n) {
      var i := RunHasStale(cs[..n], w);
      assert cs[..n][i] == file[i];
    }
  }

  // Off such a file it can: one stale line written last hides a recent event,
  // and only the run flag says so.
  lemma RunExitCanLose<E>(e: E, w: Window)
    requires w.start < w.now
    ensures var file := [Event(Stamped(e, w.start)), Event(Stamped(e, w.now))];
            var out := Scan(file, false, w, Limits(10, 10, 1));
            out.kept == [] && out.endedOnRun && !out.stoppedEarly && InWindow(file, w) == [Stamped(e, w.now)]
  {
    var file := [Event(Stamped(e, w.start)), Event(Stamped(e, w.now))];
    var lim := Limits(10, 10, 1);
    assert file[..1] == [file[0]] && file[..1][..0] == [] && file[..0] == [];
    assert StaleRun(file[..1], w) == 1;
    assert RunsOut(file, w, lim, 1) && !RunsOut(file, w, lim, 0) && !Capped(file, w, lim, 0);
    assert StopFrom(file, w, lim, 1) == 1 && StopFrom(file, w, lim, 0) == 1;
    assert InWindow(file[..1], w) == [];
  }

  // --------------------------------------------------- imperative form

  /** The loop of `load_query_events` and `load_change_events`. */
  method ScanTail<E>(lines: seq<Line<E>>, raised: bool, requireEnvelope: bool, w: Window, lim: Limits)
    returns (kept: seq<Stamped<E>>, malformed: nat, stoppedEarly: bool, endedOnRun: bool, linesRead: nat)
    requires lim.maxRun >= 1
    ensures linesRead == StopFrom(ClassifyAll(lines, requireEnvelope), w, lim, 0)
    ensures Outcome(kept, malformed, stoppedEarly, endedOnRun) == Scan(ClassifyAll(lines, requireEnvelope), raised, w, lim)
    ensures |kept| <= lim.maxEvents && linesRead <= lim.maxLines
    ensures endedOnRun ==> StaleRun(ClassifyAll(lines, requireEnvelope)[..linesRead], w) >= lim.maxRun
    ensures stoppedEarly ==> raised || |kept| == lim.maxEvents || linesRead == lim.maxLines
  {
    ghost var cs := ClassifyAll(lines, requireEnvelope);
    kept, malformed, stoppedEarly, endedOnRun, linesRead := [], 0, false, false, 0;
    var run := 0;
    var i := 0;
    while i < |lines|
      invariant 0 <= i == linesRead <= |lines|
      invariant kept == InWindow(cs[..i], w) && malformed == CountMalformed(cs[..i])
      invariant run == StaleRun(cs[..i], w) < lim.maxRun
      invariant StopFrom(cs, w, lim, 0) == StopFrom(cs, w, lim, i)
      invariant |kept| <= lim.maxEvents && linesRead <= lim.maxLines
      invariant !stoppedEarly && !endedOnRun
    {
      if |kept| >= lim.maxEvents || linesRead >= lim.maxLines {
        stoppedEarly := true;
        return;
      }
      var line := lines[i];
      i, linesRead := i + 1, linesRead + 1;
      assert cs[..i][..i - 1] == cs[..i - 1] && cs[..i][i - 1] == Classify(line, requireEnvelope);
      if line.NotJson? {
        malformed := malformed + 1;
        continue;
      }
      if line.verdict.Forged? || (line.verdict.NoEnvelope? && requireEnvelope) {
        malformed := malformed + 1;
        continue;
      }
      if line.body.OtherType? {
        continue;
      }
      if line.body.Invalid? {
        malformed := malformed + 1;
        continue;
      }
      var at := line.body.at;
      if at <= w.start {
        run := run + 1;
        if run >= lim.maxRun {
          endedOnRun := true;
          return;
        }
        continue;
      }
      run := 0;
      if at > w.now {
        continue;
      }
      kept := kept + [Stamped(line.body.event, at)];
    }
    stoppedEarly := raised;
  }

  // ------------------------------------------------ from bytes to events

  function ParseAll<E>(lines: seq<Bytes>, parse: Bytes -> Line<E>): (ls: seq<Line<E>>)
    ensures |ls| == |lines| && forall i :: 0 <= i < |lines| ==> ls[i] == parse(lines[i])
  {
    seq(|lines|, i requires 0 <= i < |lines| => parse(lines[i]))
  }

  // ------------------------------------------- what a line counts as, spelled out

  /** A valid event of the right type, in a line whose envelope verifies, or that
      has none where none is required. */
  predicate Genuine<E>(line: Line<E>, requireEnvelope: bool) {
    && line.Parsed? && line.body.Valid?
    && (line.verdict.Verified? || (line.verdict.NoEnvelope? && !requireEnvelope))
  }

  /** Not JSON, forged, without a required envelope, or of the right type and invalid. */
  predicate Broken<E>(line: Line<E>, requireEnvelope: bool) {
    || line.NotJson?
    || line.verdict.Forged?
    || (line.verdict.NoEnvelope? && requireEnvelope)
    || line.body.Invalid?
  }

  /** The genuine events of these lines, in order. */
  function Events<E>(lines: seq<Bytes>, parse: Bytes -> Line<E>, requireEnvelope: bool): seq<Stamped<E>> {
    if lines == [] then []
    else
      var n := |lines| - 1;
      var line := parse(lines[n]);
      if Genuine(line, requireEnvelope)
      then Events(lines[..n], parse, requireEnvelope) + [Stamped(line.body.event, line.body.at)]
      else Events(lines[..n], parse, requireEnvelope)
  }

  /** Those of them after `start` and not after `now`. */
  function EventsWithin<E>(lines: seq<Bytes>, parse: Bytes -> Line<E>, requireEnvelope: bool, start: int, now: int): seq<Stamped<E>> {
    if lines == [] then []
    else
      var n := |lines| - 1;
      var line := parse(lines[n]);
      if Genuine(line, requireEnvelope) && start < line.body.at <= now
      then EventsWithin(lines[..n], parse, requireEnvelope, start, now) + [Stamped(line.body.event, line.body.at)]
      else EventsWithin(lines[..n], parse, requireEnvelope, start, now)
  }

  function IsBroken<E>(parse: Bytes -> Line<E>, requireEnvelope: bool): Bytes -> bool {
    (line: Bytes) => Broken(parse(line), requireEnvelope)
  }

  /** No genuine event is later than one yielded before it. */
  ghost predicate InTimeOrder<E>(evs: seq<Stamped<E>>) {
    forall i, j :: 0 <= i < j < |evs| ==> evs[i].at >= evs[j].at
  }

  /** What the scan makes of these lines. */
  function Classed<E>(lines: seq<Bytes>, parse: Bytes -> Line<E>, requireEnvelope: bool): (cs: seq<Class<E>>)
    ensures |cs| == |lines|
  {
    ClassifyAll(ParseAll(lines, parse), requireEnvelope)
  }

  function AllEvents<E>(cs: seq<Class<E>>): seq<Stamped<E>> {
    if cs == [] then []
    else
      var n := |cs| - 1;
      var rest := AllEvents(cs[..n]);
      if cs[n].Event? then rest + [cs[n].stamped] else rest
  }

  lemma ClassedInit<E>(lines: seq<Bytes>, parse: Bytes -> Line<E>, requireEnvelope: bool, n: nat)
    requires n <= |lines|
    ensures Classed(lines, parse, requireEnvelope)[..n] == Classed(lines[..n], parse, requireEnvelope)
    ensures Classed(lines, parse, requireEnvelope)[n..] == Classed(lines[n..], parse, requireEnvelope)
  {
  }

  lemma {:induction false} EventsAre<E>(lines: seq<Bytes>, parse: Bytes -> Line<E>, requireEnvelope: bool)
    ensures AllEvents(Classed(lines, parse, requireEnvelope)) == Events(lines, parse, requireEnvelope)
  {
    if lines != [] {
      var n := |lines| - 1;
      EventsAre(lines[..n], parse, requireEnvelope);
      ClassedInit(lines, parse, requireEnvelope, n);
    }
  }

  lemma {:induction false} WithinAre<E>(lines: seq<Bytes>, parse: Bytes -> Line<E>, requireEnvelope: bool, w: Window)
    ensures InWindow(Classed(lines, parse, requireEnvelope), w) == EventsWithin(lines, parse, requireEnvelope, w.start, w.now)
  {
    if lines != [] {
      var n := |lines| - 1;
      WithinAre(lines[..n], parse, requireEnvelope, w);
      ClassedInit(lines, parse, requireEnvelope, n);
    }
  }

  lemma {:induction false} MalformedAre<E>(lines: seq<Bytes>, parse: Bytes -> Line<E>, requireEnvelope: bool)
    ensures CountMalformed(Classed(lines, parse, requireEnvelope)) == Count(lines, IsBroken(parse, requireEnvelope))
  {
    if lines != [] {
      var n := |lines| - 1;
      MalformedAre(lines[..n], parse, requireEnvelope);
      ClassedInit(lines, parse, requireEnvelope, n);
    }
  }

  lemma {:induction false} EventPosition<E>(cs: seq<Class<E>>, i: nat) returns (k: nat)
    requires i < |cs| && cs[i].Event?
    ensures k < |AllEvents(cs)| && AllEvents(cs)[k] == cs[i].stamped && k == |AllEvents(cs[..i])|
  {
    var n := |cs| - 1;
    if i == n {
      k := |AllEvents(cs[..n])|;
    } else {
      assert cs[..n][..i] == cs[..i];
      k := EventPosition(cs[..n], i);
    }
  }

  lemma InOrderAre<E>(cs: seq<Class<E>>)
    requires InTimeOrder(AllEvents(cs))
    ensures TimeOrdered(cs)
  {
    forall i, j | 0 <= i < j < |cs| && cs[i].Event? && cs[j].Event?
      ensures cs[i].stamped.at >= cs[j].stamped.at
    {
      var k := EventPosition(cs, i);
      var l := EventPosition(cs, j);
      assert cs[..j][..i] == cs[..i];
      var k' := EventPosition(cs[..j], i);
      assert k == k' < l;
    }
  }

  // The run counts the latest read events, one after the other, that lie before
  // the window.
  lemma {:induction false} StaleRunMeans<E>(cs: seq<Class<E>>, w: Window)
    ensures var evs, run := AllEvents(cs), StaleRun(cs, w);
            && run <= |evs| && (forall i :: |evs| - run <= i < |evs| ==> evs[i].at <= w.start)
            && (run < |evs| ==> evs[|evs| - run - 1].at > w.start)
  {
    if cs != [] {
      StaleRunMeans(cs[..|cs| - 1], w);
    }
  }

  /** Chunk size and limits of the reader, and where a read comes back short. */
  datatype Reader = Reader(chunkSize: nat, maxLine: nat, maxTotal: nat, torn: nat -> bool)

  /** The loader: an absent file has no events; otherwise the chunked reader
      feeds the scan. `parse` is JSON decoding, envelope handling and validation. */
  method LoadEvents<E>(file: Option<Bytes>, parse: Bytes -> Line<E>, reader: Reader, requireEnvelope: bool, w: Window, lim: Limits)
    returns (kept: seq<Stamped<E>>, malformed: nat, stoppedEarly: bool, endedOnRun: bool, linesRead: nat)
    requires reader.chunkSize >= 1 && lim.maxRun >= 1
    ensures file.None? ==> kept == [] && malformed == 0 && !stoppedEarly && !endedOnRun
    ensures file.Some? ==>
              var lines := LinesFromEnd(file.value);
              var all := EventsWithin(lines, parse, requireEnvelope, w.start, w.now);
              && kept <= all && linesRead <= |lines|
              && (kept == all <==> EventsWithin(lines[linesRead..], parse, requireEnvelope, w.start, w.now) == [])
              && (!stoppedEarly && !endedOnRun ==> kept == all && malformed == Count(lines, IsBroken(parse, requireEnvelope)))
              && (endedOnRun && InTimeOrder(Events(lines, parse, requireEnvelope)) ==> kept == all)
              && (endedOnRun ==> EndsStale(Events(lines[..linesRead], parse, requireEnvelope), lim.maxRun, w.start))
    ensures !(stoppedEarly && endedOnRun)
    ensures |kept| <= lim.maxEvents && linesRead <= lim.maxLines
    ensures stoppedEarly ==>
              || |kept| == lim.maxEvents || linesRead == lim.maxLines
              || !Readable(file.value, reader.maxLine, reader.maxTotal, reader.torn)
  {
    if file.None? {
      return [], 0, false, false, 0;
    }
    var lines, raised := IterLinesReverse(file.value, reader.chunkSize, reader.maxLine, reader.maxTotal, reader.torn);
    var parsed := ParseAll(lines, parse);
    kept, malformed, stoppedEarly, endedOnRun, linesRead := ScanTail(parsed, raised, requireEnvelope, w, lim);
    ghost var all := LinesFromEnd(file.value);
    KeptMeans(lines, raised, all, parse, requireEnvelope, w, lim);
    OrderedMeans(lines, raised, all, parse, requireEnvelope, w, lim);
    RunMeans(lines, all, parse, requireEnvelope, w, linesRead);
  }

  lemma KeptMeans<E>(lines: seq<Bytes>, raised: bool, all: seq<Bytes>, parse: Bytes -> Line<E>, requireEnvelope: bool, w: Window, lim: Limits)
    requires lines <= all && (!raised ==> lines == all)
    ensures var cs := Classed(lines, parse, requireEnvelope);
            var out, n := Scan(cs, raised, w, lim), StopFrom(cs, w, lim, 0);
            var due := EventsWithin(all, parse, requireEnvelope, w.start, w.now);
            && out.kept <= due
            && (out.kept == due <==> EventsWithin(all[n..], parse, requireEnvelope, w.start, w.now) == [])
            && (!out.stoppedEarly && !out.endedOnRun ==> out.kept == due && out.malformed == Count(all, IsBroken(parse, requireEnvelope)))
  {
    var cs, whole := Classed(lines, parse, requireEnvelope), Classed(all, parse, requireEnvelope);
    var n := StopFrom(cs, w, lim, 0);
    ClassedInit(all, parse, requireEnvelope, |lines|);
    assert all[..|lines|] == lines;
    ScanAgainstFilter(cs, raised, whole, w, lim);
    WithinAre(all, parse, requireEnvelope, w);
    WithinAre(all[n..], parse, requireEnvelope, w);
    InWindowEmptyIff(whole[n..], w);
    ClassedInit(all, parse, requireEnvelope, n);
    MalformedAre(all, parse, requireEnvelope);
  }

  lemma OrderedMeans<E>(lines: seq<Bytes>, raised: bool, all: seq<Bytes>, parse: Bytes -> Line<E>, requireEnvelope: bool, w: Window, lim: Limits)
    requires lines <= all && (!raised ==> lines == all) && lim.maxRun >= 1
    ensures var out := Scan(Classed(lines, parse, requireEnvelope), raised, w, lim);
            out.endedOnRun && InTimeOrder(Events(all, parse, requireEnvelope)) ==>
              out.kept == EventsWithin(all, parse, requireEnvelope, w.start, w.now)
  {
    var cs, whole := Classed(lines, parse, requireEnvelope), Classed(all, parse, requireEnvelope);
    ClassedInit(all, parse, requireEnvelope, |lines|);
    assert all[..|lines|] == lines;
    EventsAre(all, parse, requireEnvelope);
    WithinAre(all, parse, requireEnvelope, w);
    if InTimeOrder(Events(all, parse, requireEnvelope)) {
      InOrderAre(whole);
      RunExitSafeInOrder(cs, raised, whole, w, lim);
    }
  }

  lemma RunMeans<E>(lines: seq<Bytes>, all: seq<Bytes>, parse: Bytes -> Line<E>, requireEnvelope: bool, w: Window, n: nat)
    requires lines <= all && n <= |lines|
    ensures var run := StaleRun(Classed(lines, parse, requireEnvelope)[..n], w);
            forall maxRun: nat :: run >= maxRun ==> EndsStale(Events(all[..n], parse, requireEnvelope), maxRun, w.start)
  {
    ClassedInit(lines, parse, requireEnvelope, n);
    assert all[..n] == lines[..n];
    EventsAre(lines[..n], parse, requireEnvelope);
    StaleRunMeans(Classed(lines[..n], parse, requireEnvelope), w);
  }

  /** The last `run` of these events all lie before the window. */
  ghost predicate EndsStale<E>(evs: seq<Stamped<E>>, run: nat, start: int) {
    run <= |evs| && forall i :: |evs| - run <= i < |evs| ==> evs[i].at <= start
  }
}
