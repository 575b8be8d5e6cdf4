// First boot: any number of workers race to create each seed file exclusively
// and then write it, and may die at any point.
module FirstBoot {
  import opened Json

  // The seed files in the order they are attempted: three starter documents,
  // then the admin key.
  const KEY: nat := 3
  const FILES: nat := 4

  /** Created but not yet written; a starter document; an admin key file. */
  datatype Content = Empty | Starter(index: nat) | Secret(key: string)

  type Volume = map<nat, Content>

  /** What a worker writes to file i; `candidate` is the key it drew. */
  function TextFor(i: nat, candidate: string): Content {
    if i == KEY then Secret(candidate) else Starter(i)
  }

  // ------------------------------------------------------ state machine

  /** About to create file i, about to write it, through, or dead at that point. */
  datatype Where = Creating(i: nat) | Writing(i: nat) | Done | Crashed(i: nat, writing: bool)

  datatype Worker = Worker(at: Where, seeded: set<nat>, generated: Option<string>, candidate: string)

  /** `creator` records who created which file. */
  datatype Boot = Boot(files: Volume, workers: map<nat, Worker>, creator: map<nat, nat>)

  /** A worker may join at any time: a late starter, or a restart under a new name. */
  datatype Step = Attempt(w: nat) | Write(w: nat) | Crash(w: nat) | Join(w: nat, candidate: string)

  function Advance(i: nat): Where {
    if i + 1 < FILES then Creating(i + 1) else Done
  }

  predicate Enabled(s: Boot, step: Step) {
    match step
    case Attempt(w) => w in s.workers && s.workers[w].at.Creating?
    case Write(w) => w in s.workers && s.workers[w].at.Writing?
    case Crash(w) => w in s.workers && (s.workers[w].at.Creating? || s.workers[w].at.Writing?)
    case Join(w, _) => w !in s.workers
  }

  function Starting(candidate: string): Worker {
    Worker(Creating(0), {}, None, candidate)
  }

  /** `_write_once` reported success for file i. */
  function Reported(wk: Worker, i: nat): Worker {
    if i == KEY then wk.(generated := Some(wk.candidate)) else wk.(seeded := wk.seeded + {i})
  }

  function Next(s: Boot, step: Step): Boot
    requires Enabled(s, step)
  {
    match step
    case Attempt(w) =>
      var wk := s.workers[w];
      var i := wk.at.i;
      if i in s.files
      then s.(workers := s.workers[w := wk.(at := Advance(i))])
      else Boot(s.files[i := Empty], s.workers[w := wk.(at := Writing(i))], s.creator[i := w])
    case Write(w) =>
      var wk := s.workers[w];
      var i := wk.at.i;
      s.(files := s.files[i := TextFor(i, wk.candidate)], workers := s.workers[w := Reported(wk, i).(at := Advance(i))])
    case Crash(w) =>
      var wk := s.workers[w];
      s.(workers := s.workers[w := wk.(at := Crashed(wk.at.i, wk.at.Writing?))])
    case Join(w, candidate) => s.(workers := s.workers[w := Starting(candidate)])
  }

  ghost predicate Follows(s: Boot, steps: seq<Step>)
    decreases |steps|
  {
    steps != [] ==> Enabled(s, steps[0]) && Follows(Next(s, steps[0]), steps[1..])
  }

  function After(s: Boot, steps: seq<Step>): Boot
    requires Follows(s, steps)
    decreases |steps|
  {
    if steps == [] then s else After(Next(s, steps[0]), steps[1..])
  }

  /** Nobody has started; whatever files there are were there before. */
  ghost predicate Initial(s: Boot) {
    && s.creator == map[]
    && forall w :: w in s.workers ==>
         s.workers[w].at == Creating(0) && s.workers[w].seeded == {} && s.workers[w].generated.None?
  }

  // --------------------------------------------------------- invariant

  predicate Claims(wk: Worker, i: nat) {
    if i == KEY then wk.generated.Some? else i in wk.seeded
  }

  /** The worker is beyond file i. */
  predicate Passed(at: Where, i: nat) {
    if at.Done? then i < FILES else i < at.i
  }

  /** A claimed file lies behind the worker and is its own creation, fully written. */
  predicate ClaimOk(files: Volume, creator: map<nat, nat>, w: nat, wk: Worker, i: nat) {
    Claims(wk, i) ==>
      && i < FILES && i in creator && creator[i] == w && i in files && files[i] == TextFor(i, wk.candidate)
      && Passed(wk.at, i)
  }

  /** Every file before the worker's position exists; the one it is writing it
      has created and not claimed. */
  ghost predicate PlaceOk(files: Volume, creator: map<nat, nat>, w: nat, wk: Worker) {
    && (!wk.at.Done? ==> wk.at.i < FILES)
    && (forall j: nat :: Passed(wk.at, j) ==> j in files)
    && (HoldsOpen(wk.at) ==> wk.at.i in files && wk.at.i in creator && creator[wk.at.i] == w && !Claims(wk, wk.at.i))
  }

  /** Between creating a file and writing it, or dead there. */
  predicate HoldsOpen(at: Where) {
    at.Writing? || (at.Crashed? && at.writing)
  }

  ghost predicate WorkerOk(files: Volume, creator: map<nat, nat>, w: nat, wk: Worker) {
    && (forall i: nat :: ClaimOk(files, creator, w, wk, i))
    && (wk.generated.Some? ==> wk.generated.value == wk.candidate)
    && KEY !in wk.seeded
    && PlaceOk(files, creator, w, wk)
  }

  /** A created file is still empty in its creator's hands, was left empty by a
      crash, or holds its creator's text and is claimed by it. */
  predicate FileOk(s: Boot, i: nat)
    requires i in s.creator
  {
    && i < FILES && i in s.files && s.creator[i] in s.workers
    && var wk := s.workers[s.creator[i]];
       if Claims(wk, i) then s.files[i] == TextFor(i, wk.candidate)
       else s.files[i] == Empty && HoldsOpen(wk.at) && wk.at.i == i
  }

  ghost predicate Inv(s: Boot, before: Volume) {
    && s.creator.Keys !! before.Keys
    && s.files.Keys == before.Keys + s.creator.Keys
    && (forall i :: i in before ==> s.files[i] == before[i])
    && (forall w :: w in s.workers ==> WorkerOk(s.files, s.creator, w, s.workers[w]))
    && (forall i :: i in s.creator ==> FileOk(s, i))
  }

  // Creating a new file, or writing one somebody else has not claimed, leaves a
  // worker's standing untouched.
  lemma Undisturbed(files: Volume, creator: map<nat, nat>, w: nat, wk: Worker, i: nat, content: Content, maker: nat)
    requires WorkerOk(files, creator, w, wk) && !Claims(wk, i)
    requires i in creator ==> creator[i] == maker
    requires i in files || i !in creator
    ensures WorkerOk(files[i := content], creator[i := maker], w, wk)
  {
    var f, c := files[i := content], creator[i := maker];
    forall j: nat
      ensures ClaimOk(f, c, w, wk, j)
    {
      assert ClaimOk(files, creator, w, wk, j);
    }
  }

  lemma AttemptKeeps(s: Boot, w: nat, before: Volume)
    requires Inv(s, before) && Enabled(s, Attempt(w))
    ensures Inv(Next(s, Attempt(w)), before)
  {
    if s.workers[w].at.i in s.files {
      SkipKeeps(s, w, before);
    } else {
      CreateKeeps(s, w, before);
    }
  }

  // The file is there already: the worker moves on.
  lemma SkipKeeps(s: Boot, w: nat, before: Volume)
    requires Inv(s, before) && Enabled(s, Attempt(w)) && s.workers[w].at.i in s.files
    ensures Inv(Next(s, Attempt(w)), before)
  {
    var t := Next(s, Attempt(w));
    MoveKeeps(t.files, t.creator, w, s.workers[w], t.workers[w].at);
    forall j | j in t.creator
      ensures FileOk(t, j)
    {
      assert FileOk(s, j);
    }
  }

  // The file is missing: it is created empty.
  lemma CreateKeeps(s: Boot, w: nat, before: Volume)
    requires Inv(s, before) && Enabled(s, Attempt(w)) && s.workers[w].at.i !in s.files
    ensures Inv(Next(s, Attempt(w)), before)
  {
    var wk := s.workers[w];
    var i := wk.at.i;
    var t := Next(s, Attempt(w));
    CreateUndisturbed(s, w, before);
    assert ClaimOk(s.files, s.creator, w, wk, i);
    MoveKeeps(t.files, t.creator, w, wk, Writing(i));
    forall j | j in t.creator
      ensures FileOk(t, j)
    {
      assert j in s.creator ==> FileOk(s, j);
    }
  }

  lemma CreateUndisturbed(s: Boot, w: nat, before: Volume)
    requires Inv(s, before) && Enabled(s, Attempt(w)) && s.workers[w].at.i !in s.files
    ensures var i := s.workers[w].at.i;
            forall v :: v in s.workers ==> WorkerOk(s.files[i := Empty], s.creator[i := w], v, s.workers[v])
  {
    var i := s.workers[w].at.i;
    forall v | v in s.workers
      ensures WorkerOk(s.files[i := Empty], s.creator[i := w], v, s.workers[v])
    {
      assert ClaimOk(s.files, s.creator, v, s.workers[v], i);
      Undisturbed(s.files, s.creator, v, s.workers[v], i, Empty, w);
    }
  }

  // Only the position changes.
  lemma MoveKeeps(files: Volume, creator: map<nat, nat>, w: nat, wk: Worker, to: Where)
    requires WorkerOk(files, creator, w, wk) && PlaceOk(files, creator, w, wk.(at := to))
    requires forall j: nat :: Passed(wk.at, j) ==> Passed(to, j)
    ensures WorkerOk(files, creator, w, wk.(at := to))
  {
    forall j: nat
      ensures ClaimOk(files, creator, w, wk.(at := to), j)
    {
      assert ClaimOk(files, creator, w, wk, j);
    }
  }

  // Claiming the file just written.
  lemma ClaimKeeps(files: Volume, creator: map<nat, nat>, w: nat, wk: Worker, i: nat)
    requires WorkerOk(files, creator, w, wk) && wk.at == Writing(i)
    requires i in files && files[i] == TextFor(i, wk.candidate)
    ensures WorkerOk(files, creator, w, Reported(wk, i).(at := Advance(i)))
  {
    var after := Reported(wk, i).(at := Advance(i));
    forall j: nat
      ensures ClaimOk(files, creator, w, after, j)
    {
      assert ClaimOk(files, creator, w, wk, j);
    }
  }

  lemma WriteKeeps(s: Boot, w: nat, before: Volume)
    requires Inv(s, before) && Enabled(s, Write(w))
    ensures Inv(Next(s, Write(w)), before)
  {
    var wk := s.workers[w];
    var i := wk.at.i;
    var t := Next(s, Write(w));
    assert FileOk(s, i);
    forall v | v in s.workers
      ensures WorkerOk(t.files, t.creator, v, s.workers[v])
    {
      assert ClaimOk(s.files, s.creator, v, s.workers[v], i);
      Undisturbed(s.files, s.creator, v, s.workers[v], i, TextFor(i, wk.candidate), w);
      assert s.creator[i := w] == s.creator;
    }
    ClaimKeeps(t.files, t.creator, w, wk, i);
    forall j | j in t.creator
      ensures FileOk(t, j)
    {
      assert FileOk(s, j);
    }
  }

  lemma CrashKeeps(s: Boot, w: nat, before: Volume)
    requires Inv(s, before) && Enabled(s, Crash(w))
    ensures Inv(Next(s, Crash(w)), before)
  {
    var t := Next(s, Crash(w));
    MoveKeeps(s.files, s.creator, w, s.workers[w], t.workers[w].at);
    forall i | i in t.creator
      ensures FileOk(t, i)
    {
      assert FileOk(s, i);
    }
  }

  lemma StepKeeps(s: Boot, step: Step, before: Volume)
    requires Inv(s, before) && Enabled(s, step)
    ensures Inv(Next(s, step), before)
  {
    match step
    case Attempt(w) => AttemptKeeps(s, w, before);
    case Write(w) => WriteKeeps(s, w, before);
    case Crash(w) => CrashKeeps(s, w, before);
    case Join(w, candidate) => JoinKeeps(s, w, candidate, before);
  }

  lemma {:induction false} RunKeeps(s: Boot, steps: seq<Step>, before: Volume)
    requires Inv(s, before) && Follows(s, steps)
    ensures Inv(After(s, steps), before)
    decreases |steps|
  {
    if steps != [] {
      StepKeeps(s, steps[0], before);
      RunKeeps(Next(s, steps[0]), steps[1..], before);
    }
  }

  // ----------------------------------------------------------- theorems

  /** No two workers claim the same file. */
  ghost predicate OneClaimant(s: Boot) {
    forall v, w, i: nat :: v in s.workers && w in s.workers && Claims(s.workers[v], i) && Claims(s.workers[w], i) ==> v == w
  }

  /** A reported key is the stored one, and there was none before. */
  ghost predicate HonestKeys(s: Boot, before: Volume) {
    forall w :: w in s.workers && s.workers[w].generated.Some? ==>
      KEY in s.files && s.files[KEY] == Secret(s.workers[w].generated.value) && KEY !in before
  }

  lemma InvOneClaimant(s: Boot, before: Volume)
    requires Inv(s, before)
    ensures OneClaimant(s)
  {
    forall v, w, i: nat | v in s.workers && w in s.workers && Claims(s.workers[v], i) && Claims(s.workers[w], i)
      ensures v == w
    {
      assert ClaimOk(s.files, s.creator, v, s.workers[v], i);
      assert ClaimOk(s.files, s.creator, w, s.workers[w], i);
    }
  }

  lemma InvHonestKeys(s: Boot, before: Volume)
    requires Inv(s, before)
    ensures HonestKeys(s, before)
  {
    forall w | w in s.workers && s.workers[w].generated.Some?
      ensures KEY in s.files && s.files[KEY] == Secret(s.workers[w].generated.value) && KEY !in before
    {
      assert WorkerOk(s.files, s.creator, w, s.workers[w]);
      assert ClaimOk(s.files, s.creator, w, s.workers[w], KEY);
    }
  }

  // Under any interleaving of any number of crashing workers: files that were
  // there never change; no two workers claim the same file; and a worker that
  // reports a key reports the one that is stored.
  lemma WriteOnce(s: Boot, steps: seq<Step>)
    requires Initial(s) && Follows(s, steps)
    ensures var t := After(s, steps);
            && (forall i :: i in s.files ==> i in t.files && t.files[i] == s.files[i])
            && OneClaimant(t) && HonestKeys(t, s.files)
  {
    RunKeeps(s, steps, s.files);
    InvOneClaimant(After(s, steps), s.files);
    InvHonestKeys(After(s, steps), s.files);
  }

  /** How a file may change in one step: created empty, or an empty file written. */
  predicate Grows(before: Volume, after: Volume, i: nat) {
    || (i !in before && (i !in after || after[i] == Empty))
    || (i in before && i in after && (after[i] == before[i] || before[i] == Empty))
  }

  /** What a file may become over a run: it stays, or is written by its creator. */
  ghost predicate GrownTo(s: Boot, t: Boot, i: nat) {
    && (i in s.files ==> i in t.files)
    && (i in s.files && s.files[i] != Empty ==> t.files[i] == s.files[i])
    && (i in s.creator ==> i in t.creator && t.creator[i] == s.creator[i])
    && (i in t.files && (i !in s.files || t.files[i] != s.files[i]) ==> i in t.creator)
    && (i in t.creator ==>
          i in t.files && t.creator[i] in t.workers && t.files[i] in {Empty, TextFor(i, t.workers[t.creator[i]].candidate)})
  }

  // Over every run a file only moves from absent to empty to its creator's text,
  // and the creator never changes.
  lemma {:induction false} FilesOnlyGrow(s: Boot, steps: seq<Step>, before: Volume, i: nat)
    requires Inv(s, before) && Follows(s, steps)
    ensures GrownTo(s, After(s, steps), i)
    decreases |steps|
  {
    if i in s.creator {
      assert FileOk(s, i);
    }
    if steps != [] {
      var step := steps[0];
      StepKeeps(s, step, before);
      StepGrows(s, step, before, i);
      FilesOnlyGrow(Next(s, step), steps[1..], before, i);
    }
  }

  // A file's content only moves from absent to empty to its creator's text.
  lemma StepGrows(s: Boot, step: Step, before: Volume, i: nat)
    requires Inv(s, before) && Enabled(s, step)
    ensures Grows(s.files, Next(s, step).files, i)
    ensures i in s.creator ==> i in Next(s, step).creator && Next(s, step).creator[i] == s.creator[i]
    ensures i in s.files && Next(s, step).files[i] != s.files[i] ==>
              && step.Write? && i in s.creator && step.w == s.creator[i]
              && Next(s, step).files[i] == TextFor(i, s.workers[step.w].candidate)
    ensures i !in s.files && i in Next(s, step).files ==> step.Attempt? && i in Next(s, step).creator
  {
    if !step.Join? {
      assert WorkerOk(s.files, s.creator, step.w, s.workers[step.w]);
    }
    if i in s.creator {
      assert FileOk(s, i);
    }
    if step.Write? {
      assert FileOk(s, s.workers[step.w].at.i);
    }
  }

  // ------------------------------------------------ how a boot can end

  /** Every worker is through or dead. */
  ghost predicate Settled(s: Boot) {
    forall w :: w in s.workers ==> s.workers[w].at.Done? || s.workers[w].at.Crashed?
  }

  ghost predicate ClaimedBySome(s: Boot, i: nat) {
    exists w :: w in s.workers && Claims(s.workers[w], i)
  }

  /** Somebody died between creating file i and writing it. */
  ghost predicate DiedWriting(s: Boot, i: nat) {
    exists w :: w in s.workers && s.workers[w].at == Crashed(i, true)
  }

  /** Somebody got beyond file i. */
  ghost predicate PassedBySome(s: Boot, i: nat) {
    exists w :: w in s.workers && Passed(s.workers[w].at, i)
  }

  // The outcome of every run whose workers are all through or dead, file by
  // file: a missing file is left empty exactly when a worker died writing it,
  // stays absent exactly when every worker died before it, and is filled and
  // claimed exactly when somebody got beyond it and nobody died writing it.
  lemma SeedingOutcome(s: Boot, steps: seq<Step>, i: nat)
    requires Initial(s) && Follows(s, steps) && Settled(After(s, steps)) && i < FILES && i !in s.files
    ensures var t := After(s, steps);
            && (i in t.files && t.files[i] == Empty <==> DiedWriting(t, i))
            && (i !in t.files <==> !PassedBySome(t, i) && !DiedWriting(t, i))
            && (ClaimedBySome(t, i) <==> PassedBySome(t, i) && !DiedWriting(t, i))
            && (ClaimedBySome(t, i) <==> i in t.files && t.files[i] != Empty)
  {
    RunKeeps(s, steps, s.files);
    SettledOutcome(After(s, steps), s.files, i);
  }

  lemma SettledOutcome(t: Boot, before: Volume, i: nat)
    requires Inv(t, before) && Settled(t) && i < FILES && i !in before
    ensures i in t.files && t.files[i] == Empty <==> DiedWriting(t, i)
    ensures i !in t.files <==> !PassedBySome(t, i) && !DiedWriting(t, i)
    ensures ClaimedBySome(t, i) <==> i in t.files && t.files[i] != Empty
    ensures ClaimedBySome(t, i) <==> PassedBySome(t, i) && !DiedWriting(t, i)
  {
    if i in t.files {
      CreatedOutcome(t, before, i);
    }
    forall w | w in t.workers
      ensures Passed(t.workers[w].at, i) || t.workers[w].at == Crashed(i, true) || Claims(t.workers[w], i) ==> i in t.files
    {
      assert WorkerOk(t.files, t.creator, w, t.workers[w]);
      assert ClaimOk(t.files, t.creator, w, t.workers[w], i);
    }
  }

  // A file created in the run: its creator claims it, or died writing it.
  lemma CreatedOutcome(t: Boot, before: Volume, i: nat)
    requires Inv(t, before) && Settled(t) && i < FILES && i !in before && i in t.files
    ensures ClaimedBySome(t, i) <==> t.files[i] != Empty
    ensures DiedWriting(t, i) <==> t.files[i] == Empty
    ensures PassedBySome(t, i) || DiedWriting(t, i)
  {
    assert FileOk(t, i);
    var c := t.creator[i];
    assert WorkerOk(t.files, t.creator, c, t.workers[c]);
    assert ClaimOk(t.files, t.creator, c, t.workers[c], i);
    forall w | w in t.workers && (Claims(t.workers[w], i) || t.workers[w].at == Crashed(i, true))
      ensures w == c
    {
      assert WorkerOk(t.files, t.creator, w, t.workers[w]);
      assert ClaimOk(t.files, t.creator, w, t.workers[w], i);
    }
  }

  // If somebody got through and nobody died writing, the claims cover exactly
  // the files that were missing, each file is there and none is left empty.
  lemma SeedingComplete(s: Boot, steps: seq<Step>, v: nat)
    requires Initial(s) && Follows(s, steps) && Settled(After(s, steps))
    requires var t := After(s, steps); v in t.workers && t.workers[v].at.Done? && forall i: nat :: !DiedWriting(t, i)
    ensures var t := After(s, steps);
            forall i: nat :: i < FILES ==>
              && i in t.files
              && (i !in s.files <==> ClaimedBySome(t, i))
              && (i !in s.files ==> t.files[i] != Empty)
  {
    RunKeeps(s, steps, s.files);
    var t := After(s, steps);
    assert WorkerOk(t.files, t.creator, v, t.workers[v]);
    forall i: nat | i < FILES
      ensures i in t.files
      ensures i !in s.files <==> ClaimedBySome(t, i)
      ensures i !in s.files ==> t.files[i] != Empty
    {
      assert Passed(t.workers[v].at, i);
      if i !in s.files {
        SeedingOutcome(s, steps, i);
      } else {
        UnclaimedBefore(t, s.files, i);
      }
    }
  }

  lemma UnclaimedBefore(t: Boot, before: Volume, i: nat)
    requires Inv(t, before) && i in before
    ensures !ClaimedBySome(t, i)
  {
    forall w | w in t.workers ensures !Claims(t.workers[w], i) {
      assert ClaimOk(t.files, t.creator, w, t.workers[w], i);
    }
  }

  // A crash between creation and write is never repaired: the file stays empty
  // through every continuation, restarts and new workers included.
  lemma {:induction false} CrashLeavesEmpty(s: Boot, steps: seq<Step>, before: Volume, w: nat, i: nat)
    requires Inv(s, before) && Follows(s, steps)
    requires w in s.workers && s.workers[w].at == Crashed(i, true)
    ensures i in After(s, steps).files && After(s, steps).files[i] == Empty
    decreases |steps|
  {
    if steps == [] {
      DeadLeavesEmpty(s, before, w, i);
    } else {
      StepKeeps(s, steps[0], before);
      StaysDead(s, steps[0], w);
      CrashLeavesEmpty(Next(s, steps[0]), steps[1..], before, w, i);
    }
  }

  lemma StaysDead(s: Boot, step: Step, w: nat)
    requires Enabled(s, step) && w in s.workers && s.workers[w].at.Crashed?
    ensures w in Next(s, step).workers && Next(s, step).workers[w].at == s.workers[w].at
  {
  }

  lemma DeadLeavesEmpty(s: Boot, before: Volume, w: nat, i: nat)
    requires Inv(s, before) && w in s.workers && s.workers[w].at == Crashed(i, true)
    ensures i in s.files && s.files[i] == Empty
  {
    assert WorkerOk(s.files, s.creator, w, s.workers[w]);
    assert FileOk(s, i);
  }

  // How it comes about: the first worker dies right after creating the admin key
  // file of a volume that already holds the starter documents.
  lemma KeyLost(s: Boot, w: nat, rest: seq<Step>)
    requires Initial(s) && w in s.workers && s.files.Keys == {0, 1, 2}
    ensures var steps := [Attempt(w), Attempt(w), Attempt(w), Attempt(w), Crash(w)];
            && Follows(s, steps)
            && var t := After(s, steps);
               && w in t.workers && t.workers[w].at == Crashed(KEY, true)
               && (Follows(t, rest) ==> KEY in After(t, rest).files && After(t, rest).files[KEY] == Empty)
  {
    var steps := [Attempt(w), Attempt(w), Attempt(w), Attempt(w), Crash(w)];
    var s1 := Next(s, Attempt(w));
    var s2 := Next(s1, Attempt(w));
    var s3 := Next(s2, Attempt(w));
    var s4 := Next(s3, Attempt(w));
    assert s4.workers[w].at == Writing(KEY);
    var s5 := Next(s4, Crash(w));
    RunOfOne(s4, Crash(w));
    RunOfMore(s3, Attempt(w), [Crash(w)]);
    RunOfMore(s2, Attempt(w), [Attempt(w), Crash(w)]);
    RunOfMore(s1, Attempt(w), [Attempt(w), Attempt(w), Crash(w)]);
    RunOfMore(s, Attempt(w), [Attempt(w), Attempt(w), Attempt(w), Crash(w)]);
    assert steps == [Attempt(w)] + [Attempt(w), Attempt(w), Attempt(w), Crash(w)];
    if Follows(s5, rest) {
      RunKeeps(s, steps, s.files);
      CrashLeavesEmpty(s5, rest, s.files, w, KEY);
    }
  }

  lemma RunOfOne(s: Boot, step: Step)
    requires Enabled(s, step)
    ensures Follows(s, [step]) && After(s, [step]) == Next(s, step)
  {
    assert [step][1..] == [];
    assert Follows(Next(s, step), []);
  }

  lemma RunOfMore(s: Boot, step: Step, rest: seq<Step>)
    requires Enabled(s, step) && Follows(Next(s, step), rest)
    ensures Follows(s, [step] + rest) && After(s, [step] + rest) == After(Next(s, step), rest)
  {
    assert ([step] + rest)[1..] == rest;
  }

  // A worker that joins keeps the invariant.
  lemma JoinKeeps(s: Boot, w: nat, candidate: string, before: Volume)
    requires Inv(s, before) && w !in s.workers
    ensures Inv(s.(workers := s.workers[w := Starting(candidate)]), before)
  {
    var t := s.(workers := s.workers[w := Starting(candidate)]);
    forall i | i in t.creator
      ensures FileOk(t, i)
    {
      assert FileOk(s, i);
    }
  }

  // ----------------------------------------------------- imperative form

  class Disk {
    var files: Volume

    constructor (initial: Volume)
      ensures files == initial
    {
      files := initial;
    }

    method TryWriteOnce(i: nat, content: Content) returns (created: bool)
      modifies this
      ensures created <==> i !in old(files)
      ensures files == if created then old(files)[i := content] else old(files)
    {
      if i in files {
        return false;
      }
      files := files[i := Empty];
      files := files[i := content];
      created := true;
    }

    /** One worker alone: exactly the missing files are seeded, nothing else is
        touched, and a second run does nothing. */
    method Boot(candidate: string) returns (generated: Option<string>, seeded: seq<nat>)
      modifies this
      ensures forall i :: i in old(files) ==> i in files && files[i] == old(files)[i]
      ensures forall i: nat :: i in seeded <==> i < KEY && i !in old(files)
      ensures forall i :: i in files && i !in old(files) ==> i < FILES && files[i] == TextFor(i, candidate)
      ensures forall i :: 0 <= i < FILES ==> i in files
      ensures generated == if KEY in old(files) then None else Some(candidate)
      ensures (forall i :: 0 <= i < FILES ==> i in old(files)) ==> files == old(files) && seeded == [] && generated.None?
    {
      seeded := [];
      for i := 0 to KEY
        invariant forall j :: j in old(files) ==> j in files && files[j] == old(files)[j]
        invariant forall j: nat :: j in seeded <==> j < i && j !in old(files)
        invariant forall j :: j in files && j !in old(files) ==> j < i && files[j] == Starter(j)
        invariant forall j :: 0 <= j < i ==> j in files
        invariant (forall j :: 0 <= j < FILES ==> j in old(files)) ==> files == old(files) && seeded == []
      {
        var created := TryWriteOnce(i, Starter(i));
        if created {
          seeded := seeded + [i];
        }
      }
      generated := None;
      var created := TryWriteOnce(KEY, Secret(candidate));
      if created {
        generated := Some(candidate);
      }
    }
  }
}
