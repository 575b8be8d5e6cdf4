// Hot reload: load everything, swap every store, then dispose stale engines one
// at a time while requests keep building engines on demand.
module ConfigReload {
  import opened Json

  datatype Profile = Profile(connectionString: string, dialect: string)

  type Registry = map<string, Profile>

  type Doc = string

  /** The query timeout is the part of a policy that an engine is built with. */
  datatype Policies = Policies(text: Doc, timeouts: map<string, int>, standard: int)

  function TimeoutOf(p: Policies, id: string): int {
    if id in p.timeouts then p.timeouts[id] else p.standard
  }

  datatype Engine = Engine(profile: Profile, timeout: int)

  /** Outcome of reading and validating one file. */
  datatype Load<+T> = Loaded(value: T) | LoadFailed

  /** None: no path was given. */
  datatype Sources = Sources(
    connections: Load<Registry>, policy: Load<Policies>,
    catalog: Option<Load<Doc>>, templates: Option<Load<Doc>>,
    identity: Option<Load<Doc>>, localUsers: Option<Load<Doc>>)

  datatype Stores = Stores(
    registry: Registry, policy: Policies, catalog: Doc, templates: Doc,
    identity: Doc, discovery: set<string>, localUsers: Doc)

  const EMPTY_DOC: Doc := ""

  predicate Succeeds<T>(l: Option<Load<T>>) {
    l.Some? ==> l.value.Loaded?
  }

  predicate AllLoad(src: Sources) {
    && src.connections.Loaded? && src.policy.Loaded?
    && Succeeds(src.catalog) && Succeeds(src.templates) && Succeeds(src.identity) && Succeeds(src.localUsers)
  }

  /** What a successful load makes of the stores: a missing catalog or template
      path means empty, a missing identity or user path means untouched. */
  function Swapped(s: Stores, src: Sources): Stores
    requires AllLoad(src)
  {
    Stores(
      src.connections.value,
      src.policy.value,
      if src.catalog.Some? then src.catalog.value.value else EMPTY_DOC,
      if src.templates.Some? then src.templates.value.value else EMPTY_DOC,
      if src.identity.Some? then src.identity.value.value else s.identity,
      if src.identity.Some? then {} else s.discovery,
      if src.localUsers.Some? then src.localUsers.value.value else s.localUsers)
  }

  /** Connections removed, or whose connection string or dialect changed. */
  function Stale(before: Registry, after: Registry): set<string> {
    set id | id in before && (id !in after || before[id] != after[id])
  }

  // ------------------------------------------------------ state machine

  datatype Phase = Idle | Disposing(pending: set<string>)

  /** `makers` are the session makers, each bound to the engine it was made on;
      `abandoned` are ids whose disposal was skipped when a reload was cut short. */
  datatype Sys = Sys(
    stores: Stores, engines: map<string, Engine>, makers: map<string, Engine>,
    phase: Phase, abandoned: set<string>)

  /** The steps other coroutines can be interleaved between. The reload lock admits one
      reload at a time; each engine disposal awaits, and may fail. */
  datatype Step =
    | Reload(src: Sources)
    | Dispose(id: string, succeeds: bool)
    | Finish
    | UseEngine(id: string)
    | UseMaker(id: string)

  predicate Enabled(s: Sys, step: Step) {
    match step
    case Reload(_) => s.phase.Idle?
    case Dispose(id, succeeds) => s.phase.Disposing? && id in s.phase.pending && (succeeds || id in s.engines)
    case Finish => s.phase == Disposing({})
    case UseEngine(_) => true
    case UseMaker(_) => true
  }

  /** Dialects without an asynchronous driver are refused, and so is an empty
      connection string. */
  predicate Buildable(p: Profile) {
    p.connectionString != "" && p.dialect !in {"snowflake", "bigquery"}
  }

  /** `get_engine`: build from the registry of the moment unless cached; a profile
      no engine can be built from raises and caches nothing. */
  function WithEngine(s: Sys, id: string): Sys {
    if id in s.engines || id !in s.stores.registry || !Buildable(s.stores.registry[id]) then s
    else s.(engines := s.engines[id := Built(s.stores, id)])
  }

  function Built(stores: Stores, id: string): Engine
    requires id in stores.registry
  {
    Engine(stores.registry[id], TimeoutOf(stores.policy, id))
  }

  function Next(s: Sys, step: Step): Sys
    requires Enabled(s, step)
  {
    match step
    case Reload(src) =>
      if !AllLoad(src) then s
      else
        var after := Swapped(s.stores, src);
        s.(stores := after, phase := Disposing(Stale(s.stores.registry, after.registry)))
    case Dispose(id, succeeds) =>
      var t := s.(engines := s.engines - {id}, makers := s.makers - {id}, abandoned := s.abandoned - {id});
      if succeeds then t.(phase := Disposing(s.phase.pending - {id}))
      else t.(phase := Idle, abandoned := t.abandoned + (s.phase.pending - {id}))
    case Finish => s.(phase := Idle)
    case UseEngine(id) => WithEngine(s, id)
    case UseMaker(id) =>
      if id in s.makers then s
      else
        var t := WithEngine(s, id);
        if id in t.engines then t.(makers := t.makers[id := t.engines[id]]) else t
  }

  ghost predicate Follows(s: Sys, steps: seq<Step>)
    decreases |steps|
  {
    steps != [] ==> Enabled(s, steps[0]) && Follows(Next(s, steps[0]), steps[1..])
  }

  function After(s: Sys, steps: seq<Step>): Sys
    requires Follows(s, steps)
    decreases |steps|
  {
    if steps == [] then s else After(Next(s, steps[0]), steps[1..])
  }

  // -------------------------------------------------------- coherence

  predicate Matches(s: Sys, id: string) {
    id in s.engines && id in s.stores.registry && s.engines[id].profile == s.stores.registry[id]
  }

  predicate Awaiting(s: Sys, id: string) {
    s.phase.Disposing? && id in s.phase.pending
  }

  /** Every cached engine is current, awaiting disposal, or was abandoned; every
      session maker is bound to the cached engine. */
  ghost predicate Coherent(s: Sys) {
    && (forall id :: id in s.engines ==> Matches(s, id) || Awaiting(s, id) || id in s.abandoned)
    && (forall id :: id in s.makers ==> id in s.engines && s.makers[id] == s.engines[id])
  }

  lemma StepCoherent(s: Sys, step: Step)
    requires Coherent(s) && Enabled(s, step)
    ensures Coherent(Next(s, step))
  {
    var t := Next(s, step);
    forall id | id in t.engines
      ensures Matches(t, id) || Awaiting(t, id) || id in t.abandoned
    {
    }
  }

  lemma {:induction false} ReachableCoherent(s: Sys, steps: seq<Step>)
    requires Coherent(s) && Follows(s, steps)
    ensures Coherent(After(s, steps))
    decreases |steps|
  {
    if steps != [] {
      StepCoherent(s, steps[0]);
      ReachableCoherent(Next(s, steps[0]), steps[1..]);
    }
  }

  ghost predicate NoFailedDisposal(steps: seq<Step>) {
    forall i :: 0 <= i < |steps| && steps[i].Dispose? ==> steps[i].succeeds
  }

  lemma {:induction false} NothingAbandoned(s: Sys, steps: seq<Step>)
    requires s.abandoned == {} && Follows(s, steps) && NoFailedDisposal(steps)
    ensures After(s, steps).abandoned == {}
    decreases |steps|
  {
    if steps != [] {
      NothingAbandoned(Next(s, steps[0]), steps[1..]);
    }
  }

  // Over every interleaving in which each disposal succeeds, whenever no reload
  // is in progress each cached engine is the one its current profile asks for.
  lemma ReloadSettles(s: Sys, steps: seq<Step>)
    requires Coherent(s) && s.abandoned == {} && Follows(s, steps) && NoFailedDisposal(steps)
    ensures var t := After(s, steps);
            t.phase.Idle? ==> forall id :: id in t.engines ==> Matches(t, id)
  {
    ReachableCoherent(s, steps);
    NothingAbandoned(s, steps);
  }

  // -------------------------------------------------------- failed loads

  /** The run without its failed reloads. */
  function Effective(steps: seq<Step>): seq<Step>
    decreases |steps|
  {
    if steps == [] then []
    else if steps[0].Reload? && !AllLoad(steps[0].src) then Effective(steps[1..])
    else [steps[0]] + Effective(steps[1..])
  }

  // A reload whose load fails leaves no trace, at any point of any run: taking
  // all of them out gives a run that ends in the same stores and engines.
  lemma {:induction false} FailedLoadsLeaveNoTrace(s: Sys, steps: seq<Step>)
    requires Follows(s, steps)
    ensures Follows(s, Effective(steps)) && After(s, Effective(steps)) == After(s, steps)
    decreases |steps|
  {
    if steps != [] {
      FailedLoadsLeaveNoTrace(Next(s, steps[0]), steps[1..]);
      if !(steps[0].Reload? && !AllLoad(steps[0].src)) {
        assert Effective(steps)[1..] == Effective(steps[1..]);
      }
    }
  }

  // ------------------------------------------------ an aborted disposal

  /** A later reload does not touch this connection. */
  predicate Spares(s: Sys, step: Step, id: string) {
    step.Reload? && AllLoad(step.src) ==>
      id in s.stores.registry && id in step.src.connections.value
      && step.src.connections.value[id] == s.stores.registry[id]
  }

  ghost predicate AllSpare(s: Sys, steps: seq<Step>, id: string)
    requires Follows(s, steps)
    decreases |steps|
  {
    steps != [] ==> Spares(s, steps[0], id) && AllSpare(Next(s, steps[0]), steps[1..], id)
  }

  // An engine that is not awaiting disposal stays exactly as it is through any
  // number of reloads that leave its connection's profile unchanged: once the
  // disposal of a stale engine was skipped, later reloads do not catch up on it.
  lemma {:induction false} SkippedEngineSurvives(s: Sys, steps: seq<Step>, id: string)
    requires Follows(s, steps) && AllSpare(s, steps, id)
    requires id in s.engines && !Awaiting(s, id)
    ensures var t := After(s, steps); id in t.engines && t.engines[id] == s.engines[id] && !Awaiting(t, id)
    ensures id in s.stores.registry ==>
              var t := After(s, steps); id in t.stores.registry && t.stores.registry[id] == s.stores.registry[id]
    decreases |steps|
  {
    if steps != [] {
      SkippedEngineSurvives(Next(s, steps[0]), steps[1..], id);
    }
  }

  function JustConnections(r: Registry, policy: Policies): Sources {
    Sources(Loaded(r), Loaded(policy), None, None, None, None)
  }

  // How it comes about: two connections change, disposing the first engine fails,
  // and the second keeps its old engine with no reload in progress.
  lemma FailedDisposalLeavesStale(s: Sys, a: string, b: string, before: Profile, after: Profile)
    requires a != b && before != after && s.phase.Idle?
    requires a in s.engines && b in s.engines && s.engines[b].profile == before
    requires s.stores.registry == map[a := before, b := before]
    ensures var steps := [Reload(JustConnections(map[a := after, b := after], s.stores.policy)), Dispose(a, false)];
            && Follows(s, steps)
            && var t := After(s, steps);
               t.phase.Idle? && b in t.engines && !Matches(t, b) && b in t.abandoned
  {
    var src := JustConnections(map[a := after, b := after], s.stores.policy);
    var steps := [Reload(src), Dispose(a, false)];
    var s1 := Next(s, Reload(src));
    assert s1.phase.pending == {a, b};
    assert steps[1..] == [Dispose(a, false)] && steps[1..][1..] == [];
    var s2 := Next(s1, Dispose(a, false));
    assert Follows(s2, []);
    assert Follows(s1, steps[1..]);
    assert After(s1, steps[1..]) == After(s2, []) == s2;
  }

  // ------------------------------------- when a run ends with stale engines

  /** The state after the first n steps. */
  function At(s: Sys, steps: seq<Step>, n: nat): Sys
    requires Follows(s, steps) && n <= |steps|
    decreases n
  {
    if n == 0 then s else At(Next(s, steps[0]), steps[1..], n - 1)
  }

  lemma {:induction false} AtStep(s: Sys, steps: seq<Step>, n: nat)
    requires Follows(s, steps) && n < |steps|
    ensures Enabled(At(s, steps, n), steps[n]) && At(s, steps, n + 1) == Next(At(s, steps, n), steps[n])
    decreases n
  {
    if n > 0 {
      AtStep(Next(s, steps[0]), steps[1..], n - 1);
    }
  }

  lemma {:induction false} AtEnd(s: Sys, steps: seq<Step>)
    requires Follows(s, steps)
    ensures At(s, steps, |steps|) == After(s, steps)
    decreases |steps|
  {
    if steps != [] {
      AtEnd(Next(s, steps[0]), steps[1..]);
    }
  }

  predicate StaleCached(s: Sys, id: string) {
    id in s.engines && !Matches(s, id)
  }

  /** Step k is a failing disposal that cuts off the disposal of this stale engine. */
  predicate Skips(s: Sys, steps: seq<Step>, k: nat, id: string)
    requires Follows(s, steps)
  {
    && k < |steps| && steps[k].Dispose? && !steps[k].succeeds && steps[k].id != id
    && Awaiting(At(s, steps, k), id) && StaleCached(At(s, steps, k), id)
  }

  /** A reload that loads and gives the connection this profile. */
  predicate Restores(step: Step, id: string, profile: Profile) {
    && step.Reload? && AllLoad(step.src)
    && id in step.src.connections.value && step.src.connections.value[id] == profile
  }

  /** Step j disposes of the engine after all, or is a reload that gives the
      connection the profile the engine was built from. */
  predicate Repairs(s: Sys, steps: seq<Step>, j: nat, id: string)
    requires Follows(s, steps)
  {
    && j < |steps|
    && (|| (steps[j].Dispose? && steps[j].id == id)
        || (id in At(s, steps, j).engines && Restores(steps[j], id, At(s, steps, j).engines[id].profile)))
  }

  ghost predicate RepairedBetween(s: Sys, steps: seq<Step>, k: nat, n: nat, id: string)
    requires Follows(s, steps)
  {
    exists j: nat :: k < j < n && Repairs(s, steps, j, id)
  }

  // A stale engine nobody is about to dispose of can only come from a cut-off
  // disposal that nothing has repaired since.
  lemma {:induction false} StaleWasSkipped(s: Sys, steps: seq<Step>, n: nat, id: string) returns (k: nat)
    requires Coherent(s) && s.abandoned == {} && Follows(s, steps) && n <= |steps|
    requires StaleCached(At(s, steps, n), id) && !Awaiting(At(s, steps, n), id)
    ensures k < n && Skips(s, steps, k, id) && !RepairedBetween(s, steps, k, n, id)
    decreases n
  {
    assert n > 0;
    AtStep(s, steps, n - 1);
    var was := At(s, steps, n - 1);
    assert StaleCached(was, id);
    if Awaiting(was, id) {
      k := n - 1;
    } else {
      k := StaleWasSkipped(s, steps, n - 1, id);
      assert !Repairs(s, steps, n - 1, id);
    }
  }

  // And it stays cached and stale until something does.
  lemma {:induction false} SkippedStaysStale(s: Sys, steps: seq<Step>, k: nat, n: nat, id: string)
    requires Follows(s, steps) && Skips(s, steps, k, id) && k < n <= |steps| && !RepairedBetween(s, steps, k, n, id)
    ensures StaleCached(At(s, steps, n), id)
    decreases n
  {
    AtStep(s, steps, n - 1);
    if k < n - 1 {
      SkippedStaysStale(s, steps, k, n - 1, id);
      assert !Repairs(s, steps, n - 1, id);
    }
  }

  ghost predicate AllSkipsRepaired(s: Sys, steps: seq<Step>)
    requires Follows(s, steps)
  {
    forall k: nat, id :: Skips(s, steps, k, id) ==> RepairedBetween(s, steps, k, |steps|, id)
  }

  // Exactly when a run settles, failing disposals included: with no reload in
  // progress at its end, every cached engine matches its profile if and only if
  // every stale engine a failing disposal cut off was repaired later.
  lemma ReloadSettlesIff(s: Sys, steps: seq<Step>)
    requires Coherent(s) && s.abandoned == {} && Follows(s, steps) && After(s, steps).phase.Idle?
    ensures (forall id :: !StaleCached(After(s, steps), id)) <==> AllSkipsRepaired(s, steps)
  {
    var t := After(s, steps);
    AtEnd(s, steps);
    if id :| StaleCached(t, id) {
      var k := StaleWasSkipped(s, steps, |steps|, id);
    }
    if !AllSkipsRepaired(s, steps) {
      var k: nat, id :| Skips(s, steps, k, id) && !RepairedBetween(s, steps, k, |steps|, id);
      SkippedStaysStale(s, steps, k, |steps|, id);
      assert StaleCached(t, id);
    }
  }

  // ------------------------------------------- the timeout is not compared

  /** The engine is what would be built now. */
  predicate Current(s: Sys, id: string) {
    id in s.engines && id in s.stores.registry && s.engines[id] == Built(s.stores, id)
  }

  ghost predicate AllCurrent(s: Sys) {
    forall id :: id in s.engines ==> Current(s, id)
  }

  ghost predicate NoReload(steps: seq<Step>) {
    forall i :: 0 <= i < |steps| ==> !steps[i].Reload?
  }

  /** Cached before the reload and not disposed of by it. */
  predicate KeptOver(s: Sys, stores: Stores, id: string) {
    id in s.engines && id !in Stale(s.stores.registry, stores.registry)
  }

  /** While a reload from s to these stores is being finished. */
  ghost predicate Finishing(s: Sys, stores: Stores, v: Sys) {
    && v.stores == stores
    && (v.phase.Disposing? ==> v.phase.pending <= Stale(s.stores.registry, stores.registry))
    && (forall id :: KeptOver(s, stores, id) ==> id in v.engines && v.engines[id] == s.engines[id])
    && (forall id :: id in v.engines && !KeptOver(s, stores, id) ==> Awaiting(v, id) || Current(v, id))
  }

  lemma {:induction false} FinishingKeeps(s: Sys, stores: Stores, v: Sys, rest: seq<Step>)
    requires Finishing(s, stores, v) && Follows(v, rest) && NoReload(rest) && NoFailedDisposal(rest)
    ensures Finishing(s, stores, After(v, rest))
    decreases |rest|
  {
    if rest != [] {
      FinishingStep(s, stores, v, rest[0]);
      FinishingKeeps(s, stores, Next(v, rest[0]), rest[1..]);
    }
  }

  lemma FinishingStep(s: Sys, stores: Stores, v: Sys, step: Step)
    requires Finishing(s, stores, v) && Enabled(v, step) && !step.Reload? && (step.Dispose? ==> step.succeeds)
    ensures Finishing(s, stores, Next(v, step))
  {
    var w := Next(v, step);
    forall id | id in w.engines && !KeptOver(s, stores, id)
      ensures Awaiting(w, id) || Current(w, id)
    {
      assert id in v.engines ==> Awaiting(v, id) || Current(v, id);
    }
  }

  /** Every cached engine whose timeout changes is disposed of for another reason. */
  ghost predicate TimeoutsCarried(s: Sys, after: Stores) {
    forall id :: KeptOver(s, after, id) ==> TimeoutOf(s.stores.policy, id) == TimeoutOf(after.policy, id)
  }

  // A completed reload leaves every engine as it would be built now exactly when
  // no connection that keeps its engine changes its timeout.
  lemma TimeoutReloadIff(s: Sys, src: Sources, rest: seq<Step>)
    requires s.phase.Idle? && AllCurrent(s) && AllLoad(src)
    requires Follows(Next(s, Reload(src)), rest) && NoReload(rest) && NoFailedDisposal(rest)
    requires After(Next(s, Reload(src)), rest).phase.Idle?
    ensures AllCurrent(After(Next(s, Reload(src)), rest)) <==> TimeoutsCarried(s, Swapped(s.stores, src))
  {
    var u, after := Next(s, Reload(src)), Swapped(s.stores, src);
    FinishingKeeps(s, after, u, rest);
    var t := After(u, rest);
    forall id | id in t.engines
      ensures Current(t, id) <==> !KeptOver(s, after, id) || TimeoutOf(s.stores.policy, id) == TimeoutOf(after.policy, id)
    {
      assert id in s.engines ==> Current(s, id);
    }
    if AllCurrent(t) {
      forall id | KeptOver(s, after, id)
        ensures TimeoutOf(s.stores.policy, id) == TimeoutOf(after.policy, id)
      {
        assert Current(t, id);
      }
    }
  }

  // How it fails: a reload that changes nothing but a timeout keeps the engine
  // that was built with the old one.
  lemma TimeoutLeftBehind(s: Sys, id: string, policy: Policies)
    requires s.phase.Idle? && AllCurrent(s) && id in s.engines
    requires TimeoutOf(policy, id) != TimeoutOf(s.stores.policy, id)
    ensures var steps := [Reload(JustConnections(s.stores.registry, policy)), Finish];
            Follows(s, steps) && After(s, steps).phase.Idle? && Matches(After(s, steps), id) && !Current(After(s, steps), id)
  {
    var src := JustConnections(s.stores.registry, policy);
    var steps := [Reload(src), Finish];
    var u := Next(s, Reload(src));
    assert Current(s, id);
    assert Stale(s.stores.registry, u.stores.registry) == {};
    assert steps[1..] == [Finish] && steps[1..][1..] == [];
    assert Follows(Next(u, Finish), []);
    assert Follows(u, steps[1..]);
    assert After(u, steps[1..]) == Next(u, Finish);
  }

  // ----------------------------------------------------- imperative form

  class Process {
    var stores: Stores
    var engines: map<string, Engine>
    var makers: map<string, Engine>

    constructor (initial: Stores)
      ensures stores == initial && engines == map[] && makers == map[]
    {
      stores, engines, makers := initial, map[], map[];
    }

    /** Everything is loaded before the first store is replaced. */
    method LoadAndSwap(src: Sources) returns (swapped: bool)
      modifies this`stores
      ensures swapped <==> AllLoad(src)
      ensures stores == if swapped then Swapped(old(stores), src) else old(stores)
      ensures stores == Next(Sys(old(stores), engines, makers, Idle, {}), Reload(src)).stores
      ensures swapped <==>
                && src.connections.Loaded? && src.policy.Loaded?
                && (src.catalog.Some? ==> src.catalog.value.Loaded?) && (src.templates.Some? ==> src.templates.value.Loaded?)
                && (src.identity.Some? ==> src.identity.value.Loaded?) && (src.localUsers.Some? ==> src.localUsers.value.Loaded?)
      ensures !swapped ==> stores == old(stores)
      ensures swapped ==>
                && stores.registry == src.connections.value && stores.policy == src.policy.value
                && (src.catalog.Some? ==> src.catalog.value == Loaded(stores.catalog))
                && (src.catalog.None? ==> stores.catalog == "")
                && (src.templates.Some? ==> src.templates.value == Loaded(stores.templates))
                && (src.templates.None? ==> stores.templates == "")
                && (src.identity.Some? ==> src.identity.value == Loaded(stores.identity) && stores.discovery == {})
                && (src.identity.None? ==> stores.identity == old(stores).identity && stores.discovery == old(stores).discovery)
                && (src.localUsers.Some? ==> src.localUsers.value == Loaded(stores.localUsers))
                && (src.localUsers.None? ==> stores.localUsers == old(stores).localUsers)
    {
      if src.connections.LoadFailed? || src.policy.LoadFailed? {
        return false;
      }
      var catalog, templates := EMPTY_DOC, EMPTY_DOC;
      if src.catalog.Some? {
        if src.catalog.value.LoadFailed? {
          return false;
        }
        catalog := src.catalog.value.value;
      }
      if src.templates.Some? {
        if src.templates.value.LoadFailed? {
          return false;
        }
        templates := src.templates.value.value;
      }
      if src.identity.Some? && src.identity.value.LoadFailed? {
        return false;
      }
      if src.localUsers.Some? && src.localUsers.value.LoadFailed? {
        return false;
      }
      stores := stores.(registry := src.connections.value);
      stores := stores.(policy := src.policy.value);
      stores := stores.(catalog := catalog);
      stores := stores.(templates := templates);
      if src.identity.Some? {
        stores := stores.(identity := src.identity.value.value);
        stores := stores.(discovery := {});
      }
      if src.localUsers.Some? {
        stores := stores.(localUsers := src.localUsers.value.value);
      }
      swapped := true;
    }

    method GetEngine(id: string) returns (engine: Option<Engine>)
      modifies this`engines
      ensures engines == WithEngine(Sys(stores, old(engines), makers, Idle, {}), id).engines
      ensures engine == if id in engines then Some(engines[id]) else None
      ensures id in old(engines) ==> engines == old(engines)
      ensures id !in old(engines) ==>
                if id in stores.registry && stores.registry[id].connectionString != ""
                   && stores.registry[id].dialect != "snowflake" && stores.registry[id].dialect != "bigquery"
                then engines == old(engines)[id := Engine(stores.registry[id],
                       if id in stores.policy.timeouts then stores.policy.timeouts[id] else stores.policy.standard)]
                else engines == old(engines)
    {
      if id !in engines && id in stores.registry && Buildable(stores.registry[id]) {
        engines := engines[id := Engine(stores.registry[id], TimeoutOf(stores.policy, id))];
      }
      engine := if id in engines then Some(engines[id]) else None;
    }

    /** `dispose_engine`: one step of the state machine. Everything cached for the
        connection is popped before the disposal is awaited. */
    method DisposeEngine(id: string, fails: bool, ghost pending: set<string>) returns (raised: bool)
      requires id in pending
      modifies this`engines, this`makers
      ensures raised <==> id in old(engines) && fails
      ensures var was := Sys(stores, old(engines), old(makers), Disposing(pending), {});
              var now := Next(was, Dispose(id, !raised));
              engines == now.engines && makers == now.makers && (now.phase.Idle? <==> raised)
    {
      raised := id in engines && fails;
      engines := engines - {id};
      makers := makers - {id};
    }

    /** The diff and the disposal loop, with nothing interleaved; `fails` says
        whose disposal raises. Engines are popped in any order, and the first one
        that raises ends the loop. */
    method DisposeStale(before: Registry, fails: string -> bool) returns (popped: set<string>, raised: bool)
      modifies this`engines, this`makers
      ensures popped <= Stale(before, stores.registry)
      ensures engines == old(engines) - popped && makers == old(makers) - popped
      ensures raised <==> exists id :: id in popped && id in old(engines) && fails(id)
      ensures !raised ==> popped == Stale(before, stores.registry)
    {
      var stale := StaleIds(before, stores.registry);
      popped, raised := {}, false;
      while popped != stale
        invariant popped <= stale
        invariant engines == old(engines) - popped && makers == old(makers) - popped
        invariant !raised && forall id :: id in popped && id in old(engines) ==> !fails(id)
        decreases stale - popped
      {
        var id :| id in stale && id !in popped;
        raised := DisposeEngine(id, fails(id), stale - popped);
        popped := popped + {id};
        if raised {
          return;
        }
      }
    }
  }

  method StaleIds(before: Registry, after: Registry) returns (stale: set<string>)
    ensures stale == Stale(before, after)
    ensures forall id :: id in stale <==>
              && id in before
              && (id in after ==> before[id].connectionString != after[id].connectionString || before[id].dialect != after[id].dialect)
  {
    stale := before.Keys - after.Keys;
    var common := before.Keys * after.Keys;
    ghost var seen := {};
    while common != {}
      invariant common + seen == before.Keys * after.Keys && common !! seen
      invariant stale == (before.Keys - after.Keys) + set id | id in seen && id in before && id in after && before[id] != after[id]
      decreases common
    {
      var id :| id in common;
      var p, q := before[id], after[id];
      if p.connectionString != q.connectionString || p.dialect != q.dialect {
        stale := stale + {id};
      }
      common, seen := common - {id}, seen + {id};
    }
    assert stale == Stale(before, after);
  }
}
