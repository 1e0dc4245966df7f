/** The runtime registry of the container runner, as a step machine: a step is the code
    between two awaits, and the driver's terminal and stop events arrive at any time. */
module ContainerRegistry {
  /** A registered runtime; runtimes are numbered in the order of registration. */
  datatype Runtime = Runtime(
    session: string,
    callbacks: seq<nat>,  // exit callbacks, by number
    finished: bool,
    resolved: bool)       // its finished promise is resolved

  datatype Stage =
    | Preparing                 // up to `driver.prepare`
    | Arming(runtime: nat)      // registered; `start` and the bookkeeping after it
    | Awaiting(runtime: nat)    // in the catch, awaiting the finished promise
    | Settled                   // the promise chain's `finally` is still to run

  /** One call of `spawnContainer`. */
  datatype Spawn = Spawn(session: string, stage: Stage)

  datatype Registry = Registry(
    adopting: seq<string>,         // snapshots adoption has still to go through
    live: bool,                    // adoption is over, wakes may come in
    active: map<string, nat>,      // activeContainers
    runtimes: seq<Runtime>,
    wakes: map<string, nat>,       // wakePromises: session to spawn
    spawns: map<nat, Spawn>,
    nextSpawn: nat,
    finishing: set<nat>,           // runtimes whose `finish` awaits its bookkeeping
    stops: set<nat>,               // runtimes with a pending stop
    nextCallback: nat,
    // histories
    overwritten: bool,             // a registration replaced an entry
    finalised: map<nat, nat>,      // how often a runtime was finalised
    ran: map<nat, nat>,            // how often a callback ran
    ranEarly: bool)                // a callback ran while its entry was there

  datatype Step =
    | AdoptNext
    | AdoptSkip
    | AdoptDone
    | Wake(session: string)
    | SpawnEnds(id: nat)       // no agent group, or anything before registration throws
    | Register(id: nat)
    | StartOk(id: nat)
    | StartFails(id: nat)
    | WaitOver(id: nat)
    | Settle(id: nat)
    | Terminal(session: string)
    | FinishEnds(runtime: nat)
    | Kill(session: string, callback: bool)
    | StopSettles(runtime: nat)

  function Count(m: map<nat, nat>, k: nat): nat {
    if k in m then m[k] else 0
  }

  predicate SpawnAt(r: Registry, id: nat, stage: Stage) {
    id in r.spawns && r.spawns[id].stage == stage
  }

  /** `registerRuntime` */
  function Registered(r: Registry, session: string): Registry {
    r.(active := r.active[session := |r.runtimes|],
       runtimes := r.runtimes + [Runtime(session, [], false, false)],
       overwritten := r.overwritten || session in r.active)
  }

  function Moved(r: Registry, id: nat, stage: Stage): Registry
    requires id in r.spawns
  {
    r.(spawns := r.spawns[id := r.spawns[id].(stage := stage)])
  }

  /** The synchronous part of `finishAndResolve`: only the first event goes on. */
  function Finalise(r: Registry, session: string): Registry {
    if session in r.active && r.active[session] < |r.runtimes| && !r.runtimes[r.active[session]].finished then
      var n := r.active[session];
      r.(runtimes := r.runtimes[n := r.runtimes[n].(finished := true)],
         finishing := r.finishing + {n},
         finalised := r.finalised[n := Count(r.finalised, n) + 1])
    else r
  }

  function RunAll(ran: map<nat, nat>, callbacks: seq<nat>): map<nat, nat>
    decreases |callbacks|
  {
    if callbacks == [] then ran else RunAll(ran[callbacks[0] := Count(ran, callbacks[0]) + 1], callbacks[1..])
  }

  /** The entry goes, if it is still this runtime's. */
  function Left(r: Registry, n: nat): Registry
    requires n < |r.runtimes|
  {
    var session := r.runtimes[n].session;
    r.(active := if session in r.active && r.active[session] == n then r.active - {session} else r.active)
  }

  function Called(r: Registry, n: nat): Registry
    requires n < |r.runtimes|
  {
    r.(ran := RunAll(r.ran, r.runtimes[n].callbacks), ranEarly := r.ranEarly || n in r.active.Values)
  }

  function Ended(r: Registry, n: nat): Registry
    requires n < |r.runtimes|
  {
    r.(finishing := r.finishing - {n}, runtimes := r.runtimes[n := r.runtimes[n].(resolved := true)])
  }

  /** The rest of `finish`: drop the entry, run the callbacks, resolve the promise. */
  function Finish(r: Registry, n: nat): Registry
    requires n < |r.runtimes|
  {
    Ended(Called(Left(r, n), n), n)
  }

  /** The catch in `spawnContainer`. */
  function StartFailed(r: Registry, id: nat, n: nat): Registry
    requires id in r.spawns && n < |r.runtimes|
  {
    var session := r.spawns[id].session;
    if session in r.active && r.active[session] == n && !r.runtimes[n].finished then
      Moved(r.(active := r.active - {session}, runtimes := r.runtimes[n := r.runtimes[n].(resolved := true)]), id,
          Settled)
    else Moved(r, id, Awaiting(n))
  }

  /** One step; a step that is not possible changes nothing. */
  function Take(r: Registry, step: Step): Registry {
    match step
    case AdoptNext =>
      if r.live || r.adopting == [] then r
      else Registered(r, r.adopting[0]).(adopting := r.adopting[1..])
    case AdoptSkip => if r.live || r.adopting == [] then r else r.(adopting := r.adopting[1..])
    case AdoptDone => if r.adopting == [] then r.(live := true) else r
    case Wake(session) =>
      if !r.live || session in r.active || session in r.wakes then r
      else r.(wakes := r.wakes[session := r.nextSpawn], spawns := r.spawns[r.nextSpawn := Spawn(session, Preparing)],
              nextSpawn := r.nextSpawn + 1)
    case SpawnEnds(id) => if SpawnAt(r, id, Preparing) then Moved(r, id, Settled) else r
    case Register(id) =>
      if SpawnAt(r, id, Preparing) then Moved(Registered(r, r.spawns[id].session), id, Arming(|r.runtimes|)) else r
    case StartOk(id) => if id in r.spawns && r.spawns[id].stage.Arming? then Moved(r, id, Settled) else r
    case StartFails(id) =>
      if id in r.spawns && r.spawns[id].stage.Arming? && r.spawns[id].stage.runtime < |r.runtimes|
      then StartFailed(r, id, r.spawns[id].stage.runtime) else r
    case WaitOver(id) =>
      if id in r.spawns && r.spawns[id].stage.Awaiting? && r.spawns[id].stage.runtime < |r.runtimes|
         && r.runtimes[r.spawns[id].stage.runtime].resolved
      then Moved(r, id, Settled) else r
    case Settle(id) =>
      if SpawnAt(r, id, Settled) then r.(wakes := r.wakes - {r.spawns[id].session}, spawns := r.spawns - {id}) else r
    case Terminal(session) => Finalise(r, session)
    case FinishEnds(n) => if n in r.finishing && n < |r.runtimes| then Finish(r, n) else r
    case Kill(session, callback) =>
      if session in r.active && r.active[session] < |r.runtimes| then
        var n := r.active[session];
        var runtime := r.runtimes[n];
        r.(runtimes := r.runtimes[n :=
             if callback then runtime.(callbacks := runtime.callbacks + [r.nextCallback]) else runtime],
           nextCallback := r.nextCallback + 1, stops := r.stops + {n})
      else r
    case StopSettles(n) =>
      if n in r.stops && n < |r.runtimes| then
        var r1 := r.(stops := r.stops - {n});
        if !r.runtimes[n].finished then Finalise(r1, r.runtimes[n].session) else r1
      else r
  }

  function Run(r: Registry, steps: seq<Step>): Registry
    decreases |steps|
  {
    if steps == [] then r else Run(Take(r, steps[0]), steps[1..])
  }

  /** A host at startup, with the sessions a previous host left running. */
  function Start(snapshots: seq<string>): Registry {
    Registry(snapshots, false, map[], [], map[], map[], 0, {}, {}, 0, false, map[], map[], false)
  }

  predicate Distinct(s: seq<string>) {
    forall i, j | 0 <= i < j < |s| :: s[i] != s[j]
  }

  // ----- the invariant --------------------------------------------------------

  /** Spawns and wake promises correspond; a session about to register has no entry. */
  predicate SpawnsOk(wakes: map<string, nat>, spawns: map<nat, Spawn>, nextSpawn: nat, active: map<string, nat>,
      live: bool)
  {
    && (forall s | s in wakes :: wakes[s] in spawns && spawns[wakes[s]].session == s)
    && (forall id | id in spawns :: spawns[id].session in wakes && wakes[spawns[id].session] == id && id < nextSpawn)
    && (forall id | id in spawns && spawns[id].stage == Preparing :: spawns[id].session !in active)
    && (spawns != map[] ==> live)
  }

  predicate AdoptionOk(adopting: seq<string>, live: bool, active: map<string, nat>) {
    Distinct(adopting) && (live ==> adopting == []) && (forall s | s in adopting :: s !in active)
  }

  predicate EntriesOk(active: map<string, nat>, runtimes: seq<Runtime>) {
    forall s | s in active ::
        active[s] < |runtimes| && runtimes[active[s]].session == s && !runtimes[active[s]].resolved
  }

  /** A runtime not yet resolved is either active or being finished. */
  ghost predicate RuntimesOk(active: map<string, nat>, runtimes: seq<Runtime>, finishing: set<nat>,
      finalised: map<nat, nat>)
  {
    && (forall n | n in finishing :: n < |runtimes|)
    && (forall n | 0 <= n < |runtimes| :: n in finishing <==> runtimes[n].finished && !runtimes[n].resolved)
    && (forall n | 0 <= n < |runtimes| && !runtimes[n].finished && !runtimes[n].resolved ::
          runtimes[n].session in active && active[runtimes[n].session] == n)
    && (forall n: nat :: Count(finalised, n) == if n < |runtimes| && runtimes[n].finished then 1 else 0)
  }

  /** A spawn that failed to start waits for a promise that is or will be resolved. */
  predicate WaitOk(spawn: Spawn, runtimes: seq<Runtime>) {
    match spawn.stage
    case Arming(n) => n < |runtimes| && runtimes[n].session == spawn.session &&
        (runtimes[n].resolved ==> runtimes[n].finished)
    case Awaiting(n) => n < |runtimes| && runtimes[n].finished
    case _ => true
  }

  predicate WaitsOk(spawns: map<nat, Spawn>, runtimes: seq<Runtime>) {
    && (forall id | id in spawns :: WaitOk(spawns[id], runtimes))
    && (forall a, b | a in spawns && b in spawns && a != b :: spawns[a].session != spawns[b].session)
  }

  predicate CallbackOf(runtimes: seq<Runtime>, c: nat, n: nat, i: nat) {
    n < |runtimes| && i < |runtimes[n].callbacks| && runtimes[n].callbacks[i] == c
  }

  /** Finalised to the end. */
  predicate Over(runtime: Runtime) {
    runtime.finished && runtime.resolved
  }

  /** Each callback is one runtime's; it has run once if that runtime is over, else never. */
  ghost predicate CallbacksOk(runtimes: seq<Runtime>, nextCallback: nat, ran: map<nat, nat>) {
    && (forall c: nat, n: nat, i: nat | CallbackOf(runtimes, c, n, i) :: c < nextCallback)
    && (forall c: nat, n: nat, i: nat, m: nat, j: nat |
          CallbackOf(runtimes, c, n, i) && CallbackOf(runtimes, c, m, j) :: n == m && i == j)
    && (forall c: nat | c >= nextCallback :: Count(ran, c) == 0)
    && (forall c: nat :: Count(ran, c) <= 1)
    && (forall c: nat, n: nat, i: nat | CallbackOf(runtimes, c, n, i) && Over(runtimes[n]) :: Count(ran, c) == 1)
    && (forall c: nat, n: nat, i: nat | CallbackOf(runtimes, c, n, i) && Count(ran, c) == 1 :: Over(runtimes[n]))
  }

  ghost predicate Inv(r: Registry) {
    && SpawnsOk(r.wakes, r.spawns, r.nextSpawn, r.active, r.live)
    && AdoptionOk(r.adopting, r.live, r.active)
    && EntriesOk(r.active, r.runtimes)
    && RuntimesOk(r.active, r.runtimes, r.finishing, r.finalised)
    && WaitsOk(r.spawns, r.runtimes)
    && CallbacksOk(r.runtimes, r.nextCallback, r.ran)
    && !r.overwritten && !r.ranEarly
  }

  // ----- preservation, one operation at a time --------------------------------

  lemma RegisteredKeeps(r: Registry, session: string)
    requires session !in r.active && EntriesOk(r.active, r.runtimes)
    requires RuntimesOk(r.active, r.runtimes, r.finishing, r.finalised) && WaitsOk(r.spawns, r.runtimes)
    requires CallbacksOk(r.runtimes, r.nextCallback, r.ran)
    ensures var r' := Registered(r, session);
      && EntriesOk(r'.active, r'.runtimes) && RuntimesOk(r'.active, r'.runtimes, r'.finishing, r'.finalised)
      && WaitsOk(r'.spawns, r'.runtimes) && CallbacksOk(r'.runtimes, r'.nextCallback, r'.ran)
      && r'.overwritten == r.overwritten
  {
    var r' := Registered(r, session);
    SameCallbacks(r.runtimes, r'.runtimes, r.nextCallback, r.ran);
    hide CallbacksOk, CallbackOf;
    forall id | id in r.spawns ensures WaitOk(r.spawns[id], r'.runtimes) { assert WaitOk(r.spawns[id], r.runtimes); }
  }

  /** Callbacks do not mind runtimes being added or moving forward. */
  lemma SameCallbacks(runtimes: seq<Runtime>, later: seq<Runtime>, nextCallback: nat, ran: map<nat, nat>)
    requires CallbacksOk(runtimes, nextCallback, ran) && |runtimes| <= |later|
    requires forall n | 0 <= n < |runtimes| ::
            later[n].callbacks == runtimes[n].callbacks && Over(later[n]) == Over(runtimes[n])
    requires forall n | |runtimes| <= n < |later| :: later[n].callbacks == []
    ensures CallbacksOk(later, nextCallback, ran)
  {
    forall c: nat, n: nat, i: nat | CallbackOf(later, c, n, i) ensures CallbackOf(runtimes, c, n, i) {}
  }

  lemma FinaliseKeeps(r: Registry, session: string)
    requires Inv(r)
    ensures Inv(Finalise(r, session))
  {
    hide CallbacksOk, SpawnsOk, AdoptionOk;
    if session in r.active && !r.runtimes[r.active[session]].finished {
      MarkedKeeps(r, r.active[session]);
    }
  }

  lemma MarkedKeeps(r: Registry, n: nat)
    requires Inv(r) && n < |r.runtimes| && !r.runtimes[n].finished && !r.runtimes[n].resolved
    ensures Inv(r.(runtimes := r.runtimes[n := r.runtimes[n].(finished := true)], finishing := r.finishing + {n},
                   finalised := r.finalised[n := Count(r.finalised, n) + 1]))
  {
    var runtimes := r.runtimes[n := r.runtimes[n].(finished := true)];
    SameCallbacks(r.runtimes, runtimes, r.nextCallback, r.ran);
    MarkedKeepsWaits(r, n);
    MarkedKeepsRuntimes(r, n);
    hide CallbacksOk, SpawnsOk, AdoptionOk, WaitsOk, RuntimesOk;
  }

  lemma MarkedKeepsRuntimes(r: Registry, n: nat)
    requires RuntimesOk(r.active, r.runtimes, r.finishing, r.finalised) && n < |r.runtimes| &&
            !r.runtimes[n].finished && !r.runtimes[n].resolved
    ensures RuntimesOk(r.active, r.runtimes[n := r.runtimes[n].(finished := true)], r.finishing + {n},
            r.finalised[n := Count(r.finalised, n) + 1])
  {
    var runtimes := r.runtimes[n := r.runtimes[n].(finished := true)];
    forall m | 0 <= m < |runtimes| && !runtimes[m].finished && !runtimes[m].resolved
      ensures runtimes[m].session in r.active && r.active[runtimes[m].session] == m {
      assert runtimes[m] == r.runtimes[m];
    }
    var finalised := r.finalised[n := Count(r.finalised, n) + 1];
    forall m: nat ensures Count(finalised, m) == if m < |runtimes| && runtimes[m].finished then 1 else 0 {
      assert Count(r.finalised, m) == if m < |r.runtimes| && r.runtimes[m].finished then 1 else 0;
    }
  }

  lemma MarkedKeepsWaits(r: Registry, n: nat)
    requires WaitsOk(r.spawns, r.runtimes) && n < |r.runtimes|
    ensures WaitsOk(r.spawns, r.runtimes[n := r.runtimes[n].(finished := true)])
  {
    forall id | id in r.spawns ensures WaitOk(r.spawns[id], r.runtimes[n := r.runtimes[n].(finished := true)]) {
      assert WaitOk(r.spawns[id], r.runtimes);
    }
  }

  lemma FewerEntries(r: Registry, active: map<string, nat>)
    requires Inv(r) && forall s | s in active :: s in r.active
    ensures SpawnsOk(r.wakes, r.spawns, r.nextSpawn, active, r.live) && AdoptionOk(r.adopting, r.live, active)
  {
    hide CallbacksOk, CallbackOf, RuntimesOk, EntriesOk, WaitsOk;
  }

  lemma StartFailedKeeps(r: Registry, id: nat)
    requires Inv(r) && id in r.spawns && r.spawns[id].stage.Arming?
    ensures r.spawns[id].stage.runtime < |r.runtimes| && Inv(StartFailed(r, id, r.spawns[id].stage.runtime))
  {
    var n := r.spawns[id].stage.runtime;
    assert n < |r.runtimes| by {
      hide CallbacksOk, RuntimesOk, EntriesOk, SpawnsOk, AdoptionOk;
      assert WaitOk(r.spawns[id], r.runtimes);
    }
    if r.runtimes[n].finished {
      SpawnAwaits(r, id, n);
    } else {
      DropKeeps(r, id, n);
    }
    hide Inv;
  }

  lemma MoveKeepsSpawns(wakes: map<string, nat>, spawns: map<nat, Spawn>, nextSpawn: nat, active: map<string, nat>,
      live: bool, id: nat, stage: Stage)
    requires SpawnsOk(wakes, spawns, nextSpawn, active, live) && id in spawns && stage != Preparing
    ensures SpawnsOk(wakes, spawns[id := spawns[id].(stage := stage)], nextSpawn, active, live)
  {
  }

  lemma MoveKeepsWaits(spawns: map<nat, Spawn>, runtimes: seq<Runtime>, id: nat, stage: Stage)
    requires WaitsOk(spawns, runtimes) && id in spawns && WaitOk(spawns[id].(stage := stage), runtimes)
    ensures WaitsOk(spawns[id := spawns[id].(stage := stage)], runtimes)
  {
    hide WaitOk;
  }

  lemma SpawnAwaits(r: Registry, id: nat, n: nat)
    requires Inv(r) && id in r.spawns && r.spawns[id].stage == Arming(n) && n < |r.runtimes| && r.runtimes[n].finished
    ensures Inv(Moved(r, id, Awaiting(n)))
  {
    hide CallbacksOk, AdoptionOk, RuntimesOk, EntriesOk, SpawnsOk, WaitsOk;
    MoveKeepsSpawns(r.wakes, r.spawns, r.nextSpawn, r.active, r.live, id, Awaiting(n));
    MoveKeepsWaits(r.spawns, r.runtimes, id, Awaiting(n));
  }

  function Dropped(r: Registry, id: nat, n: nat): Registry
    requires id in r.spawns && n < |r.runtimes|
  {
    r.(active := r.active - {r.spawns[id].session}, runtimes := r.runtimes[n := r.runtimes[n].(resolved := true)],
       spawns := r.spawns[id := r.spawns[id].(stage := Settled)])
  }

  lemma DropKeeps(r: Registry, id: nat, n: nat)
    requires Inv(r) && id in r.spawns && r.spawns[id].stage == Arming(n) && n < |r.runtimes| && !r.runtimes[n].finished
    ensures Inv(Dropped(r, id, n)) && r.spawns[id].session in r.active && r.active[r.spawns[id].session] == n
  {
    hide CallbacksOk, AdoptionOk, SpawnsOk, WaitsOk, EntriesOk, RuntimesOk;
    var r' := Dropped(r, id, n);
    DropKeepsSpawns(r, id, n);
    DropKeepsWaits(r, id, n);
    DropKeepsEntries(r, id, n);
    FewerEntries(r, r'.active);
    SameCallbacks(r.runtimes, r'.runtimes, r.nextCallback, r.ran);
  }

  lemma DropKeepsEntries(r: Registry, id: nat, n: nat)
    requires Inv(r) && id in r.spawns && r.spawns[id].stage == Arming(n) && n < |r.runtimes| && !r.runtimes[n].finished
    ensures var r' := Dropped(r, id, n);
      EntriesOk(r'.active, r'.runtimes) && RuntimesOk(r'.active, r'.runtimes, r'.finishing, r'.finalised)
    ensures r.spawns[id].session in r.active && r.active[r.spawns[id].session] == n
  {
    hide CallbacksOk, AdoptionOk, SpawnsOk;
    assert WaitOk(r.spawns[id], r.runtimes);
    assert r.spawns[id].session == r.runtimes[n].session;
    hide WaitsOk, WaitOk;
  }

  lemma DropKeepsSpawns(r: Registry, id: nat, n: nat)
    requires Inv(r) && id in r.spawns && n < |r.runtimes|
    ensures var r' := Dropped(r, id, n); SpawnsOk(r'.wakes, r'.spawns, r'.nextSpawn, r'.active, r'.live)
  {
    hide CallbacksOk, CallbackOf, AdoptionOk, RuntimesOk, EntriesOk, WaitsOk;
  }

  lemma DropKeepsWaits(r: Registry, id: nat, n: nat)
    requires Inv(r) && id in r.spawns && r.spawns[id].stage == Arming(n) && n < |r.runtimes|
    ensures var r' := Dropped(r, id, n); WaitsOk(r'.spawns, r'.runtimes)
  {
    hide CallbacksOk, CallbackOf, AdoptionOk, RuntimesOk, EntriesOk, SpawnsOk, Inv;
    var r' := Dropped(r, id, n);
    assert WaitsOk(r.spawns, r.runtimes) by { InvWaits(r); }
    forall i | i in r'.spawns ensures WaitOk(r'.spawns[i], r'.runtimes) {
      if i != id { assert WaitOk(r.spawns[i], r.runtimes); StrangersWait(r, id, i, n); }
    }
  }

  lemma InvWaits(r: Registry)
    requires Inv(r)
    ensures WaitsOk(r.spawns, r.runtimes)
  {
  }

  /** A spawn of another session waits for another runtime. */
  lemma StrangersWait(r: Registry, id: nat, other: nat, n: nat)
    requires Inv(r) && id in r.spawns && other in r.spawns && id != other && r.spawns[id].stage == Arming(n)
    ensures r.spawns[other].stage != Arming(n)
  {
    hide CallbacksOk, CallbackOf, AdoptionOk, RuntimesOk, EntriesOk, SpawnsOk;
    assert WaitOk(r.spawns[id], r.runtimes) && WaitOk(r.spawns[other], r.runtimes);
  }

  lemma SpawnMovesOn(r: Registry, id: nat)
    requires Inv(r) && id in r.spawns
    ensures Inv(Moved(r, id, Settled))
  {
    hide CallbacksOk, AdoptionOk, RuntimesOk, EntriesOk, SpawnsOk, WaitsOk;
    MoveKeepsSpawns(r.wakes, r.spawns, r.nextSpawn, r.active, r.live, id, Settled);
    MoveKeepsWaits(r.spawns, r.runtimes, id, Settled);
  }

  lemma {:induction false} RunAllCounts(ran: map<nat, nat>, callbacks: seq<nat>, c: nat)
    requires forall i, j | 0 <= i < j < |callbacks| :: callbacks[i] != callbacks[j]
    ensures Count(RunAll(ran, callbacks), c) == Count(ran, c) + if c in callbacks then 1 else 0
    decreases |callbacks|
  {
    if callbacks != [] {
      var rest := callbacks[1..];
      assert forall i, j | 0 <= i < j < |rest| :: rest[i] == callbacks[i + 1] && rest[j] == callbacks[j + 1];
      RunAllCounts(ran[callbacks[0] := Count(ran, callbacks[0]) + 1], rest, c);
      assert callbacks[0] !in rest;
    }
  }

  lemma FinishKeeps(r: Registry, n: nat)
    requires Inv(r) && n in r.finishing
    ensures n < |r.runtimes| && Inv(Finish(r, n))
  {
    assert n < |r.runtimes| by { hide CallbacksOk, CallbackOf; }
    var r' := Finish(r, n);
    FinishKeepsCallbacks(r, n);
    FewerEntries(r, r'.active);
    hide CallbacksOk, CallbackOf, AdoptionOk, SpawnsOk, RunAll;
    forall id | id in r.spawns ensures WaitOk(r.spawns[id], r'.runtimes) { assert WaitOk(r.spawns[id], r.runtimes); }
    forall s | s in r'.active ensures r'.active[s] != n { assert s in r.active && r'.active[s] == r.active[s]; }
  }

  lemma FinishKeepsCallbacks(r: Registry, n: nat)
    requires n < |r.runtimes| && r.runtimes[n].finished && !r.runtimes[n].resolved &&
            CallbacksOk(r.runtimes, r.nextCallback, r.ran)
    ensures var r' := Finish(r, n); CallbacksOk(r'.runtimes, r'.nextCallback, r'.ran)
  {
    hide RunAll;
    var r' := Finish(r, n);
    var callbacks := r.runtimes[n].callbacks;
    forall i, j | 0 <= i < j < |callbacks| ensures callbacks[i] != callbacks[j] {
      assert CallbackOf(r.runtimes, callbacks[i], n, i) && CallbackOf(r.runtimes, callbacks[j], n, j);
    }
    forall c: nat
      ensures Count(r'.ran, c) == Count(r.ran, c) + (if c in callbacks then 1 else 0) &&
              (c in callbacks ==> Count(r.ran, c) == 0 && c < r.nextCallback)
    {
      RunAllCounts(r.ran, callbacks, c);
      if c in callbacks {
        var i :| 0 <= i < |callbacks| && callbacks[i] == c;
        assert CallbackOf(r.runtimes, c, n, i);
      }
    }
    forall c: nat, m: nat, i: nat | CallbackOf(r'.runtimes, c, m, i)
      ensures CallbackOf(r.runtimes, c, m, i) && (c in callbacks ==> m == n)
    {
      assert CallbackOf(r.runtimes, c, m, i);
      if c in callbacks {
        var j :| 0 <= j < |callbacks| && callbacks[j] == c;
        assert CallbackOf(r.runtimes, c, n, j);
      }
    }
  }

  lemma KillKeeps(r: Registry, session: string, callback: bool)
    requires Inv(r)
    ensures Inv(Take(r, Kill(session, callback)))
  {
    hide CallbacksOk, AdoptionOk, SpawnsOk, WaitsOk, RuntimesOk, Registered, Finalise, Finish, StartFailed, Moved;
    if session in r.active {
      var n := r.active[session];
      KillKeepsCallbacks(r, n, callback);
      KillKeepsRuntimes(r, n, if callback then r.runtimes[n].callbacks + [r.nextCallback] else r.runtimes[n].callbacks);
      assert r.runtimes[n].(callbacks := r.runtimes[n].callbacks) == r.runtimes[n];
    }
  }

  lemma KillKeepsRuntimes(r: Registry, n: nat, callbacks: seq<nat>)
    requires Inv(r) && n < |r.runtimes|
    ensures var runtimes := r.runtimes[n := r.runtimes[n].(callbacks := callbacks)];
      && EntriesOk(r.active, runtimes) && RuntimesOk(r.active, runtimes, r.finishing, r.finalised)
      && WaitsOk(r.spawns, runtimes)
  {
    hide CallbacksOk, AdoptionOk, SpawnsOk;
    var runtimes := r.runtimes[n := r.runtimes[n].(callbacks := callbacks)];
    forall id | id in r.spawns ensures WaitOk(r.spawns[id], runtimes) { assert WaitOk(r.spawns[id], r.runtimes); }
  }

  lemma KillKeepsCallbacks(r: Registry, n: nat, callback: bool)
    requires n < |r.runtimes| && !r.runtimes[n].resolved && CallbacksOk(r.runtimes, r.nextCallback, r.ran)
    ensures var runtime := r.runtimes[n];
      CallbacksOk(
        r.runtimes[n := if callback then runtime.(callbacks := runtime.callbacks + [r.nextCallback]) else runtime],
        r.nextCallback + 1, r.ran)
  {
    var runtime := r.runtimes[n];
    var later :=
      r.runtimes[n := if callback then runtime.(callbacks := runtime.callbacks + [r.nextCallback]) else runtime];
    forall c: nat, m: nat, i: nat | CallbackOf(later, c, m, i)
      ensures CallbackOf(r.runtimes, c, m, i) ||
              (callback && c == r.nextCallback && m == n && i == |runtime.callbacks|) {}
  }

  lemma WakeKeeps(r: Registry, session: string)
    requires Inv(r)
    ensures Inv(Take(r, Wake(session)))
  {
    hide CallbacksOk, AdoptionOk, RuntimesOk, EntriesOk, SpawnsOk, WaitsOk, Registered, Finalise, Finish, StartFailed,
         Moved;
    if r.live && session !in r.active && session !in r.wakes { NewSpawnIsOk(r, session); }
  }

  lemma NewSpawnIsOk(r: Registry, session: string)
    requires Inv(r) && r.live && session !in r.active && session !in r.wakes
    ensures var spawns := r.spawns[r.nextSpawn := Spawn(session, Preparing)];
      SpawnsOk(r.wakes[session := r.nextSpawn], spawns, r.nextSpawn + 1, r.active, r.live) &&
          WaitsOk(spawns, r.runtimes)
  {
    hide CallbacksOk, AdoptionOk, RuntimesOk, EntriesOk;
    assert r.nextSpawn !in r.spawns;
    hide WaitOk;
  }

  lemma SettleKeeps(r: Registry, id: nat)
    requires Inv(r)
    ensures Inv(Take(r, Settle(id)))
  {
    hide CallbacksOk, AdoptionOk, RuntimesOk, EntriesOk, SpawnsOk, WaitsOk, Registered, Finalise, Finish, StartFailed,
         Moved;
    if SpawnAt(r, id, Settled) { SpawnGone(r, id); }
  }

  lemma SpawnGone(r: Registry, id: nat)
    requires Inv(r) && id in r.spawns
    ensures var spawns := r.spawns - {id};
      SpawnsOk(r.wakes - {r.spawns[id].session}, spawns, r.nextSpawn, r.active, r.live) && WaitsOk(spawns, r.runtimes)
  {
    hide CallbacksOk, AdoptionOk, RuntimesOk, EntriesOk, WaitOk;
  }

  lemma AdoptKeeps(r: Registry, step: Step)
    requires Inv(r) && (step.AdoptNext? || step.AdoptSkip? || step.AdoptDone?)
    ensures Inv(Take(r, step))
  {
    if step.AdoptNext? && !r.live && r.adopting != [] {
      RegisteredKeeps(r, r.adopting[0]);
    }
    hide CallbacksOk, CallbackOf, RuntimesOk, EntriesOk, WaitsOk;
  }

  lemma RegisterKeeps(r: Registry, id: nat)
    requires Inv(r)
    ensures Inv(Take(r, Register(id)))
  {
    hide CallbacksOk, RuntimesOk, EntriesOk, AdoptionOk, WaitsOk;
    if SpawnAt(r, id, Preparing) {
      var session := r.spawns[id].session;
      RegisteredKeeps(r, session);
      RegisterKeepsRest(r, id);
      hide SpawnsOk;
      MoveKeepsWaits(r.spawns, Registered(r, session).runtimes, id, Arming(|r.runtimes|));
    }
  }

  lemma RegisterKeepsRest(r: Registry, id: nat)
    requires Inv(r) && SpawnAt(r, id, Preparing)
    ensures var r' := Take(r, Register(id));
      SpawnsOk(r'.wakes, r'.spawns, r'.nextSpawn, r'.active, r'.live) && AdoptionOk(r'.adopting, r'.live, r'.active)
  {
    hide CallbacksOk, CallbackOf, RuntimesOk, EntriesOk, WaitsOk;
  }

  lemma StepKeepsInv(r: Registry, step: Step)
    requires Inv(r)
    ensures Inv(Take(r, step))
  {
    hide Inv, Registered, Finalise, Finish, StartFailed, Moved;
    match step
    case AdoptNext => AdoptKeeps(r, step);
    case AdoptSkip => AdoptKeeps(r, step);
    case AdoptDone => AdoptKeeps(r, step);
    case Wake(session) => WakeKeeps(r, session);
    case SpawnEnds(id) => if id in r.spawns { SpawnMovesOn(r, id); }
    case Register(id) => RegisterKeeps(r, id);
    case StartOk(id) => if id in r.spawns { SpawnMovesOn(r, id); }
    case StartFails(id) => if id in r.spawns && r.spawns[id].stage.Arming? { StartFailedKeeps(r, id); }
    case WaitOver(id) => if id in r.spawns { SpawnMovesOn(r, id); }
    case Settle(id) => SettleKeeps(r, id);
    case Terminal(session) => FinaliseKeeps(r, session);
    case FinishEnds(n) => if n in r.finishing { FinishKeeps(r, n); }
    case Kill(session, callback) => KillKeeps(r, session, callback);
    case StopSettles(n) =>
      StopsDoNotMatter(r, r.stops - {n});
      if n < |r.runtimes| { FinaliseKeeps(r.(stops := r.stops - {n}), r.runtimes[n].session); }
  }

  lemma StopsDoNotMatter(r: Registry, stops: set<nat>)
    requires Inv(r)
    ensures Inv(r.(stops := stops))
  {
  }

  lemma {:induction false} RunKeepsInv(r: Registry, steps: seq<Step>)
    requires Inv(r)
    ensures Inv(Run(r, steps))
    decreases |steps|
  {
    hide Inv, Take;
    if steps != [] {
      StepKeepsInv(r, steps[0]);
      RunKeepsInv(Take(r, steps[0]), steps[1..]);
    }
  }

  lemma StartIsInv(snapshots: seq<string>)
    requires Distinct(snapshots)
    ensures Inv(Start(snapshots))
  {
  }

  // ----- the claims -----------------------------------------------------------

  /** At most one spawn per session is in flight, its promise is the one on record, and no
      registration ever replaces an entry. */
  lemma OneSpawnPerSession(snapshots: seq<string>, steps: seq<Step>)
    requires Distinct(snapshots)
    ensures var r := Run(Start(snapshots), steps);
      && (forall a, b | a in r.spawns && b in r.spawns && r.spawns[a].session == r.spawns[b].session :: a == b)
      && (forall id | id in r.spawns :: r.spawns[id].session in r.wakes && r.wakes[r.spawns[id].session] == id)
      && (forall s | s in r.wakes :: r.wakes[s] in r.spawns)
      && !r.overwritten
  {
    hide Take;
    StartIsInv(snapshots);
    RunKeepsInv(Start(snapshots), steps);
    hide CallbacksOk, CallbackOf, RuntimesOk, EntriesOk;
  }

  /** Each runtime is finalised at most once; each callback runs at most once, and only
      after the entry of the runtime it was left with is gone. */
  lemma FinalisedOnce(snapshots: seq<string>, steps: seq<Step>, n: nat, c: nat)
    requires Distinct(snapshots)
    ensures var r := Run(Start(snapshots), steps);
      Count(r.finalised, n) <= 1 && Count(r.ran, c) <= 1 && !r.ranEarly
  {
    hide Take;
    StartIsInv(snapshots);
    RunKeepsInv(Start(snapshots), steps);
  }

  /** Finalising the runtime a session has for its entry is counted, each time. */
  lemma FinalisationIsCounted(r: Registry, session: string, m: nat)
    requires session in r.active && r.active[session] < |r.runtimes| && !r.runtimes[r.active[session]].finished
    ensures Count(Finalise(r, session).finalised, m) ==
            Count(r.finalised, m) + (if m == r.active[session] then 1 else 0)
  {
  }

  /** The mark that a callback ran early is made exactly when the callbacks of a runtime
      are run while some session still has it for its entry. */
  lemma EarlyRunIsMarked(r: Registry, n: nat)
    requires n < |r.runtimes|
    ensures Called(r, n).ranEarly <==> r.ranEarly || exists session | session in r.active :: r.active[session] == n
  {
  }

  /** A callback left with a runtime has run if and only if that runtime was finalised to
      its end; when the start fails first, the callback is dropped. */
  lemma CallbackRunsIffOver(snapshots: seq<string>, steps: seq<Step>, c: nat, n: nat, i: nat)
    requires Distinct(snapshots) && CallbackOf(Run(Start(snapshots), steps).runtimes, c, n, i)
    ensures var r := Run(Start(snapshots), steps); Count(r.ran, c) == 1 <==> Over(r.runtimes[n])
  {
    hide Take, CallbackOf;
    StartIsInv(snapshots);
    RunKeepsInv(Start(snapshots), steps);
  }

  /** Whoever waits in the catch is let go: the runtime's `finish` is under way or over,
      and once it ends, the spawn and its wake promise end too. */
  lemma NobodyWaitsForever(snapshots: seq<string>, steps: seq<Step>, id: nat)
    requires Distinct(snapshots)
    requires var r := Run(Start(snapshots), steps); id in r.spawns && r.spawns[id].stage.Awaiting?
    ensures var r := Run(Start(snapshots), steps); var n := r.spawns[id].stage.runtime;
      && n < |r.runtimes| && (r.runtimes[n].resolved || n in r.finishing)
      && var r' := Take(Take(Take(r, FinishEnds(n)), WaitOver(id)), Settle(id));
         id !in r'.spawns && r.spawns[id].session !in r'.wakes
  {
    hide Run, Take, Inv;
    StartIsInv(snapshots);
    RunKeepsInv(Start(snapshots), steps);
    var r := Run(Start(snapshots), steps);
    AwaitedIsFinishing(r, id);
    LetGo(r, id, r.spawns[id].stage.runtime);
  }

  lemma AwaitedIsFinishing(r: Registry, id: nat)
    requires Inv(r) && id in r.spawns && r.spawns[id].stage.Awaiting?
    ensures var n := r.spawns[id].stage.runtime; n < |r.runtimes| && (r.runtimes[n].resolved || n in r.finishing)
  {
    hide CallbacksOk, CallbackOf, AdoptionOk, SpawnsOk, EntriesOk;
    assert WaitOk(r.spawns[id], r.runtimes);
  }

  lemma LetGo(r: Registry, id: nat, n: nat)
    requires id in r.spawns && r.spawns[id].stage == Awaiting(n) && n < |r.runtimes| &&
            (r.runtimes[n].resolved || n in r.finishing)
    ensures var r' := Take(Take(Take(r, FinishEnds(n)), WaitOver(id)), Settle(id));
      id !in r'.spawns && r.spawns[id].session !in r'.wakes
  {
    hide Take;
    var r1 := Take(r, FinishEnds(n));
    FinishResolves(r, n);
    var r2 := Take(r1, WaitOver(id));
    WaitEnds(r1, id, n);
    SettleEnds(r2, id);
  }

  lemma FinishResolves(r: Registry, n: nat)
    requires n < |r.runtimes| && (r.runtimes[n].resolved || n in r.finishing)
    ensures var r' := Take(r, FinishEnds(n)); r'.spawns == r.spawns && n < |r'.runtimes| && r'.runtimes[n].resolved
  {
    hide RunAll, Finalise, StartFailed, Registered;
  }

  lemma WaitEnds(r: Registry, id: nat, n: nat)
    requires id in r.spawns && r.spawns[id].stage == Awaiting(n) && n < |r.runtimes| && r.runtimes[n].resolved
    ensures Take(r, WaitOver(id)) == Moved(r, id, Settled) && SpawnAt(Take(r, WaitOver(id)), id, Settled)
    ensures Take(r, WaitOver(id)).spawns[id].session == r.spawns[id].session
  {
    hide RunAll, Finalise, StartFailed, Registered, Finish;
  }

  lemma SettleEnds(r: Registry, id: nat)
    requires SpawnAt(r, id, Settled)
    ensures var r' := Take(r, Settle(id)); id !in r'.spawns && r.spawns[id].session !in r'.wakes
  {
    hide RunAll, Finalise, StartFailed, Registered, Finish;
  }

  // ----- when a callback is dropped -------------------------------------------

  /** The runtime is done with, and this callback never ran. */
  predicate Lost(r: Registry, n: nat, c: nat) {
    n < |r.runtimes| && r.runtimes[n].resolved && Count(r.ran, c) == 0
  }

  predicate Starting(r: Registry, n: nat) {
    exists id | id in r.spawns :: r.spawns[id].stage == Arming(n)
  }

  /** A runtime past its start: finalised, or still open with no start to fail. */
  predicate PastStart(r: Registry, n: nat) {
    n < |r.runtimes| && (r.runtimes[n].finished || (!r.runtimes[n].resolved && !Starting(r, n)))
  }

  lemma StepKeepsPastStart(r: Registry, step: Step, n: nat)
    requires Inv(r) && PastStart(r, n)
    ensures PastStart(Take(r, step), n)
  {
    hide Inv, PastStart, Registered, Finalise, Finish, StartFailed, Moved;
    match step
    case StartFails(id) =>
      if id in r.spawns && r.spawns[id].stage.Arming? && r.spawns[id].stage.runtime < |r.runtimes| {
        FailureElsewhere(r, id, n);
      }
    case FinishEnds(m) => if m in r.finishing && m < |r.runtimes| { FinishElsewhere(r, m, n); }
    case AdoptNext => if !r.live && r.adopting != [] { AddedElsewhere(r, r.adopting[0], n); }
    case Register(id) => if SpawnAt(r, id, Preparing) { RegisteredElsewhere(r, id, n); }
    case SpawnEnds(id) => if id in r.spawns { MovedElsewhere(r, id, n); }
    case StartOk(id) => if id in r.spawns { MovedElsewhere(r, id, n); }
    case WaitOver(id) => if id in r.spawns { MovedElsewhere(r, id, n); }
    case Settle(id) => QuietElsewhere(r, step, n);
    case Wake(session) => if r.nextSpawn !in r.spawns { WokenElsewhere(r, session, n); } else { SpawnIsNew(r); }
    case Kill(session, _) => QuietElsewhere(r, step, n);
    case Terminal(session) => FinalisedElsewhere(r, session, n);
    case StopSettles(m) =>
      StopsElsewhere(r, r.stops - {m}, n);
      if m < |r.runtimes| { FinalisedElsewhere(r.(stops := r.stops - {m}), r.runtimes[m].session, n); }
    case AdoptSkip => QuietElsewhere(r, step, n);
    case AdoptDone => QuietElsewhere(r, step, n);
  }

  lemma StopsElsewhere(r: Registry, stops: set<nat>, n: nat)
    requires PastStart(r, n)
    ensures PastStart(r.(stops := stops), n)
  {
  }

  lemma QuietElsewhere(r: Registry, step: Step, n: nat)
    requires PastStart(r, n) && (step.Settle? || step.Kill? || step.AdoptSkip? || step.AdoptDone?)
    ensures PastStart(Take(r, step), n)
  {
    hide Registered, Finalise, Finish, StartFailed, Moved;
  }

  lemma SpawnIsNew(r: Registry)
    requires Inv(r)
    ensures r.nextSpawn !in r.spawns
  {
    hide RuntimesOk, WaitsOk, CallbacksOk, EntriesOk, AdoptionOk;
  }

  lemma WokenElsewhere(r: Registry, session: string, n: nat)
    requires PastStart(r, n) && r.nextSpawn !in r.spawns
    ensures PastStart(r.(wakes := r.wakes[session := r.nextSpawn],
                         spawns := r.spawns[r.nextSpawn := Spawn(session, Preparing)], nextSpawn := r.nextSpawn + 1), n)
  {
  }

  lemma MovedElsewhere(r: Registry, id: nat, n: nat)
    requires PastStart(r, n) && id in r.spawns
    ensures PastStart(Moved(r, id, Settled), n)
  {
  }

  lemma AddedElsewhere(r: Registry, session: string, n: nat)
    requires PastStart(r, n)
    ensures forall adopting :: PastStart(Registered(r, session).(adopting := adopting), n)
  {
  }

  lemma RegisteredElsewhere(r: Registry, id: nat, n: nat)
    requires PastStart(r, n) && id in r.spawns
    ensures PastStart(Moved(Registered(r, r.spawns[id].session), id, Arming(|r.runtimes|)), n)
  {
  }

  lemma FinalisedElsewhere(r: Registry, session: string, n: nat)
    requires PastStart(r, n)
    ensures PastStart(Finalise(r, session), n)
  {
  }

  lemma FinishElsewhere(r: Registry, m: nat, n: nat)
    requires Inv(r) && PastStart(r, n) && m in r.finishing && m < |r.runtimes|
    ensures PastStart(Finish(r, m), n)
  {
    hide WaitsOk, CallbacksOk, EntriesOk, AdoptionOk, SpawnsOk, RunAll;
  }

  lemma FailureElsewhere(r: Registry, id: nat, n: nat)
    requires Inv(r) && PastStart(r, n) && id in r.spawns && r.spawns[id].stage.Arming?
    requires r.spawns[id].stage.runtime < |r.runtimes|
    ensures PastStart(StartFailed(r, id, r.spawns[id].stage.runtime), n)
  {
    hide Inv;
    var m := r.spawns[id].stage.runtime;
    if m == n { assert Starting(r, n); }
    hide Starting;
    FailureKeepsOthersStarting(r, id, m, n);
  }

  lemma FailureKeepsOthersStarting(r: Registry, id: nat, m: nat, n: nat)
    requires id in r.spawns && m < |r.runtimes|
    ensures Starting(StartFailed(r, id, m), n) ==> Starting(r, n)
  {
  }

  lemma {:induction false} RunKeepsPastStart(r: Registry, steps: seq<Step>, n: nat)
    requires Inv(r) && PastStart(r, n)
    ensures PastStart(Run(r, steps), n)
    decreases |steps|
  {
    hide Inv, Take, PastStart;
    if steps != [] {
      StepKeepsInv(r, steps[0]);
      StepKeepsPastStart(r, steps[0], n);
      RunKeepsPastStart(Take(r, steps[0]), steps[1..], n);
    }
  }

  /** What is known at the kill decides: the callback left with a runtime can end up
      dropped if and only if the runtime's start is still under way and no terminal event
      has reached it yet. */
  lemma CallbackCanBeDroppedIff(r: Registry, session: string)
    requires Inv(r) && session in r.active
    ensures var n, c, killed := r.active[session], r.nextCallback, Take(r, Kill(session, true));
      n < |r.runtimes| &&
      ((exists steps :: Lost(Run(killed, steps), n, c)) <==> Starting(r, n) && !r.runtimes[n].finished)
  {
    hide Inv, Take, Run, Starting, Lost;
    var n, c, killed := r.active[session], r.nextCallback, Take(r, Kill(session, true));
    StepKeepsInv(r, Kill(session, true));
    KillIsKnown(r, session);
    if Starting(r, n) && !r.runtimes[n].finished {
      DropByFailure(r, session);
    } else {
      forall steps ensures !Lost(Run(killed, steps), n, c) {
        RunKeepsInv(killed, steps);
        RunKeepsPastStart(killed, steps, n);
        RunKeepsCallback(killed, steps, c, n, |r.runtimes[n].callbacks|);
        NotLost(Run(killed, steps), c, n, |r.runtimes[n].callbacks|);
      }
    }
  }

  lemma KillIsKnown(r: Registry, session: string)
    requires Inv(r) && session in r.active
    ensures var n, killed := r.active[session], Take(r, Kill(session, true));
      && n < |r.runtimes| && !r.runtimes[n].resolved
      && CallbackOf(killed.runtimes, r.nextCallback, n, |r.runtimes[n].callbacks|)
      && (!(Starting(r, n) && !r.runtimes[n].finished) ==> PastStart(killed, n))
  {
    hide WaitsOk, RuntimesOk, CallbacksOk, AdoptionOk, SpawnsOk, Registered, Finalise, Finish, StartFailed, Moved;
  }

  /** Runtimes are only added, and their callbacks only added to. */
  predicate CallbacksGrow(r: Registry, r': Registry) {
    && |r.runtimes| <= |r'.runtimes|
    && forall n | 0 <= n < |r.runtimes| :: r.runtimes[n].callbacks <= r'.runtimes[n].callbacks
  }

  lemma StepGrowsCallbacks(r: Registry, step: Step)
    ensures CallbacksGrow(r, Take(r, step))
  {
    hide CallbacksGrow, Registered, Finalise, Finish, StartFailed, Moved;
    NothingGrows(r);
    match step
    case AdoptNext =>
      if !r.live && r.adopting != [] {
        RegisteredGrows(r, r.adopting[0]);
        GrowsAs(r, Registered(r, r.adopting[0]), Take(r, step));
      }
    case Register(id) => if id in r.spawns { RegisteredGrows(r, r.spawns[id].session); }
    case SpawnEnds(id) => if id in r.spawns { MovedGrows(r, id); }
    case StartOk(id) => if id in r.spawns { MovedGrows(r, id); }
    case WaitOver(id) => if id in r.spawns { MovedGrows(r, id); }
    case StartFails(id) =>
      if id in r.spawns && r.spawns[id].stage.Arming? && r.spawns[id].stage.runtime < |r.runtimes| {
        StartFailedGrows(r, id, r.spawns[id].stage.runtime);
      }
    case Terminal(session) => FinaliseGrows(r, session);
    case FinishEnds(n) => if n < |r.runtimes| { FinishGrows(r, n); }
    case Kill(session, callback) => KillGrows(r, session, callback);
    case StopSettles(n) =>
      var r1 := r.(stops := r.stops - {n});
      SameRuntimesGrow(r, r1);
      if n < |r.runtimes| {
        FinaliseGrows(r1, r.runtimes[n].session);
        GrowsToo(r, r1, Finalise(r1, r.runtimes[n].session));
      }
    case AdoptSkip => SameRuntimesGrow(r, Take(r, step));
    case AdoptDone => SameRuntimesGrow(r, Take(r, step));
    case Wake(_) => SameRuntimesGrow(r, Take(r, step));
    case Settle(_) => SameRuntimesGrow(r, Take(r, step));
  }

  lemma NothingGrows(r: Registry)
    ensures CallbacksGrow(r, r)
  {
  }

  lemma SameRuntimesGrow(r: Registry, r': Registry)
    requires r'.runtimes == r.runtimes
    ensures CallbacksGrow(r, r')
  {
  }

  lemma GrowsAs(r: Registry, r': Registry, r'': Registry)
    requires r''.runtimes == r'.runtimes && CallbacksGrow(r, r')
    ensures CallbacksGrow(r, r'')
  {
  }

  lemma GrowsToo(r: Registry, r': Registry, r'': Registry)
    requires r'.runtimes == r.runtimes && CallbacksGrow(r', r'')
    ensures CallbacksGrow(r, r'')
  {
  }

  lemma RegisteredGrows(r: Registry, session: string)
    ensures CallbacksGrow(r, Registered(r, session))
    ensures forall id, stage | id in r.spawns :: CallbacksGrow(r, Moved(Registered(r, session), id, stage))
  {
  }

  lemma MovedGrows(r: Registry, id: nat)
    requires id in r.spawns
    ensures forall stage :: CallbacksGrow(r, Moved(r, id, stage))
  {
  }

  lemma StartFailedGrows(r: Registry, id: nat, n: nat)
    requires id in r.spawns && n < |r.runtimes|
    ensures CallbacksGrow(r, StartFailed(r, id, n))
  {
  }

  lemma FinaliseGrows(r: Registry, session: string)
    ensures CallbacksGrow(r, Finalise(r, session))
  {
  }

  lemma FinishGrows(r: Registry, n: nat)
    requires n < |r.runtimes|
    ensures CallbacksGrow(r, Finish(r, n))
  {
    hide RunAll;
  }

  lemma KillGrows(r: Registry, session: string, callback: bool)
    ensures CallbacksGrow(r, Take(r, Kill(session, callback)))
  {
    hide Registered, Finalise, Finish, StartFailed, Moved;
  }

  /** A step leaves every callback with the runtime it was left with. */
  lemma StepKeepsCallback(r: Registry, step: Step, c: nat, n: nat, i: nat)
    requires CallbackOf(r.runtimes, c, n, i)
    ensures CallbackOf(Take(r, step).runtimes, c, n, i)
  {
    hide Take;
    StepGrowsCallbacks(r, step);
  }

  lemma {:induction false} RunKeepsCallback(r: Registry, steps: seq<Step>, c: nat, n: nat, i: nat)
    requires CallbackOf(r.runtimes, c, n, i)
    ensures CallbackOf(Run(r, steps).runtimes, c, n, i)
    decreases |steps|
  {
    hide Take, CallbackOf;
    if steps != [] {
      StepKeepsCallback(r, steps[0], c, n, i);
      RunKeepsCallback(Take(r, steps[0]), steps[1..], c, n, i);
    }
  }

  lemma NotLost(r: Registry, c: nat, n: nat, i: nat)
    requires Inv(r) && PastStart(r, n) && CallbackOf(r.runtimes, c, n, i)
    ensures !Lost(r, n, c)
  {
    hide WaitsOk, RuntimesOk, EntriesOk, AdoptionOk, SpawnsOk, CallbackOf, Starting;
  }

  lemma FailureDrops(r: Registry, session: string, id: nat)
    requires Inv(r) && session in r.active && r.active[session] < |r.runtimes|
    requires id in r.spawns && r.spawns[id].stage == Arming(r.active[session])
    requires !r.runtimes[r.active[session]].finished
    ensures Lost(Take(Take(r, Kill(session, true)), StartFails(id)), r.active[session], r.nextCallback)
  {
    StartingIsOwn(r, id, r.active[session]);
    NewCallbackHasNotRun(r);
    hide Inv;
  }

  lemma DropByFailure(r: Registry, session: string)
    requires Inv(r) && session in r.active && r.active[session] < |r.runtimes|
    requires Starting(r, r.active[session]) && !r.runtimes[r.active[session]].finished
    ensures exists steps :: Lost(Run(Take(r, Kill(session, true)), steps), r.active[session], r.nextCallback)
  {
    hide Inv, Take, Lost;
    var n, c, killed := r.active[session], r.nextCallback, Take(r, Kill(session, true));
    var id :| id in r.spawns && r.spawns[id].stage == Arming(n);
    FailureDrops(r, session, id);
    var failed := Take(killed, StartFails(id));
    assert [StartFails(id)][1..] == [];
    assert Run(failed, []) == failed;
    assert Run(killed, [StartFails(id)]) == failed;
  }

  lemma LostMeans(r: Registry, c: nat, n: nat, i: nat)
    requires Inv(r) && CallbackOf(r.runtimes, c, n, i)
    ensures Lost(r, n, c) <==> r.runtimes[n].resolved && !r.runtimes[n].finished
  {
    hide WaitsOk, RuntimesOk, EntriesOk, AdoptionOk, SpawnsOk, CallbackOf;
    assert n < |r.runtimes| by { CallbackIsThere(r.runtimes, c, n, i); }
  }

  lemma CallbackIsThere(runtimes: seq<Runtime>, c: nat, n: nat, i: nat)
    requires CallbackOf(runtimes, c, n, i)
    ensures n < |runtimes|
  {
  }

  /** Resolved without being finished: the start failed. */
  predicate GivenUp(r: Registry, n: nat) {
    n < |r.runtimes| && r.runtimes[n].resolved && !r.runtimes[n].finished
  }

  lemma GivenUpStays(r: Registry, step: Step, n: nat)
    requires Inv(r) && GivenUp(r, n)
    ensures GivenUp(Take(r, step), n)
  {
    hide Inv, GivenUp, Finalise, Finish, StartFailed, Registered, Moved;
    match step
    case AdoptNext => if !r.live && r.adopting != [] { AddedKeepsGivenUp(r, r.adopting[0], n); }
    case Register(id) => if SpawnAt(r, id, Preparing) { RegisteredKeepsGivenUp(r, id, n); }
    case SpawnEnds(id) => if id in r.spawns { MovedKeepsGivenUp(r, id, n); }
    case StartOk(id) => if id in r.spawns { MovedKeepsGivenUp(r, id, n); }
    case WaitOver(id) => if id in r.spawns { MovedKeepsGivenUp(r, id, n); }
    case Terminal(session) => FinaliseSparesGivenUp(r, session, n);
    case StopSettles(m) =>
      StopsKeepGivenUp(r, r.stops - {m}, n);
      if m < |r.runtimes| {
        StopsDoNotMatter(r, r.stops - {m});
        FinaliseSparesGivenUp(r.(stops := r.stops - {m}), r.runtimes[m].session, n);
      }
    case FinishEnds(m) => if m < |r.runtimes| { FinishKeepsGivenUp(r, m, n); }
    case StartFails(id) =>
      if id in r.spawns && r.spawns[id].stage.Arming? && r.spawns[id].stage.runtime < |r.runtimes| {
        FailureKeepsGivenUp(r, id, r.spawns[id].stage.runtime, n);
      }
    case AdoptSkip => QuietKeepsGivenUp(r, step, n);
    case AdoptDone => QuietKeepsGivenUp(r, step, n);
    case Wake(_) => QuietKeepsGivenUp(r, step, n);
    case Settle(_) => QuietKeepsGivenUp(r, step, n);
    case Kill(_, _) => QuietKeepsGivenUp(r, step, n);
  }

  lemma QuietKeepsGivenUp(r: Registry, step: Step, n: nat)
    requires GivenUp(r, n) && (step.AdoptSkip? || step.AdoptDone? || step.Wake? || step.Settle? || step.Kill?)
    ensures GivenUp(Take(r, step), n)
  {
    hide Registered, Finalise, Finish, StartFailed, Moved;
  }

  lemma StopsKeepGivenUp(r: Registry, stops: set<nat>, n: nat)
    requires GivenUp(r, n)
    ensures GivenUp(r.(stops := stops), n)
  {
  }

  lemma AddedKeepsGivenUp(r: Registry, session: string, n: nat)
    requires GivenUp(r, n)
    ensures forall adopting :: GivenUp(Registered(r, session).(adopting := adopting), n)
  {
  }

  lemma RegisteredKeepsGivenUp(r: Registry, id: nat, n: nat)
    requires GivenUp(r, n) && id in r.spawns
    ensures GivenUp(Moved(Registered(r, r.spawns[id].session), id, Arming(|r.runtimes|)), n)
  {
  }

  lemma MovedKeepsGivenUp(r: Registry, id: nat, n: nat)
    requires GivenUp(r, n) && id in r.spawns
    ensures GivenUp(Moved(r, id, Settled), n)
  {
  }

  lemma FinaliseSparesGivenUp(r: Registry, session: string, n: nat)
    requires Inv(r) && GivenUp(r, n)
    ensures GivenUp(Finalise(r, session), n)
  {
    hide WaitsOk, RuntimesOk, CallbacksOk, AdoptionOk, SpawnsOk;
  }

  lemma FinishKeepsGivenUp(r: Registry, m: nat, n: nat)
    requires GivenUp(r, n) && m < |r.runtimes|
    ensures GivenUp(Finish(r, m), n)
  {
    hide RunAll;
  }

  lemma FailureKeepsGivenUp(r: Registry, id: nat, m: nat, n: nat)
    requires GivenUp(r, n) && id in r.spawns && m < |r.runtimes|
    ensures GivenUp(StartFailed(r, id, m), n)
  {
    var runtimes := StartFailed(r, id, m).runtimes;
    assert runtimes == r.runtimes || runtimes == r.runtimes[m := r.runtimes[m].(resolved := true)];
    hide StartFailed;
  }

  /** A dropped callback stays dropped: nothing that happens later runs it. */
  lemma {:induction false} LostForGood(r: Registry, steps: seq<Step>, c: nat, n: nat, i: nat)
    requires Inv(r) && CallbackOf(r.runtimes, c, n, i) && Lost(r, n, c)
    ensures Lost(Run(r, steps), n, c)
    decreases |steps|
  {
    hide Inv, Take, CallbackOf, Lost;
    if steps != [] {
      CallbackIsThere(r.runtimes, c, n, i);
      LostMeans(r, c, n, i);
      StepKeepsInv(r, steps[0]);
      StepKeepsCallback(r, steps[0], c, n, i);
      GivenUpStays(r, steps[0], n);
      LostMeans(Take(r, steps[0]), c, n, i);
      LostForGood(Take(r, steps[0]), steps[1..], c, n, i);
    }
  }

  lemma NewCallbackHasNotRun(r: Registry)
    requires Inv(r)
    ensures Count(r.ran, r.nextCallback) == 0
  {
    hide WaitsOk, RuntimesOk, EntriesOk, AdoptionOk, SpawnsOk;
  }

  lemma StartingIsOwn(r: Registry, id: nat, n: nat)
    requires Inv(r) && id in r.spawns && r.spawns[id].stage == Arming(n)
    ensures n < |r.runtimes| && r.runtimes[n].session == r.spawns[id].session
    ensures forall s | s in r.active && r.active[s] == n :: s == r.spawns[id].session
  {
    hide RuntimesOk, CallbacksOk, AdoptionOk, SpawnsOk;
    assert WaitOk(r.spawns[id], r.runtimes);
  }

  /** Such a run from a fresh host: woken, registered, killed with a callback, and the
      start fails; everything settles and the callback was never called. */
  lemma DroppedCallbackExample()
    ensures var steps := [AdoptDone, Wake("s"), Register(0), Kill("s", true), StartFails(0), Settle(0), StopSettles(0)];
      var r := Run(Start([]), steps);
      && CallbackOf(r.runtimes, 0, 0, 0) && Lost(r, 0, 0)
      && r.spawns == map[] && r.wakes == map[] && r.active == map[] && r.finishing == {} && r.stops == {}
  {
    var killed := ExampleKilled();
    ExampleEnds(killed);
    hide Take;
    SevenSteps(
      Start([]), AdoptDone, Wake("s"), Register(0), Kill("s", true), StartFails(0), Settle(0), StopSettles(0));
  }

  lemma ExampleKilled() returns (r4: Registry)
    ensures r4 == Take(Take(Take(Take(Start([]), AdoptDone), Wake("s")), Register(0)), Kill("s", true))
    ensures r4 == Start([]).(
      live := true, wakes := map["s" := 0], nextSpawn := 1, active := map["s" := 0], stops := {0}, nextCallback := 1,
      runtimes := [Runtime("s", [0], false, false)], spawns := map[0 := Spawn("s", Arming(0))])
  {
    hide Finalise, Finish, StartFailed, Registered, Moved;
    var r3 := ExampleRegistered();
    r4 := Take(r3, Kill("s", true));
    assert [] + [0] == [0];
    assert r4.runtimes == [Runtime("s", [0], false, false)];
  }

  lemma ExampleRegistered() returns (r3: Registry)
    ensures r3 == Take(Take(Take(Start([]), AdoptDone), Wake("s")), Register(0))
    ensures r3 == Start([]).(
      live := true, wakes := map["s" := 0], nextSpawn := 1, active := map["s" := 0],
      runtimes := [Runtime("s", [], false, false)], spawns := map[0 := Spawn("s", Arming(0))])
  {
    hide Finalise, Finish, StartFailed, RunAll;
    var r1 := Take(Start([]), AdoptDone);
    var r2 := Take(r1, Wake("s"));
    assert r2 == r1.(wakes := map["s" := 0], spawns := map[0 := Spawn("s", Preparing)], nextSpawn := 1);
    r3 := Take(r2, Register(0));
    assert r3 == r2.(active := map["s" := 0], runtimes := [Runtime("s", [], false, false)],
                     spawns := map[0 := Spawn("s", Arming(0))]);
  }

  lemma ExampleEnds(r4: Registry)
    requires r4 == Start([]).(
      live := true, wakes := map["s" := 0], nextSpawn := 1, active := map["s" := 0], stops := {0}, nextCallback := 1,
      runtimes := [Runtime("s", [0], false, false)], spawns := map[0 := Spawn("s", Arming(0))])
    ensures var r := Take(Take(Take(r4, StartFails(0)), Settle(0)), StopSettles(0));
      && CallbackOf(r.runtimes, 0, 0, 0) && Lost(r, 0, 0)
      && r.spawns == map[] && r.wakes == map[] && r.active == map[] && r.finishing == {} && r.stops == {}
  {
    hide Registered, Finish, RunAll;
    var r5 := Take(r4, StartFails(0));
    assert r5 == r4.(active := map[], runtimes := [Runtime("s", [0], false, true)],
                     spawns := map[0 := Spawn("s", Settled)]);
    var r6 := Take(r5, Settle(0));
    assert r6 == r5.(wakes := map[], spawns := map[]);
    var r7 := Take(r6, StopSettles(0));
    assert r7 == r6.(stops := {});
  }

  lemma SevenSteps(r: Registry, a: Step, b: Step, c: Step, d: Step, e: Step, f: Step, g: Step)
    ensures Run(r, [a, b, c, d, e, f, g]) == Take(Take(Take(Take(Take(Take(Take(r, a), b), c), d), e), f), g)
  {
    hide Take;
    assert [a, b, c, d, e, f, g][1..] == [b, c, d, e, f, g] && [b, c, d, e, f, g][1..] == [c, d, e, f, g];
    assert [c, d, e, f, g][1..] == [d, e, f, g] && [d, e, f, g][1..] == [e, f, g];
    assert [e, f, g][1..] == [f, g] && [f, g][1..] == [g] && [g][1..] == [];
    var r3 := Take(Take(Take(r, a), b), c);
    var r6 := Take(Take(Take(r3, d), e), f);
    assert Run(r6, [g]) == Take(r6, g);
    assert Run(r3, [d, e, f, g]) == Run(Take(Take(r3, d), e), [f, g]);
    assert Run(r, [a, b, c, d, e, f, g]) == Run(Take(Take(r, a), b), [c, d, e, f, g]);
  }

  // ----- adoption -------------------------------------------------------------

  function Adoptions(n: nat): seq<Step> {
    seq(n, _ => AdoptNext)
  }

  lemma {:induction false} AdoptedSoFar(r: Registry, n: nat)
    requires !r.live && n <= |r.adopting|
    ensures var r' := Run(r, Adoptions(n));
      && !r'.live && r'.adopting == r.adopting[n..]
      && (forall i | 0 <= i < n :: r.adopting[i] in r'.active)
      && (forall s | s in r.active :: s in r'.active)
      && (r.overwritten ==> r'.overwritten)
    decreases n
  {
    if n > 0 {
      var r1 := Take(r, AdoptNext);
      assert Adoptions(n)[1..] == Adoptions(n - 1);
      AdoptedSoFar(r1, n - 1);
      hide Take;
      forall i | 0 <= i < n ensures r.adopting[i] in Run(r, Adoptions(n)).active {
        if i > 0 { assert r1.adopting[i - 1] == r.adopting[i]; }
      }
    }
  }

  /** No registration ever replaces an entry if and only if the snapshots list no session
      twice. */
  lemma NeverOverwrittenIff(snapshots: seq<string>)
    ensures Distinct(snapshots) <==> forall steps :: !Run(Start(snapshots), steps).overwritten
  {
    hide Take;
    if Distinct(snapshots) {
      StartIsInv(snapshots);
      forall steps ensures !Run(Start(snapshots), steps).overwritten { RunKeepsInv(Start(snapshots), steps); }
    } else {
      var i, j :| 0 <= i < j < |snapshots| && snapshots[i] == snapshots[j];
      AdoptedSoFar(Start(snapshots), j);
      var r := Run(Start(snapshots), Adoptions(j));
      assert r.adopting[0] == snapshots[j];
      AdoptAgain(r);
      RunOneMore(Start(snapshots), Adoptions(j), AdoptNext);
      assert Run(Start(snapshots), Adoptions(j) + [AdoptNext]).overwritten;
    }
  }

  lemma AdoptAgain(r: Registry)
    requires !r.live && r.adopting != [] && r.adopting[0] in r.active
    ensures Take(r, AdoptNext).overwritten
  {
  }

  lemma {:induction false} RunOneMore(r: Registry, steps: seq<Step>, step: Step)
    ensures Run(r, steps + [step]) == Take(Run(r, steps), step)
    decreases |steps|
  {
    hide Take;
    if steps == [] {
      assert [] + [step] == [step] && [step][1..] == [];
    } else {
      assert (steps + [step])[1..] == steps[1..] + [step];
      RunOneMore(Take(r, steps[0]), steps[1..], step);
    }
  }
}
