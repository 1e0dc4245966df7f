/** The container runner's registry on its own objects: every synchronous section of the
    source is a method, proved to be the corresponding step of the registry machine. */
module ContainerRunner {
  import opened ContainerRegistry

  class ActiveSessionRuntime {
    const number: nat
    const sessionId: string
    var exitCallbacks: seq<nat>
    var finished: bool
    var resolved: bool

    constructor (number: nat, sessionId: string)
      ensures this.number == number && this.sessionId == sessionId
      ensures exitCallbacks == [] && !finished && !resolved
    {
      this.number, this.sessionId := number, sessionId;
      exitCallbacks, finished, resolved := [], false, false;
    }

    ghost function Value(): Runtime
      reads this
    {
      Runtime(sessionId, exitCallbacks, finished, resolved)
    }
  }

  class ContainerRunner {
    var activeContainers: map<string, ActiveSessionRuntime>
    var wakePromises: map<string, nat>
    var ran: map<nat, nat>                    // how often each exit callback was called
    ghost var all: seq<ActiveSessionRuntime>  // every runtime ever registered
    ghost var registry: Registry              // the abstract state

    /** The real fields show exactly the abstract state. */
    ghost predicate Valid()
      reads this, all
    {
      && registry.wakes == wakePromises && registry.ran == ran
      && |registry.runtimes| == |all|
      && (forall i | 0 <= i < |all| :: all[i].number == i && registry.runtimes[i] == all[i].Value())
      && (forall s | s in activeContainers :: s in registry.active && registry.active[s] == activeContainers[s].number)
      && (forall s | s in registry.active :: s in activeContainers)
      && (forall s | s in activeContainers :: Known(activeContainers[s]))
    }

    ghost predicate Known(runtime: ActiveSessionRuntime)
      reads this`all
    {
      runtime.number < |all| && all[runtime.number] == runtime
    }

    constructor (ghost snapshots: seq<string>)
      ensures Valid() && registry == Start(snapshots)
    {
      activeContainers, wakePromises, all, ran := map[], map[], [], map[];
      registry := Start(snapshots);
    }

    method WakeContainer(sessionId: string, spawn: nat)
      requires Valid() && registry.live && spawn == registry.nextSpawn
      modifies this
      ensures Valid() && all == old(all) && registry == Take(old(registry), Wake(sessionId))
    {
      WakeIs(registry, sessionId);
      hide Take;
      registry := Take(registry, Wake(sessionId));
      if sessionId in activeContainers { return; }
      if sessionId in wakePromises { return; }
      wakePromises := wakePromises[sessionId := spawn];
    }

    method RegisterRuntime(ghost id: nat, sessionId: string, number: nat) returns (runtime: ActiveSessionRuntime)
      requires Valid() && id in registry.spawns && registry.spawns[id] == Spawn(sessionId, Preparing) && number == |all|
      modifies this
      ensures Valid() && fresh(runtime) && all == old(all) + [runtime] && registry == Take(old(registry), Register(id))
    {
      RegisterIs(registry, id, sessionId);
      hide Take;
      ghost var next := Take(registry, Register(id));
      runtime := new ActiveSessionRuntime(number, sessionId);
      AddEntry(sessionId, runtime);
      Advance(next);
    }

    method AddEntry(sessionId: string, runtime: ActiveSessionRuntime)
      requires Valid() && runtime.number == |all| && runtime.Value() == Runtime(sessionId, [], false, false)
      modifies this`activeContainers, this`all, this`registry
      ensures Valid() && all == old(all) + [runtime]
      ensures registry == old(registry).(active := old(registry).active[sessionId := |old(registry).runtimes|],
                                         runtimes := old(registry).runtimes + [Runtime(sessionId, [], false, false)])
    {
      activeContainers := activeContainers[sessionId := runtime];
      all := all + [runtime];
      registry := registry.(active := registry.active[sessionId := |registry.runtimes|],
                            runtimes := registry.runtimes + [Runtime(sessionId, [], false, false)]);
    }

    /** The catch in `spawnContainer`, up to its await; `waits` is whether it gets there. */
    method StartFailed(ghost id: nat, sessionId: string, runtime: ActiveSessionRuntime) returns (waits: bool)
      requires Valid() && Known(runtime) && id in registry.spawns &&
              registry.spawns[id] == Spawn(sessionId, Arming(runtime.number))
      modifies this, runtime`resolved
      ensures Valid() && all == old(all) && registry == Take(old(registry), StartFails(id))
      ensures waits <==> Waits(registry, id)
    {
      StartFailsIs(registry, id, sessionId, runtime.number);
      assert registry.runtimes[runtime.number] == runtime.Value();
      hide Take, Valid;
      EntryIs(sessionId, runtime);
      waits := !(sessionId in activeContainers && activeContainers[sessionId] == runtime && !runtime.finished);
      ghost var next := Take(registry, StartFails(id));
      if !waits {
        Drop(sessionId, runtime);
      }
      Advance(next);
    }

    method Drop(sessionId: string, runtime: ActiveSessionRuntime)
      requires Valid() && Known(runtime)
      modifies this`activeContainers, this`registry, runtime`resolved
      ensures var r, n := old(registry), runtime.number;
        Valid() && registry ==
            r.(active := r.active - {sessionId}, runtimes := r.runtimes[n := r.runtimes[n].(resolved := true)])
    {
      hide Valid;
      RemoveEntry(sessionId);
      Resolve(runtime);
    }

    /** The registry's entry is the object's exactly when the numbers agree. */
    lemma EntryIs(sessionId: string, runtime: ActiveSessionRuntime)
      requires Valid() && Known(runtime)
      ensures (sessionId in activeContainers && activeContainers[sessionId] == runtime)
        <==> (sessionId in registry.active && registry.active[sessionId] == runtime.number)
    {
    }

    /** The objects carry only these fields of the abstract state. */
    ghost method Advance(next: Registry)
      requires Valid() && next.wakes == registry.wakes && next.ran == registry.ran
      requires next.active == registry.active && next.runtimes == registry.runtimes
      modifies this`registry
      ensures Valid() && registry == next
    {
      registry := next;
    }

    /** `activeContainers.delete` */
    method RemoveEntry(sessionId: string)
      requires Valid()
      modifies this`activeContainers, this`registry
      ensures Valid() && registry == old(registry).(active := old(registry).active - {sessionId})
      ensures activeContainers == old(activeContainers) - {sessionId}
    {
      activeContainers := activeContainers - {sessionId};
      registry := registry.(active := registry.active - {sessionId});
    }

    /** `resolveFinished` */
    method Resolve(runtime: ActiveSessionRuntime)
      requires Valid() && Known(runtime)
      modifies this`registry, runtime`resolved
      ensures var n := runtime.number;
        Valid() && registry ==
            old(registry).(runtimes := old(registry).runtimes[n := old(registry).runtimes[n].(resolved := true)])
    {
      ghost var n := runtime.number;
      runtime.resolved := true;
      registry := registry.(runtimes := registry.runtimes[n := registry.runtimes[n].(resolved := true)]);
    }

    /** `finishAndResolve` up to the first await of `finish`. */
    method FinishAndResolve(sessionId: string) returns (runtime: ActiveSessionRuntime?)
      requires Valid()
      modifies this`registry, all`finished
      ensures Valid() && registry == Take(old(registry), Terminal(sessionId))
    {
      TerminalIs(registry, sessionId);
      hide Take;
      ghost var next := Take(registry, Terminal(sessionId));
      if sessionId !in activeContainers || activeContainers[sessionId].finished {
        registry := next;
        return null;
      }
      runtime := activeContainers[sessionId];
      MarkFinished(runtime);
      Advance(next);
    }

    method MarkFinished(runtime: ActiveSessionRuntime)
      requires Valid() && Known(runtime)
      modifies this`registry, runtime`finished
      ensures var n := runtime.number;
        Valid() && registry ==
            old(registry).(runtimes := old(registry).runtimes[n := old(registry).runtimes[n].(finished := true)])
    {
      ghost var n := runtime.number;
      runtime.finished := true;
      registry := registry.(runtimes := registry.runtimes[n := registry.runtimes[n].(finished := true)]);
    }

    /** The rest of `finish`, and the `finally` that resolves the promise. */
    method Finish(runtime: ActiveSessionRuntime)
      requires Valid() && Known(runtime) && runtime.number in registry.finishing
      modifies this, runtime`resolved
      ensures Valid() && all == old(all) && registry == Take(old(registry), FinishEnds(runtime.number))
    {
      FinishIs(registry, runtime.number);
      hide Take, Left, Called, Ended, Valid;
      LeaveRegistry(runtime);
      RunCallbacks(runtime);
      ResolveFinished(runtime);
    }

    /** The entry goes if it is still this runtime's. */
    method LeaveRegistry(runtime: ActiveSessionRuntime)
      requires Valid() && Known(runtime)
      modifies this`activeContainers, this`registry
      ensures Valid() && runtime.number < |old(registry).runtimes| && registry == Left(old(registry), runtime.number)
    {
      assert registry.runtimes[runtime.number] == runtime.Value();
      EntryIs(runtime.sessionId, runtime);
      hide Valid;
      if runtime.sessionId in activeContainers && activeContainers[runtime.sessionId] == runtime {
        RemoveEntry(runtime.sessionId);
      }
    }

    method RunCallbacks(runtime: ActiveSessionRuntime)
      requires Valid() && Known(runtime)
      modifies this`ran, this`registry
      ensures Valid() && runtime.number < |old(registry).runtimes| && registry == Called(old(registry), runtime.number)
    {
      assert registry.runtimes[runtime.number] == runtime.Value();
      var callbacks := runtime.exitCallbacks;
      var i := 0;
      while i < |callbacks|
        invariant 0 <= i <= |callbacks|
        invariant RunAll(ran, callbacks[i..]) == RunAll(old(ran), callbacks)
        invariant registry == old(registry)
      {
        assert callbacks[i..][1..] == callbacks[i + 1..];
        ran := ran[callbacks[i] := Count(ran, callbacks[i]) + 1];
        i := i + 1;
      }
      registry := Called(registry, runtime.number);
    }

    method ResolveFinished(runtime: ActiveSessionRuntime)
      requires Valid() && Known(runtime)
      modifies this`registry, runtime`resolved
      ensures Valid() && runtime.number < |old(registry).runtimes| && registry == Ended(old(registry), runtime.number)
    {
      ghost var next := Ended(registry, runtime.number);
      Resolve(runtime);
      Advance(next);
    }

    method AddCallback(entry: ActiveSessionRuntime, callback: nat)
      requires Valid() && Known(entry)
      modifies this`registry, entry`exitCallbacks
      ensures var n := entry.number;
        Valid() && registry ==
            old(registry).(runtimes := old(registry).runtimes[n :=
              old(registry).runtimes[n].(callbacks := old(registry).runtimes[n].callbacks + [callback])])
    {
      ghost var n := entry.number;
      entry.exitCallbacks := entry.exitCallbacks + [callback];
      var called := registry.runtimes[n].(callbacks := registry.runtimes[n].callbacks + [callback]);
      registry := registry.(runtimes := registry.runtimes[n := called]);
    }

    method KillContainer(sessionId: string, onExit: bool, callback: nat)
      requires Valid() && callback == registry.nextCallback
      modifies this`registry, all`exitCallbacks
      ensures Valid() && registry == Take(old(registry), Kill(sessionId, onExit))
    {
      KillIs(registry, sessionId, onExit);
      hide Take;
      ghost var next := Take(registry, Kill(sessionId, onExit));
      if sessionId in activeContainers {
        var entry := activeContainers[sessionId];
        if onExit {
          AddCallback(entry, callback);
        }
      }
      Advance(next);
    }

    /** The handlers of the stop promise, whether it resolved or failed. */
    method StopSettled(entry: ActiveSessionRuntime)
      requires Valid() && Known(entry) && entry.number in registry.stops
      modifies this`registry, all`finished
      ensures Valid() && registry == Take(old(registry), StopSettles(entry.number))
    {
      StopSettlesIs(registry, entry.number);
      hide Take;
      registry := registry.(stops := registry.stops - {entry.number});
      if !entry.finished {
        var _ := FinishAndResolve(entry.sessionId);
      }
    }
  }

  /** The spawn is in the catch, awaiting the finished promise. */
  ghost predicate Waits(r: Registry, id: nat) {
    id in r.spawns && r.spawns[id].stage.Awaiting?
  }

  lemma RegisterIs(r: Registry, id: nat, session: string)
    requires id in r.spawns && r.spawns[id] == Spawn(session, Preparing)
    ensures Take(r, Register(id)) ==
      r.(active := r.active[session := |r.runtimes|], runtimes := r.runtimes + [Runtime(session, [], false, false)],
         overwritten := r.overwritten || session in r.active,
         spawns := r.spawns[id := Spawn(session, Arming(|r.runtimes|))])
  {
  }

  lemma StartFailsRecord(r: Registry, id: nat, session: string, n: nat)
    requires id in r.spawns && r.spawns[id] == Spawn(session, Arming(n)) && n < |r.runtimes|
    ensures Take(r, StartFails(id)) ==
      if session in r.active && r.active[session] == n && !r.runtimes[n].finished
      then r.(active := r.active - {session}, runtimes := r.runtimes[n := r.runtimes[n].(resolved := true)],
              spawns := r.spawns[id := Spawn(session, Settled)])
      else r.(spawns := r.spawns[id := Spawn(session, Awaiting(n))])
  {
  }

  /** What the catch does to the fields the objects carry. */
  lemma StartFailsIs(r: Registry, id: nat, session: string, n: nat)
    requires id in r.spawns && r.spawns[id] == Spawn(session, Arming(n)) && n < |r.runtimes|
    ensures var r' := Take(r, StartFails(id));
      var mine := session in r.active && r.active[session] == n && !r.runtimes[n].finished;
      && r'.wakes == r.wakes && r'.ran == r.ran
      && r'.active == (if mine then r.active - {session} else r.active)
      && r'.runtimes == (if mine then r.runtimes[n := r.runtimes[n].(resolved := true)] else r.runtimes)
      && id in r'.spawns && (r'.spawns[id].stage.Awaiting? <==> !mine)
  {
    hide Take;
    StartFailsRecord(r, id, session, n);
  }

  lemma FinishIs(r: Registry, n: nat)
    requires n in r.finishing && n < |r.runtimes|
    ensures Take(r, FinishEnds(n)) == Ended(Called(Left(r, n), n), n)
  {
    hide Left, Called, Ended;
  }

  lemma TerminalIs(r: Registry, session: string)
    requires session in r.active ==> r.active[session] < |r.runtimes|
    ensures var r' := Take(r, Terminal(session));
      && r'.active == r.active && r'.wakes == r.wakes && r'.ran == r.ran
      && r'.runtimes ==
         if session in r.active && !r.runtimes[r.active[session]].finished
         then r.runtimes[r.active[session] := r.runtimes[r.active[session]].(finished := true)]
         else r.runtimes
  {
  }

  lemma WakeIs(r: Registry, session: string)
    ensures var r' := Take(r, Wake(session));
      && r'.active == r.active && r'.runtimes == r.runtimes && r'.ran == r.ran
      && r'.wakes == if !r.live || session in r.active || session in r.wakes then r.wakes
           else r.wakes[session := r.nextSpawn]
  {
  }

  lemma KillIs(r: Registry, session: string, callback: bool)
    requires session in r.active ==> r.active[session] < |r.runtimes|
    ensures var r' := Take(r, Kill(session, callback));
      && r'.active == r.active && r'.ran == r.ran && r'.wakes == r.wakes
      && r'.runtimes ==
         if session in r.active && callback
         then var n := r.active[session];
             r.runtimes[n := r.runtimes[n].(callbacks := r.runtimes[n].callbacks + [r.nextCallback])]
         else r.runtimes
  {
  }

  lemma StopSettlesIs(r: Registry, n: nat)
    requires n in r.stops && n < |r.runtimes|
    ensures var r1 := r.(stops := r.stops - {n});
      Take(r, StopSettles(n)) == if r.runtimes[n].finished then r1 else Take(r1, Terminal(r.runtimes[n].session))
  {
    hide Finalise;
  }
}
