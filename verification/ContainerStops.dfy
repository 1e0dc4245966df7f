/** A stop that was asked for one runtime and settles late: whom it finalises. */
module ContainerStops {
  import opened ContainerRegistry

  /** If this runtime's stop settled now, another runtime would be finalised. */
  ghost predicate HitsAnother(r: Registry, n: nat) {
    exists m :: m != n && Count(Take(r, StopSettles(n)).finalised, m) > Count(r.finalised, m)
  }

  /** The runtime was given up without being finished, and its session has a successor. */
  predicate Succeeded(r: Registry, n: nat) {
    && n < |r.runtimes| && !r.runtimes[n].finished && r.runtimes[n].resolved
    && var session := r.runtimes[n].session;
       session in r.active && r.active[session] < |r.runtimes| && !r.runtimes[r.active[session]].finished
  }

  lemma HitsMeans(r: Registry, n: nat)
    requires Inv(r)
    ensures HitsAnother(r, n) <==> n in r.stops && Succeeded(r, n)
  {
    hide WaitsOk, CallbacksOk, AdoptionOk, SpawnsOk;
    if n in r.stops && Succeeded(r, n) {
      var m := r.active[r.runtimes[n].session];
      assert Count(Take(r, StopSettles(n)).finalised, m) > Count(r.finalised, m);
    }
  }

  lemma PastStartIsNotSucceeded(r: Registry, n: nat)
    requires Inv(r) && PastStart(r, n)
    ensures !Succeeded(r, n)
  {
    hide Inv, Starting;
  }

  lemma KillKeepsPastStart(r: Registry, session: string, callback: bool)
    requires Inv(r) && session in r.active
    ensures r.active[session] < |r.runtimes| && !r.runtimes[r.active[session]].resolved
    ensures var n, killed := r.active[session], Take(r, Kill(session, callback));
      !(Starting(r, n) && !r.runtimes[n].finished) ==> PastStart(killed, n)
  {
    hide WaitsOk, RuntimesOk, CallbacksOk, AdoptionOk, SpawnsOk, Registered, Finalise, Finish, StartFailed, Moved;
  }

  // ----- how a successor comes to be hit --------------------------------------

  /** The start fails, the wake is over, the session is woken again and registers. */
  function NextLife(r: Registry, session: string, id: nat): seq<Step> {
    [StartFails(id), Settle(id), Wake(session), Register(r.nextSpawn)]
  }

  lemma FourSteps(r: Registry, a: Step, b: Step, c: Step, d: Step)
    ensures Run(r, [a, b, c, d]) == Take(Take(Take(Take(r, a), b), c), d)
  {
    hide Take;
    assert [a, b, c, d][1..] == [b, c, d] && [b, c, d][1..] == [c, d] && [c, d][1..] == [d] && [d][1..] == [];
    var r2 := Take(Take(r, a), b);
    assert Run(r2, [c, d]) == Run(Take(Take(r2, c), d), []);
  }

  lemma FailedAndSettled(r: Registry, session: string, id: nat)
    requires Inv(r) && session in r.active && id in r.spawns && r.spawns[id].stage == Arming(r.active[session])
    requires r.active[session] < |r.runtimes| && !r.runtimes[r.active[session]].finished
    ensures var n := r.active[session]; var r2 := Take(Take(r, StartFails(id)), Settle(id));
      && r.spawns[id].session == session && session in r.wakes && r.live
      && r2 == r.(active := r.active - {session}, runtimes := r.runtimes[n := r.runtimes[n].(resolved := true)],
                  wakes := r.wakes - {session}, spawns := r.spawns - {id})
  {
    hide WaitsOk, RuntimesOk, EntriesOk, CallbacksOk, AdoptionOk, Take;
    StartingIsOwn(r, id, r.active[session]);
    var n := r.active[session];
    FailedIs(r, session, id, n);
    SettledIs(Take(r, StartFails(id)), session, id);
    var r1 := Take(r, StartFails(id));
    assert r1.spawns - {id} == r.spawns - {id};
  }

  lemma FailedIs(r: Registry, session: string, id: nat, n: nat)
    requires id in r.spawns && r.spawns[id] == Spawn(session, Arming(n))
    requires session in r.active && r.active[session] == n
    requires n < |r.runtimes| && !r.runtimes[n].finished
    ensures Take(r, StartFails(id)) ==
            r.(active := r.active - {session}, runtimes := r.runtimes[n := r.runtimes[n].(resolved := true)],
               spawns := r.spawns[id := Spawn(session, Settled)])
  {
    hide Registered, Finalise, Finish;
  }

  lemma SettledIs(r: Registry, session: string, id: nat)
    requires id in r.spawns && r.spawns[id] == Spawn(session, Settled)
    ensures Take(r, Settle(id)) == r.(wakes := r.wakes - {session}, spawns := r.spawns - {id})
  {
    hide Registered, Finalise, Finish, StartFailed;
  }

  lemma WokenAndRegistered(r: Registry, session: string)
    requires r.live && session !in r.active && session !in r.wakes
    ensures Take(Take(r, Wake(session)), Register(r.nextSpawn)) ==
            r.(wakes := r.wakes[session := r.nextSpawn], nextSpawn := r.nextSpawn + 1,
               spawns := r.spawns[r.nextSpawn := Spawn(session, Arming(|r.runtimes|))],
               active := r.active[session := |r.runtimes|],
               runtimes := r.runtimes + [Runtime(session, [], false, false)])
  {
    hide Finalise, Finish, StartFailed;
    var r1 := Take(r, Wake(session));
    assert r1 == r.(wakes := r.wakes[session := r.nextSpawn], nextSpawn := r.nextSpawn + 1,
                    spawns := r.spawns[r.nextSpawn := Spawn(session, Preparing)]);
  }

  lemma SuccessorIsHit(r: Registry, session: string, id: nat)
    requires Inv(r) && session in r.active && id in r.spawns && r.spawns[id].stage == Arming(r.active[session])
    requires r.active[session] < |r.runtimes| && !r.runtimes[r.active[session]].finished
    requires r.active[session] in r.stops
    ensures var r' := Run(r, NextLife(r, session, id)); Inv(r') && HitsAnother(r', r.active[session])
  {
    hide Inv, Take, HitsAnother;
    var n := r.active[session];
    FourSteps(r, StartFails(id), Settle(id), Wake(session), Register(r.nextSpawn));
    FailedAndSettled(r, session, id);
    var r2 := Take(Take(r, StartFails(id)), Settle(id));
    WokenAndRegistered(r2, session);
    var r' := Run(r, NextLife(r, session, id));
    RunKeepsInv(r, NextLife(r, session, id));
    StartingIsOwn(r, id, n);
    HitsMeans(r', n);
  }

  /** What is known at the kill decides: the stop it asks for can come to finalise a later
      runtime of the session, for which none was asked, if and only if the runtime's start
      is still under way and no terminal event has reached it yet. */
  lemma StopCanHitSuccessorIff(r: Registry, session: string, callback: bool)
    requires Inv(r) && session in r.active
    ensures var n, killed := r.active[session], Take(r, Kill(session, callback));
      n < |r.runtimes| &&
      ((exists steps :: HitsAnother(Run(killed, steps), n)) <==> Starting(r, n) && !r.runtimes[n].finished)
  {
    hide Inv, Take, Run, HitsAnother, Starting;
    var n, killed := r.active[session], Take(r, Kill(session, callback));
    StepKeepsInv(r, Kill(session, callback));
    KillKeepsPastStart(r, session, callback);
    if Starting(r, n) && !r.runtimes[n].finished {
      var id := KillKeepsStarting(r, session, callback);
      SuccessorIsHit(killed, session, id);
    } else {
      forall steps ensures !HitsAnother(Run(killed, steps), n) {
        RunKeepsInv(killed, steps);
        RunKeepsPastStart(killed, steps, n);
        PastStartIsNotSucceeded(Run(killed, steps), n);
        HitsMeans(Run(killed, steps), n);
      }
    }
  }

  lemma KillKeepsStarting(r: Registry, session: string, callback: bool) returns (id: nat)
    requires session in r.active && r.active[session] < |r.runtimes|
    requires Starting(r, r.active[session]) && !r.runtimes[r.active[session]].finished
    ensures var n, killed := r.active[session], Take(r, Kill(session, callback));
      && id in killed.spawns && killed.spawns[id].stage == Arming(n)
      && session in killed.active && killed.active[session] == n && n in killed.stops
      && n < |killed.runtimes| && !killed.runtimes[n].finished
  {
    id :| id in r.spawns && r.spawns[id].stage == Arming(r.active[session]);
    hide Registered, Finalise, Finish, StartFailed;
  }

  /** Such a run from a fresh host. The only kill is before the start fails, of runtime 0;
      its stop settles when runtime 1 is the session's, and finalises that. */
  lemma SuccessorIsHitExample()
    ensures var steps := [AdoptDone, Wake("s"), Register(0), Kill("s", false), StartFails(0), Settle(0), Wake("s"),
                          Register(1)];
      var r := Run(Start([]), steps);
      && r.active == map["s" := 1] && r.stops == {0}
      && r.runtimes == [Runtime("s", [], false, true), Runtime("s", [], false, false)]
      && Take(r, StopSettles(0)).runtimes == [Runtime("s", [], false, true), Runtime("s", [], true, false)]
  {
    var killed := ExampleKilled();
    ExampleEnds(killed);
    var first := [AdoptDone, Wake("s"), Register(0), Kill("s", false)];
    var second := [StartFails(0), Settle(0), Wake("s"), Register(1)];
    hide Take;
    FourSteps(Start([]), AdoptDone, Wake("s"), Register(0), Kill("s", false));
    FourSteps(killed, StartFails(0), Settle(0), Wake("s"), Register(1));
    RunTwice(Start([]), first, second);
    assert first + second == [AdoptDone, Wake("s"), Register(0), Kill("s", false), StartFails(0), Settle(0), Wake("s"),
                              Register(1)];
  }

  lemma {:induction false} RunTwice(r: Registry, a: seq<Step>, b: seq<Step>)
    ensures Run(r, a + b) == Run(Run(r, a), b)
    decreases |a|
  {
    hide Take;
    if a == [] {
      assert a + b == b;
    } else {
      assert (a + b)[1..] == a[1..] + b;
      RunTwice(Take(r, a[0]), a[1..], b);
    }
  }

  lemma ExampleKilled() returns (r4: Registry)
    ensures r4 == Take(Take(Take(Take(Start([]), AdoptDone), Wake("s")), Register(0)), Kill("s", false))
    ensures r4 == Start([]).(
      live := true, wakes := map["s" := 0], nextSpawn := 1, active := map["s" := 0], stops := {0}, nextCallback := 1,
      runtimes := [Runtime("s", [], false, false)], spawns := map[0 := Spawn("s", Arming(0))])
  {
    var r1 := Take(Start([]), AdoptDone);
    assert r1 == Start([]).(live := true);
    WokenAndRegistered(r1, "s");
    hide Take;
    var r3 := Take(Take(r1, Wake("s")), Register(0));
    r4 := Take(r3, Kill("s", false));
    KilledIs(r3, "s");
    assert r3.runtimes == [Runtime("s", [], false, false)] && r3.stops == {};
    assert r3.active == map["s" := 0] && r3.wakes == map["s" := 0] && r3.spawns == map[0 := Spawn("s", Arming(0))];
  }

  lemma KilledIs(r: Registry, session: string)
    requires session in r.active && r.active[session] < |r.runtimes|
    ensures Take(r, Kill(session, false)) ==
            r.(nextCallback := r.nextCallback + 1, stops := r.stops + {r.active[session]})
  {
    hide Finalise, Finish, StartFailed, Registered, Moved;
    assert r.runtimes[r.active[session] := r.runtimes[r.active[session]]] == r.runtimes;
  }

  lemma ExampleEnds(r4: Registry)
    requires r4 == Start([]).(
      live := true, wakes := map["s" := 0], nextSpawn := 1, active := map["s" := 0], stops := {0}, nextCallback := 1,
      runtimes := [Runtime("s", [], false, false)], spawns := map[0 := Spawn("s", Arming(0))])
    ensures var r := Take(Take(Take(Take(r4, StartFails(0)), Settle(0)), Wake("s")), Register(1));
      && r.active == map["s" := 1] && r.stops == {0}
      && r.runtimes == [Runtime("s", [], false, true), Runtime("s", [], false, false)]
      && Take(r, StopSettles(0)).runtimes == [Runtime("s", [], false, true), Runtime("s", [], true, false)]
  {
    FailedIs(r4, "s", 0, 0);
    var r5 := Take(r4, StartFails(0));
    assert r5 == r4.(active := map[], runtimes := [Runtime("s", [], false, true)],
                     spawns := map[0 := Spawn("s", Settled)]) by { hide Take; }
    SettledIs(r5, "s", 0);
    var r6 := Take(r5, Settle(0));
    assert r6 == r5.(wakes := map[], spawns := map[]) by { hide Take; }
    WokenAndRegistered(r6, "s");
    SecondIsFinalised(Take(Take(r6, Wake("s")), Register(1)));
    hide Take;
  }

  lemma SecondIsFinalised(r: Registry)
    requires r.active == map["s" := 1] && r.stops == {0}
    requires r.runtimes == [Runtime("s", [], false, true), Runtime("s", [], false, false)]
    ensures Take(r, StopSettles(0)).runtimes == [Runtime("s", [], false, true), Runtime("s", [], true, false)]
  {
    hide Finish, StartFailed, Registered, Moved;
  }
}
