/** `deliverSessionMessages` as it is written, one call from entry to end, proved to be a
    run of the steps the delivery protocol is made of. */
module DeliveryLoop {
  import opened Delivery

  /** How the awaits of one row turn out. */
  datatype Plan = Plan(reached: bool, ok: bool, mark: Outcome, rest: bool, failure: Outcome)

  function RowSteps(p: nat, o: Plan): seq<Step> {
    [Resolve(p, o.ok), Mark(p, o.mark), Rest(p, o.rest), RecordFailure(p, o.failure)]
  }

  function RowRun(w: World, p: nat, o: Plan): World {
    Run(if o.reached then Take(w, Reach(p)) else w, RowSteps(p, o))
  }

  function RowsRun(w: World, p: nat, rows: seq<string>, plan: string -> Plan): World
    decreases |rows|
  {
    if rows == [] then w else RowsRun(RowRun(w, p, plan(rows[0])), p, rows[1..], plan)
  }

  /** A whole call: entered only when the session is not in flight, ended either way. */
  function CallRun(w: World, p: nat, session: string, due: seq<string>, readable: bool, plan: string -> Plan): World {
    var w1 := Take(w, Enter(p, session));
    if session in w.inflight then w1
    else if !readable then Take(w1, Quit(p))
    else Take(RowsRun(Take(w1, Read(p, due)), p, Undelivered(due, RecordedOf(w, session)), plan), Finish(p))
  }

  class DeliveryLoop {
    var inflightDeliveries: set<string>
    var deliveryAttempts: map<string, nat>
    var outbox: map<string, string>
    var recorded: set<string>
    ghost var others: map<nat, Drain>
    var sends: map<string, nat>
    var firsts: map<string, nat>

    ghost function State(): World
      reads this
    {
      World(inflightDeliveries, deliveryAttempts, others, outbox, recorded, sends, firsts)
    }

    /** The state with this call's own drain at the rows `pending`. */
    ghost function With(p: nat, d: Drain): World
      reads this
    {
      State().(drains := others[p := d])
    }

    constructor ()
      ensures State() == World({}, map[], map[], map[], {}, map[], map[])
    {
      inflightDeliveries, deliveryAttempts, outbox, recorded, others := {}, map[], map[], {}, map[];
      sends, firsts := map[], map[];
    }

    /** The catch block of one row. */
    method CountAttempt(id: string, failure: Outcome)
      modifies this
      ensures State() == Attempted(old(State()), id, failure)
    {
      var attempts := Count(deliveryAttempts, id) + 1;
      deliveryAttempts := deliveryAttempts[id := attempts];
      if attempts >= MAX_DELIVERY_ATTEMPTS && failure != Threw {
        if failure == Recorded { recorded := recorded + {id}; }
        deliveryAttempts := deliveryAttempts - {id};
      }
    }

    /** The part of the try block after the record. */
    method NoteDelivered(session: string, id: string, delivered: set<string>, mark: Outcome)
      returns (delivered': set<string>)
      modifies this
      ensures State() == Stored(old(State()), id, session, delivered == {}, mark)
      ensures delivered' == delivered + {id}
    {
      if mark == Recorded { recorded := recorded + {id}; }
      if delivered == {} { firsts := firsts[session := Count(firsts, session) + 1]; }
      delivered' := delivered + {id};
      deliveryAttempts := deliveryAttempts - {id};
    }

    /** The body of the loop for one row. */
    method DeliverRow(ghost p: nat, session: string, id: string, ghost later: seq<string>, delivered: set<string>,
        o: Plan)
      returns (delivered': set<string>)
      modifies this
      ensures others == old(others)
      ensures With(p, Drain(session, delivered', later, Sending(false)))
           == RowRun(old(With(p, Drain(session, delivered, [id] + later, Sending(false)))), p, o)
    {
      hide RowRun, Attempted, Stored, Moved;
      ghost var start := State();
      ghost var w := With(p, Drain(session, delivered, [id] + later, Sending(false)));
      RowEnds(start, w, p, session, id, delivered, later, o);
      delivered' := delivered;
      if o.reached { sends := sends[id := Count(sends, id) + 1]; }
      ghost var sent := Sent(start, id, o.reached);
      assert State() == sent;
      hide Sent;
      var threw := !o.ok || o.mark == Threw;
      if !threw {
        StoredIs(sent, id, session, delivered == {}, o.mark);
        delivered' := NoteDelivered(session, id, delivered, o.mark);
        threw := !o.rest;
      }
      ghost var stored := State();
      if threw {
        AttemptedIs(stored, id, o.failure);
        CountAttempt(id, o.failure);
      }
      MovedIs(State(), p, session, delivered', later);
    }

    method DeliverSessionMessages(ghost p: nat, session: string, due: seq<string>, readable: bool, plan: string -> Plan)
      requires p !in others
      requires Distinct(due) && forall id | id in due :: id in outbox && outbox[id] == session
      modifies this
      ensures State() == CallRun(old(State()), p, session, due, readable, plan)
    {
      hide Run, Take, RowRun, Undelivered, RecordedOf, Distinct;
      ghost var w := State();
      if session in inflightDeliveries {
        EnterIs(w, p, session);
        return;
      }
      inflightDeliveries := inflightDeliveries + {session};
      EnterIs(w, p, session);
      if readable {
        SameRecorded(w, State(), session);
        DrainSession(p, session, due, plan);
        ghost var delivered :| With(p, Drain(session, delivered, [], Sending(false)))
          == RowsRun(Take(Take(w, Enter(p, session)), Read(p, due)), p, Undelivered(due, RecordedOf(w, session)), plan);
        FinishIs(With(p, Drain(session, delivered, [], Sending(false))), p);
        assert others[p := Drain(session, delivered, [], Sending(false))] - {p} == others;
      }
      inflightDeliveries := inflightDeliveries - {session};
      if !readable { QuitIs(w, p, session); }
    }

    method DrainSession(ghost p: nat, session: string, due: seq<string>, plan: string -> Plan)
      requires p !in others
      requires Distinct(due) && forall id | id in due :: id in outbox && outbox[id] == session
      modifies this
      ensures others == old(others)
      ensures exists delivered ::
        With(p, Drain(session, delivered, [], Sending(false)))
        == RowsRun(Take(old(With(p, Drain(session, {}, [], Reading))), Read(p, due)), p,
                   Undelivered(due, RecordedOf(old(State()), session)), plan)
    {
      hide Run, Take, RowRun, Undelivered, RecordedOf, Distinct;
      var delivered := RecordedOfExec(session);
      var pending := Undelivered(due, delivered);
      ghost var w := With(p, Drain(session, {}, [], Reading));
      ReadIs(w, p, session, due);
      ghost var w1 := Take(w, Read(p, due));
      SameRecorded(w, State(), session);
      assert pending[0..] == pending && w1 == With(p, Drain(session, delivered, pending, Sending(false)));
      var i := 0;
      while i < |pending|
        invariant 0 <= i <= |pending|
        invariant others == old(others)
        invariant RowsRun(With(p, Drain(session, delivered, pending[i..], Sending(false))), p, pending[i..], plan)
               == RowsRun(w1, p, pending, plan)
      {
        assert pending[i..] == [pending[i]] + pending[i + 1..];
        assert pending[i..][1..] == pending[i + 1..];
        delivered := DeliverRow(p, session, pending[i], pending[i + 1..], delivered, plan(pending[i]));
        i := i + 1;
      }
    }

    method RecordedOfExec(session: string) returns (ids: set<string>)
      ensures ids == RecordedOf(State(), session)
    {
      ids := set id | id in recorded && id in outbox && outbox[id] == session;
    }
  }

  lemma EnterIs(w: World, p: nat, session: string)
    ensures session in w.inflight ==> Take(w, Enter(p, session)) == w
    ensures session !in w.inflight && p !in w.drains ==>
      Take(w, Enter(p, session)) ==
          w.(inflight := w.inflight + {session}, drains := w.drains[p := Drain(session, {}, [], Reading)])
  {
  }

  lemma QuitIs(w: World, p: nat, session: string)
    requires p !in w.drains && session !in w.inflight
    ensures Take(Take(w, Enter(p, session)), Quit(p)) == w
  {
    assert w.inflight + {session} - {session} == w.inflight;
    assert w.drains[p := Drain(session, {}, [], Reading)] - {p} == w.drains;
  }

  lemma ReadIs(w: World, p: nat, session: string, due: seq<string>)
    requires p in w.drains && w.drains[p] == Drain(session, {}, [], Reading)
    requires Distinct(due) && forall id | id in due :: id in w.outbox && w.outbox[id] == session
    ensures var delivered := RecordedOf(w, session);
      Take(w, Read(p, due)) ==
          w.(drains := w.drains[p := Drain(session, delivered, Undelivered(due, delivered), Sending(false))])
  {
    hide Undelivered, RecordedOf, Distinct;
  }

  lemma FinishIs(w: World, p: nat)
    requires p in w.drains && w.drains[p].pending == [] && w.drains[p].stage == Sending(false)
    ensures Take(w, Finish(p)) == w.(inflight := w.inflight - {w.drains[p].session}, drains := w.drains - {p})
  {
  }

  lemma SameRecorded(w: World, w': World, session: string)
    requires w.recorded == w'.recorded && w.outbox == w'.outbox
    ensures RecordedOf(w, session) == RecordedOf(w', session)
  {
  }

  // ----- one row --------------------------------------------------------------

  function Attempted(w: World, id: string, failure: Outcome): World {
    var n := Count(w.attempts, id) + 1;
    var w1 := w.(attempts := w.attempts[id := n]);
    if n < MAX_DELIVERY_ATTEMPTS || failure == Threw then w1
    else w1.(attempts := w1.attempts - {id},
             recorded := if failure == Recorded then w1.recorded + {id} else w1.recorded)
  }

  function Sent(w: World, id: string, reached: bool): World {
    if reached then w.(sends := w.sends[id := Count(w.sends, id) + 1]) else w
  }

  function Stored(w: World, id: string, session: string, first: bool, mark: Outcome): World {
    w.(recorded := if mark == Recorded then w.recorded + {id} else w.recorded,
       firsts := if first then w.firsts[session := Count(w.firsts, session) + 1] else w.firsts,
       attempts := w.attempts - {id})
  }

  function Moved(w: World, p: nat, session: string, delivered: set<string>, later: seq<string>): World {
    w.(drains := w.drains[p := Drain(session, delivered, later, Sending(false))])
  }

  lemma CatchIs(w: World, p: nat, id: string, later: seq<string>, failure: Outcome)
    requires p in w.drains && w.drains[p].pending == [id] + later
    ensures Take(Caught(w, p), RecordFailure(p, failure)) ==
            Moved(Attempted(w, id, failure), p, w.drains[p].session, w.drains[p].delivered, later)
  {
    if Count(w.attempts, id) + 1 < MAX_DELIVERY_ATTEMPTS {
      CatchRetries(w, p, id, later, failure);
    } else {
      CatchGivesUp(w, p, id, later, failure);
    }
  }

  lemma CatchRetries(w: World, p: nat, id: string, later: seq<string>, failure: Outcome)
    requires p in w.drains && w.drains[p].pending == [id] + later && Count(w.attempts, id) + 1 < MAX_DELIVERY_ATTEMPTS
    ensures Take(Caught(w, p), RecordFailure(p, failure)) ==
            Moved(Attempted(w, id, failure), p, w.drains[p].session, w.drains[p].delivered, later)
  {
    assert ([id] + later)[1..] == later;
    var caught := Caught(w, p);
    assert caught == Moved(Attempted(w, id, failure), p, w.drains[p].session, w.drains[p].delivered, later);
    hide Caught, Moved, Attempted;
    assert caught.drains[p].stage == Sending(false);
  }

  lemma CatchGivesUp(w: World, p: nat, id: string, later: seq<string>, failure: Outcome)
    requires p in w.drains && w.drains[p].pending == [id] + later && Count(w.attempts, id) + 1 >= MAX_DELIVERY_ATTEMPTS
    ensures Take(Caught(w, p), RecordFailure(p, failure)) ==
            Moved(Attempted(w, id, failure), p, w.drains[p].session, w.drains[p].delivered, later)
  {
    assert ([id] + later)[1..] == later;
    var caught := Caught(w, p);
    assert caught.drains[p].stage == GivingUp && caught.drains[p].pending == [id] + later;
    hide Caught;
  }

  lemma CaughtIsOver(w: World, p: nat, outcome: Outcome, ok: bool)
    requires Working(w, p)
    ensures Take(Caught(w, p), Mark(p, outcome)) == Caught(w, p)
    ensures Take(Caught(w, p), Rest(p, ok)) == Caught(w, p)
  {
  }

  lemma {:induction false} FourRuns(w: World, p: nat, o: Plan)
    ensures Run(w, RowSteps(p, o)) ==
            Take(Take(Take(Take(w, Resolve(p, o.ok)), Mark(p, o.mark)), Rest(p, o.rest)), RecordFailure(p, o.failure))
  {
    hide Take;
    FourSteps(w, Resolve(p, o.ok), Mark(p, o.mark), Rest(p, o.rest), RecordFailure(p, o.failure));
  }

  lemma ReachIs(w: World, p: nat, id: string, later: seq<string>)
    requires p in w.drains && w.drains[p].pending == [id] + later && w.drains[p].stage == Sending(false)
    ensures Take(w, Reach(p)) == Sent(w, id, true).(drains := w.drains[p := w.drains[p].(stage := Sending(true))])
  {
  }

  lemma ResolveIs(w: World, p: nat, ok: bool)
    requires Working(w, p) && w.drains[p].stage.Sending?
    ensures Take(w, Resolve(p, ok)) == if ok then Stay(w, p, Marking) else Caught(w, p)
  {
  }

  lemma MarkIs(w: World, p: nat, id: string, later: seq<string>, mark: Outcome)
    requires p in w.drains && w.drains[p].pending == [id] + later && w.drains[p].stage == Marking
    ensures var d := w.drains[p];
      Take(w, Mark(p, mark)) ==
        if mark == Threw then Caught(w, p)
        else Stored(w, id, d.session, d.delivered == {}, mark).(
               drains := w.drains[p := Drain(d.session, d.delivered + {id}, d.pending, After)])
  {
  }

  lemma RestIs(w: World, p: nat, id: string, later: seq<string>, ok: bool, failure: Outcome)
    requires p in w.drains && w.drains[p].pending == [id] + later && w.drains[p].stage == After
    ensures Take(Take(w, Rest(p, ok)), RecordFailure(p, failure))
         == Moved(if ok then w else Attempted(w, id, failure), p, w.drains[p].session, w.drains[p].delivered, later)
  {
    assert ([id] + later)[1..] == later;
    if !ok { CatchIs(w, p, id, later, failure); }
  }

  /** What the awaits of one row come to. */
  lemma RowIs(w: World, p: nat, id: string, later: seq<string>, o: Plan)
    requires p in w.drains && w.drains[p].pending == [id] + later && w.drains[p].stage == Sending(false)
    ensures var d := w.drains[p];
      var w1 := Sent(w, id, o.reached);
      RowRun(w, p, o) ==
        if !o.ok || o.mark == Threw then Moved(Attempted(w1, id, o.failure), p, d.session, d.delivered, later)
        else
          var w2 := Stored(w1, id, d.session, d.delivered == {}, o.mark);
          Moved(if o.rest then w2 else Attempted(w2, id, o.failure), p, d.session, d.delivered + {id}, later)
  {
    hide Take, Run, RowSteps, Caught, Attempted, Stored, Sent;
    var d := w.drains[p];
    SentIs(w, id, o.reached);
    if o.reached { ReachIs(w, p, id, later); }
    var w1 := if o.reached then Take(w, Reach(p)) else w;
    assert w1 == Sent(w, id, o.reached).(drains := w.drains[p := w1.drains[p]]);
    FourRuns(w1, p, o);
    ResolveIs(w1, p, o.ok);
    if !o.ok {
      CatchIs(w1, p, id, later, o.failure);
      CaughtIsOver(w1, p, o.mark, o.rest);
      MovedAnyway(w1, Sent(w, id, o.reached), p, id, o.failure, d.session, d.delivered, later);
    } else {
      var w2 := Stay(w1, p, Marking);
      MarkIs(w2, p, id, later, o.mark);
      if o.mark == Threw {
        CatchIs(w2, p, id, later, o.failure);
        CaughtIsOver(w2, p, o.mark, o.rest);
        MovedAnyway(w2, Sent(w, id, o.reached), p, id, o.failure, d.session, d.delivered, later);
      } else {
        var w3 := Take(w2, Mark(p, o.mark));
        var stored := Stored(Sent(w, id, o.reached), id, d.session, d.delivered == {}, o.mark);
        StoredIs(Sent(w, id, o.reached), id, d.session, d.delivered == {}, o.mark);
        StoredAnyway(w2, Sent(w, id, o.reached), id, d.session, d.delivered == {}, o.mark);
        RestIs(w3, p, id, later, o.rest, o.failure);
        MovedAnyway(w3, stored, p, id, o.failure, d.session, d.delivered + {id}, later);
      }
    }
  }

  predicate AllBut(w: World, w': World, p: nat) {
    && w == w'.(drains := w.drains)
    && (forall q | q in w.drains && q != p :: q in w'.drains && w'.drains[q] == w.drains[q])
    && (forall q | q in w'.drains && q != p :: q in w.drains)
  }

  lemma SentIs(w: World, id: string, reached: bool)
    ensures Sent(w, id, reached) == w.(sends := if reached then w.sends[id := Count(w.sends, id) + 1] else w.sends)
  {
  }

  lemma StoredIs(w: World, id: string, session: string, first: bool, mark: Outcome)
    ensures Stored(w, id, session, first, mark) ==
      w.(recorded := if mark == Recorded then w.recorded + {id} else w.recorded,
         firsts := if first then w.firsts[session := Count(w.firsts, session) + 1] else w.firsts,
         attempts := w.attempts - {id})
  {
  }

  lemma AttemptedIs(w: World, id: string, failure: Outcome)
    ensures var n := Count(w.attempts, id) + 1;
      Attempted(w, id, failure) ==
        if n < MAX_DELIVERY_ATTEMPTS || failure == Threw then w.(attempts := w.attempts[id := n])
        else w.(attempts := w.attempts[id := n] - {id},
                recorded := if failure == Recorded then w.recorded + {id} else w.recorded)
  {
  }

  lemma MovedIs(w: World, p: nat, session: string, delivered: set<string>, later: seq<string>)
    ensures Moved(w, p, session, delivered, later) ==
            w.(drains := w.drains[p := Drain(session, delivered, later, Sending(false))])
  {
  }

  /** The row's outcome, read off the state without the drain. */
  lemma RowEnds(start: World, w: World, p: nat, session: string, id: string, delivered: set<string>, later: seq<string>,
      o: Plan)
    requires w == start.(drains := start.drains[p := Drain(session, delivered, [id] + later, Sending(false))])
    ensures var threw := !o.ok || o.mark == Threw;
      var sent := Sent(start, id, o.reached);
      var stored := if threw then sent else Stored(sent, id, session, delivered == {}, o.mark);
      RowRun(w, p, o) ==
        Moved(if threw || !o.rest then Attempted(stored, id, o.failure) else stored, p, session,
              if threw then delivered else delivered + {id}, later)
  {
    hide RowRun, Attempted, Moved;
    RowIs(w, p, id, later, o);
    var threw := !o.ok || o.mark == Threw;
    var a, b := Sent(w, id, o.reached), Sent(start, id, o.reached);
    assert AllBut(a, b, p);
    var a' := if threw then a else Stored(a, id, session, delivered == {}, o.mark);
    var b' := if threw then b else Stored(b, id, session, delivered == {}, o.mark);
    assert AllBut(a', b', p);
    MovedAnyway(a', b', p, id, o.failure, session, if threw then delivered else delivered + {id}, later);
  }

  /** These updates do not look at the drains. */
  lemma MovedAnyway(w: World, w': World, p: nat, id: string, failure: Outcome, session: string, delivered: set<string>,
      later: seq<string>)
    requires AllBut(w, w', p)
    ensures Moved(w, p, session, delivered, later) == Moved(w', p, session, delivered, later)
    ensures Moved(Attempted(w, id, failure), p, session, delivered, later) ==
            Moved(Attempted(w', id, failure), p, session, delivered, later)
  {
    assert w.drains[p := Drain(session, delivered, later, Sending(false))] ==
        w'.drains[p := Drain(session, delivered, later, Sending(false))];
  }

  lemma StoredAnyway(w: World, w': World, id: string, session: string, first: bool, mark: Outcome)
    requires w == w'.(drains := w.drains)
    ensures Stored(w, id, session, first, mark) == Stored(w', id, session, first, mark).(drains := w.drains)
    ensures Stored(w', id, session, first, mark).drains == w'.drains
  {
  }
}
