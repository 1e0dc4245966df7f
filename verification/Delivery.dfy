/** Outbound delivery: two poll loops drain the sessions' outboxes through one channel
    adapter. A step is the code between two awaits; steps of the pollers interleave. */
module Delivery {
  const MAX_DELIVERY_ATTEMPTS := 3

  /** What became of a write to the mailbox; `Gone` is a mailbox that no longer exists,
      where the write is skipped without an error. */
  datatype Outcome = Recorded | Threw | Gone

  datatype Stage =
    | Reading                 // the session's queue is not read yet
    | Sending(reached: bool)  // in deliverMessage for the first pending row
    | Marking                 // deliverMessage returned; recording it
    | After                   // recorded; fan-out and hooks
    | GivingUp                // recording the permanent failure

  /** One run of `drainSession`, with its local `delivered` set. */
  datatype Drain = Drain(session: string, delivered: set<string>, pending: seq<string>, stage: Stage)

  /** The process, the mailboxes, and two histories kept for the claims. */
  datatype World = World(
    inflight: set<string>,
    attempts: map<string, nat>,
    drains: map<nat, Drain>,      // by poller
    outbox: map<string, string>,  // every outbound row's session; ids are unique
    recorded: set<string>,        // rows of the delivered table, failed ones included
    sends: map<string, nat>,      // how often the adapter was called with a row
    firsts: map<string, nat>)     // how many rows of a session were its first delivery

  datatype Step =
    | Write(id: string, session: string)  // the runner adds a row
    | Enter(p: nat, session: string)
    | Quit(p: nat)                        // no agent group, no mailbox, or the read failed
    | Read(p: nat, due: seq<string>)
    | Reach(p: nat)
    | Resolve(p: nat, ok: bool)
    | Mark(p: nat, outcome: Outcome)
    | Rest(p: nat, ok: bool)
    | RecordFailure(p: nat, outcome: Outcome)
    | Finish(p: nat)

  function Count(m: map<string, nat>, id: string): nat {
    if id in m then m[id] else 0
  }

  function Undelivered(due: seq<string>, delivered: set<string>): seq<string> {
    if due == [] then []
    else (if due[0] in delivered then [] else [due[0]]) + Undelivered(due[1..], delivered)
  }

  predicate Distinct(ids: seq<string>) {
    forall i, j | 0 <= i < j < |ids| :: ids[i] != ids[j]
  }

  function RecordedOf(w: World, session: string): set<string> {
    set id | id in w.recorded && id in w.outbox && w.outbox[id] == session
  }

  predicate At(w: World, p: nat, stages: set<Stage>) {
    p in w.drains && w.drains[p].stage in stages
  }

  predicate Working(w: World, p: nat) {
    p in w.drains && w.drains[p].pending != []
  }

  function Leave(w: World, p: nat): World
    requires p in w.drains
  {
    w.(inflight := w.inflight - {w.drains[p].session}, drains := w.drains - {p})
  }

  function Stay(w: World, p: nat, stage: Stage): World
    requires p in w.drains
  {
    w.(drains := w.drains[p := w.drains[p].(stage := stage)])
  }

  function Next(w: World, p: nat): World
    requires Working(w, p)
  {
    w.(drains := w.drains[p := w.drains[p].(pending := w.drains[p].pending[1..], stage := Sending(false))])
  }

  /** The `catch` of one row: count the attempt, give up at the third. */
  function Caught(w: World, p: nat): World
    requires Working(w, p)
  {
    var id := w.drains[p].pending[0];
    var attempts := Count(w.attempts, id) + 1;
    var w1 := w.(attempts := w.attempts[id := attempts]);
    if attempts >= MAX_DELIVERY_ATTEMPTS then Stay(w1, p, GivingUp) else Next(w1, p)
  }

  /** After the record: the first-delivery flag, the local set, the attempt count. */
  function Noted(w: World, p: nat): World
    requires Working(w, p)
  {
    var d, id := w.drains[p], w.drains[p].pending[0];
    w.(firsts := if d.delivered == {} then w.firsts[d.session := Count(w.firsts, d.session) + 1] else w.firsts,
       attempts := w.attempts - {id},
       drains := w.drains[p := d.(delivered := d.delivered + {id}, stage := After)])
  }

  /** One step; a step that is not possible changes nothing. */
  function Take(w: World, step: Step): World {
    match step
    case Write(id, session) => if id in w.outbox then w else w.(outbox := w.outbox[id := session])
    case Enter(p, session) =>
      if p in w.drains || session in w.inflight then w
      else w.(inflight := w.inflight + {session}, drains := w.drains[p := Drain(session, {}, [], Reading)])
    case Quit(p) => if At(w, p, {Reading}) then Leave(w, p) else w
    case Read(p, due) =>
      if At(w, p, {Reading}) && Distinct(due)
         && (forall id | id in due :: id in w.outbox && w.outbox[id] == w.drains[p].session) then
        var d := w.drains[p];
        var delivered := RecordedOf(w, d.session);
        w.(drains := w.drains[p := Drain(d.session, delivered, Undelivered(due, delivered), Sending(false))])
      else w
    case Reach(p) =>
      if Working(w, p) && At(w, p, {Sending(false)}) then
        var id := w.drains[p].pending[0];
        Stay(w.(sends := w.sends[id := Count(w.sends, id) + 1]), p, Sending(true))
      else w
    case Resolve(p, ok) =>
      if Working(w, p) && At(w, p, {Sending(false), Sending(true)}) then
        if ok then Stay(w, p, Marking) else Caught(w, p)
      else w
    case Mark(p, outcome) =>
      if Working(w, p) && At(w, p, {Marking}) then
        match outcome
        case Recorded => Noted(w.(recorded := w.recorded + {w.drains[p].pending[0]}), p)
        case Gone => Noted(w, p)
        case Threw => Caught(w, p)
      else w
    case Rest(p, ok) =>
      if Working(w, p) && At(w, p, {After}) then
        if ok then Next(w, p) else Caught(w, p)
      else w
    case RecordFailure(p, outcome) =>
      if Working(w, p) && At(w, p, {GivingUp}) then
        var id := w.drains[p].pending[0];
        match outcome
        case Recorded => Next(w.(recorded := w.recorded + {id}, attempts := w.attempts - {id}), p)
        case Gone => Next(w.(attempts := w.attempts - {id}), p)
        case Threw => Next(w, p)
      else w
    case Finish(p) =>
      if At(w, p, {Sending(false)}) && w.drains[p].pending == [] then Leave(w, p) else w
  }

  function Run(w: World, steps: seq<Step>): World
    decreases |steps|
  {
    if steps == [] then w else Run(Take(w, steps[0]), steps[1..])
  }

  /** A process that just started: whatever was recorded before, nothing counted yet. */
  function Start(outbox: map<string, string>, recorded: set<string>): World {
    World({}, map[], map[], outbox, recorded, map[], map[])
  }

  lemma {:induction false} RunSplit(w: World, a: seq<Step>, b: seq<Step>)
    ensures Run(w, a + b) == Run(Run(w, a), b)
    decreases |a|
  {
    hide Take;
    if a == [] {
      assert a + b == b;
    } else {
      assert (a + b)[1..] == a[1..] + b;
      RunSplit(Take(w, a[0]), a[1..], b);
    }
  }

  // ----- one drain per session ------------------------------------------------

  predicate Exclusive(w: World) {
    && (forall p | p in w.drains :: w.drains[p].session in w.inflight)
    && (forall p, q | p in w.drains && q in w.drains && p != q :: w.drains[p].session != w.drains[q].session)
    && (forall s | s in w.inflight :: exists p | p in w.drains :: w.drains[p].session == s)
  }

  /** `w'` differs from `w` in the drain `p`, at most at its first row. */
  predicate OnlyHead(w: World, w': World, p: nat)
    requires Working(w, p)
  {
    var d := w.drains[p];
    && w'.outbox == w.outbox && w'.inflight == w.inflight
    && p in w'.drains && w'.drains == w.drains[p := w'.drains[p]]
    && w'.drains[p].session == d.session
    && (w'.drains[p].pending == d.pending || w'.drains[p].pending == d.pending[1..])
    && (w'.recorded == w.recorded || w'.recorded == w.recorded + {d.pending[0]})
    && w'.sends == (if d.pending[0] in w'.sends then w.sends[d.pending[0] := w'.sends[d.pending[0]]] else w.sends)
    && (w'.attempts == w.attempts - {d.pending[0]} ||
         (d.pending[0] in w'.attempts && w'.attempts == w.attempts[d.pending[0] := w'.attempts[d.pending[0]]]) ||
         w'.attempts == w.attempts)
  }

  lemma CaughtIsOnlyHead(w: World, p: nat)
    requires Working(w, p)
    ensures OnlyHead(w, Caught(w, p), p)
  {
  }

  lemma NotedIsOnlyHead(w: World, p: nat, recorded: set<string>)
    requires Working(w, p) && (recorded == w.recorded || recorded == w.recorded + {w.drains[p].pending[0]})
    ensures OnlyHead(w, Noted(w.(recorded := recorded), p), p)
  {
  }

  lemma NextIsOnlyHead(w: World, p: nat, recorded: set<string>, attempts: map<string, nat>)
    requires Working(w, p) && (recorded == w.recorded || recorded == w.recorded + {w.drains[p].pending[0]})
    requires attempts == w.attempts || attempts == w.attempts - {w.drains[p].pending[0]}
    ensures OnlyHead(w, Next(w.(recorded := recorded, attempts := attempts), p), p)
  {
  }

  lemma StayIsOnlyHead(w: World, p: nat, sends: map<string, nat>, stage: Stage)
    requires Working(w, p)
    requires sends == w.sends ||
            (w.drains[p].pending[0] in sends &&
             sends == w.sends[w.drains[p].pending[0] := sends[w.drains[p].pending[0]]])
    ensures OnlyHead(w, Stay(w.(sends := sends), p, stage), p)
  {
  }

  lemma NothingIsOnlyHead(w: World, p: nat)
    requires Working(w, p)
    ensures OnlyHead(w, w, p)
  {
  }

  /** A step of a drain with a row at hand. */
  lemma RowStep(w: World, step: Step)
    requires !step.Write? && Working(w, step.p) && w.drains[step.p].stage != Reading
    ensures OnlyHead(w, Take(w, step), step.p)
  {
    hide OnlyHead, Caught, Noted, Next, Stay, Leave, Undelivered, RecordedOf, Distinct;
    var p := step.p;
    var id := w.drains[p].pending[0];
    NothingIsOnlyHead(w, p);
    match step
    case Reach(_) => StayIsOnlyHead(w, p, w.sends[id := Count(w.sends, id) + 1], Sending(true));
    case Resolve(_, ok) =>
      StayIsOnlyHead(w, p, w.sends, Marking);
      CaughtIsOnlyHead(w, p);
    case Mark(_, outcome) =>
      NotedIsOnlyHead(w, p, w.recorded + {id});
      NotedIsOnlyHead(w, p, w.recorded);
      CaughtIsOnlyHead(w, p);
    case Rest(_, ok) =>
      NextIsOnlyHead(w, p, w.recorded, w.attempts);
      CaughtIsOnlyHead(w, p);
    case RecordFailure(_, outcome) =>
      NextIsOnlyHead(w, p, w.recorded + {id}, w.attempts - {id});
      NextIsOnlyHead(w, p, w.recorded, w.attempts - {id});
      NextIsOnlyHead(w, p, w.recorded, w.attempts);
    case _ =>
  }

  /** Nothing moved but the drains and the in-flight set, and of the drains only `p`. */
  predicate OnlyDrain(w: World, w': World, p: nat) {
    && w'.recorded == w.recorded && w'.sends == w.sends && w'.attempts == w.attempts && w'.firsts == w.firsts
    && w'.outbox == w.outbox
    && w'.drains - {p} == w.drains - {p}
  }

  lemma IdleDrain(w: World, step: Step)
    requires !step.Write? && !Working(w, step.p)
    ensures OnlyDrain(w, Take(w, step), step.p)
  {
    hide Undelivered, RecordedOf, Distinct, Caught, Noted, Next, Stay, OnlyDrain;
    NothingIsOnlyDrain(w, step.p);
    match step
    case Enter(p, session) => DrainIsOnlyDrain(w, p, w.inflight + {session}, Drain(session, {}, [], Reading));
    case Quit(p) => if p in w.drains { LeaveIsOnlyDrain(w, p); }
    case Finish(p) => if p in w.drains { LeaveIsOnlyDrain(w, p); }
    case Read(p, due) =>
      if At(w, p, {Reading}) {
        var delivered := RecordedOf(w, w.drains[p].session);
        DrainIsOnlyDrain(w, p, w.inflight,
            Drain(w.drains[p].session, delivered, Undelivered(due, delivered), Sending(false)));
      }
    case _ =>
  }

  lemma NothingIsOnlyDrain(w: World, p: nat)
    ensures OnlyDrain(w, w, p)
  {
  }

  lemma DrainIsOnlyDrain(w: World, p: nat, inflight: set<string>, d: Drain)
    ensures OnlyDrain(w, w.(inflight := inflight, drains := w.drains[p := d]), p)
  {
  }

  lemma LeaveIsOnlyDrain(w: World, p: nat)
    requires p in w.drains
    ensures OnlyDrain(w, Leave(w, p), p)
  {
  }

  /** A step of a drain with no row at hand, or of the runner. */
  lemma IdleStep(w: World, step: Step)
    requires step.Write? || !Working(w, step.p)
    ensures var w' := Take(w, step);
      && w'.recorded == w.recorded && w'.sends == w.sends && w'.attempts == w.attempts && w'.firsts == w.firsts
      && (forall id | id in w.outbox :: id in w'.outbox && w'.outbox[id] == w.outbox[id])
      && (forall q | q in w.drains && (step.Write? || q != step.p) :: q in w'.drains && w'.drains[q] == w.drains[q])
      && (forall q | q in w'.drains && (step.Write? || q != step.p) :: q in w.drains)
  {
    if !step.Write? {
      IdleDrain(w, step);
      hide Take;
      var w' := Take(w, step);
      forall q | q != step.p
        ensures (q in w'.drains <==> q in w.drains) && (q in w.drains ==> w'.drains[q] == w.drains[q])
      {
        assert q in w'.drains - {step.p} <==> q in w.drains - {step.p};
        if q in w.drains { assert (w'.drains - {step.p})[q] == (w.drains - {step.p})[q]; }
      }
    }
  }

  /** A step keeps the drains of all other pollers, and every drain keeps its session. */
  lemma StepTouchesOne(w: World, step: Step, p: nat)
    requires step.Write? || step.p != p
    ensures var w' := Take(w, step);
      (p in w'.drains <==> p in w.drains) && (p in w.drains ==> w'.drains[p] == w.drains[p])
  {
    hide Take, Undelivered, Distinct, RecordedOf;
    if step.Write? || !Working(w, step.p) {
      IdleStep(w, step);
    } else if w.drains[step.p].stage != Reading {
      RowStep(w, step);
    } else {
      ReadingStep(w, step);
    }
  }

  lemma ReadingStep(w: World, step: Step)
    requires !step.Write? && step.p in w.drains && w.drains[step.p].stage == Reading
    ensures var w' := Take(w, step);
      || w' == w
      || w' == Leave(w, step.p)
      || (step.p in w'.drains && w'.drains[step.p].session == w.drains[step.p].session &&
           w' == w.(drains := w.drains[step.p := w'.drains[step.p]]))
  {
    hide Undelivered, RecordedOf, Distinct, Caught, Noted, Next, Stay;
  }

  /** What a step may do to the drains and the in-flight set. */
  lemma DrainsStep(w: World, step: Step)
    ensures var w' := Take(w, step);
      || (w'.inflight == w.inflight && w'.drains == w.drains)
      || (!step.Write? && step.p in w.drains && w'.inflight == w.inflight - {w.drains[step.p].session} &&
           w'.drains == w.drains - {step.p})
      || (!step.Write? && step.p in w.drains && step.p in w'.drains
          && w'.drains[step.p].session == w.drains[step.p].session
          && w'.inflight == w.inflight && w'.drains == w.drains[step.p := w'.drains[step.p]])
      || (step.Enter? && step.p !in w.drains && step.session !in w.inflight
          && w'.inflight == w.inflight + {step.session}
          && step.p in w'.drains && w'.drains[step.p].session == step.session
          && w'.drains == w.drains[step.p := w'.drains[step.p]])
  {
    hide Undelivered, RecordedOf, Distinct, Caught, Noted, Next, Stay;
    if !step.Write? && Working(w, step.p) && w.drains[step.p].stage != Reading {
      RowStep(w, step);
    } else if !step.Write? && step.p in w.drains && w.drains[step.p].stage == Reading {
      ReadingStep(w, step);
    }
  }

  lemma StepKeepsExclusive(w: World, step: Step)
    requires Exclusive(w)
    ensures Exclusive(Take(w, step))
  {
    hide Take;
    DrainsStep(w, step);
    StepKeepsDrained(w, step);
  }

  lemma StepKeepsDrained(w: World, step: Step)
    requires Exclusive(w)
    ensures var w' := Take(w, step);
      forall s | s in w'.inflight :: exists p | p in w'.drains :: w'.drains[p].session == s
  {
    hide Take;
    var w' := Take(w, step);
    DrainsStep(w, step);
    forall s | s in w'.inflight ensures exists p | p in w'.drains :: w'.drains[p].session == s {
      if s in w.inflight {
        var p :| p in w.drains && w.drains[p].session == s;
        assert p in w'.drains && w'.drains[p].session == s;
      } else {
        assert w'.drains[step.p].session == s;
      }
    }
  }

  lemma {:induction false} RunKeepsExclusive(w: World, steps: seq<Step>)
    requires Exclusive(w)
    ensures Exclusive(Run(w, steps))
    decreases |steps|
  {
    hide Take, Exclusive;
    if steps != [] {
      StepKeepsExclusive(w, steps[0]);
      RunKeepsExclusive(Take(w, steps[0]), steps[1..]);
    }
  }

  /** In every interleaving, whatever fails: at most one drain per session is active, and
      the in-flight set is exactly the sessions being drained. */
  lemma AtMostOneDrain(outbox: map<string, string>, recorded: set<string>, steps: seq<Step>)
    ensures var w := Run(Start(outbox, recorded), steps);
      && (forall p, q | p in w.drains && q in w.drains && w.drains[p].session == w.drains[q].session :: p == q)
      && w.inflight == set p | p in w.drains :: w.drains[p].session
  {
    hide Take;
    RunKeepsExclusive(Start(outbox, recorded), steps);
  }

  // ----- at most three sends --------------------------------------------------

  /** A drain's rows are its session's, each once; those not yet handled are unrecorded. */
  predicate RowsInOrder(w: World, d: Drain) {
    && Distinct(d.pending)
    && (forall id | id in d.pending :: id in w.outbox && w.outbox[id] == d.session)
    && (d.stage == Reading ==> d.pending == [])
    && (d.stage in {Marking, After, GivingUp} ==> d.pending != [])
    && (forall i | 0 <= i < |d.pending| :: (i > 0 || d.stage in {Sending(false), Sending(true), Marking}) ==>
         d.pending[i] !in w.recorded)
    && (d.stage == After ==> d.pending[0] in w.recorded)
  }

  predicate Heads(w: World, p: nat, id: string) {
    p in w.drains && w.drains[p].pending != [] && w.drains[p].pending[0] == id
  }

  /** An unrecorded row that no one is trying: every send was counted, and under three. */
  predicate Waiting(w: World, id: string) {
    Count(w.attempts, id) < MAX_DELIVERY_ATTEMPTS && Count(w.sends, id) <= Count(w.attempts, id)
  }

  /** The same for the row a drain is at. */
  predicate Trying(w: World, d: Drain, id: string) {
    match d.stage
    case Reading => true
    case Sending(false) => Waiting(w, id)
    case Sending(true) =>
        Count(w.attempts, id) < MAX_DELIVERY_ATTEMPTS && Count(w.sends, id) <= Count(w.attempts, id) + 1
    case Marking => Count(w.attempts, id) < MAX_DELIVERY_ATTEMPTS && Count(w.sends, id) <= Count(w.attempts, id) + 1
    case After => true
    case GivingUp => Count(w.sends, id) <= MAX_DELIVERY_ATTEMPTS
  }

  ghost predicate Bounded(w: World, id: string) {
    && (id in w.recorded ==> Count(w.sends, id) <= MAX_DELIVERY_ATTEMPTS)
    && (id !in w.recorded ==>
          && (forall p | Heads(w, p, id) :: Trying(w, w.drains[p], id))
          && ((forall p :: !Heads(w, p, id)) ==> Waiting(w, id)))
  }

  ghost predicate Inv(w: World) {
    && Exclusive(w)
    && w.recorded <= w.outbox.Keys
    && (forall p | p in w.drains :: RowsInOrder(w, w.drains[p]))
    && (forall id :: Bounded(w, id))
  }

  /** The records work: a mailbox being drained is there, and a permanent failure is
      written down. Recording a delivery may still fail. */
  predicate RecordsWork(step: Step) {
    && (step.Mark? ==> step.outcome != Gone)
    && (step.RecordFailure? ==> step.outcome == Recorded)
  }

  /** Two drains are never at the same row. */
  lemma OneHead(w: World, p: nat, q: nat, id: string)
    requires Inv(w) && Heads(w, p, id) && Heads(w, q, id)
    ensures p == q
  {
    assert id in w.drains[p].pending && id in w.drains[q].pending;
    assert RowsInOrder(w, w.drains[p]) && RowsInOrder(w, w.drains[q]);
  }

  lemma {:induction false} UndeliveredIsSubset(due: seq<string>, delivered: set<string>)
    ensures forall id | id in Undelivered(due, delivered) :: id in due && id !in delivered
  {
    if due != [] { UndeliveredIsSubset(due[1..], delivered); }
  }

  lemma {:induction false} UndeliveredSplits(a: seq<string>, b: seq<string>, delivered: set<string>)
    ensures Undelivered(a + b, delivered) == Undelivered(a, delivered) + Undelivered(b, delivered)
  {
    if a == [] {
      assert a + b == b;
    } else {
      assert (a + b)[1..] == a[1..] + b;
      UndeliveredSplits(a[1..], b, delivered);
    }
  }

  lemma UndeliveredOne(id: string, delivered: set<string>)
    ensures Undelivered([id], delivered) == if id in delivered then [] else [id]
  {
    assert [id][1..] == [];
  }

  /** Some occurrence of one row comes before some occurrence of the other. */
  predicate Before(ids: seq<string>, first: string, second: string) {
    exists k, l | 0 <= k < l < |ids| :: ids[k] == first && ids[l] == second
  }

  /** What is left of the due rows: each that is not delivered, and no other, in the order
      in which they are due. */
  lemma UndeliveredIsTheRest(due: seq<string>, delivered: set<string>)
    ensures forall id :: id in Undelivered(due, delivered) <==> id in due && id !in delivered
    ensures forall i, j | 0 <= i < j < |due| && due[i] !in delivered && due[j] !in delivered ::
              Before(Undelivered(due, delivered), due[i], due[j])
  {
    hide Undelivered;
    forall id ensures id in Undelivered(due, delivered) <==> id in due && id !in delivered {
      UndeliveredIsSubset(due, delivered);
      if id in due && id !in delivered {
        var i :| 0 <= i < |due| && due[i] == id;
        UndeliveredAt(due, delivered, i);
      }
    }
    forall i, j | 0 <= i < j < |due| && due[i] !in delivered && due[j] !in delivered
      ensures Before(Undelivered(due, delivered), due[i], due[j])
    {
      UndeliveredAt(due, delivered, i);
      UndeliveredAt(due, delivered, j);
      UndeliveredGrows(due, delivered, i, j);
    }
  }

  lemma UndeliveredGrows(due: seq<string>, delivered: set<string>, i: nat, j: nat)
    requires i < j <= |due| && due[i] !in delivered
    ensures |Undelivered(due[..i], delivered)| < |Undelivered(due[..j], delivered)|
  {
    hide Undelivered;
    assert due[..j] == due[..i] + ([due[i]] + due[i + 1..j]);
    UndeliveredSplits(due[..i], [due[i]] + due[i + 1..j], delivered);
    UndeliveredSplits([due[i]], due[i + 1..j], delivered);
    UndeliveredOne(due[i], delivered);
  }

  /** Where an undelivered row stands: after the undelivered ones before it. */
  lemma UndeliveredAt(due: seq<string>, delivered: set<string>, i: nat)
    requires i < |due| && due[i] !in delivered
    ensures var r, k := Undelivered(due, delivered), |Undelivered(due[..i], delivered)|; k < |r| && r[k] == due[i]
  {
    assert due == due[..i] + ([due[i]] + due[i + 1..]);
    UndeliveredSplits(due[..i], [due[i]] + due[i + 1..], delivered);
    UndeliveredSplits([due[i]], due[i + 1..], delivered);
    UndeliveredOne(due[i], delivered);
  }

  /** A drain that has read the queue is about to send exactly the due rows that are not
      recorded, in the order of the queue. */
  lemma ReadTakesTheRest(w: World, p: nat, due: seq<string>)
    requires At(w, p, {Reading}) && Distinct(due)
    requires forall id | id in due :: id in w.outbox && w.outbox[id] == w.drains[p].session
    ensures var w' := Take(w, Read(p, due));
      && p in w'.drains && w'.drains[p].stage == Sending(false) && Distinct(w'.drains[p].pending)
      && (forall id :: id in w'.drains[p].pending <==> id in due && id !in w.recorded)
      && (forall i, j | 0 <= i < j < |due| && due[i] !in w.recorded && due[j] !in w.recorded ::
            Before(w'.drains[p].pending, due[i], due[j]))
  {
    hide Undelivered, Distinct, Before;
    var delivered := RecordedOf(w, w.drains[p].session);
    assert forall id | id in due :: id in delivered <==> id in w.recorded;
    UndeliveredIsTheRest(due, delivered);
    UndeliveredIsDistinct(due, delivered);
    assert forall i | 0 <= i < |due| :: due[i] in due;
  }

  /** A row can be settled without a send: one that has nowhere to go is recorded all the
      same, and an error before the adapter is reached counts as an attempt. */
  lemma SettledWithoutSend(w: World, p: nat)
    requires Working(w, p) && At(w, p, {Sending(false)})
    ensures var id := w.drains[p].pending[0]; var w' := Take(Take(w, Resolve(p, true)), Mark(p, Recorded));
      w'.recorded == w.recorded + {id} && w'.sends == w.sends
    ensures var id := w.drains[p].pending[0]; var w' := Take(w, Resolve(p, false));
      w'.attempts == w.attempts[id := Count(w.attempts, id) + 1] && w'.sends == w.sends && w'.recorded == w.recorded
  {
  }

  /** What a recorded row leaves: it counts as delivered, its attempts are forgotten, and
      the session's first deliveries grow by one exactly if nothing was delivered before. */
  lemma NotedInFields(w: World, p: nat)
    requires Working(w, p)
    ensures var d, id, w' := w.drains[p], w.drains[p].pending[0], Noted(w, p);
      && p in w'.drains && w'.drains[p].delivered == d.delivered + {id} && w'.drains[p].pending == d.pending
      && id !in w'.attempts && (forall other | other != id :: Count(w'.attempts, other) == Count(w.attempts, other))
      && Count(w'.firsts, d.session) == Count(w.firsts, d.session) + (if d.delivered == {} then 1 else 0)
      && (forall other | other != d.session :: Count(w'.firsts, other) == Count(w.firsts, other))
  {
  }

  lemma {:induction false} UndeliveredIsDistinct(due: seq<string>, delivered: set<string>)
    requires Distinct(due)
    ensures Distinct(Undelivered(due, delivered))
  {
    if due != [] {
      assert forall i, j | 0 <= i < j < |due[1..]| :: due[1..][i] == due[i + 1] && due[1..][j] == due[j + 1];
      UndeliveredIsDistinct(due[1..], delivered);
      UndeliveredIsSubset(due[1..], delivered);
      assert due[0] !in due[1..];
    }
  }

  /** What a step of one drain may change of the rest, once `Exclusive` is known. */
  lemma ReadKeepsRows(w: World, p: nat, due: seq<string>)
    requires Inv(w)
    ensures forall q | q in Take(w, Read(p, due)).drains ::
            RowsInOrder(Take(w, Read(p, due)), Take(w, Read(p, due)).drains[q])
  {
    hide Undelivered, RecordedOf, Bounded, Exclusive, Distinct, RowsInOrder;
    var w' := Take(w, Read(p, due));
    if w' != w {
      var session := w.drains[p].session;
      var delivered := RecordedOf(w, session);
      var d := Drain(session, delivered, Undelivered(due, delivered), Sending(false));
      FreshRowsInOrder(w, session, due);
      forall q | q in w'.drains ensures RowsInOrder(w', w'.drains[q]) {
        RowsAnyDrains(w, w'.drains, w'.drains[q]);
        if q != p { assert RowsInOrder(w, w.drains[q]); } else { assert w'.drains[q] == d; }
      }
    }
  }

  lemma RowsAnyDrains(w: World, drains: map<nat, Drain>, d: Drain)
    ensures RowsInOrder(w.(drains := drains), d) <==> RowsInOrder(w, d)
  {
  }

  /** The rows a drain reads: distinct, of its session and not recorded. */
  lemma FreshRowsInOrder(w: World, session: string, due: seq<string>)
    requires Distinct(due) && forall id | id in due :: id in w.outbox && w.outbox[id] == session
    ensures var delivered := RecordedOf(w, session);
      RowsInOrder(w, Drain(session, delivered, Undelivered(due, delivered), Sending(false)))
  {
    hide Undelivered, Distinct;
    var delivered := RecordedOf(w, session);
    UndeliveredIsSubset(due, delivered);
    UndeliveredIsDistinct(due, delivered);
    var pending := Undelivered(due, delivered);
    forall i | 0 <= i < |pending| ensures pending[i] !in w.recorded {
      assert pending[i] in due && pending[i] !in delivered;
    }
  }

  lemma StepKeepsRows(w: World, step: Step)
    requires Inv(w) && RecordsWork(step) && !step.Read?
    ensures forall q | q in Take(w, step).drains :: RowsInOrder(Take(w, step), Take(w, step).drains[q])
  {
    hide Take, RowsInOrder, Inv;
    var w' := Take(w, step);
    forall q | q in w'.drains ensures RowsInOrder(w', w'.drains[q]) {
      if step.Write? || q != step.p {
        StepTouchesOne(w, step, q);
        OtherRowsKeep(w, step, q);
      } else {
        OwnRowsKeep(w, step);
      }
    }
  }

  /** Only the head of the stepping drain gets recorded, and it belongs to no other. */
  lemma OtherRowsKeep(w: World, step: Step, q: nat)
    requires Inv(w) && (step.Write? || q != step.p) && q in w.drains
    ensures var w' := Take(w, step); q in w'.drains && RowsInOrder(w', w'.drains[q])
  {
    hide Bounded, Distinct, Take, Inv, Exclusive;
    StepTouchesOne(w, step, q);
    InvRows(w, q);
    var w' := Take(w, step);
    if !step.Write? && Working(w, step.p) {
      var id := w.drains[step.p].pending[0];
      InvRows(w, step.p);
      RowStep(w, step);
      if id in w.drains[q].pending { SameSession(w, q, step.p, id); }
    } else {
      IdleStep(w, step);
    }
  }

  lemma OwnRowsKeep(w: World, step: Step)
    requires Inv(w) && RecordsWork(step) && !step.Read? && !step.Write? && step.p in Take(w, step).drains
    ensures RowsInOrder(Take(w, step), Take(w, step).drains[step.p])
  {
    hide Bounded, Exclusive, Inv, RowsInOrder, Take, RecordsWork;
    if Working(w, step.p) {
      InvRows(w, step.p);
      OwnHeadKeeps(w, step);
    } else {
      if step.p in w.drains { InvRows(w, step.p); }
      OwnIdleKeeps(w, step);
    }
  }

  lemma OwnIdleKeeps(w: World, step: Step)
    requires !step.Read? && !step.Write? && !Working(w, step.p) && step.p in Take(w, step).drains
    requires step.p in w.drains ==> RowsInOrder(w, w.drains[step.p])
    ensures RowsInOrder(Take(w, step), Take(w, step).drains[step.p])
  {
    hide Undelivered, RecordedOf;
  }

  lemma OwnHeadKeeps(w: World, step: Step)
    requires RecordsWork(step) && !step.Read? && !step.Write? && Working(w, step.p) && RowsInOrder(w, w.drains[step.p])
    ensures step.p in Take(w, step).drains && RowsInOrder(Take(w, step), Take(w, step).drains[step.p])
  {
    var d := w.drains[step.p];
    TailInOrder(w, d);
    RowStep(w, step);
    StageAfter(w, step);
    hide Take;
    var w' := Take(w, step);
    assert w'.recorded <= w.recorded + {d.pending[0]};
    if w'.drains[step.p].pending == d.pending[1..] {
      assert forall i | 0 <= i < |d.pending[1..]| ::
          d.pending[1..][i] == d.pending[i + 1] && d.pending[1..][i] != d.pending[0];
    }
  }

  lemma TailInOrder(w: World, d: Drain)
    requires RowsInOrder(w, d) && d.pending != []
    ensures Distinct(d.pending[1..]) && d.stage != Reading
    ensures forall i | 0 <= i < |d.pending[1..]| :: d.pending[1..][i] !in w.recorded && d.pending[1..][i] in d.pending
  {
    assert forall i | 0 <= i < |d.pending[1..]| :: d.pending[1..][i] == d.pending[i + 1];
  }

  /** Where a drain with a row at hand goes. */
  predicate StageMoves(w: World, w': World, p: nat)
    requires Working(w, p)
  {
    && p in w'.drains
    && var d, d', id := w.drains[p], w'.drains[p], w.drains[p].pending[0];
      && d'.stage != Reading
      && (d'.pending != d.pending ==> d'.stage == Sending(false))
      && (d'.pending == d.pending && d'.stage in {Sending(false), Sending(true), Marking} ==> id !in w'.recorded)
      && (d'.pending == d.pending && d'.stage == After ==> id in w'.recorded)
  }

  lemma StageAfter(w: World, step: Step)
    requires RecordsWork(step) && !step.Read? && !step.Write? && Working(w, step.p) && RowsInOrder(w, w.drains[step.p])
    ensures StageMoves(w, Take(w, step), step.p)
  {
    hide StageMoves, Take, RowsInOrder;
    match step
    case Resolve(_, _) => StageAfterCall(w, step);
    case Rest(_, _) => StageAfterCall(w, step);
    case Mark(_, _) => StageAfterRecord(w, step);
    case RecordFailure(_, _) => StageAfterRecord(w, step);
    case _ => StageAfterOther(w, step);
  }

  lemma StageAfterCall(w: World, step: Step)
    requires (step.Resolve? || step.Rest?) && Working(w, step.p) && RowsInOrder(w, w.drains[step.p])
    ensures StageMoves(w, Take(w, step), step.p)
  {
    hide Undelivered, RecordedOf, Distinct;
    assert |w.drains[step.p].pending[1..]| != |w.drains[step.p].pending|;
  }

  lemma StageAfterRecord(w: World, step: Step)
    requires RecordsWork(step) && (step.Mark? || step.RecordFailure?)
    requires Working(w, step.p) && RowsInOrder(w, w.drains[step.p])
    ensures StageMoves(w, Take(w, step), step.p)
  {
    hide Undelivered, RecordedOf, Distinct;
    assert |w.drains[step.p].pending[1..]| != |w.drains[step.p].pending|;
  }

  lemma StageAfterOther(w: World, step: Step)
    requires !(step.Resolve? || step.Rest? || step.Mark? || step.RecordFailure? || step.Read? || step.Write?)
    requires Working(w, step.p) && RowsInOrder(w, w.drains[step.p])
    ensures StageMoves(w, Take(w, step), step.p)
  {
    hide Undelivered, RecordedOf, Distinct;
  }

  lemma StepKeepsBounded(w: World, step: Step, id: string)
    requires Inv(w) && RecordsWork(step)
    ensures Bounded(Take(w, step), id)
  {
    hide Undelivered, Exclusive, RowsInOrder, Distinct, RecordedOf, Inv;
    assert Bounded(w, id) by { InvBounds(w, id); }
    if step.Write? || !Working(w, step.p) {
      IdleKeepsBounded(w, step, id);
    } else if Heads(w, step.p, id) {
      HeadKeepsBounded(w, step, id);
    } else {
      OtherIdKeepsBounded(w, step, id);
    }
  }

  lemma InvBounds(w: World, id: string)
    requires Inv(w)
    ensures Bounded(w, id)
  {
  }

  lemma IdleKeepsBounded(w: World, step: Step, id: string)
    requires Inv(w) && (step.Write? || !Working(w, step.p))
    ensures Bounded(Take(w, step), id)
  {
    hide Take, Inv, Trying;
    var w' := Take(w, step);
    InvBounds(w, id);
    IdleStep(w, step);
    assert forall p | Heads(w, p, id) :: Heads(w', p, id) && w'.drains[p] == w.drains[p];
    forall p | Heads(w', p, id) && id !in w'.recorded ensures Trying(w', w'.drains[p], id) {
      if !step.Write? && p == step.p {
        NewHeads(w, step, id);
        WaitingIsTrying(w, w'.drains[p], id);
      } else {
        StepTouchesOne(w, step, p);
        assert Heads(w, p, id);
      }
      TryingSame(w, w', w'.drains[p], id);
    }
  }

  lemma NewHeads(w: World, step: Step, id: string)
    requires Inv(w) && !step.Write? && !Working(w, step.p) && Heads(Take(w, step), step.p, id)
    ensures forall q :: !Heads(w, q, id)
  {
    hide Inv, Undelivered, RecordedOf, Distinct;
    assert step.Read?;
    NewHead(w, step.p, step.due, id);
  }

  /** A row a drain just picked up is at no other. */
  lemma NewHead(w: World, p: nat, due: seq<string>, id: string)
    requires Inv(w) && !Working(w, p) && Heads(Take(w, Read(p, due)), p, id)
    ensures forall q :: !Heads(w, q, id)
  {
    hide Bounded, Distinct, RecordedOf;
    var w' := Take(w, Read(p, due));
    if w' != w {
      UndeliveredIsSubset(due, RecordedOf(w, w.drains[p].session));
      assert id in w'.drains[p].pending;
      forall q ensures !Heads(w, q, id) {
        if Heads(w, q, id) { StrangerToQ(w, q, id, w.drains[p].session); }
      }
    }
  }

  lemma StrangerToQ(w: World, q: nat, id: string, session: string)
    requires Inv(w) && Heads(w, q, id) && id in w.outbox && w.outbox[id] == session
    ensures w.drains[q].session == session
  {
    hide Bounded, Distinct;
    assert RowsInOrder(w, w.drains[q]);
    assert id in w.drains[q].pending;
  }

  lemma HeadKeepsBounded(w: World, step: Step, id: string)
    requires Inv(w) && RecordsWork(step) && !step.Write? && Heads(w, step.p, id)
    ensures Bounded(Take(w, step), id)
  {
    hide Undelivered, RecordedOf, Exclusive, Inv, Take;
    var p := step.p;
    var d := w.drains[p];
    assert Bounded(w, id) && RowsInOrder(w, d) by { InvBounds(w, id); InvRows(w, p); }
    var w' := Take(w, step);
    HeadStep(w, step, id);
    forall q | q != p ensures !Heads(w', q, id) {
      StepTouchesOne(w, step, q);
      if Heads(w', q, id) { OneHead(w, p, q, id); }
    }
    if w'.drains[p].pending == d.pending {
      assert Heads(w', p, id);
    }
  }

  lemma InvRows(w: World, p: nat)
    requires Inv(w) && p in w.drains
    ensures RowsInOrder(w, w.drains[p])
  {
  }

  /** What a step at the head row may come to. */
  predicate HeadGoes(w: World, w': World, p: nat, id: string)
    requires p in w.drains && w.drains[p].pending != []
  {
    var pending := w.drains[p].pending;
    && p in w'.drains
    && (id in w'.recorded ==> Count(w'.sends, id) <= MAX_DELIVERY_ATTEMPTS)
    && (w'.drains[p].pending == pending || (w'.drains[p].pending == pending[1..] && !Heads(w', p, id)))
    && (id !in w'.recorded && w'.drains[p].pending == pending ==> Trying(w', w'.drains[p], id))
    && (id !in w'.recorded && w'.drains[p].pending != pending ==> Waiting(w', id))
  }

  /** One step at the head row. */
  lemma HeadStep(w: World, step: Step, id: string)
    requires !step.Write? && RecordsWork(step) && Heads(w, step.p, id) && RowsInOrder(w, w.drains[step.p])
    requires id in w.recorded ==> Count(w.sends, id) <= MAX_DELIVERY_ATTEMPTS
    requires id !in w.recorded ==> Trying(w, w.drains[step.p], id)
    ensures HeadGoes(w, Take(w, step), step.p, id)
  {
    hide Undelivered, RecordedOf, Distinct, HeadGoes, Caught, Stay, Next, Noted, Leave;
    var p := step.p;
    var d := w.drains[p];
    NotTwice(w, d);
    hide RowsInOrder;
    StayGoes(w, w, p, id, d.stage);
    assert Stay(w, p, d.stage) == w by { StayPut(w, p); }
    match step
    case Reach(_) =>
      if d.stage == Sending(false) {
        StayGoes(w, w.(sends := w.sends[id := Count(w.sends, id) + 1]), p, id, Sending(true));
      }
    case Resolve(_, ok) =>
      if d.stage.Sending? {
        if ok { StayGoes(w, w, p, id, Marking); } else { CaughtGoes(w, p, id); }
      }
    case Mark(_, outcome) =>
      if d.stage == Marking {
        if outcome == Threw { CaughtGoes(w, p, id); } else { NotedGoes(w, p, id); }
      }
    case Rest(_, ok) =>
      if d.stage == After {
        if ok { NextGoes(w, w, p, id); } else { CaughtGoes(w, p, id); }
      }
    case RecordFailure(_, outcome) =>
      if d.stage == GivingUp { NextGoes(w, w.(recorded := w.recorded + {id}, attempts := w.attempts - {id}), p, id); }
    case _ =>
  }

  lemma StayPut(w: World, p: nat)
    requires p in w.drains
    ensures Stay(w, p, w.drains[p].stage) == w
  {
    assert w.drains[p := w.drains[p].(stage := w.drains[p].stage)] == w.drains;
  }

  lemma StayGoes(w: World, w1: World, p: nat, id: string, stage: Stage)
    requires Heads(w, p, id) && w1 == w.(sends := w1.sends)
    requires id in w.recorded ==> Count(w1.sends, id) <= MAX_DELIVERY_ATTEMPTS
    requires id !in w.recorded ==> Trying(w1, w.drains[p].(stage := stage), id)
    ensures HeadGoes(w, Stay(w1, p, stage), p, id)
  {
  }

  lemma NextGoes(w: World, w1: World, p: nat, id: string)
    requires Heads(w, p, id) && w1.drains == w.drains && (|w.drains[p].pending| > 1 ==> w.drains[p].pending[1] != id)
    requires id in w1.recorded && Count(w1.sends, id) <= MAX_DELIVERY_ATTEMPTS
    ensures HeadGoes(w, Next(w1, p), p, id)
  {
  }

  lemma NotedGoes(w: World, p: nat, id: string)
    requires Heads(w, p, id) && Count(w.sends, id) <= MAX_DELIVERY_ATTEMPTS
    ensures HeadGoes(w, Noted(w.(recorded := w.recorded + {id}), p), p, id)
  {
  }

  lemma CaughtGoes(w: World, p: nat, id: string)
    requires Heads(w, p, id) && (|w.drains[p].pending| > 1 ==> w.drains[p].pending[1] != id)
    requires id in w.recorded ==> Count(w.sends, id) <= MAX_DELIVERY_ATTEMPTS
    requires id !in w.recorded ==>
            Count(w.attempts, id) < MAX_DELIVERY_ATTEMPTS && Count(w.sends, id) <= Count(w.attempts, id) + 1
    ensures HeadGoes(w, Caught(w, p), p, id)
  {
    var attempts := Count(w.attempts, id) + 1;
    var w1 := w.(attempts := w.attempts[id := attempts]);
    assert |w.drains[p].pending[1..]| < |w.drains[p].pending|;
    if attempts >= MAX_DELIVERY_ATTEMPTS {
      assert Caught(w, p) == Stay(w1, p, GivingUp);
    } else {
      assert Caught(w, p) == Next(w1, p);
    }
  }

  lemma NotTwice(w: World, d: Drain)
    requires RowsInOrder(w, d) && d.pending != []
    ensures d.stage != Reading && (d.stage == After ==> d.pending[0] in w.recorded)
    ensures d.stage in {Sending(false), Sending(true), Marking} ==> d.pending[0] !in w.recorded
    ensures |d.pending| > 1 ==> d.pending[1] != d.pending[0]
  {
  }

  lemma OtherIdKeepsBounded(w: World, step: Step, id: string)
    requires Inv(w) && !step.Write? && Working(w, step.p) && !Heads(w, step.p, id)
    ensures Bounded(Take(w, step), id)
  {
    hide Undelivered, Distinct, RecordedOf, Exclusive, Inv, Take, Trying, RowsInOrder;
    var w' := Take(w, step);
    var p := step.p;
    var d := w.drains[p];
    InvBounds(w, id);
    OtherIdSame(w, step, id);
    forall q | q != p
      ensures (Heads(w', q, id) <==> Heads(w, q, id)) && (Heads(w, q, id) ==> w'.drains[q] == w.drains[q])
    {
      StepTouchesOne(w, step, q);
    }
    if Heads(w', p, id) {
      forall q ensures !Heads(w, q, id) {
        if Heads(w, q, id) { SameSession(w, p, q, id); }
      }
      assert Waiting(w, id) || id in w.recorded;
      WaitingIsTrying(w, w'.drains[p], id);
    }
    forall q | Heads(w', q, id) && id !in w'.recorded ensures Trying(w', w'.drains[q], id) {
      if q != p {
        assert Heads(w, q, id);
        TryingSame(w, w', w.drains[q], id);
      } else {
        TryingSame(w, w', w'.drains[p], id);
      }
    }
  }

  lemma WaitingIsTrying(w: World, d: Drain, id: string)
    requires Waiting(w, id)
    ensures Trying(w, d, id)
  {
  }

  lemma TryingSame(w: World, w': World, d: Drain, id: string)
    requires Count(w'.sends, id) == Count(w.sends, id) && Count(w'.attempts, id) == Count(w.attempts, id)
    ensures Trying(w, d, id) == Trying(w', d, id)
  {
  }

  lemma OtherIdSame(w: World, step: Step, id: string)
    requires Inv(w) && !step.Write? && Working(w, step.p) && !Heads(w, step.p, id)
    ensures var w' := Take(w, step);
      && (id in w'.recorded <==> id in w.recorded)
      && Count(w'.sends, id) == Count(w.sends, id)
      && Count(w'.attempts, id) == Count(w.attempts, id)
      && (Heads(w', step.p, id) ==> id in w.drains[step.p].pending && id !in w.recorded)
  {
    hide Take, Inv, Distinct;
    var d := w.drains[step.p];
    InvRows(w, step.p);
    assert |d.pending| > 1 ==> d.pending[1] in d.pending && d.pending[1] !in w.recorded;
    RowStep(w, step);
    hide RowsInOrder, Heads;
    NotHead(w, step.p, id);
    HeadOfTail(Take(w, step), step.p, d.pending, id);
  }

  lemma NotHead(w: World, p: nat, id: string)
    requires Working(w, p) && !Heads(w, p, id)
    ensures w.drains[p].pending[0] != id
  {
  }

  lemma HeadOfTail(w: World, p: nat, pending: seq<string>, id: string)
    requires p in w.drains && pending != [] && (w.drains[p].pending == pending || w.drains[p].pending == pending[1..])
    requires pending[0] != id
    ensures Heads(w, p, id) ==> |pending| > 1 && id == pending[1]
  {
  }

  lemma SameSession(w: World, p: nat, q: nat, id: string)
    requires Inv(w) && p in w.drains && id in w.drains[p].pending && Heads(w, q, id)
    ensures p == q
  {
    hide Bounded;
    assert id in w.drains[q].pending;
    assert RowsInOrder(w, w.drains[p]) && RowsInOrder(w, w.drains[q]);
  }

  lemma StepKeepsInv(w: World, step: Step)
    requires Inv(w) && RecordsWork(step)
    ensures Inv(Take(w, step))
  {
    hide Bounded, Exclusive, Distinct, Undelivered, RecordedOf;
    StepKeepsExclusive(w, step);
    if step.Read? { ReadKeepsRows(w, step.p, step.due); } else { StepKeepsRows(w, step); }
    forall id ensures Bounded(Take(w, step), id) { StepKeepsBounded(w, step, id); }
    if !step.Write? && Working(w, step.p) {
      assert w.drains[step.p].pending[0] in w.drains[step.p].pending;
      assert RowsInOrder(w, w.drains[step.p]);
    }
  }

  lemma {:induction false} RunKeepsInv(w: World, steps: seq<Step>)
    requires Inv(w) && forall step | step in steps :: RecordsWork(step)
    ensures Inv(Run(w, steps))
    decreases |steps|
  {
    hide Take, Inv, RecordsWork;
    if steps != [] {
      assert steps[0] in steps;
      StepKeepsInv(w, steps[0]);
      RunKeepsInv(Take(w, steps[0]), steps[1..]);
    }
  }

  lemma StartIsInv(outbox: map<string, string>, recorded: set<string>)
    requires recorded <= outbox.Keys
    ensures Inv(Start(outbox, recorded))
  {
  }

  /** However the pollers interleave and whatever throws, no row reaches the adapter more
      than three times in the life of a process. */
  lemma AtMostThreeSends(outbox: map<string, string>, recorded: set<string>, steps: seq<Step>, id: string)
    requires recorded <= outbox.Keys && forall step | step in steps :: RecordsWork(step)
    ensures Count(Run(Start(outbox, recorded), steps).sends, id) <= MAX_DELIVERY_ATTEMPTS
  {
    hide Take, RecordsWork, RowsInOrder, Exclusive;
    StartIsInv(outbox, recorded);
    RunKeepsInv(Start(outbox, recorded), steps);
    var w := Run(Start(outbox, recorded), steps);
    assert Bounded(w, id);
    if id !in w.recorded && exists p :: Heads(w, p, id) {
      var p :| Heads(w, p, id);
      assert Trying(w, w.drains[p], id);
      HeadIsTried(w, p);
    }
  }

  lemma HeadIsTried(w: World, p: nat)
    requires Inv(w) && Working(w, p)
    ensures w.drains[p].stage != Reading
    ensures w.drains[p].stage == After ==> w.drains[p].pending[0] in w.recorded
  {
    hide Bounded, Exclusive, Distinct;
    assert RowsInOrder(w, w.drains[p]);
  }

  // ----- once recorded, never again -------------------------------------------

  lemma RecordedStays(w: World, step: Step, id: string)
    requires Inv(w) && id in w.recorded
    ensures var w' := Take(w, step); id in w'.recorded && Count(w'.sends, id) == Count(w.sends, id)
  {
    hide Undelivered, Distinct, RecordedOf, Bounded, Exclusive;
    if step.Reach? && Working(w, step.p) { assert RowsInOrder(w, w.drains[step.p]); }
  }

  lemma {:induction false} RecordedIsFinal(w: World, steps: seq<Step>, id: string)
    requires Inv(w) && id in w.recorded && forall step | step in steps :: RecordsWork(step)
    ensures Count(Run(w, steps).sends, id) == Count(w.sends, id)
    decreases |steps|
  {
    hide Take, Inv, RecordsWork;
    if steps != [] {
      assert steps[0] in steps;
      StepKeepsInv(w, steps[0]);
      RecordedStays(w, steps[0], id);
      RecordedIsFinal(Take(w, steps[0]), steps[1..], id);
    }
  }

  predicate NotBy(p: nat, steps: seq<Step>) {
    forall step | step in steps :: step.Write? || step.p != p
  }

  /** While others work, a drain and the sends of the row it is at stand still. */
  lemma {:induction false} OthersLeaveMyRow(w: World, steps: seq<Step>, p: nat)
    requires Inv(w) && Working(w, p) && NotBy(p, steps) && forall step | step in steps :: RecordsWork(step)
    ensures var w' := Run(w, steps); var id := w.drains[p].pending[0];
      Inv(w') && p in w'.drains && w'.drains[p] == w.drains[p] && Count(w'.sends, id) == Count(w.sends, id)
    decreases |steps|
  {
    hide Inv, RecordsWork, Take;
    if steps != [] {
      var step := steps[0];
      assert step in steps;
      StepKeepsInv(w, step);
      StepTouchesOne(w, step, p);
      OthersSendTheirOwn(w, step, p);
      OthersLeaveMyRow(Take(w, step), steps[1..], p);
    }
  }

  lemma OthersSendTheirOwn(w: World, step: Step, p: nat)
    requires Inv(w) && Working(w, p) && (step.Write? || step.p != p)
    ensures var id := w.drains[p].pending[0]; Count(Take(w, step).sends, id) == Count(w.sends, id)
  {
    hide Undelivered, Distinct, RecordedOf, Bounded, RowsInOrder, Exclusive, Inv;
    if step.Reach? && Working(w, step.p) && w.drains[step.p].pending[0] == w.drains[p].pending[0] {
      OneHead(w, p, step.p, w.drains[p].pending[0]);
    }
  }

  lemma PartsWork(a: seq<Step>, b: seq<Step>, c: seq<Step>)
    requires forall step | step in a + b + c :: RecordsWork(step)
    ensures (forall s | s in a :: RecordsWork(s)) && (forall s | s in b :: RecordsWork(s))
    ensures forall s | s in c :: RecordsWork(s)
  {
    hide RecordsWork;
    assert forall s | s in a + b :: s in a + b + c;
  }

  /** A row whose first send and its record succeed is sent exactly once, whatever the
      others do in between and whatever happens for the rest of the run. */
  lemma ExactlyOnce(w: World, p: nat, others1: seq<Step>, others2: seq<Step>, rest: seq<Step>)
    requires Inv(w) && Working(w, p) && w.drains[p].stage == Sending(false)
    requires Count(w.sends, w.drains[p].pending[0]) == 0
    requires NotBy(p, others1) && NotBy(p, others2)
    requires forall step | step in others1 + others2 + rest :: RecordsWork(step)
    ensures var id := w.drains[p].pending[0];
      var sent := Take(Run(Take(w, Reach(p)), others1), Resolve(p, true));
      Count(Run(Take(Run(sent, others2), Mark(p, Recorded)), rest).sends, id) == 1
  {
    hide Inv, RecordsWork, Run, Undelivered, Distinct, RecordedOf;
    var id := w.drains[p].pending[0];
    PartsWork(others1, others2, rest);
    PlainStepsWork(p);
    var w1 := Take(w, Reach(p));
    StepKeepsInv(w, Reach(p));
    OthersLeaveMyRow(w1, others1, p);
    var w2 := Run(w1, others1);
    var w3 := Take(w2, Resolve(p, true));
    StepKeepsInv(w2, Resolve(p, true));
    OthersLeaveMyRow(w3, others2, p);
    var w4 := Run(w3, others2);
    StepKeepsInv(w4, Mark(p, Recorded));
    RecordedIsFinal(Take(w4, Mark(p, Recorded)), rest, id);
  }

  lemma PlainStepsWork(p: nat)
    ensures RecordsWork(Reach(p)) && RecordsWork(Resolve(p, true)) && RecordsWork(Mark(p, Recorded))
  {
  }

  // ----- the first delivery ---------------------------------------------------

  /** If a session had its first delivery, the table holds a row of it and so does the
      local set of whoever drains it. */
  predicate FirstNoted(w: World, session: string) {
    && Count(w.firsts, session) <= 1
    && (Count(w.firsts, session) == 1 ==>
          && RecordedOf(w, session) != {}
          && forall p | p in w.drains && w.drains[p].session == session && w.drains[p].stage != Reading ::
               w.drains[p].delivered != {})
  }

  lemma StepKeepsFirst(w: World, step: Step, session: string)
    requires Inv(w) && RecordsWork(step) && FirstNoted(w, session)
    ensures FirstNoted(Take(w, step), session)
  {
    hide Undelivered, Distinct, Bounded, RowsInOrder, Inv;
    if step.Mark? && Working(w, step.p) && w.drains[step.p].stage == Marking {
      HeadIsMine(w, step.p);
      MarkKeepsFirst(w, step.p, step.outcome, session);
    } else if step.Write? || step.Enter? || step.Read? || step.Quit? || step.Finish? {
      EdgeKeepsFirst(w, step, session);
    } else {
      InnerKeepsFirst(w, step, session);
    }
  }

  lemma HeadIsMine(w: World, p: nat)
    requires Inv(w) && Working(w, p)
    ensures w.drains[p].pending[0] in w.outbox && w.outbox[w.drains[p].pending[0]] == w.drains[p].session
    ensures Exclusive(w)
  {
    hide Bounded, Distinct;
    assert RowsInOrder(w, w.drains[p]) && w.drains[p].pending[0] in w.drains[p].pending;
  }

  lemma MarkKeepsFirst(w: World, p: nat, outcome: Outcome, session: string)
    requires Exclusive(w) && outcome != Gone && FirstNoted(w, session) && Working(w, p) && w.drains[p].stage == Marking
    requires w.drains[p].pending[0] in w.outbox && w.outbox[w.drains[p].pending[0]] == w.drains[p].session
    ensures FirstNoted(Take(w, Mark(p, outcome)), session)
  {
    hide Undelivered, Distinct;
    var w' := Take(w, Mark(p, outcome));
    assert forall id | id in RecordedOf(w, session) :: id in RecordedOf(w', session);
    if outcome == Recorded { assert w.drains[p].pending[0] in RecordedOf(w', w.drains[p].session); }
  }

  lemma EdgeKeepsFirst(w: World, step: Step, session: string)
    requires FirstNoted(w, session) && (step.Write? || step.Enter? || step.Read? || step.Quit? || step.Finish?)
    ensures FirstNoted(Take(w, step), session)
  {
    hide Undelivered, Distinct;
    var w' := Take(w, step);
    assert forall id | id in RecordedOf(w, session) :: id in RecordedOf(w', session);
  }

  lemma InnerKeepsFirst(w: World, step: Step, session: string)
    requires FirstNoted(w, session)
    requires step.Reach? || step.Resolve? || step.Rest? || step.RecordFailure? ||
            (step.Mark? && !(Working(w, step.p) && w.drains[step.p].stage == Marking))
    ensures FirstNoted(Take(w, step), session)
  {
    var w' := Take(w, step);
    InnerStep(w, step);
    hide Take;
    assert forall id | id in RecordedOf(w, session) :: id in RecordedOf(w', session);
    hide RecordedOf;
    forall p | p in w'.drains && w'.drains[p].stage != Reading
      ensures p in w.drains && w'.drains[p].session == w.drains[p].session &&
              w'.drains[p].delivered == w.drains[p].delivered && w.drains[p].stage != Reading
    {
      if p != step.p { StepTouchesOne(w, step, p); }
    }
  }

  predicate Inner(w: World, w': World, p: nat) {
    && w'.firsts == w.firsts && w'.outbox == w.outbox && w.recorded <= w'.recorded
    && (p in w'.drains ==> p in w.drains && var d, d' := w.drains[p], w'.drains[p];
          d'.session == d.session && d'.delivered == d.delivered && (d.stage == Reading ==> d' == d))
  }

  lemma InnerStep(w: World, step: Step)
    requires step.Reach? || step.Resolve? || step.Rest? || step.RecordFailure? ||
            (step.Mark? && !(Working(w, step.p) && w.drains[step.p].stage == Marking))
    ensures Inner(w, Take(w, step), step.p)
  {
    hide Caught, Next, Stay;
    if Working(w, step.p) {
      var p := step.p;
      CaughtIsQuiet(w, p);
      match step
      case Reach(_) =>
        var id := w.drains[p].pending[0];
        StayIsQuiet(w.(sends := w.sends[id := Count(w.sends, id) + 1]), p, Sending(true));
      case Resolve(_, _) => StayIsQuiet(w, p, Marking);
      case Rest(_, _) => NextIsQuiet(w, p);
      case RecordFailure(_, _) => InnerRecord(w, step);
      case _ =>
    }
  }

  lemma InnerRecord(w: World, step: Step)
    requires step.RecordFailure? && Working(w, step.p)
    ensures Inner(w, Take(w, step), step.p)
  {
    hide Caught, Next, Stay;
    var p, id := step.p, w.drains[step.p].pending[0];
    NextIsQuiet(w.(recorded := w.recorded + {id}, attempts := w.attempts - {id}), p);
    NextIsQuiet(w.(attempts := w.attempts - {id}), p);
    NextIsQuiet(w, p);
  }

  predicate Quiet(w: World, w': World, p: nat)
    requires p in w.drains
  {
    && w'.firsts == w.firsts && w'.outbox == w.outbox && w'.recorded == w.recorded && p in w'.drains
    && w'.drains[p].session == w.drains[p].session && w'.drains[p].delivered == w.drains[p].delivered
  }

  lemma CaughtIsQuiet(w: World, p: nat)
    requires Working(w, p)
    ensures Quiet(w, Caught(w, p), p)
  {
  }

  lemma NextIsQuiet(w: World, p: nat)
    requires Working(w, p)
    ensures Quiet(w, Next(w, p), p)
  {
  }

  lemma StayIsQuiet(w: World, p: nat, stage: Stage)
    requires p in w.drains
    ensures Quiet(w, Stay(w, p, stage), p) && Stay(w, p, stage).sends == w.sends
  {
  }

  lemma {:induction false} RunKeepsFirst(w: World, steps: seq<Step>, session: string)
    requires Inv(w) && FirstNoted(w, session) && forall step | step in steps :: RecordsWork(step)
    ensures FirstNoted(Run(w, steps), session)
    decreases |steps|
  {
    hide Take, Inv, RecordsWork, FirstNoted;
    if steps != [] {
      assert steps[0] in steps;
      StepKeepsInv(w, steps[0]);
      StepKeepsFirst(w, steps[0], session);
      RunKeepsFirst(Take(w, steps[0]), steps[1..], session);
    }
  }

  /** At most one row of a session is ever its first delivery, and none is when the
      session has recorded rows from before. */
  lemma AtMostOneFirst(outbox: map<string, string>, recorded: set<string>, steps: seq<Step>, session: string)
    requires recorded <= outbox.Keys && forall step | step in steps :: RecordsWork(step)
    ensures Count(Run(Start(outbox, recorded), steps).firsts, session) <= 1
  {
    hide Take, RecordsWork, Inv;
    StartIsInv(outbox, recorded);
    RunKeepsFirst(Start(outbox, recorded), steps, session);
  }

  // ----- the limit is exact ---------------------------------------------------

  /** The outcomes `RecordsWork` rules out: a delivery or a permanent failure whose record
      is skipped because the mailbox is gone, and a failure whose record throws. */
  datatype Fault = LostMark | LostFailure | FailedFailure

  predicate Within(step: Step, faults: set<Fault>) {
    && (step.Mark? && step.outcome == Gone ==> LostMark in faults)
    && (step.RecordFailure? && step.outcome == Gone ==> LostFailure in faults)
    && (step.RecordFailure? && step.outcome == Threw ==> FailedFailure in faults)
  }

  /** A poll of the only row, at which the fault strikes if it can. */
  function Poll(f: Fault, id: string, session: string): seq<Step> {
    [Enter(0, session), Read(0, [id]), Reach(0), Resolve(0, f.LostMark?)] + PollEnd(f)
  }

  function PollEnd(f: Fault): seq<Step> {
    match f
    case LostMark => [Mark(0, Gone), Rest(0, true), Finish(0)]
    case LostFailure => [RecordFailure(0, Gone), Finish(0)]
    case FailedFailure => [RecordFailure(0, Threw), Finish(0)]
  }

  function Polls(k: nat, f: Fault, id: string, session: string): seq<Step> {
    if k == 0 then [] else Poll(f, id, session) + Polls(k - 1, f, id, session)
  }

  predicate AtRest(w: World, id: string, session: string) {
    w.outbox == map[id := session] && w.recorded == {} && w.drains == map[] && w.inflight == {}
  }

  /** With any one of the faults, every poll sends the row again. */
  lemma {:induction false} PollsSendAgain(w: World, k: nat, f: Fault, id: string, session: string)
    requires AtRest(w, id, session)
    ensures Count(Run(w, Polls(k, f, id, session)).sends, id) == Count(w.sends, id) + k
    ensures forall step | step in Polls(k, f, id, session) :: Within(step, {f})
    decreases k
  {
    hide Poll, Run, AtRest;
    if k == 0 {
      NoSteps(w);
    } else {
      var w' := PollSends(w, f, id, session);
      RunSplit(w, Poll(f, id, session), Polls(k - 1, f, id, session));
      PollsSendAgain(w', k - 1, f, id, session);
      PollIsWithin(f, id, session);
    }
  }

  lemma NoSteps(w: World)
    ensures Run(w, []) == w
  {
  }

  lemma PollIsWithin(f: Fault, id: string, session: string)
    ensures forall step | step in Poll(f, id, session) :: Within(step, {f})
  {
  }

  lemma PollReaches(w: World, id: string, session: string)
    requires AtRest(w, id, session)
    ensures Take(Take(Take(w, Enter(0, session)), Read(0, [id])), Reach(0)) ==
            w.(inflight := {session}, sends := w.sends[id := Count(w.sends, id) + 1],
               drains := map[0 := Drain(session, {}, [id], Sending(true))])
  {
    hide Undelivered, RecordedOf, Distinct, Caught, Noted, Next;
    var w1 := Take(w, Enter(0, session));
    assert w1 == w.(inflight := {session}, drains := map[0 := Drain(session, {}, [], Reading)]);
    FirstRead(w1, id, session);
  }

  lemma PollSends(w: World, f: Fault, id: string, session: string) returns (w': World)
    requires AtRest(w, id, session)
    ensures w' == Run(w, Poll(f, id, session)) && AtRest(w', id, session)
    ensures Count(w'.sends, id) == Count(w.sends, id) + 1
  {
    hide Take, Run;
    PollReaches(w, id, session);
    var w3 := Take(Take(Take(w, Enter(0, session)), Read(0, [id])), Reach(0));
    FourSteps(w, Enter(0, session), Read(0, [id]), Reach(0), Resolve(0, f.LostMark?));
    var w4 := Take(w3, Resolve(0, f.LostMark?));
    if f.LostMark? { w' := LostMarkEnds(w3, id, session); } else { w' := LostFailureEnds(w3, f, id, session); }
    RunSplit(w, [Enter(0, session), Read(0, [id]), Reach(0), Resolve(0, f.LostMark?)], PollEnd(f));
    EndSteps(w4, PollEnd(f));
  }

  lemma LostMarkEnds(w: World, id: string, session: string) returns (w': World)
    requires w.drains == map[0 := Drain(session, {}, [id], Sending(true))] && w.inflight == {session}
    ensures w' == Take(Take(Take(Take(w, Resolve(0, true)), Mark(0, Gone)), Rest(0, true)), Finish(0))
    ensures w'.drains == map[] && w'.inflight == {} && w'.sends == w.sends
    ensures w'.outbox == w.outbox && w'.recorded == w.recorded
  {
    var w1 := Take(w, Resolve(0, true));
    assert w1 == w.(drains := map[0 := Drain(session, {}, [id], Marking)]) by {
      hide Undelivered, RecordedOf, Distinct, Caught, Noted;
    }
    hide Take;
    GoneIsNoted(w1, id, session);
    var w2 := Take(w1, Mark(0, Gone));
    RestEnds(w2, id, session);
    w' := Take(Take(w2, Rest(0, true)), Finish(0));
  }

  lemma GoneIsNoted(w: World, id: string, session: string)
    requires w.drains == map[0 := Drain(session, {}, [id], Marking)]
    ensures var w' := Take(w, Mark(0, Gone));
      w' == w.(drains := map[0 := Drain(session, {id}, [id], After)], attempts := w'.attempts, firsts := w'.firsts)
  {
    hide Undelivered, RecordedOf, Distinct, Caught;
    var none: set<string> := {};
    assert none + {id} == {id};
  }

  lemma RestEnds(w: World, id: string, session: string)
    requires w.drains == map[0 := Drain(session, {id}, [id], After)] && w.inflight == {session}
    ensures Take(Take(w, Rest(0, true)), Finish(0)) == w.(inflight := {}, drains := map[])
  {
    hide Undelivered, RecordedOf, Distinct, Caught, Noted;
    assert [id][1..] == [];
    var w1 := Take(w, Rest(0, true));
    assert w1 == w.(drains := map[0 := Drain(session, {id}, [], Sending(false))]);
    assert w1.drains - {0} == map[];
  }

  lemma LostFailureEnds(w: World, f: Fault, id: string, session: string) returns (w': World)
    requires w.drains == map[0 := Drain(session, {}, [id], Sending(true))] && w.inflight == {session} && !f.LostMark?
    ensures w' == Take(Take(Take(w, Resolve(0, false)), PollEnd(f)[0]), Finish(0))
    ensures w'.drains == map[] && w'.inflight == {} && w'.sends == w.sends
    ensures w'.outbox == w.outbox && w'.recorded == w.recorded
  {
    hide Undelivered, RecordedOf, Distinct;
    var w1 := Take(w, Resolve(0, false));
    assert w1 == Caught(w, 0);
    CaughtAgain(w, id, session);
    hide Caught, Take;
    var outcome := if f.LostFailure? then Gone else Threw;
    assert PollEnd(f)[0] == RecordFailure(0, outcome);
    var w2 := Take(w1, RecordFailure(0, outcome));
    FailureEnds(w1, outcome, id, session);
    w' := Take(w2, Finish(0));
    LeaveAtRest(w2, session);
  }

  lemma FailureEnds(w: World, outcome: Outcome, id: string, session: string)
    requires outcome != Recorded
    requires || w.drains == map[0 := Drain(session, {}, [], Sending(false))]
             || w.drains == map[0 := Drain(session, {}, [id], GivingUp)]
    ensures var w' := Take(w, RecordFailure(0, outcome));
      w' == w.(drains := map[0 := Drain(session, {}, [], Sending(false))], attempts := w'.attempts)
  {
    hide Undelivered, RecordedOf, Distinct, Caught, Noted;
    assert [id][1..] == [];
  }

  lemma LeaveAtRest(w: World, session: string)
    requires w.drains == map[0 := Drain(session, {}, [], Sending(false))] && w.inflight == {session}
    ensures Take(w, Finish(0)) == w.(inflight := {}, drains := map[])
  {
    hide Undelivered, RecordedOf, Distinct, Caught, Noted;
    assert w.drains - {0} == map[];
  }

  lemma CaughtAgain(w: World, id: string, session: string)
    requires w.drains == map[0 := Drain(session, {}, [id], Sending(true))]
    ensures var n := Count(w.attempts, id);
      var d := if n < 2 then Drain(session, {}, [], Sending(false)) else Drain(session, {}, [id], GivingUp);
      Caught(w, 0) == w.(attempts := w.attempts[id := n + 1], drains := map[0 := d])
  {
    assert [id][1..] == [];
  }

  lemma FirstRead(w: World, id: string, session: string)
    requires w.outbox == map[id := session] && w.recorded == {} && w.drains == map[0 := Drain(session, {}, [], Reading)]
    ensures Take(w, Read(0, [id])) == w.(drains := map[0 := Drain(session, {}, [id], Sending(false))])
  {
    assert RecordedOf(w, session) == {};
    assert Undelivered([id], {}) == [id] by { assert Undelivered([id][1..], {}) == []; }
  }

  lemma EndSteps(w: World, steps: seq<Step>)
    ensures |steps| == 2 ==> Run(w, steps) == Take(Take(w, steps[0]), steps[1])
    ensures |steps| == 3 ==> Run(w, steps) == Take(Take(Take(w, steps[0]), steps[1]), steps[2])
  {
    hide Take;
    if |steps| == 2 {
      assert steps[1..] == [steps[1]] && [steps[1]][1..] == [];
      assert Run(Take(w, steps[0]), [steps[1]]) == Take(Take(w, steps[0]), steps[1]);
    } else if |steps| == 3 {
      assert steps[1..] == [steps[1], steps[2]] && [steps[1], steps[2]][1..] == [steps[2]] && [steps[2]][1..] == [];
      var w1 := Take(w, steps[0]);
      assert Run(Take(w1, steps[1]), [steps[2]]) == Take(Take(w1, steps[1]), steps[2]);
      assert Run(w1, [steps[1], steps[2]]) == Take(Take(w1, steps[1]), steps[2]);
    }
  }

  lemma FourSteps(w: World, a: Step, b: Step, c: Step, d: Step)
    ensures Run(w, [a, b, c, d]) == Take(Take(Take(Take(w, a), b), c), d)
  {
    hide Take;
    assert [a, b, c, d] == [a, b] + [c, d];
    RunSplit(w, [a, b], [c, d]);
    EndSteps(w, [a, b]);
    EndSteps(Take(Take(w, a), b), [c, d]);
  }

  /** Any one of the faults is enough for a row to be sent as often as it is polled. */
  lemma UnrecordedFailureIsSentAgain(f: Fault, k: nat, id: string, session: string)
    ensures var steps := Polls(k, f, id, session);
      && (forall step | step in steps :: Within(step, {f}))
      && Count(Run(Start(map[id := session], {}), steps).sends, id) == k
  {
    PollsSendAgain(Start(map[id := session], {}), k, f, id, session);
  }

  /** No row is ever sent more than three times. */
  ghost predicate AlwaysLimited(faults: set<Fault>) {
    forall outbox: map<string, string>, recorded, steps, id | recorded <= outbox.Keys && WithinAll(steps, faults) ::
      Count(Run(Start(outbox, recorded), steps).sends, id) <= MAX_DELIVERY_ATTEMPTS
  }

  predicate WithinAll(steps: seq<Step>, faults: set<Fault>) {
    forall step | step in steps :: Within(step, faults)
  }

  /** The limit holds over all runs if and only if none of the three faults can occur. */
  lemma SendLimitIsExact(faults: set<Fault>)
    ensures AlwaysLimited(faults) <==> faults == {}
  {
    hide Run, Polls;
    if faults == {} {
      forall outbox: map<string, string>, recorded, steps, id | recorded <= outbox.Keys && WithinAll(steps, faults)
        ensures Count(Run(Start(outbox, recorded), steps).sends, id) <= MAX_DELIVERY_ATTEMPTS
      {
        forall step | step in steps ensures RecordsWork(step) { assert Within(step, faults); }
        AtMostThreeSends(outbox, recorded, steps, id);
      }
    } else {
      var f :| f in faults;
      UnrecordedFailureIsSentAgain(f, 4, "m", "s");
      var steps := Polls(4, f, "m", "s");
      assert WithinAll(steps, faults);
      assert {} <= map["m" := "s"].Keys;
      assert Count(Run(Start(map["m" := "s"], {}), steps).sends, "m") == 4;
    }
  }
}
