/** The host sweep: when a running container is stuck, and how its rows are retried. */
module HostSweep {
  import opened Text

  const ABSOLUTE_CEILING_MS := 30 * 60 * 1000
  const CLAIM_STUCK_MS := 60 * 1000
  const MAX_TRIES := 5
  const BACKOFF_BASE_MS := 5000

  // ----- the decision ---------------------------------------------------------

  /** A claim and when it was made; `None` when the time does not parse. */
  datatype Claim = Claim(messageId: string, at: Option<int>)

  datatype ContainerState = ContainerState(currentTool: string, declaredTimeoutMs: Option<int>)

  datatype StuckDecision =
    | Fine
    | KillCeiling(heartbeatAgeMs: int, ceilingMs: int)
    | KillClaim(messageId: string, claimAgeMs: int, toleranceMs: int)

  /** What the sweep sees; a heartbeat of 0 is a missing file. */
  datatype Signs = Signs(now: int, heartbeat: int, started: Option<int>, state: Option<ContainerState>,
      claims: seq<Claim>)

  function Max(a: int, b: int): int {
    if a < b then b else a
  }

  /** `bashTimeoutMs`, with `?? 0` applied. */
  function DeclaredBashMs(state: Option<ContainerState>): int {
    if state.Some? && state.value.currentTool == "Bash" && state.value.declaredTimeoutMs.Some?
    then state.value.declaredTimeoutMs.value else 0
  }

  function LastSign(s: Signs): int {
    if s.heartbeat != 0 then s.heartbeat else if s.started.Some? then s.started.value else 0
  }

  function Ceiling(s: Signs): int {
    Max(ABSOLUTE_CEILING_MS, DeclaredBashMs(s.state))
  }

  function Tolerance(s: Signs): int {
    Max(CLAIM_STUCK_MS, DeclaredBashMs(s.state))
  }

  /** No sign of life for longer than the ceiling; no sign at all does not count. */
  predicate PastCeiling(s: Signs) {
    LastSign(s) != 0 && s.now - LastSign(s) > Ceiling(s)
  }

  /** A claim older than the tolerance with no heartbeat after it. */
  predicate Stuck(s: Signs, claim: Claim) {
    claim.at.Some? && s.now - claim.at.value > Tolerance(s) && s.heartbeat <= claim.at.value
  }

  /** The claim a kill is blamed on: the first stuck one. */
  predicate FirstStuck(s: Signs, i: nat) {
    i < |s.claims| && Stuck(s, s.claims[i]) && forall j | 0 <= j < i :: !Stuck(s, s.claims[j])
  }

  method DecideStuckAction(s: Signs) returns (d: StuckDecision)
    ensures d.Fine? <==> !PastCeiling(s) && forall claim | claim in s.claims :: !Stuck(s, claim)
    ensures d.KillCeiling? <==> PastCeiling(s)
    ensures d.KillCeiling? ==> d.heartbeatAgeMs == s.now - LastSign(s) && d.ceilingMs == Ceiling(s)
    ensures d.KillClaim? ==>
            exists i: nat ::
              FirstStuck(s, i) && d == KillClaim(s.claims[i].messageId, s.now - s.claims[i].at.value, Tolerance(s))
  {
    var declared := DeclaredBashMs(s.state);
    var lastSign := if s.heartbeat != 0 then s.heartbeat else if s.started.Some? then s.started.value else 0;
    if lastSign != 0 {
      var age := s.now - lastSign;
      var ceiling := Max(ABSOLUTE_CEILING_MS, declared);
      if age > ceiling {
        return KillCeiling(age, ceiling);
      }
    }
    var tolerance := Max(CLAIM_STUCK_MS, declared);
    var i := 0;
    while i < |s.claims|
      invariant 0 <= i <= |s.claims|
      invariant forall j | 0 <= j < i :: !Stuck(s, s.claims[j])
    {
      var claim := s.claims[i];
      if claim.at.Some? {
        var claimAge := s.now - claim.at.value;
        if claimAge > tolerance && !(s.heartbeat > claim.at.value) {
          assert FirstStuck(s, i);
          return KillClaim(claim.messageId, claimAge, tolerance);
        }
      }
      i := i + 1;
    }
    return Fine;
  }

  /** Not killed this time. */
  predicate Spared(s: Signs) {
    !PastCeiling(s) && forall claim | claim in s.claims :: !Stuck(s, claim)
  }

  /** Where a heartbeat that was missing shows up, it is no older than the runtime. */
  predicate HeartbeatIsOurs(before: int, after: int, started: Option<int>) {
    before != 0 || after == 0 || (started.Some? && started.value != 0 && started.value <= after)
  }

  /** A later heartbeat, a longer declared timeout, fewer claims: none turns a spared
      runtime into a killed one, unless the heartbeat is the first and predates it. */
  lemma MilderIsSpared(s: Signs, heartbeat: int, state: Option<ContainerState>, claims: seq<Claim>)
    requires Spared(s)
    requires 0 <= s.heartbeat <= heartbeat && HeartbeatIsOurs(s.heartbeat, heartbeat, s.started)
    requires DeclaredBashMs(s.state) <= DeclaredBashMs(state)
    requires forall claim | claim in claims :: claim in s.claims
    ensures Spared(s.(heartbeat := heartbeat, state := state, claims := claims))
  {
    var milder := s.(heartbeat := heartbeat, state := state, claims := claims);
    forall claim | claim in claims ensures !Stuck(milder, claim) { assert !Stuck(s, claim); }
  }

  /** That exception is exact: such a heartbeat gets some spared runtime killed. */
  lemma ForeignHeartbeatKills(before: int, after: int, started: Option<int>)
    requires 0 <= before <= after
    ensures HeartbeatIsOurs(before, after, started) <==>
      forall s: Signs | s.heartbeat == before && s.started == started && Spared(s) :: Spared(s.(heartbeat := after))
  {
    if HeartbeatIsOurs(before, after, started) {
      forall s: Signs | s.heartbeat == before && s.started == started && Spared(s)
        ensures Spared(s.(heartbeat := after))
      {
        MilderIsSpared(s, after, s.state, s.claims);
      }
    } else {
      var s := Signs(after + ABSOLUTE_CEILING_MS + 1, before, started, None, []);
      assert Spared(s) && !Spared(s.(heartbeat := after));
    }
  }

  /** A fresh runtime, with the heartbeat of its predecessor removed and no claims, is
      spared for exactly the full ceiling. */
  lemma FreshRuntimeHasFullCeiling(now: int, started: int, state: Option<ContainerState>)
    requires started != 0
    ensures Spared(Signs(now, 0, Some(started), state, [])) <==>
            now - started <= Max(ABSOLUTE_CEILING_MS, DeclaredBashMs(state))
  {
  }

  /** `t` is within the bound, or within what the running tool declared. */
  predicate Within(t: int, bound: int, declared: Option<int>) {
    t <= bound || (declared.Some? && t <= declared.value)
  }

  /** The last sign of life, if there is one: the heartbeat, or else the start. */
  predicate LivedAt(s: Signs, at: int) {
    at != 0 && (s.heartbeat == at || (s.heartbeat == 0 && s.started == Some(at)))
  }

  /** The decision in the fields of the signs. A runtime is spared exactly if it lived in
      the last half hour, and no claim of more than a minute is without a heartbeat after
      it; a Bash that runs with a declared timeout has that long instead, if it is longer. */
  lemma SparedInFields(s: Signs, declared: Option<int>)
    requires if declared.Some? then s.state == Some(ContainerState("Bash", declared))
             else s.state.None? || s.state.value.currentTool != "Bash" || s.state.value.declaredTimeoutMs.None?
    ensures Spared(s) <==>
      && (forall at | LivedAt(s, at) :: Within(s.now - at, 1800000, declared))
      && (forall claim | claim in s.claims && claim.at.Some? ::
            s.heartbeat > claim.at.value || Within(s.now - claim.at.value, 60000, declared))
  {
    if LastSign(s) != 0 { assert LivedAt(s, LastSign(s)); }
    assert forall at | LivedAt(s, at) :: at == LastSign(s);
    assert forall at :: at <= Ceiling(s) <==> Within(at, 1800000, declared);
    assert forall at :: at <= Tolerance(s) <==> Within(at, 60000, declared);
  }

  // ----- resetting the rows ---------------------------------------------------

  datatype Status = Pending | Completed | Failed

  /** An inbound row; `processAfter` is `None` when absent or not a time. */
  datatype Row = Row(status: Status, tries: nat, processAfter: Option<int>)

  function Pow2(n: nat): nat {
    if n == 0 then 1 else 2 * Pow2(n - 1)
  }

  /** `floor(BACKOFF_BASE_MS * 2^tries / 1000)` */
  function BackoffSec(tries: nat): nat {
    BACKOFF_BASE_MS * Pow2(tries) / 1000
  }

  /** One claim of the loop; the retry reads the clock again. */
  function ResetRow(row: Row, now: int, clock: int): Row {
    if row.status != Pending then row
    else if row.processAfter.Some? && row.processAfter.value > now then row
    else if row.tries >= MAX_TRIES then row.(status := Failed)
    else row.(tries := row.tries + 1, processAfter := Some(clock + BackoffSec(row.tries) * 1000))
  }

  function ResetRows(inbox: map<string, Row>, claims: seq<Claim>, now: int, clocks: seq<int>): map<string, Row>
    requires |clocks| == |claims|
    decreases |claims|
  {
    if claims == [] then inbox
    else
      var id := claims[0].messageId;
      var inbox' := if id in inbox then inbox[id := ResetRow(inbox[id], now, clocks[0])] else inbox;
      ResetRows(inbox', claims[1..], now, clocks[1..])
  }

  class SessionMailbox {
    var inbox: map<string, Row>
    var claims: seq<Claim>  // processing_ack rows still in 'processing'

    constructor ()
      ensures inbox == map[] && claims == []
    {
      inbox, claims := map[], [];
    }

    method ResetStuckProcessingRows(now: int, clocks: seq<int>, deleteWorks: bool)
      requires |clocks| == |claims|
      modifies this
      ensures inbox == ResetRows(old(inbox), old(claims), now, clocks)
      ensures claims == if deleteWorks then [] else old(claims)
    {
      var i := 0;
      while i < |claims|
        invariant 0 <= i <= |claims| && claims == old(claims)
        invariant ResetRows(inbox, claims[i..], now, clocks[i..]) == ResetRows(old(inbox), claims, now, clocks)
      {
        var id := claims[i].messageId;
        assert claims[i..][1..] == claims[i + 1..] && clocks[i..][1..] == clocks[i + 1..];
        if id in inbox && inbox[id].status == Pending {
          var row := inbox[id];
          if row.processAfter.Some? && row.processAfter.value > now {
            assert inbox[id := row] == inbox;
          } else if row.tries >= MAX_TRIES {
            inbox := inbox[id := row.(status := Failed)];
          } else {
            var backoffMs := BACKOFF_BASE_MS * Pow2(row.tries);
            inbox := inbox[id := row.(tries := row.tries + 1,
                processAfter := Some(clocks[i] + backoffMs / 1000 * 1000))];
          }
        } else if id in inbox {
          assert inbox[id := inbox[id]] == inbox;
        }
        i := i + 1;
      }
      if deleteWorks { claims := []; }
    }

    /** `maintainSessionMailbox`, as far as claims and rows go. */
    method MaintainSession(alive: bool, justWoke: bool, signs: Signs, now: int, clocks: seq<int>, deleteWorks: bool)
      returns (killed: bool)
      requires |clocks| == |claims| && signs.claims == claims
      modifies this
      ensures killed <==> alive && !justWoke && !Spared(signs)
      ensures inbox == if killed || !alive then ResetRows(old(inbox), old(claims), now, clocks) else old(inbox)
      ensures claims == if (killed || !alive) && deleteWorks then [] else old(claims)
    {
      killed := false;
      if alive && !justWoke {
        var decision := DecideStuckAction(signs);
        if !decision.Fine? {
          killed := true;
          ResetStuckProcessingRows(now, clocks, deleteWorks);
        }
      }
      if !alive {
        ResetStuckProcessingRows(now, clocks, deleteWorks);
      }
    }
  }

  // ----- whole histories ------------------------------------------------------

  /** The mailbox over time, with every wait that was ordered, and who was given up on. */
  datatype Mailbox = Mailbox(
    clock: int,
    inbox: map<string, Row>,
    claims: seq<Claim>,
    waits: map<string, seq<nat>>,
    givenUp: set<string>)

  datatype Step =
    | Tick(ms: nat)
    | Arrive(id: string, processAfter: Option<int>)
    | TakeUp(id: string)              // a runner claims the row
    | Settle(id: string, ok: bool)    // the runner's answer is applied
    | Reset(deleteWorks: bool, clocks: seq<int>)

  function Waits(m: Mailbox, id: string): seq<nat> {
    if id in m.waits then m.waits[id] else []
  }

  /** The loop of `resetStuckProcessingRows`, writing down what it orders. */
  function ResetAll(m: Mailbox, claims: seq<Claim>, now: int, clocks: seq<int>): Mailbox
    requires |clocks| == |claims|
    decreases |claims|
  {
    if claims == [] then m
    else ResetAll(ResetOne(m, claims[0].messageId, now, clocks[0]), claims[1..], now, clocks[1..])
  }

  function ResetOne(m: Mailbox, id: string, now: int, clock: int): Mailbox {
    if id !in m.inbox then m
    else
      var row := m.inbox[id];
      var row' := ResetRow(row, now, clock);
      m.(inbox := m.inbox[id := row'],
         waits := if row'.tries > row.tries then m.waits[id := Waits(m, id) + [BackoffSec(row.tries)]] else m.waits,
         givenUp := if row'.status != row.status then m.givenUp + {id} else m.givenUp)
  }

  /** A reset leaves the rows that `ResetStuckProcessingRows` leaves. */
  function Take(m: Mailbox, step: Step): Mailbox {
    match step
    case Tick(ms) => m.(clock := m.clock + ms)
    case Arrive(id, processAfter) =>
        if id in m.inbox then m else m.(inbox := m.inbox[id := Row(Pending, 0, processAfter)])
    case TakeUp(id) => m.(claims := m.claims + [Claim(id, Some(m.clock))])
    case Settle(id, ok) =>
      if id in m.inbox && m.inbox[id].status == Pending
      then m.(inbox := m.inbox[id := m.inbox[id].(status := if ok then Completed else Failed)]) else m
    case Reset(deleteWorks, clocks) =>
      if |clocks| != |m.claims| then m
      else ResetAll(m, m.claims, m.clock, clocks).(
             inbox := ResetRows(m.inbox, m.claims, m.clock, clocks),
             claims := if deleteWorks then [] else m.claims)
  }

  function Run(m: Mailbox, steps: seq<Step>): Mailbox
    decreases |steps|
  {
    if steps == [] then m else Run(Take(m, steps[0]), steps[1..])
  }

  /** The loop that writes down what it orders changes the rows as the method does. */
  lemma {:induction false} ResetAllIsReset(m: Mailbox, claims: seq<Claim>, now: int, clocks: seq<int>)
    requires |clocks| == |claims|
    ensures var m' := ResetAll(m, claims, now, clocks);
      m'.inbox == ResetRows(m.inbox, claims, now, clocks) && m'.claims == m.claims && m'.clock == m.clock
    decreases |claims|
  {
    hide ResetRow;
    if claims != [] {
      ResetAllIsReset(ResetOne(m, claims[0].messageId, now, clocks[0]), claims[1..], now, clocks[1..]);
    }
  }

  const ALL_WAITS: seq<nat> := [5, 10, 20, 40, 80]

  /** A row's waits are the schedule so far, one per try; it is given up on after them all. */
  predicate OnSchedule(m: Mailbox, id: string) {
    && Waits(m, id) <= ALL_WAITS
    && (id in m.inbox ==> m.inbox[id].tries == |Waits(m, id)|)
    && (id !in m.inbox ==> Waits(m, id) == [])
    && (id in m.givenUp ==> id in m.inbox && m.inbox[id].status == Failed && Waits(m, id) == ALL_WAITS)
  }

  lemma Schedule(tries: nat)
    requires tries < MAX_TRIES
    ensures BackoffSec(tries) == ALL_WAITS[tries]
  {
    assert Pow2(1) == 2 && Pow2(2) == 4 && Pow2(3) == 8 && Pow2(4) == 16;
  }

  lemma ResetOneKeeps(m: Mailbox, which: string, now: int, clock: int, id: string)
    requires OnSchedule(m, id)
    ensures OnSchedule(ResetOne(m, which, now, clock), id)
  {
    hide BackoffSec;
    if which == id && id in m.inbox && m.inbox[id].tries < MAX_TRIES {
      Schedule(m.inbox[id].tries);
      assert Waits(m, id) == ALL_WAITS[..m.inbox[id].tries];
    }
  }

  lemma {:induction false} ResetAllKeeps(m: Mailbox, claims: seq<Claim>, now: int, clocks: seq<int>, id: string)
    requires |clocks| == |claims| && OnSchedule(m, id)
    ensures OnSchedule(ResetAll(m, claims, now, clocks), id)
    decreases |claims|
  {
    hide OnSchedule, ResetOne;
    if claims != [] {
      ResetOneKeeps(m, claims[0].messageId, now, clocks[0], id);
      ResetAllKeeps(ResetOne(m, claims[0].messageId, now, clocks[0]), claims[1..], now, clocks[1..], id);
    }
  }

  lemma {:induction false} RunKeepsSchedule(m: Mailbox, steps: seq<Step>, id: string)
    requires OnSchedule(m, id)
    ensures OnSchedule(Run(m, steps), id)
    decreases |steps|
  {
    hide ResetAll, ResetRows;
    if steps != [] {
      if steps[0].Reset? && |steps[0].clocks| == |m.claims| {
        ResetAllIsReset(m, m.claims, m.clock, steps[0].clocks);
        ResetAllKeeps(m, m.claims, m.clock, steps[0].clocks, id);
      }
      RunKeepsSchedule(Take(m, steps[0]), steps[1..], id);
    }
  }

  /** Over any history of claims, crashes and sweeps: a row is rescheduled at most five
      times, after 5, 10, 20, 40 and 80 seconds, and given up on only after all five. */
  lemma RetriesAreBounded(clock: int, steps: seq<Step>, id: string)
    ensures var m := Run(Mailbox(clock, map[], [], map[], {}), steps);
      && Waits(m, id) <= ALL_WAITS
      && (id in m.inbox ==> m.inbox[id].tries == |Waits(m, id)| <= MAX_TRIES)
      && (id in m.givenUp ==> id in m.inbox && m.inbox[id].status == Failed && Waits(m, id) == ALL_WAITS)
  {
    RunKeepsSchedule(Mailbox(clock, map[], [], map[], {}), steps, id);
  }

  const WAIT_MS: seq<int> := [5000, 10000, 20000, 40000, 80000]

  /** One claimed row: one that is not pending, or not due, stays; a due one with five
      tries behind it has failed; any other is tried again after the wait of its try. */
  lemma ResetInFields(row: Row, now: int, clock: int)
    ensures var due := row.status == Pending && (row.processAfter.None? || row.processAfter.value <= now);
      && (!due ==> ResetRow(row, now, clock) == row)
      && (due && row.tries >= 5 ==> ResetRow(row, now, clock) == Row(Failed, row.tries, row.processAfter))
      && (due && row.tries < 5 ==>
            ResetRow(row, now, clock) == Row(Pending, row.tries + 1, Some(clock + WAIT_MS[row.tries])))
  {
    hide BackoffSec;
    if row.tries < 5 { Schedule(row.tries); }
  }

  // ----- a row that crashes every runner --------------------------------------

  /** A runner takes the row up and dies, the sweep finds it, and its wait passes. */
  function CrashRound(id: string, clock: int): seq<Step> {
    [TakeUp(id), Reset(true, [clock]), Tick(80000)]
  }

  function Crashes(id: string, clock: int, n: nat): seq<Step> {
    if n == 0 then [Arrive(id, None)] else Crashes(id, clock, n - 1) + CrashRound(id, clock + 80000 * (n - 1))
  }

  lemma {:induction false} RunSplit(m: Mailbox, a: seq<Step>, b: seq<Step>)
    ensures Run(m, a + b) == Run(Run(m, a), b)
    decreases |a|
  {
    hide Take;
    if a == [] {
      assert a + b == b;
    } else {
      assert (a + b)[1..] == a[1..] + b;
      RunSplit(Take(m, a[0]), a[1..], b);
    }
  }

  /** The state after so many crashes, as far as the row goes. */
  predicate Crashed(m: Mailbox, id: string, clock: int, n: nat) {
    && n <= 6 && m.clock == clock + 80000 * n && m.claims == [] && id in m.inbox
    && var row := m.inbox[id];
       && (row.processAfter.None? || row.processAfter.value <= m.clock)
       && row.tries == (if n == 6 then 5 else n) && Waits(m, id) == ALL_WAITS[..row.tries]
       && (row.status == Failed <==> n == 6) && (row.status == Pending <==> n < 6)
       && (id in m.givenUp <==> n == 6)
  }

  lemma RoundCrashes(m: Mailbox, id: string, clock: int, n: nat)
    requires Crashed(m, id, clock, n) && n < 6
    ensures Crashed(Run(m, CrashRound(id, m.clock)), id, clock, n + 1)
  {
    hide BackoffSec, ResetRow;
    var m1 := Take(m, TakeUp(id));
    assert m1.claims == [Claim(id, Some(m.clock))];
    var row := m.inbox[id];
    ResetInFields(row, m.clock, m.clock);
    if n < 5 { Schedule(n); }
    var m2 := Take(m1, Reset(true, [m.clock]));
    assert m1.claims[1..] == [] && [m.clock][1..] == [];
    assert ResetAll(m1, m1.claims, m1.clock, [m.clock]) == ResetOne(m1, id, m.clock, m.clock);
    assert ResetRows(m1.inbox, m1.claims, m1.clock, [m.clock]) == m1.inbox[id := ResetRow(row, m.clock, m.clock)];
    var steps := CrashRound(id, m.clock);
    assert steps[1..] == [Reset(true, [m.clock]), Tick(80000)] && steps[1..][1..] == [Tick(80000)];
    RunOne(m2, Tick(80000));
    if n < 5 { assert ALL_WAITS[..n] + [ALL_WAITS[n]] == ALL_WAITS[..n + 1]; }
  }

  lemma RunOne(m: Mailbox, step: Step)
    ensures Run(m, [step]) == Take(m, step)
  {
    assert [step][1..] == [];
  }

  lemma {:induction false} CrashesAdd(id: string, clock: int, n: nat)
    requires n <= 6
    ensures Crashed(Run(Mailbox(clock, map[], [], map[], {}), Crashes(id, clock, n)), id, clock, n)
  {
    hide Crashed, CrashRound;
    var m := Mailbox(clock, map[], [], map[], {});
    if n == 0 {
      RunOne(m, Arrive(id, None));
      JustArrived(m, id);
    } else {
      CrashesAdd(id, clock, n - 1);
      var before := Run(m, Crashes(id, clock, n - 1));
      RunSplit(m, Crashes(id, clock, n - 1), CrashRound(id, clock + 80000 * (n - 1)));
      ClockOf(before, id, clock, n - 1);
      RoundCrashes(before, id, clock, n - 1);
    }
  }

  lemma JustArrived(m: Mailbox, id: string)
    requires m == Mailbox(m.clock, map[], [], map[], {})
    ensures Crashed(Take(m, Arrive(id, None)), id, m.clock, 0)
  {
  }

  lemma ClockOf(m: Mailbox, id: string, clock: int, n: nat)
    requires Crashed(m, id, clock, n)
    ensures m.clock == clock + 80000 * n
  {
  }

  /** A row that every runner dies of is tried again after each of the five waits and
      given up on at the sixth crash, and not before. */
  lemma SixthCrashGivesUp(id: string, clock: int, n: nat)
    requires n <= 6
    ensures var m := Run(Mailbox(clock, map[], [], map[], {}), Crashes(id, clock, n));
      && Waits(m, id) == ALL_WAITS[..if n == 6 then 5 else n]
      && (id in m.givenUp <==> n == 6) && id in m.inbox && (m.inbox[id].status == Failed <==> n == 6)
  {
    CrashesAdd(id, clock, n);
  }

  /** The row is settled as it was answered. */
  predicate SettledAs(m: Mailbox, id: string, ok: bool) {
    id in m.inbox && m.inbox[id].status == (if ok then Completed else Failed)
  }

  lemma {:induction false} ResetAllSpares(m: Mailbox, claims: seq<Claim>, now: int, clocks: seq<int>, id: string)
    requires |clocks| == |claims| && id in m.inbox && m.inbox[id].status != Pending
    ensures var m' := ResetAll(m, claims, now, clocks);
      && id in m'.inbox && m'.inbox[id] == m.inbox[id] && Waits(m', id) == Waits(m, id)
      && (id in m'.givenUp <==> id in m.givenUp) && m.givenUp <= m'.givenUp
    decreases |claims|
  {
    hide BackoffSec;
    if claims != [] {
      ResetAllSpares(ResetOne(m, claims[0].messageId, now, clocks[0]), claims[1..], now, clocks[1..], id);
    }
  }

  lemma {:induction false} ResetAllKeepsGivenUp(m: Mailbox, claims: seq<Claim>, now: int, clocks: seq<int>)
    requires |clocks| == |claims|
    ensures m.givenUp <= ResetAll(m, claims, now, clocks).givenUp
    decreases |claims|
  {
    hide ResetRow, BackoffSec;
    if claims != [] {
      ResetAllKeepsGivenUp(ResetOne(m, claims[0].messageId, now, clocks[0]), claims[1..], now, clocks[1..]);
    }
  }

  /** Whoever was given up on stays given up on. */
  lemma {:induction false} GivenUpStays(m: Mailbox, steps: seq<Step>)
    ensures m.givenUp <= Run(m, steps).givenUp
    decreases |steps|
  {
    hide ResetAll, ResetRows;
    if steps != [] {
      if steps[0].Reset? && |steps[0].clocks| == |m.claims| {
        ResetAllKeepsGivenUp(m, m.claims, m.clock, steps[0].clocks);
      }
      GivenUpStays(Take(m, steps[0]), steps[1..]);
    }
  }

  lemma {:induction false} SettledStays(m: Mailbox, steps: seq<Step>, id: string, ok: bool)
    requires SettledAs(m, id, ok)
    ensures var m' := Run(m, steps);
      SettledAs(m', id, ok) && m'.inbox[id] == m.inbox[id] && Waits(m', id) == Waits(m, id)
      && (id in m'.givenUp <==> id in m.givenUp)
    decreases |steps|
  {
    hide ResetAll, ResetRows;
    if steps != [] {
      if steps[0].Reset? && |steps[0].clocks| == |m.claims| {
        ResetAllIsReset(m, m.claims, m.clock, steps[0].clocks);
        ResetAllSpares(m, m.claims, m.clock, steps[0].clocks, id);
      }
      SettledStays(Take(m, steps[0]), steps[1..], id, ok);
    }
  }

  /** An answered row is done with: whatever is claimed and swept afterwards, it stays as
      it was answered, is not tried again and not given up on. */
  lemma AnsweredIsDone(m: Mailbox, id: string, ok: bool, steps: seq<Step>)
    requires id in m.inbox && m.inbox[id].status == Pending
    ensures var m' := Run(m, [Settle(id, ok)] + steps);
      id in m'.inbox && m'.inbox[id] == m.inbox[id].(status := if ok then Completed else Failed)
      && Waits(m', id) == Waits(m, id) && (id in m'.givenUp <==> id in m.givenUp)
  {
    hide Run;
    RunSplit(m, [Settle(id, ok)], steps);
    RunOne(m, Settle(id, ok));
    SettledStays(Take(m, Settle(id, ok)), steps, id, ok);
  }

  /** Every claim counts: of two due rows taken up by a runner that dies, each is tried
      again after its wait. */
  lemma BothAreReset(m: Mailbox, a: string, b: string, forA: int, forB: int)
    requires a != b && a in m.inbox && b in m.inbox && m.claims == []
    requires Due(m.inbox[a], m.clock) && Due(m.inbox[b], m.clock)
    ensures var m' := Run(m, [TakeUp(a), TakeUp(b), Reset(true, [forA, forB])]);
      && a in m'.inbox && m'.inbox[a] == Again(m.inbox[a], forA)
      && b in m'.inbox && m'.inbox[b] == Again(m.inbox[b], forB)
  {
    hide BackoffSec, ResetRow;
    var m1 := Take(m, TakeUp(a));
    var m2 := Take(m1, TakeUp(b));
    var claims := [Claim(a, Some(m.clock)), Claim(b, Some(m.clock))];
    assert m1.claims == claims[..1] && m2.claims == claims;
    ResetInFields(m.inbox[a], m.clock, forA);
    ResetInFields(m.inbox[b], m.clock, forB);
    assert claims[1..] == [claims[1]] && [claims[1]][1..] == [] && [forA, forB][1..] == [forB] && [forB][1..] == [];
    var inbox1 := m.inbox[a := ResetRow(m.inbox[a], m.clock, forA)];
    assert ResetRows(m.inbox, claims, m.clock, [forA, forB]) == ResetRows(inbox1, [claims[1]], m.clock, [forB]);
    assert ResetRows(inbox1, [claims[1]], m.clock, [forB]) == inbox1[b := ResetRow(m.inbox[b], m.clock, forB)];
    var steps := [TakeUp(a), TakeUp(b), Reset(true, [forA, forB])];
    assert steps[1..][1..] == [Reset(true, [forA, forB])];
    RunOne(m2, Reset(true, [forA, forB]));
  }

  predicate Due(row: Row, now: int) {
    row.status == Pending && row.tries < 5 && (row.processAfter.None? || row.processAfter.value <= now)
  }

  function Again(row: Row, clock: int): Row
    requires row.tries < 5
  {
    Row(Pending, row.tries + 1, Some(clock + WAIT_MS[row.tries]))
  }

  /** What is left of a row's retries. */
  function Left(row: Row): nat {
    if row.status != Pending then 0 else if row.tries >= MAX_TRIES then 1 else MAX_TRIES - row.tries + 1
  }

  /** Rows without a claim stay as they are. */
  lemma {:induction false} UnclaimedRowsStay(inbox: map<string, Row>, claims: seq<Claim>, now: int, clocks: seq<int>,
      id: string)
    requires |clocks| == |claims| && forall claim | claim in claims :: claim.messageId != id
    ensures var inbox' := ResetRows(inbox, claims, now, clocks);
            (id in inbox' <==> id in inbox) && (id in inbox ==> inbox'[id] == inbox[id])
    decreases |claims|
  {
    hide ResetRow;
    if claims != [] {
      assert claims[0] in claims;
      var which := claims[0].messageId;
      var inbox' := if which in inbox then inbox[which := ResetRow(inbox[which], now, clocks[0])] else inbox;
      UnclaimedRowsStay(inbox', claims[1..], now, clocks[1..], id);
    }
  }

  /** Progress: a sweep moves every claimed row that is pending and due, exactly one try
      on, and lets no row that waits for its time be counted again. */
  lemma {:induction false} ClaimedRowMovesOnce(inbox: map<string, Row>, claims: seq<Claim>, now: int, clocks: seq<int>,
      i: nat)
    requires |clocks| == |claims| && i < |claims| && claims[i].messageId in inbox
    requires forall j | 0 <= j < i :: claims[j].messageId != claims[i].messageId
    requires forall j | 0 <= j < |clocks| :: clocks[j] >= now
    ensures var id := claims[i].messageId; var inbox' := ResetRows(inbox, claims, now, clocks);
      id in inbox' && inbox'[id] == ResetRow(inbox[id], now, clocks[i])
    ensures var row := inbox[claims[i].messageId];
      row.status == Pending && !(row.processAfter.Some? && row.processAfter.value > now) ==>
          Left(ResetRow(row, now, clocks[i])) < Left(row)
    decreases |claims|
  {
    var id := claims[0].messageId;
    var inbox' := if id in inbox then inbox[id := ResetRow(inbox[id], now, clocks[0])] else inbox;
    if i == 0 {
      if inbox[id].tries < MAX_TRIES { BackoffIsPositive(inbox[id].tries); }
      SettledRowStays(inbox', claims[1..], now, clocks[1..], id);
    } else {
      assert forall j | 0 <= j < i - 1 :: claims[1..][j] == claims[j + 1];
      ClaimedRowMovesOnce(inbox', claims[1..], now, clocks[1..], i - 1);
    }
  }

  predicate NotNow(row: Row, now: int) {
    row.status != Pending || (row.processAfter.Some? && row.processAfter.value > now)
  }

  lemma BackoffIsPositive(tries: nat)
    ensures BackoffSec(tries) >= 5
  {
    PowIsPositive(tries);
  }

  lemma {:induction false} PowIsPositive(n: nat)
    ensures Pow2(n) >= 1
  {
    if n > 0 { PowIsPositive(n - 1); }
  }

  /** A second claim of the same row finds it scheduled, or no longer pending. */
  lemma {:induction false} SettledRowStays(inbox: map<string, Row>, claims: seq<Claim>, now: int, clocks: seq<int>,
      id: string)
    requires |clocks| == |claims| && id in inbox && NotNow(inbox[id], now)
    ensures var inbox' := ResetRows(inbox, claims, now, clocks); id in inbox' && inbox'[id] == inbox[id]
    decreases |claims|
  {
    if claims != [] {
      var which := claims[0].messageId;
      var inbox' := if which in inbox then inbox[which := ResetRow(inbox[which], now, clocks[0])] else inbox;
      SettledRowStays(inbox', claims[1..], now, clocks[1..], id);
    }
  }

  /** After a sweep that cleared the claims, the runtime started next is left alone for
      the full ceiling, unless it claims something; if the clearing failed, an old claim
      gets it killed as soon as it is seen. */
  lemma ClearedClaimsSpare(m: Mailbox, clocks: seq<int>, deleteWorks: bool, started: int, now: int)
    requires |clocks| == |m.claims| && started != 0 && 0 <= now - started <= ABSOLUTE_CEILING_MS
    ensures var claims := Take(m, Reset(deleteWorks, clocks)).claims;
      Spared(Signs(now, 0, Some(started), None, claims)) <==>
        deleteWorks || forall claim | claim in m.claims && claim.at.Some? ::
            claim.at.value < 0 || now - claim.at.value <= CLAIM_STUCK_MS
  {
    hide ResetAll;
  }
}
