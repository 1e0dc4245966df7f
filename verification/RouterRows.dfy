/** What a fan-out leaves for one wiring, said in the fields of wiring, chat and message. */
module RouterRows {
  import opened Text
  import opened Router
  import opened RouterHistory

  // ----- one wiring, said directly --------------------------------------------

  /** The thread the wiring sees: the message's, unless threads are off for it. */
  function EffectiveThread(w: Wiring, c: Chat, e: Event): Option<string> {
    if c.supportsThreads && (w.threads == Some(true) || (w.threads.None? && c.declaredThreads)) then e.thread else None
  }

  /** The session is the agent's, in this chat and thread; an empty thread id is none. */
  predicate SessionFor(s: Session, agent: string, chat: string, thread: Option<string>) {
    && s.agent == agent && s.chat == chat
    && (s.thread == thread || (thread == Some("") && s.thread == None))
    && s.thread != Some("")
  }

  predicate HasSession(sessions: seq<Session>, agent: string, chat: string, thread: Option<string>) {
    exists k | 0 <= k < |sessions| :: SessionFor(sessions[k], agent, chat, thread)
  }

  /** The message is for the agent: its pattern matches (a missing one, `.` and one that
      does not compile always do), it is mentioned, or it is in a thread already. */
  predicate IsFor(sessions: seq<Session>, w: Wiring, c: Chat, e: Event) {
    match w.mode
    case Pattern(pattern) =>
      pattern == None || pattern == Some(".") || e.matches(pattern.value) != Some(false)
    case Mention => e.isMention
    case MentionSticky =>
      e.isMention || (c.isGroup && HasSession(sessions, w.agent, c.id, EffectiveThread(w, c, e)))
    case UnknownMode => false
  }

  predicate Wakes(sessions: seq<Session>, w: Wiring, c: Chat, e: Event) {
    w.known && IsFor(sessions, w, c, e) && e.access(w.agent) && e.scope(w.agent)
  }

  predicate KeepsAsContext(sessions: seq<Session>, w: Wiring, c: Chat, e: Event) {
    w.known && !IsFor(sessions, w, c, e) && w.policy == Accumulate
  }

  /** Sessions go by thread for wirings that say so, and in a group with threads for all
      but agent-shared ones. */
  predicate ByThread(w: Wiring, c: Chat) {
    w.sessions == PerThread ||
    (w.sessions == Shared && c.isGroup && c.supportsThreads &&
     (w.threads == Some(true) || (w.threads.None? && c.declaredThreads)))
  }

  /** The session a taken message goes to: the agent's; unless it shares one over all its
      chats, of this chat, and of the thread or none. */
  predicate RightSession(s: Session, w: Wiring, c: Chat, e: Event) {
    && s.agent == w.agent
    && (w.sessions != AgentShared ==>
          && s.chat == c.id
          && if ByThread(w, c)
             then s.thread == EffectiveThread(w, c, e) || (EffectiveThread(w, c, e) == Some("") && s.thread == None)
             else s.thread == None)
  }

  // ----- what the router computes ---------------------------------------------

  lemma ThreadIs(w: Wiring, c: Chat, e: Event)
    ensures ThreadFor(w, c, e) == EffectiveThread(w, c, e)
    ensures w.sessions != AgentShared ==> (ModeFor(w, c) == PerThread <==> ByThread(w, c))
    ensures w.sessions == AgentShared <==> ModeFor(w, c) == AgentShared
  {
  }

  lemma FindsIs(s: Session, agent: string, chat: string, thread: Option<string>)
    ensures Finds(s, agent, chat, thread) <==> SessionFor(s, agent, chat, thread)
  {
  }

  lemma {:induction false} FindIsThere(sessions: seq<Session>, agent: string, chat: string, thread: Option<string>)
    ensures FindSession(sessions, agent, chat, thread).Some? <==> HasSession(sessions, agent, chat, thread)
    ensures var r := FindSession(sessions, agent, chat, thread);
      r.Some? ==> SessionFor(sessions[r.value], agent, chat, thread) &&
                  forall k | r.value < k < |sessions| :: !SessionFor(sessions[k], agent, chat, thread)
    decreases |sessions|
  {
    hide SessionFor, Finds;
    if sessions != [] {
      var n := |sessions| - 1;
      FindsIs(sessions[n], agent, chat, thread);
      FindIsThere(sessions[..n], agent, chat, thread);
      assert forall k | 0 <= k < n :: sessions[..n][k] == sessions[k];
      if HasSession(sessions[..n], agent, chat, thread) {
        var k :| 0 <= k < n && SessionFor(sessions[..n][k], agent, chat, thread);
        assert SessionFor(sessions[k], agent, chat, thread);
      }
    }
  }

  lemma {:induction false} FindByAgentIsThere(sessions: seq<Session>, agent: string)
    ensures var r := FindByAgent(sessions, agent);
      && (r.Some? <==> exists k | 0 <= k < |sessions| :: sessions[k].agent == agent)
      && (r.Some? ==> sessions[r.value].agent == agent &&
                      forall k | r.value < k < |sessions| :: sessions[k].agent != agent)
    decreases |sessions|
  {
    if sessions != [] {
      var n := |sessions| - 1;
      FindByAgentIsThere(sessions[..n], agent);
      assert forall k | 0 <= k < n :: sessions[..n][k] == sessions[k];
      if exists k | 0 <= k < n :: sessions[..n][k].agent == agent {
        var k :| 0 <= k < n && sessions[..n][k].agent == agent;
        assert sessions[k].agent == agent;
      }
    }
  }

  lemma EngageIs(sessions: seq<Session>, w: Wiring, c: Chat, e: Event)
    ensures EvaluateEngage(sessions, w, c, e) <==> IsFor(sessions, w, c, e)
  {
    hide FindSession, HasSession, ThreadFor, EffectiveThread;
    ThreadIs(w, c, e);
    FindIsThere(sessions, w.agent, c.id, ThreadFor(w, c, e));
  }

  lemma JudgeIs(sessions: seq<Session>, w: Wiring, c: Chat, e: Event)
    ensures Judge(sessions, w, c, e) ==
            if Wakes(sessions, w, c, e) then Engaged
            else if KeepsAsContext(sessions, w, c, e) then Accumulated else Ignored
  {
    hide EvaluateEngage, IsFor;
    EngageIs(sessions, w, c, e);
  }

  /** The session is there already for what the wiring takes. */
  predicate Fits(s: Session, w: Wiring, c: Chat, e: Event) {
    if w.sessions == AgentShared then s.agent == w.agent
    else SessionFor(s, w.agent, c.id, if ByThread(w, c) then EffectiveThread(w, c, e) else None)
  }

  predicate SomeFits(sessions: seq<Session>, w: Wiring, c: Chat, e: Event) {
    exists k | 0 <= k < |sessions| :: Fits(sessions[k], w, c, e)
  }

  lemma LookupIs(sessions: seq<Session>, w: Wiring, c: Chat, e: Event)
    ensures var r := Lookup(sessions, w.agent, c.id, ThreadFor(w, c, e), ModeFor(w, c));
      && (r.Some? <==> SomeFits(sessions, w, c, e))
      && (r.Some? ==> Fits(sessions[r.value], w, c, e) &&
                      forall k | r.value < k < |sessions| :: !Fits(sessions[k], w, c, e))
  {
    hide FindSession, FindByAgent, ThreadFor, EffectiveThread, ModeFor, ByThread, SessionFor;
    ThreadIs(w, c, e);
    FindIsThere(sessions, w.agent, c.id, ThreadFor(w, c, e));
    FindIsThere(sessions, w.agent, c.id, None);
    FindByAgentIsThere(sessions, w.agent);
  }

  lemma FittingIsRight(s: Session, w: Wiring, c: Chat, e: Event)
    requires Fits(s, w, c, e)
    ensures RightSession(s, w, c, e)
  {
    hide EffectiveThread, ByThread;
  }

  lemma NewIsRight(w: Wiring, c: Chat, e: Event)
    ensures RightSession(
              Session(w.agent, c.id, if ModeFor(w, c) == PerThread then ThreadFor(w, c, e) else None), w, c, e)
  {
    hide EffectiveThread, ByThread, ThreadFor, ModeFor;
    ThreadIs(w, c, e);
  }

  /** The session a delivery resolves: the latest that fits, and only if none does a new
      one, at the end. */
  lemma ResolvedIsRight(sessions: seq<Session>, w: Wiring, c: Chat, e: Event)
    ensures var (after, n) := ResolveSession(sessions, w.agent, c.id, ThreadFor(w, c, e), ModeFor(w, c));
      && n < |after| && RightSession(after[n], w, c, e)
      && if SomeFits(sessions, w, c, e)
         then after == sessions && Fits(sessions[n], w, c, e) &&
              forall k | n < k < |sessions| :: !Fits(sessions[k], w, c, e)
         else after == sessions + [after[n]] && n == |sessions|
  {
    hide Lookup, ThreadFor, ModeFor, RightSession, SomeFits, Fits;
    LookupIs(sessions, w, c, e);
    NewIsRight(w, c, e);
    var r := Lookup(sessions, w.agent, c.id, ThreadFor(w, c, e), ModeFor(w, c));
    if r.Some? { FittingIsRight(sessions[r.value], w, c, e); }
  }

  /** A row of the inbox as it should be. */
  predicate RightRow(m: Message, sessions: seq<Session>, w: Wiring, c: Chat, e: Event, trigger: bool) {
    && m.agent == w.agent && m.event == e.id && m.trigger == trigger
    && m.session < |sessions| && RightSession(sessions[m.session], w, c, e)
  }

  /** What one turn of the loop leaves. */
  lemma TurnLeaves(s: State, w: Wiring, c: Chat, e: Event)
    ensures var s' := AfterVerdict(s, w, c, e, Judge(s.sessions, w, c, e));
      var wakes, context := Wakes(s.sessions, w, c, e), KeepsAsContext(s.sessions, w, c, e);
      && s.sessions <= s'.sessions
      && |s'.sessions| == |s.sessions| + (if (wakes || context) && !SomeFits(s.sessions, w, c, e) then 1 else 0)
      && (if (wakes || context) && e.command(w.agent) == Pass
          then |s'.messages| == |s.messages| + 1 && s'.messages[..|s.messages|] == s.messages &&
               RightRow(s'.messages[|s.messages|], s'.sessions, w, c, e, wakes)
          else s'.messages == s.messages)
      && (if (wakes || context) && e.command(w.agent) == Deny
          then |s'.denials| == |s.denials| + 1 && s'.denials[..|s.denials|] == s.denials &&
               var (n, id) := s'.denials[|s.denials|];
               id == e.id && n < |s'.sessions| && RightSession(s'.sessions[n], w, c, e)
          else s'.denials == s.denials)
      && (!wakes && !context ==> s' == s)
  {
    hide Judge, Wakes, KeepsAsContext, RightSession, ResolveSession, ThreadFor, ModeFor, SomeFits, Fits;
    JudgeIs(s.sessions, w, c, e);
    NotBoth(s.sessions, w, c, e);
    ResolvedIsRight(s.sessions, w, c, e);
  }

  lemma NotBoth(sessions: seq<Session>, w: Wiring, c: Chat, e: Event)
    ensures !(Wakes(sessions, w, c, e) && KeepsAsContext(sessions, w, c, e))
  {
    hide IsFor;
  }

  // ----- the whole fan-out ----------------------------------------------------

  /** Rows `rows` hold exactly one of the wiring's agent, as it should be, if the message
      is stored for it, and none otherwise. */
  predicate RowsAre(rows: seq<Message>, sessions: seq<Session>, w: Wiring, c: Chat, e: Event, wakes: bool,
      stored: bool)
  {
    && (stored <==> exists k | 0 <= k < |rows| :: rows[k].agent == w.agent)
    && (forall k | 0 <= k < |rows| && rows[k].agent == w.agent :: RightRow(rows[k], sessions, w, c, e, wakes))
    && (forall j, k | 0 <= j < k < |rows| :: rows[j].agent != w.agent || rows[k].agent != w.agent)
  }

  predicate DenialOf(d: (nat, string), sessions: seq<Session>, agent: string) {
    d.0 < |sessions| && sessions[d.0].agent == agent
  }

  /** The same for the permission-denied answers; they name their agent by its session. */
  predicate DenialsAre(denials: seq<(nat, string)>, sessions: seq<Session>, w: Wiring, c: Chat, e: Event,
      denied: bool)
  {
    && (denied <==> exists k | 0 <= k < |denials| :: DenialOf(denials[k], sessions, w.agent))
    && (forall k | 0 <= k < |denials| && DenialOf(denials[k], sessions, w.agent) ::
          denials[k].1 == e.id && RightSession(sessions[denials[k].0], w, c, e))
    && (forall j, k | 0 <= j < k < |denials| ::
          !DenialOf(denials[j], sessions, w.agent) || !DenialOf(denials[k], sessions, w.agent))
  }

  /** Everything is only added to, and what is added belongs to the wirings. */
  predicate Adds(s: State, s': State, ws: seq<Wiring>) {
    && s.sessions <= s'.sessions && s.messages <= s'.messages && s.denials <= s'.denials
    && (forall k | |s.sessions| <= k < |s'.sessions| :: Among(s'.sessions[k].agent, ws))
    && (forall k | |s.messages| <= k < |s'.messages| :: Among(s'.messages[k].agent, ws))
    && (forall k | |s.denials| <= k < |s'.denials| ::
          s'.denials[k].0 < |s'.sessions| && Among(s'.sessions[s'.denials[k].0].agent, ws))
  }

  predicate Among(agent: string, ws: seq<Wiring>) {
    exists i | 0 <= i < |ws| :: ws[i].agent == agent
  }

  lemma TurnAdds(s: State, w: Wiring, c: Chat, e: Event)
    ensures Adds(s, AfterVerdict(s, w, c, e, Judge(s.sessions, w, c, e)), [w])
  {
    hide Judge, ThreadFor, ModeFor, ResolveSession, SomeFits, Fits, ByThread, EffectiveThread;
    ResolvedIsRight(s.sessions, w, c, e);
    assert [w][0] == w;
    assert Among(w.agent, [w]);
  }

  lemma AddsChain(s: State, s1: State, s2: State, w: Wiring, rest: seq<Wiring>)
    requires Adds(s, s1, [w]) && Adds(s1, s2, rest)
    ensures Adds(s, s2, [w] + rest)
  {
    var ws := [w] + rest;
    forall a | Among(a, [w]) || Among(a, rest) ensures Among(a, ws) {
      if Among(a, rest) {
        var i :| 0 <= i < |rest| && rest[i].agent == a;
        assert ws[i + 1].agent == a;
      } else {
        assert ws[0].agent == a;
      }
    }
  }

  lemma {:induction false} DeliveredAdds(s: State, ws: seq<Wiring>, c: Chat, e: Event)
    ensures Adds(s, Delivered(s, ws, c, e), ws)
    decreases |ws|
  {
    hide Judge, AfterVerdict, Adds;
    if ws == [] {
      AddsNothing(s);
    } else {
      var s1 := AfterVerdict(s, ws[0], c, e, Judge(s.sessions, ws[0], c, e));
      TurnAdds(s, ws[0], c, e);
      DeliveredAdds(s1, ws[1..], c, e);
      AddsChain(s, s1, Delivered(s, ws, c, e), ws[0], ws[1..]);
      assert [ws[0]] + ws[1..] == ws;
    }
  }

  lemma AddsNothing(s: State)
    ensures Adds(s, s, [])
  {
  }

  /** What others do shows the wiring nothing it looks at. */
  lemma OthersDoNotShow(s: State, s1: State, w0: Wiring, w: Wiring, c: Chat, e: Event)
    requires Adds(s, s1, [w0]) && w0.agent != w.agent
    ensures Wakes(s1.sessions, w, c, e) == Wakes(s.sessions, w, c, e)
    ensures KeepsAsContext(s1.sessions, w, c, e) == KeepsAsContext(s.sessions, w, c, e)
  {
    var thread := EffectiveThread(w, c, e);
    forall k | |s.sessions| <= k < |s1.sessions| ensures s1.sessions[k].agent == w0.agent {
      assert Among(s1.sessions[k].agent, [w0]);
    }
    if HasSession(s.sessions, w.agent, c.id, thread) {
      var k :| 0 <= k < |s.sessions| && SessionFor(s.sessions[k], w.agent, c.id, thread);
      assert SessionFor(s1.sessions[k], w.agent, c.id, thread);
    }
    if HasSession(s1.sessions, w.agent, c.id, thread) {
      var k :| 0 <= k < |s1.sessions| && SessionFor(s1.sessions[k], w.agent, c.id, thread);
      assert SessionFor(s.sessions[k], w.agent, c.id, thread);
    }
  }

  predicate Stored(sessions: seq<Session>, w: Wiring, c: Chat, e: Event) {
    (Wakes(sessions, w, c, e) || KeepsAsContext(sessions, w, c, e)) && e.command(w.agent) == Pass
  }

  predicate Denied(sessions: seq<Session>, w: Wiring, c: Chat, e: Event) {
    (Wakes(sessions, w, c, e) || KeepsAsContext(sessions, w, c, e)) && e.command(w.agent) == Deny
  }

  /** What lies between `s` and `s'` is as it should be for the wiring. */
  predicate LeavesRight(s: State, s': State, w: Wiring, c: Chat, e: Event, wakes: bool, stored: bool, denied: bool) {
    && s.messages <= s'.messages && s.denials <= s'.denials
    && RowsAre(s'.messages[|s.messages|..], s'.sessions, w, c, e, wakes, stored)
    && DenialsAre(s'.denials[|s.denials|..], s'.sessions, w, c, e, denied)
  }

  lemma OwnTurnLeavesRight(s: State, w: Wiring, c: Chat, e: Event)
    ensures LeavesRight(s, AfterVerdict(s, w, c, e, Judge(s.sessions, w, c, e)), w, c, e, Wakes(s.sessions, w, c, e),
                        Stored(s.sessions, w, c, e), Denied(s.sessions, w, c, e))
  {
    hide AfterVerdict, Judge, Wakes, KeepsAsContext, ByThread, EffectiveThread;
    TurnLeaves(s, w, c, e);
    var s' := AfterVerdict(s, w, c, e, Judge(s.sessions, w, c, e));
    if Stored(s.sessions, w, c, e) {
      assert s'.messages[|s.messages|..] == [s'.messages[|s.messages|]];
      assert s'.messages[|s.messages|..][0].agent == w.agent;
    } else {
      assert s'.messages[|s.messages|..] == [];
    }
    if Denied(s.sessions, w, c, e) {
      assert s'.denials[|s.denials|..] == [s'.denials[|s.denials|]];
      assert DenialOf(s'.denials[|s.denials|..][0], s'.sessions, w.agent);
    } else {
      assert s'.denials[|s.denials|..] == [];
    }
  }

  /** Turns of other agents, before or after, leave nothing for this one. */
  lemma OthersLeaveNothing(s: State, s': State, ws: seq<Wiring>, w: Wiring, c: Chat, e: Event, wakes: bool)
    requires Adds(s, s', ws) && !Among(w.agent, ws)
    ensures LeavesRight(s, s', w, c, e, wakes, false, false)
  {
    hide RightRow, RightSession;
    forall k | 0 <= k < |s'.messages| - |s.messages| ensures s'.messages[|s.messages|..][k].agent != w.agent {
      assert Among(s'.messages[|s.messages| + k].agent, ws);
    }
    forall k | 0 <= k < |s'.denials| - |s.denials|
      ensures !DenialOf(s'.denials[|s.denials|..][k], s'.sessions, w.agent)
    {
      assert Among(s'.sessions[s'.denials[|s.denials| + k].0].agent, ws);
    }
  }

  lemma RowsJoin(a: seq<Message>, b: seq<Message>, was: seq<Session>, sessions: seq<Session>, w: Wiring, c: Chat,
      e: Event, wakes: bool, inA: bool, inB: bool)
    requires was <= sessions && !(inA && inB)
    requires RowsAre(a, was, w, c, e, wakes, inA) && RowsAre(b, sessions, w, c, e, wakes, inB)
    ensures RowsAre(a + b, sessions, w, c, e, wakes, inA || inB)
  {
    hide RightSession;
    var n := |a|;
    assert forall k | 0 <= k < n :: (a + b)[k] == a[k];
    assert forall k | n <= k < n + |b| :: (a + b)[k] == b[k - n];
    if inA {
      var k :| 0 <= k < n && a[k].agent == w.agent;
      assert (a + b)[k].agent == w.agent;
    }
    if inB {
      var k :| 0 <= k < |b| && b[k].agent == w.agent;
      assert (a + b)[n + k].agent == w.agent;
    }
  }

  lemma DenialsJoin(a: seq<(nat, string)>, b: seq<(nat, string)>, was: seq<Session>, sessions: seq<Session>, w: Wiring,
      c: Chat, e: Event, inA: bool, inB: bool)
    requires was <= sessions && !(inA && inB) && forall k | 0 <= k < |a| :: a[k].0 < |was|
    requires DenialsAre(a, was, w, c, e, inA) && DenialsAre(b, sessions, w, c, e, inB)
    ensures DenialsAre(a + b, sessions, w, c, e, inA || inB)
  {
    hide RightSession;
    var n := |a|;
    assert forall k | 0 <= k < n ::
        (a + b)[k] == a[k] && (DenialOf(a[k], sessions, w.agent) <==> DenialOf(a[k], was, w.agent));
    assert forall k | n <= k < n + |b| :: (a + b)[k] == b[k - n];
    if inA {
      var k :| 0 <= k < n && DenialOf(a[k], was, w.agent);
      assert DenialOf((a + b)[k], sessions, w.agent);
    }
    if inB {
      var k :| 0 <= k < |b| && DenialOf(b[k], sessions, w.agent);
      assert DenialOf((a + b)[n + k], sessions, w.agent);
    }
  }

  lemma RightJoins(s: State, s1: State, s2: State, ws: seq<Wiring>, w: Wiring, c: Chat, e: Event, wakes: bool,
      rowFirst: bool, rowThen: bool, denialFirst: bool, denialThen: bool)
    requires Adds(s, s1, ws) && s1.sessions <= s2.sessions && !(rowFirst && rowThen) && !(denialFirst && denialThen)
    requires LeavesRight(s, s1, w, c, e, wakes, rowFirst, denialFirst)
    requires LeavesRight(s1, s2, w, c, e, wakes, rowThen, denialThen)
    ensures LeavesRight(s, s2, w, c, e, wakes, rowFirst || rowThen, denialFirst || denialThen)
  {
    hide RowsAre, DenialsAre, Among;
    var a, b := s1.messages[|s.messages|..], s2.messages[|s1.messages|..];
    assert s2.messages[|s.messages|..] == a + b;
    RowsJoin(a, b, s1.sessions, s2.sessions, w, c, e, wakes, rowFirst, rowThen);
    var d, f := s1.denials[|s.denials|..], s2.denials[|s1.denials|..];
    assert s2.denials[|s.denials|..] == d + f;
    DenialsJoin(d, f, s1.sessions, s2.sessions, w, c, e, denialFirst, denialThen);
  }

  lemma {:induction false} DeliveredLeavesRight(s: State, ws: seq<Wiring>, c: Chat, e: Event, i: nat)
    requires i < |ws| && OneEach(ws)
    ensures LeavesRight(s, Delivered(s, ws, c, e), ws[i], c, e, Wakes(s.sessions, ws[i], c, e),
                        Stored(s.sessions, ws[i], c, e), Denied(s.sessions, ws[i], c, e))
    decreases |ws|
  {
    hide AfterVerdict, Judge, Wakes, KeepsAsContext, LeavesRight, Among;
    var w := ws[i];
    var wakes, row, denial := Wakes(s.sessions, w, c, e), Stored(s.sessions, w, c, e), Denied(s.sessions, w, c, e);
    var s1, s2 := AfterVerdict(s, ws[0], c, e, Judge(s.sessions, ws[0], c, e)), Delivered(s, ws, c, e);
    TurnAdds(s, ws[0], c, e);
    DeliveredAdds(s1, ws[1..], c, e);
    assert forall j | 0 <= j < |ws| - 1 :: ws[1..][j] == ws[j + 1];
    if i == 0 {
      OwnTurnLeavesRight(s, w, c, e);
      NotAmong(w.agent, ws[1..]);
      OthersLeaveNothing(s1, s2, ws[1..], w, c, e, wakes);
      RightJoins(s, s1, s2, [ws[0]], w, c, e, wakes, row, false, denial, false);
    } else {
      NotAmong(w.agent, [ws[0]]);
      OthersLeaveNothing(s, s1, [ws[0]], w, c, e, wakes);
      OthersDoNotShow(s, s1, ws[0], w, c, e);
      DeliveredLeavesRight(s1, ws[1..], c, e, i - 1);
      RightJoins(s, s1, s2, [ws[0]], w, c, e, wakes, false, row, false, denial);
    }
  }

  lemma NotAmong(agent: string, ws: seq<Wiring>)
    requires forall i | 0 <= i < |ws| :: ws[i].agent != agent
    ensures !Among(agent, ws)
  {
  }

  /** A fan-out with one wiring per agent. It only adds, for agents it fans out to. An
      agent gets one row if its wiring wakes it or keeps the message as context and the
      command gate passes the message, and no row otherwise; the row carries the message,
      in a session of the agent's that is right for the chat and the thread, and wakes it
      exactly if the wiring does. A message the gate denies leaves one denial instead. */
  lemma EachAgentGetsItsRow(s: State, ws: seq<Wiring>, c: Chat, e: Event, i: nat)
    requires i < |ws| && OneEach(ws)
    ensures var s', w := FanOut(s, ws, c, e), ws[i];
      var wakes, context := Wakes(s.sessions, w, c, e), KeepsAsContext(s.sessions, w, c, e);
      && Adds(s, s', ws) && !(wakes && context)
      && RowsAre(s'.messages[|s.messages|..], s'.sessions, w, c, e, wakes,
                 (wakes || context) && e.command(w.agent) == Pass)
      && DenialsAre(s'.denials[|s.denials|..], s'.sessions, w, c, e,
                    (wakes || context) && e.command(w.agent) == Deny)
  {
    hide Delivered, Verdicts, Subscription, NobodyTook, Wakes, KeepsAsContext, RowsAre, DenialsAre, OneEach;
    NotBoth(s.sessions, ws[i], c, e);
    DeliveredAdds(s, ws, c, e);
    DeliveredLeavesRight(s, ws, c, e, i);
  }

  // ----- the sessions it opens ------------------------------------------------

  predicate OneNew(added: seq<Session>, agent: string, made: bool) {
    && (made <==> exists k | 0 <= k < |added| :: added[k].agent == agent)
    && forall j, k | 0 <= j < k < |added| :: added[j].agent != agent || added[k].agent != agent
  }

  predicate Opens(sessions: seq<Session>, w: Wiring, c: Chat, e: Event) {
    (Wakes(sessions, w, c, e) || KeepsAsContext(sessions, w, c, e)) && !SomeFits(sessions, w, c, e)
  }

  lemma NewJoin(a: seq<Session>, b: seq<Session>, agent: string, inA: bool, inB: bool)
    requires OneNew(a, agent, inA) && OneNew(b, agent, inB) && !(inA && inB)
    ensures OneNew(a + b, agent, inA || inB)
  {
    var n := |a|;
    assert forall k | 0 <= k < n :: (a + b)[k] == a[k];
    assert forall k | n <= k < n + |b| :: (a + b)[k] == b[k - n];
    if inA {
      var k :| 0 <= k < n && a[k].agent == agent;
      assert (a + b)[k].agent == agent;
    }
    if inB {
      var k :| 0 <= k < |b| && b[k].agent == agent;
      assert (a + b)[n + k].agent == agent;
    }
  }

  lemma OthersOpenNothing(s: State, s': State, ws: seq<Wiring>, agent: string)
    requires Adds(s, s', ws) && !Among(agent, ws)
    ensures OneNew(s'.sessions[|s.sessions|..], agent, false)
  {
    forall k | 0 <= k < |s'.sessions| - |s.sessions| ensures s'.sessions[|s.sessions|..][k].agent != agent {
      assert Among(s'.sessions[|s.sessions| + k].agent, ws);
    }
  }

  lemma OwnTurnOpens(s: State, w: Wiring, c: Chat, e: Event)
    ensures var s' := AfterVerdict(s, w, c, e, Judge(s.sessions, w, c, e));
      s.sessions <= s'.sessions && OneNew(s'.sessions[|s.sessions|..], w.agent, Opens(s.sessions, w, c, e))
  {
    hide AfterVerdict, Judge, Wakes, KeepsAsContext, SomeFits;
    TurnLeaves(s, w, c, e);
    TurnAdds(s, w, c, e);
    var s' := AfterVerdict(s, w, c, e, Judge(s.sessions, w, c, e));
    if Opens(s.sessions, w, c, e) {
      assert Among(s'.sessions[|s.sessions|].agent, [w]);
      assert s'.sessions[|s.sessions|..][0].agent == w.agent;
    } else {
      assert s'.sessions[|s.sessions|..] == [];
    }
  }

  lemma OthersFitNothing(s: State, s1: State, w0: Wiring, w: Wiring, c: Chat, e: Event)
    requires Adds(s, s1, [w0]) && w0.agent != w.agent
    ensures SomeFits(s1.sessions, w, c, e) == SomeFits(s.sessions, w, c, e)
  {
    hide EffectiveThread, ByThread;
    forall k | |s.sessions| <= k < |s1.sessions| ensures s1.sessions[k].agent == w0.agent {
      assert Among(s1.sessions[k].agent, [w0]);
    }
    if SomeFits(s.sessions, w, c, e) {
      var k :| 0 <= k < |s.sessions| && Fits(s.sessions[k], w, c, e);
      assert Fits(s1.sessions[k], w, c, e);
    }
    if SomeFits(s1.sessions, w, c, e) {
      var k :| 0 <= k < |s1.sessions| && Fits(s1.sessions[k], w, c, e);
      assert Fits(s.sessions[k], w, c, e);
    }
  }

  lemma {:induction false} DeliveredOpens(s: State, ws: seq<Wiring>, c: Chat, e: Event, i: nat)
    requires i < |ws| && OneEach(ws)
    ensures var s' := Delivered(s, ws, c, e);
      s.sessions <= s'.sessions && OneNew(s'.sessions[|s.sessions|..], ws[i].agent, Opens(s.sessions, ws[i], c, e))
    decreases |ws|
  {
    hide AfterVerdict, Judge, Wakes, KeepsAsContext, SomeFits, OneNew, Among;
    var w := ws[i];
    var opens := Opens(s.sessions, w, c, e);
    var s1, s2 := AfterVerdict(s, ws[0], c, e, Judge(s.sessions, ws[0], c, e)), Delivered(s, ws, c, e);
    TurnAdds(s, ws[0], c, e);
    DeliveredAdds(s1, ws[1..], c, e);
    assert forall j | 0 <= j < |ws| - 1 :: ws[1..][j] == ws[j + 1];
    var a, b := s1.sessions[|s.sessions|..], s2.sessions[|s1.sessions|..];
    assert s2.sessions[|s.sessions|..] == a + b;
    if i == 0 {
      OwnTurnOpens(s, w, c, e);
      NotAmong(w.agent, ws[1..]);
      OthersOpenNothing(s1, s2, ws[1..], w.agent);
      NewJoin(a, b, w.agent, opens, false);
    } else {
      NotAmong(w.agent, [ws[0]]);
      OthersOpenNothing(s, s1, [ws[0]], w.agent);
      OthersDoNotShow(s, s1, ws[0], w, c, e);
      OthersFitNothing(s, s1, ws[0], w, c, e);
      DeliveredOpens(s1, ws[1..], c, e, i - 1);
      NewJoin(a, b, w.agent, false, opens);
    }
  }

  /** A fan-out opens a session for an agent, and only one, exactly if it takes the message
      for it, be it refused by the command gate, and no session fits. */
  lemma OpensIffNoneFits(s: State, ws: seq<Wiring>, c: Chat, e: Event, i: nat)
    requires i < |ws| && OneEach(ws)
    ensures var s', w := FanOut(s, ws, c, e), ws[i];
      s.sessions <= s'.sessions &&
      OneNew(s'.sessions[|s.sessions|..], w.agent,
             (Wakes(s.sessions, w, c, e) || KeepsAsContext(s.sessions, w, c, e)) && !SomeFits(s.sessions, w, c, e))
  {
    hide Delivered, Verdicts, Subscription, NobodyTook, Wakes, KeepsAsContext, SomeFits, OneNew, OneEach;
    DeliveredOpens(s, ws, c, e, i);
  }

  // ----- the subscription -----------------------------------------------------

  lemma {:induction false} VerdictIs(s: State, ws: seq<Wiring>, c: Chat, e: Event, i: nat)
    requires i < |ws| && OneEach(ws)
    ensures Verdicts(s, ws, c, e)[i] == Engaged <==> Wakes(s.sessions, ws[i], c, e)
    ensures Verdicts(s, ws, c, e)[i] == Accumulated <==> KeepsAsContext(s.sessions, ws[i], c, e)
    decreases |ws|
  {
    hide AfterVerdict, Judge, Wakes, KeepsAsContext;
    if i == 0 {
      JudgeIs(s.sessions, ws[0], c, e);
      NotBoth(s.sessions, ws[0], c, e);
    } else {
      var s1 := AfterVerdict(s, ws[0], c, e, Judge(s.sessions, ws[0], c, e));
      TurnAdds(s, ws[0], c, e);
      OthersDoNotShow(s, s1, ws[0], ws[i], c, e);
      assert forall j | 0 <= j < |ws| - 1 :: ws[1..][j] == ws[j + 1];
      VerdictIs(s1, ws[1..], c, e, i - 1);
    }
  }

  /** A mention-sticky wiring that the message wakes, in a group, in a thread it sees, on a
      channel one can subscribe to. */
  predicate WantsThread(sessions: seq<Session>, w: Wiring, c: Chat, e: Event) {
    Wakes(sessions, w, c, e) && w.mode == MentionSticky && c.isGroup && c.canSubscribe && EffectiveThread(w, c, e).Some?
  }

  /** A fan-out subscribes to the message's thread exactly if some wiring wants it, once;
      and it records the message as dropped exactly if no wiring took it. */
  lemma SubscribesIffWanted(s: State, ws: seq<Wiring>, c: Chat, e: Event)
    requires OneEach(ws)
    ensures var s' := FanOut(s, ws, c, e);
      && s'.subscribed == s.subscribed + (if exists i | 0 <= i < |ws| :: WantsThread(s.sessions, ws[i], c, e)
                                          then [(c.id, e.thread.value)] else [])
      && s'.unengaged == s.unengaged + (if exists i | 0 <= i < |ws| ::
                                             Wakes(s.sessions, ws[i], c, e) || KeepsAsContext(s.sessions, ws[i], c, e)
                                        then [] else [e.id])
  {
    hide Delivered, Verdicts, Wakes, KeepsAsContext, OneEach, Subscription, FanOut, NobodyTook;
    var vs := Verdicts(s, ws, c, e);
    forall i | 0 <= i < |ws|
      ensures vs[i] == Engaged && Subscribes(ws[i], c, e) <==> WantsThread(s.sessions, ws[i], c, e)
      ensures vs[i] == Ignored <==> !Wakes(s.sessions, ws[i], c, e) && !KeepsAsContext(s.sessions, ws[i], c, e)
    {
      VerdictIs(s, ws, c, e, i);
      ThreadIs(ws[i], c, e);
    }
    OneSubscribePerMessage(s, ws, c, e);
    assert forall i | 0 <= i < |ws| :: vs[i] in vs;
    assert (forall v | v in vs :: v == Ignored) <==> forall i | 0 <= i < |ws| :: vs[i] == Ignored;
  }
}
