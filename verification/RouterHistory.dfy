/** What the fan-out guarantees for each message, and sticky engagement over histories. */
module RouterHistory {
  import opened Text
  import opened Router

  /** One wiring per agent and chat. */
  predicate OneEach(ws: seq<Wiring>) {
    forall i, j | 0 <= i < j < |ws| :: ws[i].agent != ws[j].agent
  }

  predicate Has(s: State, agent: string, chat: string, thread: Option<string>) {
    FindSession(s.sessions, agent, chat, thread).Some?
  }

  /** Another agent's turn changes nothing this agent can look up. */
  lemma OthersKeepMine(s: State, w: Wiring, c: Chat, e: Event, agent: string, thread: Option<string>)
    requires w.agent != agent
    ensures var s' := AfterVerdict(s, w, c, e, Judge(s.sessions, w, c, e));
      FindSession(s'.sessions, agent, c.id, thread) == FindSession(s.sessions, agent, c.id, thread)
  {
    hide Judge, Lookup;
    var s' := AfterVerdict(s, w, c, e, Judge(s.sessions, w, c, e));
    if s'.sessions != s.sessions {
      assert s'.sessions[..|s'.sessions| - 1] == s.sessions;
    }
  }

  // ----- sticky engagement ----------------------------------------------------

  /** A mention-sticky wiring with a session per thread in a group. */
  predicate StickyPerThread(w: Wiring, c: Chat) {
    w.known && w.mode == MentionSticky && w.sessions != AgentShared && ThreadsEnabled(w, c) && c.isGroup
  }

  /** This message leaves a session behind: under `drop` a mention that passes both
      gates; under `accumulate` also any message that mentions nobody. */
  predicate Opens(w: Wiring, e: Event) {
    if w.policy == Accumulate then !e.isMention || Gates(w, e) else e.isMention && Gates(w, e)
  }

  lemma OwnTurn(s: State, w: Wiring, c: Chat, e: Event, thread: Option<string>)
    requires StickyPerThread(w, c) && thread != Some("")
    ensures var s' := AfterVerdict(s, w, c, e, Judge(s.sessions, w, c, e));
      Has(s', w.agent, c.id, thread) <==> Has(s, w.agent, c.id, thread) || (e.thread == thread && Opens(w, e))
  {
    var s' := AfterVerdict(s, w, c, e, Judge(s.sessions, w, c, e));
    if s'.sessions != s.sessions {
      assert s'.sessions == s.sessions + [Session(w.agent, c.id, e.thread)];
      assert s'.sessions[..|s'.sessions| - 1] == s.sessions;
    }
  }

  /** The session for a thread after a whole fan-out; what came before this wiring's
      turn did not matter. */
  lemma {:induction false} FanOutHas(s: State, ws: seq<Wiring>, i: nat, c: Chat, e: Event, thread: Option<string>)
    requires i < |ws| && OneEach(ws) && StickyPerThread(ws[i], c) && thread != Some("")
    ensures Has(Delivered(s, ws, c, e), ws[i].agent, c.id, thread)
      <==> Has(s, ws[i].agent, c.id, thread) || (e.thread == thread && Opens(ws[i], e))
    ensures Verdicts(s, ws, c, e)[i] == Judge(s.sessions, ws[i], c, e)
    decreases |ws|
  {
    hide Opens, Gates, AfterVerdict, Judge, FindSession;
    var v := Judge(s.sessions, ws[0], c, e);
    var s1 := AfterVerdict(s, ws[0], c, e, v);
    assert forall j | 0 <= j < |ws| - 1 :: ws[1..][j] == ws[j + 1];
    if i == 0 {
      OwnTurn(s, ws[0], c, e, thread);
      RestKeepsMine(s1, ws[1..], c, e, ws[0].agent, thread);
    } else {
      OthersKeepMine(s, ws[0], c, e, ws[i].agent, thread);
      FanOutHas(s1, ws[1..], i - 1, c, e, thread);
      OthersKeepMine(s, ws[0], c, e, ws[i].agent, e.thread);
      SameJudgement(s, s1, ws[i], c, e);
    }
  }

  lemma SameJudgement(s: State, s1: State, w: Wiring, c: Chat, e: Event)
    requires StickyPerThread(w, c)
    requires FindSession(s1.sessions, w.agent, c.id, e.thread) == FindSession(s.sessions, w.agent, c.id, e.thread)
    ensures Judge(s1.sessions, w, c, e) == Judge(s.sessions, w, c, e)
  {
    hide FindSession;
  }

  lemma {:induction false} RestKeepsMine(s: State, ws: seq<Wiring>, c: Chat, e: Event, agent: string,
      thread: Option<string>)
    requires forall i | 0 <= i < |ws| :: ws[i].agent != agent
    ensures FindSession(Delivered(s, ws, c, e).sessions, agent, c.id, thread) ==
            FindSession(s.sessions, agent, c.id, thread)
    decreases |ws|
  {
    hide AfterVerdict, Judge, FindSession;
    if ws != [] {
      OthersKeepMine(s, ws[0], c, e, agent, thread);
      RestKeepsMine(AfterVerdict(s, ws[0], c, e, Judge(s.sessions, ws[0], c, e)), ws[1..], c, e, agent, thread);
    }
  }

  function Conversation(s: State, ws: seq<Wiring>, c: Chat, events: seq<Event>): State
    decreases |events|
  {
    if events == [] then s else FanOut(Conversation(s, ws, c, events[..|events| - 1]), ws, c, events[|events| - 1])
  }

  predicate OpenedBefore(w: Wiring, events: seq<Event>, n: nat, thread: Option<string>)
    requires n <= |events|
  {
    exists j :: 0 <= j < n && events[j].thread == thread && Opens(w, events[j])
  }

  lemma {:induction false} SessionIffOpened(s: State, ws: seq<Wiring>, i: nat, c: Chat, events: seq<Event>,
      thread: Option<string>)
    requires i < |ws| && OneEach(ws) && StickyPerThread(ws[i], c) && thread != Some("")
    requires !Has(s, ws[i].agent, c.id, thread)
    ensures Has(Conversation(s, ws, c, events), ws[i].agent, c.id, thread) <==>
            OpenedBefore(ws[i], events, |events|, thread)
    decreases |events|
  {
    hide Opens, Delivered, Verdicts, FindSession, StickyPerThread, Subscription, NobodyTook, OneEach;
    if events != [] {
      var n := |events| - 1;
      var s1 := Conversation(s, ws, c, events[..n]);
      SessionIffOpened(s, ws, i, c, events[..n], thread);
      assert forall j | 0 <= j < n :: events[..n][j] == events[j];
      FanOutHas(s1, ws, i, c, events[n], thread);
      if events[n].thread == thread && Opens(ws[i], events[n]) { assert OpenedBefore(ws[i], events, |events|, thread); }
    }
  }

  /** Sticky engagement: in a conversation, a mention-sticky wiring engages on a message
      if and only if the gates let it and it is a mention, or an earlier message of the
      same thread opened the thread. Under `drop` that is an earlier gated mention. */
  lemma StickyEngagement(s: State, ws: seq<Wiring>, i: nat, c: Chat, events: seq<Event>, n: nat)
    requires i < |ws| && OneEach(ws) && StickyPerThread(ws[i], c) && n < |events| && events[n].thread != Some("")
    requires !Has(s, ws[i].agent, c.id, events[n].thread)
    ensures Verdicts(Conversation(s, ws, c, events[..n]), ws, c, events[n])[i] == Engaged <==>
      Gates(ws[i], events[n]) && (events[n].isMention || OpenedBefore(ws[i], events, n, events[n].thread))
  {
    hide Opens, Gates, Delivered, Verdicts, Conversation, FindSession;
    var e := events[n];
    var s1 := Conversation(s, ws, c, events[..n]);
    SessionIffOpened(s, ws, i, c, events[..n], e.thread);
    assert forall j | 0 <= j < n :: events[..n][j] == events[j];
    FanOutHas(s1, ws, i, c, e, e.thread);
  }

  /** With `accumulate` the agent joins a thread nobody called it to: the second of two
      plain messages engages it. */
  lemma AccumulateEngagesUncalled(s: State, w: Wiring, c: Chat, first: Event, second: Event)
    requires StickyPerThread(w, c) && !first.isMention && !second.isMention && Gates(w, second)
    requires first.thread == second.thread && first.thread != Some("") && !Has(s, w.agent, c.id, first.thread)
    ensures Verdicts(Conversation(s, [w], c, [first]), [w], c, second)[0] == Engaged <==> w.policy == Accumulate
  {
    hide Delivered, Verdicts, Conversation, FindSession, Gates;
    var events := [first, second];
    StickyEngagement(s, [w], 0, c, events, 1);
    assert events[..1] == [first];
    if w.policy == Accumulate { assert events[0].thread == second.thread && Opens(w, events[0]); }
  }

  /** An empty thread id is stored but never found: its thread does not become sticky. */
  lemma EmptyThreadDoesNotStick(s: State, w: Wiring, c: Chat, first: Event, second: Event)
    requires StickyPerThread(w, c) && first.isMention && Gates(w, first) && !second.isMention
    requires first.thread == second.thread == Some("") && !Has(s, w.agent, c.id, None)
    ensures Verdicts(Conversation(s, [w], c, [first]), [w], c, second)[0] != Engaged
  {
    hide Gates;
    EmptyIsNone(s.sessions, w.agent, c.id);
    var s1 := AfterVerdict(s, w, c, first, Judge(s.sessions, w, c, first));
    assert [w][1..] == [] && [first][..0] == [];
    assert Delivered(s, [w], c, first) == s1;
    assert Conversation(s, [w], c, [first]).sessions == s1.sessions;
    assert s1.sessions == s.sessions + [Session(w.agent, c.id, Some(""))];
    assert s1.sessions[..|s.sessions|] == s.sessions;
    EmptyIsNone(s1.sessions, w.agent, c.id);
    assert !Has(s1, w.agent, c.id, None);
  }

  lemma {:induction false} EmptyIsNone(sessions: seq<Session>, agent: string, chat: string)
    ensures FindSession(sessions, agent, chat, Some("")) == FindSession(sessions, agent, chat, None)
    decreases |sessions|
  {
    if sessions != [] { EmptyIsNone(sessions[..|sessions| - 1], agent, chat); }
  }

  // ----- every message --------------------------------------------------------

  function CountFor(messages: seq<Message>, agent: string): nat {
    if messages == [] then 0
    else CountFor(messages[..|messages| - 1], agent) + if messages[|messages| - 1].agent == agent then 1 else 0
  }

  lemma OneTurnCounts(s: State, w: Wiring, c: Chat, e: Event, agent: string)
    ensures var v := Judge(s.sessions, w, c, e); var s' := AfterVerdict(s, w, c, e, v);
      CountFor(s'.messages, agent) ==
          CountFor(s.messages, agent) + if w.agent == agent && v != Ignored && e.command(agent) == Pass then 1 else 0
  {
    hide Judge, ResolveSession;
    var s' := AfterVerdict(s, w, c, e, Judge(s.sessions, w, c, e));
    if s'.messages != s.messages { assert s'.messages[..|s'.messages| - 1] == s.messages; }
  }

  lemma {:induction false} NoneOfMine(s: State, ws: seq<Wiring>, c: Chat, e: Event, agent: string)
    requires forall i | 0 <= i < |ws| :: ws[i].agent != agent
    ensures CountFor(Delivered(s, ws, c, e).messages, agent) == CountFor(s.messages, agent)
    decreases |ws|
  {
    hide AfterVerdict, Judge, CountFor;
    if ws != [] {
      OneTurnCounts(s, ws[0], c, e, agent);
      NoneOfMine(AfterVerdict(s, ws[0], c, e, Judge(s.sessions, ws[0], c, e)), ws[1..], c, e, agent);
    }
  }

  /** Each wiring handles a message at most once: one row if it engaged or accumulated
      and the command gate passed, and none otherwise, refused ones included. */
  lemma {:induction false} HandledAtMostOnce(s: State, ws: seq<Wiring>, c: Chat, e: Event, i: nat)
    requires i < |ws| && OneEach(ws)
    ensures CountFor(FanOut(s, ws, c, e).messages, ws[i].agent)
      == CountFor(s.messages, ws[i].agent) + if Verdicts(s, ws, c, e)[i] != Ignored && e.command(ws[i].agent) == Pass
          then 1 else 0
    decreases |ws|
  {
    hide AfterVerdict, Judge, CountFor, Subscription, NobodyTook;
    OneTurnCounts(s, ws[0], c, e, ws[i].agent);
    var s1 := AfterVerdict(s, ws[0], c, e, Judge(s.sessions, ws[0], c, e));
    assert forall j | 0 <= j < |ws| - 1 :: ws[1..][j] == ws[j + 1];
    if i == 0 {
      NoneOfMine(s1, ws[1..], c, e, ws[0].agent);
    } else {
      HandledAtMostOnce(s1, ws[1..], c, e, i - 1);
    }
  }

  /** A message the gates refuse is stored nowhere: no row and no session of that agent. */
  lemma {:induction false} RefusedIsStoredNowhere(s: State, ws: seq<Wiring>, c: Chat, e: Event, i: nat)
    requires i < |ws| && OneEach(ws)
    requires EvaluateEngage(s.sessions, ws[i], c, e) && !Gates(ws[i], e)
    ensures var s' := FanOut(s, ws, c, e);
      && CountFor(s'.messages, ws[i].agent) == CountFor(s.messages, ws[i].agent)
      && (forall thread :: FindSession(s'.sessions, ws[i].agent, c.id, thread) ==
           FindSession(s.sessions, ws[i].agent, c.id, thread))
    decreases |ws|
  {
    hide AfterVerdict, CountFor, Subscription, NobodyTook, FindSession, EvaluateEngage, Gates;
    var w := ws[i];
    OneTurnCounts(s, ws[0], c, e, w.agent);
    var s1 := AfterVerdict(s, ws[0], c, e, Judge(s.sessions, ws[0], c, e));
    assert forall j | 0 <= j < |ws| - 1 :: ws[1..][j] == ws[j + 1];
    if i == 0 {
      assert s1 == s by { IgnoredStays(s, w, c, e); }
      NoneOfMine(s1, ws[1..], c, e, w.agent);
      forall thread
        ensures FindSession(Delivered(s, ws, c, e).sessions, w.agent, c.id, thread) ==
                FindSession(s.sessions, w.agent, c.id, thread)
      {
        RestKeepsMine(s1, ws[1..], c, e, w.agent, thread);
      }
    } else {
      forall thread
        ensures FindSession(s1.sessions, w.agent, c.id, thread) == FindSession(s.sessions, w.agent, c.id, thread)
      {
        OthersKeepMine(s, ws[0], c, e, w.agent, thread);
      }
      SameEngage(s, s1, w, c, e);
      RefusedIsStoredNowhere(s1, ws[1..], c, e, i - 1);
    }
  }

  lemma IgnoredStays(s: State, w: Wiring, c: Chat, e: Event)
    requires EvaluateEngage(s.sessions, w, c, e) && !Gates(w, e)
    ensures AfterVerdict(s, w, c, e, Judge(s.sessions, w, c, e)) == s
  {
    hide EvaluateEngage, Gates;
  }

  lemma SameEngage(s: State, s1: State, w: Wiring, c: Chat, e: Event)
    requires forall thread ::
            FindSession(s1.sessions, w.agent, c.id, thread) == FindSession(s.sessions, w.agent, c.id, thread)
    ensures EvaluateEngage(s1.sessions, w, c, e) == EvaluateEngage(s.sessions, w, c, e)
  {
    hide FindSession, ThreadFor;
  }

  lemma {:induction false} SubscriptionMeans(ws: seq<Wiring>, vs: seq<Verdict>, c: Chat, e: Event)
    requires |vs| == |ws|
    ensures |Subscription(ws, vs, c, e)| <= 1
    ensures Subscription(ws, vs, c, e) != [] <==>
            exists i :: 0 <= i < |ws| && vs[i] == Engaged && Subscribes(ws[i], c, e)
    ensures Subscription(ws, vs, c, e) != [] ==>
            e.thread.Some? && Subscription(ws, vs, c, e) == [(c.id, e.thread.value)]
  {
    if ws != [] {
      SubscriptionMeans(ws[1..], vs[1..], c, e);
      assert forall i | 0 <= i < |ws| - 1 :: ws[1..][i] == ws[i + 1] && vs[1..][i] == vs[i + 1];
      if vs[0] == Engaged && Subscribes(ws[0], c, e) {
        assert exists i :: 0 <= i < |ws| && vs[i] == Engaged && Subscribes(ws[i], c, e);
      } else if exists i :: 0 <= i < |ws| && vs[i] == Engaged && Subscribes(ws[i], c, e) {
        var i :| 0 <= i < |ws| && vs[i] == Engaged && Subscribes(ws[i], c, e);
        assert vs[1..][i - 1] == Engaged && Subscribes(ws[1..][i - 1], c, e);
      }
    }
  }

  /** At most one subscribe per message: of its thread, exactly when some mention-sticky
      wiring engaged in it; and a message is recorded as dropped if nobody took it. */
  lemma OneSubscribePerMessage(s: State, ws: seq<Wiring>, c: Chat, e: Event)
    ensures var s', vs := FanOut(s, ws, c, e), Verdicts(s, ws, c, e);
      var wanted := exists i :: 0 <= i < |ws| && vs[i] == Engaged && Subscribes(ws[i], c, e);
      && (wanted ==> e.thread.Some? && s'.subscribed == s.subscribed + [(c.id, e.thread.value)])
      && (!wanted ==> s'.subscribed == s.subscribed)
      && s'.unengaged == s.unengaged + if forall v | v in vs :: v == Ignored then [e.id] else []
  {
    hide Subscription, Subscribes, AfterVerdict, Judge;
    SubscriptionMeans(ws, Verdicts(s, ws, c, e), c, e);
    DeliveredKeepsRest(s, ws, c, e);
  }

  lemma {:induction false} DeliveredKeepsRest(s: State, ws: seq<Wiring>, c: Chat, e: Event)
    ensures var s' := Delivered(s, ws, c, e); s'.subscribed == s.subscribed && s'.unengaged == s.unengaged
    decreases |ws|
  {
    hide Judge;
    if ws != [] { DeliveredKeepsRest(AfterVerdict(s, ws[0], c, e, Judge(s.sessions, ws[0], c, e)), ws[1..], c, e); }
  }
}
