/** Inbound routing: one message fanned out over the agents wired to its chat, and what
    that makes of mention-sticky engagement over a whole conversation. */
module Router {
  import opened Text

  datatype EngageMode = Pattern(pattern: Option<string>) | Mention | MentionSticky | UnknownMode
  datatype SessionMode = Shared | PerThread | AgentShared
  datatype Policy = Drop | Accumulate

  datatype Wiring = Wiring(
    agent: string,
    known: bool,             // its agent group still exists
    mode: EngageMode,
    sessions: SessionMode,
    policy: Policy,
    threads: Option<bool>)   // override; None inherits the channel's declaration

  /** The chat and its channel. */
  datatype Chat = Chat(id: string, isGroup: bool, declaredThreads: bool, supportsThreads: bool, canSubscribe: bool)

  datatype CommandGate = Pass | Filter | Deny

  /** A message, with the answers of the gates to it, agent by agent, and of the regular
      expressions; `None` is a pattern that does not compile. */
  datatype Event = Event(
    id: string,
    thread: Option<string>,
    isMention: bool,
    matches: string -> Option<bool>,
    access: string -> bool,
    scope: string -> bool,
    command: string -> CommandGate)

  datatype Session = Session(agent: string, chat: string, thread: Option<string>)

  /** A row in a session's inbox: `trigger` wakes the agent, otherwise it is context. */
  datatype Message = Message(session: nat, agent: string, event: string, trigger: bool)

  /** All sessions are active; rows of system sessions are not among them. */
  datatype State = State(
    sessions: seq<Session>,
    messages: seq<Message>,
    denials: seq<(nat, string)>,        // permission-denied answers, by session
    subscribed: seq<(string, string)>,  // chat, thread
    unengaged: seq<string>)             // messages recorded as dropped

  // ----- one wiring -----------------------------------------------------------

  /** `resolveThreadPolicy` */
  function ThreadsEnabled(w: Wiring, c: Chat): bool {
    (if w.threads.Some? then w.threads.value else c.declaredThreads) && c.supportsThreads
  }

  function ThreadFor(w: Wiring, c: Chat, e: Event): Option<string> {
    if ThreadsEnabled(w, c) then e.thread else None
  }

  /** The lookup takes an empty thread id for none. */
  predicate Finds(s: Session, agent: string, chat: string, thread: Option<string>) {
    s.agent == agent && s.chat == chat && s.thread == (if thread == Some("") then None else thread)
  }

  function FindSession(sessions: seq<Session>, agent: string, chat: string, thread: Option<string>): (r: Option<nat>)
    ensures r.Some? ==> r.value < |sessions|
  {
    if sessions == [] then None
    else if Finds(sessions[|sessions| - 1], agent, chat, thread) then Some(|sessions| - 1)
    else FindSession(sessions[..|sessions| - 1], agent, chat, thread)
  }

  /** The latest session of the agent, in whatever chat. */
  function FindByAgent(sessions: seq<Session>, agent: string): (r: Option<nat>)
    ensures r.Some? ==> r.value < |sessions|
  {
    if sessions == [] then None
    else if sessions[|sessions| - 1].agent == agent then Some(|sessions| - 1)
    else FindByAgent(sessions[..|sessions| - 1], agent)
  }

  function Lookup(sessions: seq<Session>, agent: string, chat: string, thread: Option<string>,
      mode: SessionMode): (r: Option<nat>)
    ensures r.Some? ==> r.value < |sessions|
  {
    match mode
    case AgentShared => FindByAgent(sessions, agent)
    case Shared => FindSession(sessions, agent, chat, None)
    case PerThread => FindSession(sessions, agent, chat, thread)
  }

  /** `resolveSession`: the sessions after it, and which one it is. */
  function ResolveSession(sessions: seq<Session>, agent: string, chat: string, thread: Option<string>,
      mode: SessionMode): (seq<Session>, nat)
  {
    var existing := Lookup(sessions, agent, chat, thread, mode);
    if existing.Some? then (sessions, existing.value)
    else (sessions + [Session(agent, chat, if mode == PerThread then thread else None)], |sessions|)
  }

  function EvaluateEngage(sessions: seq<Session>, w: Wiring, c: Chat, e: Event): bool {
    match w.mode
    case Pattern(pattern) =>
      var p := if pattern.Some? then pattern.value else ".";
      if p == "." then true else if e.matches(p).Some? then e.matches(p).value else true
    case Mention => e.isMention
    case MentionSticky => e.isMention || (c.isGroup && FindSession(sessions, w.agent, c.id, ThreadFor(w, c, e)).Some?)
    case UnknownMode => false
  }

  function ModeFor(w: Wiring, c: Chat): SessionMode {
    if ThreadsEnabled(w, c) && w.sessions != AgentShared && c.isGroup then PerThread else w.sessions
  }

  /** `deliverToAgent`: the session comes first, the command gate after it. */
  function Deliver(s: State, w: Wiring, c: Chat, e: Event, wake: bool): State {
    var (sessions, n) := ResolveSession(s.sessions, w.agent, c.id, ThreadFor(w, c, e), ModeFor(w, c));
    match e.command(w.agent)
    case Filter => s.(sessions := sessions)
    case Deny => s.(sessions := sessions, denials := s.denials + [(n, e.id)])
    case Pass => s.(sessions := sessions, messages := s.messages + [Message(n, w.agent, e.id, wake)])
  }

  datatype Verdict = Engaged | Accumulated | Ignored

  function Gates(w: Wiring, e: Event): bool {
    e.access(w.agent) && e.scope(w.agent)
  }

  function Judge(sessions: seq<Session>, w: Wiring, c: Chat, e: Event): Verdict {
    var engages := EvaluateEngage(sessions, w, c, e);
    if !w.known then Ignored
    else if engages && Gates(w, e) then Engaged
    else if w.policy == Accumulate && !engages then Accumulated
    else Ignored
  }

  /** The wiring asks for a subscription of its thread when it engages. */
  predicate Subscribes(w: Wiring, c: Chat, e: Event) {
    w.mode == MentionSticky && c.canSubscribe && ThreadFor(w, c, e).Some? && c.isGroup
  }

  function AfterVerdict(s: State, w: Wiring, c: Chat, e: Event, verdict: Verdict): State {
    match verdict
    case Engaged => Deliver(s, w, c, e, true)
    case Accumulated => Deliver(s, w, c, e, false)
    case Ignored => s
  }

  /** The loop over the wirings, then the record of a message nobody took. */
  function Verdicts(s: State, ws: seq<Wiring>, c: Chat, e: Event): (vs: seq<Verdict>)
    ensures |vs| == |ws|
    decreases |ws|
  {
    if ws == [] then []
    else
      var v := Judge(s.sessions, ws[0], c, e);
      [v] + Verdicts(AfterVerdict(s, ws[0], c, e, v), ws[1..], c, e)
  }

  function Delivered(s: State, ws: seq<Wiring>, c: Chat, e: Event): State
    decreases |ws|
  {
    if ws == [] then s
    else Delivered(AfterVerdict(s, ws[0], c, e, Judge(s.sessions, ws[0], c, e)), ws[1..], c, e)
  }

  /** The first engaging wiring that wants one gets the message's only subscription. */
  function Subscription(ws: seq<Wiring>, vs: seq<Verdict>, c: Chat, e: Event): seq<(string, string)>
    requires |vs| == |ws|
  {
    if ws == [] then []
    else if vs[0] == Engaged && Subscribes(ws[0], c, e) then [(c.id, ThreadFor(ws[0], c, e).value)]
    else Subscription(ws[1..], vs[1..], c, e)
  }

  predicate NobodyTook(vs: seq<Verdict>) {
    forall v | v in vs :: v == Ignored
  }

  function FanOut(s: State, ws: seq<Wiring>, c: Chat, e: Event): State {
    var vs := Verdicts(s, ws, c, e);
    var s' := Delivered(s, ws, c, e);
    s'.(subscribed := s'.subscribed + Subscription(ws, vs, c, e),
        unengaged := if NobodyTook(vs) then s'.unengaged + [e.id] else s'.unengaged)
  }

  // ----- the loop -------------------------------------------------------------

  class InboundRouter {
    var sessions: seq<Session>
    var messages: seq<Message>
    var denials: seq<(nat, string)>
    var subscribed: seq<(string, string)>
    var unengaged: seq<string>

    ghost function Now(): State
      reads this
    {
      State(sessions, messages, denials, subscribed, unengaged)
    }

    /** The state with the subscriptions of `s`. */
    ghost function Quiet(s: State): State
      reads this
    {
      Now().(subscribed := s.subscribed)
    }

    constructor ()
      ensures Now() == State([], [], [], [], [])
    {
      sessions, messages, denials, subscribed, unengaged := [], [], [], [], [];
    }

    method DeliverToAgent(w: Wiring, c: Chat, e: Event, wake: bool)
      modifies this
      ensures Now() == Deliver(old(Now()), w, c, e, wake)
    {
      var threadsEnabled := ThreadsEnabled(w, c);
      var thread := if threadsEnabled then e.thread else None;
      var mode := w.sessions;
      if threadsEnabled && mode != AgentShared && c.isGroup {
        mode := PerThread;
      }
      var (all, n) := ResolveSession(sessions, w.agent, c.id, thread, mode);
      sessions := all;
      var gate := e.command(w.agent);
      if gate == Filter { return; }
      if gate == Deny {
        denials := denials + [(n, e.id)];
        return;
      }
      messages := messages + [Message(n, w.agent, e.id, wake)];
    }

    /** One turn of the loop, up to the subscription. */
    method HandleWiring(w: Wiring, c: Chat, e: Event) returns (verdict: Verdict)
      modifies this
      ensures verdict == Judge(old(sessions), w, c, e)
      ensures Now() == AfterVerdict(old(Now()), w, c, e, verdict)
    {
      hide Deliver, EvaluateEngage, Gates;
      if !w.known { return Ignored; }
      var engages := EvaluateEngage(sessions, w, c, e);
      var gates := engages && Gates(w, e);
      if engages && gates {
        DeliverToAgent(w, c, e, true);
        return Engaged;
      } else if w.policy == Accumulate && !(engages && !gates) {
        DeliverToAgent(w, c, e, false);
        return Accumulated;
      }
      return Ignored;
    }

    method FanOutMessage(ws: seq<Wiring>, c: Chat, e: Event) returns (engagedCount: nat, accumulatedCount: nat)
      modifies this
      ensures Now() == FanOut(old(Now()), ws, c, e)
      ensures engagedCount + accumulatedCount == 0 <==> NobodyTook(Verdicts(old(Now()), ws, c, e))
    {
      hide Judge, AfterVerdict, NobodyTook;
      engagedCount, accumulatedCount := 0, 0;
      var isSubscribed := false;
      ghost var s := Now();
      ghost var vs := Verdicts(s, ws, c, e);
      NobodyAtFirst();
      assert vs[..0] == [] && ws[0..] == ws && vs[0..] == vs;
      var i := 0;
      while i < |ws|
        invariant 0 <= i <= |ws|
        invariant unengaged == s.unengaged
        invariant Verdicts(Quiet(s), ws[i..], c, e) == vs[i..]
        invariant Delivered(Quiet(s), ws[i..], c, e) == Delivered(s, ws, c, e)
        invariant isSubscribed ==> subscribed == s.subscribed + Subscription(ws, vs, c, e)
        invariant !isSubscribed ==>
                  subscribed == s.subscribed && Subscription(ws[i..], vs[i..], c, e) == Subscription(ws, vs, c, e)
        invariant engagedCount + accumulatedCount == 0 <==> NobodyTook(vs[..i])
      {
        var w := ws[i];
        assert ws[i..][0] == w && ws[i..][1..] == ws[i + 1..] && vs[i..][1..] == vs[i + 1..] && vs[i..][0] == vs[i];
        assert vs[..i + 1] == vs[..i] + [vs[i]];
        NobodyYet(vs[..i], vs[i]);
        ghost var before, was := Now(), Quiet(s);
        var verdict := HandleWiring(w, c, e);
        TurnKeepsRest(before, was, w, c, e, verdict);
        if verdict == Engaged {
          engagedCount := engagedCount + 1;
          if !isSubscribed && Subscribes(w, c, e) {
            isSubscribed := true;
            subscribed := subscribed + [(c.id, ThreadFor(w, c, e).value)];
          }
        } else if verdict == Accumulated {
          accumulatedCount := accumulatedCount + 1;
        }
        i := i + 1;
      }
      assert vs[..i] == vs && ws[i..] == [] && vs[i..] == [];
      if engagedCount + accumulatedCount == 0 {
        unengaged := unengaged + [e.id];
      }
    }
  }

  /** The subscriptions play no part in the deliveries. */
  lemma TurnKeepsRest(s: State, was: State, w: Wiring, c: Chat, e: Event, verdict: Verdict)
    requires was == s.(subscribed := was.subscribed)
    ensures var s' := AfterVerdict(s, w, c, e, verdict);
      s'.subscribed == s.subscribed && s'.unengaged == s.unengaged &&
          AfterVerdict(was, w, c, e, verdict) == s'.(subscribed := was.subscribed)
  {
  }

  lemma NobodyAtFirst()
    ensures NobodyTook([])
  {
  }

  lemma NobodyYet(vs: seq<Verdict>, v: Verdict)
    ensures NobodyTook(vs + [v]) <==> NobodyTook(vs) && v == Ignored
  {
    assert forall u | u in vs :: u in vs + [v];
    assert v in vs + [v];
  }
}
