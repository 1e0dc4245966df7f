/** Run health, whatever the callbacks do: every directive gets one verdict, nothing
    dangerous happens after a bounce, and step brackets balance. */
module SkillHealth {
  import opened Text
  import opened Templates
  import opened SkillDirectives
  import opened SkillApply

  // ----- one verdict per directive --------------------------------------------

  function Verdicts(st: State): nat {
    |st.applied| + |st.skipped| + |st.deferred| + |st.tasks|
  }

  /** The verdict lists only grow, and what is new in them is about `d`. */
  predicate Grew(d: Directive, st: State, st': State) {
    var note := [Note(d.kind, d.line)];
    || (&& st'.applied == st.applied + note && st'.skipped == st.skipped
        && st'.deferred == st.deferred && st'.tasks == st.tasks)
    || (&& st'.applied == st.applied && st'.skipped == st.skipped + note
        && st'.deferred == st.deferred && st'.tasks == st.tasks)
    || (&& st'.applied == st.applied && st'.skipped == st.skipped
        && st'.deferred != [] && st'.deferred[..|st'.deferred| - 1] == st.deferred && st'.tasks == st.tasks)
    || (&& st'.applied == st.applied && st'.skipped == st.skipped && st'.deferred == st.deferred
        && st'.tasks != [] && st'.tasks[..|st'.tasks| - 1] == st.tasks
        && st'.tasks[|st'.tasks| - 1].kind == d.kind && st'.tasks[|st'.tasks| - 1].line == d.line)
  }

  /** The directive is a prompt and its answer was bound. */
  predicate BoundPrompt(d: Directive, st: State, st': State) {
    && d.kind.Prompt? && NameOf(d) in st'.vars
    && st'.applied == st.applied && st'.skipped == st.skipped
    && st'.deferred == st.deferred && st'.tasks == st.tasks
  }

  lemma CatchGrows(cfg: Config, d: Directive, st: State, inFlight: bool, message: string)
    ensures Grew(d, st, Catch(cfg, d, st, inFlight, message))
  {
    hide IsUnresolved, Emit;
  }

  lemma PromptVerdict(cfg: Config, d: Directive, st: State)
    requires d.kind.Prompt?
    ensures var st' := DoPrompt(cfg, d, st); Grew(d, st, st') != BoundPrompt(d, st, st')
  {
    hide Normalize, NameOf, Catch, BindPrompt, Grew, BoundPrompt;
    var v := NameOf(d);
    var asked := st.(trace := st.trace + [Asked(v)]);
    forall answer ensures var st' := BindPrompt(cfg, d, st, answer); Grew(d, st, st') != BoundPrompt(d, st, st') {
      BindVerdict(cfg, d, st, st, answer);
    }
    forall answer ensures var st' := BindPrompt(cfg, d, asked, answer); Grew(d, st, st') != BoundPrompt(d, st, st') {
      BindVerdict(cfg, d, st, asked, answer);
    }
    forall m ensures var st' := Catch(cfg, d, asked, false, m); Grew(d, st, st') != BoundPrompt(d, st, st') {
      CatchVerdict(cfg, d, st, asked, m);
    }
    NoAnswerVerdict(d, st, st, v);
    NoAnswerVerdict(d, st, asked, v);
  }

  lemma NoAnswerVerdict(d: Directive, st: State, later: State, v: string)
    requires later == st.(trace := later.trace)
    ensures var st' := later.(deferred := later.deferred + [NoAnswer(v)]); Grew(d, st, st') && !BoundPrompt(d, st, st')
  {
    assert later.deferred + [NoAnswer(v)] != st.deferred;
  }

  lemma CatchVerdict(cfg: Config, d: Directive, st: State, later: State, m: string)
    requires later == st.(trace := later.trace)
    ensures var st' := Catch(cfg, d, later, false, m); Grew(d, st, st') != BoundPrompt(d, st, st')
  {
    hide Catch, NameOf;
    CatchGrows(cfg, d, later, false, m);
  }

  lemma BindVerdict(cfg: Config, d: Directive, st: State, later: State, answer: string)
    requires d.kind.Prompt? && later == st.(trace := later.trace)
    ensures var st' := BindPrompt(cfg, d, later, answer); Grew(d, st, st') != BoundPrompt(d, st, st')
  {
    hide Normalize, NameOf, Catch;
    forall m ensures Grew(d, later, Catch(cfg, d, later, false, m)) { CatchGrows(cfg, d, later, false, m); }
  }

  lemma OperatorVerdict(cfg: Config, d: Directive, st: State)
    ensures Grew(d, st, DoOperator(cfg, d, st))
  {
    hide Substitute, Catch, Emit;
    forall st1, m ensures Grew(d, st1, Catch(cfg, d, st1, false, m)) { CatchGrows(cfg, d, st1, false, m); }
  }

  lemma StepVerdict(cfg: Config, d: Directive, st: State)
    ensures Grew(d, st, DoStep(cfg, d, st))
  {
    hide Catch, ApplyOne, Emit;
    forall st1, f, m ensures Grew(d, st1, Catch(cfg, d, st1, f, m)) { CatchGrows(cfg, d, st1, f, m); }
  }

  lemma SimpleVerdicts(d: Directive, st: State, reason: Reason)
    ensures Grew(d, st, SkipIt(st, d)) && Grew(d, st, Bounce(st, d, reason))
  {
  }

  lemma GrewIsNotBound(d: Directive, st: State, st': State)
    requires Grew(d, st, st')
    ensures !BoundPrompt(d, st, st')
  {
    hide NameOf;
  }

  /** Whatever throws, a directive ends in exactly one of applied, skipped, deferred,
      bounced, or an answered prompt. */
  lemma OneVerdict(cfg: Config, d: Directive, st: State)
    ensures var st' := Process(cfg, d, st); Grew(d, st, st') != BoundPrompt(d, st, st')
  {
    hide DoPrompt, DoOperator, DoStep, SelfStatus, Guarded, Catch, OutsideRefresh, SideEffecting, Grew, BoundPrompt,
         SkipIt, Bounce;
    forall m ensures Grew(d, st, Catch(cfg, d, st, false, m)) { CatchGrows(cfg, d, st, false, m); }
    SimpleVerdicts(d, st, Reason.Gated);
    SimpleVerdicts(d, st, NoHandler);
    if d.kind.Prompt? { PromptVerdict(cfg, d, st); }
    OperatorVerdict(cfg, d, st);
    StepVerdict(cfg, d, st);
    var st' := Process(cfg, d, st);
    if Grew(d, st, st') { GrewIsNotBound(d, st, st'); }
  }

  /** How many prompts of the run were answered and bound. */
  function Answers(cfg: Config, ds: seq<Directive>, st: State): nat {
    if ds == [] then 0
    else
      var st' := Process(cfg, ds[0], st);
      (if BoundPrompt(ds[0], st, st') then 1 else 0) + Answers(cfg, ds[1..], st')
  }

  /** The run never stops early: the verdicts and the answered prompts account for
      every directive of the document. */
  lemma {:induction false} EveryDirectiveIsAccountedFor(cfg: Config, ds: seq<Directive>, st: State)
    ensures Verdicts(RunAll(cfg, ds, st)) + Answers(cfg, ds, st) == Verdicts(st) + |ds|
  {
    hide Process, BoundPrompt;
    if ds != [] {
      OneVerdict(cfg, ds[0], st);
      var st' := Process(cfg, ds[0], st);
      GrewCounts(ds[0], st, st');
      EveryDirectiveIsAccountedFor(cfg, ds[1..], st');
    }
  }

  lemma GrewCounts(d: Directive, st: State, st': State)
    ensures Grew(d, st, st') ==> Verdicts(st') == Verdicts(st) + 1
    ensures BoundPrompt(d, st, st') ==> Verdicts(st') == Verdicts(st)
  {
  }

  // ----- what a directive adds to the trace -----------------------------------

  /** The trace grew, and by what. */
  predicate Longer(st: State, st': State) {
    |st.trace| <= |st'.trace| && st'.trace[..|st.trace|] == st.trace
  }

  predicate Work(d: Directive, e: Event) {
    e.Executed? && e.kind == d.kind && e.line == d.line && e.effect == d.Attr("effect")
  }

  /** The trace grew only by commands run on behalf of `d`. */
  predicate Worked(d: Directive, st: State, st': State) {
    Longer(st, st') && forall i | |st.trace| <= i < |st'.trace| :: Work(d, st'.trace[i])
  }

  lemma WorkedTwice(d: Directive, a: State, b: State, c: State)
    requires Worked(d, a, b) && Worked(d, b, c)
    ensures Worked(d, a, c)
  {
    hide Work;
    assert c.trace[..|a.trace|] == c.trace[..|b.trace|][..|a.trace|];
    forall i | |a.trace| <= i < |c.trace| ensures Work(d, c.trace[i]) {
      if i < |b.trace| { assert c.trace[i] == c.trace[..|b.trace|][i]; }
    }
  }

  lemma LineWorks(cfg: Config, d: Directive, op: LineOp, l: string, st: State)
    ensures Worked(d, st, LineStep(cfg, d, op, l, st).st)
  {
    hide Substitute, BindCapture, SrcOf, DestOf, EnvKeyOf, EnvValueOf, EnvKeySet, AppendLine, InsertLine;
  }

  lemma {:induction false} LinesWork(cfg: Config, d: Directive, op: LineOp, body: seq<string>, st: State)
    ensures Worked(d, st, ForLines(cfg, d, op, body, st).st)
  {
    hide LineStep, Work;
    if body != [] {
      LineWorks(cfg, d, op, body[0], st);
      var st1 := LineStep(cfg, d, op, body[0], st).st;
      LinesWork(cfg, d, op, body[1..], st1);
      WorkedTwice(d, st, st1, ForLines(cfg, d, op, body[1..], st1).st);
    }
  }

  lemma CopyWorks(cfg: Config, d: Directive, st: State)
    ensures Worked(d, st, ApplyCopy(cfg, d, st).st)
  {
    hide ForLines;
    var op, st1 := CopyFile, st;
    if d.Truthy("from-branch") && cfg.resolveRemote(|st.trace|, d.attrs["from-branch"]).Ok? {
      var branch := d.attrs["from-branch"];
      var remote := cfg.resolveRemote(|st.trace|, branch).value;
      op, st1 := ShowBlob(remote, branch), CallExec(cfg, d, st, "git fetch " + remote + " " + branch).st;
    }
    LinesWork(cfg, d, op, d.body, st1);
    var mid := ForLines(cfg, d, op, d.body, st1).st;
    LinesWork(cfg, d, RecordWrote, d.body, mid);
    WorkedTwice(d, st, st1, mid);
    WorkedTwice(d, st, mid, ForLines(cfg, d, RecordWrote, d.body, mid).st);
  }

  lemma DepWorks(cfg: Config, d: Directive, st: State)
    ensures Worked(d, st, ApplyDep(cfg, d, st).st)
  {
    hide DepNames, Join, Split, DepCommand, OnlyWork;
  }

  lemma StepWorks(cfg: Config, d: Directive, st: State)
    ensures Worked(d, st, ApplyStep(cfg, d, st).st)
  {
    hide Substitute, BindFields, Unlines, Split, OnlyWork;
  }

  lemma MergeWorks(cfg: Config, d: Directive, st: State)
    ensures ApplyMerge(cfg, d, st).st.trace == st.trace
  {
    hide Unlines, OnlyWork;
  }

  /** The mutation of a directive runs its own commands and emits nothing. */
  lemma DirectiveWorks(cfg: Config, d: Directive, st: State)
    ensures Worked(d, st, ApplyOne(cfg, d, st).st)
  {
    hide ForLines, ApplyCopy, ApplyDep, ApplyStep, ApplyMerge, OnlyWork, Work;
    CopyWorks(cfg, d, st);
    DepWorks(cfg, d, st);
    StepWorks(cfg, d, st);
    MergeWorks(cfg, d, st);
    forall op ensures Worked(d, st, ForLines(cfg, d, op, d.body, st).st) { LinesWork(cfg, d, op, d.body, st); }
  }

  // ----- nothing dangerous after a bounce -------------------------------------

  /** A restart, an interactive step, a wire, or an instruction to the operator. */
  predicate Dangerous(e: Event) {
    || (e.Executed? && e.kind.Run? && e.effect.Some? && IsSideEffect(e.effect.value))
    || (e.Emitted? && e.what.ShowOperator?)
  }

  predicate NothingAfterBounce(trace: seq<Event>) {
    forall i, j | 0 <= i < j < |trace| :: trace[i].Bounced? ==> !Dangerous(trace[j])
  }

  predicate HasBounce(trace: seq<Event>) {
    exists i | 0 <= i < |trace| :: trace[i].Bounced?
  }

  /** The latch remembers every bounce. */
  predicate Healthy(st: State) {
    NothingAfterBounce(st.trace) && (HasBounce(st.trace) ==> st.blocked)
  }

  /** One directive's contribution: harmless if the run was blocked, and a bounce only
      as its last event, which sets the latch. */
  predicate Careful(st: State, st': State) {
    && Longer(st, st')
    && (st.blocked ==> st'.blocked)
    && (forall i | |st.trace| <= i < |st'.trace| ::
          && (st.blocked ==> !Dangerous(st'.trace[i]))
          && (st'.trace[i].Bounced? ==> i == |st'.trace| - 1 && st'.blocked))
  }

  lemma CarefulKeepsHealth(st: State, st': State)
    requires Healthy(st) && Careful(st, st')
    ensures Healthy(st')
  {
    hide Dangerous;
    forall i | 0 <= i < |st.trace|
      ensures st'.trace[i] == st.trace[i]
    {
      assert st'.trace[..|st.trace|][i] == st.trace[i];
    }
    forall i, j | 0 <= i < j < |st'.trace| && st'.trace[i].Bounced? ensures !Dangerous(st'.trace[j]) {
      if j >= |st.trace| { assert st.trace[i].Bounced?; }
    }
  }

  lemma PromptIsCareful(cfg: Config, d: Directive, st: State)
    ensures Careful(st, DoPrompt(cfg, d, st))
  {
    hide NameOf, BindPrompt, Catch, Careful;
    CarefulSame(st);
    var st1 := st.(trace := st.trace + [Asked(NameOf(d))]);
    AskingIsCareful(st, Asked(NameOf(d)));
    CarefulLists(st, st, st.(deferred := st.deferred + [NoAnswer(NameOf(d))]));
    CarefulLists(st, st1, st1.(deferred := st1.deferred + [NoAnswer(NameOf(d))]));
    forall m ensures Careful(st, Catch(cfg, d, st1, false, m)) { CatchIsCareful(cfg, d, st, st1, false, m); }
    forall answer ensures Careful(st, BindPrompt(cfg, d, st, answer)) { BindIsCareful(cfg, d, st, st, answer); }
    forall answer ensures Careful(st, BindPrompt(cfg, d, st1, answer)) { BindIsCareful(cfg, d, st, st1, answer); }
  }

  lemma CarefulSame(st: State)
    ensures Careful(st, st) && NoBounceSince(st, st)
  {
  }

  lemma AskingIsCareful(st: State, e: Event)
    requires e.Asked?
    ensures var st1 := st.(trace := st.trace + [e]); Careful(st, st1) && NoBounceSince(st, st1)
  {
  }

  lemma BindIsCareful(cfg: Config, d: Directive, st: State, r: State, answer: string)
    requires Careful(st, r) && NoBounceSince(st, r) && r.blocked == st.blocked
    ensures Careful(st, BindPrompt(cfg, d, r, answer))
  {
    hide Normalize, NameOf, Catch;
    forall vars ensures Careful(st, r.(vars := vars)) { CarefulLists(st, r, r.(vars := vars)); }
    forall m ensures Careful(st, Catch(cfg, d, r, false, m)) { CatchIsCareful(cfg, d, st, r, false, m); }
    forall deferred ensures Careful(st, r.(deferred := deferred)) { CarefulLists(st, r, r.(deferred := deferred)); }
    hide Careful, NoBounceSince;
  }

  lemma OperatorIsCareful(cfg: Config, d: Directive, st: State)
    ensures Careful(st, DoOperator(cfg, d, st))
  {
    hide Substitute, IsUnresolved;
  }

  lemma StepIsCareful(cfg: Config, d: Directive, st: State)
    requires st.blocked ==> !SideEffecting(d)
    ensures Careful(st, DoStep(cfg, d, st))
  {
    hide ApplyOne, Catch, Dangerous, IsSideEffect, SideEffecting;
    var s := Emit(cfg, st, StepStart(d.kind, d.line));
    var start := Emitted(StepStart(d.kind, d.line), s.exn.None?);
    assert !Dangerous(start) by { StartIsHarmless(start); }
    if cfg.onEvent.Some? { CarefulPush(st, st, start); }
    if s.exn.Some? {
      CatchIsCareful(cfg, d, st, s.st, false, s.exn.value);
    } else {
      DirectiveWorks(cfg, d, s.st);
      var r := ApplyOne(cfg, d, s.st);
      WorkIsCareful(d, s.st, r.st);
      CarefulThen(st, s.st, r.st);
      if r.exn.Some? {
        CatchIsCareful(cfg, d, st, r.st, true, r.exn.value);
      } else {
        var e := Emit(cfg, r.st, StepEnd(d.kind, d.line, true));
        var end := Emitted(StepEnd(d.kind, d.line, true), e.exn.None?);
        assert !Dangerous(end) by { StartIsHarmless(end); }
        if cfg.onEvent.Some? { CarefulPush(st, r.st, end); }
        if e.exn.Some? { CatchIsCareful(cfg, d, st, e.st, false, e.exn.value); }
      }
    }
  }

  lemma StartIsHarmless(e: Event)
    requires e.Emitted? && !e.what.ShowOperator?
    ensures !Dangerous(e)
  {
  }

  /** The commands of a directive that is no side effect are harmless, and no command
      is a bounce. */
  lemma WorkIsCareful(d: Directive, st: State, st': State)
    requires Worked(d, st, st') && st'.blocked == st.blocked && (st.blocked ==> !SideEffecting(d))
    ensures Careful(st, st') && NoBounceSince(st, st')
  {
    hide IsSideEffect;
    forall i | |st.trace| <= i < |st'.trace| ensures st.blocked ==> !Dangerous(st'.trace[i]) {
      assert Work(d, st'.trace[i]);
    }
  }

  predicate NoBounceSince(st: State, st': State)
    requires Longer(st, st')
  {
    forall i | |st.trace| <= i < |st'.trace| :: !st'.trace[i].Bounced?
  }

  lemma CarefulThen(a: State, b: State, c: State)
    requires Careful(a, b) && NoBounceSince(a, b) && Careful(b, c) && NoBounceSince(b, c)
    requires a.blocked == b.blocked
    ensures Careful(a, c) && NoBounceSince(a, c)
  {
    hide Dangerous;
    assert c.trace[..|a.trace|] == c.trace[..|b.trace|][..|a.trace|];
    forall i | |a.trace| <= i < |b.trace|
      ensures c.trace[i] == b.trace[i]
    {
      assert c.trace[i] == c.trace[..|b.trace|][i];
    }
  }

  /** One more event, harmless or shown only while healthy, and no bounce. */
  lemma CarefulPush(st: State, r: State, e: Event)
    requires Careful(st, r) && NoBounceSince(st, r) && r.blocked == st.blocked
    requires !Dangerous(e) && !e.Bounced?
    ensures var r' := r.(trace := r.trace + [e]); Careful(st, r') && NoBounceSince(st, r')
  {
    hide Dangerous;
    assert (r.trace + [e])[..|st.trace|] == r.trace[..|st.trace|];
  }

  lemma CarefulBounce(st: State, r: State, d: Directive, reason: Reason)
    requires Careful(st, r) && NoBounceSince(st, r) && r.blocked == st.blocked
    ensures Careful(st, Bounce(r, d, reason))
  {
    assert (r.trace + [Bounced(d.line)])[..|st.trace|] == r.trace[..|st.trace|];
  }

  lemma CatchIsCareful(cfg: Config, d: Directive, st: State, r: State, inFlight: bool, m: string)
    requires Careful(st, r) && NoBounceSince(st, r) && r.blocked == st.blocked
    ensures Careful(st, Catch(cfg, d, r, inFlight, m))
  {
    hide IsUnresolved, Careful, NoBounceSince;
    var closed := Emit(cfg, r, StepEnd(d.kind, d.line, false)).st;
    if inFlight && cfg.onEvent.Some? {
      CarefulPush(st, r, closed.trace[|r.trace|]);
      CarefulBounce(st, closed, d, Failed(m));
      CarefulLists(st, closed, closed.(deferred := closed.deferred + [Blocked(m)]));
    } else {
      CarefulBounce(st, r, d, Failed(m));
      CarefulLists(st, r, r.(deferred := r.deferred + [Blocked(m)]));
    }
  }

  /** Only trace and latch matter. */
  lemma CarefulLists(st: State, r: State, r': State)
    requires Careful(st, r) && r'.trace == r.trace && r'.blocked == r.blocked
    ensures Careful(st, r')
  {
    hide Dangerous;
  }

  lemma ProcessIsCareful(cfg: Config, d: Directive, st: State)
    ensures Careful(st, Process(cfg, d, st))
  {
    hide DoPrompt, DoOperator, DoStep, SelfStatus, Guarded, IsUnresolved, OutsideRefresh, IsSideEffect;
    PromptIsCareful(cfg, d, st);
    OperatorIsCareful(cfg, d, st);
    if !(SideEffecting(d) && st.blocked) { StepIsCareful(cfg, d, st); }
  }

  lemma {:induction false} RunIsHealthy(cfg: Config, ds: seq<Directive>, st: State)
    requires Healthy(st)
    ensures Healthy(RunAll(cfg, ds, st))
  {
    hide Process, Healthy;
    if ds != [] {
      ProcessIsCareful(cfg, ds[0], st);
      CarefulKeepsHealth(st, Process(cfg, ds[0], st));
      RunIsHealthy(cfg, ds[1..], Process(cfg, ds[0], st));
    }
  }

  /** From the first bounce of a run on, no restart, step or wire command is run and
      no operator block is shown. */
  lemma NothingDangerousAfterABounce(cfg: Config, ds: seq<Directive>, files: Files)
    ensures NothingAfterBounce(RunAll(cfg, ds, Start(files)).trace)
  {
    RunIsHealthy(cfg, ds, Start(files));
  }

  // ----- brackets -------------------------------------------------------------

  /** A consumer's view of the stream: between steps, inside one, or confused. */
  datatype Phase = Idle | Open(line: nat) | Broken

  function Next(ph: Phase, e: Event): Phase {
    match e
    case Emitted(StepStart(_, line), heard) =>
      if ph.Idle? then (if heard then Open(line) else Idle) else Broken
    case Emitted(StepEnd(_, line, _), _) => if ph == Open(line) then Idle else Broken
    case Emitted(ShowOperator(_, _), _) => if ph.Idle? then Idle else Broken
    case Executed(_, line, _, _) => if ph == Open(line) then ph else Broken
    case Asked(_) => if ph.Idle? then Idle else Broken
    case Bounced(_) => if ph.Idle? then Idle else Broken
  }

  function PhaseAfter(trace: seq<Event>): Phase {
    if trace == [] then Idle else Next(PhaseAfter(trace[..|trace| - 1]), trace[|trace| - 1])
  }

  lemma PhaseOfPushed(trace: seq<Event>, e: Event)
    ensures PhaseAfter(trace + [e]) == Next(PhaseAfter(trace), e)
  {
    assert (trace + [e])[..|trace|] == trace;
  }

  lemma {:induction false} WorkStaysOpen(d: Directive, st: State, st': State)
    requires Worked(d, st, st') && PhaseAfter(st.trace) == Open(d.line)
    ensures PhaseAfter(st'.trace) == Open(d.line)
    decreases |st'.trace|
  {
    if |st'.trace| == |st.trace| {
      assert st'.trace == st'.trace[..|st.trace|];
    } else {
      var n := |st'.trace| - 1;
      var before := st'.(trace := st'.trace[..n]);
      assert st'.trace[..n][..|st.trace|] == st.trace;
      forall i | |st.trace| <= i < n ensures Work(d, before.trace[i]) { assert Work(d, st'.trace[i]); }
      WorkStaysOpen(d, st, before);
      assert Work(d, st'.trace[n]);
    }
  }

  lemma CatchIsIdle(cfg: Config, d: Directive, st: State, inFlight: bool, m: string)
    requires cfg.onEvent.Some?
    requires PhaseAfter(st.trace) == if inFlight then Open(d.line) else Idle
    ensures PhaseAfter(Catch(cfg, d, st, inFlight, m).trace) == Idle
  {
    hide IsUnresolved, PhaseAfter;
    forall tr: seq<Event>, e ensures PhaseAfter(tr + [e]) == Next(PhaseAfter(tr), e) { PhaseOfPushed(tr, e); }
  }

  lemma StepIsBracketed(cfg: Config, d: Directive, st: State)
    requires cfg.onEvent.Some? && PhaseAfter(st.trace).Idle?
    ensures PhaseAfter(DoStep(cfg, d, st).trace).Idle?
  {
    hide ApplyOne, PhaseAfter, Catch;
    var s := Emit(cfg, st, StepStart(d.kind, d.line));
    PhaseOfPushed(st.trace, Emitted(StepStart(d.kind, d.line), s.exn.None?));
    if s.exn.Some? {
      CatchIsIdle(cfg, d, s.st, false, s.exn.value);
    } else {
      var r := ApplyOne(cfg, d, s.st);
      DirectiveWorks(cfg, d, s.st);
      WorkStaysOpen(d, s.st, r.st);
      if r.exn.Some? {
        CatchIsIdle(cfg, d, r.st, true, r.exn.value);
      } else {
        var e := Emit(cfg, r.st, StepEnd(d.kind, d.line, true));
        PhaseOfPushed(r.st.trace, Emitted(StepEnd(d.kind, d.line, true), e.exn.None?));
        if e.exn.Some? { CatchIsIdle(cfg, d, e.st, false, e.exn.value); }
      }
    }
  }

  lemma PromptIsIdle(cfg: Config, d: Directive, st: State)
    requires cfg.onEvent.Some? && PhaseAfter(st.trace).Idle?
    ensures PhaseAfter(DoPrompt(cfg, d, st).trace).Idle?
  {
    hide Normalize, NameOf, PhaseAfter, Catch;
    PhaseOfPushed(st.trace, Asked(NameOf(d)));
    forall st1: State, m | PhaseAfter(st1.trace).Idle? ensures PhaseAfter(Catch(cfg, d, st1, false, m).trace).Idle? {
      CatchIsIdle(cfg, d, st1, false, m);
    }
  }

  lemma OperatorIsIdle(cfg: Config, d: Directive, st: State)
    requires cfg.onEvent.Some? && PhaseAfter(st.trace).Idle?
    ensures PhaseAfter(DoOperator(cfg, d, st).trace).Idle?
  {
    hide Substitute, PhaseAfter, Catch;
    forall tr: seq<Event>, e ensures PhaseAfter(tr + [e]) == Next(PhaseAfter(tr), e) { PhaseOfPushed(tr, e); }
    forall st1: State, m | PhaseAfter(st1.trace).Idle? ensures PhaseAfter(Catch(cfg, d, st1, false, m).trace).Idle? {
      CatchIsIdle(cfg, d, st1, false, m);
    }
  }

  lemma ProcessIsBracketed(cfg: Config, d: Directive, st: State)
    requires cfg.onEvent.Some? && PhaseAfter(st.trace).Idle?
    ensures PhaseAfter(Process(cfg, d, st).trace).Idle?
  {
    hide DoPrompt, DoOperator, DoStep, SelfStatus, Guarded, Catch, OutsideRefresh, SideEffecting, PhaseAfter;
    PromptIsIdle(cfg, d, st);
    OperatorIsIdle(cfg, d, st);
    StepIsBracketed(cfg, d, st);
    PhaseOfPushed(st.trace, Bounced(d.line));
    forall m ensures PhaseAfter(Catch(cfg, d, st, false, m).trace).Idle? { CatchIsIdle(cfg, d, st, false, m); }
  }

  lemma {:induction false} EndsIdle(cfg: Config, ds: seq<Directive>, st: State)
    requires cfg.onEvent.Some? && PhaseAfter(st.trace).Idle?
    ensures PhaseAfter(RunAll(cfg, ds, st).trace).Idle?
  {
    hide Process, PhaseAfter;
    if ds != [] {
      ProcessIsBracketed(cfg, ds[0], st);
      EndsIdle(cfg, ds[1..], Process(cfg, ds[0], st));
    }
  }

  /** The automaton never recovers. */
  lemma {:induction false} BrokenStaysBroken(trace: seq<Event>, n: nat)
    requires n <= |trace| && PhaseAfter(trace[..n]).Broken?
    ensures PhaseAfter(trace).Broken?
    decreases |trace|
  {
    if n == |trace| {
      assert trace[..n] == trace;
    } else {
      assert trace[..|trace| - 1][..n] == trace[..n];
      BrokenStaysBroken(trace[..|trace| - 1], n);
    }
  }

  /** With any consumer, throwing or not, and at every moment of the run: a step-start it
      took is closed by exactly one step-end of the same line before anything else
      begins, and only that step's commands run in between; no step is open at the end. */
  lemma StepsAreBracketed(cfg: Config, ds: seq<Directive>, st: State)
    requires cfg.onEvent.Some? && PhaseAfter(st.trace).Idle?
    ensures var trace := RunAll(cfg, ds, st).trace;
      && PhaseAfter(trace).Idle?
      && forall n | 0 <= n <= |trace| :: !PhaseAfter(trace[..n]).Broken?
  {
    hide RunAll, PhaseAfter;
    EndsIdle(cfg, ds, st);
    var trace := RunAll(cfg, ds, st).trace;
    forall n | 0 <= n <= |trace|
      ensures !PhaseAfter(trace[..n]).Broken?
    {
      if PhaseAfter(trace[..n]).Broken? { BrokenStaysBroken(trace, n); }
    }
  }
}
