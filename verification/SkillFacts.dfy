/** Facts about single interpreter steps that the larger results share. */
module SkillFacts {
  import opened Text
  import opened Templates
  import opened SkillDirectives
  import opened SkillApply

  /** The directive gets as far as its bracketed mutation. */
  predicate Applies(cfg: Config, d: Directive, st: State) {
    && !(cfg.mode.Refresh? && OutsideRefresh(d))
    && !Guarded(d, st.vars)
    && !d.kind.Prompt? && !d.kind.Operator?
    && !(d.kind.Run? && "effect" in d.attrs && d.attrs["effect"] in cfg.skipEffects)
    && !(SideEffecting(d) && st.blocked)
    && SelfStatus(cfg, d, st.files) == Ok(Apply)
  }

  /** The state in which the mutation starts. */
  function Started(cfg: Config, d: Directive, st: State): State {
    Emit(cfg, st, StepStart(d.kind, d.line)).st
  }

  function Mutated(cfg: Config, d: Directive, st: State): Done {
    ApplyOne(cfg, d, Started(cfg, d, st))
  }

  lemma CatchIsSeen(cfg: Config, d: Directive, st: State, inFlight: bool, message: string)
    ensures !FullyApplied(Catch(cfg, d, st, inFlight, message))
  {
    hide IsUnresolved;
  }

  lemma CleanPrompt(cfg: Config, d: Directive, st: State)
    requires FullyApplied(DoPrompt(cfg, d, st))
    ensures var p := DoPrompt(cfg, d, st);
      FullyApplied(st) && p.blocked == st.blocked && p.files == st.files && p.journal == st.journal
  {
    hide Catch, Normalize, NameOf;
    forall st1, m ensures !FullyApplied(Catch(cfg, d, st1, false, m)) { CatchIsSeen(cfg, d, st1, false, m); }
  }

  lemma CleanOperator(cfg: Config, d: Directive, st: State)
    requires FullyApplied(DoOperator(cfg, d, st))
    ensures var p := DoOperator(cfg, d, st);
      FullyApplied(st) && p.blocked == st.blocked && p.files == st.files && p.journal == st.journal && p.vars == st.vars
  {
    hide Catch, Substitute, Emit;
    forall st1, m ensures !FullyApplied(Catch(cfg, d, st1, false, m)) { CatchIsSeen(cfg, d, st1, false, m); }
  }

  lemma CleanStep(cfg: Config, d: Directive, st: State)
    requires FullyApplied(DoStep(cfg, d, st))
    ensures var p := DoStep(cfg, d, st); var m := Mutated(cfg, d, st);
      && FullyApplied(st) && p.blocked == st.blocked
      && m.exn.None? && p.files == m.st.files && p.journal == m.st.journal && p.vars == m.st.vars
  {
    hide Catch, ApplyOne, Emit;
    forall st1, f, m ensures !FullyApplied(Catch(cfg, d, st1, f, m)) { CatchIsSeen(cfg, d, st1, f, m); }
  }

  /** A directive that left nothing deferred and nothing bounced either did not touch
      files or journal, or ran its mutation to the end without throwing. */
  lemma CleanProcess(cfg: Config, d: Directive, st: State)
    requires FullyApplied(Process(cfg, d, st))
    ensures FullyApplied(st)
    ensures var p := Process(cfg, d, st); var m := Mutated(cfg, d, st);
      && p.blocked == st.blocked
      && if Applies(cfg, d, st)
         then m.exn.None? && p.files == m.st.files && p.journal == m.st.journal && p.vars == m.st.vars
         else p.files == st.files && p.journal == st.journal && (d.kind.Prompt? || p.vars == st.vars)
  {
    hide SelfStatus, Guarded, DoPrompt, DoOperator, DoStep, Catch, Mutated, OutsideRefresh, SideEffecting, FullyApplied;
    if d.kind.Prompt? || d.kind.Operator? {
      if FullyApplied(DoPrompt(cfg, d, st)) { CleanPrompt(cfg, d, st); }
      if FullyApplied(DoOperator(cfg, d, st)) { CleanOperator(cfg, d, st); }
      SkippedIsClean(st, d);
    } else {
      CleanMutation(cfg, d, st);
    }
  }

  lemma SkippedIsClean(st: State, d: Directive)
    ensures FullyApplied(SkipIt(st, d)) == FullyApplied(st)
  {
  }

  lemma BouncedIsSeen(st: State, d: Directive)
    ensures forall why :: !FullyApplied(Bounce(st, d, why))
  {
  }

  lemma CleanMutation(cfg: Config, d: Directive, st: State)
    requires !d.kind.Prompt? && !d.kind.Operator? && FullyApplied(Process(cfg, d, st))
    ensures FullyApplied(st)
    ensures var p := Process(cfg, d, st); var m := Mutated(cfg, d, st);
      && p.blocked == st.blocked
      && if Applies(cfg, d, st)
         then m.exn.None? && p.files == m.st.files && p.journal == m.st.journal && p.vars == m.st.vars
         else p.files == st.files && p.journal == st.journal && p.vars == st.vars
  {
    hide SelfStatus, Guarded, DoPrompt, DoOperator, DoStep, Catch, Mutated, OutsideRefresh, SideEffecting, FullyApplied,
         Bounce;
    SkippedIsClean(st, d);
    BouncedIsSeen(st, d);
    forall m ensures !FullyApplied(Catch(cfg, d, st, false, m)) { CatchIsSeen(cfg, d, st, false, m); }
    if FullyApplied(DoStep(cfg, d, st)) { CleanStep(cfg, d, st); }
  }

  lemma {:induction false} CleanRunStartsClean(cfg: Config, ds: seq<Directive>, st: State)
    requires FullyApplied(RunAll(cfg, ds, st))
    ensures FullyApplied(st)
    ensures RunAll(cfg, ds, st).blocked == st.blocked
  {
    hide Process;
    if ds != [] {
      CleanRunStartsClean(cfg, ds[1..], Process(cfg, ds[0], st));
      CleanProcess(cfg, ds[0], st);
    }
  }
}
