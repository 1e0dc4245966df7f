/** The linter's verdict is worth exactly this: a document it passes runs through if and
    only if the joined bodies mention nothing undefined, which the linter does not check. */
module SkillLintExact {
  import opened Text
  import opened Templates
  import opened SkillDirectives
  import opened SkillApply
  import opened SkillFacts
  import opened SkillLint
  import opened SkillSecrets

  /** The linter's `defined` set is no smaller than what can be bound. */
  predicate OnlyDefined(vars: Vars, defined: set<string>) {
    forall n | n in vars :: n in defined || n == ""
  }

  lemma {:induction false} RefsAreNames(s: string)
    ensures "" !in Refs(s)
  {
    if s != "" {
      match RefAt(s)
      case NoRef => RefsAreNames(s[1..]);
      case Ref(name, len) => RefsAreNames(s[len..]);
    }
  }

  /** What a directive binds, the linter counts as defined. */
  lemma BindsOnlyDefined(env: LintEnv, cfg: Config, d: Directive, st: State, defined: set<string>)
    requires DirectiveProblems(env, d, defined) == [] && OnlyDefined(st.vars, defined)
    ensures OnlyDefined(Process(cfg, d, st).vars, defined + Defines(d))
  {
    hide Process, CaptureVars, LineRefs, RefProblems, DepProblems, MergeProblems;
    forall n | n != "" && n !in defined + Defines(d) ensures n !in Process(cfg, d, st).vars {
      assert KeepsSecret(d, n, false);
      ProcessKeepsSecret(cfg, d, st, n, false);
    }
  }

  /** A joined body with an undefined reference is never applied. */
  lemma UndefinedJoinIsSeen(env: LintEnv, cfg: Config, d: Directive, st: State, defined: set<string>)
    requires cfg.mode.Install? && cfg.skipEffects == {} && SameTools(env, cfg)
    requires DirectiveProblems(env, d, defined) == [] && Straight(d) && !JoinedDefined(d, defined)
    requires OnlyDefined(st.vars, defined) && !st.blocked
    ensures !FullyApplied(Process(cfg, d, st))
  {
    hide Refs, Unlines, Substitute, Catch, LineRefs, RefProblems, SelfStatus, FullyApplied, Emit;
    var joined := Unlines(d.body);
    RefsAreNames(joined);
    SubstituteNeedsRefs(joined, st.vars);
    forall st1, f, m ensures !FullyApplied(Catch(cfg, d, st1, f, m)) { CatchIsSeen(cfg, d, st1, f, m); }
    if d.kind.Run? {
      StatusIsDecided(env, cfg, d, st, defined);
      assert Started(cfg, d, st).vars == st.vars by { EmitKeepsVars(cfg, st, StepStart(d.kind, d.line)); }
    }
  }

  lemma EmitKeepsVars(cfg: Config, st: State, e: Emission)
    ensures Emit(cfg, st, e).st.vars == st.vars
  {
  }

  lemma {:induction false} UndefinedJoinFails(env: LintEnv, cfg: Config, ds: seq<Directive>, st: State,
      defined: set<string>)
    requires cfg.mode.Install? && cfg.skipEffects == {} && SameTools(env, cfg)
    requires Problems(env, ds, defined) == [] && (forall i | 0 <= i < |ds| :: Straight(ds[i])) &&
            !AllJoinedDefined(ds, defined)
    requires OnlyDefined(st.vars, defined) && !st.blocked
    ensures !FullyApplied(RunAll(cfg, ds, st))
  {
    hide DirectiveProblems, Process, Straight, JoinedDefined, SameTools, Defines, OnlyDefined, FullyApplied;
    var rules := DirectiveProblems(env, ds[0], defined);
    assert |At(ds[0].line, rules)| == |rules|;
    var st1 := Process(cfg, ds[0], st);
    if FullyApplied(RunAll(cfg, ds, st)) {
      CleanRunStartsClean(cfg, ds[1..], st1);
      CleanProcess(cfg, ds[0], st);
      if !JoinedDefined(ds[0], defined) {
        UndefinedJoinIsSeen(env, cfg, ds[0], st, defined);
      } else {
        BindsOnlyDefined(env, cfg, ds[0], st, defined);
        forall i | 0 <= i < |ds[1..]| ensures Straight(ds[1..][i]) { assert ds[1..][i] == ds[i + 1]; }
        UndefinedJoinFails(env, cfg, ds[1..], st1, defined + Defines(ds[0]));
      }
    }
  }

  /** For a straight document the linter passes, in an environment where nothing outside
      fails: the run applies completely if and only if every name in the joined body of
      an operator block or step is defined above it. */
  lemma LintIsExact(env: LintEnv, cfg: Config, ds: seq<Directive>, files: Files)
    requires Problems(env, ds, {}) == [] && forall i | 0 <= i < |ds| :: Straight(ds[i])
    requires cfg.mode.Install? && cfg.skipEffects == {} && Obliging(cfg) && SameTools(env, cfg)
    requires AllServed(cfg, ds, Start(files))
    ensures FullyApplied(RunAll(cfg, ds, Start(files))) <==> AllJoinedDefined(ds, {})
  {
    hide Problems, Straight, AllJoinedDefined, Obliging, SameTools, AllServed, FullyApplied, RunAll;
    if AllJoinedDefined(ds, {}) {
      LintIsSound(env, cfg, ds, files);
    } else {
      UndefinedJoinFails(env, cfg, ds, Start(files), {});
    }
  }
}
