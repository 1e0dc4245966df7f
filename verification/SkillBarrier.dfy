/** Where the barrier of an operator block is itself skipped: exactly when it has a guard
    on another variable than the block's own. */
module SkillBarrier {
  import opened Text
  import opened Templates
  import opened SkillDirectives
  import opened SkillApply
  import opened SkillPolicy

  // ----- the two blocks at the end of a document ------------------------------

  lemma {:induction false} CarriedSplit(a: seq<Block>, b: seq<Block>, above: nat)
    ensures Carried(a + b, above) == Carried(a, above) + Carried(b, above + |RenderAll(a)|)
  {
    hide Carries, Render;
    if a == [] {
      assert a + b == b;
    } else {
      assert (a + b)[1..] == a[1..] + b;
      CarriedSplit(a[1..], b, above + |Render(a[0])|);
    }
  }

  /** The directive of a command block that starts after `above` lines. */
  function DirectiveOf(b: Block, above: nat): Directive
    requires b.Command?
  {
    Carries(b, above)[0]
  }

  function GuardIn(b: Block): Option<Guard>
    requires b.Command?
  {
    GuardOf(DirectiveOf(b, 0))
  }

  lemma LastTwo(before: seq<Block>, ask: Block, next: Block)
    requires forall i | 0 <= i < |before| :: GoodBlock(before[i])
    requires GoodBlock(ask) && ask.Command? && GoodBlock(next) && next.Command?
    ensures Parse(Unlines(RenderAll(before + [ask, next]))) ==
            Carried(before, 0) +
            [DirectiveOf(ask, |RenderAll(before)|), DirectiveOf(next, |RenderAll(before)| + |Render(ask)|)]
  {
    hide *;
    var all := before + [ask, next];
    AllGood(before, ask, next);
    TwoReadersOneDocument(all);
    CarriedSplit(before, [ask, next], 0);
    CarriedOfTwo(ask, next, |RenderAll(before)|);
  }

  lemma AllGood(before: seq<Block>, ask: Block, next: Block)
    requires forall i | 0 <= i < |before| :: GoodBlock(before[i])
    requires GoodBlock(ask) && GoodBlock(next)
    ensures forall i | 0 <= i < |before + [ask, next]| :: GoodBlock((before + [ask, next])[i])
  {
    hide GoodBlock;
  }

  lemma CarriedOfTwo(ask: Block, next: Block, above: nat)
    requires ask.Command? && next.Command?
    ensures Carried([ask, next], above) == [DirectiveOf(ask, above), DirectiveOf(next, above + |Render(ask)|)]
  {
    hide Carries, Render;
    OneCarried(ask, above);
    OneCarried(next, above + |Render(ask)|);
    assert [ask, next][1..] == [next] && [next][1..] == [];
    assert Carried([next], above + |Render(ask)|) == Carries(next, above + |Render(ask)|);
  }

  lemma OneCarried(b: Block, above: nat)
    requires b.Command?
    ensures |Carries(b, above)| == 1
  {
  }

  /** The document of these blocks ends with an operator block whose barrier is the last
      directive; the engine shows the block and then skips that directive by its guard. */
  ghost predicate SkipsBarrier(cfg: Config, before: seq<Block>, ask: Block, next: Block) {
    var ds := Parse(Unlines(RenderAll(before + [ask, next])));
    var i := |ds| - 2;
    && cfg.mode.Install?
    && (forall k | 0 <= k < |before| :: GoodBlock(before[k]))
    && i >= 0 && Barrier(ds, i) == i + 1
    && Shows(cfg, ds[i], After(cfg, ds, Start(map[]), i))
    && Guarded(ds[i + 1], After(cfg, ds, Start(map[]), i + 1).vars)
  }

  /** An install run with this shell and nobody listening. */
  function With(cfg: Config, exec: (nat, string) -> Outcome<string>): Config {
    cfg.(mode := Install, onEvent := None, exec := Some(exec))
  }

  predicate OtherVariable(own: Option<Guard>, g: Option<Guard>) {
    g.Some? && (own.Some? ==> own.value.v != g.value.v)
  }

  // ----- only then ------------------------------------------------------------

  lemma BarrierOfNextToLast(ds: seq<Directive>, i: nat)
    requires i + 2 == |ds|
    ensures Barrier(ds, i) == i + 1 <==> !Incompatible(GuardOf(ds[i]), GuardOf(ds[i + 1]))
  {
    hide GuardOf;
  }

  lemma SkippedOnlyIfOther(cfg: Config, before: seq<Block>, ask: Block, next: Block)
    requires GoodBlock(ask) && ask.Command? && GoodBlock(next) && next.Command?
    requires SkipsBarrier(cfg, before, ask, next)
    ensures OtherVariable(GuardIn(ask), GuardIn(next))
  {
    hide Parse, GuardOf, Guarded, Shows, Process, GoodBlock, Carried, Render, RenderAll, Unlines, DirectiveOf, After;
    var ds := Parse(Unlines(RenderAll(before + [ask, next])));
    LastTwo(before, ask, next);
    var i := |ds| - 2;
    var d, g, st := ds[i], ds[i + 1], After(cfg, ds, Start(map[]), i);
    SameGuard(ask, |RenderAll(before)|);
    SameGuard(next, |RenderAll(before)| + |Render(ask)|);
    BarrierOfNextToLast(ds, i);
    AfterNext(cfg, ds, Start(map[]), i);
    ShowingKeepsVars(cfg, d, st);
    GuardsAgree(d, st.vars);
    GuardsAgree(g, st.vars);
  }

  lemma SameGuard(b: Block, above: nat)
    requires b.Command?
    ensures GuardOf(DirectiveOf(b, above)) == GuardIn(b)
  {
  }

  // ----- and always then ------------------------------------------------------

  /** What the engine is told for a name: its guard's value for the block's own
      variable, something that is not the other guard's value for any other. */
  function Told(own: Option<Guard>, g: Guard, name: string): string {
    if own.Some? && own.value.v == name then own.value.value else if g.value == "x" then "y" else "x"
  }

  /** A command block that binds a name to what its command prints. */
  function Binder(own: Option<Guard>, name: string): Block {
    Command("run", [Pair("capture", name)], [if own.Some? && own.value.v == name then "own" else "other"])
  }

  function Binders(own: Option<Guard>, names: seq<string>): seq<Block> {
    if names == [] then [] else [Binder(own, names[0])] + Binders(own, names[1..])
  }

  function Exec(own: Option<Guard>, g: Guard): (nat, string) -> Outcome<string> {
    (t: nat, c: string) =>
      Ok(if c == "own" && own.Some? then own.value.value else if g.value == "x" then "y" else "x")
  }

  /** A name a capture can bind. */
  predicate Bindable(name: string) {
    name != "" && Blankless(name) && '=' !in name
  }

  lemma WordIsItself(vars: Vars)
    ensures Substitute("own", vars) == Ok("own") && Substitute("other", vars) == Ok("other")
  {
    NoBraceIsItself("own", vars);
    NoBraceIsItself("other", vars);
  }

  lemma BinderIsRead(own: Option<Guard>, name: string, above: nat)
    requires Bindable(name)
    ensures GoodBlock(Binder(own, name))
    ensures Carries(Binder(own, name), above) ==
            [Directive(Run, [], map["capture" := name], Binder(own, name).code, above + 1)]
  {
    hide GoodBlock, CleanBody, ArgTexts, PairMap;
    var b := Binder(own, name);
    BinderIsGood(own, name);
    OnePairIs("capture", name);
    OneLineBody(b.code[0]);
    assert b.code == [b.code[0]];
  }

  lemma BinderIsGood(own: Option<Guard>, name: string)
    requires Bindable(name)
    ensures GoodBlock(Binder(own, name))
  {
    assert "own"[0] == 'o' && "other"[0] == 'o' && TICKS[0] == '`';
    assert !Closes("own") && !Closes("other");
  }

  lemma OnePairIs(key: string, val: string)
    ensures ArgTexts([Pair(key, val)]) == [] && PairMap([Pair(key, val)]) == map[key := val]
  {
    assert [Pair(key, val)][1..] == [] && [Pair(key, val)][..0] == [];
  }

  lemma OneLineBody(l: string)
    requires l != "" && !IsSpace(l[0]) && !IsSpace(l[|l| - 1])
    ensures CleanBody([l]) == [l]
  {
    assert [l][1..] == [];
    TrimOfTrimmed(l);
  }

  predicate IsBinder(own: Option<Guard>, name: string, d: Directive) {
    d.kind.Run? && d.args == [] && d.attrs == map["capture" := name] && d.body == Binder(own, name).code
  }

  lemma BinderRuns(cfg: Config, own: Option<Guard>, g: Guard, d: Directive, name: string, st: State)
    requires IsBinder(own, name, d) && Bindable(name) && Trim(Told(own, g, name)) == Told(own, g, name)
    ensures var r := ForLines(With(cfg, Exec(own, g)), d, RunOp(d), d.body, st);
      r.exn.None? && r.st.vars == st.vars[name := Binding(Told(own, g, name), false)] && r.st.blocked == st.blocked
  {
    hide Trim, Substitute;
    var c := With(cfg, Exec(own, g));
    WordIsItself(st.vars);
    assert d.body[1..] == [];
    var r := LineStep(c, d, RunOp(d), d.body[0], st);
    assert r.exn.None? && r.st.vars == st.vars[name := Binding(Told(own, g, name), false)];
    assert ForLines(c, d, RunOp(d), d.body, st) == ForLines(c, d, RunOp(d), [], r.st) == Done(r.st, None);
  }

  lemma BinderBinds(cfg: Config, own: Option<Guard>, g: Guard, d: Directive, name: string, st: State)
    requires IsBinder(own, name, d) && Bindable(name) && Trim(Told(own, g, name)) == Told(own, g, name)
    requires !st.blocked
    ensures var st' := Process(With(cfg, Exec(own, g)), d, st);
      st'.vars == st.vars[name := Binding(Told(own, g, name), false)] && !st'.blocked
  {
    hide Trim, ForLines, Catch, Told, Exec, Bindable, RunOp;
    BinderRuns(cfg, own, g, d, name, st);
  }

  /** Every name is bound as told, and nothing else. */
  predicate BoundAsTold(own: Option<Guard>, g: Guard, vars: Vars) {
    forall n | n in vars :: vars[n].value == Told(own, g, n)
  }

  lemma {:induction false} BindersBind(cfg: Config, own: Option<Guard>, g: Guard, names: seq<string>, above: nat,
      st: State)
    requires forall i | 0 <= i < |names| :: Bindable(names[i])
    requires !st.blocked && BoundAsTold(own, g, st.vars)
    requires own.Some? ==> Trim(own.value.value) == own.value.value
    ensures forall i | 0 <= i < |Binders(own, names)| :: GoodBlock(Binders(own, names)[i])
    ensures var st' := RunAll(With(cfg, Exec(own, g)), Carried(Binders(own, names), above), st);
      && !st'.blocked && BoundAsTold(own, g, st'.vars) && st.vars.Keys <= st'.vars.Keys
      && forall n | n in names :: n in st'.vars
    decreases |names|
  {
    hide Process, Carries, GoodBlock, Bindable, Binder, Told, Exec;
    if names != [] {
      var name, rest := names[0], Binders(own, names[1..]);
      var b := Binder(own, name);
      BinderIsRead(own, name, above);
      ToldIsTrim(own, g, name);
      var d := Carries(b, above)[0];
      BinderBinds(cfg, own, g, d, name, st);
      var st1 := Process(With(cfg, Exec(own, g)), d, st);
      assert Binders(own, names)[1..] == rest;
      BindersBind(cfg, own, g, names[1..], above + |Render(b)|, st1);
      var ds := Carried(Binders(own, names), above);
      assert ds == [d] + Carried(rest, above + |Render(b)|);
      assert ds[1..] == Carried(rest, above + |Render(b)|);
    }
  }

  lemma ToldIsTrim(own: Option<Guard>, g: Guard, name: string)
    requires own.Some? ==> Trim(own.value.value) == own.value.value
    ensures Trim(Told(own, g, name)) == Told(own, g, name)
  {
    TrimOfTrimmed("x");
    TrimOfTrimmed("y");
    hide Trim;
  }

  lemma {:induction false} RefsAreBindable(s: string)
    ensures forall n | n in Refs(s) :: Bindable(n)
  {
    hide Bindable;
    if s != "" {
      match RefAt(s)
      case NoRef => RefsAreBindable(s[1..]);
      case Ref(name, len) =>
        RefsAreBindable(s[len..]);
        RefIsBindable(s);
    }
  }

  lemma RefIsBindable(s: string)
    requires RefAt(s).Ref?
    ensures Bindable(RefAt(s).name)
  {
    var a := 2 + SpaceRun(s[2..]);
    var b := a + IdentRun(s[a..]);
    IdentRestIsIdent(s[a..]);
    forall k | a <= k < b ensures IsIdentChar(s[k]) { assert s[k] == s[a..][k - a]; }
    assert RefAt(s).name == s[a..b];
  }

  lemma {:induction false} PairsAreBlankless(tokens: seq<Token>, key: string)
    requires forall i | 0 <= i < |tokens| :: GoodToken(tokens[i])
    ensures key in PairMap(tokens) ==> Blankless(PairMap(tokens)[key])
    decreases |tokens|
  {
    hide Blankless;
    if tokens != [] {
      var n := |tokens| - 1;
      assert GoodToken(tokens[n]);
      PairsAreBlankless(tokens[..n], key);
    }
  }

  /** A guard that was read off a document is about a bindable name, and trimmed. */
  lemma GuardIsBindable(b: Block)
    requires GoodBlock(b) && b.Command? && GuardIn(b).Some?
    ensures Bindable(GuardIn(b).value.v) && Trim(GuardIn(b).value.value) == GuardIn(b).value.value
  {
    PairsAreBlankless(b.tokens, "when");
    var when := PairMap(b.tokens)["when"];
    var eq := IndexOf(when, '=');
    IndexOfIsFirst(when, '=');
    TrimOfTrimmed(when[..eq]);
    TrimTwice(when[eq + 1..]);
  }

  /** Everything a block mentions, and its guard's variable. */
  function Names(b: Block): seq<string>
    requires b.Command?
  {
    Refs(Unlines(CleanBody(b.code))) + (if GuardIn(b).Some? then [GuardIn(b).value.v] else [])
  }

  lemma NamesAreBindable(b: Block)
    requires GoodBlock(b) && b.Command?
    ensures forall i | 0 <= i < |Names(b)| :: Bindable(Names(b)[i])
  {
    hide Bindable, GuardIn, GoodBlock;
    RefsAreBindable(Unlines(CleanBody(b.code)));
    if GuardIn(b).Some? { GuardIsBindable(b); }
    forall i | 0 <= i < |Names(b)| ensures Bindable(Names(b)[i]) {
      var refs := Refs(Unlines(CleanBody(b.code)));
      if i < |refs| { assert Names(b)[i] in refs; }
    }
  }

  lemma CatchKeepsMessages(cfg: Config, d: Directive)
    ensures forall st: State, m :: Catch(cfg, d, st, false, m).messages == st.messages
  {
    hide IsUnresolved;
  }

  lemma ShownWhenBound(cfg: Config, d: Directive, st: State)
    requires cfg.mode.Install? && d.kind.Operator? && !st.blocked && !Guarded(d, st.vars)
    requires forall n | n in Refs(Unlines(d.body)) :: n in st.vars
    ensures Shows(cfg, d, st)
  {
    hide Guarded, Substitute, Unlines, Catch, Refs;
    SubstituteNeedsRefs(Unlines(d.body), st.vars);
    CatchKeepsMessages(cfg, d);
  }

  lemma ShownThenSkipped(cfg: Config, ds: seq<Directive>, i: nat, own: Option<Guard>, g: Guard)
    requires cfg.mode.Install? && i + 2 == |ds| && ds[i].kind.Operator?
    requires GuardOf(ds[i]) == own && GuardOf(ds[i + 1]) == Some(g) && (own.Some? ==> own.value.v != g.v)
    requires var st := After(cfg, ds, Start(map[]), i);
      && !st.blocked && BoundAsTold(own, g, st.vars) && (own.Some? ==> own.value.v in st.vars)
      && forall n | n in Refs(Unlines(ds[i].body)) :: n in st.vars
    ensures Barrier(ds, i) == i + 1 && Shows(cfg, ds[i], After(cfg, ds, Start(map[]), i))
    ensures Guarded(ds[i + 1], After(cfg, ds, Start(map[]), i + 1).vars)
  {
    hide GuardOf, Guarded, Shows, Process, After, Told, BoundAsTold, Refs, Unlines;
    var st := After(cfg, ds, Start(map[]), i);
    BarrierOfNextToLast(ds, i);
    ToldRight(own, g, st.vars);
    GuardsAgree(ds[i], st.vars);
    ShownWhenBound(cfg, ds[i], st);
    AfterNext(cfg, ds, Start(map[]), i);
    ShowingKeepsVars(cfg, ds[i], st);
    GuardsAgree(ds[i + 1], st.vars);
  }

  lemma OtherIsSkipped(cfg: Config, ask: Block, next: Block)
    requires GoodBlock(ask) && ask.Command? && KindOf(ask.tag).Operator? && GoodBlock(next) && next.Command?
    requires OtherVariable(GuardIn(ask), GuardIn(next))
    ensures exists exec, before :: SkipsBarrier(With(cfg, exec), before, ask, next)
  {
    hide Parse, GuardOf, Guarded, Shows, Barrier, Process, GoodBlock, Carried, Render, RenderAll, GuardIn, Exec, Told,
         Bindable, BoundAsTold, Unlines, Refs, CleanBody, ArgTexts, PairMap, KindOf;
    var own, g := GuardIn(ask), GuardIn(next).value;
    var c, before := With(cfg, Exec(own, g)), Binders(own, Names(ask));
    NamesAreBindable(ask);
    if own.Some? { GuardIsBindable(ask); }
    assert BoundAsTold(own, g, Start(map[]).vars) by { NothingIsTold(own, g); }
    BindersBind(cfg, own, g, Names(ask), 0, Start(map[]));
    LastTwo(before, ask, next);
    var ds := Parse(Unlines(RenderAll(before + [ask, next])));
    var i := |ds| - 2;
    assert ds[..i] == Carried(before, 0);
    SameGuard(ask, |RenderAll(before)|);
    SameGuard(next, |RenderAll(before)| + |Render(ask)|);
    NamesAre(ask);
    ShownThenSkipped(c, ds, i, own, g);
    assert SkipsBarrier(c, before, ask, next);
  }

  lemma NothingIsTold(own: Option<Guard>, g: Guard)
    ensures BoundAsTold(own, g, map[])
  {
  }

  lemma NamesAre(ask: Block)
    requires ask.Command?
    ensures forall n | n in Refs(Unlines(CleanBody(ask.code))) :: n in Names(ask)
    ensures GuardIn(ask).Some? ==> GuardIn(ask).value.v in Names(ask)
  {
    hide GuardIn, Refs, Unlines, CleanBody;
  }

  lemma ToldRight(own: Option<Guard>, g: Guard, vars: Vars)
    requires BoundAsTold(own, g, vars) && (own.Some? ==> own.value.v != g.v)
    ensures own.Some? && own.value.v in vars ==> vars[own.value.v].value == own.value.value
    ensures g.v in vars ==> vars[g.v].value != g.value
  {
  }

  /** Whether the directive at the barrier can be skipped by its own guard, read off the
      two blocks: with some shell, some document that ends with them, run from the
      beginning, shows the first and then skips the second as its barrier, if and only if
      the second has a guard on another variable than the first's own. */
  lemma BarrierMaySkipIff(cfg: Config, ask: Block, next: Block)
    requires GoodBlock(ask) && ask.Command? && KindOf(ask.tag).Operator? && GoodBlock(next) && next.Command?
    ensures (exists exec, before :: SkipsBarrier(With(cfg, exec), before, ask, next))
       <==> OtherVariable(GuardIn(ask), GuardIn(next))
  {
    hide SkipsBarrier, OtherVariable, GuardIn, GoodBlock;
    forall exec, before | SkipsBarrier(With(cfg, exec), before, ask, next)
      ensures OtherVariable(GuardIn(ask), GuardIn(next))
    {
      SkippedOnlyIfOther(With(cfg, exec), before, ask, next);
    }
    if OtherVariable(GuardIn(ask), GuardIn(next)) { OtherIsSkipped(cfg, ask, next); }
  }

  // ----- one document ---------------------------------------------------------

  const ASK: Block := Command("operator", [], ["hi"])
  const GUARDED_RUN: Block := Command("run", [Pair("when", "a=b")], ["c"])

  /** One document and any configuration: the policy asks for a confirmation because a
      command follows, and the engine skips that command. */
  lemma SkippedBarrierExample(cfg: Config, files: Files)
    requires cfg.mode.Install?
    ensures var ds := Parse(Unlines(RenderAll([ASK, GUARDED_RUN])));
      && |ds| == 2 && Barrier(ds, 0) == 1 && Decide(ds, 0) == GateDecision(true, Completed)
      && Shows(cfg, ds[0], Start(files))
      && RunAll(cfg, ds, Start(files)) == SkipIt(Process(cfg, ds[0], Start(files)), ds[1])
  {
    var ds := ExampleParses();
    ExampleGuards(ds[0], ds[1]);
    hide Parse, GuardOf, Guarded, Shows, Process;
    var d, g, st := ds[0], ds[1], Start(files);
    ExampleShows(cfg, d, st);
    ShowingKeepsVars(cfg, d, st);
    GuardsAgree(g, st.vars);
    GuardedIsSkipped(cfg, g, Process(cfg, d, st));
    assert ds[1..] == [g] && [g][1..] == [];
    assert RunAll(cfg, [g], Process(cfg, d, st)) == Process(cfg, g, Process(cfg, d, st));
  }

  lemma ExampleGuards(d: Directive, g: Directive)
    requires d == Directive(Operator, [], map[], ["hi"], 1)
    requires g == Directive(Run, [], map["when" := "a=b"], ["c"], 4)
    ensures GuardOf(d).None? && GuardOf(g).Some? && BarrierFrom([d, g], GuardOf(d), 1) == 1
    ensures Decide([d, g], 0) == GateDecision(true, Completed)
  {
    assert IndexOf("a=b", '=') == 1 by { IndexOfAfter("a", '=', "b"); assert "a" + ['='] + "b" == "a=b"; }
    hide Trim;
  }

  lemma ExampleShows(cfg: Config, d: Directive, st: State)
    requires cfg.mode.Install? && d.kind.Operator? && GuardOf(d).None? && d.body == ["hi"] && !st.blocked
    ensures Shows(cfg, d, st)
  {
    GuardsAgree(d, st.vars);
    hide GuardOf, Guarded, Catch, Substitute;
    assert Unlines(["hi"]) == "hi";
    NoBraceIsItself("hi", st.vars);
    CatchKeepsMessages(cfg, d);
  }

  lemma ExampleParses() returns (ds: seq<Directive>)
    ensures ds == Parse(Unlines(RenderAll([ASK, GUARDED_RUN])))
    ensures |ds| == 2 && ds[0] == Directive(Operator, [], map[], ["hi"], 1)
    ensures ds[1] == Directive(Run, [], map["when" := "a=b"], ["c"], 4)
  {
    hide Parse, GoodBlock, Carried, RenderAll, Unlines;
    ExampleIsGood();
    TwoReadersOneDocument([ASK, GUARDED_RUN]);
    ds := Parse(Unlines(RenderAll([ASK, GUARDED_RUN])));
    ExampleCarries();
  }

  lemma ExampleIsGood()
    ensures GoodBlock(ASK) && GoodBlock(GUARDED_RUN)
  {
    assert "hi"[0] == 'h' && "c"[0] == 'c' && TICKS[0] == '`';
    assert PlainLines(["hi"]) && PlainLines(["c"]);
  }

  lemma ExampleCarries()
    ensures Carried([ASK, GUARDED_RUN], 0)
         == [Directive(Operator, [], map[], ["hi"], 1), Directive(Run, [], map["when" := "a=b"], ["c"], 4)]
  {
    hide HeaderText;
    assert [ASK, GUARDED_RUN][1..] == [GUARDED_RUN] && [GUARDED_RUN][1..] == [];
    assert |Render(ASK)| == 3;
    assert CleanBody(["hi"]) == ["hi"] by { assert ["hi"][1..] == []; TrimOfTrimmed("hi"); }
    assert CleanBody(["c"]) == ["c"] by { assert ["c"][1..] == []; TrimOfTrimmed("c"); }
    OnePairIs("when", "a=b");
    hide CleanBody;
    assert Carries(ASK, 0) == [Directive(Operator, [], map[], ["hi"], 1)];
    assert Carries(GUARDED_RUN, 3) == [Directive(Run, [], map["when" := "a=b"], ["c"], 4)];
    assert Carried([GUARDED_RUN], 3) == Carries(GUARDED_RUN, 3);
  }
}
