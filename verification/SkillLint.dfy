/** The linter, and what a clean report is worth: a document it passes runs through. */
module SkillLint {
  import opened Text
  import opened Json
  import opened Templates
  import opened SkillDirectives
  import opened SkillApply
  import opened SkillFacts

  datatype Rule =
    | RetiredKind | UnknownKind
    | InexactVersion | CoreMismatch
    | NoTarget | NoLine | NoPath
    | NoInto | NoKey | NoObject | BadObject | NotAnObject | NoKeyField
    | NoVariable | NoQuestion | BadRegex | BadNormalize | BadReuse
    | NoInstructions | RemovedAttr(name: string)
    | UndefinedRef(name: string)
    | MalformedGuard | UndefinedGuard(name: string)

  datatype Problem = Problem(line: nat, rule: Rule)

  /** What the linter asks of the outside: the pinned core version, the semver and
      identifier expressions, the regex compiler and the JSON parser. */
  datatype LintEnv = LintEnv(
    chatVersion: Option<string>,
    exactSemver: string -> bool,
    compiles: (string, string) -> Option<string>,
    parse: string -> Option<Value>)

  function When(broken: bool, rule: Rule): seq<Rule> {
    if broken then [rule] else []
  }

  function DepProblems(env: LintEnv, specs: seq<string>): seq<Rule> {
    if specs == [] then []
    else
      var at := LastIndexOf(specs[0], '@');
      var name := if at > 0 then specs[0][..at] else specs[0];
      var version := if at > 0 then specs[0][at + 1..] else "";
      When(!env.exactSemver(version), InexactVersion)
      + When(env.chatVersion.Some? && env.chatVersion.value != "" && StartsWith(name, "@chat-adapter/")
             && version != env.chatVersion.value, CoreMismatch)
      + DepProblems(env, specs[1..])
  }

  function MergeProblems(env: LintEnv, d: Directive): seq<Rule> {
    When(!d.Truthy("into"), NoInto) + When(!d.Truthy("key"), NoKey) +
    if d.body == [] then [NoObject]
    else match env.parse(Unlines(d.body))
      case None => [BadObject]
      case Some(obj) =>
        if !obj.Obj? then [NotAnObject]
        else When("key" in d.attrs && d.attrs["key"] !in obj.fields, NoKeyField)
  }

  function PromptAttrProblems(d: Directive): seq<Rule> {
    When("min" in d.attrs, RemovedAttr("min")) + When("error" in d.attrs, RemovedAttr("error"))
    + When("normalize" in d.attrs && !d.Is("normalize", "trim") && !d.Is("normalize", "rstrip-slash")
           && !d.Is("normalize", "lower"), BadNormalize)
    + When("reuse" in d.attrs && !IsIdent(d.attrs["reuse"]), BadReuse)
  }

  function PromptProblems(env: LintEnv, d: Directive): seq<Rule> {
    When(PromptVar(d.args).None?, NoVariable)
    + When(d.body == [], NoQuestion)
    + When(("validate" in d.attrs || "flags" in d.attrs)
           && env.compiles(AttrOr(d, "validate", ""), AttrOr(d, "flags", "")).Some?, BadRegex)
    + PromptAttrProblems(d)
  }

  function KindProblems(env: LintEnv, d: Directive): seq<Rule> {
    match d.kind
    case Dep => DepProblems(env, d.body)
    case Append => When(!d.Truthy("to"), NoTarget) + When(d.body == [], NoLine)
    case Copy => When(d.body == [], NoPath)
    case JsonMerge => MergeProblems(env, d)
    case Prompt => PromptProblems(env, d)
    case Operator =>
      When(d.body == [], NoInstructions) + When("open" in d.attrs, RemovedAttr("open"))
      + When("gate" in d.args || "gate" in d.attrs, RemovedAttr("gate"))
    case Other(name) => [if name == "env-sync" then RetiredKind else UnknownKind]
    case _ => []
  }

  /** Names referenced in a body, line by line. */
  function LineRefs(body: seq<string>): seq<string> {
    if body == [] then [] else Refs(body[0]) + LineRefs(body[1..])
  }

  function RefProblems(refs: seq<string>, defined: set<string>): seq<Rule> {
    if refs == [] then []
    else When(refs[0] !in defined, UndefinedRef(refs[0])) + RefProblems(refs[1..], defined)
  }

  function GuardProblems(d: Directive, defined: set<string>): seq<Rule> {
    match d.Attr("when")
    case None => []
    case Some(when) =>
      var eq := IndexOf(when, '=');
      if eq < 1 then [MalformedGuard]
      else When(Trim(when[..eq]) !in defined, UndefinedGuard(Trim(when[..eq])))
  }

  function DirectiveProblems(env: LintEnv, d: Directive, defined: set<string>): seq<Rule> {
    KindProblems(env, d)
    + When("label" in d.attrs, RemovedAttr("label")) + When("on-fail" in d.attrs, RemovedAttr("on-fail"))
    + RefProblems(LineRefs(d.body), defined)
    + GuardProblems(d, defined)
    + When(d.kind.Run? && "validate" in d.attrs && env.compiles(d.attrs["validate"], "").Some?, BadRegex)
  }

  function PairNames(pairs: seq<string>): seq<string> {
    if pairs == [] then []
    else
      var name := Trim(SliceTo(pairs[0], IndexOf(pairs[0], '=')));
      (if name == "" then [] else [name]) + PairNames(pairs[1..])
  }

  /** The names a capture is taken to bind. */
  function CaptureVars(spec: string): seq<string> {
    if '=' !in spec then [spec] else PairNames(Split(spec, ','))
  }

  function Defines(d: Directive): set<string> {
    match d.kind
    case Prompt => (match PromptVar(d.args) case Some(v) => {v} case None => {})
    case Run => if "capture" in d.attrs then (set v | v in CaptureVars(d.attrs["capture"])) else {}
    case _ => {}
  }

  /** The linter's `defined` set below these directives. */
  function DefinedBy(ds: seq<Directive>): set<string> {
    if ds == [] then {} else Defines(ds[0]) + DefinedBy(ds[1..])
  }

  function At(line: nat, rules: seq<Rule>): seq<Problem> {
    seq(|rules|, i requires 0 <= i < |rules| => Problem(line, rules[i]))
  }

  function Problems(env: LintEnv, ds: seq<Directive>, defined: set<string>): seq<Problem> {
    if ds == [] then []
    else At(ds[0].line, DirectiveProblems(env, ds[0], defined)) + Problems(env, ds[1..], defined + Defines(ds[0]))
  }

  // ----- what a clean report does not cover -----------------------------------

  /** No guard, no empty run, and every capture in the form its effect binds. */
  predicate Straight(d: Directive) {
    && "when" !in d.attrs
    && (d.kind.Run? ==> d.body != [])
    && (d.kind.Run? && "capture" in d.attrs ==>
          && !d.Is("effect", "check") && d.attrs["capture"] != ""
          && (d.Is("effect", "step") || '=' in d.attrs["capture"] ==> AllPairs(Split(d.attrs["capture"], ','))))
  }

  predicate AllPairs(pairs: seq<string>) {
    forall i | 0 <= i < |pairs| :: '=' in pairs[i]
  }

  /** The engine reads the references of an operator block, and of a step, in the joined
      body: what joining brings up is among the names as well. */
  predicate JoinedDefined(d: Directive, names: set<string>) {
    d.kind.Operator? || (d.kind.Run? && d.Is("effect", "step")) ==>
      forall n | n in Refs(Unlines(d.body)) :: n in names
  }

  predicate AllJoinedDefined(ds: seq<Directive>, defined: set<string>) {
    ds == [] || (JoinedDefined(ds[0], defined) && AllJoinedDefined(ds[1..], defined + Defines(ds[0])))
  }

  // ----- an environment in which nothing outside fails ------------------------

  ghost predicate Obliging(cfg: Config) {
    && (cfg.onEvent.Some? ==> forall t, e :: cfg.onEvent.value(t, e) == None)
    && cfg.exec.Some? && (forall t, c :: cfg.exec.value(t, c).Ok?)
    && cfg.execStream.Some? && (forall t, c :: cfg.execStream.value(t, c).Ok? && cfg.execStream.value(t, c).value.ok)
    && (cfg.resolveDep.Some? ==> forall t, r :: cfg.resolveDep.value(t, r).Ok?)
    && (forall t, b :: cfg.resolveRemote(t, b).Ok?)
  }

  predicate ValidAnswer(cfg: Config, d: Directive, answer: string) {
    "validate" in d.attrs ==>
      cfg.test(d.attrs["validate"], AttrOr(d, "flags", ""), Normalize(cfg, answer, d.Attr("normalize")))
  }

  ghost predicate Answered(cfg: Config, d: Directive) {
    d.kind.Prompt? ==>
      var v := NameOf(d);
      if v in cfg.inputs then ValidAnswer(cfg, d, cfg.inputs[v])
      else cfg.resolveInput.Some? && forall t {:trigger cfg.resolveInput.value(t, v)} ::
        var r := cfg.resolveInput.value(t, v); r.Ok? && r.value.Some? && ValidAnswer(cfg, d, r.value.value)
  }

  /** What the line works on is there: the file to copy, the marker to insert at, an
      output the capture can bind. */
  predicate LineServed(cfg: Config, d: Directive, op: LineOp, l: string, st: State) {
    match op
    case CopyFile => SrcOf(l) in cfg.skillFiles
    case InsertBefore(to, marker) => IndexOfMarker(Lines(Read(st.files, to)), marker) != -1
    case RunCmd(Some(spec), validate, _) =>
      var s := Substitute(l, st.vars);
      s.Ok? ==>
        var c := CallExec(cfg, d, st, s.value);
        c.out.Ok? ==> BindCapture(cfg, spec, Trim(c.out.value), validate, c.st.vars).exn.None?
    case _ => true
  }

  predicate LinesServed(cfg: Config, d: Directive, op: LineOp, body: seq<string>, st: State) {
    body == [] ||
    (LineServed(cfg, d, op, body[0], st) && LinesServed(cfg, d, op, body[1..], LineStep(cfg, d, op, body[0], st).st))
  }

  predicate Served(cfg: Config, d: Directive, st: State) {
    match d.kind
    case Copy => d.Truthy("from-branch") || LinesServed(cfg, d, CopyFile, d.body, st)
    case Append =>
      d.Truthy("at") ==> LinesServed(cfg, d, InsertBefore(AttrOr(d, "to", "undefined"), d.attrs["at"]), d.body, st)
    case Run => d.Is("effect", "check") || d.Is("effect", "step") || LinesServed(cfg, d, RunOp(d), d.body, st)
    case JsonMerge =>
      var target := ReadJson(cfg.codec, st.files, AttrOr(d, "into", "undefined"));
      target.Some? && target.value.Arr?
    case _ => true
  }

  /** Along the whole run. */
  ghost predicate AllServed(cfg: Config, ds: seq<Directive>, st: State) {
    ds == [] ||
    (&& Answered(cfg, ds[0])
     && Served(cfg, ds[0], Started(cfg, ds[0], st))
     && AllServed(cfg, ds[1..], Process(cfg, ds[0], st)))
  }

  ghost predicate SameTools(env: LintEnv, cfg: Config) {
    && (forall r, f :: env.compiles(r, f) == cfg.compiles(r, f))
    && (forall s :: env.parse(s) == cfg.codec.parse(s))
  }

  // ----- references are bound -------------------------------------------------

  lemma {:induction false} CleanRefs(refs: seq<string>, defined: set<string>)
    requires RefProblems(refs, defined) == []
    ensures forall n | n in refs :: n in defined
  {
    if refs != [] { CleanRefs(refs[1..], defined); }
  }

  lemma EnvValueRefs(l: string, n: string)
    requires n in Refs(EnvValueOf(l))
    ensures n in Refs(l)
  {
    var eq := IndexOf(l, '=');
    IndexOfIsFirst(l, '=');
    EqualsIsPlain();
    hide Refs, Trim, IsSpace, IsIdentChar, IndexOf;
    var value := l[eq + 1..];
    RefsOfTrim(value, n);
    if eq == -1 { assert value == l; } else { RefsAfter(l, eq, n); }
  }

  lemma EqualsIsPlain()
    ensures !IsSpace('=') && !IsIdentChar('=')
  {
  }

  /** Everything the body mentions is bound. */
  predicate Bound(body: seq<string>, vars: Vars) {
    forall n | n in LineRefs(body) :: n in vars
  }

  lemma BindCaptureGrows(cfg: Config, spec: string, out: string, validate: string, vars: Vars)
    ensures vars.Keys <= BindCapture(cfg, spec, out, validate, vars).vars.Keys
    ensures BindCapture(cfg, spec, out, validate, vars).exn.None? && ('=' in spec ==> AllPairs(Split(spec, ','))) ==>
      forall n | n in CaptureVars(spec) :: n in BindCapture(cfg, spec, out, validate, vars).vars
  {
    if '=' in spec && cfg.codec.parse(out).Some? {
      PairsBind(cfg, Split(spec, ','), cfg.codec.parse(out).value, validate, vars);
    }
  }

  lemma {:induction false} PairsBind(cfg: Config, pairs: seq<string>, json: Value, validate: string, vars: Vars)
    ensures vars.Keys <= CapturePairs(cfg, pairs, json, validate, vars).vars.Keys
    ensures CapturePairs(cfg, pairs, json, validate, vars).exn.None? && AllPairs(pairs) ==>
      forall n | n in PairNames(pairs) :: n in CapturePairs(cfg, pairs, json, validate, vars).vars
  {
    hide Trim;
    if pairs != [] {
      var eq := IndexOf(pairs[0], '=');
      IndexOfIsFirst(pairs[0], '=');
      if eq < 1 {
        PairsBind(cfg, pairs[1..], json, validate, vars);
        EmptyName();
      } else {
        var b := SetCaptured(cfg, validate, Trim(pairs[0][..eq]), cfg.codec.path(json, Trim(pairs[0][eq + 1..])), vars);
        PairsBind(cfg, pairs[1..], json, validate, b.vars);
      }
    }
  }

  lemma EmptyName()
    ensures Trim("") == ""
  {
  }

  lemma {:induction false} FieldsBind(pairs: seq<string>, fields: map<string, string>, vars: Vars)
    ensures vars.Keys <= BindFields(pairs, fields, vars).Keys
    ensures AllPairs(pairs) ==> forall n | n in PairNames(pairs) :: n in BindFields(pairs, fields, vars)
  {
    hide Trim;
    if pairs != [] {
      var eq := IndexOf(pairs[0], '=');
      IndexOfIsFirst(pairs[0], '=');
      if eq < 1 {
        FieldsBind(pairs[1..], fields, vars);
        EmptyName();
      } else {
        var f := Trim(pairs[0][eq + 1..]);
        var value := if f in fields then Trim(fields[f]) else "";
        FieldsBind(pairs[1..], fields, vars[Trim(pairs[0][..eq]) := Binding(value, false)]);
      }
    }
  }

  // ----- the mutation goes through --------------------------------------------

  lemma LineGoesThrough(cfg: Config, d: Directive, op: LineOp, l: string, st: State)
    requires Obliging(cfg) && LineServed(cfg, d, op, l, st)
    requires forall n | n in Refs(l) :: n in st.vars
    ensures var r := LineStep(cfg, d, op, l, st);
      && r.exn.None? && st.vars.Keys <= r.st.vars.Keys
      && (op.RunCmd? && op.capture.Some? && ('=' in op.capture.value ==> AllPairs(Split(op.capture.value, ','))) ==>
            forall n | n in CaptureVars(op.capture.value) :: n in r.st.vars)
  {
    hide Refs, EnvValueOf, EnvKeyOf, EnvKeySet, BindCapture, SrcOf, DestOf, AppendLine, InsertLine, CaptureVars;
    SubstituteNeedsRefs(l, st.vars);
    forall n | n in Refs(EnvValueOf(l)) ensures n in st.vars { EnvValueRefs(l, n); }
    SubstituteNeedsRefs(EnvValueOf(l), st.vars);
    if op.RunCmd? && op.capture.Some? {
      var c := CallExec(cfg, d, st, Substitute(l, st.vars).value);
      BindCaptureGrows(cfg, op.capture.value, Trim(c.out.value), op.validate, c.st.vars);
    }
  }

  lemma {:induction false} LinesGoThrough(cfg: Config, d: Directive, op: LineOp, body: seq<string>, st: State)
    requires Obliging(cfg) && LinesServed(cfg, d, op, body, st) && Bound(body, st.vars)
    ensures var r := ForLines(cfg, d, op, body, st);
      && r.exn.None? && st.vars.Keys <= r.st.vars.Keys
      && (body != [] && op.RunCmd? && op.capture.Some? &&
           ('=' in op.capture.value ==> AllPairs(Split(op.capture.value, ','))) ==>
            forall n | n in CaptureVars(op.capture.value) :: n in r.st.vars)
  {
    hide LineStep, LineServed, Refs, CaptureVars, Obliging;
    if body != [] {
      assert forall n | n in Refs(body[0]) :: n in LineRefs(body);
      LineGoesThrough(cfg, d, op, body[0], st);
      LinesGoThrough(cfg, d, op, body[1..], LineStep(cfg, d, op, body[0], st).st);
    }
  }

  /** Operations that ask nothing of the outside are always served. */
  lemma {:induction false} AlwaysServed(cfg: Config, d: Directive, op: LineOp, body: seq<string>, st: State)
    requires op.ShowBlob? || op.RecordWrote? || op.AppendTo? || op.CheckCmd? || op.SetEnv?
    ensures LinesServed(cfg, d, op, body, st)
  {
    hide LineStep;
    if body != [] { AlwaysServed(cfg, d, op, body[1..], LineStep(cfg, d, op, body[0], st).st); }
  }

  lemma CopyGoesThrough(cfg: Config, d: Directive, st: State)
    requires Obliging(cfg) && d.kind.Copy? && Served(cfg, d, st) && Bound(d.body, st.vars)
    ensures ApplyCopy(cfg, d, st).exn.None? && st.vars.Keys <= ApplyCopy(cfg, d, st).st.vars.Keys
  {
    hide ForLines, Bound, LinesServed;
    var op, st1 := CopyFile, st;
    if d.Truthy("from-branch") {
      var branch := d.attrs["from-branch"];
      var remote := cfg.resolveRemote(|st.trace|, branch).value;
      op, st1 := ShowBlob(remote, branch), CallExec(cfg, d, st, "git fetch " + remote + " " + branch).st;
      AlwaysServed(cfg, d, op, d.body, st1);
    }
    LinesGoThrough(cfg, d, op, d.body, st1);
    var mid := ForLines(cfg, d, op, d.body, st1).st;
    AlwaysServed(cfg, d, RecordWrote, d.body, mid);
    BoundGrows(d.body, st.vars, mid.vars);
    LinesGoThrough(cfg, d, RecordWrote, d.body, mid);
  }

  lemma BoundGrows(body: seq<string>, v: Vars, w: Vars)
    requires Bound(body, v) && v.Keys <= w.Keys
    ensures Bound(body, w)
  {
    forall n | n in LineRefs(body) ensures n in w { assert n in v.Keys; }
  }

  lemma RunGoesThrough(cfg: Config, d: Directive, st: State)
    requires Obliging(cfg) && d.kind.Run? && Served(cfg, d, st) && Bound(d.body, st.vars)
    requires Straight(d) && JoinedDefined(d, st.vars.Keys)
    ensures var r := ApplyRun(cfg, d, st);
      r.exn.None? && st.vars.Keys <= r.st.vars.Keys && forall n | n in Defines(d) :: n in r.st.vars
  {
    hide ForLines, LinesServed, Refs, Substitute, BindFields, CaptureVars, AllPairs, LineRefs;
    if d.Is("effect", "check") {
      AlwaysServed(cfg, d, CheckCmd, d.body, st);
      LinesGoThrough(cfg, d, CheckCmd, d.body, st);
    } else if d.Is("effect", "step") {
      SubstituteNeedsRefs(Unlines(d.body), st.vars);
      if "capture" in d.attrs {
        StepCaptures(cfg, d, st);
      }
    } else {
      LinesGoThrough(cfg, d, RunOp(d), d.body, st);
    }
  }

  lemma StepCaptures(cfg: Config, d: Directive, st: State)
    requires Obliging(cfg) && d.kind.Run? && d.Is("effect", "step") && Straight(d) && "capture" in d.attrs
    requires Substitute(Unlines(d.body), st.vars).Ok?
    ensures var r := ApplyStep(cfg, d, st);
      r.exn.None? && st.vars.Keys <= r.st.vars.Keys && forall n | n in Defines(d) :: n in r.st.vars
  {
    hide Substitute, BindFields, Unlines, PairNames;
    var cmd := Substitute(Unlines(d.body), st.vars).value;
    var pairs := Split(d.attrs["capture"], ',');
    FieldsBind(pairs, cfg.execStream.value(|st.trace|, cmd).value.fields, st.vars);
    assert AllPairs(pairs) && '=' in pairs[0];
    if '=' !in d.attrs["capture"] { PieceHasNone(d.attrs["capture"], ',', '='); }
  }

  /** A character that is not in the text is in none of its pieces. */
  lemma {:induction false} PieceHasNone(s: string, sep: char, c: char)
    requires c !in s
    ensures forall i | 0 <= i < |Split(s, sep)| :: c !in Split(s, sep)[i]
  {
    if s != "" { PieceHasNone(s[1..], sep, c); }
  }

  lemma MutationGoesThrough(env: LintEnv, cfg: Config, d: Directive, st: State, defined: set<string>)
    requires Obliging(cfg) && SameTools(env, cfg)
    requires DirectiveProblems(env, d, defined) == [] && defined <= st.vars.Keys
    requires Straight(d) && JoinedDefined(d, defined) && Served(cfg, d, st)
    requires !d.kind.Prompt? && !d.kind.Operator?
    ensures var r := ApplyOne(cfg, d, st);
      r.exn.None? && st.vars.Keys <= r.st.vars.Keys && forall n | n in Defines(d) :: n in r.st.vars
  {
    hide ForLines, LinesServed, Straight, LineRefs, Refs, ApplyCopy, ApplyRun, DepNames, Obliging, Unlines, DepProblems,
         CaptureVars;
    CleanRefs(LineRefs(d.body), defined);
    assert Bound(d.body, st.vars);
    match d.kind
    case Copy => CopyGoesThrough(cfg, d, st);
    case Append =>
      var to := AttrOr(d, "to", "undefined");
      var op := if d.Truthy("at") then InsertBefore(to, d.attrs["at"]) else AppendTo(to);
      if op.AppendTo? { AlwaysServed(cfg, d, op, d.body, st); }
      LinesGoThrough(cfg, d, op, d.body, st);
    case EnvSet =>
      AlwaysServed(cfg, d, SetEnv, d.body, st);
      LinesGoThrough(cfg, d, SetEnv, d.body, st);
    case Run => RunGoesThrough(cfg, d, st);
    case Dep => DepGoesThrough(cfg, d, st);
    case JsonMerge =>
    case Other(_) =>
  }

  lemma DepGoesThrough(cfg: Config, d: Directive, st: State)
    requires Obliging(cfg)
    ensures ApplyDep(cfg, d, st).exn.None? && ApplyDep(cfg, d, st).st.vars == st.vars
  {
    hide DepNames, Join, Split;
  }

  // ----- the whole directive, the whole run -----------------------------------

  /** Nothing failed so far, and everything the linter takes as defined is bound. */
  predicate OnTrack(defined: set<string>, st: State) {
    FullyApplied(st) && !st.blocked && defined <= st.vars.Keys
  }

  lemma PromptOnTrack(env: LintEnv, cfg: Config, d: Directive, st: State, defined: set<string>)
    requires Obliging(cfg) && SameTools(env, cfg) && Answered(cfg, d)
    requires d.kind.Prompt? && DirectiveProblems(env, d, defined) == [] && OnTrack(defined, st)
    ensures OnTrack(defined + Defines(d), DoPrompt(cfg, d, st))
  {
    hide Normalize, LineRefs, RefProblems, Catch, Obliging;
  }

  lemma OperatorOnTrack(cfg: Config, d: Directive, st: State, defined: set<string>)
    requires Obliging(cfg) && d.kind.Operator? && JoinedDefined(d, defined) && OnTrack(defined, st)
    ensures OnTrack(defined, DoOperator(cfg, d, st))
  {
    hide Refs, Unlines, Catch, Substitute;
    SubstituteNeedsRefs(Unlines(d.body), st.vars);
  }

  lemma StatusIsDecided(env: LintEnv, cfg: Config, d: Directive, st: State, defined: set<string>)
    requires SameTools(env, cfg) && !d.kind.Prompt? && !d.kind.Operator?
    requires DirectiveProblems(env, d, defined) == []
    ensures SelfStatus(cfg, d, st.files).Ok? && !SelfStatus(cfg, d, st.files).value.Agent?
    ensures d.kind.Run? ==> SelfStatus(cfg, d, st.files) == Ok(Apply)
  {
    hide LineRefs, RefProblems, HasDep, EnvKeySet, FileHasLine, JsonHasKey, DestOf, EnvKeyOf, DepName, Unlines;
  }

  lemma DirectiveOnTrack(env: LintEnv, cfg: Config, d: Directive, st: State, defined: set<string>)
    requires cfg.mode.Install? && cfg.skipEffects == {}
    requires Obliging(cfg) && SameTools(env, cfg) && Answered(cfg, d) && Served(cfg, d, Started(cfg, d, st))
    requires Straight(d) && JoinedDefined(d, defined)
    requires DirectiveProblems(env, d, defined) == [] && OnTrack(defined, st)
    ensures OnTrack(defined + Defines(d), Process(cfg, d, st))
  {
    hide SelfStatus, ApplyOne, DoPrompt, DoOperator, JoinedDefined, Served, Answered, Catch, CaptureVars,
         KindProblems, RefProblems, LineRefs, SideEffecting;
    if d.kind.Prompt? {
      PromptOnTrack(env, cfg, d, st, defined);
    } else if d.kind.Operator? {
      OperatorOnTrack(cfg, d, st, defined);
    } else {
      StatusIsDecided(env, cfg, d, st, defined);
      if SelfStatus(cfg, d, st.files) == Ok(Apply) {
        MutationGoesThrough(env, cfg, d, Started(cfg, d, st), defined);
      }
    }
  }

  /** A clean document has a clean first directive and a clean rest. */
  lemma FirstIsClean(env: LintEnv, ds: seq<Directive>, defined: set<string>)
    requires ds != [] && Problems(env, ds, defined) == []
    ensures DirectiveProblems(env, ds[0], defined) == []
    ensures Problems(env, ds[1..], defined + Defines(ds[0])) == []
  {
    hide DirectiveProblems, Defines;
    var rules := DirectiveProblems(env, ds[0], defined);
    assert |At(ds[0].line, rules)| == |rules|;
  }

  /** The first of `n` directives, then the others. */
  lemma OneMoreDefined(cfg: Config, ds: seq<Directive>, st: State, defined: set<string>, n: nat)
    requires 0 < n <= |ds|
    ensures defined + DefinedBy(ds[..n]) == defined + Defines(ds[0]) + DefinedBy(ds[1..][..n - 1])
    ensures RunAll(cfg, ds[..n], st) == RunAll(cfg, ds[1..][..n - 1], Process(cfg, ds[0], st))
  {
    hide Process, Defines;
    assert ds[..n][0] == ds[0] && ds[..n][1..] == ds[1..][..n - 1];
  }

  /** After the first `n` directives nothing has failed, and what they define is bound. */
  lemma {:induction false} RunOnTrack(
      env: LintEnv, cfg: Config, ds: seq<Directive>, st: State, defined: set<string>, n: nat)
    requires cfg.mode.Install? && cfg.skipEffects == {} && Obliging(cfg) && SameTools(env, cfg)
    requires AllServed(cfg, ds, st) && n <= |ds|
    requires (forall i | 0 <= i < |ds| :: Straight(ds[i])) && AllJoinedDefined(ds, defined)
    requires Problems(env, ds, defined) == [] && OnTrack(defined, st)
    ensures OnTrack(defined + DefinedBy(ds[..n]), RunAll(cfg, ds[..n], st))
    decreases n
  {
    hide DirectiveProblems, Process, Straight, JoinedDefined, Obliging, SameTools, Served, Answered, Defines, OnTrack;
    if n == 0 {
      assert defined + DefinedBy([]) == defined;
    } else {
      hide RunAll, DefinedBy, Problems;
      FirstIsClean(env, ds, defined);
      OneMoreDefined(cfg, ds, st, defined, n);
      DirectiveOnTrack(env, cfg, ds[0], st, defined);
      forall i | 0 <= i < |ds[1..]| ensures Straight(ds[1..][i]) {
        assert ds[1..][i] == ds[i + 1];
      }
      RunOnTrack(env, cfg, ds[1..], Process(cfg, ds[0], st), defined + Defines(ds[0]), n - 1);
    }
  }

  /** Lint soundness: a straight document with no problems, and with nothing undefined in
      its joined bodies, run in an environment where nothing outside fails, defers
      nothing and bounces nothing; and at every point of the run, what the linter takes as
      defined there is bound. */
  lemma LintIsSound(env: LintEnv, cfg: Config, ds: seq<Directive>, files: Files)
    requires Problems(env, ds, {}) == []
    requires (forall i | 0 <= i < |ds| :: Straight(ds[i])) && AllJoinedDefined(ds, {})
    requires cfg.mode.Install? && cfg.skipEffects == {} && Obliging(cfg) && SameTools(env, cfg)
    requires AllServed(cfg, ds, Start(files))
    ensures FullyApplied(RunAll(cfg, ds, Start(files))) && !RunAll(cfg, ds, Start(files)).blocked
    ensures forall n | 0 <= n <= |ds| :: DefinedBy(ds[..n]) <= RunAll(cfg, ds[..n], Start(files)).vars.Keys
  {
    hide Problems, Straight, AllJoinedDefined, Obliging, SameTools, AllServed, DefinedBy, RunAll;
    RunOnTrack(env, cfg, ds, Start(files), {}, |ds|);
    assert ds[..|ds|] == ds;
    forall n | 0 <= n <= |ds| ensures DefinedBy(ds[..n]) <= RunAll(cfg, ds[..n], Start(files)).vars.Keys {
      RunOnTrack(env, cfg, ds, Start(files), {}, n);
    }
  }

  const STRADDLING: Directive := Directive(Operator, [], map[], ["{{", "x}}"], 1)

  lemma StraddlingLintsClean(env: LintEnv)
    ensures Problems(env, [STRADDLING], {}) == []
  {
    StraddlingRefs();
    var d := STRADDLING;
    hide Refs;
    assert d.body[1..] == ["x}}"] && ["x}}"][1..] == [];
    assert LineRefs(["x}}"]) == [] && LineRefs(d.body) == [];
    hide LineRefs;
    assert KindProblems(env, d) == [];
    assert DirectiveProblems(env, d, {}) == [];
    hide DirectiveProblems;
    assert [d][1..] == [];
  }

  /** The linter reads references line by line: `{{` and `x}}` on two lines make one in
      the joined block, and the linter does not see it. */
  lemma StraddlingIsMissed(env: LintEnv)
    ensures Problems(env, [STRADDLING], {}) == [] && Straight(STRADDLING) && !AllJoinedDefined([STRADDLING], {})
  {
    StraddlingLintsClean(env);
    StraddlingRefs();
    assert "x" in Refs(Unlines(STRADDLING.body));
  }

  lemma StraddlingRefs()
    ensures Refs("{{") == [] && Refs("x}}") == [] && Refs(Unlines(["{{", "x}}"])) == ["x"]
  {
    assert "{{"[1..] == "{" && "{"[1..] == "";
    assert "x}}"[1..] == "}}" && "}}"[1..] == "}" && "}"[1..] == "";
    assert ["{{", "x}}"][1..] == ["x}}"];
    var s := "{{\nx}}";
    assert Unlines(["{{", "x}}"]) == s;
    assert s[2..] == "\nx}}" && "\nx}}"[1..] == "x}}" && s[3..] == "x}}" && s[4..] == "}}" && s[6..] == "";
    assert SpaceRun("x}}") == 0 && SpaceRun(s[2..]) == 1;
    assert IdentRest("}}") == 0 && IdentRun(s[3..]) == 1;
    assert SpaceRun(s[4..]) == 0;
    assert s[3..4] == "x";
    assert RefAt(s) == Ref("x", 6);
  }
}
