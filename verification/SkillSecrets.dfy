/** Answers do not leak: the journal is the same whatever was answered, and secret
    answers never reach the values handed to the caller. */
module SkillSecrets {
  import opened Text
  import opened Json
  import opened Templates
  import opened SkillDirectives
  import opened SkillApply
  import opened SkillFacts
  import opened SkillLint

  /** What a second caller may do differently: answer otherwise, and have callbacks
      that react to the different text. */
  datatype Other = Other(
    inputs: map<string, string>,
    resolveInput: Option<(nat, string) -> Outcome<Option<string>>>,
    onEvent: Option<(nat, Emission) -> Option<string>>,
    exec: Option<(nat, string) -> Outcome<string>>,
    execStream: Option<(nat, string) -> Outcome<StepOutcome>>)

  function With(cfg: Config, o: Other): Config {
    cfg.(inputs := o.inputs, resolveInput := o.resolveInput, onEvent := o.onEvent, exec := o.exec,
        execStream := o.execStream)
  }

  /** The same files with the same content, `.env` excepted. */
  predicate FilesAlike(f: Files, g: Files) {
    f - {ENV} == g - {ENV} && (ENV in f <==> ENV in g)
  }

  /** Everything but `.env`, variable values and texts shown is the same. */
  predicate Alike(a: State, b: State) {
    && a.journal == b.journal
    && FilesAlike(a.files, b.files)
    && |a.trace| == |b.trace|
    && a.blocked == b.blocked
  }

  // ----- the same branches ----------------------------------------------------

  /** The line threw in both runs or in neither, after as many calls, and a key was
      found set in both or in neither. */
  predicate SameLine(cfg: Config, cfg2: Config, d: Directive, op: LineOp, l: string, a: State, b: State) {
    var x, y := LineStep(cfg, d, op, l, a), LineStep(cfg2, d, op, l, b);
    && x.exn.Some? == y.exn.Some?
    && |x.st.trace| == |y.st.trace|
    && (op.SetEnv? ==> EnvKeySet(a.files, EnvKeyOf(l)) == EnvKeySet(b.files, EnvKeyOf(l)))
  }

  predicate SameLines(cfg: Config, cfg2: Config, d: Directive, op: LineOp, body: seq<string>, a: State, b: State) {
    body == [] ||
    (&& SameLine(cfg, cfg2, d, op, body[0], a, b)
     && (LineStep(cfg, d, op, body[0], a).exn.None? ==>
          SameLines(cfg, cfg2, d, op, body[1..], LineStep(cfg, d, op, body[0], a).st,
              LineStep(cfg2, d, op, body[0], b).st)))
  }

  predicate SameCopy(cfg: Config, cfg2: Config, d: Directive, a: State, b: State) {
    if !d.Truthy("from-branch") then SameLines(cfg, cfg2, d, CopyFile, d.body, a, b)
    else
      var branch := d.attrs["from-branch"];
      match cfg.resolveRemote(|a.trace|, branch)
      case Throw(_) => true
      case Ok(remote) =>
        var cmd := "git fetch " + remote + " " + branch;
        var x, y := CallExec(cfg, d, a, cmd), CallExec(cfg2, d, b, cmd);
        && x.out.Ok? == y.out.Ok? && |x.st.trace| == |y.st.trace|
        && (x.out.Ok? ==> SameLines(cfg, cfg2, d, ShowBlob(remote, branch), d.body, x.st, y.st))
  }

  function BodyOp(d: Directive): LineOp {
    match d.kind
    case Append => var to := AttrOr(d, "to", "undefined");
        if d.Truthy("at") then InsertBefore(to, d.attrs["at"]) else AppendTo(to)
    case EnvSet => SetEnv
    case _ => if d.Is("effect", "check") then CheckCmd else RunOp(d)
  }

  /** The work of the directive met the same successes and failures. */
  predicate SameWork(cfg: Config, cfg2: Config, d: Directive, a: State, b: State) {
    match d.kind
    case Copy => SameCopy(cfg, cfg2, d, a, b)
    case Append => SameLines(cfg, cfg2, d, BodyOp(d), d.body, a, b)
    case EnvSet => SameLines(cfg, cfg2, d, BodyOp(d), d.body, a, b)
    case Run =>
      if d.Is("effect", "step") && !d.Is("effect", "check") then
        var x, y := ApplyStep(cfg, d, a), ApplyStep(cfg2, d, b);
        x.exn.Some? == y.exn.Some? && |x.st.trace| == |y.st.trace|
      else SameLines(cfg, cfg2, d, BodyOp(d), d.body, a, b)
    case Dep =>
      var x, y := ApplyDep(cfg, d, a), ApplyDep(cfg2, d, b);
      x.exn.Some? == y.exn.Some? && |x.st.trace| == |y.st.trace|
    case _ => true
  }

  /** The two runs treat the directive alike: same guard, same status, same work, and
      afterwards as long a trace and the latch in the same position. */
  predicate SameBranch(cfg: Config, cfg2: Config, d: Directive, a: State, b: State) {
    && Guarded(d, a.vars) == Guarded(d, b.vars)
    && (!d.kind.Prompt? && !d.kind.Operator? && !d.kind.JsonMerge? && !d.kind.Dep? ==>
          SelfStatus(cfg, d, a.files) == SelfStatus(cfg2, d, b.files))
    && Emit(cfg, a, StepStart(d.kind, d.line)).exn.Some? == Emit(cfg2, b, StepStart(d.kind, d.line)).exn.Some?
    && SameWork(cfg, cfg2, d, Started(cfg, d, a), Started(cfg2, d, b))
    && |Process(cfg, d, a).trace| == |Process(cfg2, d, b).trace|
    && Process(cfg, d, a).blocked == Process(cfg2, d, b).blocked
  }

  predicate SameBranches(cfg: Config, cfg2: Config, ds: seq<Directive>, a: State, b: State) {
    ds == [] ||
    (&& SameBranch(cfg, cfg2, ds[0], a, b)
     && SameBranches(cfg, cfg2, ds[1..], Process(cfg, ds[0], a), Process(cfg2, ds[0], b)))
  }

  // ----- then the journals agree ----------------------------------------------

  lemma FilesAgree(f: Files, g: Files, p: string)
    requires FilesAlike(f, g) && p != ENV
    ensures p in f <==> p in g
    ensures p in f ==> f[p] == g[p]
  {
    assert p in f <==> p in f - {ENV};
    assert p in g <==> p in g - {ENV};
    if p in f { assert (f - {ENV})[p] == f[p] && (g - {ENV})[p] == g[p]; }
  }

  /** The same write in both file systems, or any write to `.env` in both. */
  lemma WriteAlike(f: Files, g: Files, p: string, x: string, y: string)
    requires FilesAlike(f, g) && (p == ENV || x == y)
    ensures FilesAlike(f[p := x], g[p := y])
  {
    assert f[p := x] - {ENV} == if p == ENV then f - {ENV} else (f - {ENV})[p := x];
    assert g[p := y] - {ENV} == if p == ENV then g - {ENV} else (g - {ENV})[p := y];
  }

  lemma ReadAlike(f: Files, g: Files, p: string)
    requires FilesAlike(f, g) && p != ENV
    ensures Read(f, p) == Read(g, p)
  {
    FilesAgree(f, g, p);
  }

  /** A command line touches no file and journals only its own text. */
  lemma CommandJournal(cfg: Config, d: Directive, op: LineOp, l: string, st: State)
    requires op.CheckCmd? || op.RunCmd?
    ensures var r := LineStep(cfg, d, op, l, st);
      && r.st.files == st.files && r.st.blocked == st.blocked
      && r.st.journal == if op.RunCmd? && r.exn.None? then st.journal + [Ran(l, op.undo)] else st.journal
  {
    hide Substitute, BindCapture;
  }

  lemma StepJournal(cfg: Config, d: Directive, st: State)
    ensures var r := ApplyStep(cfg, d, st);
      && r.st.files == st.files && r.st.blocked == st.blocked
      && r.st.journal == if r.exn.None? then st.journal + [Ran(Unlines(d.body), None)] else st.journal
  {
    hide Substitute, BindFields, Unlines, Split;
  }

  lemma BlobAlike(cfg: Config, o: Other, d: Directive, op: LineOp, l: string, a: State, b: State)
    requires op.ShowBlob? || op.CopyFile?
    requires Alike(a, b) && SameLine(cfg, With(cfg, o), d, op, l, a, b)
    ensures Alike(LineStep(cfg, d, op, l, a).st, LineStep(With(cfg, o), d, op, l, b).st)
  {
    hide FilesAlike, SrcOf, DestOf, OnlyWork;
    if op.ShowBlob? {
      var c := cfg.blob(op.remote, op.branch, SrcOf(l));
      WriteAlike(a.files, b.files, DestOf(l), c, c);
    } else if SrcOf(l) in cfg.skillFiles {
      WriteAlike(a.files, b.files, DestOf(l), cfg.skillFiles[SrcOf(l)], cfg.skillFiles[SrcOf(l)]);
    }
  }

  lemma LineAlike(cfg: Config, o: Other, d: Directive, op: LineOp, l: string, a: State, b: State)
    requires Alike(a, b) && SameLine(cfg, With(cfg, o), d, op, l, a, b)
    ensures Alike(LineStep(cfg, d, op, l, a).st, LineStep(With(cfg, o), d, op, l, b).st)
  {
    if op.ShowBlob? || op.CopyFile? {
      BlobAlike(cfg, o, d, op, l, a, b);
    } else if op.InsertBefore? || op.AppendTo? || op.SetEnv? {
      TextLineAlike(cfg, o, d, op, l, a, b);
    } else if op.CheckCmd? || op.RunCmd? {
      hide LineStep, FilesAlike;
      CommandJournal(cfg, d, op, l, a);
      CommandJournal(With(cfg, o), d, op, l, b);
    }
  }

  lemma TextLineAlike(cfg: Config, o: Other, d: Directive, op: LineOp, l: string, a: State, b: State)
    requires op.InsertBefore? || op.AppendTo? || op.SetEnv?
    requires Alike(a, b) && SameLine(cfg, With(cfg, o), d, op, l, a, b)
    ensures Alike(LineStep(cfg, d, op, l, a).st, LineStep(With(cfg, o), d, op, l, b).st)
  {
    if op.SetEnv? { SetEnvAlike(cfg, o, d, l, a, b); } else { FileLineAlike(cfg, o, d, op, l, a, b); }
  }

  lemma SetEnvAlike(cfg: Config, o: Other, d: Directive, l: string, a: State, b: State)
    requires Alike(a, b) && SameLine(cfg, With(cfg, o), d, SetEnv, l, a, b)
    ensures Alike(LineStep(cfg, d, SetEnv, l, a).st, LineStep(With(cfg, o), d, SetEnv, l, b).st)
  {
    hide FilesAlike, Substitute, EnvKeySet, EnvKeyOf, EnvValueOf, AppendLine, OnlyWork;
    var x, y := LineStep(cfg, d, SetEnv, l, a).st, LineStep(With(cfg, o), d, SetEnv, l, b).st;
    if x.files != a.files || y.files != b.files {
      if ENV in x.files && ENV in y.files { WriteAlike(a.files, b.files, ENV, x.files[ENV], y.files[ENV]); }
    }
  }

  lemma FileLineAlike(cfg: Config, o: Other, d: Directive, op: LineOp, l: string, a: State, b: State)
    requires op.InsertBefore? || op.AppendTo?
    requires Alike(a, b) && SameLine(cfg, With(cfg, o), d, op, l, a, b)
    ensures Alike(LineStep(cfg, d, op, l, a).st, LineStep(With(cfg, o), d, op, l, b).st)
  {
    hide FilesAlike, AppendLine, InsertLine, OnlyWork, IndexOfMarker, Lines;
    var x, y := LineStep(cfg, d, op, l, a).st, LineStep(With(cfg, o), d, op, l, b).st;
    var p := op.to;
    if p != ENV { ReadAlike(a.files, b.files, p); }
    if p in x.files && p in y.files { WriteAlike(a.files, b.files, p, x.files[p], y.files[p]); }
  }

  lemma {:induction false} LinesAlike(cfg: Config, o: Other, d: Directive, op: LineOp, body: seq<string>, a: State,
      b: State)
    requires Alike(a, b) && SameLines(cfg, With(cfg, o), d, op, body, a, b)
    ensures var x := ForLines(cfg, d, op, body, a); var y := ForLines(With(cfg, o), d, op, body, b);
      Alike(x.st, y.st) && x.exn.Some? == y.exn.Some?
  {
    hide LineStep, Alike, With, OnlyWork;
    if body != [] {
      LineAlike(cfg, o, d, op, body[0], a, b);
      if LineStep(cfg, d, op, body[0], a).exn.None? {
        LinesAlike(cfg, o, d, op, body[1..], LineStep(cfg, d, op, body[0], a).st,
            LineStep(With(cfg, o), d, op, body[0], b).st);
      }
    }
  }

  lemma {:induction false} WroteAlike(cfg: Config, o: Other, d: Directive, body: seq<string>, a: State, b: State)
    requires Alike(a, b)
    ensures var x := ForLines(cfg, d, RecordWrote, body, a); var y := ForLines(With(cfg, o), d, RecordWrote, body, b);
      Alike(x.st, y.st) && x.exn.None? && y.exn.None?
  {
    hide FilesAlike, DestOf, OnlyWork;
    if body != [] {
      WroteAlike(cfg, o, d, body[1..], LineStep(cfg, d, RecordWrote, body[0], a).st,
          LineStep(With(cfg, o), d, RecordWrote, body[0], b).st);
    }
  }

  lemma CopyAlike(cfg: Config, o: Other, d: Directive, a: State, b: State)
    requires Alike(a, b) && SameCopy(cfg, With(cfg, o), d, a, b)
    ensures Alike(ApplyCopy(cfg, d, a).st, ApplyCopy(With(cfg, o), d, b).st)
  {
    hide FilesAlike, ForLines, SameLines, OnlyWork;
    var op, x, y := CopyFile, a, b;
    if d.Truthy("from-branch") && cfg.resolveRemote(|a.trace|, d.attrs["from-branch"]).Ok? {
      var branch := d.attrs["from-branch"];
      var remote := cfg.resolveRemote(|a.trace|, branch).value;
      var cmd := "git fetch " + remote + " " + branch;
      op, x, y := ShowBlob(remote, branch), CallExec(cfg, d, a, cmd).st, CallExec(With(cfg, o), d, b, cmd).st;
    }
    if SameLines(cfg, With(cfg, o), d, op, d.body, x, y) {
      LinesAlike(cfg, o, d, op, d.body, x, y);
      WroteAlike(cfg, o, d, d.body, ForLines(cfg, d, op, d.body, x).st, ForLines(With(cfg, o), d, op, d.body, y).st);
    }
  }

  /** What a merge writes and journals, by what its target holds. */
  function MergeEffect(cfg: Config, d: Directive, read: Option<Value>): Option<(string, Entry)> {
    var into, key := AttrOr(d, "into", "undefined"), AttrOr(d, "key", "undefined");
    var obj := cfg.codec.parse(Unlines(d.body));
    if obj.None? || into == "" || read.None? || !read.value.Arr? then None
    else
      var items, value := read.value.items, Member(obj.value, key);
      var at := FindMatch(items, key, value);
      if at == -1 then Some((cfg.codec.show(Arr(items + [obj.value])) + "\n", Merged(into, key, value, None)))
      else if cfg.mode.Refresh? && cfg.codec.show(items[at]) != cfg.codec.show(obj.value) then
        Some((cfg.codec.show(Arr(items[at := obj.value])) + "\n", Merged(into, key, value, Some(items[at]))))
      else None
  }

  lemma MergeIs(cfg: Config, d: Directive, st: State)
    ensures var into := AttrOr(d, "into", "undefined");
      ApplyMerge(cfg, d, st).st ==
      match MergeEffect(cfg, d, ReadJson(cfg.codec, st.files, into))
      case None => st
      case Some(e) => st.(files := st.files[into := e.0], journal := st.journal + [e.1])
  {
    hide Unlines, FindMatch, Member, ReadJson, OnlyWork, AttrOr;
  }

  lemma MergeAlike(cfg: Config, o: Other, d: Directive, a: State, b: State)
    requires Alike(a, b) && AttrOr(d, "into", "undefined") != ENV
    ensures Alike(ApplyMerge(cfg, d, a).st, ApplyMerge(With(cfg, o), d, b).st)
  {
    hide FilesAlike, ApplyMerge, Unlines, FindMatch, Member, ReadJson, AttrOr;
    var into := AttrOr(d, "into", "undefined");
    JsonAlike(cfg.codec, a.files, b.files, into);
    MergeIs(cfg, d, a);
    MergeIs(With(cfg, o), d, b);
    var e := MergeEffect(cfg, d, ReadJson(cfg.codec, a.files, into));
    assert MergeEffect(With(cfg, o), d, ReadJson(cfg.codec, b.files, into)) == e;
    hide MergeEffect;
    if e.Some? { WriteAlike(a.files, b.files, into, e.value.0, e.value.0); }
  }

  lemma JsonAlike(codec: Codec, f: Files, g: Files, p: string)
    requires FilesAlike(f, g) && p != ENV
    ensures ReadJson(codec, f, p) == ReadJson(codec, g, p)
  {
    ReadAlike(f, g, p);
  }

  lemma StepAlike(cfg: Config, o: Other, d: Directive, a: State, b: State)
    requires Alike(a, b)
    requires ApplyStep(cfg, d, a).exn.Some? == ApplyStep(With(cfg, o), d, b).exn.Some?
    requires |ApplyStep(cfg, d, a).st.trace| == |ApplyStep(With(cfg, o), d, b).st.trace|
    ensures Alike(ApplyStep(cfg, d, a).st, ApplyStep(With(cfg, o), d, b).st)
  {
    hide FilesAlike, ApplyStep;
    StepJournal(cfg, d, a);
    StepJournal(With(cfg, o), d, b);
  }

  function DepAdd(cfg: Config, d: Directive, st: State): Outcome<string> {
    var manager, cwd := AttrOr(d, "manager", "pnpm"), AttrOr(d, "cwd", "");
    var prefix := if cwd == "" then "" else "cd " + cwd + " && ";
    DepCommand(cfg, st, DepRequest(manager, cwd, Add, d.body), prefix + manager + " add " + Join(d.body, ' '))
  }

  function DepRemove(cfg: Config, d: Directive, st: State): Outcome<string> {
    var manager, cwd := AttrOr(d, "manager", "pnpm"), AttrOr(d, "cwd", "");
    var prefix := if cwd == "" then "" else "cd " + cwd + " && ";
    var names := Join(DepNames(d.body), ' ');
    DepCommand(cfg, st, DepRequest(manager, cwd, Remove, Split(names, ' ')), prefix + manager + " remove " + names)
  }

  /** A dependency block only ever adds the entry with its two commands. */
  lemma DepShape(cfg: Config, d: Directive, st: State)
    ensures var r := ApplyDep(cfg, d, st);
      && r.st.files == st.files && r.st.blocked == st.blocked
      && (r.exn.Some? ==> r.st.journal == st.journal)
      && (r.exn.None? ==> DepAdd(cfg, d, st).Ok? && DepRemove(cfg, d, st).Ok?)
      && (r.exn.None? ==>
            r.st.journal == st.journal + [Ran(DepAdd(cfg, d, st).value, Some(DepRemove(cfg, d, st).value))])
  {
    hide DepCommand, DepNames, Join, Split, OnlyWork, AttrOr;
  }

  lemma SameCommands(cfg: Config, o: Other, d: Directive, a: State, b: State)
    requires |a.trace| == |b.trace|
    ensures DepAdd(cfg, d, a) == DepAdd(With(cfg, o), d, b) && DepRemove(cfg, d, a) == DepRemove(With(cfg, o), d, b)
  {
    hide DepNames, Join, Split, AttrOr;
  }

  lemma DepAlike(cfg: Config, o: Other, d: Directive, a: State, b: State)
    requires Alike(a, b)
    requires ApplyDep(cfg, d, a).exn.Some? == ApplyDep(With(cfg, o), d, b).exn.Some?
    requires |ApplyDep(cfg, d, a).st.trace| == |ApplyDep(With(cfg, o), d, b).st.trace|
    ensures Alike(ApplyDep(cfg, d, a).st, ApplyDep(With(cfg, o), d, b).st)
  {
    hide ApplyDep, FilesAlike, DepAdd, DepRemove;
    DepShape(cfg, d, a);
    DepShape(With(cfg, o), d, b);
    SameCommands(cfg, o, d, a, b);
  }

  lemma WorkAlike(cfg: Config, o: Other, d: Directive, a: State, b: State)
    requires Alike(a, b) && SameWork(cfg, With(cfg, o), d, a, b)
    requires d.kind.JsonMerge? ==> AttrOr(d, "into", "undefined") != ENV
    ensures Alike(ApplyOne(cfg, d, a).st, ApplyOne(With(cfg, o), d, b).st)
  {
    hide ForLines, SameLines, SameCopy, ApplyCopy, ApplyDep, ApplyStep, ApplyMerge, Alike, With, OnlyWork;
    match d.kind
    case Copy => CopyAlike(cfg, o, d, a, b);
    case Append => LinesAlike(cfg, o, d, BodyOp(d), d.body, a, b);
    case EnvSet => LinesAlike(cfg, o, d, BodyOp(d), d.body, a, b);
    case Dep => DepAlike(cfg, o, d, a, b);
    case Run =>
      if d.Is("effect", "check") || !d.Is("effect", "step") {
        LinesAlike(cfg, o, d, BodyOp(d), d.body, a, b);
      } else {
        StepAlike(cfg, o, d, a, b);
      }
    case JsonMerge => MergeAlike(cfg, o, d, a, b);
    case _ =>
  }

  /** Outside its mutation a directive leaves journal and files alone. */
  lemma OnlyMutationsJournal(cfg: Config, d: Directive, st: State)
    ensures var p := Process(cfg, d, st); var m := Mutated(cfg, d, st);
      if Applies(cfg, d, st) && Emit(cfg, st, StepStart(d.kind, d.line)).exn.None?
      then p.journal == m.st.journal && p.files == m.st.files
      else p.journal == st.journal && p.files == st.files
  {
    hide SelfStatus, Guarded, DoPrompt, DoOperator, DoStep, Catch, OutsideRefresh, SideEffecting, ApplyOne, OnlyWork;
    PromptLeavesFiles(cfg, d, st);
    OperatorLeavesFiles(cfg, d, st);
    StepJournals(cfg, d, st);
    forall m
      ensures Catch(cfg, d, st, false, m).journal == st.journal && Catch(cfg, d, st, false, m).files == st.files
    {
      CatchLeavesFiles(cfg, d, st, m);
    }
  }

  lemma StepJournals(cfg: Config, d: Directive, st: State)
    ensures var p := DoStep(cfg, d, st); var m := Mutated(cfg, d, st);
      if Emit(cfg, st, StepStart(d.kind, d.line)).exn.None? then p.journal == m.st.journal && p.files == m.st.files
      else p.journal == st.journal && p.files == st.files
  {
    hide ApplyOne, IsUnresolved, OnlyWork;
  }

  lemma PromptLeavesFiles(cfg: Config, d: Directive, st: State)
    ensures DoPrompt(cfg, d, st).journal == st.journal && DoPrompt(cfg, d, st).files == st.files
  {
    hide Normalize, NameOf, Catch;
    forall st1, m
      ensures Catch(cfg, d, st1, false, m).journal == st1.journal && Catch(cfg, d, st1, false, m).files == st1.files
    {
      CatchLeavesFiles(cfg, d, st1, m);
    }
  }

  lemma CatchLeavesFiles(cfg: Config, d: Directive, st: State, m: string)
    ensures Catch(cfg, d, st, false, m).journal == st.journal && Catch(cfg, d, st, false, m).files == st.files
  {
    hide IsUnresolved;
  }

  lemma OperatorLeavesFiles(cfg: Config, d: Directive, st: State)
    ensures DoOperator(cfg, d, st).journal == st.journal && DoOperator(cfg, d, st).files == st.files
  {
    hide Substitute, IsUnresolved;
  }

  /** A merge's or dependency's status does not look at `.env`. */
  lemma StatusAlike(cfg: Config, o: Other, d: Directive, a: State, b: State)
    requires Alike(a, b) && (d.kind.JsonMerge? || d.kind.Dep?)
    requires d.kind.JsonMerge? ==> AttrOr(d, "into", "") != ENV
    ensures SelfStatus(cfg, d, a.files) == SelfStatus(With(cfg, o), d, b.files)
  {
    hide Unlines, FindMatch, Member, DepName, Truthy;
    if d.kind.JsonMerge? {
      ReadAlike(a.files, b.files, AttrOr(d, "into", ""));
    } else {
      var cwd := AttrOr(d, "cwd", "");
      var path := if cwd == "" then "package.json" else cwd + "/package.json";
      assert path != ENV by { assert path[|path| - 1] == 'n'; }
      ReadAlike(a.files, b.files, path);
      forall name ensures HasDep(cfg, a.files, cwd, name) == HasDep(With(cfg, o), b.files, cwd, name) {}
    }
  }

  lemma DirectiveAlike(cfg: Config, o: Other, d: Directive, a: State, b: State)
    requires cfg.onEvent.Some? == o.onEvent.Some?
    requires Alike(a, b) && SameBranch(cfg, With(cfg, o), d, a, b)
    requires d.kind.JsonMerge? ==> AttrOr(d, "into", "undefined") != ENV
    ensures Alike(Process(cfg, d, a), Process(With(cfg, o), d, b))
  {
    hide Process, SelfStatus, Guarded, SameWork, ApplyOne, OutsideRefresh, SideEffecting, OnlyWork;
    var cfg2 := With(cfg, o);
    if d.kind.JsonMerge? || d.kind.Dep? { StatusAlike(cfg, o, d, a, b); }
    OnlyMutationsJournal(cfg, d, a);
    OnlyMutationsJournal(cfg2, d, b);
    assert Applies(cfg, d, a) == Applies(cfg2, d, b);
    if Applies(cfg, d, a) && Emit(cfg, a, StepStart(d.kind, d.line)).exn.None? {
      EmitsAlike(cfg, o, d, a, b);
      WorkAlike(cfg, o, d, Started(cfg, d, a), Started(cfg2, d, b));
    }
  }

  lemma EmitsAlike(cfg: Config, o: Other, d: Directive, a: State, b: State)
    requires Alike(a, b) && cfg.onEvent.Some? == o.onEvent.Some?
    ensures Alike(Started(cfg, d, a), Started(With(cfg, o), d, b))
  {
  }

  /** The journal is independent of the answers: two runs of one document on the same
      files that take the same branches and meet the same successes and failures leave
      the same journal, whatever was answered, asked or printed. */
  lemma {:induction false} JournalIgnoresAnswers(cfg: Config, o: Other, ds: seq<Directive>, a: State, b: State)
    requires cfg.onEvent.Some? == o.onEvent.Some?
    requires forall i | 0 <= i < |ds| && ds[i].kind.JsonMerge? :: AttrOr(ds[i], "into", "undefined") != ENV
    requires Alike(a, b) && SameBranches(cfg, With(cfg, o), ds, a, b)
    ensures RunAll(cfg, ds, a).journal == RunAll(With(cfg, o), ds, b).journal
  {
    hide Process, SameBranch, With, AttrOr;
    if ds != [] {
      DirectiveAlike(cfg, o, ds[0], a, b);
      forall i | 0 <= i < |ds[1..]| && ds[1..][i].kind.JsonMerge?
        ensures AttrOr(ds[1..][i], "into", "undefined") != ENV
      {
        assert ds[1..][i] == ds[i + 1];
      }
      JournalIgnoresAnswers(cfg, o, ds[1..], Process(cfg, ds[0], a), Process(With(cfg, o), ds[0], b));
    }
  }

  // ----- secrets stay out of the result ---------------------------------------

  /** The directive binds the name only as a secret, or, unless `allowed`, not at all. */
  predicate KeepsSecret(d: Directive, name: string, allowed: bool) {
    && (d.kind.Prompt? && NameOf(d) == name ==> allowed && "secret" in d.args)
    && (d.kind.Run? && "capture" in d.attrs ==> name !in CaptureVars(d.attrs["capture"]))
  }

  predicate Secret(name: string, vars: Vars, allowed: bool) {
    name in vars ==> allowed && vars[name].secret
  }

  lemma {:induction false} PairsKeepSecret(cfg: Config, pairs: seq<string>, json: Value, validate: string, vars: Vars,
      name: string, allowed: bool)
    requires name !in PairNames(pairs) && name != "" && Secret(name, vars, allowed)
    ensures Secret(name, CapturePairs(cfg, pairs, json, validate, vars).vars, allowed)
  {
    hide Trim;
    if pairs != [] {
      var eq := IndexOf(pairs[0], '=');
      if eq < 1 {
        PairsKeepSecret(cfg, pairs[1..], json, validate, vars, name, allowed);
      } else {
        var b := SetCaptured(cfg, validate, Trim(pairs[0][..eq]), cfg.codec.path(json, Trim(pairs[0][eq + 1..])), vars);
        PairsKeepSecret(cfg, pairs[1..], json, validate, b.vars, name, allowed);
      }
    }
  }

  lemma {:induction false} FieldsKeepSecret(pairs: seq<string>, fields: map<string, string>, vars: Vars, name: string,
      allowed: bool)
    requires name !in PairNames(pairs) && name != "" && Secret(name, vars, allowed)
    ensures Secret(name, BindFields(pairs, fields, vars), allowed)
  {
    hide Trim;
    if pairs != [] {
      var eq := IndexOf(pairs[0], '=');
      if eq < 1 {
        FieldsKeepSecret(pairs[1..], fields, vars, name, allowed);
      } else {
        var f := Trim(pairs[0][eq + 1..]);
        var value := if f in fields then Trim(fields[f]) else "";
        FieldsKeepSecret(pairs[1..], fields, vars[Trim(pairs[0][..eq]) := Binding(value, false)], name, allowed);
      }
    }
  }

  lemma LineKeepsSecret(cfg: Config, d: Directive, op: LineOp, l: string, st: State, name: string, allowed: bool)
    requires name != "" && Secret(name, st.vars, allowed)
    requires op.RunCmd? && op.capture.Some? ==> name !in CaptureVars(op.capture.value)
    ensures Secret(name, LineStep(cfg, d, op, l, st).st.vars, allowed)
  {
    hide Substitute, SrcOf, DestOf, EnvKeySet, EnvKeyOf, EnvValueOf, AppendLine, InsertLine, OnlyWork, CapturePairs,
         Secret;
    if op.RunCmd? && op.capture.Some? && Substitute(l, st.vars).Ok? {
      var c := CallExec(cfg, d, st, Substitute(l, st.vars).value);
      if c.out.Ok? {
        CaptureKeepsSecret(cfg, op.capture.value, Trim(c.out.value), op.validate, st.vars, name, allowed);
      }
    }
  }

  lemma CaptureKeepsSecret(cfg: Config, spec: string, out: string, validate: string, vars: Vars, name: string,
      allowed: bool)
    requires name != "" && Secret(name, vars, allowed) && name !in CaptureVars(spec)
    ensures Secret(name, BindCapture(cfg, spec, out, validate, vars).vars, allowed)
  {
    hide PairNames, CapturePairs;
    if '=' in spec && cfg.codec.parse(out).Some? {
      PairsKeepSecret(cfg, Split(spec, ','), cfg.codec.parse(out).value, validate, vars, name, allowed);
    }
  }

  lemma {:induction false} LinesKeepSecret(cfg: Config, d: Directive, op: LineOp, body: seq<string>, st: State,
      name: string, allowed: bool)
    requires name != "" && Secret(name, st.vars, allowed)
    requires op.RunCmd? && op.capture.Some? ==> name !in CaptureVars(op.capture.value)
    ensures Secret(name, ForLines(cfg, d, op, body, st).st.vars, allowed)
  {
    hide LineStep, CaptureVars, OnlyWork, Secret;
    if body != [] {
      LineKeepsSecret(cfg, d, op, body[0], st, name, allowed);
      LinesKeepSecret(cfg, d, op, body[1..], LineStep(cfg, d, op, body[0], st).st, name, allowed);
    }
  }

  lemma StepKeepsSecret(cfg: Config, d: Directive, st: State, name: string, allowed: bool)
    requires name != "" && Secret(name, st.vars, allowed)
    requires "capture" in d.attrs ==> name !in CaptureVars(d.attrs["capture"])
    ensures Secret(name, ApplyStep(cfg, d, st).st.vars, allowed)
  {
    hide Substitute, BindFields, Unlines, PairNames, OnlyWork, Secret;
    if "capture" in d.attrs && '=' in d.attrs["capture"] {
      forall fields ensures Secret(name, BindFields(Split(d.attrs["capture"], ','), fields, st.vars), allowed) {
        FieldsKeepSecret(Split(d.attrs["capture"], ','), fields, st.vars, name, allowed);
      }
    } else if "capture" in d.attrs {
      forall fields ensures BindFields(Split(d.attrs["capture"], ','), fields, st.vars) == st.vars {
        PieceHasNone(d.attrs["capture"], ',', '=');
        NoPairsBindNothing(Split(d.attrs["capture"], ','), fields, st.vars);
      }
    }
  }

  lemma {:induction false} NoPairsBindNothing(pairs: seq<string>, fields: map<string, string>, vars: Vars)
    requires forall i | 0 <= i < |pairs| :: '=' !in pairs[i]
    ensures BindFields(pairs, fields, vars) == vars
  {
    if pairs != [] {
      IndexOfIsFirst(pairs[0], '=');
      assert forall i | 0 <= i < |pairs[1..]| :: pairs[1..][i] == pairs[i + 1];
      NoPairsBindNothing(pairs[1..], fields, vars);
    }
  }

  lemma CopyKeepsSecret(cfg: Config, d: Directive, st: State, name: string, allowed: bool)
    requires name != "" && Secret(name, st.vars, allowed)
    ensures Secret(name, ApplyCopy(cfg, d, st).st.vars, allowed)
  {
    hide ForLines, OnlyWork, Secret;
    forall op: LineOp, st1: State | !op.RunCmd? && Secret(name, st1.vars, allowed)
      ensures Secret(name, ForLines(cfg, d, op, d.body, st1).st.vars, allowed)
    { LinesKeepSecret(cfg, d, op, d.body, st1, name, allowed); }
  }

  lemma WorkKeepsSecret(cfg: Config, d: Directive, st: State, name: string, allowed: bool)
    requires name != "" && Secret(name, st.vars, allowed) && KeepsSecret(d, name, allowed)
    ensures Secret(name, ApplyOne(cfg, d, st).st.vars, allowed)
  {
    hide ForLines, ApplyCopy, ApplyStep, CaptureVars, Secret, OnlyWork, DepNames, Join, Split, Unlines, FindMatch;
    CopyKeepsSecret(cfg, d, st, name, allowed);
    if d.kind.Run? {
      StepKeepsSecret(cfg, d, st, name, allowed);
      LinesKeepSecret(cfg, d, RunOp(d), d.body, st, name, allowed);
    }
    forall op: LineOp | !op.RunCmd? ensures Secret(name, ForLines(cfg, d, op, d.body, st).st.vars, allowed) {
      LinesKeepSecret(cfg, d, op, d.body, st, name, allowed);
    }
  }

  lemma PromptKeepsSecret(cfg: Config, d: Directive, st: State, name: string, allowed: bool)
    requires d.kind.Prompt? && Secret(name, st.vars, allowed) && KeepsSecret(d, name, allowed)
    ensures Secret(name, DoPrompt(cfg, d, st).vars, allowed)
  {
    hide Normalize, NameOf, IsUnresolved;
  }

  lemma OperatorKeepsVars(cfg: Config, d: Directive, st: State)
    ensures DoOperator(cfg, d, st).vars == st.vars
  {
    hide Substitute, IsUnresolved;
  }

  lemma ProcessKeepsSecret(cfg: Config, d: Directive, st: State, name: string, allowed: bool)
    requires name != "" && Secret(name, st.vars, allowed) && KeepsSecret(d, name, allowed)
    ensures Secret(name, Process(cfg, d, st).vars, allowed)
  {
    hide SelfStatus, Guarded, DoPrompt, DoOperator, OutsideRefresh, SideEffecting, ApplyOne, IsUnresolved, Secret,
         KeepsSecret, OnlyWork;
    if d.kind.Prompt? { PromptKeepsSecret(cfg, d, st, name, allowed); }
    OperatorKeepsVars(cfg, d, st);
    WorkKeepsSecret(cfg, d, Started(cfg, d, st), name, allowed);
  }

  /** A name that only secret prompts bind is not among the values a run returns,
      whatever the callbacks did. */
  lemma {:induction false} SecretsStayOut(cfg: Config, ds: seq<Directive>, st: State, name: string)
    requires name != "" && Secret(name, st.vars, true)
    requires forall i | 0 <= i < |ds| :: KeepsSecret(ds[i], name, true)
    ensures name !in ResultVars(RunAll(cfg, ds, st).vars)
  {
    hide Process, KeepsSecret;
    if ds != [] {
      ProcessKeepsSecret(cfg, ds[0], st, name, true);
      forall i | 0 <= i < |ds[1..]| ensures KeepsSecret(ds[1..][i], name, true) { assert ds[1..][i] == ds[i + 1]; }
      SecretsStayOut(cfg, ds[1..], Process(cfg, ds[0], st), name);
    }
  }
}
