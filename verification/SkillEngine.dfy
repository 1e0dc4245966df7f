/** The engine itself: one object whose methods change files, variables, journal and
    verdicts in place, each proved to compute the interpreter of `SkillApply`. */
module SkillEngine {
  import opened Text
  import opened Json
  import opened Templates
  import opened SkillDirectives
  import opened SkillApply
  import SkillHealth
  import SkillSecrets
  import SkillUndoRuns

  /** What a whole run on a new engine keeps to. */
  ghost predicate WellRun(cfg: Config, ds: seq<Directive>, files: Files, end: State, result: map<string, string>) {
    && SkillHealth.Verdicts(end) + SkillHealth.Answers(cfg, ds, Start(files)) == |ds|
    && SkillHealth.NothingAfterBounce(end.trace)
    && (cfg.onEvent.Some? ==>
          SkillHealth.PhaseAfter(end.trace).Idle? &&
          forall n | 0 <= n <= |end.trace| :: !SkillHealth.PhaseAfter(end.trace[..n]).Broken?)
    && (forall name | name != "" && (forall i | 0 <= i < |ds| :: SkillSecrets.KeepsSecret(ds[i], name, true)) ::
          name !in result)
  }

  lemma RunsAreWellRun(cfg: Config, ds: seq<Directive>, files: Files)
    ensures var end := RunAll(cfg, ds, Start(files)); WellRun(cfg, ds, files, end, ResultVars(end.vars))
  {
    hide RunAll, ResultVars, SkillSecrets.KeepsSecret, SkillHealth.Answers, SkillHealth.NothingAfterBounce;
    SkillHealth.EveryDirectiveIsAccountedFor(cfg, ds, Start(files));
    SkillHealth.NothingDangerousAfterABounce(cfg, ds, files);
    if cfg.onEvent.Some? { SkillHealth.StepsAreBracketed(cfg, ds, Start(files)); }
    forall name | name != "" && (forall i | 0 <= i < |ds| :: SkillSecrets.KeepsSecret(ds[i], name, true))
      ensures name !in ResultVars(RunAll(cfg, ds, Start(files)).vars)
    {
      SkillSecrets.SecretsStayOut(cfg, ds, Start(files), name);
    }
  }

  class Engine {
    const cfg: Config
    var files: Files
    var vars: Vars
    var journal: seq<Entry>
    var trace: seq<Event>
    var blocked: bool
    var applied: seq<Note>
    var skipped: seq<Note>
    var deferred: seq<Deferral>
    var tasks: seq<Task>
    var messages: seq<string>

    /** The fields as one value. */
    ghost function Now(): State
      reads this
    {
      State(files, vars, journal, trace, blocked, applied, skipped, deferred, tasks, messages)
    }

    constructor (cfg: Config, files: Files)
      ensures this.cfg == cfg && Now() == Start(files)
    {
      this.cfg, this.files := cfg, files;
      vars, journal, trace, blocked := map[], [], [], false;
      applied, skipped, deferred, tasks, messages := [], [], [], [], [];
    }

    // ----- callbacks ----------------------------------------------------------

    method CallExec(d: Directive, cmd: string) returns (out: Outcome<string>)
      modifies this
      ensures SkillApply.CallExec(cfg, d, old(Now()), cmd) == Called(Now(), out)
    {
      if cfg.exec.None? {
        out := Throw("no exec provided");
      } else {
        out := cfg.exec.value(|trace|, cmd);
        trace := trace + [Executed(d.kind, d.line, d.Attr("effect"), cmd)];
      }
    }

    method Emit(e: Emission) returns (exn: Option<string>)
      modifies this
      ensures SkillApply.Emit(cfg, old(Now()), e) == Done(Now(), exn)
    {
      exn := None;
      if cfg.onEvent.Some? {
        exn := cfg.onEvent.value(|trace|, e);
        trace := trace + [Emitted(e, exn.None?)];
      }
    }

    // ----- captures -----------------------------------------------------------

    method SetCaptured(validate: string, name: string, value: string) returns (exn: Option<string>)
      modifies this`vars
      ensures SkillApply.SetCaptured(cfg, validate, name, value, old(vars)) == Bound(vars, exn)
    {
      if validate != "" && !cfg.test(validate, "", value) {
        exn := Some("captured " + name + " does not match validate:" + validate);
      } else {
        vars := vars[name := Binding(value, false)];
        exn := None;
      }
    }

    method CapturePairs(pairs: seq<string>, json: Value, validate: string) returns (exn: Option<string>)
      modifies this`vars
      ensures SkillApply.CapturePairs(cfg, pairs, json, validate, old(vars)) == Bound(vars, exn)
    {
      hide Trim, IndexOf;
      exn := None;
      var n := 0;
      while n < |pairs|
        invariant n <= |pairs| && exn.None?
        invariant SkillApply.CapturePairs(cfg, pairs, json, validate, old(vars))
               == SkillApply.CapturePairs(cfg, pairs[n..], json, validate, vars)
      {
        var pair := pairs[n];
        assert pairs[n..][1..] == pairs[n + 1..];
        var eq := IndexOf(pair, '=');
        if eq >= 1 {
          exn := SetCaptured(validate, Trim(pair[..eq]), cfg.codec.path(json, Trim(pair[eq + 1..])));
          if exn.Some? { return; }
        }
        n := n + 1;
      }
    }

    method BindCapture(spec: string, stdout: string, validate: string) returns (exn: Option<string>)
      modifies this`vars
      ensures SkillApply.BindCapture(cfg, spec, stdout, validate, old(vars)) == Bound(vars, exn)
    {
      if validate != "" {
        exn := cfg.compiles(validate, "");
        if exn.Some? { return; }
      }
      if '=' !in spec {
        exn := SetCaptured(validate, spec, stdout);
      } else {
        var json := cfg.codec.parse(stdout);
        if json.None? {
          exn := Some("Unexpected token in JSON");
        } else {
          exn := CapturePairs(Split(spec, ','), json.value, validate);
        }
      }
    }

    method BindFields(pairs: seq<string>, fields: map<string, string>)
      modifies this`vars
      ensures vars == SkillApply.BindFields(pairs, fields, old(vars))
    {
      hide Trim, IndexOf;
      for n := 0 to |pairs|
        invariant SkillApply.BindFields(pairs, fields, old(vars)) == SkillApply.BindFields(pairs[n..], fields, vars)
      {
        var pair := pairs[n];
        assert pairs[n..][1..] == pairs[n + 1..];
        var eq := IndexOf(pair, '=');
        if eq >= 1 {
          var f := Trim(pair[eq + 1..]);
          var value := if f in fields then Trim(fields[f]) else "";
          vars := vars[Trim(pair[..eq]) := Binding(value, false)];
        }
      }
    }

    // ----- the body loop ------------------------------------------------------

    method RunLine(d: Directive, op: LineOp, l: string) returns (exn: Option<string>)
      requires op.RunCmd?
      modifies this
      ensures SkillApply.RunLine(cfg, d, op, l, old(Now())) == Done(Now(), exn)
    {
      hide Trim, Substitute, SkillApply.BindCapture;
      var cmd := Substitute(l, vars);
      if cmd.Throw? { return Some(cmd.message); }
      var out := CallExec(d, cmd.value);
      if out.Throw? { return Some(out.message); }
      exn := None;
      if op.capture.Some? { exn := BindCapture(op.capture.value, Trim(out.value), op.validate); }
      if exn.None? { journal := journal + [Ran(l, op.undo)]; }
    }

    method SetEnvLine(l: string) returns (exn: Option<string>)
      modifies this
      ensures forall d :: LineStep(cfg, d, SetEnv, l, old(Now())) == Done(Now(), exn)
    {
      hide Substitute, EnvKeySet, EnvKeyOf, EnvValueOf, AppendLine;
      var key := EnvKeyOf(l);
      var value := Substitute(EnvValueOf(l), vars);
      if value.Throw? { return Some(value.message); }
      exn := None;
      if !EnvKeySet(files, key) {
        files := files[ENV := AppendLine(Read(files, ENV), key + "=" + value.value)];
        journal := journal + [SetKey(key)];
      }
    }

    method DoLine(d: Directive, op: LineOp, l: string) returns (exn: Option<string>)
      modifies this
      ensures LineStep(cfg, d, op, l, old(Now())) == Done(Now(), exn)
    {
      hide Substitute, DestOf, SrcOf, AppendLine, InsertLine, SkillApply.RunLine, EnvKeySet, EnvKeyOf, EnvValueOf;
      exn := None;
      match op
      case ShowBlob(remote, branch) =>
        var out := CallExec(d, "git show " + remote + "/" + branch + ":" + SrcOf(l) + " > " + DestOf(l));
        if out.Throw? { return Some(out.message); }
        files := files[DestOf(l) := cfg.blob(remote, branch, SrcOf(l))];
      case CopyFile =>
        if SrcOf(l) !in cfg.skillFiles { return Some("ENOENT: no such file or directory"); }
        files := files[DestOf(l) := cfg.skillFiles[SrcOf(l)]];
      case RecordWrote =>
        journal := journal + [Wrote(DestOf(l))];
      case InsertBefore(to, marker) =>
        var at := IndexOfMarker(Lines(Read(files, to)), marker);
        if at == -1 { return Some("append marker not found in " + to); }
        files := files[to := InsertLine(Read(files, to), at, l)];
        journal := journal + [Appended(to, l)];
      case AppendTo(to) =>
        files := files[to := AppendLine(Read(files, to), l)];
        journal := journal + [Appended(to, l)];
      case CheckCmd =>
        var cmd := Substitute(l, vars);
        if cmd.Throw? { return Some(cmd.message); }
        var out := CallExec(d, cmd.value);
        if out.Throw? { return Some(out.message); }
      case RunCmd(_, _, _) =>
        exn := RunLine(d, op, l);
      case SetEnv =>
        exn := SetEnvLine(l);
    }

    method ForLines(d: Directive, op: LineOp, body: seq<string>) returns (exn: Option<string>)
      modifies this
      ensures SkillApply.ForLines(cfg, d, op, body, old(Now())) == Done(Now(), exn)
    {
      hide LineStep, OnlyWork;
      exn := None;
      var n := 0;
      while n < |body|
        invariant n <= |body| && exn.None?
        invariant SkillApply.ForLines(cfg, d, op, body, old(Now())) == SkillApply.ForLines(cfg, d, op, body[n..], Now())
      {
        assert body[n..][0] == body[n] && body[n..][1..] == body[n + 1..];
        exn := DoLine(d, op, body[n]);
        if exn.Some? { return; }
        n := n + 1;
      }
    }

    // ----- one directive ------------------------------------------------------

    method ApplyCopy(d: Directive) returns (exn: Option<string>)
      modifies this
      ensures SkillApply.ApplyCopy(cfg, d, old(Now())) == Done(Now(), exn)
    {
      hide SkillApply.ForLines, OnlyWork;
      if d.Truthy("from-branch") {
        var branch := d.attrs["from-branch"];
        var remote := cfg.resolveRemote(|trace|, branch);
        if remote.Throw? { return Some(remote.message); }
        var out := CallExec(d, "git fetch " + remote.value + " " + branch);
        if out.Throw? { return Some(out.message); }
        exn := ForLines(d, ShowBlob(remote.value, branch), d.body);
      } else {
        exn := ForLines(d, CopyFile, d.body);
      }
      if exn.None? { exn := ForLines(d, RecordWrote, d.body); }
    }

    method ApplyDep(d: Directive) returns (exn: Option<string>)
      modifies this
      ensures SkillApply.ApplyDep(cfg, d, old(Now())) == Done(Now(), exn)
    {
      hide DepNames, Join, Split, DepCommand, OnlyWork;
      var manager := AttrOr(d, "manager", "pnpm");
      var cwd := AttrOr(d, "cwd", "");
      var prefix := if cwd == "" then "" else "cd " + cwd + " && ";
      var names := Join(DepNames(d.body), ' ');
      var st := State(files, vars, journal, trace, blocked, applied, skipped, deferred, tasks, messages);
      var add := DepCommand(cfg, st, DepRequest(manager, cwd, Add, d.body),
          prefix + manager + " add " + Join(d.body, ' '));
      if add.Throw? { return Some(add.message); }
      var remove := DepCommand(cfg, st, DepRequest(manager, cwd, Remove, Split(names, ' ')),
          prefix + manager + " remove " + names);
      if remove.Throw? { return Some(remove.message); }
      var out := CallExec(d, add.value);
      if out.Throw? { return Some(out.message); }
      journal := journal + [Ran(add.value, Some(remove.value))];
      exn := None;
    }

    method ApplyStep(d: Directive) returns (exn: Option<string>)
      modifies this
      ensures SkillApply.ApplyStep(cfg, d, old(Now())) == Done(Now(), exn)
    {
      hide Substitute, SkillApply.BindFields, Unlines, Split, OnlyWork;
      if cfg.execStream.None? { return Some("effect:step needs a streaming exec"); }
      var cmd := Substitute(Unlines(d.body), vars);
      if cmd.Throw? { return Some(cmd.message); }
      var outcome := cfg.execStream.value(|trace|, cmd.value);
      trace := trace + [Executed(d.kind, d.line, d.Attr("effect"), cmd.value)];
      if outcome.Throw? { return Some(outcome.message); }
      if !outcome.value.ok { return Some("the step did not complete"); }
      if d.Truthy("capture") { BindFields(Split(d.attrs["capture"], ','), outcome.value.fields); }
      journal := journal + [Ran(Unlines(d.body), None)];
      exn := None;
    }

    method ApplyMerge(d: Directive) returns (exn: Option<string>)
      modifies this
      ensures SkillApply.ApplyMerge(cfg, d, old(Now())) == Done(Now(), exn)
    {
      hide Unlines, FindMatch, Member, ReadJson, OnlyWork;
      var into := AttrOr(d, "into", "undefined");
      var key := AttrOr(d, "key", "undefined");
      var obj := cfg.codec.parse(Unlines(d.body));
      if obj.None? { return Some("Unexpected token in JSON"); }
      if into == "" { return Some(IS_DIRECTORY); }
      var target := ReadJson(cfg.codec, files, into);
      if target.None? { return Some("Unexpected token in JSON"); }
      if !target.value.Arr? { return Some(into + " is not a JSON array"); }
      var items := target.value.items;
      var value := Member(obj.value, key);
      var at := FindMatch(items, key, value);
      if at == -1 {
        files := files[into := cfg.codec.show(Arr(items + [obj.value])) + "\n"];
        journal := journal + [Merged(into, key, value, None)];
      } else if cfg.mode.Refresh? && cfg.codec.show(items[at]) != cfg.codec.show(obj.value) {
        files := files[into := cfg.codec.show(Arr(items[at := obj.value])) + "\n"];
        journal := journal + [Merged(into, key, value, Some(items[at]))];
      }
      exn := None;
    }

    method ApplyOne(d: Directive) returns (exn: Option<string>)
      modifies this
      ensures SkillApply.ApplyOne(cfg, d, old(Now())) == Done(Now(), exn)
    {
      hide SkillApply.ForLines, SkillApply.ApplyCopy, SkillApply.ApplyDep, SkillApply.ApplyStep, SkillApply.ApplyMerge,
           OnlyWork;
      match d.kind
      case Copy => exn := ApplyCopy(d);
      case Append =>
        var to := AttrOr(d, "to", "undefined");
        exn := ForLines(d, if d.Truthy("at") then InsertBefore(to, d.attrs["at"]) else AppendTo(to), d.body);
      case Dep => exn := ApplyDep(d);
      case Run =>
        if d.Is("effect", "check") {
          exn := ForLines(d, CheckCmd, d.body);
        } else if d.Is("effect", "step") {
          exn := ApplyStep(d);
        } else {
          exn := ForLines(d, RunOp(d), d.body);
        }
      case EnvSet => exn := ForLines(d, SetEnv, d.body);
      case JsonMerge => exn := ApplyMerge(d);
      case _ => exn := Some("no handler");
    }

    // ----- verdicts -----------------------------------------------------------

    method Bounce(d: Directive, reason: Reason)
      modifies this
      ensures Now() == SkillApply.Bounce(old(Now()), d, reason)
    {
      blocked := true;
      tasks := tasks + [Task(d.kind, d.line, reason)];
      trace := trace + [Bounced(d.line)];
    }

    method Catch(d: Directive, inFlight: bool, message: string)
      modifies this
      ensures Now() == SkillApply.Catch(cfg, d, old(Now()), inFlight, message)
    {
      hide IsUnresolved;
      if inFlight { var _ := Emit(StepEnd(d.kind, d.line, false)); }
      if IsUnresolved(message) {
        deferred := deferred + [Blocked(message)];
      } else {
        Bounce(d, Failed(message));
      }
    }

    method BindPrompt(d: Directive, answer: string)
      modifies this
      ensures Now() == SkillApply.BindPrompt(cfg, d, old(Now()), answer)
    {
      hide SkillApply.Catch, Normalize, NameOf;
      var v := NameOf(d);
      var bound := Normalize(cfg, answer, d.Attr("normalize"));
      if "validate" in d.attrs {
        var flags := AttrOr(d, "flags", "");
        var bad := cfg.compiles(d.attrs["validate"], flags);
        if bad.Some? {
          Catch(d, false, bad.value);
          return;
        }
        if !cfg.test(d.attrs["validate"], flags, bound) {
          deferred := deferred + [Invalid(v, d.attrs["validate"])];
          return;
        }
      }
      vars := vars[v := Binding(bound, "secret" in d.args)];
    }

    method DoPrompt(d: Directive)
      modifies this
      ensures Now() == SkillApply.DoPrompt(cfg, d, old(Now()))
    {
      hide SkillApply.Catch, SkillApply.BindPrompt, NameOf;
      var v := NameOf(d);
      if v in cfg.inputs {
        BindPrompt(d, cfg.inputs[v]);
      } else if cfg.resolveInput.None? {
        deferred := deferred + [NoAnswer(v)];
      } else {
        var r := cfg.resolveInput.value(|trace|, v);
        trace := trace + [Asked(v)];
        match r
        case Throw(m) => Catch(d, false, m);
        case Ok(None) => deferred := deferred + [NoAnswer(v)];
        case Ok(Some(answer)) => BindPrompt(d, answer);
      }
    }

    method DoOperator(d: Directive)
      modifies this
      ensures Now() == SkillApply.DoOperator(cfg, d, old(Now()))
    {
      hide SkillApply.Catch, Substitute, Unlines;
      if blocked {
        skipped := skipped + [Note(d.kind, d.line)];
      } else {
        var text := Substitute(Unlines(d.body), vars);
        if text.Throw? {
          Catch(d, false, text.message);
        } else {
          messages := messages + [text.value];
          var exn := Emit(ShowOperator(d.line, text.value));
          if exn.Some? {
            Catch(d, false, exn.value);
          } else {
            applied := applied + [Note(d.kind, d.line)];
          }
        }
      }
    }

    method DoStep(d: Directive)
      modifies this
      ensures Now() == SkillApply.DoStep(cfg, d, old(Now()))
    {
      hide SkillApply.Catch, SkillApply.ApplyOne;
      var exn := Emit(StepStart(d.kind, d.line));
      if exn.Some? {
        Catch(d, false, exn.value);
        return;
      }
      exn := ApplyOne(d);
      if exn.Some? {
        Catch(d, true, exn.value);
        return;
      }
      exn := Emit(StepEnd(d.kind, d.line, true));
      if exn.Some? {
        Catch(d, false, exn.value);
      } else {
        applied := applied + [Note(d.kind, d.line)];
      }
    }

    method Process(d: Directive)
      modifies this
      ensures Now() == SkillApply.Process(cfg, d, old(Now()))
    {
      hide SkillApply.Catch, SkillApply.DoPrompt, SkillApply.DoOperator, SkillApply.DoStep, SelfStatus, OutsideRefresh,
           SideEffecting, Guarded;
      if (cfg.mode.Refresh? && OutsideRefresh(d)) || Guarded(d, vars) {
        skipped := skipped + [Note(d.kind, d.line)];
      } else if d.kind.Prompt? {
        DoPrompt(d);
      } else if d.kind.Operator? {
        DoOperator(d);
      } else if d.kind.Run? && "effect" in d.attrs && d.attrs["effect"] in cfg.skipEffects {
        skipped := skipped + [Note(d.kind, d.line)];
      } else if SideEffecting(d) && blocked {
        Bounce(d, Gated);
      } else {
        var status := SelfStatus(cfg, d, files);
        match status
        case Throw(m) => Catch(d, false, m);
        case Ok(Agent) => Bounce(d, NoHandler);
        case Ok(Skip) => skipped := skipped + [Note(d.kind, d.line)];
        case Ok(Apply) => DoStep(d);
      }
    }

    /** Apply a skill from its markdown; the values for the caller are the non-secret
        bindings at the end. On a new engine: every directive has its one verdict or bound
        answer, nothing dangerous follows the first bounce, the steps a consumer hears of
        are bracketed at every moment, and no value of a secret prompt is returned. */
    method ApplySkill(markdown: string) returns (result: map<string, string>)
      modifies this
      ensures Now() == RunAll(cfg, Parse(markdown), old(Now()))
      ensures result == ResultVars(vars)
      ensures old(Now()) == Start(old(files)) ==> WellRun(cfg, Parse(markdown), old(files), Now(), result)
    {
      hide Parse, SkillApply.Process, WellRun;
      var ds := ParseDirectives(markdown);
      for n := 0 to |ds|
        invariant RunAll(cfg, ds, old(Now())) == RunAll(cfg, ds[n..], Now())
      {
        assert ds[n..][0] == ds[n] && ds[n..][1..] == ds[n + 1..];
        Process(ds[n]);
      }
      result := ResultVars(vars);
      RunsAreWellRun(cfg, ds, old(files));
    }

    // ----- removal ------------------------------------------------------------

    method UndoOne(e: Entry) returns (exn: Option<string>)
      modifies this`files
      ensures match UndoEntry(cfg.codec, e, old(files))
              case Ok(f) => exn.None? && files == f
              case Throw(m) => exn == Some(m) && files == old(files)
    {
      hide DropLines, DropKey, Lines, Unlines, FindMatch, ReadJson;
      exn := None;
      match e
      case Wrote(path) => files := files - {path};
      case Appended(path, text) =>
        files := files[path := Unlines(DropLines(Lines(Read(files, path)), text))];
      case SetKey(key) =>
        files := files[ENV := Unlines(DropKey(Lines(Read(files, ENV)), key))];
      case Merged(path, key, value, previous) =>
        var v := ReadJson(cfg.codec, files, path);
        if v.None? { return Some("Unexpected token in JSON"); }
        if v.value.Arr? {
          var items := v.value.items;
          var at := FindMatch(items, key, value);
          if previous.Some? && at >= 0 {
            items := items[at := previous.value];
          } else if at >= 0 {
            items := items[..at] + items[at + 1..];
          }
          files := files[path := cfg.codec.show(Arr(items)) + "\n"];
        }
      case Ran(_, _) =>
    }

    /** Remove by the journal: the entries backwards, running the recorded undo
        commands when there is an exec. What a complete fresh install left is taken back
        to the files before it, unless an undo command throws. */
    method RemoveSkill(entries: seq<Entry>, exec: Option<Shell>) returns (exn: Option<string>, calls: seq<string>)
      modifies this`files
      ensures Removal(files, exn, calls) == RemoveBy(cfg.codec, exec, entries, old(files))
      ensures forall jsons, markdown, before ::
                SkillUndoRuns.Installed(jsons, cfg, markdown, before, entries, old(files)) &&
                SkillUndoRuns.Quiet(exec, entries) ==>
                  exn.None? && SkillUndoRuns.Same(jsons, cfg.codec, files, before)
    {
      hide UndoEntry, RemoveBy, SkillUndoRuns.Installed, SkillUndoRuns.Same, SkillUndoRuns.Quiet;
      RestoredIfInstalled(cfg, entries, files, exec);
      exn, calls := None, [];
      var n: nat := |entries|;
      assert entries[..n] == entries;
      NoneRemoved(cfg.codec, exec, entries, files);
      while n > 0
        invariant n <= |entries| && exn.None?
        invariant RemoveBy(cfg.codec, exec, entries, old(files)) ==
                  RemovedAfter(cfg.codec, exec, entries[..n], files, calls)
      {
        hide RemovedAfter;
        var e := entries[n - 1];
        OneRemoved(cfg.codec, exec, entries, n, files, calls);
        exn := UndoOne(e);
        if exn.Some? { return; }
        if e.Ran? && e.undo.Some? && e.undo.value != "" && exec.Some? {
          calls := calls + [e.undo.value];
          var out := exec.value(n, e.undo.value);
          if out.Throw? {
            return Some(out.message), calls;
          }
        }
        n := n - 1;
      }
      AllRemoved(cfg.codec, exec, entries, files, calls);
    }
  }

  /** What the removal comes to when these calls were made already. */
  ghost function RemovedAfter(codec: Codec, exec: Option<Shell>, journal: seq<Entry>, files: Files, calls: seq<string>)
    : Removal
  {
    var r := RemoveBy(codec, exec, journal, files);
    r.(calls := calls + r.calls)
  }

  lemma NoneRemoved(codec: Codec, exec: Option<Shell>, journal: seq<Entry>, files: Files)
    ensures RemovedAfter(codec, exec, journal, files, []) == RemoveBy(codec, exec, journal, files)
  {
    hide RemoveBy;
  }

  lemma AllRemoved(codec: Codec, exec: Option<Shell>, journal: seq<Entry>, files: Files, calls: seq<string>)
    ensures RemovedAfter(codec, exec, journal[..0], files, calls) == Removal(files, None, calls)
  {
    assert calls + [] == calls;
  }

  /** One turn of the loop. */
  lemma OneRemoved(codec: Codec, exec: Option<Shell>, journal: seq<Entry>, n: nat, files: Files, calls: seq<string>)
    requires 0 < n <= |journal|
    ensures var e := journal[n - 1]; var r := RemovedAfter(codec, exec, journal[..n], files, calls);
      match UndoEntry(codec, e, files)
      case Throw(m) => r == Removal(files, Some(m), calls)
      case Ok(f) =>
        if e.Ran? && e.undo.Some? && e.undo.value != "" && exec.Some? then
          var calls' := calls + [e.undo.value];
          match exec.value(n, e.undo.value)
          case Throw(m) => r == Removal(f, Some(m), calls')
          case Ok(_) => r == RemovedAfter(codec, exec, journal[..n - 1], f, calls')
        else r == RemovedAfter(codec, exec, journal[..n - 1], f, calls)
  {
    hide UndoEntry;
    assert journal[..n][..n - 1] == journal[..n - 1] && journal[..n][n - 1] == journal[n - 1];
    assert calls + [] == calls;
    if UndoEntry(codec, journal[n - 1], files).Ok? {
      var rest := RemoveBy(codec, exec, journal[..n - 1], UndoEntry(codec, journal[n - 1], files).value).calls;
      assert calls + (UndoCalls(exec, journal[n - 1]) + rest) == (calls + UndoCalls(exec, journal[n - 1])) + rest;
    }
  }

  lemma RestoredIfInstalled(cfg: Config, entries: seq<Entry>, files: Files, exec: Option<Shell>)
    ensures forall jsons, markdown, before ::
              SkillUndoRuns.Installed(jsons, cfg, markdown, before, entries, files) &&
              SkillUndoRuns.Quiet(exec, entries) ==>
                var r := RemoveBy(cfg.codec, exec, entries, files);
                r.exn.None? && SkillUndoRuns.Same(jsons, cfg.codec, r.files, before)
  {
    hide *;
    forall jsons, markdown, before | SkillUndoRuns.Installed(jsons, cfg, markdown, before, entries, files) &&
                                     SkillUndoRuns.Quiet(exec, entries)
      ensures var r := RemoveBy(cfg.codec, exec, entries, files);
              r.exn.None? && SkillUndoRuns.Same(jsons, cfg.codec, r.files, before)
    {
      SkillUndoRuns.RemovalRestores(jsons, cfg, markdown, before, entries, files, exec);
    }
  }
}
