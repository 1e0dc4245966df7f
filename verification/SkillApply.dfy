/** What applying a skill means: the directive interpreter as a function from state
    to state. `SkillEngine` holds the loops that compute it. */
module SkillApply {
  import opened Text
  import opened Json
  import opened Templates
  import opened SkillDirectives

  // ----- what the engine is given ---------------------------------------------

  datatype Mode = Install | Refresh
  datatype Action = Add | Remove
  datatype DepRequest = DepRequest(manager: string, cwd: string, action: Action, packages: seq<string>)
  datatype StepOutcome = StepOutcome(ok: bool, fields: map<string, string>)

  datatype Emission =
    | StepStart(kind: Kind, line: nat)
    | StepEnd(kind: Kind, line: nat, ok: bool)
    | ShowOperator(line: nat, text: string)

  /** The caller's options and callbacks. A callback is a function of how much has
      happened so far (the length of the trace) and of its argument, so any behaviour
      over a run, throwing included, is some configuration. */
  datatype Config = Config(
    mode: Mode,
    inputs: map<string, string>,
    resolveInput: Option<(nat, string) -> Outcome<Option<string>>>,
    onEvent: Option<(nat, Emission) -> Option<string>>, // Some(m): threw m
    exec: Option<(nat, string) -> Outcome<string>>,
    execStream: Option<(nat, string) -> Outcome<StepOutcome>>,
    resolveDep: Option<(nat, DepRequest) -> Outcome<string>>,
    resolveRemote: (nat, string) -> Outcome<string>,
    skipEffects: set<string>,
    skillFiles: map<string, string>,            // the skill's own directory
    blob: (string, string, string) -> string,   // file content on a registry branch
    compiles: (string, string) -> Option<string>, // Some(m): new RegExp throws m
    test: (string, string, string) -> bool,     // regex source, flags, subject
    lower: string -> string,
    codec: Codec)

  type Files = map<string, string>

  // ----- what the engine keeps ------------------------------------------------

  datatype Entry =
    | Wrote(path: string)
    | Appended(path: string, text: string)
    | SetKey(key: string)
    | Merged(path: string, key: string, value: Option<Value>, previous: Option<Value>)
    | Ran(cmd: string, undo: Option<string>)

  datatype Event =
    | Emitted(what: Emission, heard: bool)  // heard: the consumer returned
    | Executed(kind: Kind, line: nat, effect: Option<string>, cmd: string)
    | Asked(name: string)
    | Bounced(line: nat)

  datatype Note = Note(kind: Kind, line: nat)
  datatype Deferral = NoAnswer(name: string) | Invalid(name: string, regex: string) | Blocked(message: string)
  datatype Reason = NoHandler | Gated | Failed(message: string)
  datatype Task = Task(kind: Kind, line: nat, reason: Reason)

  datatype State = State(
    files: Files,
    vars: Vars,
    journal: seq<Entry>,
    trace: seq<Event>,
    blocked: bool,
    applied: seq<Note>,
    skipped: seq<Note>,
    deferred: seq<Deferral>,
    tasks: seq<Task>,
    messages: seq<string>)

  function Start(files: Files): State {
    State(files, map[], [], [], false, [], [], [], [], [])
  }

  predicate FullyApplied(st: State) {
    st.deferred == [] && st.tasks == []
  }

  /** Only files, variables, journal and trace may differ: the work of a directive
      never touches the verdicts on directives. */
  predicate OnlyWork(st: State, st': State) {
    st' == st.(files := st'.files, vars := st'.vars, journal := st'.journal, trace := st'.trace)
  }

  /** A state and, when the code threw, the message. */
  datatype Done = Done(st: State, exn: Option<string>)

  // ----- files ----------------------------------------------------------------

  function Read(files: Files, path: string): string {
    if path in files then files[path] else ""
  }

  predicate AnyLine(lines: seq<string>, text: string) {
    exists i | 0 <= i < |lines| :: Trim(lines[i]) == Trim(text)
  }

  /** Some line of the file equals the given one up to surrounding white space. */
  predicate FileHasLine(files: Files, path: string, text: string) {
    AnyLine(Lines(Read(files, path)), text)
  }

  /** A line the `.env` probe takes to set `key` to something. */
  predicate SetsKey(l: string, key: string) {
    var a := SpaceRun(l);
    var b := a + IdentRun(l[a..]);
    var c := b + SpaceRun(l[b..]);
    && a < b && l[a..b] == key
    && c < |l| && l[c] == '='
    && (forall k | c < k < |l| :: !IsLineEnd(l[k]))
    && Trim(l[c + 1..]) != ""
  }

  predicate AnySets(lines: seq<string>, key: string) {
    exists i | 0 <= i < |lines| :: SetsKey(lines[i], key)
  }

  const ENV: string := ".env"

  predicate EnvKeySet(files: Files, key: string) {
    AnySets(Lines(Read(files, ENV)), key)
  }

  /** A file's content as a JSON value; an empty or absent file is an empty array. */
  function ReadJson(codec: Codec, files: Files, path: string): Option<Value> {
    var text := Read(files, path);
    codec.parse(if text == "" then "[]" else text)
  }

  predicate JsonHasKey(codec: Codec, files: Files, path: string, key: string, value: Option<Value>) {
    var v := ReadJson(codec, files, path);
    v.Some? && v.value.Arr? && FindMatch(v.value.items, key, value) != -1
  }

  function WithNewlineBefore(content: string): string {
    if content == "" || EndsWithNewline(content) then content else content + "\n"
  }

  /** `appendFileSync` of one line, on a line of its own. */
  function AppendLine(content: string, l: string): string {
    WithNewlineBefore(content) + l + "\n"
  }

  // ----- pieces of a body line ------------------------------------------------

  function ArrowAt(s: string): (r: int)
    ensures r == -1 || 0 <= r <= |s| - 2
  {
    if |s| < 2 then -1
    else if s[0] == '-' && s[1] == '>' then 0
    else
      var r := ArrowAt(s[1..]);
      if r == -1 then -1 else r + 1
  }

  function SrcOf(l: string): string {
    var a := ArrowAt(l);
    if a == -1 then Trim(l) else Trim(l[..a])
  }

  function DestOf(l: string): string {
    var a := ArrowAt(l);
    if a == -1 then Trim(l)
    else
      var rest := l[a + 2..];
      var b := ArrowAt(rest);
      if b == -1 then Trim(rest) else Trim(rest[..b])
  }

  function LastIndexOf(s: string, c: char): (r: int)
    ensures -1 <= r < |s|
  {
    if s == "" then -1
    else if s[|s| - 1] == c then |s| - 1
    else LastIndexOf(s[..|s| - 1], c)
  }

  /** `s.slice(0, n)`, where a negative n counts from the end. */
  function SliceTo(s: string, n: int): string
    requires n <= |s|
  {
    if n >= 0 then s[..n] else if |s| + n > 0 then s[..|s| + n] else ""
  }

  function DepName(spec: string): string {
    SliceTo(spec, LastIndexOf(spec, '@'))
  }

  function EnvKeyOf(l: string): string {
    Trim(SliceTo(l, IndexOf(l, '=')))
  }

  /** The key the status asks about: with no `=` it is the whole line, where the mutation
      drops the last character. */
  function EnvStatusKeyOf(l: string): string {
    if IndexOf(l, '=') == -1 then Trim(l) else EnvKeyOf(l)
  }

  function EnvValueOf(l: string): string {
    Trim(l[IndexOf(l, '=') + 1..])
  }

  // ----- guards and bindings --------------------------------------------------

  predicate WhenMet(when: string, vars: Vars) {
    var eq := IndexOf(when, '=');
    eq < 1 || (var v := Trim(when[..eq]); v in vars && vars[v].value == Trim(when[eq + 1..]))
  }

  predicate Guarded(d: Directive, vars: Vars) {
    "when" in d.attrs && !WhenMet(d.attrs["when"], vars)
  }

  function StripSlashes(s: string): string {
    if s != "" && s[|s| - 1] == '/' then StripSlashes(s[..|s| - 1]) else s
  }

  function Normalize(cfg: Config, value: string, how: Option<string>): string {
    match how
    case Some(h) =>
      if h == "trim" then Trim(value)
      else if h == "rstrip-slash" then StripSlashes(value)
      else if h == "lower" then cfg.lower(value)
      else value
    case None => value
  }

  /** The first positional that is not the flag `secret`. */
  function PromptVar(args: seq<string>): Option<string> {
    if args == [] then None
    else if args[0] != "secret" then Some(args[0])
    else PromptVar(args[1..])
  }

  function NameOf(d: Directive): string {
    match PromptVar(d.args) case Some(v) => v case None => "undefined"
  }

  datatype Bound = Bound(vars: Vars, exn: Option<string>)

  function SetCaptured(cfg: Config, validate: string, name: string, value: string, vars: Vars): Bound {
    if validate != "" && !cfg.test(validate, "", value)
    then Bound(vars, Some("captured " + name + " does not match validate:" + validate))
    else Bound(vars[name := Binding(value, false)], None)
  }

  function CapturePairs(cfg: Config, pairs: seq<string>, json: Value, validate: string, vars: Vars): Bound {
    if pairs == [] then Bound(vars, None)
    else
      var eq := IndexOf(pairs[0], '=');
      if eq < 1 then CapturePairs(cfg, pairs[1..], json, validate, vars)
      else
        var b := SetCaptured(cfg, validate, Trim(pairs[0][..eq]), cfg.codec.path(json, Trim(pairs[0][eq + 1..])), vars);
        if b.exn.Some? then b else CapturePairs(cfg, pairs[1..], json, validate, b.vars)
  }

  function BindCapture(cfg: Config, spec: string, stdout: string, validate: string, vars: Vars): Bound {
    var bad := if validate == "" then None else cfg.compiles(validate, "");
    if bad.Some? then Bound(vars, bad)
    else if '=' !in spec then SetCaptured(cfg, validate, spec, stdout, vars)
    else match cfg.codec.parse(stdout)
      case None => Bound(vars, Some("Unexpected token in JSON"))
      case Some(json) => CapturePairs(cfg, Split(spec, ','), json, validate, vars)
  }

  function BindFields(pairs: seq<string>, fields: map<string, string>, vars: Vars): Vars {
    if pairs == [] then vars
    else
      var eq := IndexOf(pairs[0], '=');
      if eq < 1 then BindFields(pairs[1..], fields, vars)
      else
        var f := Trim(pairs[0][eq + 1..]);
        var value := if f in fields then Trim(fields[f]) else "";
        BindFields(pairs[1..], fields, vars[Trim(pairs[0][..eq]) := Binding(value, false)])
  }

  // ----- callbacks ------------------------------------------------------------

  function Emit(cfg: Config, st: State, e: Emission): (r: Done)
    ensures r.st == st.(trace := r.st.trace)
  {
    match cfg.onEvent
    case None => Done(st, None)
    case Some(f) =>
      var threw := f(|st.trace|, e);
      Done(st.(trace := st.trace + [Emitted(e, threw.None?)]), threw)
  }

  datatype Called = Called(st: State, out: Outcome<string>)

  function CallExec(cfg: Config, d: Directive, st: State, cmd: string): Called {
    match cfg.exec
    case None => Called(st, Throw("no exec provided"))
    case Some(f) =>
      Called(st.(trace := st.trace + [Executed(d.kind, d.line, d.Attr("effect"), cmd)]), f(|st.trace|, cmd))
  }

  function DepCommand(cfg: Config, st: State, request: DepRequest, fallback: string): Outcome<string> {
    match cfg.resolveDep
    case None => Ok(fallback)
    case Some(f) => f(|st.trace|, request)
  }

  // ----- what a directive would do --------------------------------------------

  datatype Status = Skip | Apply | Agent

  const IS_DIRECTORY: string := "EISDIR: illegal operation on a directory, read"

  function AttrOr(d: Directive, name: string, default: string): string {
    if name in d.attrs then d.attrs[name] else default
  }

  predicate Truthy(v: Option<Value>) {
    match v
    case None => false
    case Some(x) => x != Null && x != Bool(false) && x != Str("") && x != Num("0")
  }

  predicate HasDep(cfg: Config, files: Files, cwd: string, name: string) {
    var text := Read(files, if cwd == "" then "package.json" else cwd + "/package.json");
    match cfg.codec.parse(if text == "" then "{}" else text)
    case None => false
    case Some(pkg) =>
      var deps := Member(pkg, "dependencies");
      var devDeps := Member(pkg, "devDependencies");
      || (deps.Some? && Truthy(Member(deps.value, name)))
      || (devDeps.Some? && Truthy(Member(devDeps.value, name)))
  }

  function SelfStatus(cfg: Config, d: Directive, files: Files): Outcome<Status> {
    match d.kind
    case Copy =>
      Ok(if cfg.mode.Refresh? || exists i | 0 <= i < |d.body| :: DestOf(d.body[i]) !in files then Apply else Skip)
    case Append =>
      var to := AttrOr(d, "to", "");
      if to == "" then Throw(IS_DIRECTORY)
      else Ok(if FileHasLine(files, to, if d.body == [] then "" else d.body[0]) then Skip else Apply)
    case Dep =>
      Ok(if cfg.mode.Refresh?
            || exists i | 0 <= i < |d.body| :: !HasDep(cfg, files, AttrOr(d, "cwd", ""), DepName(d.body[i]))
         then Apply else Skip)
    case Run => Ok(Apply)
    case EnvSet =>
      Ok(if exists i | 0 <= i < |d.body| :: !EnvKeySet(files, EnvStatusKeyOf(d.body[i])) then Apply else Skip)
    case JsonMerge =>
      (match cfg.codec.parse(Unlines(d.body))
       case None => Ok(Agent)
       case Some(obj) =>
         if obj.Null? then Ok(Agent)
         else
           var key := AttrOr(d, "key", "");
           Ok(if cfg.mode.Install? && JsonHasKey(cfg.codec, files, AttrOr(d, "into", ""), key, Member(obj, key))
              then Skip else Apply))
    case _ => Ok(Agent)
  }

  // ----- doing it -------------------------------------------------------------

  /** What the loop over a directive's body does with each line. */
  datatype LineOp =
    | ShowBlob(remote: string, branch: string)
    | CopyFile
    | RecordWrote
    | InsertBefore(to: string, marker: string)
    | AppendTo(to: string)
    | CheckCmd
    | RunCmd(capture: Option<string>, validate: string, undo: Option<string>)
    | SetEnv

  function IndexOfMarker(lines: seq<string>, marker: string): (r: int)
    ensures -1 <= r < |lines|
  {
    if lines == [] then -1
    else if Includes(lines[0], "<<< " + marker) then 0
    else
      var r := IndexOfMarker(lines[1..], marker);
      if r == -1 then -1 else r + 1
  }

  function InsertLine(content: string, at: nat, l: string): string
    requires at < |Lines(content)|
  {
    var lines := Lines(content);
    Unlines(lines[..at] + [Indent(lines[at]) + l] + lines[at..])
  }

  function RunLine(cfg: Config, d: Directive, op: LineOp, l: string, st: State): (r: Done)
    requires op.RunCmd?
    ensures OnlyWork(st, r.st)
  {
    match Substitute(l, st.vars)
    case Throw(m) => Done(st, Some(m))
    case Ok(cmd) =>
      var c := CallExec(cfg, d, st, cmd);
      match c.out
      case Throw(m) => Done(c.st, Some(m))
      case Ok(out) =>
        var b := if op.capture.None? then Bound(c.st.vars, None)
                 else BindCapture(cfg, op.capture.value, Trim(out), op.validate, c.st.vars);
        var st' := c.st.(vars := b.vars);
        if b.exn.Some? then Done(st', b.exn)
        else Done(st'.(journal := st'.journal + [Ran(l, op.undo)]), None)
  }

  function LineStep(cfg: Config, d: Directive, op: LineOp, l: string, st: State): (r: Done)
    ensures OnlyWork(st, r.st)
  {
    match op
    case ShowBlob(remote, branch) =>
      var c := CallExec(cfg, d, st, "git show " + remote + "/" + branch + ":" + SrcOf(l) + " > " + DestOf(l));
      (match c.out
       case Throw(m) => Done(c.st, Some(m))
       case Ok(_) => Done(c.st.(files := c.st.files[DestOf(l) := cfg.blob(remote, branch, SrcOf(l))]), None))
    case CopyFile =>
      if SrcOf(l) !in cfg.skillFiles then Done(st, Some("ENOENT: no such file or directory"))
      else Done(st.(files := st.files[DestOf(l) := cfg.skillFiles[SrcOf(l)]]), None)
    case RecordWrote =>
      Done(st.(journal := st.journal + [Wrote(DestOf(l))]), None)
    case InsertBefore(to, marker) =>
      var at := IndexOfMarker(Lines(Read(st.files, to)), marker);
      if at == -1 then Done(st, Some("append marker not found in " + to))
      else Done(st.(files := st.files[to := InsertLine(Read(st.files, to), at, l)],
                    journal := st.journal + [Appended(to, l)]), None)
    case AppendTo(to) =>
      Done(st.(files := st.files[to := AppendLine(Read(st.files, to), l)],
               journal := st.journal + [Appended(to, l)]), None)
    case CheckCmd =>
      (match Substitute(l, st.vars)
       case Throw(m) => Done(st, Some(m))
       case Ok(cmd) =>
         var c := CallExec(cfg, d, st, cmd);
         Done(c.st, if c.out.Throw? then Some(c.out.message) else None))
    case RunCmd(_, _, _) => RunLine(cfg, d, op, l, st)
    case SetEnv =>
      var key := EnvKeyOf(l);
      (match Substitute(EnvValueOf(l), st.vars)
       case Throw(m) => Done(st, Some(m))
       case Ok(value) =>
         if EnvKeySet(st.files, key) then Done(st, None)
         else Done(st.(files := st.files[ENV := AppendLine(Read(st.files, ENV), key + "=" + value)],
                       journal := st.journal + [SetKey(key)]), None))
  }

  /** The loop over the body: stops at the first line that throws. */
  function ForLines(cfg: Config, d: Directive, op: LineOp, body: seq<string>, st: State): (r: Done)
    ensures OnlyWork(st, r.st)
  {
    if body == [] then Done(st, None)
    else
      var r := LineStep(cfg, d, op, body[0], st);
      if r.exn.Some? then r else ForLines(cfg, d, op, body[1..], r.st)
  }

  function ApplyCopy(cfg: Config, d: Directive, st: State): (r: Done)
    ensures OnlyWork(st, r.st)
  {
    var r :=
      if !d.Truthy("from-branch") then ForLines(cfg, d, CopyFile, d.body, st)
      else
        var branch := d.attrs["from-branch"];
        match cfg.resolveRemote(|st.trace|, branch)
        case Throw(m) => Done(st, Some(m))
        case Ok(remote) =>
          var c := CallExec(cfg, d, st, "git fetch " + remote + " " + branch);
          if c.out.Throw? then Done(c.st, Some(c.out.message))
          else ForLines(cfg, d, ShowBlob(remote, branch), d.body, c.st);
    if r.exn.Some? then r else ForLines(cfg, d, RecordWrote, d.body, r.st)
  }

  function DepNames(body: seq<string>): seq<string> {
    seq(|body|, i requires 0 <= i < |body| => DepName(body[i]))
  }

  function ApplyDep(cfg: Config, d: Directive, st: State): (r: Done)
    ensures OnlyWork(st, r.st)
  {
    var manager := AttrOr(d, "manager", "pnpm");
    var cwd := AttrOr(d, "cwd", "");
    var prefix := if cwd == "" then "" else "cd " + cwd + " && ";
    var names := Join(DepNames(d.body), ' ');
    match DepCommand(cfg, st, DepRequest(manager, cwd, Add, d.body), prefix + manager + " add " + Join(d.body, ' '))
    case Throw(m) => Done(st, Some(m))
    case Ok(add) =>
      match DepCommand(cfg, st, DepRequest(manager, cwd, Remove, Split(names, ' ')),
          prefix + manager + " remove " + names)
      case Throw(m) => Done(st, Some(m))
      case Ok(remove) =>
        var c := CallExec(cfg, d, st, add);
        if c.out.Throw? then Done(c.st, Some(c.out.message))
        else Done(c.st.(journal := c.st.journal + [Ran(add, Some(remove))]), None)
  }

  function ApplyStep(cfg: Config, d: Directive, st: State): (r: Done)
    ensures OnlyWork(st, r.st)
  {
    match cfg.execStream
    case None => Done(st, Some("effect:step needs a streaming exec"))
    case Some(f) =>
      match Substitute(Unlines(d.body), st.vars)
      case Throw(m) => Done(st, Some(m))
      case Ok(cmd) =>
        var st1 := st.(trace := st.trace + [Executed(d.kind, d.line, d.Attr("effect"), cmd)]);
        match f(|st.trace|, cmd)
        case Throw(m) => Done(st1, Some(m))
        case Ok(outcome) =>
          if !outcome.ok then Done(st1, Some("the step did not complete"))
          else
            var vars := if "capture" in d.attrs && d.attrs["capture"] != ""
                        then BindFields(Split(d.attrs["capture"], ','), outcome.fields, st.vars) else st.vars;
            Done(st1.(vars := vars, journal := st1.journal + [Ran(Unlines(d.body), None)]), None)
  }

  function RunOp(d: Directive): LineOp {
    RunCmd(if d.Truthy("capture") then d.Attr("capture") else None,
           AttrOr(d, "validate", ""),
           if d.Is("effect", "external") then d.Attr("remove") else None)
  }

  function ApplyRun(cfg: Config, d: Directive, st: State): (r: Done)
    ensures OnlyWork(st, r.st)
  {
    if d.Is("effect", "check") then ForLines(cfg, d, CheckCmd, d.body, st)
    else if d.Is("effect", "step") then ApplyStep(cfg, d, st)
    else ForLines(cfg, d, RunOp(d), d.body, st)
  }

  function ApplyMerge(cfg: Config, d: Directive, st: State): (r: Done)
    ensures OnlyWork(st, r.st)
  {
    var into := AttrOr(d, "into", "undefined");
    var key := AttrOr(d, "key", "undefined");
    match cfg.codec.parse(Unlines(d.body))
    case None => Done(st, Some("Unexpected token in JSON"))
    case Some(obj) =>
      if into == "" then Done(st, Some(IS_DIRECTORY))
      else match ReadJson(cfg.codec, st.files, into)
        case None => Done(st, Some("Unexpected token in JSON"))
        case Some(target) =>
          if !target.Arr? then Done(st, Some(into + " is not a JSON array"))
          else
            var value := Member(obj, key);
            var at := FindMatch(target.items, key, value);
            if at == -1 then
              Done(st.(files := st.files[into := cfg.codec.show(Arr(target.items + [obj])) + "\n"],
                       journal := st.journal + [Merged(into, key, value, None)]), None)
            else if cfg.mode.Refresh? && cfg.codec.show(target.items[at]) != cfg.codec.show(obj) then
              Done(st.(files := st.files[into := cfg.codec.show(Arr(target.items[at := obj])) + "\n"],
                       journal := st.journal + [Merged(into, key, value, Some(target.items[at]))]), None)
            else Done(st, None)
  }

  function ApplyOne(cfg: Config, d: Directive, st: State): (r: Done)
    ensures OnlyWork(st, r.st)
  {
    match d.kind
    case Copy => ApplyCopy(cfg, d, st)
    case Append =>
      var to := AttrOr(d, "to", "undefined");
      ForLines(cfg, d, if d.Truthy("at") then InsertBefore(to, d.attrs["at"]) else AppendTo(to), d.body, st)
    case Dep => ApplyDep(cfg, d, st)
    case Run => ApplyRun(cfg, d, st)
    case EnvSet => ForLines(cfg, d, SetEnv, d.body, st)
    case JsonMerge => ApplyMerge(cfg, d, st)
    case _ => Done(st, Some("no handler"))
  }

  // ----- the run --------------------------------------------------------------

  const UNRESOLVED: string := "unresolved {{"

  /** The failure is a missing input, not a broken step. */
  predicate IsUnresolved(message: string) {
    Includes(message, UNRESOLVED)
  }

  function Bounce(st: State, d: Directive, reason: Reason): State {
    st.(blocked := true, tasks := st.tasks + [Task(d.kind, d.line, reason)], trace := st.trace + [Bounced(d.line)])
  }

  function SkipIt(st: State, d: Directive): State {
    st.(skipped := st.skipped + [Note(d.kind, d.line)])
  }

  /** The catch block: close an open step, then defer or bounce. */
  function Catch(cfg: Config, d: Directive, st: State, inFlight: bool, message: string): State {
    var st1 := if inFlight then Emit(cfg, st, StepEnd(d.kind, d.line, false)).st else st;
    if IsUnresolved(message) then st1.(deferred := st1.deferred + [Blocked(message)])
    else Bounce(st1, d, Failed(message))
  }

  predicate OutsideRefresh(d: Directive) {
    d.kind.Prompt? || d.kind.Operator? || d.kind.EnvSet? || (d.kind.Run? && !d.Is("effect", "refresh"))
  }

  predicate IsSideEffect(effect: string) {
    effect == "restart" || effect == "step" || effect == "wire"
  }

  predicate SideEffecting(d: Directive) {
    d.kind.Run? && "effect" in d.attrs && IsSideEffect(d.attrs["effect"])
  }

  function BindPrompt(cfg: Config, d: Directive, st: State, answer: string): State {
    var v := NameOf(d);
    var bound := Normalize(cfg, answer, d.Attr("normalize"));
    var flags := AttrOr(d, "flags", "");
    var ok := st.(vars := st.vars[v := Binding(bound, "secret" in d.args)]);
    if "validate" !in d.attrs then ok
    else
      var bad := cfg.compiles(d.attrs["validate"], flags);
      if bad.Some? then Catch(cfg, d, st, false, bad.value)
      else if cfg.test(d.attrs["validate"], flags, bound) then ok
      else st.(deferred := st.deferred + [Invalid(v, d.attrs["validate"])])
  }

  function DoPrompt(cfg: Config, d: Directive, st: State): State {
    var v := NameOf(d);
    if v in cfg.inputs then BindPrompt(cfg, d, st, cfg.inputs[v])
    else match cfg.resolveInput
      case None => st.(deferred := st.deferred + [NoAnswer(v)])
      case Some(f) =>
        var st1 := st.(trace := st.trace + [Asked(v)]);
        match f(|st.trace|, v)
        case Throw(m) => Catch(cfg, d, st1, false, m)
        case Ok(None) => st1.(deferred := st1.deferred + [NoAnswer(v)])
        case Ok(Some(answer)) => BindPrompt(cfg, d, st1, answer)
  }

  function DoOperator(cfg: Config, d: Directive, st: State): State {
    if st.blocked then SkipIt(st, d)
    else match Substitute(Unlines(d.body), st.vars)
      case Throw(m) => Catch(cfg, d, st, false, m)
      case Ok(text) =>
        var e := Emit(cfg, st.(messages := st.messages + [text]), ShowOperator(d.line, text));
        if e.exn.Some? then Catch(cfg, d, e.st, false, e.exn.value)
        else e.st.(applied := e.st.applied + [Note(d.kind, d.line)])
  }

  /** The bracketed mutation: step-start, the work, step-end. */
  function DoStep(cfg: Config, d: Directive, st: State): State {
    var s := Emit(cfg, st, StepStart(d.kind, d.line));
    if s.exn.Some? then Catch(cfg, d, s.st, false, s.exn.value)
    else
      var r := ApplyOne(cfg, d, s.st);
      if r.exn.Some? then Catch(cfg, d, r.st, true, r.exn.value)
      else
        var e := Emit(cfg, r.st, StepEnd(d.kind, d.line, true));
        if e.exn.Some? then Catch(cfg, d, e.st, false, e.exn.value)
        else e.st.(applied := e.st.applied + [Note(d.kind, d.line)])
  }

  function Process(cfg: Config, d: Directive, st: State): State {
    if cfg.mode.Refresh? && OutsideRefresh(d) then SkipIt(st, d)
    else if Guarded(d, st.vars) then SkipIt(st, d)
    else if d.kind.Prompt? then DoPrompt(cfg, d, st)
    else if d.kind.Operator? then DoOperator(cfg, d, st)
    else if d.kind.Run? && "effect" in d.attrs && d.attrs["effect"] in cfg.skipEffects then SkipIt(st, d)
    else if SideEffecting(d) && st.blocked then Bounce(st, d, Gated)
    else match SelfStatus(cfg, d, st.files)
      case Throw(m) => Catch(cfg, d, st, false, m)
      case Ok(Agent) => Bounce(st, d, NoHandler)
      case Ok(Skip) => SkipIt(st, d)
      case Ok(Apply) => DoStep(cfg, d, st)
  }

  function RunAll(cfg: Config, ds: seq<Directive>, st: State): State {
    if ds == [] then st else RunAll(cfg, ds[1..], Process(cfg, ds[0], st))
  }

  function ApplySkill(cfg: Config, markdown: string, files: Files): State {
    RunAll(cfg, Parse(markdown), Start(files))
  }

  /** The values the result hands to the caller. */
  function ResultVars(vars: Vars): map<string, string> {
    map k | k in vars && !vars[k].secret :: vars[k].value
  }

  lemma {:induction false} RunAllSplit(cfg: Config, a: seq<Directive>, b: seq<Directive>, st: State)
    ensures RunAll(cfg, a + b, st) == RunAll(cfg, b, RunAll(cfg, a, st))
  {
    if a == [] {
      assert a + b == b;
    } else {
      assert (a + b)[1..] == a[1..] + b;
      RunAllSplit(cfg, a[1..], b, Process(cfg, a[0], st));
    }
  }

  // ----- undo -----------------------------------------------------------------

  function DropLines(lines: seq<string>, text: string): seq<string> {
    if lines == [] then []
    else if Trim(lines[0]) == Trim(text) then DropLines(lines[1..], text)
    else [lines[0]] + DropLines(lines[1..], text)
  }

  function DropKey(lines: seq<string>, key: string): seq<string> {
    if lines == [] then []
    else if StartsWith(lines[0], key + "=") then DropKey(lines[1..], key)
    else [lines[0]] + DropKey(lines[1..], key)
  }

  /** Take back one journal entry. Throws only when a merged file no longer parses. */
  function UndoEntry(codec: Codec, e: Entry, files: Files): Outcome<Files> {
    match e
    case Wrote(path) => Ok(files - {path})
    case Appended(path, text) => Ok(files[path := Unlines(DropLines(Lines(Read(files, path)), text))])
    case SetKey(key) => Ok(files[ENV := Unlines(DropKey(Lines(Read(files, ENV)), key))])
    case Merged(path, key, value, previous) =>
      (match ReadJson(codec, files, path)
       case None => Throw("Unexpected token in JSON")
       case Some(v) =>
         if !v.Arr? then Ok(files)
         else
           var at := FindMatch(v.items, key, value);
           var items := if at == -1 then v.items
                        else if previous.Some? then v.items[at := previous.value]
                        else v.items[..at] + v.items[at + 1..];
           Ok(files[path := codec.show(Arr(items)) + "\n"]))
    case Ran(_, _) => Ok(files)
  }

  /** The journal played backwards. The undo commands of `Ran` entries go to a shell
      and leave the modelled files alone. */
  function Undo(codec: Codec, journal: seq<Entry>, files: Files): Outcome<Files> {
    if journal == [] then Ok(files)
    else
      match UndoEntry(codec, journal[|journal| - 1], files)
      case Throw(m) => Throw(m)
      case Ok(f) => Undo(codec, journal[..|journal| - 1], f)
  }

  /** The shell that runs the recorded undo commands: what the n-th entry's command does. */
  type Shell = (nat, string) -> Outcome<()>

  /** What a removal leaves: the files, what it threw, and the commands it called, in order. */
  datatype Removal = Removal(files: Files, exn: Option<string>, calls: seq<string>)

  /** The undo command that taking back the entry calls, if any. */
  function UndoCalls(exec: Option<Shell>, e: Entry): seq<string> {
    if e.Ran? && e.undo.Some? && e.undo.value != "" && exec.Some? then [e.undo.value] else []
  }

  /** The removal with its undo commands: backwards, up to the first entry that throws,
      be it a merged file that no longer parses or an undo command. */
  function RemoveBy(codec: Codec, exec: Option<Shell>, journal: seq<Entry>, files: Files): Removal {
    if journal == [] then Removal(files, None, [])
    else
      var n := |journal|;
      var e := journal[n - 1];
      match UndoEntry(codec, e, files)
      case Throw(m) => Removal(files, Some(m), [])
      case Ok(f) =>
        var calls := UndoCalls(exec, e);
        var out := if calls == [] then Ok(()) else exec.value(n, calls[0]);
        match out
        case Throw(m) => Removal(f, Some(m), calls)
        case Ok(_) =>
          var rest := RemoveBy(codec, exec, journal[..n - 1], f);
          rest.(calls := calls + rest.calls)
  }
}
