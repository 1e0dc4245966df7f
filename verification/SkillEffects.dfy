/** What each directive does, said of files, journal, commands and bindings: the laws that
    `SkillApply` is held to, line by line and directive by directive. */
module SkillEffects {
  import opened Text
  import opened Json
  import opened Templates
  import opened SkillDirectives
  import opened SkillApply
  import opened SkillPolicy
  import L = SkillLintRules
  import R = SkillRendering

  /** A body line means this text once the names have their values: it is written as these
      pieces, with blanks around them or not. */
  predicate Means(l: string, ps: seq<R.Piece>, vars: Vars) {
    R.GoodPieces(ps) && R.Bound(ps, vars) && l == R.WrittenAll(ps)
  }

  lemma MeaningIsFilled(l: string, ps: seq<R.Piece>, vars: Vars)
    requires Means(l, ps, vars)
    ensures Substitute(l, vars) == Ok(R.Filled(ps, vars))
  {
    R.TextIsFilled(ps, vars);
  }

  // ----- keys -----------------------------------------------------------------

  /** A line of an env file that gives the key something. */
  ghost predicate GivesKey(l: string, key: string) {
    exists before: string, gap: string, value: string ::
      l == before + key + gap + "=" + value && Blanks(before) && Blanks(gap) && GoodValue(value)
  }

  predicate GoodValue(value: string) {
    !Blanks(value) && forall k | 0 <= k < |value| :: !IsLineEnd(value[k])
  }

  lemma {:induction false} NotBlankIsNotEmpty(s: string)
    ensures Trim(s) != "" <==> !Blanks(s)
  {
    TrimStartDropsSpace(s);
    TrimEndDropsSpace(TrimStart(s));
    if Blanks(s) { TrimOfBlanks(s); }
    var a := TrimStart(s);
    if Trim(s) == "" { assert a == ""; }
  }

  lemma SetsKeyIs(l: string, key: string)
    ensures SetsKey(l, key) <==> IsIdent(key) && GivesKey(l, key)
  {
    if SetsKey(l, key) { SettingGives(l, key); }
    if IsIdent(key) && GivesKey(l, key) {
      var before: string, gap: string, value: string :|
        l == before + key + gap + "=" + value && Blanks(before) && Blanks(gap) && GoodValue(value);
      GivingSets(before, key, gap, value);
    }
  }

  lemma SettingGives(l: string, key: string)
    requires SetsKey(l, key)
    ensures IsIdent(key) && GivesKey(l, key)
  {
    hide IsSpace, IsIdentChar, IsIdentStart, SpaceRun, IdentRest, Trim, Blanks, IsIdent;
    var a := SpaceRun(l);
    var b := a + IdentRun(l[a..]);
    var c := b + SpaceRun(l[b..]);
    R.BlanksFound(l);
    R.IdentFound(l[a..]);
    R.BlanksFound(l[b..]);
    var value := l[c + 1..];
    NotBlankIsNotEmpty(value);
    assert l[a..][..b - a] == l[a..b] && l[b..][..c - b] == l[b..c];
    assert l[c..c + 1] == "=";
    assert l == l[..a] + key + l[b..c] + "=" + value;
    assert forall k | 0 <= k < |value| :: value[k] == l[c + 1 + k];
    assert GoodValue(value);
  }

  lemma SetsKeyParts(l: string, a: nat, b: nat, c: nat)
    requires a < b <= c < |l| && a == SpaceRun(l) && b == a + IdentRun(l[a..]) && c == b + SpaceRun(l[b..])
    requires l[c] == '=' && GoodValue(l[c + 1..])
    ensures SetsKey(l, l[a..b])
  {
    hide SpaceRun, IdentRun, Trim, Blanks, IsLineEnd;
    var value := l[c + 1..];
    NotBlankIsNotEmpty(value);
    forall k | c < k < |l| ensures !IsLineEnd(l[k]) { assert l[k] == value[k - c - 1]; }
  }

  lemma SettingRuns(before: string, key: string, gap: string, value: string)
    requires IsIdent(key) && Blanks(before) && Blanks(gap)
    ensures var tail := "=" + value;
      && SpaceRun(before + (key + (gap + tail))) == |before|
      && IdentRun(key + (gap + tail)) == |key|
      && SpaceRun(gap + tail) == |gap|
  {
    SettingChars(key, gap);
    hide *;
    var tail := "=" + value;
    RunBefore(before, key, gap + tail);
    RunOfKey(key, gap, tail);
    R.BlanksRun(gap, tail);
  }

  lemma RunBefore(before: string, key: string, rest: string)
    requires Blanks(before) && key != "" && !IsSpace(key[0])
    ensures SpaceRun(before + (key + rest)) == |before|
  {
    hide *;
    R.BlanksRun(before, key + rest);
  }

  lemma RunOfKey(key: string, gap: string, tail: string)
    requires key != "" && IsIdentStart(key[0]) && forall i | 0 <= i < |key| :: IsIdentChar(key[i])
    requires tail != "" && !IsIdentChar(tail[0]) && (gap != "" ==> !IsIdentChar(gap[0]))
    ensures IdentRun(key + (gap + tail)) == |key|
  {
    hide *;
    var rest := gap + tail;
    assert rest[0] == if gap == "" then tail[0] else gap[0];
    R.IdentRuns(key, rest);
    IdentRunIs(key + rest);
  }

  lemma SettingChars(key: string, gap: string)
    requires IsIdent(key) && Blanks(gap)
    ensures key != "" && IsIdentStart(key[0]) && !IsSpace(key[0]) && forall i | 0 <= i < |key| :: IsIdentChar(key[i])
    ensures !IsSpace('=') && !IsIdentChar('=') && (gap != "" ==> !IsIdentChar(gap[0]))
  {
    R.IdentIsNotBlank(key[0]);
    if gap != "" { R.IdentIsNotBlank(gap[0]); }
  }

  lemma IdentRunIs(s: string)
    requires s != "" && IsIdentStart(s[0])
    ensures IdentRun(s) == IdentRest(s)
  {
  }

  lemma GivingSets(before: string, key: string, gap: string, value: string)
    requires IsIdent(key) && Blanks(before) && Blanks(gap) && GoodValue(value)
    ensures SetsKey(before + key + gap + "=" + value, key)
  {
    SettingRuns(before, key, gap, value);
    assert key != "";
    hide *;
    var l := before + key + gap + "=" + value;
    var a := |before|;
    var b := a + |key|;
    var c := b + |gap|;
    assert l == before + (key + (gap + ("=" + value)));
    assert l[a..] == key + (gap + ("=" + value)) && l[b..] == gap + ("=" + value);
    assert l[a..b] == key && l[c] == '=' && l[c + 1..] == value;
    SetsKeyParts(l, a, b, c);
  }

  /** The file ends where a new line can begin. */
  function OnNewLine(content: string): string {
    if content == "" || content[|content| - 1] == '\n' then content else content + "\n"
  }

  /** How an env-set line is read: at its first equals sign; without one, the key is the
      line but for its last character and the value the whole line. */
  predicate ReadsAs(l: string, keyText: string, valueText: string) {
    if '=' in l then l == keyText + "=" + valueText && '=' !in keyText
    else keyText == (if l == "" then "" else l[..|l| - 1]) && valueText == l
  }

  lemma EnvLineIs(l: string, keyText: string, valueText: string)
    requires ReadsAs(l, keyText, valueText)
    ensures EnvKeyOf(l) == Trim(keyText) && EnvValueOf(l) == Trim(valueText)
  {
    hide Trim;
    IndexOfIsFirst(l, '=');
    if '=' in l {
      FirstEquals(l, keyText, valueText);
    } else {
      assert l[0..] == l;
    }
  }

  /** A line of an env-set, with blanks around key and value or not: unless the env file
      gives the key something already, it gets a line of its own that sets the key to the
      value filled in, and the journal notes the key. */
  lemma EnvSetWrites(cfg: Config, d: Directive, l: string, keyText: string, valueText: string, ps: seq<R.Piece>,
      st: State)
    requires ReadsAs(l, keyText, valueText) && Means(Trim(valueText), ps, st.vars)
    ensures var key := Trim(keyText);
      var content := if ".env" in st.files then st.files[".env"] else "";
      LineStep(cfg, d, SetEnv, l, st) ==
      if IsIdent(key) && exists k | 0 <= k < |Lines(content)| :: GivesKey(Lines(content)[k], key) then Done(st, None)
      else Done(st.(files := st.files[".env" := OnNewLine(content) + key + "=" + R.Filled(ps, st.vars) + "\n"],
                    journal := st.journal + [SetKey(key)]), None)
  {
    hide LineStep, Lines, GivesKey, Trim, Substitute, IsIdent, R.WrittenAll, R.Filled, R.GoodPieces, EnvKeySet,
      EnvKeyOf, EnvValueOf, OnNewLine, AppendLine, ReadsAs;
    var key, value := Trim(keyText), R.Filled(ps, st.vars);
    EnvLineIs(l, keyText, valueText);
    MeaningIsFilled(Trim(valueText), ps, st.vars);
    KeyIsSetIff(st.files, key);
    SetEnvIs(cfg, d, l, key, value, st);
    SettingLine(if ".env" in st.files then st.files[".env"] else "", key, value);
  }

  lemma SetEnvIs(cfg: Config, d: Directive, l: string, key: string, value: string, st: State)
    requires EnvKeyOf(l) == key && Substitute(EnvValueOf(l), st.vars) == Ok(value)
    ensures LineStep(cfg, d, SetEnv, l, st) ==
      if EnvKeySet(st.files, key) then Done(st, None)
      else var content := if ".env" in st.files then st.files[".env"] else "";
           Done(st.(files := st.files[".env" := AppendLine(content, key + "=" + value)],
                    journal := st.journal + [SetKey(key)]), None)
  {
    hide EnvKeyOf, EnvValueOf, Substitute, EnvKeySet, AppendLine;
  }

  lemma SettingLine(content: string, key: string, value: string)
    ensures AppendLine(content, key + "=" + value) == OnNewLine(content) + key + "=" + value + "\n"
  {
    assert OnNewLine(content) + key + "=" + value + "\n" == OnNewLine(content) + (key + "=" + value) + "\n";
  }

  /** A key is there when some line of the env file gives it something. */
  lemma KeyIsSetIff(files: Files, key: string)
    ensures EnvKeySet(files, key) <==>
            var ls := Lines(if ".env" in files then files[".env"] else "");
            IsIdent(key) && exists k | 0 <= k < |ls| :: GivesKey(ls[k], key)
  {
    hide Lines, GivesKey, SetsKey, IsIdent;
    var ls := Lines(Read(files, ENV));
    forall k | 0 <= k < |ls| ensures SetsKey(ls[k], key) <==> IsIdent(key) && GivesKey(ls[k], key) {
      SetsKeyIs(ls[k], key);
    }
  }

  // ----- commands -------------------------------------------------------------

  /** The trace entry of a command of the directive. */
  function Call(d: Directive, cmd: string): Event {
    Executed(d.kind, d.line, if "effect" in d.attrs then Some(d.attrs["effect"]) else None, cmd)
  }

  /** A command line of a run that captures nothing: the command is the line filled in, it
      is called once, and if it goes through the journal notes the line as it is written. */
  lemma RunCalls(cfg: Config, d: Directive, undo: Option<string>, l: string, ps: seq<R.Piece>, st: State)
    requires Means(l, ps, st.vars)
    ensures var r := LineStep(cfg, d, RunCmd(None, "", undo), l, st);
      var cmd := R.Filled(ps, st.vars);
      match cfg.exec
      case None => r == Done(st, Some("no exec provided"))
      case Some(exec) =>
        var called := st.(trace := st.trace + [Call(d, cmd)]);
        match exec(|st.trace|, cmd)
        case Throw(m) => r == Done(called, Some(m))
        case Ok(_) => r == Done(called.(journal := st.journal + [Ran(l, undo)]), None)
  {
    hide Substitute;
    MeaningIsFilled(l, ps, st.vars);
  }

  /** One that captures its output: the name is bound to the output without the blanks
      around it, if the output has the shape asked for. */
  lemma RunCaptures(cfg: Config, d: Directive, name: string, validate: string, undo: Option<string>, l: string,
      ps: seq<R.Piece>, st: State)
    requires Means(l, ps, st.vars) && '=' !in name && cfg.exec.Some?
    requires cfg.exec.value(|st.trace|, R.Filled(ps, st.vars)).Ok?
    ensures var r := LineStep(cfg, d, RunCmd(Some(name), validate, undo), l, st);
      var cmd := R.Filled(ps, st.vars);
      var value := Trim(cfg.exec.value(|st.trace|, cmd).value);
      var called := st.(trace := st.trace + [Call(d, cmd)]);
      if validate == "" || (cfg.compiles(validate, "").None? && cfg.test(validate, "", value))
      then r == Done(called.(vars := st.vars[name := Binding(value, false)],
                             journal := st.journal + [Ran(l, undo)]), None)
      else r.st == called && r.exn.Some?
  {
    hide Substitute, Trim;
    MeaningIsFilled(l, ps, st.vars);
  }

  /** A check calls the command and leaves no other trace. */
  lemma CheckCalls(cfg: Config, d: Directive, l: string, ps: seq<R.Piece>, st: State)
    requires Means(l, ps, st.vars)
    ensures var r := LineStep(cfg, d, CheckCmd, l, st);
      var cmd := R.Filled(ps, st.vars);
      match cfg.exec
      case None => r == Done(st, Some("no exec provided"))
      case Some(exec) =>
        r == Done(st.(trace := st.trace + [Call(d, cmd)]),
                  match exec(|st.trace|, cmd) case Throw(m) => Some(m) case Ok(_) => None)
  {
    hide Substitute;
    MeaningIsFilled(l, ps, st.vars);
  }

  /** A name that is not bound stops the line before anything is done. */
  lemma UnboundStops(cfg: Config, d: Directive, op: LineOp, l: string, ps: seq<R.Piece>, hole: R.Piece, rest: string,
      st: State)
    requires R.GoodPieces(ps) && R.Bound(ps, st.vars) && hole.Hole? && R.GoodPiece(hole) && hole.name !in st.vars
    requires l == R.WrittenAll(ps) + (R.Written(hole) + rest) && (op.RunCmd? || op.CheckCmd?)
    ensures LineStep(cfg, d, op, l, st) == Done(st, Some("unresolved {{" + hole.name + "}}"))
  {
    hide Substitute, R.GoodPieces, R.Bound, R.Written, R.WrittenAll;
    R.FirstUnbound(ps, hole, rest, st.vars);
  }

  /** A step streams its whole body, filled in, as one command; when it completes, the
      fields it reports are bound and the journal notes the body as it is written. */
  lemma StepStreams(cfg: Config, d: Directive, ps: seq<R.Piece>, st: State)
    requires d.kind.Run? && "effect" in d.attrs && d.attrs["effect"] == "step"
    requires Means(Unlines(d.body), ps, st.vars) && cfg.execStream.Some?
    ensures var r := ApplyOne(cfg, d, st);
      var cmd := R.Filled(ps, st.vars);
      var called := st.(trace := st.trace + [Call(d, cmd)]);
      match cfg.execStream.value(|st.trace|, cmd)
      case Throw(m) => r == Done(called, Some(m))
      case Ok(outcome) =>
        if !outcome.ok then r == Done(called, Some("the step did not complete"))
        else && r.exn.None?
             && r.st == called.(vars := r.st.vars, journal := st.journal + [Ran(Unlines(d.body), None)])
             && ("capture" !in d.attrs ==> r.st.vars == st.vars)
  {
    hide Substitute, BindFields, Split, Unlines;
    MeaningIsFilled(Unlines(d.body), ps, st.vars);
  }

  /** An operator block is shown with its names filled in, once; the same text goes to the
      listener and to the messages. */
  lemma OperatorShows(cfg: Config, d: Directive, ps: seq<R.Piece>, st: State)
    requires d.kind.Operator? && cfg.mode.Install? && !Guarded(d, st.vars) && !st.blocked
    requires Means(Unlines(d.body), ps, st.vars)
    requires cfg.onEvent.Some? ==> forall t, e :: cfg.onEvent.value(t, e) == None
    ensures var text := R.Filled(ps, st.vars);
      Process(cfg, d, st) ==
      st.(messages := st.messages + [text], applied := st.applied + [Note(Operator, d.line)],
          trace := if cfg.onEvent.None? then st.trace else st.trace + [Emitted(ShowOperator(d.line, text), true)])
  {
    hide Substitute, Guarded, Unlines;
    MeaningIsFilled(Unlines(d.body), ps, st.vars);
  }

  // ----- the body -------------------------------------------------------------

  /** The body goes line by line, down to the first that throws. */
  lemma {:induction false} BodyGoesDown(cfg: Config, d: Directive, op: LineOp, a: seq<string>, b: seq<string>,
      st: State)
    ensures var first := ForLines(cfg, d, op, a, st);
      ForLines(cfg, d, op, a + b, st) == if first.exn.Some? then first else ForLines(cfg, d, op, b, first.st)
  {
    hide LineStep, OnlyWork;
    if a == [] {
      assert a + b == b;
    } else {
      assert (a + b)[1..] == a[1..] + b;
      var r := LineStep(cfg, d, op, a[0], st);
      if r.exn.None? { BodyGoesDown(cfg, d, op, a[1..], b, r.st); }
    }
  }

  lemma OneLine(cfg: Config, d: Directive, op: LineOp, l: string, st: State)
    ensures ForLines(cfg, d, op, [l], st) == LineStep(cfg, d, op, l, st)
  {
    hide LineStep, OnlyWork;
    var r := LineStep(cfg, d, op, l, st);
    assert [l][1..] == [];
    assert r.exn.None? ==> r == Done(r.st, None);
  }

  /** What a directive does with its lines, by kind, effect and attributes. */
  lemma LinesByKind(cfg: Config, d: Directive, st: State)
    ensures d.kind == EnvSet ==> ApplyOne(cfg, d, st) == ForLines(cfg, d, SetEnv, d.body, st)
    ensures d.kind == Append && "to" in d.attrs ==>
              ApplyOne(cfg, d, st) ==
              ForLines(cfg, d, if "at" in d.attrs && d.attrs["at"] != "" then InsertBefore(d.attrs["to"], d.attrs["at"])
                               else AppendTo(d.attrs["to"]), d.body, st)
    ensures d.kind == Run && "effect" in d.attrs && d.attrs["effect"] == "check" ==>
              ApplyOne(cfg, d, st) == ForLines(cfg, d, CheckCmd, d.body, st)
    ensures d.kind == Run && ("effect" in d.attrs ==> d.attrs["effect"] !in {"check", "step"}) ==>
              ApplyOne(cfg, d, st) ==
              ForLines(cfg, d, RunCmd(
                if "capture" in d.attrs && d.attrs["capture"] != "" then Some(d.attrs["capture"]) else None,
                if "validate" in d.attrs then d.attrs["validate"] else "",
                if "effect" in d.attrs && d.attrs["effect"] == "external" && "remove" in d.attrs
                then Some(d.attrs["remove"]) else None), d.body, st)
    ensures d.kind in {Prompt, Operator} || d.kind.Other? ==> ApplyOne(cfg, d, st).exn.Some?
  {
    hide ForLines, OnlyWork;
  }

  // ----- appended lines -------------------------------------------------------

  /** A line is appended on a line of its own. */
  lemma AppendsLine(cfg: Config, d: Directive, to: string, l: string, st: State)
    ensures var content := if to in st.files then st.files[to] else "";
      LineStep(cfg, d, AppendTo(to), l, st) ==
      Done(st.(files := st.files[to := OnNewLine(content) + l + "\n"], journal := st.journal + [Appended(to, l)]), None)
  {
  }

  ghost predicate Holds(s: string, t: string) {
    exists a: string, b: string :: s == a + t + b
  }

  lemma {:induction false} IncludedIsHeld(s: string, t: string)
    requires Includes(s, t)
    ensures Holds(s, t)
    decreases |s|
  {
    hide Holds;
    if StartsWith(s, t) {
      HeldInFront(s, t);
    } else {
      IncludedIsHeld(s[1..], t);
      HeldFurtherOn(s, t);
    }
  }

  lemma HeldInFront(s: string, t: string)
    requires StartsWith(s, t)
    ensures Holds(s, t)
  {
    assert s == "" + t + s[|t|..];
  }

  lemma HeldFurtherOn(s: string, t: string)
    requires s != "" && Holds(s[1..], t)
    ensures Holds(s, t)
  {
    var a, b :| s[1..] == a + t + b;
    assert s == ([s[0]] + a) + t + b;
  }

  lemma {:induction false} HeldIsIncluded(a: string, t: string, b: string)
    ensures Includes(a + t + b, t)
    decreases |a|
  {
    var s := a + t + b;
    if a == "" {
      assert s[..|t|] == t;
    } else {
      assert s[1..] == a[1..] + t + b;
      HeldIsIncluded(a[1..], t, b);
    }
  }

  lemma IncludesIs(s: string, t: string)
    ensures Includes(s, t) <==> Holds(s, t)
  {
    hide Includes;
    if Includes(s, t) { IncludedIsHeld(s, t); }
    if Holds(s, t) {
      var a, b :| s == a + t + b;
      HeldIsIncluded(a, t, b);
    }
  }

  lemma {:induction false} MarkerIsFirst(above: seq<string>, l: string, below: seq<string>, marker: string)
    requires Includes(l, "<<< " + marker) && forall k | 0 <= k < |above| :: !Includes(above[k], "<<< " + marker)
    ensures IndexOfMarker(above + [l] + below, marker) == |above|
    decreases |above|
  {
    hide Includes;
    var lines := above + [l] + below;
    if above != [] {
      assert lines[1..] == above[1..] + [l] + below;
      MarkerIsFirst(above[1..], l, below, marker);
    }
  }

  lemma {:induction false} NoMarker(lines: seq<string>, marker: string)
    requires forall k | 0 <= k < |lines| :: !Includes(lines[k], "<<< " + marker)
    ensures IndexOfMarker(lines, marker) == -1
  {
    hide Includes;
    if lines != [] { NoMarker(lines[1..], marker); }
  }

  /** A line is inserted above the first line that holds the closing marker, indented like
      that line. */
  lemma InsertsAtMarker(cfg: Config, d: Directive, to: string, marker: string, l: string, above: seq<string>,
      blanks: string, rest: string, below: seq<string>, st: State)
    requires Blanks(blanks) && (rest == "" || !IsSpace(rest[0]))
    requires var lines := above + [blanks + rest] + below;
      FreeOf(lines, '\n') && to in st.files && st.files[to] == Unlines(lines)
    requires Holds(blanks + rest, "<<< " + marker) && forall k | 0 <= k < |above| :: !Holds(above[k], "<<< " + marker)
    ensures LineStep(cfg, d, InsertBefore(to, marker), l, st) ==
            Done(st.(files := st.files[to := Unlines(above + [blanks + l, blanks + rest] + below)],
                     journal := st.journal + [Appended(to, l)]), None)
  {
    hide Holds, Includes, Split, Join, IsSpace;
    var lines := above + [blanks + rest] + below;
    SplitOfJoin(lines, '\n');
    IncludesIs(blanks + rest, "<<< " + marker);
    forall k | 0 <= k < |above| ensures !Includes(above[k], "<<< " + marker) { IncludesIs(above[k], "<<< " + marker); }
    MarkerIsFirst(above, blanks + rest, below, marker);
    var at := |above|;
    assert lines[at] == blanks + rest && lines[..at] == above && lines[at..] == [blanks + rest] + below;
    TrimStartSkips(blanks, rest);
    assert TrimStart(rest) == rest;
    assert Indent(lines[at]) == blanks;
    assert above + [blanks + l] + ([blanks + rest] + below) == above + [blanks + l, blanks + rest] + below;
  }

  /** With no such line nothing is inserted. */
  lemma NothingToInsertAt(cfg: Config, d: Directive, to: string, marker: string, l: string, st: State)
    requires forall k | 0 <= k < |Lines(Read(st.files, to))| :: !Holds(Lines(Read(st.files, to))[k], "<<< " + marker)
    ensures LineStep(cfg, d, InsertBefore(to, marker), l, st) == Done(st, Some("append marker not found in " + to))
  {
    hide Holds, Includes, Lines;
    var lines := Lines(Read(st.files, to));
    forall k | 0 <= k < |lines| ensures !Includes(lines[k], "<<< " + marker) { IncludesIs(lines[k], "<<< " + marker); }
    NoMarker(lines, marker);
  }

  // ----- copies ---------------------------------------------------------------

  predicate ArrowHere(s: string, k: nat) {
    k + 1 < |s| && s[k] == '-' && s[k + 1] == '>'
  }

  predicate NoArrow(s: string) {
    forall k | 0 <= k < |s| :: !ArrowHere(s, k)
  }

  lemma {:induction false} ArrowIs(a: string, b: string)
    requires NoArrow(a + "-")
    ensures ArrowAt(a + "->" + b) == |a|
    decreases |a|
  {
    var s := a + "->" + b;
    if a != "" {
      assert s[1..] == a[1..] + "->" + b;
      var t, u := a + "-", a[1..] + "-";
      assert u == t[1..];
      forall k | 0 <= k < |u| ensures !ArrowHere(u, k) { assert !ArrowHere(t, k + 1); }
      ArrowIs(a[1..], b);
      assert s[0] == t[0] && s[1] == if |a| == 1 then '-' else a[1];
      assert !ArrowHere(t, 0);
    }
  }

  lemma {:induction false} NoArrowIsNone(s: string)
    requires NoArrow(s)
    ensures ArrowAt(s) == -1
  {
    if |s| >= 2 {
      forall k | 0 <= k < |s[1..]| ensures !ArrowHere(s[1..], k) { assert !ArrowHere(s, k + 1); }
      NoArrowIsNone(s[1..]);
      assert !ArrowHere(s, 0);
    }
  }

  /** A path alone is source and destination; with an arrow, the source stands before it
      and the destination behind it, blanks around them aside. */
  lemma PathsOfLine(src: string, dest: string)
    requires NoArrow(src + "-") && NoArrow(dest)
    ensures SrcOf(src + "->" + dest) == Trim(src) && DestOf(src + "->" + dest) == Trim(dest)
    ensures SrcOf(dest) == DestOf(dest) == Trim(dest)
  {
    hide Trim, ArrowAt;
    ArrowIs(src, dest);
    NoArrowIsNone(dest);
    var l := src + "->" + dest;
    assert l[..|src|] == src && l[|src| + 2..] == dest;
  }

  function DestNotes(body: seq<string>): seq<Entry> {
    seq(|body|, i requires 0 <= i < |body| => Wrote(DestOf(body[i])))
  }

  lemma {:induction false} WroteNotes(cfg: Config, d: Directive, body: seq<string>, st: State)
    ensures ForLines(cfg, d, RecordWrote, body, st) == Done(st.(journal := st.journal + DestNotes(body)), None)
    decreases |body|
  {
    hide DestOf, OnlyWork;
    if body == [] {
      assert st.journal + DestNotes(body) == st.journal;
    } else {
      var st1 := st.(journal := st.journal + [Wrote(DestOf(body[0]))]);
      WroteNotes(cfg, d, body[1..], st1);
      assert st.journal + DestNotes(body) == st1.journal + DestNotes(body[1..]);
    }
  }

  /** No later line has the same destination. */
  predicate LastWith(body: seq<string>, i: nat) {
    i < |body| && forall j | i < j < |body| :: DestOf(body[j]) != DestOf(body[i])
  }

  /** The files after a copy: where some line has the path for its destination, the last
      such line's source, and otherwise what was there. */
  ghost predicate Copied(cfg: Config, body: seq<string>, before: Files, after: Files) {
    && (forall i | 0 <= i < |body| && LastWith(body, i) ::
          && SrcOf(body[i]) in cfg.skillFiles && DestOf(body[i]) in after
          && after[DestOf(body[i])] == cfg.skillFiles[SrcOf(body[i])])
    && (forall path | !IsDest(body, path) ::
          (path in after <==> path in before) && (path in before ==> after[path] == before[path]))
  }

  predicate IsDest(body: seq<string>, path: string) {
    exists i | 0 <= i < |body| :: DestOf(body[i]) == path
  }

  lemma {:induction false} CopyLines(cfg: Config, d: Directive, body: seq<string>, st: State)
    requires forall i | 0 <= i < |body| :: SrcOf(body[i]) in cfg.skillFiles
    ensures var r := ForLines(cfg, d, CopyFile, body, st);
      r == Done(st.(files := r.st.files), None) && Copied(cfg, body, st.files, r.st.files)
    decreases |body|
  {
    hide DestOf, SrcOf, Copied;
    if body == [] {
      NothingCopied(cfg, st.files);
    } else {
      var st1 := st.(files := st.files[DestOf(body[0]) := cfg.skillFiles[SrcOf(body[0])]]);
      assert forall i | 0 <= i < |body| - 1 :: body[1..][i] == body[i + 1];
      CopyLines(cfg, d, body[1..], st1);
      OneMoreCopied(cfg, body, st.files, ForLines(cfg, d, CopyFile, body, st).st.files);
    }
  }

  lemma NothingCopied(cfg: Config, files: Files)
    ensures Copied(cfg, [], files, files)
  {
  }

  lemma OneMoreCopied(cfg: Config, body: seq<string>, before: Files, after: Files)
    requires body != [] && SrcOf(body[0]) in cfg.skillFiles
    requires Copied(cfg, body[1..], before[DestOf(body[0]) := cfg.skillFiles[SrcOf(body[0])]], after)
    ensures Copied(cfg, body, before, after)
  {
    hide DestOf, SrcOf, LastWith, IsDest;
    var dest := DestOf(body[0]);
    forall i | 0 <= i < |body| && LastWith(body, i)
      ensures SrcOf(body[i]) in cfg.skillFiles && DestOf(body[i]) in after
      ensures after[DestOf(body[i])] == cfg.skillFiles[SrcOf(body[i])]
    {
      LastWithin(body, i);
      if i > 0 { assert LastWith(body[1..], i - 1) && body[i] == body[1..][i - 1]; }
    }
    forall path | !IsDest(body, path)
      ensures (path in after <==> path in before) && (path in before ==> after[path] == before[path])
    {
      DestsOf(body, path);
    }
  }

  lemma LastWithin(body: seq<string>, i: nat)
    requires LastWith(body, i)
    ensures i > 0 ==> LastWith(body[1..], i - 1)
    ensures i == 0 ==> !IsDest(body[1..], DestOf(body[0]))
  {
    hide DestOf;
    assert forall j | 0 <= j < |body| - 1 :: body[1..][j] == body[j + 1];
  }

  lemma DestsOf(body: seq<string>, path: string)
    requires body != []
    ensures IsDest(body, path) <==> DestOf(body[0]) == path || IsDest(body[1..], path)
  {
    hide DestOf;
    assert forall j | 0 <= j < |body| - 1 :: body[1..][j] == body[j + 1];
    if DestOf(body[0]) == path { assert IsDest(body, path); }
    if IsDest(body[1..], path) {
      var j :| 0 <= j < |body| - 1 && DestOf(body[1..][j]) == path;
      assert DestOf(body[j + 1]) == path;
    }
  }

  /** A copy from the skill's own directory: every destination holds its source's content
      (the last one's, where lines share it), no other file changes, and the journal notes
      the destinations in order. */
  lemma CopyCopies(cfg: Config, d: Directive, st: State)
    requires d.kind.Copy? && ("from-branch" !in d.attrs || d.attrs["from-branch"] == "")
    requires forall i | 0 <= i < |d.body| :: SrcOf(d.body[i]) in cfg.skillFiles
    ensures var r := ApplyOne(cfg, d, st);
      && r == Done(st.(files := r.st.files, journal := st.journal + DestNotes(d.body)), None)
      && Copied(cfg, d.body, st.files, r.st.files)
  {
    hide DestOf, SrcOf, Copied, ForLines, OnlyWork;
    CopyLines(cfg, d, d.body, st);
    WroteNotes(cfg, d, d.body, ForLines(cfg, d, CopyFile, d.body, st).st);
  }

  /** The commands of a copy from a branch: the fetch, then a show for each line. */
  function ShowCalls(d: Directive, remote: string, branch: string, body: seq<string>): seq<Event> {
    seq(|body|, i requires 0 <= i < |body| =>
      Call(d, "git show " + remote + "/" + branch + ":" + SrcOf(body[i]) + " > " + DestOf(body[i])))
  }

  ghost predicate Obeys(exec: Option<(nat, string) -> Outcome<string>>) {
    exec.Some? && forall t, c :: exec.value(t, c).Ok?
  }

  lemma {:induction false} ShowLines(cfg: Config, d: Directive, remote: string, branch: string, body: seq<string>,
      st: State)
    requires Obeys(cfg.exec)
    ensures var r := ForLines(cfg, d, ShowBlob(remote, branch), body, st);
      r == Done(st.(files := r.st.files, trace := st.trace + ShowCalls(d, remote, branch, body)), None)
    decreases |body|
  {
    hide DestOf, SrcOf, OnlyWork;
    if body == [] {
      assert st.trace + ShowCalls(d, remote, branch, body) == st.trace;
    } else {
      var r := LineStep(cfg, d, ShowBlob(remote, branch), body[0], st);
      ShowLines(cfg, d, remote, branch, body[1..], r.st);
      assert st.trace + ShowCalls(d, remote, branch, body) == r.st.trace + ShowCalls(d, remote, branch, body[1..]);
    }
  }

  /** One line's show. */
  lemma OneShow(cfg: Config, d: Directive, remote: string, branch: string, body: seq<string>, st: State)
    requires Obeys(cfg.exec) && body != []
    ensures var st1 := LineStep(cfg, d, ShowBlob(remote, branch), body[0], st).st;
      && st1.files == st.files[DestOf(body[0]) := cfg.blob(remote, branch, SrcOf(body[0]))]
      && ForLines(cfg, d, ShowBlob(remote, branch), body, st) ==
         ForLines(cfg, d, ShowBlob(remote, branch), body[1..], st1)
  {
    hide DestOf, SrcOf, OnlyWork;
  }

  lemma {:induction false} ShowsLand(cfg: Config, d: Directive, remote: string, branch: string, body: seq<string>,
      st: State, i: nat)
    requires Obeys(cfg.exec) && LastWith(body, i)
    ensures var files := ForLines(cfg, d, ShowBlob(remote, branch), body, st).st.files;
      DestOf(body[i]) in files && files[DestOf(body[i])] == cfg.blob(remote, branch, SrcOf(body[i]))
    decreases |body|
  {
    hide DestOf, SrcOf, OnlyWork, LineStep, ForLines;
    var st1 := LineStep(cfg, d, ShowBlob(remote, branch), body[0], st).st;
    OneShow(cfg, d, remote, branch, body, st);
    if i > 0 {
      assert LastWith(body[1..], i - 1) by { LastWithin(body, i); }
      ShowsLand(cfg, d, remote, branch, body[1..], st1, i - 1);
    } else {
      ShowsKeep(cfg, d, remote, branch, body[1..], st1, DestOf(body[0]));
    }
  }

  lemma {:induction false} ShowsKeep(cfg: Config, d: Directive, remote: string, branch: string, body: seq<string>,
      st: State, path: string)
    requires Obeys(cfg.exec) && path in st.files && forall i | 0 <= i < |body| :: DestOf(body[i]) != path
    ensures var files := ForLines(cfg, d, ShowBlob(remote, branch), body, st).st.files;
      path in files && files[path] == st.files[path]
    decreases |body|
  {
    hide DestOf, SrcOf, OnlyWork, LineStep;
    if body != [] {
      assert forall i | 0 <= i < |body| - 1 :: body[1..][i] == body[i + 1];
      OneShow(cfg, d, remote, branch, body, st);
      ShowsKeep(cfg, d, remote, branch, body[1..], LineStep(cfg, d, ShowBlob(remote, branch), body[0], st).st, path);
    }
  }

  /** A copy from a branch whose commands go through: the remote is asked for, the branch
      fetched, every line shown into its destination, and the destinations noted. */
  lemma CopyFetches(cfg: Config, d: Directive, st: State)
    requires d.kind.Copy? && "from-branch" in d.attrs && d.attrs["from-branch"] != ""
    requires Obeys(cfg.exec) && cfg.resolveRemote(|st.trace|, d.attrs["from-branch"]).Ok?
    ensures var branch := d.attrs["from-branch"]; var remote := cfg.resolveRemote(|st.trace|, branch).value;
      var r := ApplyOne(cfg, d, st);
      && r == Done(st.(files := r.st.files, journal := st.journal + DestNotes(d.body),
                       trace := st.trace + [Call(d, "git fetch " + remote + " " + branch)]
                                + ShowCalls(d, remote, branch, d.body)), None)
      && forall i | 0 <= i < |d.body| && LastWith(d.body, i) ::
           DestOf(d.body[i]) in r.st.files &&
           r.st.files[DestOf(d.body[i])] == cfg.blob(remote, branch, SrcOf(d.body[i]))
  {
    hide DestOf, SrcOf, ForLines, OnlyWork, ShowCalls, LastWith;
    var branch := d.attrs["from-branch"];
    var remote := cfg.resolveRemote(|st.trace|, branch).value;
    var st1 := st.(trace := st.trace + [Call(d, "git fetch " + remote + " " + branch)]);
    assert CallExec(cfg, d, st, "git fetch " + remote + " " + branch).st == st1;
    ShowLines(cfg, d, remote, branch, d.body, st1);
    forall i | 0 <= i < |d.body| && LastWith(d.body, i)
      ensures var files := ForLines(cfg, d, ShowBlob(remote, branch), d.body, st1).st.files;
        DestOf(d.body[i]) in files && files[DestOf(d.body[i])] == cfg.blob(remote, branch, SrcOf(d.body[i]))
    {
      ShowsLand(cfg, d, remote, branch, d.body, st1, i);
    }
    WroteNotes(cfg, d, d.body, ForLines(cfg, d, ShowBlob(remote, branch), d.body, st1).st);
  }

  // ----- dependencies ---------------------------------------------------------

  /** Specs as `name@version`. */
  predicate SpecsOf(specs: seq<string>, names: seq<string>) {
    && |specs| == |names|
    && forall i | 0 <= i < |specs| ::
         && names[i] != "" && names[i] + "@" <= specs[i]
         && '@' !in specs[i][|names[i]| + 1..]
         && ' ' !in names[i]
  }

  lemma NamesOf(specs: seq<string>, names: seq<string>)
    requires SpecsOf(specs, names)
    ensures DepNames(specs) == names
    ensures names != [] ==> Split(Join(names, ' '), ' ') == names
  {
    hide Split, Join, LastIndexOf;
    forall i | 0 <= i < |specs| ensures DepName(specs[i]) == names[i] {
      var version := specs[i][|names[i]| + 1..];
      assert specs[i][..|names[i]| + 1] == names[i] + "@";
      assert specs[i] == names[i] + "@" + version;
      L.LastIsAfter(names[i], '@', version);
      assert specs[i][..|names[i]|] == names[i];
    }
    if names != [] { SplitOfJoin(names, ' '); }
  }

  /** A dependency directive calls one command, which adds the specs as they are written,
      and notes it with the command that removes the names: the caller's commands where it
      resolves them, and otherwise the manager's, in the directory asked for. */
  lemma DepAdds(cfg: Config, d: Directive, names: seq<string>, st: State)
    requires d.kind.Dep? && d.body != [] && SpecsOf(d.body, names) && Obeys(cfg.exec)
    requires cfg.resolveDep.Some? ==> forall t, r :: cfg.resolveDep.value(t, r).Ok?
    ensures var manager := if "manager" in d.attrs then d.attrs["manager"] else "pnpm";
      var cwd := if "cwd" in d.attrs then d.attrs["cwd"] else "";
      var in' := if cwd == "" then "" else "cd " + cwd + " && ";
      var (add, remove) := match cfg.resolveDep
        case None => (in' + manager + " add " + Join(d.body, ' '), in' + manager + " remove " + Join(names, ' '))
        case Some(f) => (f(|st.trace|, DepRequest(manager, cwd, Add, d.body)).value,
                         f(|st.trace|, DepRequest(manager, cwd, Remove, names)).value);
      ApplyOne(cfg, d, st) ==
      Done(st.(trace := st.trace + [Call(d, add)], journal := st.journal + [Ran(add, Some(remove))]), None)
  {
    hide DepNames, Join, Split, SpecsOf, OnlyWork;
    NamesOf(d.body, names);
    assert names != [] by { SpecsMatch(d.body, names); }
  }

  lemma SpecsMatch(specs: seq<string>, names: seq<string>)
    requires SpecsOf(specs, names)
    ensures |specs| == |names|
  {
  }

  // ----- merges ---------------------------------------------------------------

  /** The element has the same value under the key, as JavaScript compares separately
      parsed values: both have none, or both have the same primitive. */
  predicate SameKey(el: Value, key: string, obj: Value) {
    && (el.Obj? || el.Arr?)
    && var a, b := if el.Obj? && key in el.fields then Some(el.fields[key]) else None,
                   if obj.Obj? && key in obj.fields then Some(obj.fields[key]) else None;
       a == b && (a.Some? ==> !a.value.Obj? && !a.value.Arr?)
  }

  predicate FirstSame(items: seq<Value>, key: string, obj: Value, i: nat) {
    i < |items| && SameKey(items[i], key, obj) && forall j | 0 <= j < i :: !SameKey(items[j], key, obj)
  }

  lemma {:induction false} FoundIsFirst(items: seq<Value>, key: string, obj: Value)
    ensures var at := FindMatch(items, key, Member(obj, key));
      if at == -1 then forall i | 0 <= i < |items| :: !SameKey(items[i], key, obj)
      else FirstSame(items, key, obj, at)
  {
    assert forall el :: Matches(el, key, Member(obj, key)) <==> SameKey(el, key, obj);
    hide Matches, SameKey, Member;
    if items != [] {
      FoundIsFirst(items[1..], key, obj);
      assert forall i | 0 <= i < |items| - 1 :: items[1..][i] == items[i + 1];
    }
  }

  /** A merge into an array of objects. If no element has the object's value under the key
      the object goes to the end; if one has, a refresh puts the object in the place of the
      first where the two differ, and nothing else happens. The journal notes the path, the
      key, the value, and what was replaced. */
  lemma MergeMerges(cfg: Config, d: Directive, obj: Value, items: seq<Value>, st: State)
    requires d.kind.JsonMerge? && "into" in d.attrs && d.attrs["into"] != "" && "key" in d.attrs
    requires cfg.codec.parse(Unlines(d.body)) == Some(obj)
    requires var into := d.attrs["into"]; var text := if into in st.files then st.files[into] else "";
      cfg.codec.parse(if text == "" then "[]" else text) == Some(Arr(items))
    ensures var into, key := d.attrs["into"], d.attrs["key"];
      var value := if obj.Obj? && key in obj.fields then Some(obj.fields[key]) else None;
      var r := ApplyOne(cfg, d, st);
      && ((forall i | 0 <= i < |items| :: !SameKey(items[i], key, obj)) ==>
            r == Done(st.(files := st.files[into := cfg.codec.show(Arr(items + [obj])) + "\n"],
                          journal := st.journal + [Merged(into, key, value, None)]), None))
      && (forall i: nat | FirstSame(items, key, obj, i) ::
            r == if cfg.mode.Refresh? && cfg.codec.show(items[i]) != cfg.codec.show(obj)
                 then Done(st.(files := st.files[into := cfg.codec.show(Arr(items[i := obj])) + "\n"],
                               journal := st.journal + [Merged(into, key, value, Some(items[i]))]), None)
                 else Done(st, None))
  {
    hide FindMatch, SameKey, Unlines, OnlyWork;
    var key := d.attrs["key"];
    FoundIsFirst(items, key, obj);
    var at := FindMatch(items, key, Member(obj, key));
    assert ReadJson(cfg.codec, st.files, d.attrs["into"]) == Some(Arr(items));
    forall i: nat | FirstSame(items, key, obj, i) ensures i == at {}
  }

  // ----- idempotency checks ---------------------------------------------------

  /** A dependency the package file names with a version that is not empty. */
  predicate InPackage(codec: Codec, text: string, name: string) {
    match codec.parse(if text == "" then "{}" else text)
    case None => false
    case Some(pkg) => InSection(pkg, "dependencies", name) || InSection(pkg, "devDependencies", name)
  }

  predicate InSection(pkg: Value, section: string, name: string) {
    && pkg.Obj? && section in pkg.fields
    && var deps := pkg.fields[section];
       && deps.Obj? && name in deps.fields
       && deps.fields[name] !in {Null, Bool(false), Str(""), Num("0")}
  }

  /** When a directive has nothing left to do. A copy: on an install, when every
      destination is there. An append: when the file has the first line of the body, blanks
      around it aside. A dependency: on an install, when the package file names them all.
      An env-set: when the env file gives every key something. A merge: on an install, when
      an element has the object's value under the key. Commands always run. */
  lemma SkipsWhenDone(cfg: Config, d: Directive, files: Files)
    ensures d.kind == Copy ==> (SelfStatus(cfg, d, files) == Ok(Skip) <==>
              cfg.mode.Install? && forall i | 0 <= i < |d.body| :: DestOf(d.body[i]) in files)
    ensures d.kind == Append ==> (SelfStatus(cfg, d, files).Throw? <==> "to" !in d.attrs || d.attrs["to"] == "")
    ensures d.kind == Append && "to" in d.attrs && d.attrs["to"] != "" && d.body != [] ==>
              (SelfStatus(cfg, d, files) == Ok(Skip) <==>
                var ls := Lines(Read(files, d.attrs["to"])); exists k | 0 <= k < |ls| :: Trim(ls[k]) == Trim(d.body[0]))
    ensures d.kind == Dep ==> (SelfStatus(cfg, d, files) == Ok(Skip) <==>
              cfg.mode.Install? && forall i | 0 <= i < |d.body| ::
                InPackage(cfg.codec, Read(files, if "cwd" in d.attrs && d.attrs["cwd"] != ""
                                                 then d.attrs["cwd"] + "/package.json" else "package.json"),
                          DepName(d.body[i])))
    ensures d.kind == EnvSet ==> (SelfStatus(cfg, d, files) == Ok(Skip) <==>
              forall i | 0 <= i < |d.body| :: EnvKeySet(files, EnvStatusKeyOf(d.body[i])))
    ensures d.kind == Run ==> SelfStatus(cfg, d, files) == Ok(Apply)
    ensures d.kind in {Prompt, Operator} || d.kind.Other? ==> SelfStatus(cfg, d, files) == Ok(Agent)
    ensures d.kind in {Copy, Dep, EnvSet} ==> SelfStatus(cfg, d, files) in {Ok(Skip), Ok(Apply)}
  {
    hide Lines, Trim, DestOf, DepName, EnvKeySet, EnvStatusKeyOf, Truthy, Member;
    if d.kind == Dep {
      forall text, name
        ensures HasDepIn(cfg.codec, text, name) <==> InPackage(cfg.codec, text, name)
      {
        SectionsAre(cfg.codec, text, name);
      }
    }
  }

  predicate HasDepIn(codec: Codec, text: string, name: string) {
    match codec.parse(if text == "" then "{}" else text)
    case None => false
    case Some(pkg) =>
      var deps := Member(pkg, "dependencies");
      var devDeps := Member(pkg, "devDependencies");
      || (deps.Some? && Truthy(Member(deps.value, name)))
      || (devDeps.Some? && Truthy(Member(devDeps.value, name)))
  }

  lemma SectionsAre(codec: Codec, text: string, name: string)
    ensures HasDepIn(codec, text, name) <==> InPackage(codec, text, name)
  {
  }

  /** A merge asks for an agent if its body is not JSON, or null. */
  lemma MergeSkipsIff(cfg: Config, d: Directive, files: Files)
    requires d.kind.JsonMerge? && "into" in d.attrs && "key" in d.attrs
    ensures SelfStatus(cfg, d, files) == Ok(Agent) <==>
            var obj := cfg.codec.parse(Unlines(d.body)); obj == None || obj == Some(Null)
    ensures forall obj, items ::
              cfg.codec.parse(Unlines(d.body)) == Some(obj) && obj != Null &&
              ReadJson(cfg.codec, files, d.attrs["into"]) == Some(Arr(items)) ==>
                SelfStatus(cfg, d, files) ==
                Ok(if cfg.mode.Install? && exists i | 0 <= i < |items| :: SameKey(items[i], d.attrs["key"], obj)
                   then Skip else Apply)
  {
    hide FindMatch, SameKey, Unlines, ReadJson;
    forall obj, items
      ensures FindMatch(items, d.attrs["key"], Member(obj, d.attrs["key"])) != -1 <==>
              exists i | 0 <= i < |items| :: SameKey(items[i], d.attrs["key"], obj)
    {
      FoundIsFirst(items, d.attrs["key"], obj);
    }
  }

  // ----- verdicts -------------------------------------------------------------

  /** The guard names a variable that is not bound to the guard's value. */
  ghost predicate Unmet(d: Directive, vars: Vars) {
    exists v, x :: GuardReads(d, v, x) && !(Trim(v) in vars && vars[Trim(v)].value == Trim(x))
  }

  lemma UnmetIs(d: Directive, vars: Vars)
    ensures Guarded(d, vars) <==> Unmet(d, vars)
  {
    hide Guarded;
    GuardedIff(d, vars);
  }

  /** A refresh leaves alone what talks to the operator, keys, and every run not meant for it. */
  predicate NotOnRefresh(d: Directive) {
    d.kind in {Prompt, Operator, EnvSet} || (d.kind == Run && ("effect" in d.attrs ==> d.attrs["effect"] != "refresh"))
  }

  ghost predicate PassedOver(cfg: Config, d: Directive, st: State) {
    (cfg.mode.Refresh? && NotOnRefresh(d)) || Unmet(d, st.vars)
  }

  /** A directive is skipped, and nothing else happens, exactly if it is passed over by a
      refresh or by its guard, or shows a block after a bounce, or has an effect the caller
      skips, or has nothing left to do. */
  lemma SkippedIff(cfg: Config, d: Directive, st: State)
    ensures Process(cfg, d, st) == st.(skipped := st.skipped + [Note(d.kind, d.line)]) <==>
      || PassedOver(cfg, d, st)
      || (d.kind == Operator && st.blocked)
      || (d.kind == Run && "effect" in d.attrs && d.attrs["effect"] in cfg.skipEffects)
      || (d.kind in {Copy, Append, Dep, EnvSet, JsonMerge} && SelfStatus(cfg, d, st.files) == Ok(Skip))
  {
    hide Guarded, Unmet, SelfStatus, DoPrompt, DoOperator, DoStep;
    UnmetIs(d, st.vars);
    OthersKeepSkipped(cfg, d, st);
    SkipsWhenDone(cfg, d, st.files);
  }

  lemma CatchKeepsSkipped(cfg: Config, d: Directive, st: State, inFlight: bool, m: string)
    ensures Catch(cfg, d, st, inFlight, m).skipped == st.skipped
  {
    hide IsUnresolved;
  }

  lemma PromptKeepsSkipped(cfg: Config, d: Directive, st: State)
    ensures DoPrompt(cfg, d, st).skipped == st.skipped
  {
    hide Normalize, NameOf, Catch;
    forall st', m ensures Catch(cfg, d, st', false, m).skipped == st'.skipped {
      CatchKeepsSkipped(cfg, d, st', false, m);
    }
  }

  lemma StepKeepsSkipped(cfg: Config, d: Directive, st: State)
    ensures DoStep(cfg, d, st).skipped == st.skipped
  {
    hide ApplyOne, Catch;
    forall st', b, m ensures Catch(cfg, d, st', b, m).skipped == st'.skipped { CatchKeepsSkipped(cfg, d, st', b, m); }
  }

  lemma OperatorKeepsSkipped(cfg: Config, d: Directive, st: State)
    ensures DoOperator(cfg, d, st) == SkipIt(st, d) <==> st.blocked
  {
    hide Substitute, Unlines, Catch;
    forall st', m ensures Catch(cfg, d, st', false, m).skipped == st'.skipped {
      CatchKeepsSkipped(cfg, d, st', false, m);
    }
  }

  lemma OthersKeepSkipped(cfg: Config, d: Directive, st: State)
    ensures DoPrompt(cfg, d, st).skipped == st.skipped && DoStep(cfg, d, st).skipped == st.skipped
    ensures DoOperator(cfg, d, st) == SkipIt(st, d) <==> st.blocked
    ensures forall m :: Catch(cfg, d, st, false, m).skipped == st.skipped
  {
    hide *;
    PromptKeepsSkipped(cfg, d, st);
    StepKeepsSkipped(cfg, d, st);
    OperatorKeepsSkipped(cfg, d, st);
    forall m ensures Catch(cfg, d, st, false, m).skipped == st.skipped { CatchKeepsSkipped(cfg, d, st, false, m); }
  }

  /** Restarts, steps and wirings are gated, untried, exactly after a bounce. */
  lemma GatedIff(cfg: Config, d: Directive, st: State)
    ensures Process(cfg, d, st) ==
            st.(blocked := true, tasks := st.tasks + [Task(d.kind, d.line, Gated)],
                trace := st.trace + [Bounced(d.line)])
      <==> && !PassedOver(cfg, d, st) && st.blocked && d.kind == Run && "effect" in d.attrs
           && d.attrs["effect"] in {"restart", "step", "wire"} && d.attrs["effect"] !in cfg.skipEffects
  {
    hide Guarded, Unmet, SelfStatus, DoPrompt, DoOperator, DoStep, Catch;
    UnmetIs(d, st.vars);
    OthersDoNotGate(cfg, d, st);
    var after := Process(cfg, d, st);
    if after.tasks == st.tasks + [Task(d.kind, d.line, Gated)] { assert GatesIt(st, d, after); }
  }

  predicate GatesIt(st: State, d: Directive, after: State) {
    |after.tasks| == |st.tasks| + 1 && after.tasks[|st.tasks|] == Task(d.kind, d.line, Gated)
  }

  lemma CatchDoesNotGate(cfg: Config, d: Directive, st: State, st': State, inFlight: bool, m: string)
    requires st'.tasks == st.tasks
    ensures !GatesIt(st, d, Catch(cfg, d, st', inFlight, m))
  {
    hide IsUnresolved;
  }

  lemma PromptDoesNotGate(cfg: Config, d: Directive, st: State)
    ensures !GatesIt(st, d, DoPrompt(cfg, d, st))
  {
    hide Normalize, NameOf, Catch;
    forall st': State, m | st'.tasks == st.tasks ensures !GatesIt(st, d, Catch(cfg, d, st', false, m)) {
      CatchDoesNotGate(cfg, d, st, st', false, m);
    }
  }

  lemma StepDoesNotGate(cfg: Config, d: Directive, st: State)
    ensures !GatesIt(st, d, DoStep(cfg, d, st))
  {
    hide ApplyOne, Catch;
    forall st': State, b, m | st'.tasks == st.tasks ensures !GatesIt(st, d, Catch(cfg, d, st', b, m)) {
      CatchDoesNotGate(cfg, d, st, st', b, m);
    }
  }

  lemma OperatorDoesNotGate(cfg: Config, d: Directive, st: State)
    ensures !GatesIt(st, d, DoOperator(cfg, d, st))
  {
    hide Substitute, Unlines, Catch;
    forall st': State, m | st'.tasks == st.tasks ensures !GatesIt(st, d, Catch(cfg, d, st', false, m)) {
      CatchDoesNotGate(cfg, d, st, st', false, m);
    }
  }

  lemma OthersDoNotGate(cfg: Config, d: Directive, st: State)
    ensures !GatesIt(st, d, DoPrompt(cfg, d, st)) && !GatesIt(st, d, DoStep(cfg, d, st))
    ensures !GatesIt(st, d, DoOperator(cfg, d, st))
    ensures forall m :: !GatesIt(st, d, Catch(cfg, d, st, false, m))
  {
    hide *;
    PromptDoesNotGate(cfg, d, st);
    StepDoesNotGate(cfg, d, st);
    OperatorDoesNotGate(cfg, d, st);
    forall m ensures !GatesIt(st, d, Catch(cfg, d, st, false, m)) { CatchDoesNotGate(cfg, d, st, st, false, m); }
  }

  /** Every other directive goes by what it has left to do: work, nothing, or, for a kind
      the engine does not know and a merge whose body is no value, an agent. */
  lemma GoesByStatus(cfg: Config, d: Directive, st: State)
    requires !PassedOver(cfg, d, st) && d.kind !in {Prompt, Operator}
    requires d.kind == Run && "effect" in d.attrs ==>
               d.attrs["effect"] !in cfg.skipEffects &&
               !(st.blocked && d.attrs["effect"] in {"restart", "step", "wire"})
    ensures Process(cfg, d, st) ==
            (match SelfStatus(cfg, d, st.files)
             case Throw(m) => Catch(cfg, d, st, false, m)
             case Ok(Agent) =>
               st.(blocked := true, tasks := st.tasks + [Task(d.kind, d.line, NoHandler)],
                   trace := st.trace + [Bounced(d.line)])
             case Ok(Skip) => st.(skipped := st.skipped + [Note(d.kind, d.line)])
             case Ok(Apply) => DoStep(cfg, d, st))
  {
    hide Guarded, Unmet, SelfStatus, Catch, DoStep;
    UnmetIs(d, st.vars);
  }

  /** Work that goes through, with a listener that does not throw: heard of before and
      after, and noted as applied. Work that throws: heard of as failed; then it waits for a
      name if the complaint is about one, and else goes to an agent and blocks. */
  lemma WorkIsHeardOf(cfg: Config, d: Directive, st: State)
    requires cfg.onEvent.Some? ==> forall t, e :: cfg.onEvent.value(t, e) == None
    ensures var heard := (e: Emission) => if cfg.onEvent.None? then [] else [Emitted(e, true)];
      var begun := st.(trace := st.trace + heard(StepStart(d.kind, d.line)));
      var r := ApplyOne(cfg, d, begun);
      DoStep(cfg, d, st) ==
      match r.exn
      case None => r.st.(trace := r.st.trace + heard(StepEnd(d.kind, d.line, true)),
                         applied := r.st.applied + [Note(d.kind, d.line)])
      case Some(m) =>
        var ended := r.st.(trace := r.st.trace + heard(StepEnd(d.kind, d.line, false)));
        if Holds(m, "unresolved {{") then ended.(deferred := ended.deferred + [Blocked(m)])
        else ended.(blocked := true, tasks := ended.tasks + [Task(d.kind, d.line, Failed(m))],
                    trace := ended.trace + [Bounced(d.line)])
  {
    hide ApplyOne, Includes, Holds;
    assert st.trace + [] == st.trace;
    var begun := st.(trace := st.trace + if cfg.onEvent.None? then [] else [Emitted(StepStart(d.kind, d.line), true)]);
    var r := ApplyOne(cfg, d, begun);
    assert r.st.trace + [] == r.st.trace;
    if r.exn.Some? { IncludesIs(r.exn.value, "unresolved {{"); }
  }

  // ----- prompts --------------------------------------------------------------

  /** The name a prompt asks for. */
  ghost predicate AsksFor(d: Directive, name: string) {
    exists k: nat :: L.NamedAt(d.args, k, name)
  }

  predicate Fits(cfg: Config, d: Directive, value: string) {
    "validate" in d.attrs ==>
      var flags := if "flags" in d.attrs then d.attrs["flags"] else "";
      cfg.compiles(d.attrs["validate"], flags).None? && cfg.test(d.attrs["validate"], flags, value)
  }

  /** An answer that fits is bound, secret if the prompt says so; one that does not fit is
      deferred with its expression, or goes to an agent if the expression does not compile. */
  lemma AnswerBinds(cfg: Config, d: Directive, name: string, answer: string, st: State)
    requires AsksFor(d, name)
    ensures var how := if "normalize" in d.attrs then Some(d.attrs["normalize"]) else None;
      var value := Normalize(cfg, answer, how);
      var bad := "validate" in d.attrs &&
        cfg.compiles(d.attrs["validate"], if "flags" in d.attrs then d.attrs["flags"] else "").Some?;
      var r := BindPrompt(cfg, d, st, answer);
      && (Fits(cfg, d, value) ==> r == st.(vars := st.vars[name := Binding(value, "secret" in d.args)]))
      && (!Fits(cfg, d, value) && !bad ==> r == st.(deferred := st.deferred + [Invalid(name, d.attrs["validate"])]))
      && (bad ==> Unanswered(st, r))
  {
    hide Normalize, IsUnresolved, AsksFor;
    AskedName(d, name);
  }

  /** Nothing is bound, and someone has to come back to it. */
  predicate Unanswered(st: State, st': State) {
    && st'.vars == st.vars && st'.files == st.files && st'.journal == st.journal
    && (|st'.deferred| == |st.deferred| + 1 || |st'.tasks| == |st.tasks| + 1)
  }

  lemma AskedName(d: Directive, name: string)
    requires AsksFor(d, name)
    ensures NameOf(d) == name
  {
    L.PromptVarIs(d.args, name);
  }

  /** A prompt takes the caller's input for its name if there is one, and else asks, once;
      without an answer it is deferred with its name. */
  lemma PromptBinds(cfg: Config, d: Directive, name: string, st: State)
    requires d.kind.Prompt? && cfg.mode.Install? && !Unmet(d, st.vars) && AsksFor(d, name)
    ensures var r := Process(cfg, d, st);
      if name in cfg.inputs then r == BindPrompt(cfg, d, st, cfg.inputs[name])
      else if cfg.resolveInput.None? then r == st.(deferred := st.deferred + [NoAnswer(name)])
      else
        var asked := st.(trace := st.trace + [Asked(name)]);
        match cfg.resolveInput.value(|st.trace|, name)
        case Ok(Some(answer)) => r == BindPrompt(cfg, d, asked, answer)
        case Ok(None) => r == asked.(deferred := st.deferred + [NoAnswer(name)])
        case Throw(_) => Unanswered(asked, r)
  {
    hide Guarded, Unmet, BindPrompt, IsUnresolved, AsksFor;
    UnmetIs(d, st.vars);
    AskedName(d, name);
  }

  predicate Slashes(s: string) {
    forall i | 0 <= i < |s| :: s[i] == '/'
  }

  lemma {:induction false} SlashesGo(value: string, slashes: string)
    requires (value == "" || value[|value| - 1] != '/') && Slashes(slashes)
    ensures StripSlashes(value + slashes) == value
    decreases |slashes|
  {
    if slashes == "" {
      assert value + slashes == value;
    } else {
      var n := |slashes| - 1;
      assert (value + slashes)[..|value| + n] == value + slashes[..n];
      SlashesGo(value, slashes[..n]);
    }
  }

  /** How an answer is made uniform: blanks around it, slashes behind it, or capitals go;
      by default, and by any other word, it stays. */
  lemma AnswersAreNormal(cfg: Config, value: string, slashes: string)
    requires (value == "" || value[|value| - 1] != '/') && Slashes(slashes)
    ensures Normalize(cfg, value + slashes, Some("rstrip-slash")) == value
    ensures Normalize(cfg, value, Some("trim")) == Trim(value)
    ensures Normalize(cfg, value, Some("lower")) == cfg.lower(value)
    ensures Normalize(cfg, value, None) == value
    ensures forall how | how !in {"rstrip-slash", "trim", "lower"} :: Normalize(cfg, value, Some(how)) == value
  {
    hide Trim;
    SlashesGo(value, slashes);
  }

  // ----- captures -------------------------------------------------------------

  /** The fields a step reports, bound part by part: `name=field` takes the field without
      blanks around it, or nothing where the step reports none. */
  lemma OneField(part: string, v: string, f: string, fields: map<string, string>, vars: Vars)
    requires part == v + "=" + f && '=' !in v && v != ""
    ensures BindFields([part], fields, vars) ==
            vars[Trim(v) := Binding(if Trim(f) in fields then Trim(fields[Trim(f)]) else "", false)]
  {
    hide Trim;
    FirstEquals(part, v, f);
    assert [part][1..] == [];
  }

  lemma NoField(part: string, fields: map<string, string>, vars: Vars)
    requires '=' !in part || (part != "" && part[0] == '=')
    ensures BindFields([part], fields, vars) == vars
  {
    hide Trim;
    IndexOfIsFirst(part, '=');
    assert [part][1..] == [];
  }

  lemma {:induction false} FieldsOneByOne(a: seq<string>, b: seq<string>, fields: map<string, string>, vars: Vars)
    ensures BindFields(a + b, fields, vars) == BindFields(b, fields, BindFields(a, fields, vars))
    decreases |a|
  {
    hide Trim, IndexOf;
    if a == [] {
      assert a + b == b;
    } else {
      assert (a + b)[1..] == a[1..] + b;
      var eq := IndexOf(a[0], '=');
      if eq < 1 {
        FieldsOneByOne(a[1..], b, fields, vars);
      } else {
        var f := Trim(a[0][eq + 1..]);
        var value := if f in fields then Trim(fields[f]) else "";
        FieldsOneByOne(a[1..], b, fields, vars[Trim(a[0][..eq]) := Binding(value, false)]);
      }
    }
  }

  /** The same for the JSON a run puts out: `name=path` takes the value at the path. */
  lemma OnePath(cfg: Config, part: string, v: string, f: string, json: Value, vars: Vars)
    requires part == v + "=" + f && '=' !in v && v != ""
    ensures CapturePairs(cfg, [part], json, "", vars) ==
            Bound(vars[Trim(v) := Binding(cfg.codec.path(json, Trim(f)), false)], None)
  {
    hide Trim;
    FirstEquals(part, v, f);
    assert [part][1..] == [];
  }

  lemma NoPair(cfg: Config, part: string, json: Value, validate: string, vars: Vars)
    requires '=' !in part || (part != "" && part[0] == '=')
    ensures CapturePairs(cfg, [part], json, validate, vars) == Bound(vars, None)
  {
    hide Trim;
    IndexOfIsFirst(part, '=');
    assert [part][1..] == [];
  }

  lemma {:induction false} PathsOneByOne(cfg: Config, a: seq<string>, b: seq<string>, json: Value, validate: string,
      vars: Vars)
    ensures var first := CapturePairs(cfg, a, json, validate, vars);
      CapturePairs(cfg, a + b, json, validate, vars) ==
      if first.exn.Some? then first else CapturePairs(cfg, b, json, validate, first.vars)
    decreases |a|
  {
    hide Trim, IndexOf;
    if a == [] {
      assert a + b == b;
    } else {
      assert (a + b)[1..] == a[1..] + b;
      var eq := IndexOf(a[0], '=');
      if eq < 1 {
        PathsOneByOne(cfg, a[1..], b, json, validate, vars);
      } else {
        var bound := SetCaptured(cfg, validate, Trim(a[0][..eq]), cfg.codec.path(json, Trim(a[0][eq + 1..])), vars);
        PathsOneByOne(cfg, a[1..], b, json, validate, bound.vars);
      }
    }
  }

  /** A capture with parts parses the output and binds them; output that is no JSON binds
      nothing. */
  lemma JsonIsCaptured(cfg: Config, spec: string, out: string, vars: Vars)
    requires '=' in spec
    ensures BindCapture(cfg, spec, out, "", vars) ==
            match cfg.codec.parse(out)
            case None => Bound(vars, Some("Unexpected token in JSON"))
            case Some(json) => CapturePairs(cfg, Split(spec, ','), json, "", vars)
  {
    hide CapturePairs, Split;
  }
}
