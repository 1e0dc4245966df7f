/** Applying a skill a second time changes no file. */
module SkillReapply {
  import opened Text
  import opened Json
  import opened Templates
  import opened SkillDirectives
  import opened SkillApply
  import opened SkillFacts
  import opened SkillUndo
  import opened SkillLint

  // ----- what a run never loses -----------------------------------------------

  /** Every non-blank line of the one list is in the other. */
  predicate LinesIn(a: seq<string>, b: seq<string>) {
    forall l | l in a && Trim(l) != "" :: l in b
  }

  /** A JSON target only gets elements pushed. */
  predicate Pushed(codec: Codec, f: Files, g: Files, path: string) {
    var a, b := ReadJson(codec, f, path), ReadJson(codec, g, path);
    a.Some? && a.value.Arr? ==> b.Some? && b.value.Arr? && a.value.items <= b.value.items
  }

  predicate KeptAt(jsons: set<string>, codec: Codec, f: Files, g: Files, p: string) {
    && (p in f ==> p in g)
    && (if p in jsons then Pushed(codec, f, g, p) else LinesIn(Lines(Read(f, p)), Lines(Read(g, p))))
  }

  /** From `f` to `g` no file disappears, no text file loses a non-blank line, no JSON
      target loses an element. */
  ghost predicate Keeps(jsons: set<string>, codec: Codec, f: Files, g: Files) {
    forall p: string :: KeptAt(jsons, codec, f, g, p)
  }

  lemma KeepsTwice(jsons: set<string>, codec: Codec, f: Files, g: Files, h: Files)
    requires Keeps(jsons, codec, f, g) && Keeps(jsons, codec, g, h)
    ensures Keeps(jsons, codec, f, h)
  {
    hide ReadJson, Lines, Trim;
    forall p ensures KeptAt(jsons, codec, f, h, p) {
      assert KeptAt(jsons, codec, f, g, p) && KeptAt(jsons, codec, g, h, p);
    }
  }

  lemma KeepsSame(jsons: set<string>, codec: Codec, f: Files)
    ensures Keeps(jsons, codec, f, f)
  {
    hide ReadJson, Lines, Trim;
  }

  /** One file changed, without loss. */
  lemma KeepsOne(jsons: set<string>, codec: Codec, f: Files, path: string, content: string)
    requires KeptAt(jsons, codec, f, f[path := content], path)
    ensures Keeps(jsons, codec, f, f[path := content])
  {
    hide Lines, Trim, Pushed;
    var g := f[path := content];
    forall p ensures KeptAt(jsons, codec, f, g, p) {
      if p != path {
        assert Read(f, p) == Read(g, p);
        if p in jsons { PushedSame(codec, f, g, p); }
      }
    }
  }

  lemma PushedSame(codec: Codec, f: Files, g: Files, p: string)
    requires Read(f, p) == Read(g, p)
    ensures Pushed(codec, f, g, p)
  {
  }

  lemma AppendKeeps(content: string, l: string)
    ensures LinesIn(Lines(content), Lines(AppendLine(content, l)))
    ensures forall x | x in Lines(l) :: x in Lines(AppendLine(content, l))
  {
    hide Trim, Rows, AppendLine, Lines;
    LinesOfAppended(content, l);
    LinesAreRows(content);
  }

  lemma InsertKeeps(content: string, at: nat, l: string)
    requires '\n' !in l && at < |Lines(content)|
    ensures LinesIn(Lines(content), Lines(InsertLine(content, at, l)))
    ensures FileLine(Lines(InsertLine(content, at, l)), l)
  {
    hide Trim, InsertLine, Indent;
    InsertedLines(content, at, l);
    var lines := Lines(content);
    assert lines == lines[..at] + lines[at..];
    assert Lines(InsertLine(content, at, l))[at] == Indent(lines[at]) + l;
  }

  predicate FileLine(lines: seq<string>, l: string) {
    AnyLine(lines, l)
  }

  lemma LineStays(a: seq<string>, b: seq<string>, l: string)
    requires LinesIn(a, b) && AnyLine(a, l) && Trim(l) != ""
    ensures AnyLine(b, l)
  {
    hide Trim;
    var i :| 0 <= i < |a| && Trim(a[i]) == Trim(l);
    assert a[i] in b;
    var k :| 0 <= k < |b| && b[k] == a[i];
  }

  lemma KeyStays(a: seq<string>, b: seq<string>, key: string)
    requires LinesIn(a, b) && AnySets(a, key)
    ensures AnySets(b, key)
  {
    hide Trim, SetsKey;
    var i :| 0 <= i < |a| && SetsKey(a[i], key);
    SettingLineNotBlank(a[i], key);
    var k :| 0 <= k < |b| && b[k] == a[i];
  }

  lemma SettingLineNotBlank(l: string, key: string)
    requires SetsKey(l, key)
    ensures Trim(l) != ""
  {
    var a := SpaceRun(l);
    var b := a + IdentRun(l[a..]);
    var c := b + SpaceRun(l[b..]);
    assert c < |l| && !IsSpace(l[c]);
    hide SetsKey, SpaceRun, IdentRun, IsSpace;
    NotBlankAt(l, c);
  }

  lemma NotBlankAt(l: string, c: nat)
    requires c < |l| && !IsSpace(l[c])
    ensures Trim(l) != ""
  {
    TrimStartDropsSpace(l);
    TrimEndDropsSpace(TrimStart(l));
    hide IsSpace;
  }

  // ----- settled directives ---------------------------------------------------

  predicate Persistent(k: Kind) {
    k.Copy? || k.Append? || k.EnvSet? || k.JsonMerge?
  }

  /** A valid key and a value the `.env` probe recognises as set. */
  predicate GoodValue(v: string) {
    Trim(v) != "" && forall i | 0 <= i < |v| :: !IsLineEnd(v[i])
  }

  predicate GoodEnvBody(body: seq<string>, vars: Vars) {
    forall i | 0 <= i < |body| :: GoodEnvLine(body[i], vars)
  }

  predicate GoodEnvLine(l: string, vars: Vars) {
    IsIdent(EnvKeyOf(l)) && var v := Substitute(EnvValueOf(l), vars); v.Ok? ==> GoodValue(v.value)
  }

  /** The shape the no-op claim is made for. */
  predicate Plain(jsons: set<string>, cfg: Config, d: Directive) {
    && TidyBody(d.body)
    && match d.kind
       case Copy => |d.body| == 1 && DestOf(d.body[0]) !in jsons
       case Append => d.body != [] && AttrOr(d, "to", "") !in jsons
       case EnvSet => ENV !in jsons
       case JsonMerge =>
         && d.Truthy("into") && d.attrs["into"] in jsons && "key" in d.attrs
         && var obj := cfg.codec.parse(Unlines(d.body));
            obj.Some? ==> IsObjectLike(obj.value) && Comparable(Member(obj.value, d.attrs["key"]))
       case _ => true
  }

  predicate GoodRun(cfg: Config, ds: seq<Directive>, st: State) {
    ds == [] ||
    (&& (Applies(cfg, ds[0], st) && ds[0].kind.EnvSet? ==> GoodEnvBody(ds[0].body, st.vars))
     && GoodRun(cfg, ds[1..], Process(cfg, ds[0], st)))
  }

  predicate Settled(cfg: Config, d: Directive, files: Files) {
    SelfStatus(cfg, d, files) == Ok(Skip)
  }

  /** Every key the directive would write is there. */
  predicate KeysSet(d: Directive, files: Files) {
    forall i | 0 <= i < |d.body| :: EnvKeySet(files, EnvKeyOf(d.body[i]))
  }

  /** The lines whose status asks about another key than the one written are set too. */
  predicate BareLinesSet(d: Directive, files: Files) {
    forall i | 0 <= i < |d.body| && IndexOf(d.body[i], '=') == -1 :: EnvKeySet(files, EnvStatusKeyOf(d.body[i]))
  }

  /** There is nothing left to do, whether the status sees it or not. */
  predicate Accomplished(cfg: Config, d: Directive, files: Files) {
    Settled(cfg, d, files) || (d.kind.EnvSet? && KeysSet(d, files))
  }

  lemma KeysStaySet(jsons: set<string>, codec: Codec, d: Directive, f: Files, g: Files)
    requires ENV !in jsons && KeysSet(d, f) && Keeps(jsons, codec, f, g)
    ensures KeysSet(d, g)
  {
    hide Trim, Lines, AnySets, EnvKeyOf, LinesIn;
    assert KeptAt(jsons, codec, f, g, ENV);
    forall i | 0 <= i < |d.body| ensures EnvKeySet(g, EnvKeyOf(d.body[i])) {
      assert EnvKeySet(f, EnvKeyOf(d.body[i]));
      KeyStays(Lines(Read(f, ENV)), Lines(Read(g, ENV)), EnvKeyOf(d.body[i]));
    }
  }

  lemma {:induction false} FindMatchInPrefix(a: seq<Value>, b: seq<Value>, key: string, value: Option<Value>)
    requires a <= b && FindMatch(a, key, value) != -1
    ensures FindMatch(b, key, value) != -1
  {
    var i := FindMatch(a, key, value);
    assert a[i] == b[i];
  }

  lemma SettledStays(jsons: set<string>, cfg: Config, d: Directive, f: Files, g: Files)
    requires cfg.mode.Install? && Persistent(d.kind) && Plain(jsons, cfg, d)
    requires Settled(cfg, d, f) && Keeps(jsons, cfg.codec, f, g)
    ensures Settled(cfg, d, g)
  {
    hide Trim, Lines, AnyLine, AnySets, DestOf, EnvStatusKeyOf, LinesIn, FindMatch, Unlines, TidyBody;
    match d.kind
    case Copy => assert KeptAt(jsons, cfg.codec, f, g, DestOf(d.body[0]));
    case Append =>
      var to := AttrOr(d, "to", "");
      assert KeptAt(jsons, cfg.codec, f, g, to);
      TidyBodyLine(d.body);
      LineStays(Lines(Read(f, to)), Lines(Read(g, to)), d.body[0]);
    case EnvSet =>
      assert KeptAt(jsons, cfg.codec, f, g, ENV);
      forall i | 0 <= i < |d.body| ensures EnvKeySet(g, EnvStatusKeyOf(d.body[i])) {
        assert EnvKeySet(f, EnvStatusKeyOf(d.body[i]));
        KeyStays(Lines(Read(f, ENV)), Lines(Read(g, ENV)), EnvStatusKeyOf(d.body[i]));
      }
    case JsonMerge =>
      var into, key := d.attrs["into"], d.attrs["key"];
      assert KeptAt(jsons, cfg.codec, f, g, into);
      var value := Member(cfg.codec.parse(Unlines(d.body)).value, key);
      FindMatchInPrefix(ReadJson(cfg.codec, f, into).value.items, ReadJson(cfg.codec, g, into).value.items, key, value);
  }

  lemma TidyBodyLine(body: seq<string>)
    requires TidyBody(body) && body != []
    ensures Trim(body[0]) != "" && TidyLine(body[0])
  {
    assert TidyLine(body[0]);
  }

  // ----- a mutation keeps and settles -----------------------------------------

  lemma SetEnvSets(content: string, key: string, value: string)
    requires IsIdent(key) && GoodValue(value)
    ensures AnySets(Lines(AppendLine(content, key + "=" + value)), key)
  {
    hide AppendLine, Trim, IsIdent, GoodValue, SetsKey;
    var l := key + "=" + value;
    AssignmentSets(key, value);
    AssignmentIsOneLine(key, value);
    SplitOfPiece(l, '\n');
    AppendKeeps(content, l);
    assert l in Lines(l);
    var k :| 0 <= k < |Lines(AppendLine(content, l))| && Lines(AppendLine(content, l))[k] == l;
  }

  lemma AssignmentIsOneLine(key: string, value: string)
    requires IsIdent(key) && GoodValue(value)
    ensures '\n' !in key + "=" + value
  {
    hide Trim;
    var l := key + "=" + value;
    forall i | 0 <= i < |l| ensures l[i] != '\n' {
      if i < |key| { assert l[i] == key[i]; } else if i > |key| { assert l[i] == value[i - |key| - 1]; }
    }
  }

  lemma AssignmentSets(key: string, value: string)
    requires IsIdent(key) && GoodValue(value)
    ensures SetsKey(key + "=" + value, key)
  {
    hide Trim;
    var l := key + "=" + value;
    assert !IsSpace(key[0]);
    assert l[0] == key[0] && SpaceRun(l) == 0;
    IdentRestOfWhole(key, "=" + value);
    assert l == key + ("=" + value);
    assert l[0..] == l && IdentRun(l) == |key|;
    assert l[|key|..] == "=" + value && SpaceRun("=" + value) == 0;
    assert l[..|key|] == key && l[|key| + 1..] == value;
    forall k | |key| < k < |l| ensures !IsLineEnd(l[k]) { assert l[k] == value[k - |key| - 1]; }
  }

  lemma {:induction false} IdentRestOfWhole(key: string, rest: string)
    requires forall i | 0 <= i < |key| :: IsIdentChar(key[i])
    requires rest != "" && !IsIdentChar(rest[0])
    ensures IdentRest(key + rest) == |key|
  {
    if key != "" {
      assert (key + rest)[1..] == key[1..] + rest;
      IdentRestOfWhole(key[1..], rest);
    } else {
      assert key + rest == rest;
    }
  }

  /** What a line settles: an append its line, a key set its key. */
  predicate LineSettled(op: LineOp, l: string, files: Files) {
    match op
    case InsertBefore(to, _) => FileHasLine(files, to, l)
    case AppendTo(to) => FileHasLine(files, to, l)
    case SetEnv => EnvKeySet(files, EnvKeyOf(l))
    case _ => true
  }

  predicate TextOp(jsons: set<string>, op: LineOp) {
    match op
    case InsertBefore(to, _) => to !in jsons
    case AppendTo(to) => to !in jsons
    case SetEnv => ENV !in jsons
    case _ => false
  }

  lemma LineKeeps(jsons: set<string>, cfg: Config, d: Directive, op: LineOp, l: string, st: State)
    requires TextOp(jsons, op) && TidyLine(l) && (op.SetEnv? ==> GoodEnvLine(l, st.vars))
    requires LineStep(cfg, d, op, l, st).exn.None?
    ensures var r := LineStep(cfg, d, op, l, st).st;
      Keeps(jsons, cfg.codec, st.files, r.files) && LineSettled(op, l, r.files) && r.vars == st.vars
  {
    hide Trim, Lines, AppendLine, InsertLine, AnySets, EnvKeyOf, EnvValueOf, Substitute, Keeps, LinesIn, GoodValue;
    match op
    case AppendTo(to) =>
      var content := Read(st.files, to);
      AppendKeeps(content, l);
      TidyIsPiece(l);
      assert l in Lines(AppendLine(content, l));
      KeepsOne(jsons, cfg.codec, st.files, to, AppendLine(content, l));
    case InsertBefore(to, marker) =>
      var content := Read(st.files, to);
      var at := IndexOfMarker(Lines(content), marker);
      InsertKeeps(content, at, l);
      KeepsOne(jsons, cfg.codec, st.files, to, InsertLine(content, at, l));
    case SetEnv =>
      var key := EnvKeyOf(l);
      if EnvKeySet(st.files, key) {
        KeepsSame(jsons, cfg.codec, st.files);
      } else {
        var value := Substitute(EnvValueOf(l), st.vars).value;
        AppendKeeps(Read(st.files, ENV), key + "=" + value);
        SetEnvSets(Read(st.files, ENV), key, value);
        KeepsOne(jsons, cfg.codec, st.files, ENV, AppendLine(Read(st.files, ENV), key + "=" + value));
      }
  }

  lemma LineSettledStays(jsons: set<string>, codec: Codec, op: LineOp, l: string, f: Files, g: Files)
    requires TextOp(jsons, op) && TidyLine(l) && LineSettled(op, l, f) && Keeps(jsons, codec, f, g)
    ensures LineSettled(op, l, g)
  {
    hide Trim, Lines, AnyLine, AnySets, EnvKeyOf, LinesIn;
    var p := if op.SetEnv? then ENV else op.to;
    assert KeptAt(jsons, codec, f, g, p);
    TidyIsPiece(l);
    if op.SetEnv? {
      KeyStays(Lines(Read(f, ENV)), Lines(Read(g, ENV)), EnvKeyOf(l));
    } else {
      TidyTrim(l);
      LineStays(Lines(Read(f, p)), Lines(Read(g, p)), l);
    }
  }

  lemma TidyTrim(l: string)
    requires TidyLine(l)
    ensures Trim(l) != ""
  {
  }

  lemma {:induction false} LinesKeep(jsons: set<string>, cfg: Config, d: Directive, op: LineOp, body: seq<string>,
      st: State)
    requires TextOp(jsons, op) && TidyBody(body) && (op.SetEnv? ==> GoodEnvBody(body, st.vars))
    requires ForLines(cfg, d, op, body, st).exn.None?
    ensures var r := ForLines(cfg, d, op, body, st).st;
      && Keeps(jsons, cfg.codec, st.files, r.files) && r.vars == st.vars
      && forall i | 0 <= i < |body| :: LineSettled(op, body[i], r.files)
  {
    hide LineStep, Keeps, TextOp, TidyLine, LineSettled, GoodEnvLine;
    if body == [] {
      KeepsSame(jsons, cfg.codec, st.files);
    } else {
      LineKeeps(jsons, cfg, d, op, body[0], st);
      var st1 := LineStep(cfg, d, op, body[0], st).st;
      LinesKeep(jsons, cfg, d, op, body[1..], st1);
      var r := ForLines(cfg, d, op, body, st).st;
      KeepsTwice(jsons, cfg.codec, st.files, st1.files, r.files);
      LineSettledStays(jsons, cfg.codec, op, body[0], st1.files, r.files);
      forall i | 0 <= i < |body| ensures LineSettled(op, body[i], r.files) {
        if i > 0 { assert body[i] == body[1..][i - 1]; }
      }
    }
  }

  lemma OneLine(cfg: Config, d: Directive, op: LineOp, body: seq<string>, st: State)
    requires |body| == 1
    ensures ForLines(cfg, d, op, body, st) == LineStep(cfg, d, op, body[0], st)
  {
    hide LineStep, OnlyWork;
    assert body[1..] == [];
  }

  lemma CopyKeeps(jsons: set<string>, cfg: Config, d: Directive, st: State)
    requires d.kind.Copy? && |d.body| == 1 && DestOf(d.body[0]) !in jsons && DestOf(d.body[0]) !in st.files
    requires ApplyCopy(cfg, d, st).exn.None?
    ensures var r := ApplyCopy(cfg, d, st).st;
      Keeps(jsons, cfg.codec, st.files, r.files) && DestOf(d.body[0]) in r.files && r.vars == st.vars
  {
    hide DestOf, SrcOf, Keeps, OnlyWork;
    var l := d.body[0];
    var dest := DestOf(l);
    var op, st1 := CopyFile, st;
    if d.Truthy("from-branch") {
      var branch := d.attrs["from-branch"];
      var remote := cfg.resolveRemote(|st.trace|, branch).value;
      op, st1 := ShowBlob(remote, branch), CallExec(cfg, d, st, "git fetch " + remote + " " + branch).st;
    }
    OneLine(cfg, d, op, d.body, st1);
    var mid := LineStep(cfg, d, op, l, st1).st;
    OneLine(cfg, d, RecordWrote, d.body, mid);
    var r := ApplyCopy(cfg, d, st).st;
    assert dest in r.files && r.files == st.files[dest := r.files[dest]] && r.vars == st.vars;
    assert Lines("") == [""];
    EmptyName();
    KeepsOne(jsons, cfg.codec, st.files, dest, r.files[dest]);
  }

  lemma MergeKeeps(jsons: set<string>, cfg: Config, d: Directive, st: State)
    requires cfg.mode.Install? && Lawful(cfg.codec) && d.kind.JsonMerge? && Plain(jsons, cfg, d)
    requires ApplyMerge(cfg, d, st).exn.None?
    ensures var r := ApplyMerge(cfg, d, st).st;
      Keeps(jsons, cfg.codec, st.files, r.files) && Settled(cfg, d, r.files) && r.vars == st.vars
  {
    hide Lines, Unlines, TidyBody, FindMatch, Keeps, Member, OnlyWork, Lawful, ReadJson;
    var into, key := d.attrs["into"], d.attrs["key"];
    var obj := cfg.codec.parse(Unlines(d.body)).value;
    var items := ReadJson(cfg.codec, st.files, into).value.items;
    if FindMatch(items, key, Member(obj, key)) == -1 {
      PushKeeps(jsons, cfg, st.files, into, key, obj, items, d);
    } else {
      KeepsSame(jsons, cfg.codec, st.files);
    }
  }

  lemma PushKeeps(jsons: set<string>, cfg: Config, files: Files, into: string, key: string, obj: Value,
      items: seq<Value>, d: Directive)
    requires Lawful(cfg.codec) && into in jsons && IsObjectLike(obj) && Comparable(Member(obj, key))
    requires cfg.codec.parse(Unlines(d.body)) == Some(obj) && ReadJson(cfg.codec, files, into) == Some(Arr(items))
    requires FindMatch(items, key, Member(obj, key)) == -1
    ensures var files' := files[into := cfg.codec.show(Arr(items + [obj])) + "\n"];
      && Keeps(jsons, cfg.codec, files, files')
      && ReadJson(cfg.codec, files', into) == Some(Arr(items + [obj]))
      && FindMatch(items + [obj], key, Member(obj, key)) != -1
  {
    hide Lines, Unlines, FindMatch, Keeps, Member;
    ProperPushed(cfg.codec, items, obj);
    var text := cfg.codec.show(Arr(items + [obj])) + "\n";
    assert text != "";
    assert ReadJson(cfg.codec, files[into := text], into) == Some(Arr(items + [obj]));
    FindMatchInPushed(items, key, Member(obj, key), obj);
    KeepsOne(jsons, cfg.codec, files, into, text);
  }

  /** A mutation that went through loses nothing and leaves nothing to do. A persistent one
      is recognised as done, but for key sets whose body has a line without `=`: those are
      recognised exactly when the keys their status asks about happen to be set. */
  lemma MutationSettles(jsons: set<string>, cfg: Config, d: Directive, st: State)
    requires cfg.mode.Install? && Lawful(cfg.codec) && Persistent(d.kind) && Plain(jsons, cfg, d)
    requires SelfStatus(cfg, d, st.files) == Ok(Apply)
    requires d.kind.EnvSet? ==> GoodEnvBody(d.body, st.vars)
    requires ApplyOne(cfg, d, st).exn.None?
    ensures var r := ApplyOne(cfg, d, st).st;
      && Keeps(jsons, cfg.codec, st.files, r.files) && r.vars == st.vars
      && (d.kind.EnvSet? ==> KeysSet(d, r.files))
      && (Settled(cfg, d, r.files) <==> (d.kind.EnvSet? ==> BareLinesSet(d, r.files)))
  {
    hide DestOf, Keeps, ForLines, ApplyMerge, ApplyCopy, TidyBody, GoodEnvBody, EnvKeySet, FileHasLine, EnvKeyOf,
         Unlines, Lawful, OnlyWork;
    match d.kind
    case Copy =>
      CopyKeeps(jsons, cfg, d, st);
    case Append =>
      var to := AttrOr(d, "to", "undefined");
      var op := if d.Truthy("at") then InsertBefore(to, d.attrs["at"]) else AppendTo(to);
      LinesKeep(jsons, cfg, d, op, d.body, st);
      assert LineSettled(op, d.body[0], ForLines(cfg, d, op, d.body, st).st.files);
    case EnvSet =>
      LinesKeep(jsons, cfg, d, SetEnv, d.body, st);
      var r := ForLines(cfg, d, SetEnv, d.body, st).st;
      forall i | 0 <= i < |d.body| ensures EnvKeySet(r.files, EnvKeyOf(d.body[i])) {
        assert LineSettled(SetEnv, d.body[i], r.files);
      }
      KeysDecideStatus(cfg, d, r.files);
    case JsonMerge => MergeKeeps(jsons, cfg, d, st);
  }

  lemma KeysDecideStatus(cfg: Config, d: Directive, files: Files)
    requires d.kind.EnvSet? && KeysSet(d, files)
    ensures Settled(cfg, d, files) <==> BareLinesSet(d, files)
  {
    hide EnvKeySet, EnvKeyOf, Trim;
  }

  /** Such a line: the key `a` is written for `ab`, and the status goes on asking for `ab`. */
  lemma BareLineNeverSettles(cfg: Config, st: State)
    requires ENV !in st.files
    ensures var d := Directive(EnvSet, [], map[], ["ab"], 1); var r := ApplyOne(cfg, d, st);
      && SelfStatus(cfg, d, st.files) == Ok(Apply)
      && r.exn.None? && r.st.files == st.files[ENV := "a=ab\n"]
      && SelfStatus(cfg, d, r.st.files) == Ok(Apply)
  {
    hide AppendLine, EnvKeySet, EnvKeyOf, EnvStatusKeyOf, EnvValueOf, Substitute;
    var d := Directive(EnvSet, [], map[], ["ab"], 1);
    BareLineKeys(st.vars);
    BareLineFiles(st.files);
    var after := LineStep(cfg, d, SetEnv, "ab", st);
    assert after.st.files == st.files[ENV := "a=ab\n"];
    assert d.body[1..] == [];
    assert ApplyOne(cfg, d, st) == ForLines(cfg, d, SetEnv, [], after.st) == Done(after.st, None);
    assert d.body[0] == "ab";
  }

  lemma BareLineKeys(vars: Vars)
    ensures EnvKeyOf("ab") == "a" && EnvStatusKeyOf("ab") == "ab" && Substitute(EnvValueOf("ab"), vars) == Ok("ab")
  {
    assert IndexOf("ab", '=') == -1 by { IndexOfIsFirst("ab", '='); }
    assert "ab"[..1] == "a" && "ab"[0..] == "ab";
    TrimOfTrimmed("a");
    TrimOfTrimmed("ab");
    NoBraceIsItself("ab", vars);
    hide Trim, Substitute;
  }

  lemma BareLineFiles(files: Files)
    requires ENV !in files
    ensures AppendLine(Read(files, ENV), "a" + "=" + "ab") == "a=ab\n"
    ensures forall key :: !EnvKeySet(files, key)
    ensures !EnvKeySet(files[ENV := "a=ab\n"], "ab")
  {
    hide Trim, SetsKey;
    assert Lines("") == [""];
    forall key ensures !SetsKey("", key) { EmptySetsNothing(key); }
    assert "a" + "=" + "ab" == "a=ab" && "" + "a=ab" + "\n" == "a=ab\n";
    var text := "a=ab\n";
    assert text[..|text| - 1] == "a=ab";
    LinesOfTerminated(text);
    SplitOfPiece("a=ab", '\n');
    assert Lines(text) == ["a=ab", ""];
    SetsOnlyA();
  }

  lemma EmptySetsNothing(key: string)
    ensures !SetsKey("", key)
  {
  }

  lemma SetsOnlyA()
    ensures !SetsKey("a=ab", "ab")
  {
    var l := "a=ab";
    assert SpaceRun(l) == 0 && l[0..] == l && l[1..] == "=ab" && IdentRest("=ab") == 0;
    assert IdentRun(l) == 1;
    assert l[0..1] == "a" != "ab";
  }

  // ----- the other mutations leave files alone and repeat themselves ----------

  /** The callbacks answer the same question the same way at any time. */
  ghost predicate Stable(cfg: Config) {
    && (cfg.resolveInput.Some? ==> forall t, v :: cfg.resolveInput.value(t, v) == cfg.resolveInput.value(0, v))
    && (cfg.exec.Some? ==> forall t, c :: cfg.exec.value(t, c) == cfg.exec.value(0, c))
    && (cfg.execStream.Some? ==> forall t, c :: cfg.execStream.value(t, c) == cfg.execStream.value(0, c))
  }

  predicate IsRan(e: Entry) { e.Ran? }

  /** Journal and files afterwards: only `Ran` entries, no file touched. */
  predicate Quiet(st: State, st': State) {
    && st'.files == st.files
    && |st.journal| <= |st'.journal| && st'.journal[..|st.journal|] == st.journal
    && forall i | |st.journal| <= i < |st'.journal| :: IsRan(st'.journal[i])
  }

  lemma QuietTwice(a: State, b: State, c: State)
    requires Quiet(a, b) && Quiet(b, c)
    ensures Quiet(a, c)
  {
    assert c.journal[..|a.journal|] == c.journal[..|b.journal|][..|a.journal|];
    forall i | |a.journal| <= i < |c.journal| ensures IsRan(c.journal[i]) {
      if i < |b.journal| { assert c.journal[i] == c.journal[..|b.journal|][i]; }
    }
  }

  lemma CommandTwins(cfg: Config, d: Directive, op: LineOp, l: string, a: State, b: State)
    requires Stable(cfg) && (op.CheckCmd? || op.RunCmd?) && a.vars == b.vars
    ensures var x := LineStep(cfg, d, op, l, a); var y := LineStep(cfg, d, op, l, b);
      x.exn == y.exn && x.st.vars == y.st.vars
  {
    hide Substitute, BindCapture, OnlyWork;
    var s := Substitute(l, a.vars);
    if s.Ok? && cfg.exec.Some? {
      assert cfg.exec.value(|a.trace|, s.value) == cfg.exec.value(0, s.value) == cfg.exec.value(|b.trace|, s.value);
      hide Stable;
      assert CallExec(cfg, d, a, s.value).out == CallExec(cfg, d, b, s.value).out;
    }
  }

  lemma {:induction false} CommandsTwin(cfg: Config, d: Directive, op: LineOp, body: seq<string>, a: State, b: State)
    requires Stable(cfg) && (op.CheckCmd? || op.RunCmd?) && a.vars == b.vars
    ensures var x := ForLines(cfg, d, op, body, a); var y := ForLines(cfg, d, op, body, b);
      x.exn == y.exn && x.st.vars == y.st.vars
  {
    hide LineStep, Stable, OnlyWork;
    if body != [] {
      CommandTwins(cfg, d, op, body[0], a, b);
      CommandsTwin(cfg, d, op, body[1..], LineStep(cfg, d, op, body[0], a).st, LineStep(cfg, d, op, body[0], b).st);
    }
  }

  lemma QuietSame(a: State)
    ensures Quiet(a, a)
  {
  }

  lemma StepTwins(cfg: Config, d: Directive, a: State, b: State)
    requires Stable(cfg) && a.vars == b.vars
    ensures var x := ApplyStep(cfg, d, a); var y := ApplyStep(cfg, d, b);
      x.exn == y.exn && x.st.vars == y.st.vars
  {
    hide Substitute, BindFields, Unlines, Split, OnlyWork;
    var s := Substitute(Unlines(d.body), a.vars);
    if s.Ok? && cfg.execStream.Some? {
      assert cfg.execStream.value(|a.trace|, s.value) == cfg.execStream.value(0, s.value)
          == cfg.execStream.value(|b.trace|, s.value);
    }
  }

  lemma DepQuiet(cfg: Config, d: Directive, st: State)
    ensures Quiet(st, ApplyDep(cfg, d, st).st) && ApplyDep(cfg, d, st).st.vars == st.vars
  {
    hide DepNames, Join, Split, DepCommand, OnlyWork;
  }

  lemma RunTwins(cfg: Config, d: Directive, a: State, b: State)
    requires Stable(cfg) && d.kind.Run? && a.vars == b.vars
    ensures var x := ApplyOne(cfg, d, a); var y := ApplyOne(cfg, d, b);
      x.exn == y.exn && x.st.vars == y.st.vars
  {
    hide ForLines, ApplyStep, Stable, OnlyWork;
    CommandsTwin(cfg, d, CheckCmd, d.body, a, b);
    CommandsTwin(cfg, d, RunOp(d), d.body, a, b);
    StepTwins(cfg, d, a, b);
  }

  // ----- one directive, first and second time ---------------------------------

  /** The first run, cleanly past this directive, loses nothing and leaves nothing to do. */
  lemma FirstTime(jsons: set<string>, cfg: Config, d: Directive, a: State)
    requires cfg.mode.Install? && Lawful(cfg.codec) && Plain(jsons, cfg, d)
    requires Applies(cfg, d, a) && d.kind.EnvSet? ==> GoodEnvBody(d.body, a.vars)
    requires FullyApplied(Process(cfg, d, a))
    ensures var a' := Process(cfg, d, a);
      && Keeps(jsons, cfg.codec, a.files, a'.files)
      && (Applies(cfg, d, a) && Persistent(d.kind) ==> Accomplished(cfg, d, a'.files) && a'.vars == a.vars)
  {
    hide Process, Plain, Settled, ApplyOne, Keeps, FullyApplied, GoodEnvBody, Lawful;
    CleanProcess(cfg, d, a);
    KeepsSame(jsons, cfg.codec, a.files);
    if Applies(cfg, d, a) {
      var s := Started(cfg, d, a);
      if Persistent(d.kind) {
        MutationSettles(jsons, cfg, d, s);
      } else {
        OtherKindsAreQuiet(cfg, d, s);
      }
    }
  }

  lemma OtherKindsAreQuiet(cfg: Config, d: Directive, st: State)
    requires !Persistent(d.kind)
    ensures Quiet(st, ApplyOne(cfg, d, st).st)
  {
    hide ForLines, ApplyStep, ApplyDep, Quiet, OnlyWork;
    QuietSame(st);
    DepQuiet(cfg, d, st);
    if d.kind.Run? { RunQuiet(cfg, d, st); }
  }

  lemma RunQuiet(cfg: Config, d: Directive, st: State)
    requires d.kind.Run?
    ensures Quiet(st, ApplyOne(cfg, d, st).st)
  {
    hide ForLines, Quiet, Substitute, BindFields, Unlines, Split, OnlyWork;
    LinesQuiet(cfg, d, CheckCmd, d.body, st);
    LinesQuiet(cfg, d, RunOp(d), d.body, st);
    StepQuiet(cfg, d, st);
  }

  lemma StepQuiet(cfg: Config, d: Directive, st: State)
    ensures Quiet(st, ApplyStep(cfg, d, st).st)
  {
    hide Substitute, BindFields, Unlines, Split, OnlyWork;
  }

  lemma {:induction false} LinesQuiet(cfg: Config, d: Directive, op: LineOp, body: seq<string>, st: State)
    requires op.CheckCmd? || op.RunCmd?
    ensures Quiet(st, ForLines(cfg, d, op, body, st).st)
  {
    hide LineStep, Quiet, OnlyWork;
    QuietSame(st);
    if body != [] {
      LineQuiet(cfg, d, op, body[0], st);
      var x := LineStep(cfg, d, op, body[0], st).st;
      LinesQuiet(cfg, d, op, body[1..], x);
      QuietTwice(st, x, ForLines(cfg, d, op, body[1..], x).st);
    }
  }

  lemma LineQuiet(cfg: Config, d: Directive, op: LineOp, l: string, st: State)
    requires op.CheckCmd? || op.RunCmd?
    ensures Quiet(st, LineStep(cfg, d, op, l, st).st)
  {
    hide Substitute, BindCapture, OnlyWork;
  }

  /** The two runs agree on the bindings, and neither is in trouble. */
  predicate Twins(a: State, b: State) {
    a.vars == b.vars && !a.blocked && !b.blocked && FullyApplied(a) && FullyApplied(b)
  }

  lemma PromptTwins(cfg: Config, d: Directive, a: State, b: State)
    requires Stable(cfg) && d.kind.Prompt? && Twins(a, b) && FullyApplied(DoPrompt(cfg, d, a))
    ensures Twins(DoPrompt(cfg, d, a), DoPrompt(cfg, d, b)) && Quiet(b, DoPrompt(cfg, d, b))
  {
    hide NameOf, Catch, BindPrompt, Twins, Quiet;
    TwinsMean(a, b);
    var v := NameOf(d);
    var a1, b1 := a.(trace := a.trace + [Asked(v)]), b.(trace := b.trace + [Asked(v)]);
    TwinsAnyTrace(a, b, a1.trace, b1.trace);
    forall answer | FullyApplied(BindPrompt(cfg, d, a, answer))
      ensures Twins(BindPrompt(cfg, d, a, answer), BindPrompt(cfg, d, b, answer))
      ensures Quiet(b, BindPrompt(cfg, d, b, answer))
    {
      BindTwins(cfg, d, a, b, answer);
    }
    forall answer | FullyApplied(BindPrompt(cfg, d, a1, answer))
      ensures Twins(BindPrompt(cfg, d, a1, answer), BindPrompt(cfg, d, b1, answer))
      ensures Quiet(b, BindPrompt(cfg, d, b1, answer))
    {
      BindTwins(cfg, d, a1, b1, answer);
      QuietTwice(b, b1, BindPrompt(cfg, d, b1, answer));
    }
    forall m ensures !FullyApplied(Catch(cfg, d, a1, false, m)) { CatchIsSeen(cfg, d, a1, false, m); }
  }

  lemma TwinsMean(a: State, b: State)
    requires Twins(a, b)
    ensures FullyApplied(a) && FullyApplied(b)
  {
  }

  lemma TwinsAnyTrace(a: State, b: State, s: seq<Event>, t: seq<Event>)
    requires Twins(a, b)
    ensures Twins(a.(trace := s), b.(trace := t)) && Quiet(b, b.(trace := t))
  {
  }

  lemma BindTwins(cfg: Config, d: Directive, a: State, b: State, answer: string)
    requires Twins(a, b) && FullyApplied(BindPrompt(cfg, d, a, answer))
    ensures Twins(BindPrompt(cfg, d, a, answer), BindPrompt(cfg, d, b, answer))
    ensures Quiet(b, BindPrompt(cfg, d, b, answer))
  {
    hide Normalize, NameOf, Catch;
    forall m ensures !FullyApplied(Catch(cfg, d, a, false, m)) { CatchIsSeen(cfg, d, a, false, m); }
  }

  lemma OperatorTwins(cfg: Config, d: Directive, a: State, b: State)
    requires Obliging(cfg) && d.kind.Operator? && Twins(a, b) && FullyApplied(DoOperator(cfg, d, a))
    ensures Twins(DoOperator(cfg, d, a), DoOperator(cfg, d, b)) && Quiet(b, DoOperator(cfg, d, b))
  {
    hide Substitute, Unlines, Catch;
    forall st1, m ensures !FullyApplied(Catch(cfg, d, st1, false, m)) { CatchIsSeen(cfg, d, st1, false, m); }
  }

  lemma StepAgain(cfg: Config, d: Directive, b: State)
    requires Obliging(cfg)
    requires var m := Mutated(cfg, d, b); m.exn.None? && Quiet(Started(cfg, d, b), m.st)
    ensures var m := Mutated(cfg, d, b); var b' := DoStep(cfg, d, b);
      b'.vars == m.st.vars && Quiet(b, b') && b'.deferred == b.deferred && b'.tasks == b.tasks &&
          b'.blocked == b.blocked
  {
    hide ApplyOne, Catch;
  }

  lemma {:induction false} LinesSubstituted(cfg: Config, d: Directive, body: seq<string>, st: State)
    requires ForLines(cfg, d, SetEnv, body, st).exn.None?
    ensures forall i | 0 <= i < |body| :: Substitute(EnvValueOf(body[i]), st.vars).Ok?
  {
    hide EnvKeySet, EnvKeyOf, EnvValueOf, Substitute, AppendLine, OnlyWork;
    if body != [] {
      LinesSubstituted(cfg, d, body[1..], LineStep(cfg, d, SetEnv, body[0], st).st);
      forall i | 0 <= i < |body| ensures Substitute(EnvValueOf(body[i]), st.vars).Ok? {
        if i > 0 { assert body[i] == body[1..][i - 1]; }
      }
    }
  }

  lemma {:induction false} NothingLeftToSet(cfg: Config, d: Directive, body: seq<string>, st: State)
    requires forall i | 0 <= i < |body| ::
               EnvKeySet(st.files, EnvKeyOf(body[i])) && Substitute(EnvValueOf(body[i]), st.vars).Ok?
    ensures ForLines(cfg, d, SetEnv, body, st) == Done(st, None)
  {
    hide EnvKeySet, EnvKeyOf, EnvValueOf, Substitute, AppendLine, OnlyWork;
    if body != [] {
      assert LineStep(cfg, d, SetEnv, body[0], st) == Done(st, None);
      NothingLeftToSet(cfg, d, body[1..], st);
    }
  }

  /** Keys already set are applied again to no effect. */
  lemma KeysAgain(cfg: Config, d: Directive, a: State, b: State)
    requires Obliging(cfg) && Twins(a, b) && d.kind.EnvSet? && KeysSet(d, b.files)
    requires Applies(cfg, d, a) && Applies(cfg, d, b) && Mutated(cfg, d, a).exn.None?
    ensures Twins(SkipIt(a, d), Process(cfg, d, b)) && Quiet(b, Process(cfg, d, b))
  {
    hide ForLines, DoStep, SelfStatus, Guarded, Obliging, KeysSet, Quiet, OnlyWork, EnvKeySet, EnvKeyOf, EnvValueOf,
         Substitute;
    LinesSubstituted(cfg, d, d.body, Started(cfg, d, a));
    KeysSetMeans(d, b.files);
    NothingLeftToSet(cfg, d, d.body, Started(cfg, d, b));
    QuietSame(Started(cfg, d, b));
    StepAgain(cfg, d, b);
  }

  lemma KeysSetMeans(d: Directive, files: Files)
    requires KeysSet(d, files)
    ensures forall i | 0 <= i < |d.body| :: EnvKeySet(files, EnvKeyOf(d.body[i]))
  {
  }

  /** The second time, on the files the first run ended with. */
  lemma SecondTime(jsons: set<string>, cfg: Config, d: Directive, a: State, b: State)
    requires cfg.mode.Install? && Lawful(cfg.codec) && Stable(cfg) && Obliging(cfg) && Plain(jsons, cfg, d)
    requires Twins(a, b) && FullyApplied(Process(cfg, d, a))
    requires Applies(cfg, d, a) && d.kind.EnvSet? ==> GoodEnvBody(d.body, a.vars)
    requires Keeps(jsons, cfg.codec, Process(cfg, d, a).files, b.files)
    ensures Twins(Process(cfg, d, a), Process(cfg, d, b)) && Quiet(b, Process(cfg, d, b))
  {
    hide SelfStatus, ApplyOne, DoPrompt, DoOperator, DoStep, Catch, Plain, Keeps, Lawful, Stable, Obliging, GoodEnvBody,
         Guarded, OnlyWork;
    CleanProcess(cfg, d, a);
    var a' := Process(cfg, d, a);
    QuietSame(b);
    if Guarded(d, a.vars) {
    } else if d.kind.Prompt? {
      PromptTwins(cfg, d, a, b);
    } else if d.kind.Operator? {
      OperatorTwins(cfg, d, a, b);
    } else if d.kind.Run? && "effect" in d.attrs && d.attrs["effect"] in cfg.skipEffects {
    } else {
      FirstTime(jsons, cfg, d, a);
      forall m ensures !FullyApplied(Catch(cfg, d, a, false, m)) { CatchIsSeen(cfg, d, a, false, m); }
      if Persistent(d.kind) {
        PersistentAgain(jsons, cfg, d, a, b);
      } else if d.kind.Run? {
        RunStatus(cfg, d, a.files);
        RunStatus(cfg, d, b.files);
        RunTwins(cfg, d, Started(cfg, d, a), Started(cfg, d, b));
        RunQuiet(cfg, d, Started(cfg, d, b));
        StepAgain(cfg, d, b);
      } else {
        DepAgain(cfg, d, a, b);
      }
    }
  }

  lemma PersistentAgain(jsons: set<string>, cfg: Config, d: Directive, a: State, b: State)
    requires cfg.mode.Install? && Obliging(cfg) && Plain(jsons, cfg, d) && Persistent(d.kind)
    requires Twins(a, b) && FullyApplied(Process(cfg, d, a)) && !Guarded(d, a.vars)
    requires Keeps(jsons, cfg.codec, Process(cfg, d, a).files, b.files)
    requires Applies(cfg, d, a) ==>
               Accomplished(cfg, d, Process(cfg, d, a).files) && Process(cfg, d, a).vars == a.vars
    ensures Twins(Process(cfg, d, a), Process(cfg, d, b)) && Quiet(b, Process(cfg, d, b))
  {
    hide SelfStatus, ApplyOne, DoStep, Plain, Keeps, Obliging, Guarded, KeysSet, Quiet, Catch, OnlyWork;
    CleanProcess(cfg, d, a);
    QuietLists(b, SkipIt(b, d));
    forall m ensures !FullyApplied(Catch(cfg, d, a, false, m)) { CatchIsSeen(cfg, d, a, false, m); }
    var a' := Process(cfg, d, a);
    if !Applies(cfg, d, a) {
      assert a' == SkipIt(a, d);
      SettledStays(jsons, cfg, d, a.files, b.files);
    } else if Settled(cfg, d, a'.files) {
      SettledStays(jsons, cfg, d, a'.files, b.files);
    } else {
      KeysAreText(jsons, cfg, d);
      KeysStaySet(jsons, cfg.codec, d, a'.files, b.files);
      EnvStatus(cfg, d, b.files);
      if !Settled(cfg, d, b.files) { KeysAgain(cfg, d, a, b); }
    }
  }

  lemma KeysAreText(jsons: set<string>, cfg: Config, d: Directive)
    requires Plain(jsons, cfg, d) && d.kind.EnvSet?
    ensures ENV !in jsons
  {
  }

  lemma EnvStatus(cfg: Config, d: Directive, files: Files)
    requires d.kind.EnvSet?
    ensures SelfStatus(cfg, d, files) == Ok(Apply) || Settled(cfg, d, files)
  {
    hide EnvKeySet, EnvStatusKeyOf;
  }

  lemma RunStatus(cfg: Config, d: Directive, files: Files)
    requires d.kind.Run?
    ensures SelfStatus(cfg, d, files) == Ok(Apply)
  {
  }

  lemma DepAgain(cfg: Config, d: Directive, a: State, b: State)
    requires cfg.mode.Install? && Obliging(cfg) && Twins(a, b) && FullyApplied(Process(cfg, d, a))
    requires !Guarded(d, b.vars) && !Persistent(d.kind) && !d.kind.Run? && !d.kind.Prompt? && !d.kind.Operator?
    ensures Twins(Process(cfg, d, a), Process(cfg, d, b)) && Quiet(b, Process(cfg, d, b))
  {
    hide ApplyDep, DoStep, Guarded, HasDep, Obliging, Quiet, OnlyWork;
    CleanProcess(cfg, d, a);
    QuietSame(b);
    if d.kind.Dep? {
      DepQuiet(cfg, d, Started(cfg, d, a));
      DepQuiet(cfg, d, Started(cfg, d, b));
      DepGoesThrough(cfg, d, Started(cfg, d, b));
      StepAgain(cfg, d, b);
      QuietLists(b, SkipIt(b, d));
    }
  }

  lemma QuietLists(b: State, b': State)
    requires b'.files == b.files && b'.journal == b.journal
    ensures Quiet(b, b')
  {
  }

  // ----- the whole run --------------------------------------------------------

  lemma {:induction false} RunKeeps(jsons: set<string>, cfg: Config, ds: seq<Directive>, a: State)
    requires cfg.mode.Install? && Lawful(cfg.codec)
    requires forall i | 0 <= i < |ds| :: Plain(jsons, cfg, ds[i])
    requires GoodRun(cfg, ds, a) && FullyApplied(RunAll(cfg, ds, a))
    ensures Keeps(jsons, cfg.codec, a.files, RunAll(cfg, ds, a).files)
  {
    hide Process, Plain, Keeps, Applies, Lawful, FullyApplied;
    if ds == [] {
      KeepsSame(jsons, cfg.codec, a.files);
    } else {
      var a' := Process(cfg, ds[0], a);
      CleanRunStartsClean(cfg, ds[1..], a');
      FirstTime(jsons, cfg, ds[0], a);
      PlainRest(jsons, cfg, ds);
      RunKeeps(jsons, cfg, ds[1..], a');
      KeepsTwice(jsons, cfg.codec, a.files, a'.files, RunAll(cfg, ds, a).files);
    }
  }

  lemma PlainRest(jsons: set<string>, cfg: Config, ds: seq<Directive>)
    requires ds != [] && forall i | 0 <= i < |ds| :: Plain(jsons, cfg, ds[i])
    ensures forall i | 0 <= i < |ds[1..]| :: Plain(jsons, cfg, ds[1..][i])
  {
    hide Plain;
    forall i | 0 <= i < |ds[1..]| ensures Plain(jsons, cfg, ds[1..][i]) { assert ds[1..][i] == ds[i + 1]; }
  }

  lemma {:induction false} RunsTwin(jsons: set<string>, cfg: Config, ds: seq<Directive>, a: State, b: State)
    requires cfg.mode.Install? && Lawful(cfg.codec) && Stable(cfg) && Obliging(cfg)
    requires forall i | 0 <= i < |ds| :: Plain(jsons, cfg, ds[i])
    requires GoodRun(cfg, ds, a) && FullyApplied(RunAll(cfg, ds, a))
    requires Twins(a, b) && b.files == RunAll(cfg, ds, a).files
    ensures Twins(RunAll(cfg, ds, a), RunAll(cfg, ds, b)) && Quiet(b, RunAll(cfg, ds, b))
  {
    hide Process, Plain, Keeps, Applies, Lawful, Stable, Obliging, Quiet;
    QuietSame(b);
    if ds != [] {
      var a', b' := Process(cfg, ds[0], a), Process(cfg, ds[0], b);
      CleanRunStartsClean(cfg, ds[1..], a');
      PlainRest(jsons, cfg, ds);
      RunKeeps(jsons, cfg, ds[1..], a');
      SecondTime(jsons, cfg, ds[0], a, b);
      QuietFiles(b, b');
      RunsTwin(jsons, cfg, ds[1..], a', b');
      QuietTwice(b, b', RunAll(cfg, ds[1..], b'));
    }
  }

  lemma QuietFiles(b: State, b': State)
    requires Quiet(b, b')
    ensures b'.files == b.files
  {
  }

  /** Re-apply is a no-op: run again on the files a fully applied install run left, a
      document of single-path copies, appends, proper key sets and merges with
      comparable keys changes no file, journals no copy, append, key set or merge, ends
      with the same bindings, and applies completely again. */
  lemma ReapplyIsANoOp(jsons: set<string>, cfg: Config, ds: seq<Directive>, files: Files)
    requires cfg.mode.Install? && Lawful(cfg.codec) && Stable(cfg) && Obliging(cfg)
    requires forall i | 0 <= i < |ds| :: Plain(jsons, cfg, ds[i])
    requires GoodRun(cfg, ds, Start(files)) && FullyApplied(RunAll(cfg, ds, Start(files)))
    ensures var first := RunAll(cfg, ds, Start(files));
      var second := RunAll(cfg, ds, Start(first.files));
      && second.files == first.files
      && (forall i | 0 <= i < |second.journal| :: second.journal[i].Ran?)
      && second.vars == first.vars
      && FullyApplied(second)
  {
    hide Plain, RunAll, Lawful, Stable, Obliging, GoodRun;
    var first := RunAll(cfg, ds, Start(files));
    RunsTwin(jsons, cfg, ds, Start(files), Start(first.files));
    var second := RunAll(cfg, ds, Start(first.files));
    forall i | 0 <= i < |second.journal| ensures second.journal[i].Ran? { assert IsRan(second.journal[i]); }
  }
}
