/** Undo inverts apply, for whole runs. */
module SkillUndoRuns {
  import opened Text
  import opened Json
  import opened Templates
  import opened SkillDirectives
  import opened SkillApply
  import opened SkillFacts
  import opened SkillUndo

  /** The two file systems hold the same at one path: for a JSON target the same
      value, for any other file the same text; an absent file is an empty one. */
  predicate SameAt(jsons: set<string>, codec: Codec, f: Files, g: Files, path: string) {
    if path in jsons then ReadJson(codec, f, path) == ReadJson(codec, g, path)
    else Read(f, path) == Read(g, path)
  }

  ghost predicate Same(jsons: set<string>, codec: Codec, f: Files, g: Files) {
    forall p: string :: SameAt(jsons, codec, f, g, p)
  }

  /** The entry names a file of the sort it treats it as. */
  predicate Fits(jsons: set<string>, e: Entry) {
    match e
    case Wrote(path) => path !in jsons
    case Appended(path, _) => path !in jsons
    case SetKey(_) => ENV !in jsons
    case Merged(path, _, _, _) => path in jsons
    case Ran(_, _) => true
  }

  predicate AllFit(jsons: set<string>, es: seq<Entry>) {
    forall i | 0 <= i < |es| :: Fits(jsons, es[i])
  }

  lemma UndoEntryRespectsSame(jsons: set<string>, codec: Codec, e: Entry, f: Files, g: Files)
    requires Same(jsons, codec, f, g) && Fits(jsons, e)
    ensures UndoEntry(codec, e, f).Ok? == UndoEntry(codec, e, g).Ok?
    ensures UndoEntry(codec, e, f).Ok? ==>
              Same(jsons, codec, UndoEntry(codec, e, f).value, UndoEntry(codec, e, g).value)
  {
    hide UndoEntry, Same, SameAt;
    match e
    case Wrote(path) => UndoFileRespectsSame(jsons, codec, e, path, f, g);
    case Appended(path, _) => UndoFileRespectsSame(jsons, codec, e, path, f, g);
    case SetKey(_) => UndoFileRespectsSame(jsons, codec, e, ENV, f, g);
    case Merged(_, _, _, _) => UndoMergeRespectsSame(jsons, codec, e, f, g);
    case Ran(_, _) => RanChangesNothing(codec, e, f); RanChangesNothing(codec, e, g);
  }

  lemma RanChangesNothing(codec: Codec, e: Entry, f: Files)
    requires e.Ran?
    ensures UndoEntry(codec, e, f) == Ok(f)
  {
  }

  lemma SameButOne(jsons: set<string>, codec: Codec, f: Files, g: Files, f': Files, g': Files, path: string)
    requires Same(jsons, codec, f, g) && SameAt(jsons, codec, f', g', path)
    requires forall p | p != path :: Read(f', p) == Read(f, p) && Read(g', p) == Read(g, p)
    ensures Same(jsons, codec, f', g')
  {
    forall p ensures SameAt(jsons, codec, f', g', p) { assert SameAt(jsons, codec, f, g, p); }
  }

  lemma UndoFileRespectsSame(jsons: set<string>, codec: Codec, e: Entry, path: string, f: Files, g: Files)
    requires Same(jsons, codec, f, g) && Fits(jsons, e) && path !in jsons
    requires (e.Wrote? && e.path == path) || (e.Appended? && e.path == path) || (e.SetKey? && path == ENV)
    ensures UndoEntry(codec, e, f).Ok? && UndoEntry(codec, e, g).Ok?
    ensures Same(jsons, codec, UndoEntry(codec, e, f).value, UndoEntry(codec, e, g).value)
  {
    hide DropLines, DropKey, Lines, Unlines, ReadJson;
    assert SameAt(jsons, codec, f, g, path);
    var f', g' := UndoEntry(codec, e, f).value, UndoEntry(codec, e, g).value;
    SameButOne(jsons, codec, f, g, f', g', path);
  }

  lemma UndoMergeRespectsSame(jsons: set<string>, codec: Codec, e: Entry, f: Files, g: Files)
    requires Same(jsons, codec, f, g) && Fits(jsons, e) && e.Merged?
    ensures UndoEntry(codec, e, f).Ok? == UndoEntry(codec, e, g).Ok?
    ensures UndoEntry(codec, e, f).Ok? ==>
              Same(jsons, codec, UndoEntry(codec, e, f).value, UndoEntry(codec, e, g).value)
  {
    hide UndoneText, UndoEntry, ReadJson;
    UndoMergeIs(codec, e, f);
    UndoMergeIs(codec, e, g);
    assert SameAt(jsons, codec, f, g, e.path);
    var v := ReadJson(codec, f, e.path);
    if v.Some? && v.value.Arr? {
      var text := UndoneText(codec, e, v.value.items);
      OneWriteRespectsSame(jsons, codec, f, g, e.path, text);
    }
  }

  /** What a merge's undoing writes over an array. */
  function UndoneText(codec: Codec, e: Entry, items: seq<Value>): string
    requires e.Merged?
  {
    var at := FindMatch(items, e.key, e.value);
    var left := if at == -1 then items
                else if e.previous.Some? then items[at := e.previous.value]
                else items[..at] + items[at + 1..];
    codec.show(Arr(left)) + "\n"
  }

  lemma UndoMergeIs(codec: Codec, e: Entry, files: Files)
    requires e.Merged?
    ensures UndoEntry(codec, e, files) ==
            match ReadJson(codec, files, e.path)
            case None => Throw("Unexpected token in JSON")
            case Some(v) => Ok(if v.Arr? then files[e.path := UndoneText(codec, e, v.items)] else files)
  {
    hide FindMatch, ReadJson;
  }

  lemma OneWriteRespectsSame(jsons: set<string>, codec: Codec, f: Files, g: Files, path: string, text: string)
    requires Same(jsons, codec, f, g)
    ensures Same(jsons, codec, f[path := text], g[path := text])
  {
    var f', g' := f[path := text], g[path := text];
    forall p ensures SameAt(jsons, codec, f', g', p) { assert SameAt(jsons, codec, f, g, p); }
  }

  lemma {:induction false} UndoRespectsSame(jsons: set<string>, codec: Codec, es: seq<Entry>, f: Files, g: Files)
    requires Same(jsons, codec, f, g) && AllFit(jsons, es)
    ensures Undo(codec, es, f).Ok? == Undo(codec, es, g).Ok?
    ensures Undo(codec, es, f).Ok? ==> Same(jsons, codec, Undo(codec, es, f).value, Undo(codec, es, g).value)
    decreases |es|
  {
    hide UndoEntry, Same, Fits;
    if es != [] {
      var last := es[|es| - 1];
      UndoEntryRespectsSame(jsons, codec, last, f, g);
      if UndoEntry(codec, last, f).Ok? {
        UndoRespectsSame(jsons, codec, es[..|es| - 1], UndoEntry(codec, last, f).value,
            UndoEntry(codec, last, g).value);
      }
    }
  }

  /** Undoing two stretches of journal is undoing the later one, then the earlier. */
  lemma {:induction false} UndoSplit(codec: Codec, a: seq<Entry>, b: seq<Entry>, f: Files)
    ensures Undo(codec, a + b, f) ==
      match Undo(codec, b, f) case Throw(m) => Throw(m) case Ok(g) => Undo(codec, a, g)
    decreases |b|
  {
    hide UndoEntry;
    if b == [] {
      assert a + b == a;
    } else {
      var last := b[|b| - 1];
      assert (a + b)[..|a + b| - 1] == a + b[..|b| - 1];
      if UndoEntry(codec, last, f).Ok? {
        UndoSplit(codec, a, b[..|b| - 1], UndoEntry(codec, last, f).value);
      }
    }
  }

  /** From `st` to `st'` the journal grew by entries whose undoing, from the files of
      `st'`, gives the files of `st`. */
  ghost predicate Restores(jsons: set<string>, codec: Codec, st: State, st': State) {
    && |st.journal| <= |st'.journal| && st'.journal[..|st.journal|] == st.journal
    && var es := st'.journal[|st.journal|..];
      && AllFit(jsons, es)
      && Undo(codec, es, st'.files).Ok?
      && Same(jsons, codec, Undo(codec, es, st'.files).value, st.files)
  }

  lemma RestoresNothing(jsons: set<string>, codec: Codec, st: State, st': State)
    requires st'.files == st.files && st'.journal == st.journal
    ensures Restores(jsons, codec, st, st')
  {
    assert st'.journal[|st.journal|..] == [];
  }

  lemma RestoresTwice(jsons: set<string>, codec: Codec, a: State, b: State, c: State)
    requires Restores(jsons, codec, a, b) && Restores(jsons, codec, b, c)
    ensures Restores(jsons, codec, a, c)
  {
    hide Undo, Fits, SameAt;
    var e1 := b.journal[|a.journal|..];
    var e2 := c.journal[|b.journal|..];
    assert c.journal[|a.journal|..] == e1 + e2 by { assert c.journal == b.journal + e2; }
    UndoSplit(codec, e1, e2, c.files);
    var mid := Undo(codec, e2, c.files).value;
    UndoRespectsSame(jsons, codec, e1, mid, b.files);
    var end := Undo(codec, e1, mid).value;
    forall p ensures SameAt(jsons, codec, end, a.files, p) {
      assert SameAt(jsons, codec, end, Undo(codec, e1, b.files).value, p);
      assert SameAt(jsons, codec, Undo(codec, e1, b.files).value, a.files, p);
      SameAtTwice(jsons, codec, end, Undo(codec, e1, b.files).value, a.files, p);
    }
  }

  lemma SameAtTwice(jsons: set<string>, codec: Codec, f: Files, g: Files, h: Files, p: string)
    requires SameAt(jsons, codec, f, g, p) && SameAt(jsons, codec, g, h, p)
    ensures SameAt(jsons, codec, f, h, p)
  {
  }

  /** One journaled change of one file whose undoing gives that file back. */
  lemma RestoresEntry(jsons: set<string>, codec: Codec, st: State, st': State, e: Entry, path: string)
    requires st'.journal == st.journal + [e] && Fits(jsons, e)
    requires UndoEntry(codec, e, st'.files).Ok?
    requires var f := UndoEntry(codec, e, st'.files).value;
      && SameAt(jsons, codec, f, st.files, path)
      && forall p | p != path :: Read(f, p) == Read(st.files, p)
    ensures Restores(jsons, codec, st, st')
  {
    hide UndoEntry;
    var es := st'.journal[|st.journal|..];
    assert es == [e] && [e][..0] == [];
    var f := UndoEntry(codec, e, st'.files).value;
    assert Undo(codec, [e], st'.files) == Undo(codec, [], f) == Ok(f);
    assert st'.journal[..|st.journal|] == st.journal;
    forall p ensures SameAt(jsons, codec, f, st.files, p) {
      if p != path { assert Read(f, p) == Read(st.files, p); }
    }
  }

  // ----- freshness ------------------------------------------------------------

  /** What a line must find for its change to be taken back exactly. */
  predicate FreshLine(jsons: set<string>, op: LineOp, l: string, st: State) {
    match op
    case InsertBefore(to, _) => to !in jsons && !FileHasLine(st.files, to, l)
    case AppendTo(to) => to !in jsons && Terminated(Read(st.files, to)) && !FileHasLine(st.files, to, l)
    case SetEnv =>
      EnvKeySet(st.files, EnvKeyOf(l)) ||
      (&& ENV !in jsons && Terminated(Read(st.files, ENV))
       && !AnyAssigns(Lines(Read(st.files, ENV)), EnvKeyOf(l))
       && var v := Substitute(EnvValueOf(l), st.vars); v.Ok? ==> '\n' !in v.value)
    case _ => true
  }

  predicate FreshLines(jsons: set<string>, cfg: Config, d: Directive, op: LineOp, body: seq<string>, st: State) {
    body == [] ||
    (&& FreshLine(jsons, op, body[0], st)
     && FreshLines(jsons, cfg, d, op, body[1..], LineStep(cfg, d, op, body[0], st).st))
  }

  function AppendOp(d: Directive): LineOp {
    var to := AttrOr(d, "to", "undefined");
    if d.Truthy("at") then InsertBefore(to, d.attrs["at"]) else AppendTo(to)
  }

  /** A copy's destinations hold nothing yet; appended lines and set keys are new to
      their files; a merged object's key is something `===` can find again. */
  predicate FreshDirective(jsons: set<string>, cfg: Config, d: Directive, st: State) {
    match d.kind
    case Copy => forall i | 0 <= i < |d.body| ::
        DestOf(d.body[i]) !in jsons && Read(st.files, DestOf(d.body[i])) == ""
    case Append => FreshLines(jsons, cfg, d, AppendOp(d), d.body, st)
    case EnvSet => FreshLines(jsons, cfg, d, SetEnv, d.body, st)
    case JsonMerge =>
      && AttrOr(d, "into", "undefined") in jsons
      && var obj := cfg.codec.parse(Unlines(d.body));
         obj.Some? ==> IsObjectLike(obj.value) && Comparable(Member(obj.value, AttrOr(d, "key", "undefined")))
    case _ => true
  }

  predicate FreshRun(jsons: set<string>, cfg: Config, ds: seq<Directive>, st: State) {
    ds == [] ||
    (&& (Applies(cfg, ds[0], st) ==> FreshDirective(jsons, cfg, ds[0], Started(cfg, ds[0], st)))
     && FreshRun(jsons, cfg, ds[1..], Process(cfg, ds[0], st)))
  }

  // ----- each directive -------------------------------------------------------

  lemma AppendToRestores(jsons: set<string>, cfg: Config, d: Directive, to: string, l: string, st: State)
    requires TidyLine(l) && FreshLine(jsons, AppendTo(to), l, st)
    ensures Restores(jsons, cfg.codec, st, LineStep(cfg, d, AppendTo(to), l, st).st)
  {
    hide Restores, TidyLine, AppendLine, DropLines, Terminated, Lines, Unlines, AnyLine, FileHasLine;
    FileHasLineMeans(st.files, to, l);
    UndoAppendExactly(Read(st.files, to), l);
    RestoresEntry(jsons, cfg.codec, st, LineStep(cfg, d, AppendTo(to), l, st).st, Appended(to, l), to);
  }

  lemma InsertRestores(
      jsons: set<string>, cfg: Config, d: Directive, to: string, marker: string, l: string, st: State)
    requires TidyLine(l) && FreshLine(jsons, InsertBefore(to, marker), l, st)
    requires LineStep(cfg, d, InsertBefore(to, marker), l, st).exn.None?
    ensures Restores(jsons, cfg.codec, st, LineStep(cfg, d, InsertBefore(to, marker), l, st).st)
  {
    hide Restores, TidyLine, InsertLine, DropLines, Lines, Unlines, AnyLine, FileHasLine, IndexOfMarker;
    FileHasLineMeans(st.files, to, l);
    UndoInsertExactly(Read(st.files, to), IndexOfMarker(Lines(Read(st.files, to)), marker), l);
    RestoresEntry(
      jsons, cfg.codec, st, LineStep(cfg, d, InsertBefore(to, marker), l, st).st, Appended(to, l), to);
  }

  lemma SetEnvRestores(jsons: set<string>, cfg: Config, d: Directive, l: string, st: State)
    requires TidyLine(l) && FreshLine(jsons, SetEnv, l, st)
    requires LineStep(cfg, d, SetEnv, l, st).exn.None?
    ensures Restores(jsons, cfg.codec, st, LineStep(cfg, d, SetEnv, l, st).st)
  {
    hide Restores, TidyLine, EnvKeySet, AppendLine, DropKey, Terminated, AnyAssigns, AllAssign, Substitute,
         EnvKeyOf, EnvValueOf, Lines, Unlines;
    var st' := LineStep(cfg, d, SetEnv, l, st).st;
    var key := EnvKeyOf(l);
    if EnvKeySet(st.files, key) {
      RestoresNothing(jsons, cfg.codec, st, st');
    } else {
      var value := Substitute(EnvValueOf(l), st.vars).value;
      UndoSetKeyExactly(Read(st.files, ENV), key, value);
      EnvKeyOfTidy(l);
      SingleLineAssigns(key, value);
      RestoresEntry(jsons, cfg.codec, st, st', SetKey(key), ENV);
    }
  }

  lemma CommandRestores(jsons: set<string>, cfg: Config, d: Directive, op: LineOp, l: string, st: State)
    requires op.CheckCmd? || op.RunCmd?
    requires LineStep(cfg, d, op, l, st).exn.None?
    ensures Restores(jsons, cfg.codec, st, LineStep(cfg, d, op, l, st).st)
  {
    hide Restores, Substitute, BindCapture;
    var st' := LineStep(cfg, d, op, l, st).st;
    if op.CheckCmd? {
      RestoresNothing(jsons, cfg.codec, st, st');
    } else {
      RestoresEntry(jsons, cfg.codec, st, st', Ran(l, op.undo), "");
    }
  }

  lemma LineStepRestores(jsons: set<string>, cfg: Config, d: Directive, op: LineOp, l: string, st: State)
    requires op.InsertBefore? || op.AppendTo? || op.SetEnv? || op.CheckCmd? || op.RunCmd?
    requires TidyLine(l) && FreshLine(jsons, op, l, st)
    requires LineStep(cfg, d, op, l, st).exn.None?
    ensures Restores(jsons, cfg.codec, st, LineStep(cfg, d, op, l, st).st)
  {
    hide Restores, TidyLine, FreshLine, LineStep;
    match op
    case AppendTo(to) => AppendToRestores(jsons, cfg, d, to, l, st);
    case InsertBefore(to, marker) => InsertRestores(jsons, cfg, d, to, marker, l, st);
    case SetEnv => SetEnvRestores(jsons, cfg, d, l, st);
    case _ => CommandRestores(jsons, cfg, d, op, l, st);
  }

  lemma FileHasLineMeans(files: Files, path: string, l: string)
    ensures FileHasLine(files, path, l) == AnyLine(Lines(Read(files, path)), l)
  {
  }

  lemma EnvKeyOfTidy(l: string)
    requires TidyLine(l)
    ensures '\n' !in EnvKeyOf(l)
  {
    TrimSubset(SliceTo(l, IndexOf(l, '=')));
  }

  lemma {:induction false} ForLinesRestores(jsons: set<string>, cfg: Config, d: Directive, op: LineOp,
      body: seq<string>, st: State)
    requires op.InsertBefore? || op.AppendTo? || op.SetEnv? || op.CheckCmd? || op.RunCmd?
    requires TidyBody(body) && FreshLines(jsons, cfg, d, op, body, st)
    requires ForLines(cfg, d, op, body, st).exn.None?
    ensures Restores(jsons, cfg.codec, st, ForLines(cfg, d, op, body, st).st)
  {
    hide LineStep, Restores, FreshLine, TidyLine;
    if body == [] {
      RestoresNothing(jsons, cfg.codec, st, st);
    } else {
      LineStepRestores(jsons, cfg, d, op, body[0], st);
      var st1 := LineStep(cfg, d, op, body[0], st).st;
      ForLinesRestores(jsons, cfg, d, op, body[1..], st1);
      RestoresTwice(jsons, cfg.codec, st, st1, ForLines(cfg, d, op, body, st).st);
    }
  }

  lemma {:induction false} NothingIsFresh(jsons: set<string>, cfg: Config, d: Directive, op: LineOp, body: seq<string>,
      st: State)
    requires op.CheckCmd? || op.RunCmd?
    ensures FreshLines(jsons, cfg, d, op, body, st)
  {
    hide LineStep;
    if body != [] { NothingIsFresh(jsons, cfg, d, op, body[1..], LineStep(cfg, d, op, body[0], st).st); }
  }

  // A copy: the files first, the journal entries after them.

  predicate Dests(body: seq<string>, path: string) {
    exists i | 0 <= i < |body| :: DestOf(body[i]) == path
  }

  lemma {:induction false} CopyTouchesDests(cfg: Config, d: Directive, op: LineOp, body: seq<string>, st: State,
      path: string)
    requires op.CopyFile? || op.ShowBlob?
    requires !Dests(body, path)
    ensures var st' := ForLines(cfg, d, op, body, st).st;
      Read(st'.files, path) == Read(st.files, path) && st'.journal == st.journal
  {
    hide DestOf, SrcOf;
    if body != [] {
      assert DestOf(body[0]) != path;
      assert !Dests(body[1..], path) by {
        forall i | 0 <= i < |body[1..]| ensures DestOf(body[1..][i]) != path { assert body[1..][i] == body[i + 1]; }
      }
      CopyTouchesDests(cfg, d, op, body[1..], LineStep(cfg, d, op, body[0], st).st, path);
    }
  }

  lemma {:induction false} CopyJournalsLater(cfg: Config, d: Directive, op: LineOp, body: seq<string>, st: State)
    requires op.CopyFile? || op.ShowBlob?
    ensures ForLines(cfg, d, op, body, st).st.journal == st.journal
  {
    hide DestOf, SrcOf;
    if body != [] { CopyJournalsLater(cfg, d, op, body[1..], LineStep(cfg, d, op, body[0], st).st); }
  }

  function WroteEntries(body: seq<string>): seq<Entry> {
    seq(|body|, i requires 0 <= i < |body| => Wrote(DestOf(body[i])))
  }

  lemma {:induction false} RecordsWrote(cfg: Config, d: Directive, body: seq<string>, st: State)
    ensures ForLines(cfg, d, RecordWrote, body, st)
         == Done(st.(journal := st.journal + WroteEntries(body)), None)
  {
    hide DestOf;
    if body == [] {
      assert st.journal + [] == st.journal;
    } else {
      RecordsWrote(cfg, d, body[1..], st.(journal := st.journal + [Wrote(DestOf(body[0]))]));
      assert WroteEntries(body) == [Wrote(DestOf(body[0]))] + WroteEntries(body[1..]);
    }
  }

  lemma {:induction false} UndoWrote(codec: Codec, body: seq<string>, f: Files)
    ensures var u := Undo(codec, WroteEntries(body), f);
      u.Ok? && forall p :: Read(u.value, p) == if Dests(body, p) then "" else Read(f, p)
    decreases |body|
  {
    hide DestOf;
    if body != [] {
      var n := |body| - 1;
      var last := DestOf(body[n]);
      assert WroteEntries(body)[n] == Wrote(last);
      assert WroteEntries(body)[..n] == WroteEntries(body[..n]);
      UndoWrote(codec, body[..n], f - {last});
      forall p ensures Dests(body, p) == (p == last || Dests(body[..n], p)) {
        if Dests(body[..n], p) {
          var i :| 0 <= i < n && DestOf(body[..n][i]) == p;
          assert DestOf(body[i]) == p;
        }
        if Dests(body, p) && p != last {
          var i :| 0 <= i < |body| && DestOf(body[i]) == p;
          assert body[..n][i] == body[i];
        }
      }
    }
  }

  lemma CopyRestores(jsons: set<string>, cfg: Config, d: Directive, st: State)
    requires d.kind.Copy? && FreshDirective(jsons, cfg, d, st)
    requires ApplyCopy(cfg, d, st).exn.None?
    ensures Restores(jsons, cfg.codec, st, ApplyCopy(cfg, d, st).st)
  {
    hide ForLines, Undo, DestOf, WroteEntries;
    var op, st1 := CopyFile, st;
    if d.Truthy("from-branch") {
      var branch := d.attrs["from-branch"];
      var remote := cfg.resolveRemote(|st.trace|, branch).value;
      op, st1 := ShowBlob(remote, branch), CallExec(cfg, d, st, "git fetch " + remote + " " + branch).st;
    }
    var mid := ForLines(cfg, d, op, d.body, st1).st;
    CopyJournalsLater(cfg, d, op, d.body, st1);
    RecordsWrote(cfg, d, d.body, mid);
    var st' := ApplyCopy(cfg, d, st).st;
    var es := WroteEntries(d.body);
    assert st'.journal == st.journal + es && st'.files == mid.files;
    assert st'.journal[|st.journal|..] == es && st'.journal[..|st.journal|] == st.journal;
    UndoWrote(cfg.codec, d.body, mid.files);
    var f := Undo(cfg.codec, es, mid.files).value;
    forall p ensures SameAt(jsons, cfg.codec, f, st.files, p) {
      if !Dests(d.body, p) { CopyTouchesDests(cfg, d, op, d.body, st1, p); }
      assert Read(f, p) == Read(st.files, p);
    }
    WroteEntriesFit(jsons, d.body);
  }

  lemma WroteEntriesFit(jsons: set<string>, body: seq<string>)
    requires forall i | 0 <= i < |body| :: DestOf(body[i]) !in jsons
    ensures AllFit(jsons, WroteEntries(body))
  {
    hide DestOf;
  }

  /** A printed value is read back. */
  lemma ReadBack(codec: Codec, files: Files, path: string, v: Value)
    requires Lawful(codec) && Proper(codec, v)
    ensures ReadJson(codec, files[path := codec.show(v) + "\n"], path) == Some(v)
  {
    assert codec.show(v) + "\n" != "";
  }

  lemma ReadIsProper(codec: Codec, files: Files, path: string)
    requires Lawful(codec) && ReadJson(codec, files, path).Some?
    ensures Proper(codec, ReadJson(codec, files, path).value)
  {
  }

  lemma ParsedIsProper(codec: Codec, s: string)
    requires Lawful(codec) && codec.parse(s).Some?
    ensures Proper(codec, codec.parse(s).value)
  {
  }

  lemma PushRestores(jsons: set<string>, cfg: Config, st: State, into: string, key: string, obj: Value,
      items: seq<Value>)
    requires Lawful(cfg.codec) && Proper(cfg.codec, obj) && into in jsons
    requires ReadJson(cfg.codec, st.files, into) == Some(Arr(items))
    requires IsObjectLike(obj) && Comparable(Member(obj, key)) && FindMatch(items, key, Member(obj, key)) == -1
    ensures Restores(jsons, cfg.codec, st,
              st.(files := st.files[into := cfg.codec.show(Arr(items + [obj])) + "\n"],
                  journal := st.journal + [Merged(into, key, Member(obj, key), None)]))
  {
    hide Restores, FindMatch, Lawful, ReadJson, Member, Comparable, IsObjectLike;
    var pushed := items + [obj];
    var files := st.files[into := cfg.codec.show(Arr(pushed)) + "\n"];
    var e := Merged(into, key, Member(obj, key), None);
    ReadIsProper(cfg.codec, st.files, into);
    ProperPushed(cfg.codec, items, obj);
    ReadBack(cfg.codec, st.files, into, Arr(pushed));
    UndoPushExactly(items, obj, key);
    ReadBack(cfg.codec, files, into, Arr(items));
    assert UndoEntry(cfg.codec, e, files) == Ok(files[into := cfg.codec.show(Arr(items)) + "\n"]);
    RestoresEntry(jsons, cfg.codec, st, st.(files := files, journal := st.journal + [e]), e, into);
  }

  lemma MergeRestores(jsons: set<string>, cfg: Config, d: Directive, st: State)
    requires cfg.mode.Install? && Lawful(cfg.codec)
    requires d.kind.JsonMerge? && FreshDirective(jsons, cfg, d, st)
    requires ApplyMerge(cfg, d, st).exn.None?
    ensures Restores(jsons, cfg.codec, st, ApplyMerge(cfg, d, st).st)
  {
    hide Restores, FindMatch, Lawful, ReadJson, Member, Comparable, IsObjectLike, Unlines;
    var into := AttrOr(d, "into", "undefined");
    var key := AttrOr(d, "key", "undefined");
    var obj := cfg.codec.parse(Unlines(d.body)).value;
    var items := ReadJson(cfg.codec, st.files, into).value.items;
    if FindMatch(items, key, Member(obj, key)) == -1 {
      ParsedIsProper(cfg.codec, Unlines(d.body));
      PushRestores(jsons, cfg, st, into, key, obj, items);
    } else {
      RestoresNothing(jsons, cfg.codec, st, ApplyMerge(cfg, d, st).st);
    }
  }

  lemma ApplyOneRestores(jsons: set<string>, cfg: Config, d: Directive, st: State)
    requires cfg.mode.Install? && Lawful(cfg.codec)
    requires TidyBody(d.body) && FreshDirective(jsons, cfg, d, st)
    requires ApplyOne(cfg, d, st).exn.None?
    ensures Restores(jsons, cfg.codec, st, ApplyOne(cfg, d, st).st)
  {
    hide Restores, ForLines, FreshLines, ApplyCopy, ApplyMerge, TidyBody, Substitute, BindFields, Lawful, Unlines;
    match d.kind
    case Copy => CopyRestores(jsons, cfg, d, st);
    case Append => ForLinesRestores(jsons, cfg, d, AppendOp(d), d.body, st);
    case EnvSet => ForLinesRestores(jsons, cfg, d, SetEnv, d.body, st);
    case JsonMerge => MergeRestores(jsons, cfg, d, st);
    case Dep =>
      var st' := ApplyOne(cfg, d, st).st;
      RestoresEntry(jsons, cfg.codec, st, st', st'.journal[|st.journal|], "");
    case Run =>
      if d.Is("effect", "check") {
        NothingIsFresh(jsons, cfg, d, CheckCmd, d.body, st);
        ForLinesRestores(jsons, cfg, d, CheckCmd, d.body, st);
      } else if d.Is("effect", "step") {
        RestoresEntry(jsons, cfg.codec, st, ApplyOne(cfg, d, st).st, Ran(Unlines(d.body), None), "");
      } else {
        NothingIsFresh(jsons, cfg, d, RunOp(d), d.body, st);
        ForLinesRestores(jsons, cfg, d, RunOp(d), d.body, st);
      }
    case _ =>
  }

  lemma {:induction false} RunRestores(jsons: set<string>, cfg: Config, ds: seq<Directive>, st: State)
    requires cfg.mode.Install? && Lawful(cfg.codec)
    requires Tidy(ds) && FreshRun(jsons, cfg, ds, st)
    requires FullyApplied(RunAll(cfg, ds, st))
    ensures Restores(jsons, cfg.codec, st, RunAll(cfg, ds, st))
  {
    hide Restores, Process, Applies, FreshDirective, TidyBody, Lawful, ApplyOne;
    if ds == [] {
      RestoresNothing(jsons, cfg.codec, st, st);
    } else {
      var d, st1 := ds[0], Process(cfg, ds[0], st);
      CleanRunStartsClean(cfg, ds[1..], st1);
      CleanProcess(cfg, d, st);
      if Applies(cfg, d, st) {
        var s := Started(cfg, d, st);
        ApplyOneRestores(jsons, cfg, d, s);
        RestoresSameFiles(jsons, cfg.codec, s, ApplyOne(cfg, d, s).st, st, st1);
      } else {
        RestoresNothing(jsons, cfg.codec, st, st1);
      }
      RunRestores(jsons, cfg, ds[1..], st1);
      RestoresTwice(jsons, cfg.codec, st, st1, RunAll(cfg, ds, st));
    }
  }

  /** Only files and journal matter. */
  lemma RestoresSameFiles(jsons: set<string>, codec: Codec, a: State, b: State, a': State, b': State)
    requires Restores(jsons, codec, a, b)
    requires a.files == a'.files && a.journal == a'.journal && b.files == b'.files && b.journal == b'.journal
    ensures Restores(jsons, codec, a', b')
  {
  }

  /** Undo inverts apply: after an install run that applied completely and whose
      changes were fresh, removing by the journal gives every file back. */
  lemma UndoInvertsApply(jsons: set<string>, cfg: Config, markdown: string, files: Files)
    requires cfg.mode.Install? && Lawful(cfg.codec)
    requires FullyApplied(ApplySkill(cfg, markdown, files))
    requires FreshRun(jsons, cfg, Parse(markdown), Start(files))
    ensures var end := ApplySkill(cfg, markdown, files);
      var removed := Undo(cfg.codec, end.journal, end.files);
      removed.Ok? && Same(jsons, cfg.codec, removed.value, files)
  {
    hide FreshRun, RunAll, Parse, Tidy;
    ParseIsWellFormed(markdown);
    RunRestores(jsons, cfg, Parse(markdown), Start(files));
    var end := ApplySkill(cfg, markdown, files);
    assert end.journal[0..] == end.journal;
  }

  /** The recorded undo commands, in journal order. */
  function UndoCommands(journal: seq<Entry>): seq<string> {
    if journal == [] then []
    else
      var e := journal[0];
      (if e.Ran? && e.undo.Some? && e.undo.value != "" then [e.undo.value] else []) + UndoCommands(journal[1..])
  }

  function Backwards(s: seq<string>): seq<string> {
    seq(|s|, i requires 0 <= i < |s| => s[|s| - 1 - i])
  }

  lemma {:induction false} OneMoreCommand(journal: seq<Entry>, e: Entry)
    ensures UndoCommands(journal + [e]) == UndoCommands(journal) + UndoCommands([e])
  {
    if journal == [] {
      assert [] + [e] == [e];
    } else {
      assert (journal + [e])[1..] == journal[1..] + [e];
      OneMoreCommand(journal[1..], e);
    }
  }

  /** Entry n of the journal, counted from 1, has an undo command that throws. */
  ghost predicate CommandThrows(exec: Option<Shell>, journal: seq<Entry>, n: nat, m: string) {
    && 0 < n <= |journal| && exec.Some?
    && exists cmd, undo :: journal[n - 1] == Ran(cmd, Some(undo)) && undo != "" && exec.value(n, undo) == Throw(m)
  }

  /** The removal undid the entries after the n-th and stopped there: at the front, at a
      merged file that does not parse, or at an undo command that throws. */
  ghost predicate StopsAt(codec: Codec, exec: Option<Shell>, journal: seq<Entry>, files: Files, n: nat, failed: bool) {
    var r := RemoveBy(codec, exec, journal, files);
    && n <= |journal| && (failed ==> n > 0)
    && Undo(codec, journal[n..], files) == Ok(r.files)
    && (r.exn.None? <==> n == 0)
    && (n > 0 ==> if failed then CommandThrows(exec, journal, n, r.exn.value)
                  else UndoEntry(codec, journal[n - 1], r.files) == Throw(r.exn.value))
  }

  /** No undo command after the n-th entry threw. */
  ghost predicate NoneThrew(exec: Option<Shell>, journal: seq<Entry>, n: nat) {
    forall k: nat, m | n < k <= |journal| :: !CommandThrows(exec, journal, k, m)
  }

  /** The recorded commands from the n-th entry's on were called, last first. */
  ghost predicate CalledFrom(codec: Codec, exec: Option<Shell>, journal: seq<Entry>, files: Files, n: nat)
    requires n <= |journal|
  {
    RemoveBy(codec, exec, journal, files).calls ==
    if exec.None? then [] else Backwards(UndoCommands(journal[n..]))
  }

  /** A removal, whatever its undo commands do, undoes exactly the entries after some
      point of the journal and leaves the rest: it comes to the front without throwing, or
      throws at the entry before that point, because a merged file does not parse or the
      undo command throws. With an exec it calls the recorded undo commands of those
      entries, last first, and of the entry whose command throws; without one, none. */
  lemma {:induction false} RemovalUndoesASuffix(codec: Codec, exec: Option<Shell>, journal: seq<Entry>, files: Files)
    returns (n: nat, failed: bool)
    ensures n <= |journal| && (failed ==> n > 0)
    ensures StopsAt(codec, exec, journal, files, n, failed)
    ensures NoneThrew(exec, journal, n)
    ensures CalledFrom(codec, exec, journal, files, if failed then n - 1 else n)
    decreases |journal|
  {
    hide UndoEntry, Backwards, UndoCommands, UndoCalls, CommandThrows, RemoveBy, StopsAt, NoneThrew, CalledFrom;
    if journal == [] {
      n, failed := 0, false;
      AtTheFront(codec, exec, files);
    } else {
      LastEntry(codec, exec, journal, files);
      var last := |journal| - 1;
      if UndoEntry(codec, journal[last], files).Throw? {
        n, failed := |journal|, false;
        StopsAtLast(codec, exec, journal, files, failed);
      } else if exists m :: CommandThrows(exec, journal, |journal|, m) {
        n, failed := |journal|, true;
        StopsAtLast(codec, exec, journal, files, failed);
      } else {
        var f := UndoEntry(codec, journal[last], files).value;
        n, failed := RemovalUndoesASuffix(codec, exec, journal[..last], f);
        StopsEarlier(codec, exec, journal, files, f, n, failed);
        CalledEarlier(codec, exec, journal, files, f, if failed then n - 1 else n);
      }
    }
  }

  lemma AtTheFront(codec: Codec, exec: Option<Shell>, files: Files)
    ensures StopsAt(codec, exec, [], files, 0, false) && NoneThrew(exec, [], 0) && CalledFrom(codec, exec, [], files, 0)
  {
    var none: seq<Entry> := [];
    assert none[0..] == [];
    NoCommands();
  }

  lemma StopsAtLast(codec: Codec, exec: Option<Shell>, journal: seq<Entry>, files: Files, failed: bool)
    requires journal != []
    requires var n := |journal|; var e := journal[n - 1]; var r := RemoveBy(codec, exec, journal, files);
      r.files == files && r.exn.Some? &&
      if failed then CommandThrows(exec, journal, n, r.exn.value) && r.calls == UndoCalls(exec, e)
      else UndoEntry(codec, e, files) == Throw(r.exn.value) && r.calls == []
    ensures StopsAt(codec, exec, journal, files, |journal|, failed) && NoneThrew(exec, journal, |journal|)
    ensures CalledFrom(codec, exec, journal, files, if failed then |journal| - 1 else |journal|)
  {
    hide UndoEntry, Backwards, UndoCommands, UndoCalls, CommandThrows, RemoveBy;
    var n := |journal|;
    assert journal[n..] == [] && journal[n - 1..] == [journal[n - 1]];
    NoCommands();
    OneCommand(exec, journal[n - 1]);
  }

  lemma StopsEarlier(codec: Codec, exec: Option<Shell>, journal: seq<Entry>, files: Files, f: Files, n: nat,
      failed: bool)
    requires journal != [] && UndoEntry(codec, journal[|journal| - 1], files) == Ok(f)
    requires forall m :: !CommandThrows(exec, journal, |journal|, m)
    requires var rest := RemoveBy(codec, exec, journal[..|journal| - 1], f);
      var r := RemoveBy(codec, exec, journal, files); r.files == rest.files && r.exn == rest.exn
    requires StopsAt(codec, exec, journal[..|journal| - 1], f, n, failed)
    requires NoneThrew(exec, journal[..|journal| - 1], n)
    ensures StopsAt(codec, exec, journal, files, n, failed) && NoneThrew(exec, journal, n)
  {
    hide UndoEntry, RemoveBy, CommandThrows;
    var last := |journal| - 1;
    assert journal[n..][..|journal[n..]| - 1] == journal[..last][n..];
    assert journal[n..][|journal[n..]| - 1] == journal[last];
    forall k: nat, m | k <= last
      ensures CommandThrows(exec, journal[..last], k, m) <==> CommandThrows(exec, journal, k, m)
    {
      ShorterJournal(exec, journal, last, k, m);
    }
  }

  lemma CalledEarlier(codec: Codec, exec: Option<Shell>, journal: seq<Entry>, files: Files, f: Files, from: nat)
    requires journal != [] && from <= |journal| - 1
    requires var rest := RemoveBy(codec, exec, journal[..|journal| - 1], f);
      RemoveBy(codec, exec, journal, files).calls == UndoCalls(exec, journal[|journal| - 1]) + rest.calls
    requires CalledFrom(codec, exec, journal[..|journal| - 1], f, from)
    ensures CalledFrom(codec, exec, journal, files, from)
  {
    hide UndoCalls, UndoCommands, Backwards, RemoveBy;
    var last := |journal| - 1;
    var e := journal[last];
    assert journal[from..] == journal[..last][from..] + [e];
    OneMoreCommand(journal[..last][from..], e);
    OneCommand(exec, e);
    BackwardsOfOneMore(UndoCommands(journal[..last][from..]), UndoCommands([e]));
  }

  lemma ShorterJournal(exec: Option<Shell>, journal: seq<Entry>, last: nat, k: nat, m: string)
    requires k <= last < |journal|
    ensures CommandThrows(exec, journal[..last], k, m) <==> CommandThrows(exec, journal, k, m)
  {
  }

  lemma NoCommands()
    ensures UndoCommands([]) == [] && Backwards([]) == []
  {
  }

  lemma OneCommand(exec: Option<Shell>, e: Entry)
    ensures |UndoCommands([e])| <= 1 && Backwards(UndoCommands([e])) == UndoCommands([e])
    ensures UndoCalls(exec, e) == if exec.None? then [] else UndoCommands([e])
  {
    assert [e][1..] == [];
  }

  lemma BackwardsOfOneMore(s: seq<string>, t: seq<string>)
    requires |t| <= 1
    ensures Backwards(s + t) == t + Backwards(s)
  {
    if t == [] { assert s + t == s; }
  }

  /** What happens at the last entry of a journal. */
  lemma LastEntry(codec: Codec, exec: Option<Shell>, journal: seq<Entry>, files: Files)
    requires journal != []
    ensures var n := |journal|; var e := journal[n - 1]; var r := RemoveBy(codec, exec, journal, files);
      match UndoEntry(codec, e, files)
      case Throw(m) => r == Removal(files, Some(m), [])
      case Ok(f) =>
        if exists m :: CommandThrows(exec, journal, n, m)
        then f == files && r.files == files && r.exn.Some? && CommandThrows(exec, journal, n, r.exn.value)
             && r.calls == UndoCalls(exec, e)
        else var rest := RemoveBy(codec, exec, journal[..n - 1], f);
             r == rest.(calls := UndoCalls(exec, e) + rest.calls)
  {
    var n := |journal|;
    var e := journal[n - 1];
    if e.Ran? { assert UndoEntry(codec, e, files) == Ok(files); }
    if UndoCalls(exec, e) != [] {
      var out := exec.value(n, e.undo.value);
      assert forall m :: CommandThrows(exec, journal, n, m) ==> out == Throw(m);
      if out.Throw? { assert e == Ran(e.cmd, Some(e.undo.value)) && CommandThrows(exec, journal, n, out.message); }
    }
  }

  predicate Quiet(exec: Option<Shell>, journal: seq<Entry>) {
    exec.Some? ==> forall i | 0 <= i < |journal| && journal[i].Ran? && journal[i].undo.Some? ::
      exec.value(i + 1, journal[i].undo.value).Ok?
  }

  /** With no undo command throwing, the removal is the journal undone. */
  lemma QuietRemovalUndoesAll(codec: Codec, exec: Option<Shell>, journal: seq<Entry>, files: Files)
    requires Quiet(exec, journal)
    ensures match Undo(codec, journal, files)
      case Ok(f) => RemoveBy(codec, exec, journal, files).(calls := []) == Removal(f, None, [])
      case Throw(m) => RemoveBy(codec, exec, journal, files).exn == Some(m)
    decreases |journal|
  {
    hide UndoEntry;
    if journal != [] {
      var last := |journal| - 1;
      var f := UndoEntry(codec, journal[last], files);
      if f.Ok? { QuietRemovalUndoesAll(codec, exec, journal[..last], f.value); }
    }
  }

  /** Journal and files are those a complete install of fresh changes left. */
  ghost predicate Installed(jsons: set<string>, cfg: Config, markdown: string, before: Files, journal: seq<Entry>,
      files: Files)
  {
    var end := ApplySkill(cfg, markdown, before);
    && cfg.mode.Install? && Lawful(cfg.codec) && FullyApplied(end)
    && FreshRun(jsons, cfg, Parse(markdown), Start(before))
    && journal == end.journal && files == end.files
  }

  /** Removing what was installed gives every file back. */
  lemma RemovalRestores(jsons: set<string>, cfg: Config, markdown: string, before: Files, journal: seq<Entry>,
      files: Files, exec: Option<Shell>)
    requires Installed(jsons, cfg, markdown, before, journal, files) && Quiet(exec, journal)
    ensures var r := RemoveBy(cfg.codec, exec, journal, files);
      r.exn.None? && Same(jsons, cfg.codec, r.files, before)
  {
    hide Undo, ApplySkill, Parse, FreshRun, Lawful, FullyApplied, RemoveBy, Quiet, Same;
    UndoInvertsApply(jsons, cfg, markdown, before);
    QuietRemovalUndoesAll(cfg.codec, exec, journal, files);
  }

  /** For a one-line append, a one-path copy and a merge the idempotency check is the
      freshness check: the directive is applied rather than skipped only if its line,
      path or key is new, and what is left to ask is the shape of the target. */
  lemma StatusGuaranteesFreshness(jsons: set<string>, cfg: Config, d: Directive, st: State)
    requires cfg.mode.Install? && SelfStatus(cfg, d, st.files) == Ok(Apply)
    ensures d.kind.Append? && |d.body| == 1 ==>
      (FreshDirective(jsons, cfg, d, st) <==>
        (AttrOr(d, "to", "") !in jsons && (d.Truthy("at") || Terminated(Read(st.files, AttrOr(d, "to", ""))))))
    ensures d.kind.Copy? && |d.body| == 1 ==>
      (FreshDirective(jsons, cfg, d, st) <==> DestOf(d.body[0]) !in jsons)
    ensures d.kind.JsonMerge? && "into" in d.attrs && "key" in d.attrs && ApplyMerge(cfg, d, st).exn.None? ==>
      var obj, into, key := cfg.codec.parse(Unlines(d.body)).value, d.attrs["into"], d.attrs["key"];
      && FindMatch(ReadJson(cfg.codec, st.files, into).value.items, key, Member(obj, key)) == -1
      && (FreshDirective(jsons, cfg, d, st) <==> into in jsons && IsObjectLike(obj) && Comparable(Member(obj, key)))
  {
    hide DestOf, FileHasLine, Terminated, FindMatch, LineStep;
    if d.kind.Append? && |d.body| == 1 {
      assert d.body[1..] == [];
      assert FreshLines(jsons, cfg, d, AppendOp(d), d.body, st) == FreshLine(jsons, AppendOp(d), d.body[0], st);
    }
  }
}
