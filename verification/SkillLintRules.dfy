/** The linter's rules one by one, each said of the directive it is about, and the proof
    that the linter reports exactly the broken ones. */
module SkillLintRules {
  import opened Text
  import opened Json
  import opened Templates
  import opened SkillDirectives
  import opened SkillApply
  import opened SkillLint
  import opened SkillPolicy
  import R = SkillRendering

  // ----- names a document refers to and binds ---------------------------------

  /** The text holds a reference to the name: `{{name}}`, with blanks inside or not. */
  ghost predicate Mentions(s: string, name: string) {
    exists a: string, hole: R.Piece, b: string ::
      s == a + R.Written(hole) + b && hole.Hole? && R.GoodPiece(hole) && hole.name == name
  }

  predicate PartAt(spec: string, pre: string, part: string, post: string, c: char) {
    spec == pre + part + post && (pre == "" || pre[|pre| - 1] == c) && (post == "" || post[0] == c)
  }

  /** `part` stands between two separators, or between one and an end. */
  ghost predicate IsPart(spec: string, part: string, c: char) {
    c !in part && exists pre: string, post: string :: PartAt(spec, pre, part, post, c)
  }

  /** What a part of a capture binds: the name before its first `=`; without one, the
      part but for its last character. */
  ghost predicate PartBinds(part: string, name: string) {
    && name != ""
    && if '=' in part
       then exists v: string, x: string :: part == v + "=" + x && '=' !in v && name == Trim(v)
       else part != "" && name == Trim(part[..|part| - 1])
  }

  /** The name is the first argument that is not the flag `secret`. */
  predicate NamedAt(args: seq<string>, k: nat, name: string) {
    k < |args| && args[k] == name != "secret" && forall j | 0 <= j < k :: args[j] == "secret"
  }

  ghost predicate Binds(d: Directive, name: string) {
    match d.kind
    case Prompt => exists k: nat :: NamedAt(d.args, k, name)
    case Run =>
      "capture" in d.attrs &&
      var spec := d.attrs["capture"];
      if '=' in spec then exists part :: IsPart(spec, part, ',') && PartBinds(part, name) else name == spec
    case _ => false
  }

  ghost predicate BoundAbove(ds: seq<Directive>, i: nat, name: string)
    requires i <= |ds|
  {
    exists j | 0 <= j < i :: Binds(ds[j], name)
  }

  // ----- the rules ------------------------------------------------------------

  /** A dependency is a name and a version set off by its last `@`; one in front is part
      of the name. */
  predicate IsSpec(spec: string, name: string, version: string) {
    || (spec == name + "@" + version && name != "" && '@' !in version)
    || (spec == name && version == "" && forall k | 0 < k < |spec| :: spec[k] != '@')
  }

  ghost predicate Inexact(env: LintEnv, spec: string) {
    exists name, version :: IsSpec(spec, name, version) && !env.exactSemver(version)
  }

  /** An adapter of the chat family whose version is not that of the chat core. */
  ghost predicate Mismatched(env: LintEnv, spec: string) {
    env.chatVersion.Some? && env.chatVersion.value != "" &&
    exists name, version ::
      IsSpec(spec, name, version) && "@chat-adapter/" <= name && version != env.chatVersion.value
  }

  predicate Missing(d: Directive, name: string) {
    name !in d.attrs || d.attrs[name] == ""
  }

  ghost predicate MergeBreaks(env: LintEnv, d: Directive, rule: Rule) {
    d.kind.JsonMerge? &&
    match rule
    case NoInto => Missing(d, "into")
    case NoKey => Missing(d, "key")
    case NoObject => d.body == []
    case BadObject => d.body != [] && env.parse(Unlines(d.body)) == None
    case NotAnObject => d.body != [] && exists v :: env.parse(Unlines(d.body)) == Some(v) && !v.Obj?
    case NoKeyField =>
      d.body != [] && "key" in d.attrs &&
      exists fields :: env.parse(Unlines(d.body)) == Some(Obj(fields)) && d.attrs["key"] !in fields
    case _ => false
  }

  predicate PromptBreaks(env: LintEnv, d: Directive, rule: Rule) {
    d.kind.Prompt? &&
    match rule
    case NoVariable => forall k | 0 <= k < |d.args| :: d.args[k] == "secret"
    case NoQuestion => d.body == []
    case BadRegex =>
      if "validate" in d.attrs
      then env.compiles(d.attrs["validate"], if "flags" in d.attrs then d.attrs["flags"] else "") != None
      else "flags" in d.attrs && env.compiles("", d.attrs["flags"]) != None
    case BadNormalize => "normalize" in d.attrs && d.attrs["normalize"] !in {"trim", "rstrip-slash", "lower"}
    case BadReuse => "reuse" in d.attrs && !IsIdent(d.attrs["reuse"])
    case RemovedAttr(name) => (name == "min" || name == "error") && name in d.attrs
    case _ => false
  }

  /** The rules for the kinds. */
  ghost predicate KindBreaks(env: LintEnv, d: Directive, rule: Rule) {
    || MergeBreaks(env, d, rule)
    || PromptBreaks(env, d, rule)
    || match rule
       case RetiredKind => d.kind == Other("env-sync")
       case UnknownKind => d.kind.Other? && d.kind.name != "env-sync"
       case InexactVersion => d.kind.Dep? && exists k | 0 <= k < |d.body| :: Inexact(env, d.body[k])
       case CoreMismatch => d.kind.Dep? && exists k | 0 <= k < |d.body| :: Mismatched(env, d.body[k])
       case NoTarget => d.kind.Append? && Missing(d, "to")
       case NoLine => d.kind.Append? && d.body == []
       case NoPath => d.kind.Copy? && d.body == []
       case NoInstructions => d.kind.Operator? && d.body == []
       case RemovedAttr(name) =>
         d.kind.Operator? && (
         || (name in {"open", "gate"} && name in d.attrs)
         || (name == "gate" && "gate" in d.args))
       case _ => false
  }

  /** The i-th directive of the document breaks the rule. */
  ghost predicate Breaks(env: LintEnv, ds: seq<Directive>, i: nat, rule: Rule)
    requires i < |ds|
  {
    var d := ds[i];
    || KindBreaks(env, d, rule)
    || match rule
       case RemovedAttr(name) => name in {"label", "on-fail"} && name in d.attrs
       case BadRegex => d.kind.Run? && "validate" in d.attrs && env.compiles(d.attrs["validate"], "") != None
       case UndefinedRef(name) => !BoundAbove(ds, i, name) && exists k | 0 <= k < |d.body| :: Mentions(d.body[k], name)
       case MalformedGuard => "when" in d.attrs && !exists v, x :: GuardReads(d, v, x)
       case UndefinedGuard(name) => !BoundAbove(ds, i, name) && exists v, x :: GuardReads(d, v, x) && name == Trim(v)
       case _ => false
  }

  // ----- references -----------------------------------------------------------

  /** No reference begins inside another. */
  lemma NoneInside(s: string, k: nat)
    requires RefAt(s).Ref? && 0 < k < RefAt(s).len
    ensures RefAt(s[k..]).NoRef?
  {
    hide RefAt, IsSpace, IsIdentChar, IsIdentStart;
    var p := R.FoundHole(s);
    R.RefIsHole(s);
    InnerIsPlain(p);
    var w := R.Written(p);
    assert s[..|w|] == w;
    assert if k + 1 < |w| then s[k + 1] == w[k + 1] != '{' else s[k] == w[k] != '{';
    NoRefWithoutBraces(s[k..]);
  }

  lemma NoRefWithoutBraces(s: string)
    requires |s| < 2 || s[0] != '{' || s[1] != '{'
    ensures RefAt(s).NoRef?
  {
  }

  lemma InnerIsPlain(p: R.Piece)
    requires p.Hole? && R.GoodPiece(p)
    ensures var w := R.Written(p); forall k | 2 <= k < |w| :: w[k] != '{'
  {
    var w := R.Written(p);
    var inner := p.before + p.name + p.after;
    forall k | 0 <= k < |inner| ensures inner[k] != '{' {
      if k < |p.before| { assert IsSpace(p.before[k]); }
      else if k < |p.before| + |p.name| { assert IsIdentChar(p.name[k - |p.before|]); }
      else { assert IsSpace(p.after[k - |p.before| - |p.name|]); }
    }
    assert w == "{{" + inner + "}}";
  }

  lemma FoundIsMentioned(s: string, name: string)
    requires name in Refs(s)
    ensures Mentions(s, name)
  {
    hide Refs, R.GoodPiece, R.Written, RefAt;
    var k := RefIsSomewhere(s, name);
    var hole := R.FoundHole(s[k..]);
    R.RefIsHole(s[k..]);
    var w := R.Written(hole);
    assert s == s[..k] + w + s[k + |w|..];
  }

  lemma MentionedIsFound(s: string, name: string)
    requires Mentions(s, name)
    ensures name in Refs(s)
  {
    hide Refs, R.GoodPiece, R.Written, RefAt;
    var a, hole, b :| s == a + R.Written(hole) + b && hole.Hole? && R.GoodPiece(hole) && hole.name == name;
    R.HoleIsFound(hole, b);
    assert s[|a|..] == R.Written(hole) + b;
    SomewhereIsFound(s, |a|);
  }

  /** The references found in a text are the names it mentions. */
  lemma RefsAreMentioned(s: string, name: string)
    ensures name in Refs(s) <==> Mentions(s, name)
  {
    hide Refs, Mentions;
    if name in Refs(s) { FoundIsMentioned(s, name); }
    if Mentions(s, name) { MentionedIsFound(s, name); }
  }

  lemma {:induction false} RefIsSomewhere(s: string, name: string) returns (k: nat)
    requires name in Refs(s)
    ensures k <= |s| && RefAt(s[k..]).Ref? && RefAt(s[k..]).name == name
    decreases |s|
  {
    hide RefAt;
    assert s[0..] == s;
    match RefAt(s)
    case NoRef =>
      k := RefIsSomewhere(s[1..], name);
      assert s[1..][k..] == s[k + 1..];
      k := k + 1;
    case Ref(first, len) =>
      if name == first {
        k := 0;
      } else {
        k := RefIsSomewhere(s[len..], name);
        assert s[len..][k..] == s[k + len..];
        k := k + len;
      }
  }

  lemma {:induction false} SomewhereIsFound(s: string, k: nat)
    requires k <= |s| && RefAt(s[k..]).Ref?
    ensures RefAt(s[k..]).name in Refs(s)
    decreases |s|
  {
    hide RefAt;
    assert s[0..] == s;
    match RefAt(s)
    case NoRef =>
      if k > 0 {
        assert s[1..][k - 1..] == s[k..];
        SomewhereIsFound(s[1..], k - 1);
      }
    case Ref(_, len) =>
      if 0 < k < len {
        NoneInside(s, k);
      } else if k > 0 {
        assert s[len..][k - len..] == s[k..];
        SomewhereIsFound(s[len..], k - len);
      }
  }

  lemma {:induction false} LineRefsAreMentioned(body: seq<string>, name: string)
    ensures name in LineRefs(body) <==> exists k | 0 <= k < |body| :: Mentions(body[k], name)
  {
    hide Refs, Mentions;
    if body != [] {
      RefsAreMentioned(body[0], name);
      LineRefsAreMentioned(body[1..], name);
      assert forall k | 0 <= k < |body| - 1 :: body[1..][k] == body[k + 1];
      if exists k | 0 <= k < |body| - 1 :: Mentions(body[1..][k], name) {
        var k :| 0 <= k < |body| - 1 && Mentions(body[1..][k], name);
        assert Mentions(body[k + 1], name);
      }
    }
  }

  // ----- bindings -------------------------------------------------------------

  lemma {:induction false} PartsAreSplit(spec: string, part: string, c: char)
    ensures part in Split(spec, c) <==> IsPart(spec, part, c)
  {
    if part in Split(spec, c) {
      var k :| 0 <= k < |Split(spec, c)| && Split(spec, c)[k] == part;
      SplitIsPart(spec, k, c);
    }
    if IsPart(spec, part, c) {
      var pre: string, post: string :| PartAt(spec, pre, part, post, c);
      PartIsSplit(pre, part, post, c);
    }
  }

  lemma {:induction false} SplitIsPart(spec: string, k: nat, c: char)
    requires k < |Split(spec, c)|
    ensures IsPart(spec, Split(spec, c)[k], c)
    decreases k
  {
    hide Split, Join, IsPart;
    PiecesAreFree(spec, c);
    SplitStarts(spec, c);
    var parts := Split(spec, c);
    if k == 0 {
      FirstIsPart(spec, parts[0], if |parts| == 1 then "" else [c] + Join(parts[1..], c), c);
    } else {
      var rest := Join(parts[1..], c);
      SplitOfJoin(parts[1..], c);
      assert Split(rest, c) == parts[1..] && parts[1..][k - 1] == parts[k];
      SplitIsPart(rest, k - 1, c);
      LaterIsPart(parts[0], rest, parts[k], c);
    }
  }

  lemma SplitStarts(spec: string, c: char)
    ensures var parts := Split(spec, c);
      spec == parts[0] + if |parts| == 1 then "" else [c] + Join(parts[1..], c)
  {
    hide Split;
    JoinOfSplit(spec, c);
  }

  lemma FirstIsPart(spec: string, part: string, post: string, c: char)
    requires c !in part && spec == part + post && (post == "" || post[0] == c)
    ensures IsPart(spec, part, c)
  {
    assert "" + part == part;
    assert PartAt(spec, "", part, post, c);
  }

  lemma LaterIsPart(first: string, rest: string, part: string, c: char)
    requires IsPart(rest, part, c)
    ensures IsPart(first + ([c] + rest), part, c)
  {
    var pre: string, post: string :| PartAt(rest, pre, part, post, c);
    var pre' := first + [c] + pre;
    assert pre'[|pre'| - 1] == c;
    assert first + ([c] + (pre + part + post)) == pre' + part + post;
    assert PartAt(first + ([c] + rest), pre', part, post, c);
  }

  lemma PartIsSplit(pre: string, part: string, post: string, c: char)
    requires c !in part && (pre == "" || pre[|pre| - 1] == c) && (post == "" || post[0] == c)
    ensures part in Split(pre + part + post, c)
  {
    hide Split;
    FirstIsSplit(part, post, c);
    var s := part + post;
    assert pre + part + post == pre + s;
    if pre == "" {
      assert pre + s == s;
    } else {
      assert pre + s == pre[..|pre| - 1] + [c] + s;
      SplitAtSeparator(pre[..|pre| - 1], s, c);
    }
  }

  lemma FirstIsSplit(part: string, post: string, c: char)
    requires c !in part && (post == "" || post[0] == c)
    ensures part in Split(part + post, c)
  {
    hide Split;
    SplitOfPiece(part, c);
    if post == "" {
      assert part + post == part;
    } else {
      assert part + post == part + [c] + post[1..];
      SplitAtSeparator(part, post[1..], c);
    }
  }

  lemma PartBindsIs(part: string, name: string)
    ensures PartBinds(part, name) <==> name != "" && name == Trim(SliceTo(part, IndexOf(part, '=')))
  {
    hide Trim;
    var eq := IndexOf(part, '=');
    IndexOfIsFirst(part, '=');
    if eq == -1 {
      NothingToTrim();
    } else {
      assert part == part[..eq] + "=" + part[eq + 1..];
      if PartBinds(part, name) {
        var v, x :| part == v + "=" + x && '=' !in v && name == Trim(v);
        FirstEquals(part, v, x);
      }
    }
  }

  lemma NothingToTrim()
    ensures Trim("") == ""
  {
  }

  lemma {:induction false} PairNamesAreBound(pairs: seq<string>, name: string)
    ensures name in PairNames(pairs) <==> exists part | part in pairs :: PartBinds(part, name)
  {
    hide Trim, PartBinds, SliceTo, IndexOf;
    if pairs != [] {
      PairNamesAreBound(pairs[1..], name);
      PartBindsIs(pairs[0], name);
      assert pairs == [pairs[0]] + pairs[1..];
    }
  }

  lemma NamedLater(args: seq<string>, k: nat, name: string)
    requires args != [] && args[0] == "secret"
    ensures NamedAt(args[1..], k, name) <==> NamedAt(args, k + 1, name)
  {
    assert forall j | 0 <= j < |args| - 1 :: args[1..][j] == args[j + 1];
  }

  lemma {:induction false} PromptVarIs(args: seq<string>, name: string)
    ensures PromptVar(args) == Some(name) <==> exists k: nat :: NamedAt(args, k, name)
    ensures PromptVar(args) == None <==> forall k | 0 <= k < |args| :: args[k] == "secret"
  {
    if args != [] {
      if args[0] != "secret" {
        FirstIsName(args, name);
      } else {
        PromptVarIs(args[1..], name);
        forall k: nat ensures NamedAt(args[1..], k, name) <==> NamedAt(args, k + 1, name) { NamedLater(args, k, name); }
        assert forall k: nat :: NamedAt(args, k, name) ==> k > 0 && NamedAt(args[1..], k - 1, name);
        assert args == [args[0]] + args[1..];
      }
    }
  }

  lemma FirstIsName(args: seq<string>, name: string)
    requires args != [] && args[0] != "secret"
    ensures args[0] == name <==> exists k: nat :: NamedAt(args, k, name)
  {
    if args[0] == name { assert NamedAt(args, 0, name); }
    forall k: nat | NamedAt(args, k, name) ensures k == 0 {}
  }

  /** The names a directive defines are those it binds. */
  lemma DefinesAreBound(d: Directive, name: string)
    ensures name in Defines(d) <==> Binds(d, name)
  {
    hide PromptVar, PairNames, IsPart, PartBinds, Split;
    if d.kind.Prompt? {
      PromptVarIs(d.args, name);
    } else if d.kind.Run? && "capture" in d.attrs {
      var spec := d.attrs["capture"];
      if '=' in spec {
        PairNamesAreBound(Split(spec, ','), name);
        forall part ensures part in Split(spec, ',') <==> IsPart(spec, part, ',') { PartsAreSplit(spec, part, ','); }
      }
    }
  }

  lemma {:induction false} DefinedAreBound(ds: seq<Directive>, i: nat, name: string)
    requires i <= |ds|
    ensures name in DefinedBy(ds[..i]) <==> BoundAbove(ds, i, name)
  {
    hide Defines, Binds;
    if i > 0 {
      DefinedAreBound(ds, i - 1, name);
      DefinesAreBound(ds[i - 1], name);
      DefinedByLast(ds[..i - 1], ds[i - 1]);
      assert ds[..i] == ds[..i - 1] + [ds[i - 1]];
    }
  }

  lemma {:induction false} DefinedByLast(ds: seq<Directive>, d: Directive)
    ensures DefinedBy(ds + [d]) == DefinedBy(ds) + Defines(d)
  {
    hide Defines;
    if ds == [] {
      assert ds + [d] == [d] && [d][1..] == [];
    } else {
      assert (ds + [d])[1..] == ds[1..] + [d];
      DefinedByLast(ds[1..], d);
    }
  }

  // ----- the linter reports the broken rules ----------------------------------

  lemma {:induction false} LastIs(s: string, c: char)
    ensures var r := LastIndexOf(s, c); if r == -1 then c !in s else s[r] == c && c !in s[r + 1..]
  {
    if s != "" && s[|s| - 1] != c {
      LastIs(s[..|s| - 1], c);
      assert s == s[..|s| - 1] + [s[|s| - 1]];
      var r := LastIndexOf(s[..|s| - 1], c);
      if r != -1 { assert s[r + 1..] == s[..|s| - 1][r + 1..] + [s[|s| - 1]]; }
    }
  }

  lemma SpecIs(spec: string, name: string, version: string)
    ensures var at := LastIndexOf(spec, '@');
      IsSpec(spec, name, version) <==>
      name == (if at > 0 then spec[..at] else spec) && version == (if at > 0 then spec[at + 1..] else "")
  {
    var at := LastIndexOf(spec, '@');
    LastIs(spec, '@');
    if at > 0 { assert spec == spec[..at] + "@" + spec[at + 1..]; }
    if spec == name + "@" + version && '@' !in version { LastIsAfter(name, '@', version); }
    if spec == name + "@" + version && name != "" { assert spec[|name|] == '@'; }
  }

  lemma {:induction false} LastIsAfter(a: string, c: char, b: string)
    requires c !in b
    ensures var s := a + [c] + b; LastIndexOf(s, c) == |a| && s[..|a|] == a && s[|a| + 1..] == b
    decreases |b|
  {
    var s := a + [c] + b;
    if b == "" {
      assert s == a + [c];
    } else {
      var n := |b| - 1;
      assert s[..|s| - 1] == a + [c] + b[..n] && s[|s| - 1] == b[n];
      LastIsAfter(a, c, b[..n]);
    }
  }

  lemma {:induction false} DepProblemsAre(env: LintEnv, specs: seq<string>, rule: Rule)
    ensures rule in DepProblems(env, specs) <==>
      || (rule == InexactVersion && exists k | 0 <= k < |specs| :: Inexact(env, specs[k]))
      || (rule == CoreMismatch && exists k | 0 <= k < |specs| :: Mismatched(env, specs[k]))
  {
    hide LastIndexOf, Inexact, Mismatched;
    if specs != [] {
      DepProblemsAre(env, specs[1..], rule);
      OneSpec(env, specs[0]);
      assert forall k | 0 <= k < |specs| - 1 :: specs[1..][k] == specs[k + 1];
    }
  }

  lemma OneSpec(env: LintEnv, spec: string)
    ensures var at := LastIndexOf(spec, '@');
      var name := if at > 0 then spec[..at] else spec;
      var version := if at > 0 then spec[at + 1..] else "";
      && (Inexact(env, spec) <==> !env.exactSemver(version))
      && (Mismatched(env, spec) <==>
          env.chatVersion.Some? && env.chatVersion.value != "" && StartsWith(name, "@chat-adapter/")
          && version != env.chatVersion.value)
  {
    hide LastIndexOf, IsSpec;
    forall name, version
      ensures var at := LastIndexOf(spec, '@');
        IsSpec(spec, name, version) <==>
        name == (if at > 0 then spec[..at] else spec) && version == (if at > 0 then spec[at + 1..] else "")
    {
      SpecIs(spec, name, version);
    }
    var at := LastIndexOf(spec, '@');
    var name := if at > 0 then spec[..at] else spec;
    var version := if at > 0 then spec[at + 1..] else "";
    assert IsSpec(spec, name, version);
    assert StartsWith(name, "@chat-adapter/") <==> "@chat-adapter/" <= name;
  }

  lemma WhenIs(broken: bool, r: Rule, rule: Rule)
    ensures rule in When(broken, r) <==> broken && rule == r
  {
  }

  lemma MergeProblemsAre(env: LintEnv, d: Directive, rule: Rule)
    requires d.kind.JsonMerge?
    ensures rule in MergeProblems(env, d) <==> MergeBreaks(env, d, rule)
  {
  }

  lemma PromptAttrProblemsAre(env: LintEnv, d: Directive, rule: Rule)
    requires d.kind.Prompt?
    ensures rule in PromptAttrProblems(d) <==>
            (rule.BadNormalize? || rule.BadReuse? || rule.RemovedAttr?) && PromptBreaks(env, d, rule)
  {
    hide IsIdent;
  }

  lemma PromptProblemsAre(env: LintEnv, d: Directive, rule: Rule)
    requires d.kind.Prompt?
    ensures rule in PromptProblems(env, d) <==> PromptBreaks(env, d, rule)
  {
    hide IsIdent, PromptVar, PromptAttrProblems;
    PromptVarIs(d.args, "");
    PromptAttrProblemsAre(env, d, rule);
  }

  lemma OperatorProblemsAre(env: LintEnv, d: Directive, rule: Rule)
    requires d.kind.Operator?
    ensures rule in KindProblems(env, d) <==> KindBreaks(env, d, rule)
  {
    hide MergeProblems, PromptProblems, DepProblems, MergeBreaks, PromptBreaks, Inexact, Mismatched;
    assert !MergeBreaks(env, d, rule) && !PromptBreaks(env, d, rule) by { OnlyItsKind(env, d, rule); }
  }

  lemma OnlyItsKind(env: LintEnv, d: Directive, rule: Rule)
    requires d.kind.Operator?
    ensures !MergeBreaks(env, d, rule) && !PromptBreaks(env, d, rule)
  {
  }

  lemma SimpleProblemsAre(env: LintEnv, d: Directive, rule: Rule)
    requires d.kind in {Append, Copy, Run, EnvSet} || d.kind.Other?
    ensures rule in KindProblems(env, d) <==> KindBreaks(env, d, rule)
  {
    hide MergeProblems, PromptProblems, DepProblems;
  }

  lemma KindProblemsAre(env: LintEnv, d: Directive, rule: Rule)
    ensures rule in KindProblems(env, d) <==> KindBreaks(env, d, rule)
  {
    hide MergeProblems, PromptProblems, DepProblems, Inexact, Mismatched, When;
    match d.kind
    case Dep => DepProblemsAre(env, d.body, rule);
    case JsonMerge => MergeProblemsAre(env, d, rule);
    case Prompt => PromptProblemsAre(env, d, rule);
    case Operator => OperatorProblemsAre(env, d, rule);
    case _ => SimpleProblemsAre(env, d, rule);
  }

  lemma {:induction false} RefProblemsAre(refs: seq<string>, defined: set<string>, rule: Rule)
    ensures rule in RefProblems(refs, defined) <==>
            exists name | name in refs :: name !in defined && rule == UndefinedRef(name)
  {
    if refs != [] {
      RefProblemsAre(refs[1..], defined, rule);
      assert refs == [refs[0]] + refs[1..];
    }
  }

  lemma GuardProblemsAre(d: Directive, defined: set<string>, rule: Rule)
    ensures rule in GuardProblems(d, defined) <==>
      || (rule == MalformedGuard && "when" in d.attrs && !exists v, x :: GuardReads(d, v, x))
      || (rule.UndefinedGuard? && rule.name !in defined && exists v, x :: GuardReads(d, v, x) && rule.name == Trim(v))
  {
    hide Trim;
    if "when" in d.attrs {
      var when := d.attrs["when"];
      var eq := IndexOf(when, '=');
      IndexOfIsFirst(when, '=');
      if eq >= 1 {
        assert when == when[..eq] + "=" + when[eq + 1..];
        assert GuardReads(d, when[..eq], when[eq + 1..]);
      }
      forall v, x | GuardReads(d, v, x) ensures eq == |v| && v == when[..eq] { FirstEquals(when, v, x); }
    }
  }

  lemma DirectiveProblemsAre(env: LintEnv, ds: seq<Directive>, i: nat, defined: set<string>, rule: Rule)
    requires i < |ds| && forall name :: name in defined <==> BoundAbove(ds, i, name)
    ensures rule in DirectiveProblems(env, ds[i], defined) <==> Breaks(env, ds, i, rule)
  {
    hide KindProblems, KindBreaks, RefProblems, GuardProblems, LineRefs, Mentions, GuardReads, BoundAbove, Trim;
    var d := ds[i];
    KindProblemsAre(env, d, rule);
    RefProblemsAre(LineRefs(d.body), defined, rule);
    GuardProblemsAre(d, defined, rule);
    if rule.UndefinedRef? { LineRefsAreMentioned(d.body, rule.name); }
  }

  lemma {:induction false} ProblemsFrom(env: LintEnv, ds: seq<Directive>, i: nat, line: nat, rule: Rule)
    requires i <= |ds|
    ensures Problem(line, rule) in Problems(env, ds[i..], DefinedBy(ds[..i])) <==>
            exists j | i <= j < |ds| :: ds[j].line == line && Breaks(env, ds, j, rule)
    decreases |ds| - i
  {
    hide DirectiveProblems, Breaks, Defines, BoundAbove, DefinedBy;
    if i < |ds| {
      var defined := DefinedBy(ds[..i]);
      assert ds[i..][0] == ds[i] && ds[i..][1..] == ds[i + 1..] && ds[..i + 1] == ds[..i] + [ds[i]];
      DefinedByLast(ds[..i], ds[i]);
      ProblemsFrom(env, ds, i + 1, line, rule);
      forall name ensures name in defined <==> BoundAbove(ds, i, name) { DefinedAreBound(ds, i, name); }
      DirectiveProblemsAre(env, ds, i, defined, rule);
      AtIs(ds[i].line, DirectiveProblems(env, ds[i], defined), line, rule);
    }
  }

  lemma AtIs(at: nat, rules: seq<Rule>, line: nat, rule: Rule)
    ensures Problem(line, rule) in At(at, rules) <==> line == at && rule in rules
  {
    if line == at && rule in rules {
      var k :| 0 <= k < |rules| && rules[k] == rule;
      assert At(at, rules)[k] == Problem(line, rule);
    }
  }

  /** The report: a problem is in it if and only if a directive on that line breaks that
      rule. */
  lemma ReportedIffBroken(env: LintEnv, ds: seq<Directive>, line: nat, rule: Rule)
    ensures Problem(line, rule) in Problems(env, ds, {}) <==>
            exists i | 0 <= i < |ds| :: ds[i].line == line && Breaks(env, ds, i, rule)
  {
    hide DirectiveProblems, Breaks;
    ProblemsFrom(env, ds, 0, line, rule);
    assert ds[0..] == ds && ds[..0] == [];
  }

  /** A document that keeps every rule reports nothing, and no other does. */
  lemma CleanIffUnbroken(env: LintEnv, ds: seq<Directive>)
    ensures Problems(env, ds, {}) == [] <==> forall i, rule | 0 <= i < |ds| :: !Breaks(env, ds, i, rule)
  {
    hide DirectiveProblems, Breaks;
    var problems := Problems(env, ds, {});
    if problems != [] {
      ReportedIffBroken(env, ds, problems[0].line, problems[0].rule);
    }
    forall i, rule | 0 <= i < |ds| && Breaks(env, ds, i, rule) ensures problems != [] {
      ReportedIffBroken(env, ds, ds[i].line, rule);
    }
  }

  method Validate(env: LintEnv, ds: seq<Directive>) returns (problems: seq<Problem>)
    ensures problems == Problems(env, ds, {})
    ensures forall line, rule :: Problem(line, rule) in problems <==>
              exists i | 0 <= i < |ds| :: ds[i].line == line && Breaks(env, ds, i, rule)
  {
    hide DirectiveProblems, Defines, Breaks;
    problems := [];
    var defined: set<string> := {};
    for n := 0 to |ds|
      invariant problems + Problems(env, ds[n..], defined) == Problems(env, ds, {})
    {
      assert ds[n..][1..] == ds[n + 1..] && ds[n..][0] == ds[n];
      problems := problems + At(ds[n].line, DirectiveProblems(env, ds[n], defined));
      defined := defined + Defines(ds[n]);
    }
    assert ds[|ds|..] == [];
    forall line, rule
      ensures Problem(line, rule) in problems <==>
              exists i | 0 <= i < |ds| :: ds[i].line == line && Breaks(env, ds, i, rule)
    {
      ReportedIffBroken(env, ds, line, rule);
    }
  }

  /** The report of a document goes down it line by line. */
  lemma {:induction false} ReportGoesDown(env: LintEnv, lines: seq<string>, ds: seq<Directive>, above: nat,
      defined: set<string>)
    requires InOrder(lines, ds, above)
    ensures var ps := Problems(env, ds, defined);
      && (forall k | 0 <= k < |ps| :: above < ps[k].line)
      && (forall j, k | 0 <= j < k < |ps| :: ps[j].line <= ps[k].line)
    decreases |ds|
  {
    hide DirectiveProblems, Defines, OpensDirective;
    if ds == [] {
      assert Problems(env, ds, defined) == [];
    } else {
      ReportGoesDown(env, lines, ds[1..], ds[0].line, defined + Defines(ds[0]));
      var first := At(ds[0].line, DirectiveProblems(env, ds[0], defined));
      assert forall k | 0 <= k < |first| :: first[k].line == ds[0].line;
      assert Problems(env, ds, defined) == first + Problems(env, ds[1..], defined + Defines(ds[0]));
    }
  }

  /** A name and an exact version, set off by the last `@`. */
  ghost predicate Pinned(env: LintEnv, spec: string) {
    exists name, version :: spec == name + "@" + version && name != "" && '@' !in version && env.exactSemver(version)
  }

  /** As no version is not an exact one: the version rule is reported for the dependencies
      that are not pinned. */
  lemma InexactIffUnpinned(env: LintEnv, ds: seq<Directive>, line: nat)
    requires !env.exactSemver("")
    ensures Problem(line, InexactVersion) in Problems(env, ds, {}) <==>
            exists i, k | 0 <= i < |ds| && 0 <= k < |ds[i].body| ::
              ds[i].line == line && ds[i].kind.Dep? && !Pinned(env, ds[i].body[k])
  {
    hide DirectiveProblems, Inexact, Problems, Pinned;
    ReportedIffBroken(env, ds, line, InexactVersion);
    forall i, k | 0 <= i < |ds| && 0 <= k < |ds[i].body|
      ensures Inexact(env, ds[i].body[k]) <==> !Pinned(env, ds[i].body[k])
    {
      InexactIs(env, ds[i].body[k]);
    }
    if exists i, k | 0 <= i < |ds| && 0 <= k < |ds[i].body| ::
         ds[i].line == line && ds[i].kind.Dep? && !Pinned(env, ds[i].body[k])
    {
      var i, k :| 0 <= i < |ds| && 0 <= k < |ds[i].body| &&
        ds[i].line == line && ds[i].kind.Dep? && !Pinned(env, ds[i].body[k]);
      assert Breaks(env, ds, i, InexactVersion);
    }
  }

  lemma InexactIs(env: LintEnv, spec: string)
    requires !env.exactSemver("")
    ensures Inexact(env, spec) <==> !Pinned(env, spec)
  {
    hide LastIndexOf;
    OneSpec(env, spec);
    var at := LastIndexOf(spec, '@');
    if at > 0 { SpecIs(spec, spec[..at], spec[at + 1..]); }
    forall name, version | spec == name + "@" + version && name != "" && '@' !in version
      ensures at > 0 && version == spec[at + 1..]
    {
      SpecIs(spec, name, version);
    }
  }
}
