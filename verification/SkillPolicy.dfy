/** The driver's natural-barrier policy for operator blocks: a static reading of the
    document, and the proof that the interpreter agrees with it. */
module SkillPolicy {
  import opened Text
  import opened Templates
  import opened SkillDirectives
  import opened SkillApply

  datatype Guard = Guard(v: string, value: string)
  datatype Flavor = Readiness | Completed
  datatype GateDecision = GateDecision(needsConfirm: bool, flavor: Flavor)

  /** A malformed guard counts as none. */
  function GuardOf(d: Directive): Option<Guard> {
    match d.Attr("when")
    case None => None
    case Some(when) =>
      var eq := IndexOf(when, '=');
      if eq < 1 then None else Some(Guard(Trim(when[..eq]), Trim(when[eq + 1..])))
  }

  /** The guard reads `v=x` at its first equals sign. */
  ghost predicate GuardReads(d: Directive, v: string, x: string) {
    "when" in d.attrs && d.attrs["when"] == v + "=" + x && v != "" && '=' !in v
  }

  predicate Incompatible(own: Option<Guard>, g: Option<Guard>) {
    own.Some? && g.Some? && own.value.v == g.value.v && own.value.value != g.value.value
  }

  /** Index of the first directive from `j` on that is compatible with the guard, or
      the number of directives. */
  function BarrierFrom(ds: seq<Directive>, own: Option<Guard>, j: nat): (b: nat)
    requires j <= |ds|
    ensures j <= b <= |ds|
    decreases |ds| - j
  {
    if j < |ds| && Incompatible(own, GuardOf(ds[j])) then BarrierFrom(ds, own, j + 1) else j
  }

  function Barrier(ds: seq<Directive>, i: nat): nat
    requires i < |ds|
  {
    BarrierFrom(ds, GuardOf(ds[i]), i + 1)
  }

  function Decide(ds: seq<Directive>, i: nat): GateDecision
    requires i < |ds|
  {
    var b := Barrier(ds, i);
    if b == |ds| || ds[b].kind.Operator? || ds[b].kind.Prompt? then GateDecision(false, Completed)
    else GateDecision(true, if ds[b].Is("effect", "step") then Readiness else Completed)
  }

  /** The decisions for the operator blocks among the first `n` directives. */
  function PolicyUpTo(ds: seq<Directive>, n: nat): map<nat, GateDecision>
    requires n <= |ds|
  {
    if n == 0 then map[]
    else
      var before := PolicyUpTo(ds, n - 1);
      if ds[n - 1].kind.Operator? then before[ds[n - 1].line := Decide(ds, n - 1)] else before
  }

  method FindBarrier(ds: seq<Directive>, i: nat) returns (b: nat)
    requires i < |ds|
    ensures b == Barrier(ds, i)
  {
    var own := GuardOf(ds[i]);
    b := i + 1;
    while b < |ds| && Incompatible(own, GuardOf(ds[b]))
      invariant i < b <= |ds|
      invariant BarrierFrom(ds, own, b) == Barrier(ds, i)
    {
      b := b + 1;
    }
  }

  method GatePolicy(markdown: string) returns (out: map<nat, GateDecision>)
    ensures out == PolicyUpTo(Parse(markdown), |Parse(markdown)|)
  {
    hide BarrierFrom, GuardOf, Parse;
    var ds := ParseDirectives(markdown);
    out := map[];
    for i := 0 to |ds|
      invariant out == PolicyUpTo(ds, i)
    {
      if ds[i].kind.Operator? {
        var b := FindBarrier(ds, i);
        if b == |ds| || ds[b].kind.Operator? || ds[b].kind.Prompt? {
          out := out[ds[i].line := GateDecision(false, Completed)];
        } else {
          out := out[ds[i].line := GateDecision(true, if ds[b].Is("effect", "step") then Readiness else Completed)];
        }
      }
    }
  }

  // ----- the map answers for every block --------------------------------------

  lemma {:induction false} LaterLines(lines: seq<string>, ds: seq<Directive>, above: nat, m: nat, n: nat)
    requires InOrder(lines, ds, above) && m < n < |ds|
    ensures above < ds[m].line < ds[n].line
    decreases |ds|
  {
    hide OpensDirective;
    if m > 0 {
      LaterLines(lines, ds[1..], ds[0].line, m - 1, n - 1);
    } else if n > 1 {
      LaterLines(lines, ds[1..], ds[0].line, 0, n - 1);
    }
  }

  lemma {:induction false} PolicyAnswers(lines: seq<string>, ds: seq<Directive>, n: nat, i: nat)
    requires InOrder(lines, ds, 0) && i < n <= |ds| && ds[i].kind.Operator?
    ensures ds[i].line in PolicyUpTo(ds, n) && PolicyUpTo(ds, n)[ds[i].line] == Decide(ds, i)
  {
    hide InOrder, Decide;
    if i < n - 1 {
      PolicyAnswers(lines, ds, n - 1, i);
      LaterLines(lines, ds, 0, i, n - 1);
    }
  }

  /** Every operator block of a document has its own decision under its own line. */
  lemma PolicyIsPerBlock(markdown: string, i: nat)
    requires i < |Parse(markdown)| && Parse(markdown)[i].kind.Operator?
    ensures var ds := Parse(markdown); var policy := PolicyUpTo(ds, |ds|);
      ds[i].line in policy && policy[ds[i].line] == Decide(ds, i)
  {
    hide Parse;
    ParseIsWellFormed(markdown);
    PolicyAnswers(Lines(markdown), Parse(markdown), |Parse(markdown)|, i);
  }

  // ----- the interpreter agrees -----------------------------------------------

  /** The state after the first `n` directives. */
  function After(cfg: Config, ds: seq<Directive>, st: State, n: nat): State
    requires n <= |ds|
  {
    RunAll(cfg, ds[..n], st)
  }

  lemma AfterNext(cfg: Config, ds: seq<Directive>, st: State, n: nat)
    requires n < |ds|
    ensures After(cfg, ds, st, n + 1) == Process(cfg, ds[n], After(cfg, ds, st, n))
  {
    hide Process;
    assert ds[..n + 1] == ds[..n] + [ds[n]];
    RunAllSplit(cfg, ds[..n], [ds[n]], st);
    assert [ds[n]][1..] == [];
    assert RunAll(cfg, [ds[n]], After(cfg, ds, st, n)) == Process(cfg, ds[n], After(cfg, ds, st, n));
  }

  /** The guard as the policy reads it is the guard the interpreter tests. */
  lemma GuardsAgree(d: Directive, vars: Vars)
    ensures Guarded(d, vars) <==>
      GuardOf(d).Some? && !(GuardOf(d).value.v in vars && vars[GuardOf(d).value.v].value == GuardOf(d).value.value)
  {
  }

  /** The engine rendered this block: its text was collected for the operator. */
  predicate Shows(cfg: Config, d: Directive, st: State) {
    d.kind.Operator? && Process(cfg, d, st).messages != st.messages
  }

  lemma ShowingKeepsVars(cfg: Config, d: Directive, st: State)
    requires Shows(cfg, d, st)
    ensures cfg.mode.Install? && !Guarded(d, st.vars) && Process(cfg, d, st).vars == st.vars
  {
    hide Guarded, Substitute, IsUnresolved;
  }

  function Notes(ds: seq<Directive>): seq<Note> {
    seq(|ds|, i requires 0 <= i < |ds| => Note(ds[i].kind, ds[i].line))
  }

  lemma GuardedIsSkipped(cfg: Config, d: Directive, st: State)
    requires cfg.mode.Install? && Guarded(d, st.vars)
    ensures Process(cfg, d, st) == SkipIt(st, d)
  {
    hide Guarded;
  }

  lemma {:induction false} SkippedUpTo(cfg: Config, ds: seq<Directive>, st: State, i: nat, own: Option<Guard>, j: nat)
    requires cfg.mode.Install? && i <= j <= |ds|
    requires forall k | i <= k < j :: Incompatible(own, GuardOf(ds[k]))
    requires var s := After(cfg, ds, st, i);
      own.Some? ==> own.value.v in s.vars && s.vars[own.value.v].value == own.value.value
    ensures var s := After(cfg, ds, st, i);
      After(cfg, ds, st, j) == s.(skipped := s.skipped + Notes(ds[i..j]))
    ensures forall k | i <= k < j :: Guarded(ds[k], After(cfg, ds, st, i).vars)
    decreases j - i
  {
    hide GuardOf, Guarded, After, Process;
    var s := After(cfg, ds, st, i);
    if i == j {
      assert s.skipped + Notes(ds[i..j]) == s.skipped;
    } else {
      SkippedUpTo(cfg, ds, st, i, own, j - 1);
      var t := After(cfg, ds, st, j - 1);
      AfterNext(cfg, ds, st, j - 1);
      GuardsAgree(ds[j - 1], t.vars);
      assert Incompatible(own, GuardOf(ds[j - 1]));
      GuardedIsSkipped(cfg, ds[j - 1], t);
      assert Notes(ds[i..j]) == Notes(ds[i..j - 1]) + [Note(ds[j - 1].kind, ds[j - 1].line)];
      assert s.skipped + Notes(ds[i..j]) == s.skipped + Notes(ds[i..j - 1]) + [Note(ds[j - 1].kind, ds[j - 1].line)];
    }
  }

  lemma {:induction false} BarrierSkipsIncompatible(ds: seq<Directive>, own: Option<Guard>, j: nat)
    requires j <= |ds|
    ensures forall k | j <= k < BarrierFrom(ds, own, j) :: Incompatible(own, GuardOf(ds[k]))
    ensures var b := BarrierFrom(ds, own, j); b < |ds| ==> !Incompatible(own, GuardOf(ds[b]))
    decreases |ds| - j
  {
    hide GuardOf;
    if j < |ds| && Incompatible(own, GuardOf(ds[j])) { BarrierSkipsIncompatible(ds, own, j + 1); }
  }

  lemma BarrierItself(cfg: Config, ds: seq<Directive>, st: State, i: nat)
    requires cfg.mode.Install? && i < |ds| && Barrier(ds, i) < |ds|
    ensures var b := Barrier(ds, i); Guarded(ds[b], After(cfg, ds, st, b).vars) ==>
      After(cfg, ds, st, b + 1) == SkipIt(After(cfg, ds, st, b), ds[b])
  {
    hide GuardOf, Guarded, Process;
    var b := Barrier(ds, i);
    AfterNext(cfg, ds, st, b);
    if Guarded(ds[b], After(cfg, ds, st, b).vars) { GuardedIsSkipped(cfg, ds[b], After(cfg, ds, st, b)); }
  }

  /** The static barrier is sound: once the engine has shown an operator block, every
      directive before the barrier is skipped by its own unmet guard, and nothing else
      about the run changes on the way there. With no barrier, nothing later in the
      document runs at all. The barrier itself is skipped too if its own guard is unmet,
      and the barrier of an unguarded block is the next directive. */
  lemma BarrierIsSound(cfg: Config, ds: seq<Directive>, st: State, i: nat)
    requires i < |ds| && Shows(cfg, ds[i], After(cfg, ds, st, i))
    ensures var shown := After(cfg, ds, st, i + 1); var b := Barrier(ds, i);
      && (forall k | i < k < b :: Guarded(ds[k], shown.vars))
      && After(cfg, ds, st, b) == shown.(skipped := shown.skipped + Notes(ds[i + 1..b]))
      && (b == |ds| ==> RunAll(cfg, ds, st) == shown.(skipped := shown.skipped + Notes(ds[i + 1..])))
      && (b < |ds| && Guarded(ds[b], shown.vars) ==>
            After(cfg, ds, st, b + 1) == SkipIt(After(cfg, ds, st, b), ds[b]))
    ensures i + 1 < |ds| && GuardOf(ds[i]).None? ==> Barrier(ds, i) == i + 1
  {
    hide GuardOf, Guarded, Shows, Process;
    var own := GuardOf(ds[i]);
    var s := After(cfg, ds, st, i);
    ShowingKeepsVars(cfg, ds[i], s);
    GuardsAgree(ds[i], s.vars);
    AfterNext(cfg, ds, st, i);
    BarrierSkipsIncompatible(ds, own, i + 1);
    SkippedUpTo(cfg, ds, st, i + 1, own, Barrier(ds, i));
    assert ds[..|ds|] == ds;
    if Barrier(ds, i) < |ds| { BarrierItself(cfg, ds, st, i); }
  }

  // ----- the decision, said of the document -----------------------------------

  lemma FirstEquals(s: string, v: string, x: string)
    requires s == v + "=" + x && '=' !in v
    ensures IndexOf(s, '=') == |v| && s[..|v|] == v && s[|v| + 1..] == x
  {
    IndexOfAfter(v, '=', x);
  }

  /** A guard is read in one way: its variable and its value without blanks around them. */
  lemma GuardIs(d: Directive, v: string, x: string)
    ensures GuardReads(d, v, x) ==> GuardOf(d) == Some(Guard(Trim(v), Trim(x)))
    ensures GuardOf(d).Some? <==> exists v, x :: GuardReads(d, v, x)
  {
    hide Trim;
    if "when" in d.attrs {
      var when := d.attrs["when"];
      var eq := IndexOf(when, '=');
      IndexOfIsFirst(when, '=');
      if eq >= 1 {
        assert when == when[..eq] + "=" + when[eq + 1..];
        assert GuardReads(d, when[..eq], when[eq + 1..]);
      }
      forall v, x | GuardReads(d, v, x) ensures eq == |v| && when[..eq] == v && when[eq + 1..] == x {
        FirstEquals(when, v, x);
      }
    }
  }

  /** The interpreter skips a directive exactly if its guard names a variable that is not
      bound to the guard's value. */
  lemma GuardedIff(d: Directive, vars: Vars)
    ensures Guarded(d, vars) <==> exists v, x :: GuardReads(d, v, x) &&
                                                 !(Trim(v) in vars && vars[Trim(v)].value == Trim(x))
  {
    hide Trim, GuardReads, GuardOf;
    GuardsAgree(d, vars);
    GuardIs(d, "", "");
    if exists v, x :: GuardReads(d, v, x) {
      var v, x :| GuardReads(d, v, x);
      GuardIs(d, v, x);
    }
    forall v, x | GuardReads(d, v, x) ensures GuardOf(d) == Some(Guard(Trim(v), Trim(x))) { GuardIs(d, v, x); }
  }

  /** Guards on one variable with different values. */
  ghost predicate Opposed(a: Directive, b: Directive) {
    exists v, x, u, y :: OpposedBy(a, b, v, x, u, y)
  }

  ghost predicate OpposedBy(a: Directive, b: Directive, v: string, x: string, u: string, y: string) {
    GuardReads(a, v, x) && GuardReads(b, u, y) && Trim(v) == Trim(u) && Trim(x) != Trim(y)
  }

  /** The first directive below the block whose guard is not opposed to the block's. */
  ghost predicate FirstCompatible(ds: seq<Directive>, i: nat, b: nat) {
    i < b < |ds| && !Opposed(ds[i], ds[b]) && forall k | i < k < b :: Opposed(ds[i], ds[k])
  }

  lemma GuardText(d: Directive) returns (v: string, x: string)
    requires GuardOf(d).Some?
    ensures GuardReads(d, v, x) && GuardOf(d) == Some(Guard(Trim(v), Trim(x)))
  {
    hide Trim, GuardReads, GuardOf;
    GuardIs(d, "", "");
    v, x :| GuardReads(d, v, x);
    GuardIs(d, v, x);
  }

  lemma OpposedIs(a: Directive, b: Directive)
    ensures Opposed(a, b) <==> Incompatible(GuardOf(a), GuardOf(b))
  {
    hide Trim, GuardReads, GuardOf;
    if Opposed(a, b) {
      var v, x, u, y :| OpposedBy(a, b, v, x, u, y);
      GuardIs(a, v, x);
      GuardIs(b, u, y);
    }
    if Incompatible(GuardOf(a), GuardOf(b)) {
      var v, x := GuardText(a);
      var u, y := GuardText(b);
      assert OpposedBy(a, b, v, x, u, y);
    }
  }

  lemma {:induction false} BarrierIsFirst(ds: seq<Directive>, i: nat, b: nat)
    requires i < |ds|
    ensures FirstCompatible(ds, i, b) <==> b == Barrier(ds, i) < |ds|
  {
    hide Opposed, GuardOf, BarrierFrom, Incompatible;
    BarrierSkipsIncompatible(ds, GuardOf(ds[i]), i + 1);
    forall k | 0 <= k < |ds| ensures Opposed(ds[i], ds[k]) <==> Incompatible(GuardOf(ds[i]), GuardOf(ds[k])) {
      OpposedIs(ds[i], ds[k]);
    }
  }

  /** A confirmation is asked for exactly if a directive below the block is compatible
      with its guard and the first such neither prompts nor shows an operator block; it is
      about readiness exactly if that directive is a step. */
  lemma ConfirmsIff(ds: seq<Directive>, i: nat)
    requires i < |ds|
    ensures Decide(ds, i).needsConfirm <==>
            exists b: nat :: FirstCompatible(ds, i, b) && !ds[b].kind.Prompt? && !ds[b].kind.Operator?
    ensures Decide(ds, i).flavor.Readiness? <==>
            exists b: nat :: FirstCompatible(ds, i, b) && !ds[b].kind.Prompt? && !ds[b].kind.Operator? &&
                        "effect" in ds[b].attrs && ds[b].attrs["effect"] == "step"
  {
    hide BarrierFrom, FirstCompatible;
    forall b: nat ensures FirstCompatible(ds, i, b) <==> b == Barrier(ds, i) < |ds| { BarrierIsFirst(ds, i, b); }
    var k := Barrier(ds, i);
    assert FirstCompatible(ds, i, k) <==> k < |ds|;
    if k < |ds| && !ds[k].kind.Prompt? && !ds[k].kind.Operator? {
      assert Decide(ds, i).needsConfirm;
    } else {
      assert !Decide(ds, i).needsConfirm && Decide(ds, i).flavor == Completed;
    }
  }
}
