/** `{{name}}` references: finding them and filling them in. */
module Templates {
  import opened Text

  datatype Binding = Binding(value: string, secret: bool)
  type Vars = map<string, Binding>

  function SpaceRun(s: string): (n: nat)
    ensures n <= |s|
  {
    if s == "" || !IsSpace(s[0]) then 0 else 1 + SpaceRun(s[1..])
  }

  function IdentRest(s: string): (n: nat)
    ensures n <= |s|
  {
    if s == "" || !IsIdentChar(s[0]) then 0 else 1 + IdentRest(s[1..])
  }

  /** Length of the identifier at the front of `s`, 0 if there is none. */
  function IdentRun(s: string): (n: nat)
    ensures n <= |s|
  {
    if s == "" || !IsIdentStart(s[0]) then 0 else IdentRest(s)
  }

  datatype Ref = NoRef | Ref(name: string, len: nat)

  /** A match of the reference expression at the front of `s`. */
  function RefAt(s: string): (r: Ref)
    ensures r.Ref? ==> 5 <= r.len <= |s|
  {
    if !(|s| >= 2 && s[0] == '{' && s[1] == '{') then NoRef
    else
      var a := 2 + SpaceRun(s[2..]);
      var b := a + IdentRun(s[a..]);
      var c := b + SpaceRun(s[b..]);
      if a < b && c + 2 <= |s| && s[c] == '}' && s[c + 1] == '}'
      then Ref(s[a..b], c + 2) else NoRef
  }

  /** Every referenced name, left to right. */
  function Refs(s: string): seq<string> {
    if s == "" then []
    else match RefAt(s)
      case NoRef => Refs(s[1..])
      case Ref(name, len) => [name] + Refs(s[len..])
  }

  function Unresolved(name: string): string {
    "unresolved {{" + name + "}}"
  }

  function Substitute(s: string, vars: Vars): Outcome<string> {
    if s == "" then Ok("")
    else match RefAt(s)
      case NoRef =>
        (match Substitute(s[1..], vars)
         case Ok(t) => Ok([s[0]] + t)
         case Throw(m) => Throw(m))
      case Ref(name, len) =>
        if name !in vars then Throw(Unresolved(name))
        else match Substitute(s[len..], vars)
          case Ok(t) => Ok(vars[name].value + t)
          case Throw(m) => Throw(m)
  }

  /** Substitution succeeds exactly when every referenced name is bound, and
      otherwise complains about one that is not. */
  lemma {:induction false} SubstituteNeedsRefs(s: string, vars: Vars)
    ensures Substitute(s, vars).Ok? <==> forall n | n in Refs(s) :: n in vars
    ensures Substitute(s, vars).Throw? ==>
              exists n | n in Refs(s) :: n !in vars && Substitute(s, vars).message == Unresolved(n)
  {
    if s != "" {
      match RefAt(s)
      case NoRef => SubstituteNeedsRefs(s[1..], vars);
      case Ref(name, len) =>
        SubstituteNeedsRefs(s[len..], vars);
        if name !in vars { assert name in Refs(s); }
    }
  }

  /** A text without a brace has no references. */
  lemma {:induction false} NoBraceIsItself(s: string, vars: Vars)
    requires '{' !in s
    ensures Substitute(s, vars) == Ok(s)
  {
    if s != "" {
      NoBraceIsItself(s[1..], vars);
      assert [s[0]] + s[1..] == s;
    }
  }

  // ----- references of a part -------------------------------------------------

  lemma {:induction false} SpaceRunIsSpace(s: string)
    ensures forall k | 0 <= k < SpaceRun(s) :: IsSpace(s[k])
    ensures SpaceRun(s) < |s| ==> !IsSpace(s[SpaceRun(s)])
  {
    if s != "" && IsSpace(s[0]) { SpaceRunIsSpace(s[1..]); }
  }

  lemma {:induction false} IdentRestIsIdent(s: string)
    ensures forall k | 0 <= k < IdentRest(s) :: IsIdentChar(s[k])
    ensures IdentRest(s) < |s| ==> !IsIdentChar(s[IdentRest(s)])
  {
    if s != "" && IsIdentChar(s[0]) { IdentRestIsIdent(s[1..]); }
  }

  /** A match consists of braces, white space and identifier characters, begins with
      a brace and ends with one. */
  lemma RefAlphabet(s: string)
    requires RefAt(s).Ref?
    ensures var n := RefAt(s).len;
      && s[0] == '{' && s[n - 1] == '}'
      && forall k | 0 <= k < n :: s[k] == '{' || s[k] == '}' || IsSpace(s[k]) || IsIdentChar(s[k])
  {
    hide SpaceRun, IdentRest, IsSpace, IsIdentChar;
    var a := 2 + SpaceRun(s[2..]);
    SpaceRunIsSpace(s[2..]);
    var b := a + IdentRun(s[a..]);
    IdentRestIsIdent(s[a..]);
    var c := b + SpaceRun(s[b..]);
    SpaceRunIsSpace(s[b..]);
    forall k | 0 <= k < c + 2 ensures s[k] == '{' || s[k] == '}' || IsSpace(s[k]) || IsIdentChar(s[k]) {
      if 2 <= k < a { assert s[k] == s[2..][k - 2]; }
      if a <= k < b { assert s[k] == s[a..][k - a]; }
      if b <= k < c { assert s[k] == s[b..][k - b]; }
    }
  }

  lemma {:induction false} SpaceRunOfPrefix(s: string, t: string)
    requires SpaceRun(s) < |s|
    ensures SpaceRun(s + t) == SpaceRun(s)
  {
    if IsSpace(s[0]) {
      assert (s + t)[1..] == s[1..] + t;
      SpaceRunOfPrefix(s[1..], t);
    }
  }

  lemma {:induction false} IdentRestOfPrefix(s: string, t: string)
    requires IdentRest(s) < |s|
    ensures IdentRest(s + t) == IdentRest(s)
  {
    if IsIdentChar(s[0]) {
      assert (s + t)[1..] == s[1..] + t;
      IdentRestOfPrefix(s[1..], t);
    }
  }

  /** A match is decided by the characters it covers. */
  lemma RefOfPrefix(s: string, t: string)
    requires RefAt(s).Ref?
    ensures RefAt(s + t) == RefAt(s)
  {
    hide SpaceRun, IdentRest, IsIdentStart;
    var u := s + t;
    var a := 2 + SpaceRun(s[2..]);
    var b := a + IdentRun(s[a..]);
    var c := b + SpaceRun(s[b..]);
    TailOfConcat(s, t, 2);
    TailOfConcat(s, t, a);
    TailOfConcat(s, t, b);
    SpaceRunOfPrefix(s[2..], t);
    IdentRestOfPrefix(s[a..], t);
    SpaceRunOfPrefix(s[b..], t);
    assert u[a..b] == s[a..b];
  }

  lemma TailOfConcat(s: string, t: string, k: nat)
    requires k <= |s|
    ensures (s + t)[k..] == s[k..] + t
  {
  }

  /** What stands after a character no reference can contain keeps its references. */
  lemma {:induction false} RefsAfter(s: string, k: nat, n: string)
    requires k < |s| && !IsSpace(s[k]) && !IsIdentChar(s[k]) && s[k] != '{' && s[k] != '}'
    requires n in Refs(s[k + 1..])
    ensures n in Refs(s)
    decreases |s|
  {
    hide RefAt, IsSpace, IsIdentChar;
    match RefAt(s)
    case NoRef =>
      if k > 0 {
        assert s[1..][k - 1 + 1..] == s[k + 1..];
        RefsAfter(s[1..], k - 1, n);
      }
    case Ref(_, len) =>
      RefAlphabet(s);
      assert s[len..][k - len + 1..] == s[k + 1..];
      RefsAfter(s[len..], k - len, n);
  }

  lemma {:induction false} RefsOfTrimStart(s: string, n: string)
    requires n in Refs(TrimStart(s))
    ensures n in Refs(s)
  {
    if s != "" && IsSpace(s[0]) { RefsOfTrimStart(s[1..], n); }
  }

  lemma {:induction false} RefsOfPrefix(s: string, t: string, n: string)
    requires n in Refs(s)
    requires forall k | 0 <= k < |t| :: t[k] != '}'
    ensures n in Refs(s + t)
  {
    hide RefAt;
    if s != "" {
      match RefAt(s)
      case Ref(_, len) =>
        RefOfPrefix(s, t);
        assert (s + t)[len..] == s[len..] + t;
        if n != RefAt(s).name { RefsOfPrefix(s[len..], t, n); }
      case NoRef =>
        assert (s + t)[1..] == s[1..] + t;
        RefsOfPrefix(s[1..], t, n);
        if RefAt(s + t).Ref? {
          RefAlphabet(s + t);
          var len := RefAt(s + t).len;
          assert len <= |s|;
          RefOfCover(s, t);
        }
    }
  }

  /** Conversely, a match that fits in the prefix is a match of the prefix. */
  lemma RefOfCover(s: string, t: string)
    requires RefAt(s + t).Ref? && RefAt(s + t).len <= |s|
    ensures RefAt(s) == RefAt(s + t)
  {
    hide SpaceRun, IdentRest, IsIdentStart;
    var u := s + t;
    var a := 2 + SpaceRun(u[2..]);
    var b := a + IdentRun(u[a..]);
    var c := b + SpaceRun(u[b..]);
    assert u[2..] == s[2..] + t && u[a..] == s[a..] + t && u[b..] == s[b..] + t;
    SpaceRunCovered(s[2..], t);
    IdentRestCovered(s[a..], t);
    SpaceRunCovered(s[b..], t);
    assert u[a..b] == s[a..b];
  }

  lemma {:induction false} SpaceRunCovered(s: string, t: string)
    requires SpaceRun(s + t) < |s|
    ensures SpaceRun(s) == SpaceRun(s + t)
  {
    if IsSpace(s[0]) {
      assert (s + t)[1..] == s[1..] + t;
      SpaceRunCovered(s[1..], t);
    }
  }

  lemma {:induction false} IdentRestCovered(s: string, t: string)
    requires IdentRest(s + t) < |s|
    ensures IdentRest(s) == IdentRest(s + t)
  {
    if IsIdentChar(s[0]) {
      assert (s + t)[1..] == s[1..] + t;
      IdentRestCovered(s[1..], t);
    }
  }

  lemma RefsOfTrim(s: string, n: string)
    requires n in Refs(Trim(s))
    ensures n in Refs(s)
  {
    var a := TrimStart(s);
    TrimEndDropsSpace(a);
    var b := TrimEnd(a);
    assert a == b + a[|b|..];
    forall k | 0 <= k < |a[|b|..]| ensures a[|b|..][k] != '}' { assert IsSpace(a[|b| + k]); }
    RefsOfPrefix(b, a[|b|..], n);
    RefsOfTrimStart(s, n);
  }
}
