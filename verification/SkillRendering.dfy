/** What the answers become: a text is its literal parts with every `{{name}}` replaced by
    the bound value, and so are the commands run, the keys set and the texts shown. */
module SkillRendering {
  import opened Text
  import opened Templates
  import opened SkillDirectives
  import opened SkillApply

  /** A text as its author means it: literal parts, and names in double braces with blanks
      around them or not. */
  datatype Piece = Lit(text: string) | Hole(before: string, name: string, after: string)

  predicate GoodPiece(p: Piece) {
    match p
    case Lit(text) => '{' !in text
    case Hole(before, name, after) => Blanks(before) && IsIdent(name) && Blanks(after)
  }

  predicate GoodPieces(ps: seq<Piece>) {
    forall i | 0 <= i < |ps| :: GoodPiece(ps[i])
  }

  /** How a piece is written. */
  function Written(p: Piece): string {
    match p
    case Lit(text) => text
    case Hole(before, name, after) => "{{" + before + name + after + "}}"
  }

  function WrittenAll(ps: seq<Piece>): string {
    if ps == [] then "" else Written(ps[0]) + WrittenAll(ps[1..])
  }

  predicate Bound(ps: seq<Piece>, vars: Vars) {
    forall i | 0 <= i < |ps| && ps[i].Hole? :: ps[i].name in vars
  }

  /** What the pieces say once the names have their values. */
  function Filled(ps: seq<Piece>, vars: Vars): string
    requires Bound(ps, vars)
  {
    if ps == [] then ""
    else
      var rest := ps[1..];
      assert forall i | 0 <= i < |rest| :: rest[i] == ps[i + 1];
      (match ps[0] case Lit(text) => text case Hole(_, name, _) => vars[name].value) + Filled(rest, vars)
  }

  function HoleNames(ps: seq<Piece>): seq<string> {
    if ps == [] then []
    else (match ps[0] case Lit(_) => [] case Hole(_, name, _) => [name]) + HoleNames(ps[1..])
  }

  // ----- where a reference is -------------------------------------------------

  lemma {:induction false} BlanksRun(ws: string, s: string)
    requires Blanks(ws) && (s == "" || !IsSpace(s[0]))
    ensures SpaceRun(ws + s) == |ws|
  {
    hide IsSpace;
    if ws == "" {
      assert ws + s == s;
    } else {
      assert (ws + s)[1..] == ws[1..] + s;
      BlanksRun(ws[1..], s);
    }
  }

  lemma {:induction false} IdentRuns(name: string, s: string)
    requires forall i | 0 <= i < |name| :: IsIdentChar(name[i])
    requires s == "" || !IsIdentChar(s[0])
    ensures IdentRest(name + s) == |name|
  {
    hide IsIdentChar;
    if name == "" {
      assert name + s == s;
    } else {
      assert (name + s)[1..] == name[1..] + s;
      IdentRuns(name[1..], s);
    }
  }

  lemma IdentIsNotBlank(c: char)
    ensures IsIdentChar(c) ==> !IsSpace(c)
    ensures !IsSpace('}') && !IsIdentChar('}')
  {
  }

  /** Where the parts of a hole lie. */
  lemma HoleParts(p: Piece, rest: string)
    requires p.Hole?
    ensures var s := Written(p) + rest; var a := 2 + |p.before|; var b := a + |p.name|; var c := b + |p.after|;
      && |Written(p)| == c + 2 && |s| == c + 2 + |rest|
      && s[0] == '{' && s[1] == '{' && s[a..b] == p.name && s[c] == '}' && s[c + 1] == '}'
      && s[2..] == p.before + (p.name + (p.after + ("}}" + rest)))
      && s[a..] == p.name + (p.after + ("}}" + rest))
      && s[b..] == p.after + ("}}" + rest)
      && s[c + 2..] == rest
  {
  }

  /** A hole at the front of a text is found there, whole. */
  lemma HoleIsFound(p: Piece, rest: string)
    requires p.Hole? && GoodPiece(p)
    ensures RefAt(Written(p) + rest) == Ref(p.name, |Written(p)|)
    ensures (Written(p) + rest)[|Written(p)|..] == rest
  {
    hide RefAt, SpaceRun, IdentRun, Written, GoodPiece;
    HoleParts(p, rest);
    HoleRuns(p, rest);
    HoleIsNamed(p);
    var a := 2 + |p.before|;
    RefAtIs(Written(p) + rest, a, a + |p.name|, a + |p.name| + |p.after|);
  }

  lemma HoleIsNamed(p: Piece)
    requires p.Hole? && GoodPiece(p)
    ensures p.name != ""
  {
  }

  lemma RefAtIs(s: string, a: nat, b: nat, c: nat)
    requires 2 <= a < b <= c && c + 2 <= |s|
    requires a == 2 + SpaceRun(s[2..]) && b == a + IdentRun(s[a..]) && c == b + SpaceRun(s[b..])
    requires s[0] == '{' && s[1] == '{' && s[c] == '}' && s[c + 1] == '}'
    ensures RefAt(s) == Ref(s[a..b], c + 2)
  {
    hide SpaceRun, IdentRun;
  }

  lemma HoleRuns(p: Piece, rest: string)
    requires p.Hole? && GoodPiece(p)
    ensures var tail := "}}" + rest;
      && SpaceRun(p.before + (p.name + (p.after + tail))) == |p.before|
      && IdentRun(p.name + (p.after + tail)) == |p.name|
      && SpaceRun(p.after + tail) == |p.after|
  {
    var tail := "}}" + rest;
    IdentIsNotBlank('}');
    IdentIsNotBlank(p.name[0]);
    assert IsIdentChar(p.name[0]) && (p.name + (p.after + tail))[0] == p.name[0];
    if p.after != "" { IdentIsNotBlank(p.after[0]); }
    hide IsSpace, IsIdentChar, IsIdentStart, SpaceRun, IdentRest;
    BlanksRun(p.before, p.name + (p.after + tail));
    IdentRuns(p.name, p.after + tail);
    BlanksRun(p.after, tail);
  }

  /** And nothing else is a reference: one begins a text exactly if the text begins with a
      hole, and it is that hole. */
  lemma RefIsHole(s: string)
    ensures RefAt(s).Ref? <==> exists p: Piece :: p.Hole? && GoodPiece(p) && Written(p) <= s
    ensures forall p: Piece | p.Hole? && GoodPiece(p) && Written(p) <= s :: RefAt(s) == Ref(p.name, |Written(p)|)
  {
    forall p: Piece | p.Hole? && GoodPiece(p) && Written(p) <= s
      ensures RefAt(s) == Ref(p.name, |Written(p)|)
    {
      assert s == Written(p) + s[|Written(p)|..];
      HoleIsFound(p, s[|Written(p)|..]);
    }
    if RefAt(s).Ref? { var p := FoundHole(s); }
  }

  lemma FoundHole(s: string) returns (p: Piece)
    requires RefAt(s).Ref?
    ensures p.Hole? && GoodPiece(p) && Written(p) <= s
  {
    hide IsSpace, IsIdentChar, IsIdentStart, SpaceRun, IdentRest, GoodPiece, Written;
    var a := 2 + SpaceRun(s[2..]);
    var b := a + IdentRun(s[a..]);
    var c := b + SpaceRun(s[b..]);
    assert 2 <= a < b <= c && c + 2 <= |s| && s[0] == '{' && s[1] == '{' && s[c] == '}' && s[c + 1] == '}';
    hide RefAt;
    p := Hole(s[2..a], s[a..b], s[b..c]);
    BlanksFound(s[2..]);
    BlanksFound(s[b..]);
    IdentFound(s[a..]);
    hide IdentRun;
    assert s[2..][..a - 2] == s[2..a] && s[b..][..c - b] == s[b..c] && s[a..][..b - a] == s[a..b];
    GoodHole(p);
    Reassembled(s, a, b, c);
  }

  lemma BlanksFound(s: string)
    ensures Blanks(s[..SpaceRun(s)])
  {
    SpaceRunIsSpace(s);
  }

  lemma IdentFound(s: string)
    requires IdentRun(s) > 0
    ensures IsIdent(s[..IdentRun(s)])
  {
    IdentRestIsIdent(s);
  }

  lemma GoodHole(p: Piece)
    requires p.Hole? && Blanks(p.before) && IsIdent(p.name) && Blanks(p.after)
    ensures GoodPiece(p)
  {
  }

  lemma Reassembled(s: string, a: nat, b: nat, c: nat)
    requires 2 <= a <= b <= c && c + 2 <= |s|
    requires s[0] == '{' && s[1] == '{' && s[c] == '}' && s[c + 1] == '}'
    ensures Written(Hole(s[2..a], s[a..b], s[b..c])) == s[..c + 2]
  {
    assert s[..2] == "{{" && s[c..c + 2] == "}}";
    assert s[..c + 2] == s[..2] + s[2..a] + s[a..b] + s[b..c] + s[c..c + 2];
  }

  // ----- the filling ----------------------------------------------------------

  lemma {:induction false} LitIsKept(text: string, rest: string, vars: Vars)
    requires '{' !in text
    ensures Substitute(text + rest, vars) ==
            match Substitute(rest, vars) case Ok(t) => Ok(text + t) case Throw(m) => Throw(m)
    ensures Refs(text + rest) == Refs(rest)
  {
    if text == "" {
      assert text + rest == rest && forall t: string :: "" + t == t;
    } else {
      assert (text + rest)[1..] == text[1..] + rest;
      LitIsKept(text[1..], rest, vars);
      assert (text + rest)[0] == text[0] && text[0] in text;
      assert RefAt(text + rest).NoRef?;
      if Substitute(rest, vars).Ok? {
        var t := Substitute(rest, vars).value;
        assert [text[0]] + (text[1..] + t) == text + t;
      }
    }
  }

  /** A text is its pieces filled in: every literal part as it stands, every hole replaced
      by the value bound to its name, in order, and nothing else. */
  lemma {:induction false} TextIsFilled(ps: seq<Piece>, vars: Vars)
    requires GoodPieces(ps) && Bound(ps, vars)
    ensures Substitute(WrittenAll(ps), vars) == Ok(Filled(ps, vars))
    decreases |ps|
  {
    hide GoodPiece;
    if ps != [] {
      var rest := ps[1..];
      assert forall i | 0 <= i < |rest| :: rest[i] == ps[i + 1];
      TextIsFilled(rest, vars);
      assert GoodPiece(ps[0]);
      FirstIsFilled(ps[0], WrittenAll(rest), vars);
    }
  }

  lemma FirstIsFilled(p: Piece, rest: string, vars: Vars)
    requires GoodPiece(p) && (p.Hole? ==> p.name in vars) && Substitute(rest, vars).Ok?
    ensures Substitute(Written(p) + rest, vars) ==
            Ok((if p.Lit? then p.text else vars[p.name].value) + Substitute(rest, vars).value)
  {
    hide RefAt;
    match p
    case Lit(text) => LitIsKept(text, rest, vars);
    case Hole(_, _, _) => HoleIsFound(p, rest);
  }

  /** The names a text refers to are those of its holes, in order. */
  lemma {:induction false} RefsAreHoles(ps: seq<Piece>)
    requires GoodPieces(ps)
    ensures Refs(WrittenAll(ps)) == HoleNames(ps)
    decreases |ps|
  {
    hide GoodPiece, RefAt;
    if ps != [] {
      var rest := ps[1..];
      assert forall i | 0 <= i < |rest| :: rest[i] == ps[i + 1];
      RefsAreHoles(rest);
      assert GoodPiece(ps[0]);
      match ps[0]
      case Lit(text) =>
        LitHasNoBrace(ps[0]);
        LitIsKept(text, WrittenAll(rest), map[]);
      case Hole(_, _, _) => HoleIsFound(ps[0], WrittenAll(rest));
    }
  }

  lemma LitHasNoBrace(p: Piece)
    requires GoodPiece(p) && p.Lit?
    ensures '{' !in p.text
  {
  }

  /** An unbound name is what the failure is about: the first one. */
  lemma {:induction false} FirstUnbound(ps: seq<Piece>, hole: Piece, rest: string, vars: Vars)
    requires GoodPieces(ps) && Bound(ps, vars) && hole.Hole? && GoodPiece(hole) && hole.name !in vars
    ensures Substitute(WrittenAll(ps) + (Written(hole) + rest), vars) == Throw("unresolved {{" + hole.name + "}}")
    decreases |ps|
  {
    hide GoodPiece, RefAt, Written;
    var tail := Written(hole) + rest;
    HoleIsFound(hole, rest);
    if ps == [] {
      assert WrittenAll(ps) + tail == tail;
    } else {
      var more := ps[1..];
      assert forall i | 0 <= i < |more| :: more[i] == ps[i + 1];
      FirstUnbound(more, hole, rest, vars);
      assert GoodPiece(ps[0]);
      assert WrittenAll(ps) + tail == Written(ps[0]) + (WrittenAll(more) + tail);
      ThrowGoesOn(ps[0], WrittenAll(more) + tail, vars);
    }
  }

  lemma ThrowGoesOn(p: Piece, rest: string, vars: Vars)
    requires GoodPiece(p) && (p.Hole? ==> p.name in vars) && Substitute(rest, vars).Throw?
    ensures Substitute(Written(p) + rest, vars) == Substitute(rest, vars)
  {
    hide RefAt;
    match p
    case Lit(text) => LitIsKept(text, rest, vars);
    case Hole(_, _, _) => HoleIsFound(p, rest);
  }
}
