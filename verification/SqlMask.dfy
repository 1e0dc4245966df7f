/** The scanner that blanks everything in a statement that is not SQL code, and the test
    for a query made on its result. */
module SqlMask {
  import opened Text

  /** What a statement begins with. */
  datatype Opening = Code | LineComment | BlockComment | DollarTag(length: nat) | Quote | Bracket

  /** The first position from `i` on that no longer holds an identifier character. */
  function IdentEnd(s: string, i: nat): (r: nat)
    requires i <= |s|
    ensures i <= r <= |s|
    decreases |s| - i
  {
    if i < |s| && IsIdentChar(s[i]) then IdentEnd(s, i + 1) else i
  }

  /** `^\$[A-Za-z_][A-Za-z0-9_]*\$|^\$\$`: the length of the match, 0 for none. */
  function DollarTagLength(s: string): (n: nat)
    ensures n <= |s|
  {
    if |s| < 2 || s[0] != '$' then 0
    else if s[1] == '$' then 2
    else if !IsIdentStart(s[1]) then 0
    else
      var end := IdentEnd(s, 2);
      if end < |s| && s[end] == '$' then end + 1 else 0
  }

  function OpeningOf(s: string): (o: Opening)
    requires s != ""
    ensures o.DollarTag? ==> 2 <= o.length <= |s|
  {
    if StartsWith(s, "--") then LineComment
    else if StartsWith(s, "/*") then BlockComment
    else if DollarTagLength(s) != 0 then DollarTag(DollarTagLength(s))
    else if s[0] == '\'' || s[0] == '\"' || s[0] == '`' then Quote
    else if s[0] == '[' then Bracket
    else Code
  }

  /** `s.indexOf(t, i)` */
  function Find(s: string, t: string, i: nat): (r: Option<nat>)
    ensures r.Some? ==> i <= r.value && r.value + |t| <= |s|
    decreases |s| - i
  {
    if i + |t| > |s| then None
    else if s[i..i + |t|] == t then Some(i)
    else Find(s, t, i + 1)
  }

  /** The end of a token closed by `t`: an unclosed one runs to the end. */
  function EndAfter(s: string, t: string, i: nat): (n: nat)
    requires i <= |s|
    ensures i <= n <= |s|
  {
    match Find(s, t, i)
    case None => |s|
    case Some(p) => p + |t|
  }

  /** The end of a quoted text; a doubled quote is part of it. */
  function QuoteEnd(s: string, i: nat, quote: char): (n: nat)
    requires i <= |s| + 1
    ensures i < |s| ==> i < n
    ensures n <= |s| || n == i
    decreases |s| + 1 - i
  {
    if i >= |s| then if i > |s| then |s| else i
    else if s[i] != quote then QuoteEnd(s, i + 1, quote)
    else if i + 1 < |s| && s[i + 1] == quote then QuoteEnd(s, i + 2, quote)
    else i + 1
  }

  function TokenLength(s: string): (n: nat)
    requires s != ""
    ensures 1 <= n <= |s|
  {
    match OpeningOf(s)
    case LineComment => EndAfter(s, "\n", 2)
    case BlockComment => EndAfter(s, "*/", 2)
    case DollarTag(k) => EndAfter(s, s[..k], k)
    case Quote => QuoteEnd(s, 1, s[0])
    case Bracket => EndAfter(s, "]", 1)
    case Code => 1
  }

  /** Every character but a newline becomes a space. */
  function Blank(s: string): (r: string)
    ensures |r| == |s|
  {
    seq(|s|, i requires 0 <= i < |s| => if s[i] == '\n' then '\n' else ' ')
  }

  function Mask(s: string): (r: string)
    ensures |r| == |s|
    decreases |s|
  {
    if s == "" then ""
    else
      var n := TokenLength(s);
      (if OpeningOf(s) == Code then s[..n] else Blank(s[..n])) + Mask(s[n..])
  }

  // ----- the scanner ----------------------------------------------------------

  lemma {:induction false} FindInRest(s: string, t: string, i: nat, from: nat)
    requires from <= |s|
    ensures Find(s[from..], t, i) == match Find(s, t, from + i) case None => None case Some(p) => Some(p - from)
    decreases |s| - i
  {
    if from + i + |t| <= |s| {
      assert s[from..][i..i + |t|] == s[from + i..from + i + |t|];
      if s[from + i..from + i + |t|] != t { FindInRest(s, t, i + 1, from); }
    }
  }

  lemma MaskStep(s: string)
    requires s != ""
    ensures var n := TokenLength(s);
      Mask(s) == (if OpeningOf(s) == Code then s[..n] else Blank(s[..n])) + Mask(s[n..])
  {
  }

  method MaskSqlNonCode(statement: string) returns (masked: string)
    ensures masked == Mask(statement)
  {
    hide Mask, OpeningOf, TokenLength, Blank;
    masked := "";
    var i := 0;
    assert statement[0..] == statement;
    while i < |statement|
      invariant 0 <= i <= |statement|
      invariant masked + Mask(statement[i..]) == Mask(statement)
    {
      ghost var rest := statement[i..];
      MaskStep(rest);
      var next := NextToken(statement, i);
      var piece := statement[i..next];
      assert rest[..next - i] == piece && rest[next - i..] == statement[next..];
      masked := masked + if OpeningOf(statement[i..]) == Code then piece else Blank(piece);
      i := next;
    }
    assert Mask(statement[i..]) == "";
  }

  /** Where the token at `i` ends. */
  method NextToken(statement: string, i: nat) returns (next: nat)
    requires i < |statement|
    ensures next == i + TokenLength(statement[i..])
  {
    hide OpeningOf, Find, QuoteEnd;
    var rest := statement[i..];
    match OpeningOf(rest) {
      case LineComment =>
        FindInRest(statement, "\n", 2, i);
        var end := Find(statement, "\n", i + 2);
        next := if end.None? then |statement| else end.value + 1;
      case BlockComment =>
        FindInRest(statement, "*/", 2, i);
        var end := Find(statement, "*/", i + 2);
        next := if end.None? then |statement| else end.value + 2;
      case DollarTag(k) =>
        var tag := rest[..k];
        FindInRest(statement, tag, k, i);
        var end := Find(statement, tag, i + k);
        next := if end.None? then |statement| else end.value + k;
      case Quote =>
        next := ScanQuote(statement, i);
      case Bracket =>
        FindInRest(statement, "]", 1, i);
        var end := Find(statement, "]", i + 1);
        next := if end.None? then |statement| else end.value + 1;
      case Code =>
        next := i + 1;
    }
  }

  method ScanQuote(statement: string, i: nat) returns (next: nat)
    requires i < |statement|
    ensures next == i + QuoteEnd(statement[i..], 1, statement[i])
  {
    var quote := statement[i];
    ghost var rest := statement[i..];
    next := i + 1;
    while next < |statement|
      invariant i + 1 <= next <= |statement|
      invariant QuoteEnd(rest, next - i, quote) == QuoteEnd(rest, 1, quote)
    {
      assert rest[next - i] == statement[next];
      if statement[next] != quote {
        next := next + 1;
      } else if next + 1 < |statement| && statement[next + 1] == quote {
        assert rest[next + 1 - i] == statement[next + 1];
        next := next + 2;
      } else {
        assert next + 1 < |statement| ==> rest[next + 1 - i] == statement[next + 1];
        next := next + 1;
        return;
      }
    }
  }

  // ----- character by character -----------------------------------------------

  /** Length kept; newlines exactly where they were; all else the input's or a blank. */
  lemma {:induction false} MaskKeepsShape(s: string, i: nat)
    requires i < |s|
    ensures Mask(s)[i] == s[i] || Mask(s)[i] == ' '
    ensures Mask(s)[i] == '\n' <==> s[i] == '\n'
    decreases |s|
  {
    hide TokenLength, OpeningOf;
    var n := TokenLength(s);
    if i >= n {
      MaskKeepsShape(s[n..], i - n);
      assert s[n..][i - n] == s[i];
    }
  }

  /** Nothing in the text opens a token. */
  predicate AllCode(s: string) {
    forall i | 0 <= i < |s| :: OpeningOf(s[i..]) == Code
  }

  lemma {:induction false} IdentEndIs(s: string, i: nat)
    requires i <= |s|
    ensures var r := IdentEnd(s, i); (forall k | i <= k < r :: IsIdentChar(s[k])) && (r < |s| ==> !IsIdentChar(s[r]))
    decreases |s| - i
  {
    if i < |s| && IsIdentChar(s[i]) { IdentEndIs(s, i + 1); }
  }

  /** A tag is read off its own characters alone. */
  lemma TagIsItsCharacters(s: string, t: string)
    requires DollarTagLength(s) != 0 && DollarTagLength(s) <= |t| && t[..DollarTagLength(s)] == s[..DollarTagLength(s)]
    ensures DollarTagLength(t) == DollarTagLength(s)
  {
    var n := DollarTagLength(s);
    assert forall k | 0 <= k < n :: t[k] == s[..n][k];
    if n > 2 || s[1] != '$' {
      IdentEndIs(s, 2);
      IdentEndIs(t, 2);
    }
  }

  lemma TagIsNotBlank(s: string)
    ensures forall k | 0 <= k < DollarTagLength(s) :: s[k] != ' ' && s[k] != '\n'
  {
    if DollarTagLength(s) > 2 { IdentEndIs(s, 2); }
  }

  /** If the text begins with code, so does its mask. */
  lemma CodeStaysCode(s: string)
    requires s != "" && OpeningOf(s) == Code
    ensures OpeningOf(Mask(s)) == Code
  {
    hide TokenLength, DollarTagLength, Mask;
    var m := Mask(s);
    assert m[0] == s[0] by { FirstStays(s); }
    if |s| > 1 { MaskKeepsShape(s, 1); assert m[..2] == [m[0], m[1]] && s[..2] == [s[0], s[1]]; }
    if DollarTagLength(m) != 0 {
      var n := DollarTagLength(m);
      TagIsNotBlank(m);
      assert m[..n] == s[..n] by {
        forall k | 0 <= k < n ensures m[k] == s[k] { MaskKeepsShape(s, k); }
      }
      TagIsItsCharacters(m, s);
    }
  }

  lemma FirstStays(s: string)
    requires s != "" && OpeningOf(s) == Code
    ensures Mask(s)[0] == s[0]
  {
  }

  lemma BlankIsCode(s: string)
    requires s != "" && (s[0] == ' ' || s[0] == '\n')
    ensures OpeningOf(s) == Code
  {
  }

  /** The mask holds no quote, bracket, comment or dollar-tag opener anywhere. */
  lemma {:induction false} MaskIsAllCode(s: string)
    ensures AllCode(Mask(s))
    decreases |s|
  {
    hide OpeningOf, TokenLength;
    if s != "" {
      var n, m := TokenLength(s), Mask(s);
      MaskIsAllCode(s[n..]);
      forall i | 0 <= i < |m| ensures OpeningOf(m[i..]) == Code {
        if i >= n {
          assert m[i..] == Mask(s[n..])[i - n..];
        } else if OpeningOf(s) == Code {
          assert n == 1 by { CodeIsOne(s); }
          assert m[0..] == m;
          CodeStaysCode(s);
        } else {
          assert m[i..][0] == Blank(s[..n])[i];
          BlankIsCode(m[i..]);
        }
      }
    }
  }

  lemma CodeIsOne(s: string)
    requires s != "" && OpeningOf(s) == Code
    ensures TokenLength(s) == 1
  {
  }

  lemma {:induction false} AllCodeIsKept(s: string)
    requires AllCode(s)
    ensures Mask(s) == s
    decreases |s|
  {
    hide OpeningOf, TokenLength;
    if s != "" {
      assert s[0..] == s;
      CodeIsOne(s);
      assert forall i | 0 <= i < |s[1..]| :: s[1..][i..] == s[i + 1..];
      AllCodeIsKept(s[1..]);
      assert s == s[..1] + s[1..];
    }
  }

  lemma MaskTwice(s: string)
    ensures Mask(Mask(s)) == Mask(s)
  {
    hide Mask, AllCode;
    MaskIsAllCode(s);
    AllCodeIsKept(Mask(s));
  }

  // ----- token boundaries -----------------------------------------------------

  /** The scan passes through position `n`. */
  predicate Boundary(s: string, n: nat)
    decreases |s|
  {
    n == 0 || (s != "" && TokenLength(s) <= n && Boundary(s[TokenLength(s)..], n - TokenLength(s)))
  }

  /** An occurrence that ends within the first `n` characters is found there too. */
  lemma {:induction false} FindInPrefix(s: string, t: string, i: nat, n: nat)
    requires n <= |s|
    ensures Find(s[..n], t, i) ==
            match Find(s, t, i)
            case None => None
            case Some(p) => if p + |t| <= n then Some(p) else None
    decreases |s| - i
  {
    if i + |t| <= n {
      assert s[..n][i..i + |t|] == s[i..i + |t|];
      if s[i..i + |t|] != t { FindInPrefix(s, t, i + 1, n); }
    }
  }

  lemma {:induction false} IdentEndInPrefix(s: string, i: nat, n: nat)
    requires i <= n <= |s|
    ensures IdentEnd(s[..n], i) == if IdentEnd(s, i) <= n then IdentEnd(s, i) else n
    decreases |s| - i
  {
    if i < n && IsIdentChar(s[i]) { IdentEndInPrefix(s, i + 1, n); }
  }

  lemma {:induction false} QuoteEndInPrefix(s: string, i: nat, quote: char, n: nat)
    requires i <= n <= |s| && QuoteEnd(s, i, quote) <= n
    ensures QuoteEnd(s[..n], i, quote) == QuoteEnd(s, i, quote)
    decreases |s| - i
  {
    if i < n {
      if s[i] != quote { QuoteEndInPrefix(s, i + 1, quote, n); }
      else if i + 1 < |s| && s[i + 1] == quote {
        assert i + 2 <= n by { QuoteRuns(s, i + 2, quote); }
        QuoteEndInPrefix(s, i + 2, quote, n);
      }
    }
  }

  lemma QuoteRuns(s: string, i: nat, quote: char)
    requires i <= |s|
    ensures QuoteEnd(s, i, quote) >= i
  {
  }

  /** How far an opening looks. */
  function Reach(o: Opening): nat {
    match o
    case LineComment => 2
    case BlockComment => 2
    case DollarTag(k) => k
    case _ => 1
  }

  lemma OpeningInPrefix(s: string, n: nat)
    requires 1 <= n <= |s| && Reach(OpeningOf(s)) <= n
    ensures OpeningOf(s[..n]) == OpeningOf(s)
  {
    var p := s[..n];
    if n >= 2 { assert p[..2] == s[..2]; }
    var k := DollarTagLength(s);
    if k != 0 && k <= n { assert p[..k] == s[..k]; TagIsItsCharacters(s, p); }
    if DollarTagLength(p) != 0 { assert s[..DollarTagLength(p)] == p[..DollarTagLength(p)]; TagIsItsCharacters(p, s); }
  }

  lemma ReachIsWithin(s: string)
    requires s != ""
    ensures Reach(OpeningOf(s)) <= TokenLength(s)
  {
    hide Find, QuoteEnd;
  }

  lemma TokenInPrefix(s: string, n: nat)
    requires s != "" && TokenLength(s) <= n <= |s|
    ensures TokenLength(s[..n]) == TokenLength(s) && OpeningOf(s[..n]) == OpeningOf(s)
  {
    ReachIsWithin(s);
    OpeningInPrefix(s, n);
    hide OpeningOf, Find, QuoteEnd;
    match OpeningOf(s)
    case LineComment => FindInPrefix(s, "\n", 2, n);
    case BlockComment => FindInPrefix(s, "*/", 2, n);
    case DollarTag(k) => assert s[..n][..k] == s[..k]; FindInPrefix(s, s[..k], k, n);
    case Quote => QuoteEndInPrefix(s, 1, s[0], n);
    case Bracket => FindInPrefix(s, "]", 1, n);
    case Code =>
  }

  /** Masking splits over concatenation at every token boundary. */
  lemma {:induction false} MaskSplits(a: string, b: string)
    requires Boundary(a + b, |a|)
    ensures Mask(a + b) == Mask(a) + Mask(b)
    decreases |a|
  {
    hide TokenLength, OpeningOf, Mask, Blank;
    var s := a + b;
    if a == "" {
      assert Mask(a) == "";
      assert s == b;
    } else {
      var n := TokenLength(s);
      TokenInPrefix(s, |a|);
      assert s[..|a|] == a && s[n..] == a[n..] + b && s[..n] == a[..n];
      MaskStep(s);
      MaskStep(a);
      MaskSplits(a[n..], b);
    }
  }

  // ----- the inside of a token does not matter --------------------------------

  /** Openings look at most one character past a text, if an identifier ends there. */
  lemma OpeningAhead(a: string, x: string, y: string)
    requires a != "" && x != "" && y != "" && x[0] == y[0] && !IsIdentChar(x[0])
    ensures OpeningOf(a + x) == OpeningOf(a + y)
  {
    var s, t := a + x, a + y;
    assert s[1] == t[1] && s[..2] == [s[0], s[1]] && t[..2] == [t[0], t[1]];
    if s[0] == '$' && s[1] != '$' && IsIdentStart(s[1]) && |a| >= 2 {
      IdentEndInPrefix(s, 2, |a|);
      IdentEndInPrefix(t, 2, |a|);
      assert s[..|a|] == a == t[..|a|];
      IdentEndIs(s, 2);
      IdentEndIs(t, 2);
      assert s[|a|] == x[0] && t[|a|] == y[0];
      assert IdentEnd(s, 2) <= |a| && IdentEnd(t, 2) <= |a|;
    }
  }

  lemma {:induction false} QuoteEndAhead(a: string, x: string, y: string, i: nat, quote: char)
    requires i <= |a| && x != "" && y != "" && x[0] == y[0]
    ensures var m, n := QuoteEnd(a + x, i, quote), QuoteEnd(a + y, i, quote); m == n || (m > |a| && n > |a|)
    decreases |a| - i
  {
    var s, t := a + x, a + y;
    if i < |a| {
      assert s[i] == t[i] == a[i] && s[i + 1] == t[i + 1];
      if s[i] != quote { QuoteEndAhead(a, x, y, i + 1, quote); }
      else if s[i + 1] == quote {
        if i + 2 <= |a| {
          QuoteEndAhead(a, x, y, i + 2, quote);
        } else {
          QuoteRuns(s, i + 2, quote);
          QuoteRuns(t, i + 2, quote);
        }
      }
    }
  }

  lemma EndAhead(a: string, x: string, y: string, t: string, i: nat)
    requires i <= |a| && x != "" && y != ""
    ensures var m, n := EndAfter(a + x, t, i), EndAfter(a + y, t, i); m == n || (m > |a| && n > |a|)
  {
    assert (a + x)[..|a|] == a == (a + y)[..|a|];
    FindInPrefix(a + x, t, i, |a|);
    FindInPrefix(a + y, t, i, |a|);
  }

  lemma TokenAhead(a: string, x: string, y: string)
    requires a != "" && x != "" && y != "" && x[0] == y[0] && !IsIdentChar(x[0])
    ensures var m, n := TokenLength(a + x), TokenLength(a + y); m == n || (m > |a| && n > |a|)
  {
    OpeningAhead(a, x, y);
    var s, t := a + x, a + y;
    ReachIsWithin(s);
    ReachIsWithin(t);
    assert s[0] == t[0] == a[0];
    hide OpeningOf, EndAfter, QuoteEnd;
    match OpeningOf(s)
    case LineComment => if |a| >= 2 { EndAhead(a, x, y, "\n", 2); }
    case BlockComment => if |a| >= 2 { EndAhead(a, x, y, "*/", 2); }
    case DollarTag(k) => if |a| >= k { assert s[..k] == a[..k] == t[..k]; EndAhead(a, x, y, a[..k], k); }
    case Quote => QuoteEndAhead(a, x, y, 1, a[0]);
    case Bracket => EndAhead(a, x, y, "]", 1);
    case Code =>
  }

  lemma {:induction false} BoundaryAhead(a: string, x: string, y: string)
    requires x != "" && y != "" && x[0] == y[0] && !IsIdentChar(x[0]) && Boundary(a + x, |a|)
    ensures Boundary(a + y, |a|)
    decreases |a|
  {
    hide TokenLength;
    if a != "" {
      var n := TokenLength(a + x);
      TokenAhead(a, x, y);
      assert (a + x)[n..] == a[n..] + x && (a + y)[n..] == a[n..] + y;
      BoundaryAhead(a[n..], x, y);
    }
  }

  /** `token` is one literal, quoted name or comment in front of `after`. */
  predicate IsNonCode(token: string, after: string) {
    token != "" && OpeningOf(token + after) != Code && TokenLength(token + after) == |token|
  }

  lemma OpenersAreNotIdent(s: string)
    requires s != "" && OpeningOf(s) != Code
    ensures !IsIdentChar(s[0])
  {
  }

  lemma TokenIsBlanked(token: string, after: string)
    requires IsNonCode(token, after)
    ensures Mask(token + after) == Blank(token) + Mask(after)
  {
    hide OpeningOf, TokenLength;
    assert (token + after)[..|token|] == token && (token + after)[|token|..] == after;
  }

  /** Rewriting the inside of a literal or comment, length and newlines kept, leaves the
      mask as it was. */
  lemma InsideDoesNotMatter(before: string, token: string, token': string, after: string)
    requires Boundary(before + (token + after), |before|)
    requires IsNonCode(token, after) && IsNonCode(token', after)
    requires token[0] == token'[0] && Blank(token) == Blank(token')
    ensures Mask(before + (token + after)) == Mask(before + (token' + after))
  {
    hide OpeningOf, TokenLength, Mask, Boundary, Blank;
    var x, y := token + after, token' + after;
    OpenersAreNotIdent(x);
    BoundaryAhead(before, x, y);
    MaskSplits(before, x);
    MaskSplits(before, y);
    TokenIsBlanked(token, after);
    TokenIsBlanked(token', after);
  }

  // ----- the query test -------------------------------------------------------

  predicate IsWordChar(c: char) {
    IsIdentChar(c)
  }

  /** The word stands in `s` at `i`, between word boundaries. */
  predicate WordAt(s: string, word: string, i: nat) {
    && i + |word| <= |s| && s[i..i + |word|] == word
    && (i > 0 ==> !IsWordChar(s[i - 1]))
    && (i + |word| < |s| ==> !IsWordChar(s[i + |word|]))
  }

  predicate HasWord(s: string, word: string) {
    exists i: nat | i < |s| :: WordAt(s, word, i)
  }

  /** `isQuery`, for any upper-casing. */
  predicate IsQuery(s: string, upper: string -> string) {
    var normalized := upper(Trim(Mask(s)));
    || WordAt(normalized, "SELECT", 0) || WordAt(normalized, "PRAGMA", 0)
    || WordAt(normalized, "EXPLAIN", 0) || WordAt(normalized, "VALUES", 0)
    || (StartsWith(normalized, "WITH")
        && !HasWord(normalized, "INSERT") && !HasWord(normalized, "UPDATE") && !HasWord(normalized, "DELETE"))
  }

  /** What a literal or comment says never decides whether a statement is a query. */
  lemma QueryIgnoresLiterals(before: string, token: string, token': string, after: string, upper: string -> string)
    requires Boundary(before + (token + after), |before|)
    requires IsNonCode(token, after) && IsNonCode(token', after)
    requires token[0] == token'[0] && Blank(token) == Blank(token')
    ensures IsQuery(before + (token + after), upper) <==> IsQuery(before + (token' + after), upper)
  {
    hide Mask, Boundary, IsNonCode, Blank;
    InsideDoesNotMatter(before, token, token', after);
  }
}
