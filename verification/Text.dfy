/** Options, outcomes of calls that may throw, and the few JavaScript string
    operations the modelled programs are built from. */
module Text {

  datatype Option<+T> = None | Some(value: T)

  /** The result of a call that either returns or throws with a message. */
  datatype Outcome<+T> = Ok(value: T) | Throw(message: string)

  // ----- characters -----------------------------------------------------------

  /** White space as `\s` and `trim` understand it. */
  predicate IsSpace(c: char) {
    || c == ' ' || '\t' <= c <= '\r' || c == '\U{00A0}' || c == '\U{1680}'
    || '\U{2000}' <= c <= '\U{200A}' || c == '\U{2028}' || c == '\U{2029}'
    || c == '\U{202F}' || c == '\U{205F}' || c == '\U{3000}' || c == '\U{FEFF}'
  }

  /** The characters `.` does not match in a regular expression. */
  predicate IsLineEnd(c: char) {
    c == '\n' || c == '\r' || c == '\U{2028}' || c == '\U{2029}'
  }

  predicate IsIdentStart(c: char) {
    'A' <= c <= 'Z' || 'a' <= c <= 'z' || c == '_'
  }

  predicate IsIdentChar(c: char) {
    IsIdentStart(c) || '0' <= c <= '9'
  }

  /** `[A-Za-z_][A-Za-z0-9_]*` */
  predicate IsIdent(s: string) {
    s != "" && IsIdentStart(s[0]) && forall i | 0 <= i < |s| :: IsIdentChar(s[i])
  }

  // ----- searching ------------------------------------------------------------

  predicate StartsWith(s: string, t: string) {
    |t| <= |s| && s[..|t|] == t
  }

  predicate EndsWithNewline(s: string) {
    s != "" && s[|s| - 1] == '\n'
  }

  /** Index of the first `c`, or -1. */
  function IndexOf(s: string, c: char): (r: int)
    ensures -1 <= r < |s|
  {
    if s == "" then -1
    else if s[0] == c then 0
    else
      var r := IndexOf(s[1..], c);
      if r == -1 then -1 else r + 1
  }

  lemma {:induction false} IndexOfIsFirst(s: string, c: char)
    ensures var r := IndexOf(s, c);
      if r == -1 then c !in s else s[r] == c && c !in s[..r]
  {
    if s != "" && s[0] != c {
      IndexOfIsFirst(s[1..], c);
      var r := IndexOf(s[1..], c);
      assert s == [s[0]] + s[1..];
      if r != -1 { assert s[..r + 1] == [s[0]] + s[1..][..r]; }
    }
  }

  lemma {:induction false} IndexOfAfter(a: string, c: char, b: string)
    requires c !in a
    ensures IndexOf(a + [c] + b, c) == |a|
  {
    if a != "" {
      assert (a + [c] + b)[1..] == a[1..] + [c] + b;
      IndexOfAfter(a[1..], c, b);
    }
  }

  /** Whether `t` occurs somewhere in `s`. */
  predicate Includes(s: string, t: string)
    decreases |s|
  {
    StartsWith(s, t) || (s != "" && Includes(s[1..], t))
  }

  // ----- trimming -------------------------------------------------------------

  function TrimStart(s: string): (r: string)
    ensures |r| <= |s|
  {
    if s == "" || !IsSpace(s[0]) then s else TrimStart(s[1..])
  }

  function TrimEnd(s: string): (r: string)
    ensures |r| <= |s|
  {
    if s == "" || !IsSpace(s[|s| - 1]) then s else TrimEnd(s[..|s| - 1])
  }

  lemma {:induction false} TrimStartDropsSpace(s: string)
    ensures var r := TrimStart(s);
      && r == s[|s| - |r|..]
      && (forall k | 0 <= k < |s| - |r| :: IsSpace(s[k]))
      && (r != "" ==> !IsSpace(r[0]))
  {
    if s != "" && IsSpace(s[0]) { TrimStartDropsSpace(s[1..]); }
  }

  lemma {:induction false} TrimEndDropsSpace(s: string)
    ensures var r := TrimEnd(s);
      && r == s[..|r|]
      && (forall k | |r| <= k < |s| :: IsSpace(s[k]))
      && (r != "" ==> !IsSpace(r[|r| - 1]))
  {
    if s != "" && IsSpace(s[|s| - 1]) { TrimEndDropsSpace(s[..|s| - 1]); }
  }

  function Trim(s: string): string {
    TrimEnd(TrimStart(s))
  }

  /** The leading white space of a line. */
  function Indent(s: string): string {
    s[..|s| - |TrimStart(s)|]
  }

  lemma IndentIsSpace(s: string)
    ensures s == Indent(s) + TrimStart(s)
    ensures forall k | 0 <= k < |Indent(s)| :: IsSpace(Indent(s)[k])
  {
    TrimStartDropsSpace(s);
  }

  /** A text with no white space at either end is its own trimming. */
  lemma TrimOfTrimmed(s: string)
    requires s == "" || (!IsSpace(s[0]) && !IsSpace(s[|s| - 1]))
    ensures Trim(s) == s
  {
  }

  lemma {:induction false} TrimStartSkips(ws: string, s: string)
    requires forall k | 0 <= k < |ws| :: IsSpace(ws[k])
    ensures TrimStart(ws + s) == TrimStart(s)
  {
    if ws == "" {
      assert ws + s == s;
    } else {
      assert (ws + s)[1..] == ws[1..] + s;
      TrimStartSkips(ws[1..], s);
    }
  }

  /** White space put in front of a text is trimmed away again. */
  lemma TrimSkipsIndent(ws: string, s: string)
    requires forall k | 0 <= k < |ws| :: IsSpace(ws[k])
    ensures Trim(ws + s) == Trim(s)
  {
    TrimStartSkips(ws, s);
  }

  predicate Blanks(s: string) {
    forall i | 0 <= i < |s| :: IsSpace(s[i])
  }

  /** A text with something on both ends. */
  predicate Edged(s: string) {
    s != "" && !IsSpace(s[0]) && !IsSpace(s[|s| - 1])
  }

  lemma {:induction false} TrimOfBlanks(s: string)
    requires Blanks(s)
    ensures Trim(s) == ""
  {
    TrimStartSkips(s, "");
    assert s + "" == s;
  }

  lemma {:induction false} TrimEndOf(text: string, after: string)
    requires Edged(text) && Blanks(after)
    ensures TrimEnd(text + after) == text
    decreases |after|
  {
    hide IsSpace;
    if after == "" {
      assert text + after == text;
    } else {
      assert (text + after)[..|text + after| - 1] == text + after[..|after| - 1];
      TrimEndOf(text, after[..|after| - 1]);
    }
  }

  lemma TrimOfText(before: string, text: string, after: string)
    requires Blanks(before) && Edged(text) && Blanks(after)
    ensures Trim(before + text + after) == text
  {
    hide IsSpace;
    assert before + text + after == before + (text + after);
    TrimStartSkips(before, text + after);
    assert TrimStart(text + after) == text + after;
    TrimEndOf(text, after);
  }

  lemma TrimSubset(s: string)
    ensures forall c | c in Trim(s) :: c in s
  {
    TrimStartDropsSpace(s);
    var a := TrimStart(s);
    TrimEndDropsSpace(a);
    forall c | c in Trim(s) ensures c in s {
      assert c in a;
    }
  }

  lemma TrimTwice(s: string)
    ensures Trim(Trim(s)) == Trim(s)
  {
    TrimStartDropsSpace(s);
    var a := TrimStart(s);
    TrimEndDropsSpace(a);
    var b := TrimEnd(a);
    if b != "" {
      assert b[0] == a[0];
      TrimOfTrimmed(b);
    }
  }

  // ----- splitting into pieces ------------------------------------------------

  /** `s.split(sep)` for a one-character separator. */
  function Split(s: string, sep: char): (r: seq<string>)
    ensures |r| >= 1
  {
    if s == "" then [""]
    else
      var rest := Split(s[1..], sep);
      if s[0] == sep then [""] + rest else [[s[0]] + rest[0]] + rest[1..]
  }

  /** `parts.join(sep)` */
  function Join(parts: seq<string>, sep: char): string {
    if parts == [] then ""
    else if |parts| == 1 then parts[0]
    else parts[0] + [sep] + Join(parts[1..], sep)
  }

  function Lines(s: string): (r: seq<string>)
    ensures |r| >= 1
  {
    Split(s, '\n')
  }

  function Unlines(ls: seq<string>): string {
    Join(ls, '\n')
  }

  /** Every piece is free of the separator. */
  predicate FreeOf(parts: seq<string>, sep: char) {
    forall i | 0 <= i < |parts| :: sep !in parts[i]
  }

  lemma {:induction false} PiecesAreFree(s: string, sep: char)
    ensures FreeOf(Split(s, sep), sep)
  {
    if s != "" { PiecesAreFree(s[1..], sep); }
  }

  lemma {:induction false} SplitOfPiece(s: string, sep: char)
    requires sep !in s
    ensures Split(s, sep) == [s]
  {
    if s != "" {
      assert s == [s[0]] + s[1..];
      SplitOfPiece(s[1..], sep);
    }
  }

  lemma {:induction false} SplitAtSeparator(a: string, b: string, sep: char)
    ensures Split(a + [sep] + b, sep) == Split(a, sep) + Split(b, sep)
  {
    var s := a + [sep] + b;
    if a == "" {
      assert s[1..] == b;
    } else {
      assert s[1..] == a[1..] + [sep] + b;
      SplitAtSeparator(a[1..], b, sep);
    }
  }

  lemma {:induction false} JoinOfSplit(s: string, sep: char)
    ensures Join(Split(s, sep), sep) == s
  {
    if s != "" {
      JoinOfSplit(s[1..], sep);
      var rest := Split(s[1..], sep);
      if s[0] == sep {
        assert ([""] + rest)[1..] == rest;
        assert s == [sep] + s[1..];
      } else {
        var r := [[s[0]] + rest[0]] + rest[1..];
        assert r[1..] == rest[1..];
        assert s == [s[0]] + s[1..];
        if |rest| > 1 {
          assert s == ([s[0]] + rest[0]) + [sep] + Join(rest[1..], sep);
        }
      }
    }
  }

  lemma {:induction false} SplitOfJoin(parts: seq<string>, sep: char)
    requires parts != []
    requires FreeOf(parts, sep)
    ensures Split(Join(parts, sep), sep) == parts
  {
    SplitOfPiece(parts[0], sep);
    if |parts| > 1 {
      SplitOfJoin(parts[1..], sep);
      SplitAtSeparator(parts[0], Join(parts[1..], sep), sep);
    }
  }

  /** A file that ends in a newline has an empty last line. */
  lemma LinesOfTerminated(s: string)
    requires EndsWithNewline(s)
    ensures Lines(s) == Lines(s[..|s| - 1]) + [""]
  {
    assert s == s[..|s| - 1] + ['\n'] + "";
    SplitAtSeparator(s[..|s| - 1], "", '\n');
  }
}
