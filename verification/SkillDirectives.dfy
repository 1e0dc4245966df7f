/** The `nc:` directives embedded in a SKILL.md: the fence scanner, the header
    grammar, and the proof that a document written in the grammar is read back
    as exactly the directives it carries. */
module SkillDirectives {
  import opened Text

  datatype Kind =
    | Copy | Append | Dep | Run | Prompt | Operator | EnvSet | JsonMerge
    | Other(name: string)

  datatype Directive = Directive(
    kind: Kind,
    args: seq<string>,          // positional bare tokens
    attrs: map<string, string>, // key:value tokens
    body: seq<string>,          // trimmed, non-empty lines
    line: nat)                  // 1-based line of the opening fence
  {
    function Attr(name: string): Option<string> {
      if name in attrs then Some(attrs[name]) else None
    }

    /** The attribute is present and not the empty string. */
    predicate Truthy(name: string) {
      name in attrs && attrs[name] != ""
    }

    predicate Is(name: string, value: string) {
      name in attrs && attrs[name] == value
    }
  }

  function KindOf(tag: string): Kind {
    if tag == "copy" then Copy
    else if tag == "append" then Append
    else if tag == "dep" then Dep
    else if tag == "run" then Run
    else if tag == "prompt" then Prompt
    else if tag == "operator" then Operator
    else if tag == "env-set" then EnvSet
    else if tag == "json-merge" then JsonMerge
    else Other(tag)
  }

  // ----- one line: is it a fence? ---------------------------------------------

  /** How a line matches the fence expression: not at all, with nothing after the
      backticks, or with an info string (trimmed). */
  datatype Fence = NotFence | BareFence | InfoFence(info: string)

  const TICKS: string := "```"

  function FenceOf(line: string): Fence {
    if !StartsWith(line, TICKS) then NotFence
    else if |line| == 3 then BareFence
    else if !IsSpace(line[3]) && forall i | 4 <= i < |line| :: !IsLineEnd(line[i])
    then InfoFence(Trim(line[3..]))
    else NotFence
  }

  /** Only a fence with an info string opens a block: for a bare fence the
      expression's group is undefined, and the scanner walks on. */
  predicate Opens(line: string) {
    FenceOf(line).InfoFence?
  }

  predicate Closes(line: string) {
    !FenceOf(line).NotFence?
  }

  // ----- one header -----------------------------------------------------------

  /** Length of the leading run of non-blank characters. */
  function WordLength(s: string): (n: nat)
    ensures n <= |s|
    ensures forall k | 0 <= k < n :: !IsSpace(s[k])
    ensures n < |s| ==> IsSpace(s[n])
  {
    if s == "" || IsSpace(s[0]) then 0 else 1 + WordLength(s[1..])
  }

  /** `s.split(/\s+/)` */
  function Words(s: string): (r: seq<string>)
    ensures |r| >= 1
    decreases |s|
  {
    var n := WordLength(s);
    if n == |s| then [s]
    else
      assert IsSpace(s[n]) && TrimStart(s[n..]) != s[n..];
      [s[..n]] + Words(TrimStart(s[n..]))
  }

  /** A token is an attribute when it has a colon that is not its first character. */
  predicate IsPair(token: string) {
    IndexOf(token, ':') > 0
  }

  function ArgsOf(tokens: seq<string>): seq<string> {
    if tokens == [] then []
    else if IsPair(tokens[0]) then ArgsOf(tokens[1..])
    else [tokens[0]] + ArgsOf(tokens[1..])
  }

  /** Attributes in token order: a later token overwrites an earlier one. */
  function AttrsOf(tokens: seq<string>): map<string, string> {
    if tokens == [] then map[]
    else
      var t := tokens[|tokens| - 1];
      var before := AttrsOf(tokens[..|tokens| - 1]);
      if IsPair(t) then before[t[..IndexOf(t, ':')] := t[IndexOf(t, ':') + 1..]] else before
  }

  /** `lines.map(trim).filter(Boolean)` */
  function CleanBody(lines: seq<string>): seq<string> {
    if lines == [] then []
    else if Trim(lines[0]) == "" then CleanBody(lines[1..])
    else [Trim(lines[0])] + CleanBody(lines[1..])
  }

  const TAG: string := "nc:"

  function Header(info: string, body: seq<string>, line: nat): Directive
    requires StartsWith(info, TAG)
  {
    var words := Words(info);
    Directive(KindOf(if |words[0]| >= 3 then words[0][3..] else ""),
              ArgsOf(words[1..]), AttrsOf(words[1..]), CleanBody(body), line)
  }

  // ----- the scan -------------------------------------------------------------

  /** First fence line at or after `j`, or the end of the document. */
  function BodyEnd(lines: seq<string>, j: nat): (r: nat)
    requires j <= |lines|
    ensures j <= r <= |lines|
    decreases |lines| - j
  {
    if j == |lines| || Closes(lines[j]) then j else BodyEnd(lines, j + 1)
  }

  function ParseFrom(lines: seq<string>, i: nat): seq<Directive>
    decreases |lines| - i
  {
    if i >= |lines| then []
    else match FenceOf(lines[i])
      case InfoFence(info) =>
        var j := BodyEnd(lines, i + 1);
        (if StartsWith(info, TAG) then [Header(info, lines[i + 1..j], i + 1)] else [])
        + ParseFrom(lines, j + 1)
      case _ => ParseFrom(lines, i + 1)
  }

  function Parse(markdown: string): seq<Directive> {
    ParseFrom(Lines(markdown), 0)
  }

  lemma OneMoreToken(tokens: seq<string>, n: nat)
    requires n < |tokens|
    ensures var tok := tokens[n]; var eq := IndexOf(tok, ':');
      && ArgsOf(tokens[n..]) == (if eq > 0 then [] else [tok]) + ArgsOf(tokens[n + 1..])
      && AttrsOf(tokens[..n + 1]) ==
         if eq > 0 then AttrsOf(tokens[..n])[tok[..eq] := tok[eq + 1..]] else AttrsOf(tokens[..n])
  {
    hide IndexOf;
    assert tokens[n..][0] == tokens[n] && tokens[n..][1..] == tokens[n + 1..];
    assert tokens[..n + 1][..n] == tokens[..n];
  }

  method ParseTokens(tokens: seq<string>) returns (args: seq<string>, attrs: map<string, string>)
    ensures args == ArgsOf(tokens) && attrs == AttrsOf(tokens)
  {
    hide IndexOf;
    args, attrs := [], map[];
    assert tokens[0..] == tokens && tokens[..0] == [];
    for n := 0 to |tokens|
      invariant args + ArgsOf(tokens[n..]) == ArgsOf(tokens)
      invariant attrs == AttrsOf(tokens[..n])
    {
      hide ArgsOf, AttrsOf;
      var tok := tokens[n];
      OneMoreToken(tokens, n);
      var eq := IndexOf(tok, ':');
      if eq > 0 {
        attrs := attrs[tok[..eq] := tok[eq + 1..]];
      } else {
        assert args + ([tok] + ArgsOf(tokens[n + 1..])) == (args + [tok]) + ArgsOf(tokens[n + 1..]);
        args := args + [tok];
      }
    }
    assert tokens[..|tokens|] == tokens && tokens[|tokens|..] == [];
  }

  method ReadBody(lines: seq<string>, i: nat) returns (body: seq<string>, j: nat)
    requires i < |lines|
    ensures j == BodyEnd(lines, i + 1) && body == lines[i + 1..j]
  {
    j, body := i + 1, [];
    while j < |lines| && !Closes(lines[j])
      invariant i < j <= |lines|
      invariant body == lines[i + 1..j]
      invariant BodyEnd(lines, i + 1) == BodyEnd(lines, j)
    {
      body := body + [lines[j]];
      j := j + 1;
    }
  }

  method ReadHeader(info: string, body: seq<string>, line: nat) returns (d: Directive)
    requires StartsWith(info, TAG)
    ensures d == Header(info, body, line)
  {
    var words := Words(info);
    var args, attrs := ParseTokens(words[1..]);
    d := Directive(KindOf(if |words[0]| >= 3 then words[0][3..] else ""), args, attrs, CleanBody(body), line);
  }

  method ParseDirectives(markdown: string) returns (out: seq<Directive>)
    ensures out == Parse(markdown)
  {
    hide FenceOf, StartsWith, Header, Lines;
    var lines := Lines(markdown);
    out := [];
    var i := 0;
    while i < |lines|
      invariant out + ParseFrom(lines, i) == Parse(markdown)
    {
      var fence := FenceOf(lines[i]);
      if !fence.InfoFence? {
        i := i + 1;
      } else {
        var body, j := ReadBody(lines, i);
        ghost var rest := ParseFrom(lines, j + 1);
        if StartsWith(fence.info, TAG) {
          var d := ReadHeader(fence.info, body, i + 1);
          assert ParseFrom(lines, i) == [d] + rest;
          out := out + [d];
        } else {
          assert ParseFrom(lines, i) == rest;
        }
        i := j + 1;
      }
    }
  }

  // ----- every document -------------------------------------------------------

  /** A body line as directives carry it. */
  predicate TidyLine(b: string) {
    Trim(b) == b && b != "" && '\n' !in b
  }

  predicate TidyBody(body: seq<string>) {
    forall k | 0 <= k < |body| :: TidyLine(body[k])
  }

  /** Line `n` (counted from 1) opens a directive. */
  predicate OpensDirective(lines: seq<string>, n: nat) {
    0 < n <= |lines| && Opens(lines[n - 1]) && StartsWith(FenceOf(lines[n - 1]).info, TAG)
  }

  lemma {:induction false} CleanBodyIsTidy(lines: seq<string>)
    requires FreeOf(lines, '\n')
    ensures TidyBody(CleanBody(lines))
  {
    if lines != [] {
      CleanBodyIsTidy(lines[1..]);
      TrimSubset(lines[0]);
      TrimTwice(lines[0]);
    }
  }

  /** The directives are in order: each opens on a line of its own, strictly below
      the one before it, the first strictly below line `above`. */
  predicate InOrder(lines: seq<string>, ds: seq<Directive>, above: nat)
    decreases |ds|
  {
    ds == [] ||
    (above < ds[0].line && OpensDirective(lines, ds[0].line) && InOrder(lines, ds[1..], ds[0].line))
  }

  /** What the rest of the engine may rely on for any document whatsoever. */
  predicate Tidy(ds: seq<Directive>) {
    forall n | 0 <= n < |ds| :: TidyBody(ds[n].body)
  }

  lemma InOrderFrom(lines: seq<string>, ds: seq<Directive>, above: nat, below: nat)
    requires InOrder(lines, ds, below) && above <= below
    ensures InOrder(lines, ds, above)
  {
  }

  lemma InOrderWith(lines: seq<string>, d: Directive, ds: seq<Directive>, above: nat)
    requires above < d.line && OpensDirective(lines, d.line) && InOrder(lines, ds, d.line)
    requires TidyBody(d.body) && Tidy(ds)
    ensures InOrder(lines, [d] + ds, above) && Tidy([d] + ds)
  {
    hide OpensDirective, TidyBody;
    assert ([d] + ds)[1..] == ds;
  }

  lemma {:induction false} ParsedInOrder(lines: seq<string>, i: nat)
    requires FreeOf(lines, '\n')
    ensures Tidy(ParseFrom(lines, i)) && InOrder(lines, ParseFrom(lines, i), i)
    decreases |lines| - i
  {
    hide FenceOf, KindOf, ArgsOf, AttrsOf, Words, StartsWith, CleanBody, TidyBody;
    if i >= |lines| {
    } else if Opens(lines[i]) {
      var j := BodyEnd(lines, i + 1);
      ParsedInOrder(lines, j + 1);
      CleanBodyIsTidy(lines[i + 1..j]);
      InOrderFrom(lines, ParseFrom(lines, j + 1), i + 1, j + 1);
      if StartsWith(FenceOf(lines[i]).info, TAG) {
        var d := Header(FenceOf(lines[i]).info, lines[i + 1..j], i + 1);
        InOrderWith(lines, d, ParseFrom(lines, j + 1), i);
      } else {
        InOrderFrom(lines, ParseFrom(lines, j + 1), i, j + 1);
        assert [] + ParseFrom(lines, j + 1) == ParseFrom(lines, j + 1);
      }
    } else {
      ParsedInOrder(lines, i + 1);
      InOrderFrom(lines, ParseFrom(lines, i + 1), i, i + 1);
    }
  }

  /** For any document: the parsed directives stand in order on opening fences, and
      their bodies are trimmed, non-empty lines. */
  lemma ParseIsWellFormed(markdown: string)
    ensures Tidy(Parse(markdown)) && InOrder(Lines(markdown), Parse(markdown), 0)
  {
    PiecesAreFree(markdown, '\n');
    ParsedInOrder(Lines(markdown), 0);
  }

  // ----- two readers, one document --------------------------------------------

  datatype Token = Arg(text: string) | Pair(key: string, val: string)

  /** A document in the header grammar: prose, plain code blocks, directives. */
  datatype Block =
    | Prose(text: seq<string>)
    | Code(info: string, code: seq<string>)
    | Command(tag: string, tokens: seq<Token>, code: seq<string>)

  predicate Blankless(s: string) {
    forall i | 0 <= i < |s| :: !IsSpace(s[i])
  }

  predicate GoodToken(t: Token) {
    match t
    case Arg(s) => s != "" && Blankless(s) && IndexOf(s, ':') <= 0
    case Pair(k, v) => k != "" && ':' !in k && Blankless(k) && Blankless(v)
  }

  predicate PlainLines(ls: seq<string>) {
    forall i | 0 <= i < |ls| :: !Closes(ls[i]) && '\n' !in ls[i]
  }

  /** Prose is free of opening fences, code is free of fences, and a code block's
      info string is not a directive's. */
  predicate GoodBlock(b: Block) {
    match b
    case Prose(text) => forall i | 0 <= i < |text| :: !Opens(text[i]) && '\n' !in text[i]
    case Code(info, code) =>
      && Opens(TICKS + info) && '\n' !in info
      && !StartsWith(FenceOf(TICKS + info).info, TAG)
      && PlainLines(code)
    case Command(tag, tokens, code) =>
      && Blankless(tag)
      && (forall i | 0 <= i < |tokens| :: GoodToken(tokens[i]))
      && PlainLines(code)
  }

  function TokenText(t: Token): string {
    match t
    case Arg(s) => s
    case Pair(k, v) => k + ":" + v
  }

  function TokensText(tokens: seq<Token>): seq<string> {
    seq(|tokens|, i requires 0 <= i < |tokens| => TokenText(tokens[i]))
  }

  /** The header as an author writes it: the tag, then tokens set off by one blank. */
  function HeaderText(tag: string, tokens: seq<Token>): string {
    Join([TAG + tag] + TokensText(tokens), ' ')
  }

  function Render(b: Block): seq<string> {
    match b
    case Prose(text) => text
    case Code(info, code) => [TICKS + info] + code + [TICKS]
    case Command(tag, tokens, code) => [TICKS + HeaderText(tag, tokens)] + code + [TICKS]
  }

  function RenderAll(blocks: seq<Block>): seq<string> {
    if blocks == [] then [] else Render(blocks[0]) + RenderAll(blocks[1..])
  }

  function ArgTexts(tokens: seq<Token>): seq<string> {
    if tokens == [] then []
    else if tokens[0].Arg? then [tokens[0].text] + ArgTexts(tokens[1..])
    else ArgTexts(tokens[1..])
  }

  function PairMap(tokens: seq<Token>): map<string, string> {
    if tokens == [] then map[]
    else
      var t := tokens[|tokens| - 1];
      var before := PairMap(tokens[..|tokens| - 1]);
      if t.Pair? then before[t.key := t.val] else before
  }

  /** The directive a block carries, if it is one. */
  function Carries(b: Block, above: nat): seq<Directive> {
    if b.Command?
    then [Directive(KindOf(b.tag), ArgTexts(b.tokens), PairMap(b.tokens), CleanBody(b.code), above + 1)]
    else []
  }

  /** The directives the document carries, the first block starting after `above` lines. */
  function Carried(blocks: seq<Block>, above: nat): seq<Directive> {
    if blocks == [] then []
    else Carries(blocks[0], above) + Carried(blocks[1..], above + |Render(blocks[0])|)
  }

  lemma {:induction false} WordsOfJoin(words: seq<string>)
    requires words != []
    requires forall i | 0 <= i < |words| :: words[i] != "" && Blankless(words[i])
    ensures Words(Join(words, ' ')) == words
  {
    var w := words[0];
    if |words| == 1 {
      WordLengthIs(w, "");
      assert w + "" == w;
    } else {
      var rest := Join(words[1..], ' ');
      assert Join(words, ' ') == w + ([' '] + rest);
      WordLengthIs(w, [' '] + rest);
      WordsOfJoin(words[1..]);
      assert (w + ([' '] + rest))[|w|..] == [' '] + rest;
      JoinStarts(words[1..]);
      TrimStartSkips([' '], rest);
      assert TrimStart(rest) == rest;
    }
  }

  lemma {:induction false} WordLengthIs(w: string, rest: string)
    requires Blankless(w)
    requires rest == "" || IsSpace(rest[0])
    ensures WordLength(w + rest) == |w|
  {
    if w != "" {
      assert (w + rest)[1..] == w[1..] + rest;
      assert forall i | 0 <= i < |w[1..]| :: w[1..][i] == w[i + 1];
      WordLengthIs(w[1..], rest);
    } else {
      assert w + rest == rest;
    }
  }

  lemma JoinStarts(words: seq<string>)
    requires words != [] && words[0] != ""
    ensures Join(words, ' ') != "" && Join(words, ' ')[0] == words[0][0]
  {
  }

  lemma {:induction false} JoinEnds(words: seq<string>)
    requires words != []
    requires forall i | 0 <= i < |words| :: words[i] != "" && Blankless(words[i])
    ensures var s := Join(words, ' '); s != "" && !IsSpace(s[|s| - 1])
    ensures var s := Join(words, ' '); forall i | 0 <= i < |s| :: s[i] == ' ' || !IsSpace(s[i])
  {
    if |words| > 1 {
      JoinEnds(words[1..]);
    }
  }

  lemma TokenIsRead(t: Token)
    requires GoodToken(t)
    ensures TokenText(t) != "" && Blankless(TokenText(t))
    ensures IsPair(TokenText(t)) == t.Pair?
    ensures t.Pair? ==> var s := TokenText(t); s[..IndexOf(s, ':')] == t.key && s[IndexOf(s, ':') + 1..] == t.val
  {
    if t.Pair? { IndexOfAfter(t.key, ':', t.val); }
  }

  lemma {:induction false} ArgsAreRead(tokens: seq<Token>)
    requires forall i | 0 <= i < |tokens| :: GoodToken(tokens[i])
    ensures ArgsOf(TokensText(tokens)) == ArgTexts(tokens)
  {
    if tokens != [] {
      TokenIsRead(tokens[0]);
      ArgsAreRead(tokens[1..]);
      assert TokensText(tokens)[1..] == TokensText(tokens[1..]);
    }
  }

  lemma {:induction false} AttrsAreRead(tokens: seq<Token>)
    requires forall i | 0 <= i < |tokens| :: GoodToken(tokens[i])
    ensures AttrsOf(TokensText(tokens)) == PairMap(tokens)
  {
    if tokens != [] {
      var n := |tokens| - 1;
      TokenIsRead(tokens[n]);
      AttrsAreRead(tokens[..n]);
      assert TokensText(tokens)[..n] == TokensText(tokens[..n]);
    }
  }

  lemma TagStarts(tag: string, rest: string)
    ensures StartsWith((TAG + tag) + rest, TAG)
  {
    assert ((TAG + tag) + rest)[..3] == TAG;
  }

  lemma HeaderWords(tag: string, tokens: seq<Token>)
    requires Blankless(tag) && forall i | 0 <= i < |tokens| :: GoodToken(tokens[i])
    ensures var info := HeaderText(tag, tokens);
      && Words(info) == [TAG + tag] + TokensText(tokens)
      && info != "" && !IsSpace(info[|info| - 1])
      && StartsWith(info, TAG)
      && forall i | 0 <= i < |info| :: info[i] == ' ' || !IsSpace(info[i])
  {
    hide IsSpace;
    var words := [TAG + tag] + TokensText(tokens);
    forall i | 0 <= i < |words| ensures words[i] != "" && Blankless(words[i]) {
      if i > 0 { TokenIsRead(tokens[i - 1]); } else { TagIsBlankless(tag); }
    }
    WordsOfJoin(words);
    JoinEnds(words);
    var info := HeaderText(tag, tokens);
    if |words| == 1 {
      assert info == words[0] + "";
      TagStarts(tag, "");
    } else {
      assert info == words[0] + ([' '] + Join(words[1..], ' '));
      TagStarts(tag, [' '] + Join(words[1..], ' '));
    }
  }

  lemma TagIsBlankless(tag: string)
    requires Blankless(tag)
    ensures Blankless(TAG + tag)
  {
    assert forall i | 0 <= i < |TAG| :: !IsSpace(TAG[i]);
  }

  lemma TaggedLineOpens(info: string)
    requires StartsWith(info, TAG) && !IsSpace(info[|info| - 1])
    requires forall i | 0 <= i < |info| :: info[i] == ' ' || !IsSpace(info[i])
    ensures FenceOf(TICKS + info) == InfoFence(info) && '\n' !in info
  {
    var line := TICKS + info;
    assert line[..3] == TICKS && line[3..] == info && line[3] == info[0] == TAG[0] == 'n';
    forall i | 4 <= i < |line| ensures !IsLineEnd(line[i]) { assert line[i] == info[i - 3]; }
    TrimOfTrimmed(info);
  }

  /** A header in the grammar is read back token for token. */
  lemma HeaderIsRead(tag: string, tokens: seq<Token>, body: seq<string>, line: nat)
    requires Blankless(tag) && forall i | 0 <= i < |tokens| :: GoodToken(tokens[i])
    ensures FenceOf(TICKS + HeaderText(tag, tokens)) == InfoFence(HeaderText(tag, tokens))
    ensures StartsWith(HeaderText(tag, tokens), TAG)
    ensures Header(HeaderText(tag, tokens), body, line)
         == Directive(KindOf(tag), ArgTexts(tokens), PairMap(tokens), CleanBody(body), line)
    ensures '\n' !in HeaderText(tag, tokens)
  {
    hide FenceOf, KindOf, HeaderText, Words, IsSpace;
    HeaderWords(tag, tokens);
    TaggedLineOpens(HeaderText(tag, tokens));
    var words := [TAG + tag] + TokensText(tokens);
    assert words[0][3..] == tag && words[1..] == TokensText(tokens);
    ArgsAreRead(tokens);
    AttrsAreRead(tokens);
  }

  lemma {:induction false} ScanSkipsProse(lines: seq<string>, i: nat, k: nat)
    requires i <= k <= |lines|
    requires forall n | i <= n < k :: !Opens(lines[n])
    ensures ParseFrom(lines, i) == ParseFrom(lines, k)
    decreases k - i
  {
    if i < k { ScanSkipsProse(lines, i + 1, k); }
  }

  lemma {:induction false} BodyEndIs(lines: seq<string>, j: nat, k: nat)
    requires j <= k < |lines| && Closes(lines[k])
    requires forall n | j <= n < k :: !Closes(lines[n])
    ensures BodyEnd(lines, j) == k
    decreases k - j
  {
    if j < k { BodyEndIs(lines, j + 1, k); }
  }

  lemma TicksClose()
    ensures FenceOf(TICKS) == BareFence
  {
  }

  lemma BlockIsParsed(lines: seq<string>, i: nat, b: Block)
    requires GoodBlock(b)
    requires i + |Render(b)| <= |lines| && lines[i..i + |Render(b)|] == Render(b)
    ensures ParseFrom(lines, i) == Carries(b, i) + ParseFrom(lines, i + |Render(b)|)
  {
    hide FenceOf, KindOf, StartsWith, Header, HeaderText, CleanBody;
    var r := Render(b);
    var k := i + |r|;
    assert forall n | 0 <= n < |r| :: lines[i + n] == r[n];
    if b.Prose? {
      forall n | i <= n < k ensures !Opens(lines[n]) { assert lines[n] == b.text[n - i]; }
      ScanSkipsProse(lines, i, k);
    } else {
      BlockEnds(lines, i, b);
      if b.Command? { HeaderIsRead(b.tag, b.tokens, b.code, i + 1); }
    }
  }

  /** The scan finds the end of a fenced block and its body. */
  lemma BlockEnds(lines: seq<string>, i: nat, b: Block)
    requires GoodBlock(b) && !b.Prose?
    requires i + |Render(b)| <= |lines| && lines[i..i + |Render(b)|] == Render(b)
    ensures var k := i + |Render(b)|;
      k >= i + 2 && lines[i] == Render(b)[0] && BodyEnd(lines, i + 1) == k - 1 && lines[i + 1..k - 1] == b.code
  {
    hide FenceOf, GoodBlock, Render, Closes, BodyEnd;
    FencedShape(b);
    var r := Render(b);
    var k := i + |r|;
    assert forall n | 0 <= n < |r| :: lines[i + n] == r[n];
    assert lines[k - 1] == TICKS by { assert lines[i + (|r| - 1)] == r[|r| - 1]; }
    forall n | i + 1 <= n < k - 1 ensures !Closes(lines[n]) {
      assert lines[i + (n - i)] == r[n - i] == b.code[n - i - 1];
    }
    BodyEndIs(lines, i + 1, k - 1);
    assert lines[i + 1..k - 1] == r[1..|r| - 1] == b.code;
  }

  /** A fenced block is its first line, its body and a closing fence. */
  lemma FencedShape(b: Block)
    requires GoodBlock(b) && !b.Prose?
    ensures |Render(b)| >= 2 && Render(b) == [Render(b)[0]] + b.code + [TICKS]
    ensures Closes(TICKS) && forall n | 0 <= n < |b.code| :: !Closes(b.code[n])
  {
    TicksClose();
    hide FenceOf, KindOf, StartsWith, HeaderText;
  }

  lemma {:induction false} CarriedAreParsed(pre: seq<string>, blocks: seq<Block>)
    requires forall i | 0 <= i < |blocks| :: GoodBlock(blocks[i])
    ensures ParseFrom(pre + RenderAll(blocks), |pre|) == Carried(blocks, |pre|)
    decreases |blocks|
  {
    hide GoodBlock, Render, ParseFrom, Carries;
    if blocks == [] {
      assert pre + [] == pre;
      NothingLeft(pre);
    } else {
      var r := Render(blocks[0]);
      var lines := pre + RenderAll(blocks);
      assert lines == (pre + r) + RenderAll(blocks[1..]);
      CarriedAreParsed(pre + r, blocks[1..]);
      assert lines[|pre|..|pre| + |r|] == r;
      BlockIsParsed(lines, |pre|, blocks[0]);
    }
  }

  lemma NothingLeft(lines: seq<string>)
    ensures ParseFrom(lines, |lines|) == []
  {
  }

  lemma {:induction false} RenderedLinesHaveNoNewline(blocks: seq<Block>)
    requires forall i | 0 <= i < |blocks| :: GoodBlock(blocks[i])
    ensures forall i | 0 <= i < |RenderAll(blocks)| :: '\n' !in RenderAll(blocks)[i]
  {
    hide FenceOf, StartsWith, Header, HeaderText;
    if blocks != [] {
      RenderedLinesHaveNoNewline(blocks[1..]);
      var b := blocks[0];
      if b.Command? { HeaderIsRead(b.tag, b.tokens, b.code, 0); }
    }
  }

  /** Whatever mix of prose, plain code blocks and directives an author writes, the
      parser returns the directives, all of them, in order, on their own lines. */
  lemma TwoReadersOneDocument(blocks: seq<Block>)
    requires forall i | 0 <= i < |blocks| :: GoodBlock(blocks[i])
    ensures Parse(Unlines(RenderAll(blocks))) == Carried(blocks, 0)
  {
    var lines := RenderAll(blocks);
    RenderedLinesHaveNoNewline(blocks);
    CarriedAreParsed([], blocks);
    assert [] + lines == lines;
    if lines == [] {
      ScanSkipsProse([""], 0, 1);
    } else {
      SplitOfJoin(lines, '\n');
    }
  }

  /** A line put around a directive hides it if and only if the line opens a block, which
      a fence with an info string does and a bare fence does not. The directive's own
      header closes the block, and what follows is read as before either way. */
  lemma FenceHidesIffItOpens(fence: string, b: Block, rest: seq<Block>)
    requires '\n' !in fence && (Opens(fence) ==> !StartsWith(FenceOf(fence).info, TAG))
    requires GoodBlock(b) && b.Command? && forall i | 0 <= i < |rest| :: GoodBlock(rest[i])
    ensures Parse(Unlines([fence] + Render(b) + [TICKS] + RenderAll(rest)))
         == (if Opens(fence) then [] else Carried([b], 1)) + Carried(rest, 2 + |Render(b)|)
  {
    hide FenceOf, StartsWith, ParseFrom, Carried, Carries, Opens, GoodBlock, Render, RenderAll, Lines, Unlines;
    var pre := [fence] + Render(b) + [TICKS];
    var lines := pre + RenderAll(rest);
    SplitLines(fence, b, rest);
    CarriedAreParsed(pre, rest);
    assert lines[..|pre|] == pre;
    if Opens(fence) { OpenedScan(lines, fence, b); } else { UnopenedScan(lines, fence, b); }
    OneCarried(b);
  }

  /** The document splits into the lines it was made of. */
  lemma SplitLines(fence: string, b: Block, rest: seq<Block>)
    requires '\n' !in fence && GoodBlock(b) && b.Command? && forall i | 0 <= i < |rest| :: GoodBlock(rest[i])
    ensures var lines := [fence] + Render(b) + [TICKS] + RenderAll(rest); Lines(Unlines(lines)) == lines
  {
    hide GoodBlock, Render, RenderAll, Split, Join;
    RenderedLinesHaveNoNewline(rest);
    OneBlockHasNoNewline(b);
    var lines := [fence] + Render(b) + [TICKS] + RenderAll(rest);
    SplitOfJoin(lines, '\n');
  }

  lemma OneBlockHasNoNewline(b: Block)
    requires GoodBlock(b) && b.Command?
    ensures FreeOf(Render(b), '\n')
  {
    hide FenceOf, KindOf, StartsWith, Header, HeaderText, CleanBody;
    HeaderIsRead(b.tag, b.tokens, b.code, 0);
  }

  lemma OneCarried(b: Block)
    ensures Carried([b], 1) == Carries(b, 1)
  {
    assert [b][1..] == [];
  }

  /** Inside an opened block the header closes it, and nothing after it opens one. */
  lemma OpenedScan(lines: seq<string>, fence: string, b: Block)
    requires Opens(fence) && !StartsWith(FenceOf(fence).info, TAG) && GoodBlock(b) && b.Command?
    requires 2 + |Render(b)| <= |lines| && lines[..2 + |Render(b)|] == [fence] + Render(b) + [TICKS]
    ensures ParseFrom(lines, 0) == ParseFrom(lines, 2 + |Render(b)|)
  {
    hide StartsWith, KindOf, HeaderText, GoodBlock, Render, FenceOf, ParseFrom;
    var k := 2 + |Render(b)|;
    var pre := [fence] + Render(b) + [TICKS];
    assert forall n | 0 <= n < k :: lines[n] == pre[n];
    HeaderCloses(b);
    BodyEndIs(lines, 1, 1);
    OtherBlockIsSkipped(lines, 0, 1);
    forall n | 2 <= n < k ensures !Opens(lines[n]) {
      if n < k - 1 { assert lines[n] == Render(b)[n - 1]; } else { assert lines[n] == TICKS; }
    }
    ScanSkipsProse(lines, 2, k);
  }

  lemma OtherBlockIsSkipped(lines: seq<string>, i: nat, j: nat)
    requires i < |lines| && Opens(lines[i]) && !StartsWith(FenceOf(lines[i]).info, TAG) && BodyEnd(lines, i + 1) == j
    ensures ParseFrom(lines, i) == ParseFrom(lines, j + 1)
  {
    hide StartsWith, FenceOf, Header;
  }

  /** Below its header a directive opens nothing. */
  lemma HeaderCloses(b: Block)
    requires GoodBlock(b) && b.Command?
    ensures Render(b) != [] && Closes(Render(b)[0]) && !Opens(TICKS)
    ensures forall n | 1 <= n < |Render(b)| :: !Opens(Render(b)[n])
  {
    TicksClose();
    HeaderIsRead(b.tag, b.tokens, b.code, 0);
    hide FenceOf, KindOf, StartsWith, HeaderText, CleanBody, Header;
  }

  /** Past a line that opens nothing the directive is read. */
  lemma UnopenedScan(lines: seq<string>, fence: string, b: Block)
    requires !Opens(fence) && GoodBlock(b)
    requires 2 + |Render(b)| <= |lines| && lines[..2 + |Render(b)|] == [fence] + Render(b) + [TICKS]
    ensures ParseFrom(lines, 0) == Carries(b, 1) + ParseFrom(lines, 2 + |Render(b)|)
  {
    hide FenceOf, KindOf, StartsWith, HeaderText, CleanBody, Header, GoodBlock, Render, Carries, ParseFrom;
    TicksClose();
    var k := 2 + |Render(b)|;
    var pre := [fence] + Render(b) + [TICKS];
    assert lines[0] == pre[0] == fence && lines[k - 1] == pre[k - 1] == TICKS;
    ScanSkipsProse(lines, 0, 1);
    assert lines[1..1 + |Render(b)|] == Render(b);
    BlockIsParsed(lines, 1, b);
    ScanSkipsProse(lines, k - 1, k);
  }

  /** In particular a bare code block hides nothing. */
  lemma BareFenceHidesNothing(b: Block)
    requires GoodBlock(b) && b.Command?
    ensures Parse(Unlines([TICKS] + Render(b) + [TICKS])) == Carried([b], 1) != []
  {
    TicksClose();
    FenceHidesIffItOpens(TICKS, b, []);
    assert [TICKS] + Render(b) + [TICKS] + [] == [TICKS] + Render(b) + [TICKS];
  }
}
