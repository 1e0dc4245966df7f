/** What a directive takes from its block, said of the characters: which lines are fences,
    which kind a tag names, and which lines make the body. */
module SkillBodies {
  import opened Text
  import opened SkillDirectives

  // ----- fences ---------------------------------------------------------------

  /** White space, code point by code point. */
  lemma SpaceByCodePoint(c: char)
    ensures IsSpace(c) <==>
      var n := c as int;
      || 9 <= n <= 13 || 0x2000 <= n <= 0x200A
      || n in {32, 0xA0, 0x1680, 0x2028, 0x2029, 0x202F, 0x205F, 0x3000, 0xFEFF}
    ensures IsLineEnd(c) <==> c as int in {10, 13, 0x2028, 0x2029}
  {
  }

  /** Three backticks with an info string right behind them open a block; with nothing
      behind them, or a blank, or a line end in the info string, they do not. A line is a
      fence of either sort exactly if it is one of these two. */
  lemma FenceIs(line: string)
    ensures FenceOf(line).BareFence? <==> line == "```"
    ensures Opens(line) <==> |line| > 3 && line[..3] == "```" && !IsSpace(line[3]) &&
                             forall i | 3 <= i < |line| :: line[i] !in {'\n', '\r', '\U{2028}', '\U{2029}'}
    ensures Closes(line) <==> Opens(line) || line == "```"
    ensures Opens(line) ==> FenceOf(line).info == Trim(line[3..])
  {
    if |line| > 3 && line[..3] == "```" { SpaceByCodePoint(line[3]); }
  }

  // ----- kinds ----------------------------------------------------------------

  /** The kind of a tag, tag by tag; any other tag is kept as it is. */
  lemma KindByTag(tag: string)
    ensures KindOf("copy") == Copy && KindOf("append") == Append && KindOf("dep") == Dep && KindOf("run") == Run
    ensures KindOf("prompt") == Prompt && KindOf("operator") == Operator
    ensures KindOf("env-set") == EnvSet && KindOf("json-merge") == JsonMerge
    ensures tag !in {"copy", "append", "dep", "run", "prompt", "operator", "env-set", "json-merge"} ==>
              KindOf(tag) == Other(tag)
  {
  }

  // ----- bodies ---------------------------------------------------------------

  /** A line of code as it is written: blank, or a text set in blanks. */
  datatype CodeLine = BlankLine(blanks: string) | TextLine(before: string, text: string, after: string)

  predicate GoodLine(l: CodeLine) {
    match l
    case BlankLine(blanks) => Blanks(blanks)
    case TextLine(before, text, after) => Blanks(before) && Edged(text) && Blanks(after)
  }

  predicate GoodLines(ls: seq<CodeLine>) {
    forall i | 0 <= i < |ls| :: GoodLine(ls[i])
  }

  function LineOf(l: CodeLine): string {
    match l
    case BlankLine(blanks) => blanks
    case TextLine(before, text, after) => before + text + after
  }

  function CodeOf(ls: seq<CodeLine>): seq<string> {
    seq(|ls|, i requires 0 <= i < |ls| => LineOf(ls[i]))
  }

  /** The texts, in order. */
  function TextsOf(ls: seq<CodeLine>): seq<string> {
    if ls == [] then [] else (if ls[0].TextLine? then [ls[0].text] else []) + TextsOf(ls[1..])
  }

  /** Every line is one of the two, and the text of a line is its trimming. */
  lemma EveryLineIsOne(s: string) returns (l: CodeLine)
    ensures GoodLine(l) && LineOf(l) == s
    ensures l.TextLine? ==> l.text == Trim(s)
    ensures l.BlankLine? <==> Trim(s) == ""
  {
    TrimStartDropsSpace(s);
    var a := TrimStart(s);
    TrimEndDropsSpace(a);
    var b := TrimEnd(a);
    hide IsSpace, TrimStart, TrimEnd;
    if b == "" {
      assert forall i | 0 <= i < |s| :: i >= |s| - |a| ==> s[i] == a[i - (|s| - |a|)];
      l := BlankLine(s);
    } else {
      l := TextLine(s[..|s| - |a|], b, a[|b|..]);
      assert s == s[..|s| - |a|] + a && a == b + a[|b|..] && b[0] == a[0];
    }
  }

  lemma {:induction false} BodySplits(a: seq<string>, b: seq<string>)
    ensures CleanBody(a + b) == CleanBody(a) + CleanBody(b)
  {
    hide Trim;
    if a == [] {
      assert a + b == b;
    } else {
      assert (a + b)[1..] == a[1..] + b;
      BodySplits(a[1..], b);
    }
  }

  /** The body is the texts of the lines: blanks around a line go, blank lines go, and
      every other line stays, in order. */
  lemma {:induction false} BodyIsTheTexts(ls: seq<CodeLine>)
    requires GoodLines(ls)
    ensures CleanBody(CodeOf(ls)) == TextsOf(ls)
    decreases |ls|
  {
    hide Trim, Edged, GoodLine;
    if ls != [] {
      var rest := ls[1..];
      assert forall i | 0 <= i < |rest| :: rest[i] == ls[i + 1];
      BodyIsTheTexts(rest);
      assert CodeOf(ls)[1..] == CodeOf(rest) && CodeOf(ls)[0] == LineOf(ls[0]);
      assert GoodLine(ls[0]);
      LineIsKept(ls[0]);
    }
  }

  lemma LineIsKept(l: CodeLine)
    requires GoodLine(l)
    ensures if l.TextLine? then l.text != "" && Trim(LineOf(l)) == l.text else Trim(LineOf(l)) == ""
  {
    if l.TextLine? { TrimOfText(l.before, l.text, l.after); } else { TrimOfBlanks(l.blanks); }
  }

  /** Code without blanks around its lines and without blank lines is the body. */
  lemma {:induction false} TidyCodeIsTheBody(code: seq<string>)
    requires forall i | 0 <= i < |code| :: Edged(code[i])
    ensures CleanBody(code) == code
  {
    hide IsSpace;
    if code != [] {
      assert Edged(code[0]);
      TrimOfTrimmed(code[0]);
      TidyCodeIsTheBody(code[1..]);
    }
  }

  // ----- a whole document -----------------------------------------------------

  /** The directives among the blocks, block by block. */
  function CommandsOf(blocks: seq<Block>): seq<Block> {
    if blocks == [] then [] else (if blocks[0].Command? then [blocks[0]] else []) + CommandsOf(blocks[1..])
  }

  /** The directive is the block's: its kind by the tag, its arguments and attributes, and
      for a body the texts of its code. */
  ghost predicate ReadFrom(d: Directive, b: Block)
    requires b.Command?
  {
    && d.kind == KindOf(b.tag)
    && d.args == ArgTexts(b.tokens) && d.attrs == PairMap(b.tokens)
    && (forall ls | GoodLines(ls) && CodeOf(ls) == b.code :: d.body == TextsOf(ls))
    && ((forall i | 0 <= i < |b.code| :: Edged(b.code[i])) ==> d.body == b.code)
  }

  /** A document of blocks gives one directive for each command block, in order, with the
      code of the block as its body. */
  lemma DocumentIsRead(blocks: seq<Block>)
    requires forall i | 0 <= i < |blocks| :: GoodBlock(blocks[i])
    ensures var ds, bs := Parse(Unlines(RenderAll(blocks))), CommandsOf(blocks);
      |ds| == |bs| && forall i | 0 <= i < |bs| :: bs[i].Command? && ReadFrom(ds[i], bs[i])
  {
    hide GoodBlock, RenderAll, Parse, Unlines, ReadFrom;
    TwoReadersOneDocument(blocks);
    CarriedAreCommands(blocks, 0);
  }

  lemma {:induction false} CarriedAreCommands(blocks: seq<Block>, above: nat)
    ensures var ds, bs := Carried(blocks, above), CommandsOf(blocks);
      |ds| == |bs| && forall i | 0 <= i < |bs| :: bs[i].Command? && ReadFrom(ds[i], bs[i])
    decreases |blocks|
  {
    hide ReadFrom, Render, KindOf, CleanBody, ArgTexts, PairMap;
    if blocks != [] {
      CarriedAreCommands(blocks[1..], above + |Render(blocks[0])|);
      if blocks[0].Command? { CommandIsRead(blocks[0], above); }
    }
  }

  lemma CommandIsRead(b: Block, above: nat)
    requires b.Command?
    ensures Carries(b, above) != [] && ReadFrom(Carries(b, above)[0], b)
  {
    hide GoodLines, CodeOf, TextsOf, Edged, CleanBody;
    forall ls | GoodLines(ls) && CodeOf(ls) == b.code ensures CleanBody(b.code) == TextsOf(ls) {
      BodyIsTheTexts(ls);
    }
    if forall i | 0 <= i < |b.code| :: Edged(b.code[i]) { TidyCodeIsTheBody(b.code); }
  }
}
