/** Playing the journal backwards takes back what a run did. First each kind of entry,
    with the exact condition under which undoing it restores the file; then whole runs. */
module SkillUndo {
  import opened Text
  import opened Json
  import opened Templates
  import opened SkillDirectives
  import opened SkillApply
  import opened SkillFacts

  // ----- one text file --------------------------------------------------------

  /** Empty, or ending in a newline. */
  predicate Terminated(content: string) {
    content == "" || EndsWithNewline(content)
  }

  /** The lines of a file, without the empty line after a final newline. */
  function Rows(content: string): seq<string> {
    if content == "" then []
    else if EndsWithNewline(content) then Lines(content[..|content| - 1])
    else Lines(content)
  }

  lemma LinesAreRows(content: string)
    ensures Terminated(content) ==> Lines(content) == Rows(content) + [""]
    ensures !Terminated(content) ==> Lines(content) == Rows(content) && Rows(content)[|Rows(content)| - 1] != ""
  {
    if content != "" {
      if EndsWithNewline(content) { LinesOfTerminated(content); } else { LastLineNotEmpty(content); }
    }
  }

  lemma {:induction false} LastLineNotEmpty(s: string)
    requires s != "" && s[|s| - 1] != '\n'
    ensures Lines(s)[|Lines(s)| - 1] != ""
  {
    if |s| == 1 {
      assert s[1..] == "" && Lines("") == [""];
      assert Lines(s)[0] == [s[0]] + "";
    } else {
      LastLineNotEmpty(s[1..]);
    }
  }

  /** Appending puts the new text's lines after the old rows, and a newline after them. */
  lemma LinesOfAppended(content: string, l: string)
    ensures Lines(AppendLine(content, l)) == Rows(content) + Lines(l) + [""]
  {
    var c := AppendLine(content, l);
    LinesOfTerminated(c);
    assert c[..|c| - 1] == WithNewlineBefore(content) + l;
    if content == "" {
      assert WithNewlineBefore(content) + l == l;
    } else {
      var base := if EndsWithNewline(content) then content[..|content| - 1] else content;
      assert WithNewlineBefore(content) + l == base + ['\n'] + l;
      SplitAtSeparator(base, l, '\n');
    }
  }

  lemma {:induction false} DropLinesOfConcat(a: seq<string>, b: seq<string>, text: string)
    ensures DropLines(a + b, text) == DropLines(a, text) + DropLines(b, text)
  {
    if a == [] {
      assert a + b == b;
    } else {
      assert (a + b)[1..] == a[1..] + b;
      DropLinesOfConcat(a[1..], b, text);
    }
  }

  lemma {:induction false} DropLinesKeeps(lines: seq<string>, text: string)
    ensures |DropLines(lines, text)| <= |lines|
    ensures DropLines(lines, text) == lines <==> !AnyLine(lines, text)
    ensures FreeOf(lines, '\n') ==> FreeOf(DropLines(lines, text), '\n')
  {
    if lines != [] {
      DropLinesKeeps(lines[1..], text);
      assert lines == [lines[0]] + lines[1..];
      if AnyLine(lines[1..], text) {
        var i :| 0 <= i < |lines[1..]| && Trim(lines[1..][i]) == Trim(text);
        assert lines[i + 1] == lines[1..][i];
      }
      if AnyLine(lines, text) && Trim(lines[0]) != Trim(text) {
        var i :| 0 <= i < |lines| && Trim(lines[i]) == Trim(text);
        assert lines[i] == lines[1..][i - 1];
      }
    }
  }

  lemma {:induction false} DropKeyOfConcat(a: seq<string>, b: seq<string>, key: string)
    ensures DropKey(a + b, key) == DropKey(a, key) + DropKey(b, key)
  {
    if a == [] {
      assert a + b == b;
    } else {
      assert (a + b)[1..] == a[1..] + b;
      DropKeyOfConcat(a[1..], b, key);
    }
  }

  /** Some line is a `key=` assignment as the undo recognises it. */
  predicate AnyAssigns(lines: seq<string>, key: string) {
    exists i | 0 <= i < |lines| :: StartsWith(lines[i], key + "=")
  }

  predicate AllAssign(lines: seq<string>, key: string) {
    forall i | 0 <= i < |lines| :: StartsWith(lines[i], key + "=")
  }

  lemma {:induction false} DropKeyKeeps(lines: seq<string>, key: string)
    ensures !AnyAssigns(DropKey(lines, key), key)
    ensures DropKey(lines, key) == lines <==> !AnyAssigns(lines, key)
    ensures DropKey(lines, key) == [] <==> AllAssign(lines, key)
    ensures FreeOf(lines, '\n') ==> FreeOf(DropKey(lines, key), '\n')
  {
    hide StartsWith;
    if lines != [] {
      var k := key + "=";
      DropKeyKeeps(lines[1..], key);
      assert lines == [lines[0]] + lines[1..];
      if AnyAssigns(lines[1..], key) {
        var i :| 0 <= i < |lines[1..]| && StartsWith(lines[1..][i], k);
        assert StartsWith(lines[i + 1], k);
      }
      if AnyAssigns(lines, key) && !StartsWith(lines[0], k) {
        var i :| 0 <= i < |lines| && StartsWith(lines[i], k);
        assert StartsWith(lines[1..][i - 1], k);
      }
      if AllAssign(lines[1..], key) && StartsWith(lines[0], k) {
        forall i | 0 <= i < |lines| ensures StartsWith(lines[i], k) {
          if i > 0 { assert lines[i] == lines[1..][i - 1]; }
        }
      }
      if AllAssign(lines, key) {
        forall i | 0 <= i < |lines[1..]| ensures StartsWith(lines[1..][i], k) { assert lines[1..][i] == lines[i + 1]; }
      }
    }
  }

  /** Two line lists with the same text are the same. */
  lemma UnlinesIsContent(lines: seq<string>, content: string)
    requires FreeOf(lines, '\n') && lines != []
    ensures Unlines(lines) == content <==> lines == Lines(content)
  {
    SplitOfJoin(lines, '\n');
    JoinOfSplit(content, '\n');
  }

  /** An append is undone exactly when the file was empty or newline-terminated and
      had no line that trims to the appended one. */
  lemma UndoAppendExactly(content: string, l: string)
    requires TidyLine(l)
    ensures Unlines(DropLines(Lines(AppendLine(content, l)), l)) == content
       <==> Terminated(content) && !AnyLine(Lines(content), l)
  {
    hide AppendLine, TidyLine, Rows;
    TidyIsPiece(l);
    LinesOfAppended(content, l);
    LinesAreRows(content);
    var rows := Rows(content);
    var after := Lines(AppendLine(content, l));
    PiecesAreFree(AppendLine(content, l), '\n');
    assert after == rows + [l] + [""];
    DropLinesOfConcat(rows + [l], [""], l);
    DropLinesOfConcat(rows, [l], l);
    DropLinesOfConcat(rows, [""], l);
    assert DropLines([l], l) == [] && DropLines([""], l) == [""];
    assert DropLines(after, l) == DropLines(rows, l) + [""];
    DropLinesKeeps(after, l);
    DropLinesKeeps(Lines(content), l);
    UnlinesIsContent(DropLines(after, l), content);
  }

  lemma TidyIsPiece(l: string)
    requires TidyLine(l)
    ensures Lines(l) == [l] && Trim(l) != "" && Trim("") == ""
  {
    SplitOfPiece(l, '\n');
  }

  lemma InsertedLines(content: string, at: nat, l: string)
    requires '\n' !in l && at < |Lines(content)|
    ensures var lines := Lines(content); var row := Indent(lines[at]) + l;
      Lines(InsertLine(content, at, l)) == lines[..at] + [row] + lines[at..] && Trim(row) == Trim(l)
  {
    hide Indent, Trim;
    var lines := Lines(content);
    var row := Indent(lines[at]) + l;
    IndentIsSpace(lines[at]);
    TrimSkipsIndent(Indent(lines[at]), l);
    PiecesAreFree(content, '\n');
    assert '\n' !in Indent(lines[at]);
    var after := lines[..at] + [row] + lines[at..];
    forall i | 0 <= i < |after| ensures '\n' !in after[i] {
      if i < at { assert after[i] == lines[i]; } else if i > at { assert after[i] == lines[i - 1]; }
    }
    SplitOfJoin(after, '\n');
  }

  /** Inserting before a marker needs no final newline to be undone. */
  lemma UndoInsertExactly(content: string, at: nat, l: string)
    requires TidyLine(l) && at < |Lines(content)|
    ensures Unlines(DropLines(Lines(InsertLine(content, at, l)), l)) == content
       <==> !AnyLine(Lines(content), l)
  {
    hide InsertLine, Indent, Trim;
    var lines := Lines(content);
    var row := Indent(lines[at]) + l;
    InsertedLines(content, at, l);
    PiecesAreFree(content, '\n');
    DropLinesOfConcat(lines[..at] + [row], lines[at..], l);
    DropLinesOfConcat(lines[..at], [row], l);
    DropLinesOfConcat(lines[..at], lines[at..], l);
    assert lines[..at] + lines[at..] == lines;
    assert DropLines([row], l) == [];
    var back := DropLines(lines, l);
    assert DropLines(Lines(InsertLine(content, at, l)), l) == back;
    DropLinesKeeps(lines, l);
    TidyIsPiece(l);
    if back != [] { UnlinesIsContent(back, content); }
  }

  /** A key set is undone exactly when the file was empty or newline-terminated, had
      no `KEY=` line, and every line the value spans begins with `KEY=` again, as a
      single-line value's only line does. */
  lemma UndoSetKeyExactly(content: string, key: string, value: string)
    ensures Unlines(DropKey(Lines(AppendLine(content, key + "=" + value)), key)) == content
       <==> Terminated(content) && !AnyAssigns(Lines(content), key) && AllAssign(Lines(key + "=" + value), key)
  {
    hide AppendLine, Rows, AnyAssigns, AllAssign;
    var l := key + "=" + value;
    LinesOfAppended(content, l);
    LinesAreRows(content);
    var rows := Rows(content);
    var after := Lines(AppendLine(content, l));
    PiecesAreFree(AppendLine(content, l), '\n');
    DropKeyOfConcat(rows + Lines(l), [""], key);
    DropKeyOfConcat(rows, Lines(l), key);
    DropKeyOfConcat(rows, [""], key);
    assert DropKey([""], key) == [""];
    var kept := DropKey(rows, key) + DropKey(Lines(l), key);
    assert DropKey(after, key) == kept + [""];
    DropKeyKeeps(rows, key);
    DropKeyKeeps(Lines(l), key);
    DropKeyKeeps(after, key);
    DropKeyKeeps(Lines(content), key);
    UnlinesIsContent(DropKey(after, key), content);
    if Terminated(content) {
      if kept + [""] == rows + [""] {
        assert DropKey(after, key) == Lines(content);
        assert DropKey(rows, key) + [""] == Lines(content);
        assert DropKey(Lines(l), key) == [] by {
          assert |kept| == |rows|;
        }
      }
    }
  }

  lemma SingleLineAssigns(key: string, value: string)
    requires '\n' !in key && '\n' !in value
    ensures AllAssign(Lines(key + "=" + value), key)
  {
    SplitOfPiece(key + "=" + value, '\n');
  }

  // ----- one JSON file --------------------------------------------------------

  /** A pushed element is found again, and so removed again, exactly when its key
      holds a primitive or nothing: an object or array is never `===` to a reparsed one. */
  lemma UndoPushExactly(items: seq<Value>, obj: Value, key: string)
    requires IsObjectLike(obj)
    requires FindMatch(items, key, Member(obj, key)) == -1
    ensures var value := Member(obj, key); var pushed := items + [obj]; var at := FindMatch(pushed, key, value);
      (if at == -1 then pushed else pushed[..at] + pushed[at + 1..]) == items <==> Comparable(value)
  {
    var value := Member(obj, key);
    var pushed := items + [obj];
    if Comparable(value) {
      FindMatchInPushed(items, key, value, obj);
      assert pushed[..|items|] + pushed[|items| + 1..] == items;
    } else {
      assert forall i | 0 <= i < |pushed| :: !Matches(pushed[i], key, value);
    }
  }

  /** Replacing the matched element, as a refresh does, is undone by putting the
      recorded element back. */
  lemma UndoReplace(items: seq<Value>, obj: Value, key: string)
    requires IsObjectLike(obj)
    requires FindMatch(items, key, Member(obj, key)) != -1
    ensures var value := Member(obj, key); var at := FindMatch(items, key, value);
      && FindMatch(items[at := obj], key, value) == at
      && items[at := obj][at := items[at]] == items
  {
    FindMatchAfterUpdate(items, obj, key);
  }

  lemma {:induction false} FindMatchAfterUpdate(items: seq<Value>, obj: Value, key: string)
    requires IsObjectLike(obj)
    requires FindMatch(items, key, Member(obj, key)) != -1
    ensures var at := FindMatch(items, key, Member(obj, key));
      FindMatch(items[at := obj], key, Member(obj, key)) == at
  {
    var value := Member(obj, key);
    if !Matches(items[0], key, value) {
      FindMatchAfterUpdate(items[1..], obj, key);
      var at := FindMatch(items, key, value);
      assert items[at := obj][1..] == items[1..][at - 1 := obj];
    }
  }
}
