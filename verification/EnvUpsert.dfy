/** Writing keys into a `.env` file, and the scan that reads them back. */
module EnvUpsert {
  import opened Text

  /** A JavaScript map in insertion order. */
  type Pairs = seq<(string, string)>

  function Lookup(kv: Pairs, key: string): Option<string> {
    if kv == [] then None else if kv[0].0 == key then Some(kv[0].1) else Lookup(kv[1..], key)
  }

  function Remove(kv: Pairs, key: string): Pairs {
    if kv == [] then [] else if kv[0].0 == key then kv[1..] else [kv[0]] + Remove(kv[1..], key)
  }

  /** The key a line sets: blank lines, comments and lines without `=` set none. */
  function KeyOf(line: string): Option<string> {
    var trimmed := Trim(line);
    if trimmed == "" || trimmed[0] == '#' then None
    else
      var eq := IndexOf(trimmed, '=');
      if eq == -1 then None else Some(Trim(trimmed[..eq]))
  }

  function ValueOf(line: string): string {
    var trimmed := Trim(line);
    var eq := IndexOf(trimmed, '=');
    Trim(trimmed[eq + 1..])
  }

  lemma {:induction false} TrimEndStopsAt(a: string, c: char, v: string)
    requires !IsSpace(c)
    ensures TrimEnd(a + [c] + v) == a + [c] + TrimEnd(v)
    decreases |v|
  {
    hide IsSpace;
    var s := a + [c] + v;
    if v == "" {
      assert s == a + [c];
    } else {
      assert s[|s| - 1] == v[|v| - 1] && s[..|s| - 1] == a + [c] + v[..|v| - 1];
      TrimEndStopsAt(a, c, v[..|v| - 1]);
    }
  }

  lemma {:induction false} TrimOfTrimEnd(v: string)
    ensures Trim(TrimEnd(v)) == Trim(v)
    decreases |v|
  {
    if v != "" && IsSpace(v[|v| - 1]) {
      TrimOfTrimEnd(v[..|v| - 1]);
      TrimDropsLast(v);
    }
  }

  lemma {:induction false} TrimDropsLast(v: string)
    requires v != "" && IsSpace(v[|v| - 1])
    ensures Trim(v) == Trim(v[..|v| - 1])
    decreases |v|
  {
    var n := |v| - 1;
    if n == 0 {
      assert v[..0] == "" && TrimStart(v) == TrimStart(v[1..]) && v[1..] == "";
    } else if IsSpace(v[0]) {
      assert v[1..][..n - 1] == v[..n][1..];
      TrimDropsLast(v[1..]);
    }
  }

  /** What a line sets: `key=value` with blanks around either sets the key to the value
      without them. */
  lemma LineSets(before: string, key: string, gap: string, value: string)
    requires Blanks(before) && Blanks(gap) && '=' !in key && (key == "" || (Edged(key) && key[0] != '#'))
    requires key == "" ==> gap == ""
    ensures KeyOf(before + key + gap + "=" + value) == Some(key)
    ensures ValueOf(before + key + gap + "=" + value) == Trim(value)
  {
    hide IsSpace;
    var line := before + key + gap + "=" + value;
    EqualsIsNoSpace();
    assert line == before + (key + gap + "=" + value);
    TrimStartSkips(before, key + gap + "=" + value);
    assert TrimStart(key + gap + "=" + value) == key + gap + "=" + value;
    TrimEndStopsAt(key + gap, '=', value);
    var trimmed := key + gap + "=" + TrimEnd(value);
    assert Trim(line) == trimmed;
    assert '=' !in gap;
    IndexOfAfter(key + gap, '=', TrimEnd(value));
    assert trimmed == (key + gap) + ['='] + TrimEnd(value);
    assert trimmed[..|key + gap|] == key + gap && trimmed[|key + gap| + 1..] == TrimEnd(value);
    if key == "" { assert key + gap == ""; } else {
      assert "" + key + gap == key + gap;
      TrimOfText("", key, gap);
    }
    TrimOfTrimEnd(value);
  }

  lemma EqualsIsNoSpace()
    ensures !IsSpace('=') && !IsSpace('#')
  {
  }

  /** A comment, and a line without an equals sign, sets nothing. */
  lemma LineSetsNothing(line: string)
    requires '=' !in line || exists before, rest :: Blanks(before) && line == before + "#" + rest
    ensures KeyOf(line) == None
  {
    hide IsSpace;
    if '=' !in line {
      TrimSubset(line);
      IndexOfIsFirst(Trim(line), '=');
    } else {
      var before, rest :| Blanks(before) && line == before + "#" + rest;
      EqualsIsNoSpace();
      assert line == before + ("#" + rest);
      TrimStartSkips(before, "#" + rest);
      assert TrimStart("#" + rest) == "#" + rest && "" + "#" + rest == "#" + rest;
      TrimEndStopsAt("", '#', rest);
    }
  }

  function Assign(key: string, value: string): string {
    key + "=" + value
  }

  /** One turn of the replacing loop. */
  lemma ReplaceTurn(lines: seq<string>, i: nat, remaining: Pairs)
    requires i < |lines|
    ensures var key := KeyOf(lines[i]);
      var value := if key.Some? then Lookup(remaining, key.value) else None;
      var line := if value.Some? then Assign(key.value, value.value) else lines[i];
      var (rest, left) := ReplaceLines(lines[i + 1..], if value.Some? then Remove(remaining, key.value) else remaining);
      ReplaceLines(lines[i..], remaining) == ([line] + rest, left)
  {
    hide KeyOf, Assign, Lookup, Remove;
    assert lines[i..][0] == lines[i] && lines[i..][1..] == lines[i + 1..];
  }

  lemma ReplaceNothing(remaining: Pairs)
    ensures ReplaceLines([], remaining) == ([], remaining)
  {
  }

  /** The first line for each key still to be written is replaced. */
  function ReplaceLines(lines: seq<string>, remaining: Pairs): (seq<string>, Pairs) {
    if lines == [] then ([], remaining)
    else
      var key := KeyOf(lines[0]);
      var value := if key.Some? then Lookup(remaining, key.value) else None;
      var (line, left) := if value.Some? then (Assign(key.value, value.value), Remove(remaining, key.value))
          else (lines[0], remaining);
      var (rest, end) := ReplaceLines(lines[1..], left);
      ([line] + rest, end)
  }

  predicate IsBlank(line: string) {
    Trim(line) == ""
  }

  function DropBlankEnd(lines: seq<string>): seq<string> {
    if lines == [] || !IsBlank(lines[|lines| - 1]) then lines else DropBlankEnd(lines[..|lines| - 1])
  }

  function Assignments(kv: Pairs): seq<string> {
    if kv == [] then [] else [Assign(kv[0].0, kv[0].1)] + Assignments(kv[1..])
  }

  function Finish(lines: seq<string>): string {
    var result := Unlines(lines);
    if result != "" && !EndsWithNewline(result) then result + "\n" else result
  }

  function NewLines(lines: seq<string>, kv: Pairs): seq<string> {
    var (out, remaining) := ReplaceLines(lines, kv);
    if remaining != [] then DropBlankEnd(out) + Assignments(remaining) else out
  }

  function FileLines(content: string): seq<string> {
    if content == "" then [] else Lines(content)
  }

  function Upsert(existing: string, kv: Pairs): string {
    Finish(NewLines(FileLines(existing), kv))
  }

  method UpsertEnv(existing: string, kv: Pairs) returns (result: string)
    ensures result == Upsert(existing, kv)
  {
    hide Lines, KeyOf, Trim, Assign, Unlines, Lookup, Remove, ReplaceLines;
    var remaining := kv;
    var lines := FileLines(existing);
    var out: seq<string> := [];
    var i := 0;
    assert lines[0..] == lines && out + ReplaceLines(lines, kv).0 == ReplaceLines(lines, kv).0;
    while i < |lines|
      invariant 0 <= i <= |lines|
      invariant var (rest, end) := ReplaceLines(lines[i..], remaining); ReplaceLines(lines, kv) == (out + rest, end)
    {
      ghost var done := out;
      var key := KeyOf(lines[i]);
      ReplaceTurn(lines, i, remaining);
      if key.Some? && Lookup(remaining, key.value).Some? {
        out := out + [Assign(key.value, Lookup(remaining, key.value).value)];
        remaining := Remove(remaining, key.value);
      } else {
        out := out + [lines[i]];
      }
      i := i + 1;
      ghost var rest := ReplaceLines(lines[i..], remaining).0;
      assert done + ([out[|done|]] + rest) == out + rest;
    }
    assert ReplaceLines(lines, kv) == (out, remaining) by {
      assert lines[i..] == [] && out + [] == out;
      ReplaceNothing(remaining);
    }
    if remaining != [] {
      ghost var all := out;
      while out != [] && IsBlank(out[|out| - 1])
        invariant DropBlankEnd(out) == DropBlankEnd(all)
      {
        out := out[..|out| - 1];
      }
      ghost var kept := out;
      var j := 0;
      while j < |remaining|
        invariant 0 <= j <= |remaining|
        invariant out + Assignments(remaining[j..]) == kept + Assignments(remaining)
      {
        assert remaining[j..][0] == remaining[j] && remaining[j..][1..] == remaining[j + 1..];
        out := out + [Assign(remaining[j].0, remaining[j].1)];
        j := j + 1;
      }
      assert out == kept + Assignments(remaining) by { assert remaining[j..] == []; assert out + [] == out; }
    }
    result := Unlines(out);
    if result != "" && !EndsWithNewline(result) {
      result := result + "\n";
    }
  }

  // ----- reading back ---------------------------------------------------------

  function FirstLine(lines: seq<string>, key: string): Option<string> {
    if lines == [] then None else if KeyOf(lines[0]) == Some(key) then Some(lines[0]) else FirstLine(lines[1..], key)
  }

  /** What the scan of the file finds for a key. */
  function EnvValue(content: string, key: string): Option<string> {
    var line := FirstLine(Lines(content), key);
    if line.Some? then Some(ValueOf(line.value)) else None
  }

  method ScanEnv(content: string, key: string) returns (value: Option<string>)
    ensures value == EnvValue(content, key)
  {
    hide Lines, Trim;
    var lines := Lines(content);
    var i := 0;
    while i < |lines|
      invariant 0 <= i <= |lines|
      invariant FirstLine(lines[i..], key) == FirstLine(lines, key)
    {
      assert lines[i..][0] == lines[i] && lines[i..][1..] == lines[i + 1..];
      var trimmed := Trim(lines[i]);
      i := i + 1;
      if trimmed == "" || trimmed[0] == '#' { continue; }
      var eq := IndexOf(trimmed, '=');
      if eq == -1 { continue; }
      if Trim(trimmed[..eq]) == key {
        return Some(Trim(trimmed[eq + 1..]));
      }
    }
    return None;
  }

  // ----- what can be written --------------------------------------------------

  /** Trimmed and on one line. */
  predicate PlainValue(value: string) {
    '\n' !in value && Trim(value) == value
  }

  predicate Writable(kv: Pairs) {
    && (forall i | 0 <= i < |kv| :: IsIdent(kv[i].0) && PlainValue(kv[i].1))
    && (forall i, j | 0 <= i < j < |kv| :: kv[i].0 != kv[j].0)
  }

  lemma IdentIsPlain(key: string)
    requires IsIdent(key)
    ensures '=' !in key && '\n' !in key && Trim(key) == key && key[0] != '#'
  {
    TrimOfTrimmed(key);
  }

  lemma {:induction false} TrimEndOfConcat(a: string, b: string)
    requires a != "" && !IsSpace(a[|a| - 1])
    ensures TrimEnd(a + b) == a + TrimEnd(b)
    decreases |b|
  {
    if b == "" {
      assert a + b == a;
    } else {
      var s := a + b;
      assert s[|s| - 1] == b[|b| - 1];
      if IsSpace(b[|b| - 1]) {
        assert s[..|s| - 1] == a + b[..|b| - 1];
        TrimEndOfConcat(a, b[..|b| - 1]);
      }
    }
  }

  /** The end of a trimmed text is trimmed. */
  lemma TrimmedEnd(value: string)
    requires Trim(value) == value
    ensures TrimEnd(value) == value
  {
    TrimStartDropsSpace(value);
    assert |TrimStart(value)| == |value|;
  }

  /** A written line reads back as its key and value. */
  lemma AssignReadsBack(key: string, value: string)
    requires IsIdent(key) && PlainValue(value)
    ensures KeyOf(Assign(key, value)) == Some(key) && ValueOf(Assign(key, value)) == value
    ensures '\n' !in Assign(key, value) && !IsBlank(Assign(key, value))
  {
    IdentIsPlain(key);
    var line := Assign(key, value);
    assert line == (key + "=") + value == key + ['='] + value;
    TrimmedEnd(value);
    TrimEndOfConcat(key + "=", value);
    assert line[0] == key[0];
    assert Trim(line) == line;
    IndexOfAfter(key, '=', value);
    assert line[..|key|] == key && line[|key| + 1..] == value;
  }

  // ----- line by line ---------------------------------------------------------

  lemma {:induction false} LookupAfterRemove(kv: Pairs, key: string, other: string)
    requires forall i, j | 0 <= i < j < |kv| :: kv[i].0 != kv[j].0
    ensures Lookup(Remove(kv, key), other) == if other == key then None else Lookup(kv, other)
  {
    if kv != [] {
      assert forall i, j | 0 <= i < j < |kv[1..]| :: kv[1..][i] == kv[i + 1] && kv[1..][j] == kv[j + 1];
      if kv[0].0 == key {
        if other == key { NotThere(kv[1..], key); }
      } else {
        LookupAfterRemove(kv[1..], key, other);
      }
    }
  }

  lemma {:induction false} NotThere(kv: Pairs, key: string)
    requires forall i | 0 <= i < |kv| :: kv[i].0 != key
    ensures Lookup(kv, key) == None
  {
    if kv != [] { NotThere(kv[1..], key); }
  }

  lemma {:induction false} RemovedAreThere(kv: Pairs, key: string)
    ensures forall p | p in Remove(kv, key) :: p in kv
  {
    if kv != [] { RemovedAreThere(kv[1..], key); }
  }

  lemma TailIsWritable(kv: Pairs)
    requires kv != [] && Writable(kv)
    ensures IsIdent(kv[0].0) && PlainValue(kv[0].1)
    ensures Writable(kv[1..]) && forall p | p in kv[1..] :: p.0 != kv[0].0
  {
    hide IsIdent, PlainValue;
    assert forall i | 0 <= i < |kv[1..]| :: kv[1..][i] == kv[i + 1];
  }

  lemma OneMoreIsWritable(p: (string, string), rest: Pairs)
    requires IsIdent(p.0) && PlainValue(p.1) && Writable(rest) && forall q | q in rest :: q.0 != p.0
    ensures Writable([p] + rest)
  {
    hide IsIdent, PlainValue;
    assert forall i | 0 <= i < |rest| :: ([p] + rest)[i + 1] == rest[i] && rest[i] in rest;
  }

  lemma {:induction false} RemoveIsWritable(kv: Pairs, key: string)
    requires Writable(kv)
    ensures Writable(Remove(kv, key)) && forall p | p in Remove(kv, key) :: p in kv
  {
    hide Writable, IsIdent, PlainValue;
    if kv != [] {
      RemovedAreThere(kv, key);
      RemovedAreThere(kv[1..], key);
      TailIsWritable(kv);
      RemoveIsWritable(kv[1..], key);
      if kv[0].0 != key { OneMoreIsWritable(kv[0], Remove(kv[1..], key)); }
    }
  }

  lemma {:induction false} LookupIsWritable(kv: Pairs, key: string)
    requires Writable(kv) && Lookup(kv, key).Some?
    ensures IsIdent(key) && PlainValue(Lookup(kv, key).value)
  {
    if kv[0].0 != key {
      assert forall i | 0 <= i < |kv[1..]| :: kv[1..][i] == kv[i + 1];
      LookupIsWritable(kv[1..], key);
    }
  }

  predicate AppearsBefore(lines: seq<string>, i: nat, key: string)
    requires i <= |lines|
  {
    exists j :: 0 <= j < i && KeyOf(lines[j]) == Some(key)
  }

  /** Line by line: the first line of a key being written is replaced; every other line,
      later duplicates included, stays where and what it was. */
  lemma {:induction false} LineByLine(lines: seq<string>, kv: Pairs, i: nat)
    requires Writable(kv) && i < |lines|
    ensures var out := ReplaceLines(lines, kv).0; var key := KeyOf(lines[i]);
      && |out| == |lines|
      && out[i] == if key.Some? && Lookup(kv, key.value).Some? && !AppearsBefore(lines, i, key.value)
                   then Assign(key.value, Lookup(kv, key.value).value) else lines[i]
    decreases |lines|
  {
    hide KeyOf, Assign, Writable;
    var head := KeyOf(lines[0]);
    var value := if head.Some? then Lookup(kv, head.value) else None;
    var left := if value.Some? then Remove(kv, head.value) else kv;
    if value.Some? { RemoveIsWritable(kv, head.value); }
    SameLength(lines[1..], left);
    if i > 0 {
      LineByLine(lines[1..], left, i - 1);
      var key := KeyOf(lines[i]);
      assert lines[1..][i - 1] == lines[i];
      if key.Some? {
        if value.Some? { DistinctKeys(kv); LookupAfterRemove(kv, head.value, key.value); }
        assert AppearsBefore(lines, i, key.value) <==> head == key || AppearsBefore(lines[1..], i - 1, key.value) by {
          if AppearsBefore(lines[1..], i - 1, key.value) {
            var j :| 0 <= j < i - 1 && KeyOf(lines[1..][j]) == key;
            assert lines[j + 1] == lines[1..][j];
          }
          if AppearsBefore(lines, i, key.value) && head != key {
            var j :| 0 <= j < i && KeyOf(lines[j]) == key;
            assert lines[1..][j - 1] == lines[j];
          }
        }
      }
    }
  }

  lemma DistinctKeys(kv: Pairs)
    requires Writable(kv)
    ensures forall i, j | 0 <= i < j < |kv| :: kv[i].0 != kv[j].0
  {
  }

  lemma {:induction false} SameLength(lines: seq<string>, kv: Pairs)
    ensures |ReplaceLines(lines, kv).0| == |lines|
    decreases |lines|
  {
    hide KeyOf, Assign, Lookup, Remove;
    if lines != [] {
      var key := KeyOf(lines[0]);
      var value := if key.Some? then Lookup(kv, key.value) else None;
      SameLength(lines[1..], if value.Some? then Remove(kv, key.value) else kv);
    }
  }

  /** The first line of a key after the replacement, and what is still to be written. */
  lemma {:induction false} FirstAfterReplace(lines: seq<string>, kv: Pairs, key: string)
    requires Writable(kv)
    ensures var (out, remaining) := ReplaceLines(lines, kv); var was := FirstLine(lines, key);
      && Writable(remaining)
      && FirstLine(out, key) ==
           (if was.Some? && Lookup(kv, key).Some? then Some(Assign(key, Lookup(kv, key).value)) else was)
      && Lookup(remaining, key) == if was.Some? then None else Lookup(kv, key)
    decreases |lines|
  {
    hide KeyOf, Assign, Writable, Remove;
    if lines != [] {
      var head := KeyOf(lines[0]);
      var value := if head.Some? then Lookup(kv, head.value) else None;
      if value.Some? {
        RemoveIsWritable(kv, head.value);
        DistinctKeys(kv);
        LookupAfterRemove(kv, head.value, key);
        LookupIsWritable(kv, head.value);
        AssignReadsBack(head.value, value.value);
        FirstAfterReplace(lines[1..], Remove(kv, head.value), key);
      } else {
        FirstAfterReplace(lines[1..], kv, key);
        if head == Some(key) { Absent(lines[1..], kv, key); }
      }
    }
  }

  /** A key that is not to be written never will be. */
  lemma {:induction false} Absent(lines: seq<string>, kv: Pairs, key: string)
    requires Lookup(kv, key).None?
    ensures Lookup(ReplaceLines(lines, kv).1, key).None?
    decreases |lines|
  {
    hide KeyOf, Assign;
    if lines != [] {
      var head := KeyOf(lines[0]);
      var value := if head.Some? then Lookup(kv, head.value) else None;
      if value.Some? { AbsentAfterRemove(kv, head.value, key); }
      Absent(lines[1..], if value.Some? then Remove(kv, head.value) else kv, key);
    }
  }

  lemma {:induction false} AbsentAfterRemove(kv: Pairs, key: string, other: string)
    requires Lookup(kv, other).None?
    ensures Lookup(Remove(kv, key), other).None?
  {
    if kv != [] && kv[0].0 != key { AbsentAfterRemove(kv[1..], key, other); }
  }

  lemma {:induction false} FirstOfConcat(a: seq<string>, b: seq<string>, key: string)
    ensures FirstLine(a + b, key) == if FirstLine(a, key).Some? then FirstLine(a, key) else FirstLine(b, key)
  {
    hide KeyOf;
    if a == [] {
      assert a + b == b;
    } else {
      assert (a + b)[1..] == a[1..] + b;
      FirstOfConcat(a[1..], b, key);
    }
  }

  lemma {:induction false} BlankEndSetsNothing(lines: seq<string>, key: string)
    ensures FirstLine(DropBlankEnd(lines), key) == FirstLine(lines, key)
  {
    hide Trim;
    if lines != [] && IsBlank(lines[|lines| - 1]) {
      var n := |lines| - 1;
      assert lines == lines[..n] + [lines[n]];
      FirstOfConcat(lines[..n], [lines[n]], key);
      BlankEndSetsNothing(lines[..n], key);
      assert FirstLine([lines[n]], key) == None by { assert [lines[n]][1..] == []; }
    }
  }

  lemma {:induction false} FirstAssignment(kv: Pairs, key: string)
    requires Writable(kv)
    ensures FirstLine(Assignments(kv), key) ==
            match Lookup(kv, key)
            case None => None
            case Some(v) => Some(Assign(key, v))
  {
    hide KeyOf, Assign;
    if kv != [] {
      AssignReadsBack(kv[0].0, kv[0].1);
      assert forall i | 0 <= i < |kv[1..]| :: kv[1..][i] == kv[i + 1];
      FirstAssignment(kv[1..], key);
    }
  }

  /** The first line of every key in the lines that go out. */
  lemma FirstOfNew(lines: seq<string>, kv: Pairs, key: string)
    requires Writable(kv)
    ensures FirstLine(NewLines(lines, kv), key) ==
      match Lookup(kv, key) case Some(v) => Some(Assign(key, v)) case None => FirstLine(lines, key)
  {
    hide KeyOf, Assign, Writable, DropBlankEnd, Assignments, ReplaceLines, FirstLine, Lookup;
    FirstAfterReplace(lines, kv, key);
    var (out, remaining) := ReplaceLines(lines, kv);
    if remaining != [] {
      BlankEndSetsNothing(out, key);
      FirstAssignment(remaining, key);
      FirstOfConcat(DropBlankEnd(out), Assignments(remaining), key);
    } else {
      assert Lookup(remaining, key) == None by { EmptyLookup(key); }
    }
  }

  lemma EmptyLookup(key: string)
    ensures Lookup([], key) == None
  {
  }

  // ----- from lines to the file -----------------------------------------------

  lemma {:induction false} ReplaceIsFree(lines: seq<string>, kv: Pairs)
    requires Writable(kv) && FreeOf(lines, '\n')
    ensures FreeOf(ReplaceLines(lines, kv).0, '\n') && Writable(ReplaceLines(lines, kv).1)
    decreases |lines|
  {
    hide KeyOf, Assign, Remove, Writable;
    if lines != [] {
      var head := KeyOf(lines[0]);
      var value := if head.Some? then Lookup(kv, head.value) else None;
      if value.Some? {
        RemoveIsWritable(kv, head.value);
        LookupIsWritable(kv, head.value);
        AssignReadsBack(head.value, value.value);
      }
      ReplaceIsFree(lines[1..], if value.Some? then Remove(kv, head.value) else kv);
    }
  }

  lemma {:induction false} DropIsFree(lines: seq<string>)
    requires FreeOf(lines, '\n')
    ensures FreeOf(DropBlankEnd(lines), '\n')
  {
    hide IsBlank;
    if lines != [] && IsBlank(lines[|lines| - 1]) { DropIsFree(lines[..|lines| - 1]); }
  }

  lemma {:induction false} AssignmentsAreFree(kv: Pairs)
    requires Writable(kv)
    ensures FreeOf(Assignments(kv), '\n')
  {
    hide Assign;
    if kv != [] {
      AssignReadsBack(kv[0].0, kv[0].1);
      assert forall i | 0 <= i < |kv[1..]| :: kv[1..][i] == kv[i + 1];
      AssignmentsAreFree(kv[1..]);
    }
  }

  lemma NewLinesAreFree(lines: seq<string>, kv: Pairs)
    requires Writable(kv) && FreeOf(lines, '\n')
    ensures FreeOf(NewLines(lines, kv), '\n')
  {
    hide Writable, DropBlankEnd, Assignments, ReplaceLines;
    ReplaceIsFree(lines, kv);
    DropIsFree(ReplaceLines(lines, kv).0);
    AssignmentsAreFree(ReplaceLines(lines, kv).1);
  }

  lemma FileLinesAreFree(content: string)
    ensures FreeOf(FileLines(content), '\n')
  {
    PiecesAreFree(content, '\n');
  }

  /** The file holds the lines, and at most one empty line after them. */
  lemma LinesOfFinish(lines: seq<string>)
    requires FreeOf(lines, '\n')
    ensures Lines(Finish(lines)) == lines || Lines(Finish(lines)) == lines + [""]
    ensures Finish(lines) == "" || EndsWithNewline(Finish(lines))
  {
    if lines == [] {
      assert Lines("") == [] + [""];
    } else {
      SplitOfJoin(lines, '\n');
      var result := Unlines(lines);
      if result != "" && !EndsWithNewline(result) {
        LinesOfTerminated(result + "\n");
        assert (result + "\n")[..|result|] == result;
      }
    }
  }

  lemma EmptyLineSetsNothing(lines: seq<string>, key: string)
    ensures FirstLine(lines + [""], key) == FirstLine(lines, key)
  {
    FirstOfConcat(lines, [""], key);
    assert [""][1..] == [] && KeyOf("") == None;
  }

  lemma FirstOfFile(existing: string, kv: Pairs, key: string)
    requires Writable(kv)
    ensures FirstLine(Lines(Upsert(existing, kv)), key) ==
      match Lookup(kv, key) case Some(v) => Some(Assign(key, v)) case None => FirstLine(Lines(existing), key)
  {
    hide Writable, Finish, NewLines, FirstLine, Assign, Lookup, Lines;
    var lines := FileLines(existing);
    FileLinesAreFree(existing);
    NewLinesAreFree(lines, kv);
    LinesOfFinish(NewLines(lines, kv));
    EmptyLineSetsNothing(NewLines(lines, kv), key);
    FirstOfNew(lines, kv, key);
    if existing == "" { EmptyLineSetsNothing([], key); assert Lines("") == [] + [""] by { NoLines(); } }
  }

  lemma NoLines()
    ensures Lines("") == [""]
  {
  }

  /** Round trip: the scan finds every new value, and for every other key what it found
      before. */
  lemma UpsertRoundTrip(existing: string, kv: Pairs, key: string)
    requires Writable(kv)
    ensures EnvValue(Upsert(existing, kv), key) ==
            if Lookup(kv, key).Some? then Lookup(kv, key) else EnvValue(existing, key)
  {
    hide Writable, Upsert, FirstLine, Assign, Lookup, Lines, ValueOf, KeyOf;
    FirstOfFile(existing, kv, key);
    if Lookup(kv, key).Some? {
      LookupIsWritable(kv, key);
      AssignReadsBack(key, Lookup(kv, key).value);
    }
  }

  // ----- what survives --------------------------------------------------------

  predicate Unrelated(line: string, kv: Pairs) {
    !IsBlank(line) && (KeyOf(line).Some? ==> Lookup(kv, KeyOf(line).value).None?)
  }

  function Kept(lines: seq<string>, kv: Pairs): seq<string> {
    if lines == [] then []
    else (if Unrelated(lines[0], kv) then [lines[0]] else []) + Kept(lines[1..], kv)
  }

  lemma {:induction false} KeptOfConcat(a: seq<string>, b: seq<string>, kv: Pairs)
    ensures Kept(a + b, kv) == Kept(a, kv) + Kept(b, kv)
  {
    hide Unrelated;
    if a == [] {
      assert a + b == b;
    } else {
      var head := if Unrelated(a[0], kv) then [a[0]] else [];
      assert (a + b)[1..] == a[1..] + b && (a + b)[0] == a[0];
      KeptOfConcat(a[1..], b, kv);
      assert head + (Kept(a[1..], kv) + Kept(b, kv)) == (head + Kept(a[1..], kv)) + Kept(b, kv);
    }
  }

  lemma {:induction false} ReplaceKeeps(lines: seq<string>, remaining: Pairs, kv: Pairs)
    requires Writable(remaining) && forall p | p in remaining :: Lookup(kv, p.0).Some?
    ensures Kept(ReplaceLines(lines, remaining).0, kv) == Kept(lines, kv)
    ensures Writable(ReplaceLines(lines, remaining).1)
    ensures forall p | p in ReplaceLines(lines, remaining).1 :: Lookup(kv, p.0).Some?
    decreases |lines|
  {
    hide KeyOf, Assign, Writable, IsBlank;
    if lines != [] {
      var head := KeyOf(lines[0]);
      var value := if head.Some? then Lookup(remaining, head.value) else None;
      if value.Some? {
        RemoveIsWritable(remaining, head.value);
        LookupIsWritable(remaining, head.value);
        AssignReadsBack(head.value, value.value);
        FoundIsThere(remaining, head.value);
        ReplaceKeeps(lines[1..], Remove(remaining, head.value), kv);
      } else {
        ReplaceKeeps(lines[1..], remaining, kv);
      }
    }
  }

  lemma {:induction false} FoundIsThere(kv: Pairs, key: string)
    requires Lookup(kv, key).Some?
    ensures exists p :: p in kv && p.0 == key
  {
    if kv[0].0 == key {
      assert kv[0] in kv;
    } else {
      FoundIsThere(kv[1..], key);
      var p :| p in kv[1..] && p.0 == key;
      assert p in kv;
    }
  }

  lemma {:induction false} DropKeeps(lines: seq<string>, kv: Pairs)
    ensures Kept(DropBlankEnd(lines), kv) == Kept(lines, kv)
  {
    hide IsBlank;
    if lines != [] && IsBlank(lines[|lines| - 1]) {
      var n := |lines| - 1;
      assert lines == lines[..n] + [lines[n]];
      KeptOfConcat(lines[..n], [lines[n]], kv);
      DropKeeps(lines[..n], kv);
      assert Kept([lines[n]], kv) == [] by { assert [lines[n]][1..] == []; }
    }
  }

  lemma {:induction false} AssignmentsAreRelated(remaining: Pairs, kv: Pairs)
    requires Writable(remaining) && forall p | p in remaining :: Lookup(kv, p.0).Some?
    ensures Kept(Assignments(remaining), kv) == []
  {
    hide KeyOf, Assign, IsBlank;
    if remaining != [] {
      AssignReadsBack(remaining[0].0, remaining[0].1);
      assert remaining[0] in remaining;
      assert forall i | 0 <= i < |remaining[1..]| :: remaining[1..][i] == remaining[i + 1];
      AssignmentsAreRelated(remaining[1..], kv);
    }
  }

  lemma {:induction false} AllAreFound(kv: Pairs)
    ensures forall p | p in kv :: Lookup(kv, p.0).Some?
  {
    if kv != [] { AllAreFound(kv[1..]); }
  }

  /** Every non-blank line that sets none of the written keys survives, in order. */
  lemma UnrelatedLinesSurvive(existing: string, kv: Pairs)
    requires Writable(kv)
    ensures Kept(Lines(Upsert(existing, kv)), kv) == Kept(Lines(existing), kv)
  {
    hide Writable, Finish, Kept, Lines, Lookup, ReplaceLines, DropBlankEnd, Assignments;
    var lines := FileLines(existing);
    FileLinesAreFree(existing);
    NewLinesAreFree(lines, kv);
    AllAreFound(kv);
    ReplaceKeeps(lines, kv, kv);
    var (out, remaining) := ReplaceLines(lines, kv);
    DropKeeps(out, kv);
    AssignmentsAreRelated(remaining, kv);
    KeptOfConcat(DropBlankEnd(out), Assignments(remaining), kv);
    LinesOfFinish(NewLines(lines, kv));
    EmptyLineIsDropped(NewLines(lines, kv), kv);
    if existing == "" { NoLines(); EmptyLineIsDropped([], kv); assert [] + [""] == [""]; }
  }

  lemma EmptyLineIsDropped(lines: seq<string>, kv: Pairs)
    ensures Kept(lines + [""], kv) == Kept(lines, kv)
  {
    KeptOfConcat(lines, [""], kv);
    assert Kept([""], kv) == [] by { assert [""][1..] == []; assert IsBlank(""); }
  }

  // ----- twice is once --------------------------------------------------------

  lemma {:induction false} SettledStays(lines: seq<string>, kv: Pairs)
    requires Writable(kv)
    requires forall key | Lookup(kv, key).Some? :: FirstLine(lines, key) == Some(Assign(key, Lookup(kv, key).value))
    ensures ReplaceLines(lines, kv) == (lines, [])
    decreases |lines|
  {
    hide KeyOf, Assign, Writable;
    if lines == [] {
      if kv != [] { assert Lookup(kv, kv[0].0).Some?; }
    } else {
      var head := KeyOf(lines[0]);
      var value := if head.Some? then Lookup(kv, head.value) else None;
      var left := if value.Some? then Remove(kv, head.value) else kv;
      if value.Some? { RemoveIsWritable(kv, head.value); DistinctKeys(kv); }
      forall key | Lookup(left, key).Some?
        ensures FirstLine(lines[1..], key) == Some(Assign(key, Lookup(left, key).value))
      {
        if value.Some? { LookupAfterRemove(kv, head.value, key); }
        assert Lookup(kv, key).Some?;
      }
      SettledStays(lines[1..], left);
      assert [lines[0]] + lines[1..] == lines;
    }
  }

  /** Writing the same keys again changes nothing. */
  lemma UpsertTwice(existing: string, kv: Pairs)
    requires Writable(kv)
    ensures Upsert(Upsert(existing, kv), kv) == Upsert(existing, kv)
  {
    hide Writable, Finish, NewLines, FirstLine, Assign, Lookup, Lines, Unlines;
    var content := Upsert(existing, kv);
    FileLinesAreFree(existing);
    NewLinesAreFree(FileLines(existing), kv);
    LinesOfFinish(NewLines(FileLines(existing), kv));
    forall key | Lookup(kv, key).Some?
      ensures FirstLine(FileLines(content), key) == Some(Assign(key, Lookup(kv, key).value))
    {
      FirstOfFile(existing, kv, key);
      if content == "" { NoLines(); EmptyLineSetsNothing([], key); assert [] + [""] == [""]; }
    }
    SettledStays(FileLines(content), kv);
    SettledIsSame(content, kv);
  }

  lemma SettledIsSame(content: string, kv: Pairs)
    requires ReplaceLines(FileLines(content), kv) == (FileLines(content), [])
    requires content == "" || EndsWithNewline(content)
    ensures Upsert(content, kv) == content
  {
    hide ReplaceLines;
    if content != "" { JoinOfSplit(content, '\n'); }
  }
}
