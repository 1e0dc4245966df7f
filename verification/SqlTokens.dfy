/** Which characters open and close what the mask blanks, said in the characters. */
module SqlTokens {
  import opened Text
  import opened SqlMask

  predicate IsQuote(c: char) {
    c == '\'' || c == '\"' || c == '`'
  }

  /** How a text is written between quotes: each quote in it doubled. */
  function Doubled(t: string, quote: char): string {
    if t == "" then ""
    else (if t[0] == quote then [quote, quote] else [t[0]]) + Doubled(t[1..], quote)
  }

  predicate Here(s: string, t: string, i: nat) {
    i + |t| <= |s| && s[i..i + |t|] == t
  }

  /** The first `t` in a text is at position `n`. */
  predicate FirstAt(s: string, t: string, n: nat) {
    Here(s, t, n) && forall i | 0 <= i < n :: !Here(s, t, i)
  }

  ghost predicate Lacks(s: string, t: string) {
    forall i: nat :: !Here(s, t, i)
  }

  predicate IsTag(tag: string) {
    |tag| >= 2 && tag[0] == '$' && tag[|tag| - 1] == '$' && (|tag| == 2 || IsIdent(tag[1..|tag| - 1]))
  }

  // ----- finding the end ------------------------------------------------------

  lemma {:induction false} FindIsFirst(s: string, t: string, from: nat, i: nat, n: nat)
    requires from <= |s| && FirstAt(s[from..], t, n) && i <= n
    ensures Find(s, t, from + i) == Some(from + n)
    decreases n - i
  {
    assert from + n + |t| <= |s|;
    assert s[from..][i..i + |t|] == s[from + i..from + i + |t|];
    assert i < n ==> !Here(s[from..], t, i);
    if i < n { FindIsFirst(s, t, from, i + 1, n); }
  }

  lemma {:induction false} FindFindsNone(s: string, t: string, from: nat, i: nat)
    requires from + i <= |s| && Lacks(s[from..], t)
    ensures Find(s, t, from + i) == None
    decreases |s| - i
  {
    if from + i + |t| <= |s| {
      assert s[from..][i..i + |t|] == s[from + i..from + i + |t|];
      assert !Here(s[from..], t, i);
      if t != "" || from + i < |s| {
        if from + i + 1 + |t| > |s| {
          assert Find(s, t, from + i + 1) == None;
        } else {
          FindFindsNone(s, t, from, i + 1);
        }
      }
    }
  }

  lemma Blanked(token: string, rest: string)
    requires token != "" && OpeningOf(token + rest) != Code && TokenLength(token + rest) == |token|
    ensures Mask(token + rest) == Blank(token) + Mask(rest)
  {
    hide OpeningOf, TokenLength, Mask, Blank;
    TokenIsBlanked(token, rest);
  }

  /** What blanking leaves of a character. */
  lemma BlankIs(s: string, i: nat)
    requires i < |s|
    ensures Blank(s)[i] == if s[i] == '\n' then '\n' else ' '
  {
  }

  // ----- comments -------------------------------------------------------------

  /** A line comment goes to the end of its line, the newline included. */
  lemma LineCommentIsBlanked(text: string, rest: string)
    requires '\n' !in text
    ensures Mask("--" + text + "\n" + rest) == Blank("--" + text + "\n") + Mask(rest)
    ensures Mask("--" + text) == Blank("--" + text)
  {
    hide Mask, Blank, Find, FirstAt, Lacks;
    var token := "--" + text + "\n";
    var s := token + rest;
    assert s[2..] == text + ("\n" + rest) && s[..2] == "--";
    FirstNewline(text, rest);
    FindIsFirst(s, "\n", 2, 0, |text|);
    Blanked(token, rest);
    var open := "--" + text;
    assert open[2..] == text && open[..2] == "--";
    NoNewline(text);
    FindFindsNone(open, "\n", 2, 0);
    assert open + "" == open;
    Blanked(open, "");
    EmptyMask(open);
  }

  lemma FirstNewline(text: string, rest: string)
    requires '\n' !in text
    ensures FirstAt(text + ("\n" + rest), "\n", |text|)
  {
    var s := text + ("\n" + rest);
    assert s[|text|..|text| + 1] == "\n";
    forall i | 0 <= i < |text| ensures !Here(s, "\n", i) { assert s[i..i + 1][0] == text[i]; }
  }

  lemma NoNewline(text: string)
    requires '\n' !in text
    ensures Lacks(text, "\n")
  {
    forall i: nat ensures !Here(text, "\n", i) {
      if i < |text| { assert text[i..i + 1][0] == text[i]; }
    }
  }

  lemma EmptyMask(s: string)
    ensures Mask("") == "" && Blank(s) + "" == Blank(s)
  {
  }

  /** A block comment goes to the first closing mark after its opening mark, or to the end. */
  lemma BlockCommentIsBlanked(text: string, rest: string)
    ensures FirstAt(text + "*/" + rest, "*/", |text|) ==>
              Mask("/*" + text + "*/" + rest) == Blank("/*" + text + "*/") + Mask(rest)
    ensures Lacks(text, "*/") ==> Mask("/*" + text) == Blank("/*" + text)
  {
    hide Mask, Blank, Find, FirstAt, Lacks;
    if FirstAt(text + "*/" + rest, "*/", |text|) {
      var token := "/*" + text + "*/";
      var s := token + rest;
      assert s[2..] == text + "*/" + rest && s[..2] == "/*";
      FindIsFirst(s, "*/", 2, 0, |text|);
      Blanked(token, rest);
    }
    if Lacks(text, "*/") {
      var open := "/*" + text;
      assert open[2..] == text && open[..2] == "/*";
      FindFindsNone(open, "*/", 2, 0);
      assert open + "" == open;
      Blanked(open, "");
      EmptyMask(open);
    }
  }

  // ----- bracketed names and dollar quoting -----------------------------------

  lemma BracketIsBlanked(text: string, rest: string)
    requires ']' !in text
    ensures Mask("[" + text + "]" + rest) == Blank("[" + text + "]") + Mask(rest)
    ensures Mask("[" + text) == Blank("[" + text)
  {
    hide Mask, Blank, Find, FirstAt, Lacks;
    var token := "[" + text + "]";
    var s := token + rest;
    assert s[1..] == text + ("]" + rest) && s[0] == '[';
    FirstBracket(text, rest);
    FindIsFirst(s, "]", 1, 0, |text|);
    Blanked(token, rest);
    var open := "[" + text;
    assert open[1..] == text && open[0] == '[';
    FindFindsNone(open, "]", 1, 0);
    assert open + "" == open;
    Blanked(open, "");
    EmptyMask(open);
  }

  lemma FirstBracket(text: string, rest: string)
    requires ']' !in text
    ensures FirstAt(text + ("]" + rest), "]", |text|) && Lacks(text, "]")
  {
    var s := text + ("]" + rest);
    assert s[|text|..|text| + 1] == "]";
    forall i | 0 <= i < |text| ensures !Here(s, "]", i) { assert s[i..i + 1][0] == text[i]; }
    forall i: nat ensures !Here(text, "]", i) {
      if i < |text| { assert text[i..i + 1][0] == text[i]; }
    }
  }

  lemma TagIsRead(tag: string, rest: string)
    requires IsTag(tag)
    ensures DollarTagLength(tag + rest) == |tag|
  {
    var s := tag + rest;
    assert s[0] == '$' && s[1] == tag[1] && s[|tag| - 1] == '$';
    if |tag| > 2 {
      var name := tag[1..|tag| - 1];
      assert tag[1] == name[0];
      forall k | 2 <= k < |tag| - 1 ensures IsIdentChar(s[k]) { assert s[k] == name[k - 1]; }
      IdentRunsTo(s, 2, |tag| - 1);
    }
  }

  lemma {:induction false} IdentRunsTo(s: string, i: nat, n: nat)
    requires i <= n < |s| && (forall k | i <= k < n :: IsIdentChar(s[k])) && !IsIdentChar(s[n])
    ensures IdentEnd(s, i) == n
    decreases n - i
  {
    if i < n { IdentRunsTo(s, i + 1, n); }
  }

  lemma DollarOpens(tag: string, rest: string)
    requires IsTag(tag)
    ensures OpeningOf(tag + rest) == DollarTag(|tag|)
  {
    TagIsRead(tag, rest);
    assert (tag + rest)[0] == '$';
  }

  /** Dollar quoting goes to the first repetition of its tag, or to the end. */
  lemma DollarIsBlanked(tag: string, text: string, rest: string)
    requires IsTag(tag)
    ensures FirstAt(text + tag + rest, tag, |text|) ==>
              Mask(tag + text + tag + rest) == Blank(tag + text + tag) + Mask(rest)
    ensures Lacks(text, tag) ==> Mask(tag + text) == Blank(tag + text)
  {
    hide Mask, Blank, Find, FirstAt, Lacks, OpeningOf, IsTag;
    TagHasLength(tag);
    if FirstAt(text + tag + rest, tag, |text|) {
      var token := tag + text + tag;
      var s := token + rest;
      assert s == tag + (text + tag + rest);
      DollarOpens(tag, text + tag + rest);
      assert s[..|tag|] == tag && s[|tag|..] == text + tag + rest;
      FindIsFirst(s, tag, |tag|, 0, |text|);
      Blanked(token, rest);
    }
    if Lacks(text, tag) {
      var open := tag + text;
      DollarOpens(tag, text);
      assert open[..|tag|] == tag && open[|tag|..] == text && open + "" == open;
      FindFindsNone(open, tag, |tag|, 0);
      Blanked(open, "");
      EmptyMask(open);
    }
  }

  lemma TagHasLength(tag: string)
    requires IsTag(tag)
    ensures |tag| >= 2
  {
  }

  // ----- quotes ---------------------------------------------------------------

  lemma {:induction false} QuoteEndIs(before: string, text: string, quote: char, rest: string)
    requires rest == "" || rest[0] != quote
    ensures QuoteEnd(before + (Doubled(text, quote) + ([quote] + rest)), |before|, quote)
         == |before| + |Doubled(text, quote)| + 1
    decreases |text|
  {
    var s := before + (Doubled(text, quote) + ([quote] + rest));
    if text == "" {
      assert s[|before|] == quote && (rest != "" ==> s[|before| + 1] == rest[0]);
    } else if text[0] == quote {
      assert s[|before|] == quote && s[|before| + 1] == quote;
      QuoteEndIs(before + [quote, quote], text[1..], quote, rest);
      assert s == (before + [quote, quote]) + (Doubled(text[1..], quote) + ([quote] + rest));
    } else {
      assert s[|before|] == text[0];
      QuoteEndIs(before + [text[0]], text[1..], quote, rest);
      assert s == (before + [text[0]]) + (Doubled(text[1..], quote) + ([quote] + rest));
    }
  }

  lemma {:induction false} QuoteEndIsEnd(before: string, text: string, quote: char)
    ensures QuoteEnd(before + Doubled(text, quote), |before|, quote) == |before| + |Doubled(text, quote)|
    decreases |text|
  {
    var s := before + Doubled(text, quote);
    if text == "" {
      assert s == before;
    } else if text[0] == quote {
      assert s[|before|] == quote && s[|before| + 1] == quote;
      QuoteEndIsEnd(before + [quote, quote], text[1..], quote);
      assert s == (before + [quote, quote]) + Doubled(text[1..], quote);
    } else {
      assert s[|before|] == text[0];
      QuoteEndIsEnd(before + [text[0]], text[1..], quote);
      assert s == (before + [text[0]]) + Doubled(text[1..], quote);
    }
  }

  /** A quoted text, its own quotes doubled, is blanked up to its closing quote; without
      one, to the end. */
  lemma QuotedIsBlanked(quote: char, text: string, rest: string)
    requires IsQuote(quote)
    ensures rest == "" || rest[0] != quote ==>
              Mask([quote] + Doubled(text, quote) + [quote] + rest)
              == Blank([quote] + Doubled(text, quote) + [quote]) + Mask(rest)
    ensures Mask([quote] + Doubled(text, quote)) == Blank([quote] + Doubled(text, quote))
  {
    hide Mask, Blank, QuoteEnd, Doubled;
    var inside := Doubled(text, quote);
    if rest == "" || rest[0] != quote {
      var token := [quote] + inside + [quote];
      QuoteEndIs([quote], text, quote, rest);
      assert token + rest == [quote] + (inside + ([quote] + rest));
      QuoteOpens(token + rest);
      Blanked(token, rest);
    }
    var open := [quote] + inside;
    QuoteEndIsEnd([quote], text, quote);
    QuoteOpens(open);
    assert open + "" == open;
    Blanked(open, "");
    EmptyMask(open);
  }

  lemma QuoteOpens(s: string)
    requires s != "" && IsQuote(s[0])
    ensures OpeningOf(s) == Quote
  {
  }

  /** In particular a text without the quote. */
  lemma PlainQuotedIsBlanked(quote: char, text: string, rest: string)
    requires IsQuote(quote) && quote !in text && (rest == "" || rest[0] != quote)
    ensures Mask([quote] + text + [quote] + rest) == Blank([quote] + text + [quote]) + Mask(rest)
    ensures Mask([quote] + text) == Blank([quote] + text)
  {
    hide Mask, Blank;
    DoubledPlain(text, quote);
    QuotedIsBlanked(quote, text, rest);
  }

  lemma {:induction false} DoubledPlain(text: string, quote: char)
    requires quote !in text
    ensures Doubled(text, quote) == text
  {
    if text != "" {
      DoubledPlain(text[1..], quote);
      assert [text[0]] + text[1..] == text;
    }
  }

  // ----- everything else is code ----------------------------------------------

  /** One of the five ways to begin what is not code. */
  ghost predicate OpensSomething(s: string) {
    || "--" <= s || "/*" <= s || "[" <= s
    || (s != "" && IsQuote(s[0]))
    || exists tag: string :: IsTag(tag) && tag <= s
  }

  lemma CodeIsTheRest(s: string)
    requires s != ""
    ensures OpeningOf(s) == Code <==> !OpensSomething(s)
  {
    if exists tag: string :: IsTag(tag) && tag <= s {
      var tag: string :| IsTag(tag) && tag <= s;
      DollarOpens(tag, s[|tag|..]);
      assert s == tag + s[|tag|..];
    }
    if DollarTagLength(s) != 0 { TagThere(s); }
  }

  lemma TagThere(s: string)
    requires DollarTagLength(s) != 0
    ensures IsTag(s[..DollarTagLength(s)])
  {
    var n := DollarTagLength(s);
    var tag := s[..n];
    assert tag[0] == s[0] && tag[n - 1] == s[n - 1];
    if n > 2 {
      IdentEndIs(s, 2);
      NameThere(s, n);
    }
  }

  lemma NameThere(s: string, n: nat)
    requires 2 < n <= |s| && IsIdentStart(s[1]) && forall k | 2 <= k < n - 1 :: IsIdentChar(s[k])
    ensures IsIdent(s[..n][1..n - 1])
  {
    hide IsIdentStart;
    var name := s[..n][1..n - 1];
    assert forall k | 0 <= k < |name| :: name[k] == s[k + 1];
  }

  /** A character that begins none of them stays. */
  lemma CodeStays(c: char, rest: string)
    requires !OpensSomething([c] + rest)
    ensures Mask([c] + rest) == [c] + Mask(rest)
  {
    hide OpensSomething, OpeningOf;
    var s := [c] + rest;
    CodeIsTheRest(s);
    assert s[..1] == [c] && s[1..] == rest;
  }

  /** What is left has no quote, no bracket, and neither a comment nor a tag begins in it. */
  lemma NothingIsLeft(s: string, i: nat)
    requires i < |s|
    ensures !IsQuote(Mask(s)[i]) && Mask(s)[i] != '['
    ensures !("--" <= Mask(s)[i..]) && !("/*" <= Mask(s)[i..])
    ensures forall tag: string | IsTag(tag) :: !(tag <= Mask(s)[i..])
  {
    hide OpeningOf, Mask;
    MaskIsAllCode(s);
    var m := Mask(s)[i..];
    CodeIsTheRest(m);
    assert m[..1] == [m[0]];
  }

  // ----- the query test -------------------------------------------------------

  predicate Wordy(word: string) {
    word != "" && forall k | 0 <= k < |word| :: IsIdentChar(word[k])
  }

  /** The first word of what is left decides, but for `WITH`, where no writing word may
      stand anywhere. */
  lemma FirstWordDecides(s: string, upper: string -> string, word: string, rest: string)
    requires upper(Trim(Mask(s))) == word + rest && Wordy(word) && (rest == "" || !IsIdentChar(rest[0]))
    ensures word in {"SELECT", "PRAGMA", "EXPLAIN", "VALUES"} ==> IsQuery(s, upper)
    ensures word == "WITH" ==>
              (IsQuery(s, upper) <==>
                 !Stands(word + rest, "INSERT") && !Stands(word + rest, "UPDATE") && !Stands(word + rest, "DELETE"))
    ensures word !in {"SELECT", "PRAGMA", "EXPLAIN", "VALUES"} && !("WITH" <= word) ==> !IsQuery(s, upper)
  {
    hide Mask, Trim, WordAt, HasWord, Stands;
    var t := word + rest;
    WordsAreWordy();
    OneFirstWord(t, word, rest, "SELECT");
    OneFirstWord(t, word, rest, "PRAGMA");
    OneFirstWord(t, word, rest, "EXPLAIN");
    OneFirstWord(t, word, rest, "VALUES");
    StandsIs(t, "INSERT");
    StandsIs(t, "UPDATE");
    StandsIs(t, "DELETE");
    BeginsWithWith(t, word, rest);
    hide Wordy;
  }

  lemma WordsAreWordy()
    ensures Wordy("SELECT") && Wordy("PRAGMA") && Wordy("EXPLAIN") && Wordy("VALUES") && Wordy("WITH")
  {
  }

  lemma BeginsWithWith(t: string, word: string, rest: string)
    requires t == word + rest && Wordy(word) && (rest == "" || !IsIdentChar(rest[0]))
    ensures StartsWith(t, "WITH") <==> "WITH" <= word
  {
    if |word| >= 4 {
      assert t[..4] == word[..4];
    } else if |t| >= 4 {
      assert t[..4][|word|] == rest[0] && "WITH"[|word|] != rest[0];
    }
  }

  lemma OneFirstWord(t: string, word: string, rest: string, other: string)
    requires t == word + rest && Wordy(word) && Wordy(other) && (rest == "" || !IsIdentChar(rest[0]))
    ensures WordAt(t, other, 0) <==> other == word
  {
    assert t[..|word|] == word;
    if |other| < |word| {
      assert t[|other|] == word[|other|];
    } else if |word| < |other| <= |t| {
      assert t[..|other|][|word|] == rest[0];
    }
  }

  predicate Between(s: string, a: string, word: string, b: string) {
    && s == a + word + b
    && (a != "" ==> !IsIdentChar(a[|a| - 1])) && (b != "" ==> !IsIdentChar(b[0]))
  }

  /** The word stands in the text, with no word character at either side. */
  ghost predicate Stands(s: string, word: string) {
    exists a: string, b: string :: Between(s, a, word, b)
  }

  lemma WordBetween(s: string, word: string, i: nat)
    requires WordAt(s, word, i)
    ensures Between(s, s[..i], word, s[i + |word|..])
  {
    assert s == s[..i] + word + s[i + |word|..];
  }

  lemma BetweenIsWord(s: string, a: string, word: string, b: string)
    requires Between(s, a, word, b)
    ensures WordAt(s, word, |a|)
  {
    assert s[|a|..|a| + |word|] == word;
  }

  lemma StandsIs(s: string, word: string)
    requires word != ""
    ensures HasWord(s, word) <==> Stands(s, word)
  {
    hide Between, WordAt;
    if HasWord(s, word) {
      var i: nat :| i < |s| && WordAt(s, word, i);
      WordBetween(s, word, i);
    }
    if Stands(s, word) {
      var a: string, b: string :| Between(s, a, word, b);
      BetweenIsWord(s, a, word, b);
      WordIsInside(s, word, |a|);
    }
  }

  lemma WordIsInside(s: string, word: string, i: nat)
    requires word != "" && WordAt(s, word, i)
    ensures i < |s|
  {
  }
}
