/** Escaping and unescaping message texts, and breaking them into quoted lines. */
module Escapes {
  import opened Seqs

  // ----- escaping -----

  /** Characters that are written as an escape. */
  predicate Escaping(c: char) {
    c == '\n' || c == '"'
  }

  function EscapedChar(c: char): string {
    if c == '\n' then "\\n" else if c == '"' then "\\\"" else [c]
  }

  function Escaped(s: string): string {
    if s == "" then "" else EscapedChar(s[0]) + Escaped(s[1..])
  }

  method OutputParsing(s: string) returns (r: string)
    ensures r == Escaped(s)
  {
    r := "";
    var h1 := 0;
    while h1 < |s|
      invariant h1 <= |s|
      invariant r == Escaped(s[..h1])
    {
      OneEscaped(s, h1);
      if s[h1] == '\n' {
        r := r + "\\n";
        h1 := h1 + 1;
        continue;
      }
      if s[h1] == '"' {
        r := r + "\\\"";
        h1 := h1 + 1;
        continue;
      }
      r := r + [s[h1]];
      h1 := h1 + 1;
    }
    assert s[..h1] == s;
  }

  lemma {:induction false} EscapedConcat(a: string, b: string)
    ensures Escaped(a + b) == Escaped(a) + Escaped(b)
  {
    if a == "" {
      assert a + b == b;
    } else {
      assert (a + b)[1..] == a[1..] + b;
      EscapedConcat(a[1..], b);
    }
  }

  lemma OneEscaped(s: string, i: nat)
    requires i < |s|
    ensures Escaped(s[..i + 1]) == Escaped(s[..i]) + EscapedChar(s[i])
  {
    SplitAt(s, i);
    EscapedConcat(s[..i], [s[i]]);
    assert Escaped([s[i]]) == EscapedChar(s[i]);
  }

  // ----- unescaping -----

  predicate IsEscape(a: char, b: char) {
    a == '\\' && b in {'n', '"', 'r', 't'}
  }

  function Unescape(b: char): char {
    if b == 'n' then '\n' else if b == 'r' then '\r' else if b == 't' then '\t' else b
  }

  /** What is left to write for the rest of a text: a last single character behind an escape is dropped. */
  function UnescapedRest(s: string, afterEscape: bool): string {
    if |s| < 2 then (if afterEscape then "" else s)
    else if IsEscape(s[0], s[1]) then [Unescape(s[1])] + UnescapedRest(s[2..], true)
    else [s[0]] + UnescapedRest(s[1..], false)
  }

  function Unescaped(s: string): string {
    UnescapedRest(s, false)
  }

  method InputParsing(s: string) returns (r: string)
    ensures r == Unescaped(s)
  {
    r := "";
    if s == "" {
      return;
    }
    var h1, special := 0, false;
    assert s[0..] == s;
    while h1 + 1 < |s|
      invariant h1 < |s|
      invariant r + UnescapedRest(s[h1..], special) == Unescaped(s)
      decreases |s| - h1
    {
      assert s[h1..][1..] == s[h1 + 1..] && s[h1..][2..] == s[h1 + 2..];
      ghost var before := r;
      special := false;
      if s[h1] == '\\' && s[h1 + 1] == 'n' {
        r := r + "\n";
        special := true;
      }
      if s[h1] == '\\' && s[h1 + 1] == '"' {
        r := r + "\"";
        special := true;
      }
      if s[h1] == '\\' && s[h1 + 1] == 'r' {
        r := r + "\r";
        special := true;
      }
      if s[h1] == '\\' && s[h1 + 1] == 't' {
        r := r + "\t";
        special := true;
      }
      if special {
        Reassociate(before, [Unescape(s[h1 + 1])], UnescapedRest(s[h1 + 2..], true));
        h1 := h1 + 1;
        if h1 + 1 == |s| {
          assert r + "" == r;
          break;
        }
        h1 := h1 + 1;
        continue;
      }
      r := r + [s[h1]];
      Reassociate(before, [s[h1]], UnescapedRest(s[h1 + 1..], false));
      h1 := h1 + 1;
    }
    if !special {
      r := r + [s[h1]];
    } else {
      assert r + "" == r;
    }
  }

  // ----- the round trip -----

  /** The text itself contains what unescaping takes for an escape. */
  predicate FalseEscape(s: string) {
    exists i :: 0 <= i < |s| - 1 && s[i] == '\\' && s[i + 1] in {'n', 'r', 't'}
  }

  /** The last character is an ordinary one directly behind a newline or quote. */
  predicate LosesLast(s: string) {
    |s| >= 2 && !Escaping(s[|s| - 1]) && Escaping(s[|s| - 2])
  }

  lemma NoFalseEscape(s: string)
    requires s != "" && !FalseEscape(s)
    ensures !FalseEscape(s[1..])
    ensures |s| > 1 ==> !(s[0] == '\\' && s[1] in {'n', 'r', 't'})
  {
    if FalseEscape(s[1..]) {
      FalseEscapeInRest(s);
    }
  }

  lemma FalseEscapeInRest(s: string)
    requires s != "" && FalseEscape(s[1..])
    ensures FalseEscape(s)
  {
    var rest := s[1..];
    var i :| 0 <= i < |rest| - 1 && rest[i] == '\\' && rest[i + 1] in {'n', 'r', 't'};
    assert s[i + 1] == '\\' && s[i + 2] in {'n', 'r', 't'};
  }

  lemma UnescapedStep(s: string, afterEscape: bool)
    requires |s| > 1 && !FalseEscape(s)
    ensures UnescapedRest(Escaped(s), afterEscape) == [s[0]] + UnescapedRest(Escaped(s[1..]), Escaping(s[0]))
  {
    NoFalseEscape(s);
    Rejoined(EscapedChar(s[0]), Escaped(s[1..]));
    if !Escaping(s[0]) {
      SecondOfEscaped(s);
    }
  }

  /** Unescaping an escaped text gives it back but for a last character that is lost. */
  lemma {:induction false} RestRoundTrip(s: string, afterEscape: bool)
    requires !FalseEscape(s)
    ensures UnescapedRest(Escaped(s), afterEscape)
            == if LosesLast(s) || (afterEscape && |s| == 1 && !Escaping(s[0])) then s[..|s| - 1] else s
  {
    if |s| == 1 {
      OneCharacter(s, afterEscape);
    } else if |s| > 1 {
      var rest := s[1..];
      NoFalseEscape(s);
      UnescapedStep(s, afterEscape);
      hide FalseEscape, Escaped, UnescapedRest;
      RestRoundTrip(rest, Escaping(s[0]));
      assert s == [s[0]] + rest && s[..|s| - 1] == [s[0]] + rest[..|rest| - 1];
    }
  }

  lemma OneCharacter(s: string, afterEscape: bool)
    requires |s| == 1
    ensures UnescapedRest(Escaped(s), afterEscape) == if afterEscape && !Escaping(s[0]) then "" else s
  {
    assert Escaped(s) == EscapedChar(s[0]);
  }

  lemma SecondOfEscaped(s: string)
    requires |s| > 1 && !Escaping(s[0])
    ensures |Escaped(s)| > 1 && Escaped(s)[0] == s[0]
    ensures Escaped(s)[1] == if Escaping(s[1]) then '\\' else s[1]
  {
    assert Escaped(s) == [s[0]] + (EscapedChar(s[1]) + Escaped(s[1..][1..]));
  }

  lemma RoundTrip(s: string)
    requires !FalseEscape(s)
    ensures Unescaped(Escaped(s)) == if LosesLast(s) then s[..|s| - 1] else s
  {
    RestRoundTrip(s, false);
  }

  /** A text with a false escape does not come back. */
  lemma {:induction false} FalseEscapeChanges(s: string, afterEscape: bool)
    requires FalseEscape(s)
    ensures UnescapedRest(Escaped(s), afterEscape) != s
  {
    var rest := s[1..];
    var e := Escaped(s);
    if Escaping(s[0]) {
      var i :| 0 <= i < |s| - 1 && s[i] == '\\' && s[i + 1] in {'n', 'r', 't'};
      assert rest[i - 1] == '\\' && rest[i] in {'n', 'r', 't'};
      FalseEscapeChanges(rest, true);
      assert e[2..] == Escaped(rest);
      assert s == [s[0]] + rest;
    } else {
      SecondOfEscaped(s);
      assert e[1..] == Escaped(rest);
      if !(s[0] == '\\' && s[1] in {'n', 'r', 't'}) {
        var i :| 0 <= i < |s| - 1 && s[i] == '\\' && s[i + 1] in {'n', 'r', 't'};
        assert rest[i - 1] == '\\' && rest[i] in {'n', 'r', 't'};
        FalseEscapeChanges(rest, false);
        assert s == [s[0]] + rest;
      }
    }
  }

  /** A text survives escaping and unescaping exactly if it has no false escape and does not lose its last character. */
  lemma RoundTripExactly(s: string)
    ensures Unescaped(Escaped(s)) == s <==> !FalseEscape(s) && !LosesLast(s)
  {
    if FalseEscape(s) {
      FalseEscapeChanges(s, false);
    } else {
      RoundTrip(s);
    }
  }

  /** An escaped text is on one line, and every quote in it stands behind a backslash. */
  lemma {:induction false} EscapedIsOneLine(s: string)
    ensures forall i :: 0 <= i < |Escaped(s)| ==> Escaped(s)[i] != '\n'
    ensures forall i :: 0 <= i < |Escaped(s)| && Escaped(s)[i] == '"' ==> i > 0 && Escaped(s)[i - 1] == '\\'
  {
    if s != "" {
      EscapedIsOneLine(s[1..]);
      var first, rest := EscapedChar(s[0]), Escaped(s[1..]);
      forall i | 0 <= i < |first + rest|
        ensures (first + rest)[i] != '\n'
        ensures (first + rest)[i] == '"' ==> i > 0 && (first + rest)[i - 1] == '\\'
      {
        assert i >= |first| ==> (first + rest)[i] == rest[i - |first|];
        assert i > |first| ==> (first + rest)[i - 1] == rest[i - 1 - |first|];
      }
    }
  }

  /** What an escape stands for: n, r and t behind a backslash for a newline, a return and a tab, a quote for itself;
      any other character is copied. */
  lemma UnescapesTo(s: string, afterEscape: bool)
    requires |s| >= 2
    ensures UnescapedRest(s, afterEscape)
            == if s[0] == '\\' && s[1] == 'n' then "\n" + UnescapedRest(s[2..], true)
               else if s[0] == '\\' && s[1] == 'r' then "\r" + UnescapedRest(s[2..], true)
               else if s[0] == '\\' && s[1] == 't' then "\t" + UnescapedRest(s[2..], true)
               else if s[0] == '\\' && s[1] == '"' then "\"" + UnescapedRest(s[2..], true)
               else [s[0]] + UnescapedRest(s[1..], false)
  {
  }

  /** A last character behind a newline is dropped, and a backslash before an n becomes part of a newline. */
  lemma TextsThatChange()
    ensures Unescaped(Escaped("\nx")) == "\n" && Unescaped(Escaped("\\n")) == "\n"
  {
    RoundTrip("\nx");
    assert Escaped("n") == "n";
    assert Escaped("\\n") == "\\" + Escaped("n");
  }

  // ----- line breaks -----

  const QUOTE: string := "\""
  const BREAK: string := "\"\n\""

  /** Does an escaped newline end before position h? */
  predicate NewlineBefore(text: string, h: nat)
    requires h <= |text|
  {
    h >= 2 && text[h - 2] == '\\' && text[h - 1] == 'n'
  }

  /** A line is broken behind an escaped newline, and at a space from column 81 on. */
  predicate BreakBefore(text: string, h: nat, line: nat)
    requires h < |text|
  {
    NewlineBefore(text, h) || (line > 80 && text[h] == ' ')
  }

  function Joined(chunks: seq<string>): string {
    if chunks == [] then ""
    else if |chunks| == 1 then chunks[0]
    else Joined(chunks[..|chunks| - 1]) + BREAK + chunks[|chunks| - 1]
  }

  function Flat(chunks: seq<string>): string {
    if chunks == [] then "" else Flat(chunks[..|chunks| - 1]) + chunks[|chunks| - 1]
  }

  /** The chunks of the first h characters: a character starts a new one exactly where the line is to be broken. */
  function Chunks(text: string, h: nat): (r: seq<string>)
    requires h <= |text|
    ensures |r| > 0
  {
    if h == 0 then [""]
    else
      var before := Chunks(text, h - 1);
      var last := before[|before| - 1];
      if BreakBefore(text, h - 1, |last|) then before + [[text[h - 1]]]
      else before[..|before| - 1] + [last + [text[h - 1]]]
  }

  function LastOf(chunks: seq<string>): string
    requires chunks != []
  {
    chunks[|chunks| - 1]
  }

  method MakeLineBreak(text: string) returns (buffer: string)
    ensures buffer == QUOTE + Joined(Chunks(text, |text|)) + QUOTE
  {
    assert QUOTE + Joined(Chunks(text, 0)) == QUOTE;
    assert LastOf(Chunks(text, 0)) == "";
    hide Joined, Chunks, LastOf;
    buffer := QUOTE;
    var line, h := 0, 0;
    while h < |text|
      invariant h <= |text|
      invariant line == |LastOf(Chunks(text, h))|
      invariant buffer == QUOTE + Joined(Chunks(text, h))
    {
      JoinedStep(text, h);
      ghost var joined := Joined(Chunks(text, h));
      ghost var broken := BreakBefore(text, h, line);
      if h >= 2 {
        if text[h - 2] == '\\' && text[h - 1] == 'n' {
          line := 0;
          buffer := buffer + BREAK;
        }
      }
      if line > 80 && text[h] == ' ' {
        line := 0;
        buffer := buffer + BREAK;
      }
      Reassociate(QUOTE, joined, BREAK);
      Reassociate(QUOTE, if broken then joined + BREAK else joined, [text[h]]);
      buffer := buffer + [text[h]];
      line := line + 1;
      h := h + 1;
    }
    buffer := buffer + QUOTE;
  }

  lemma JoinedStep(text: string, h: nat)
    requires h < |text|
    ensures var c, c' := Chunks(text, h), Chunks(text, h + 1);
            var broken := BreakBefore(text, h, |LastOf(c)|);
            && Joined(c') == (if broken then Joined(c) + BREAK else Joined(c)) + [text[h]]
            && |LastOf(c')| == if broken then 1 else |LastOf(c)| + 1
  {
    var c := Chunks(text, h);
    var n := |c| - 1;
    var c' := Chunks(text, h + 1);
    if BreakBefore(text, h, |c[n]|) {
      assert c'[..|c'| - 1] == c;
    } else {
      assert c' == c[..n] + [c[n] + [text[h]]];
      assert c'[..n] == c[..n];
    }
  }

  /** A line within the limits: a space stands in its first 81 columns, and nothing behind an escaped newline. */
  ghost predicate WithinLimits(line: string) {
    && (forall i :: 80 < i < |line| ==> line[i] != ' ')
    && (forall i :: 0 <= i < |line| ==> !NewlineBefore(line, i))
  }

  lemma FlatAppend(chunks: seq<string>, c: string)
    ensures Flat(chunks + [c]) == Flat(chunks) + c
  {
    Rejoined(chunks, [c]);
  }

  /** One more character, appended to the last chunk or as a new one. */
  function Grown(init: seq<string>, last: string, c: char, broken: bool): seq<string> {
    if broken then init + [last] + [[c]] else init + [last + [c]]
  }

  lemma ChunksStep(text: string, h: nat) returns (init: seq<string>, last: string)
    requires 0 < h <= |text|
    ensures Chunks(text, h - 1) == init + [last]
    ensures Chunks(text, h) == Grown(init, last, text[h - 1], BreakBefore(text, h - 1, |last|))
    ensures LastOf(Chunks(text, h - 1)) == last
    ensures LastOf(Chunks(text, h)) == if BreakBefore(text, h - 1, |last|) then [text[h - 1]] else last + [text[h - 1]]
  {
    hide NewlineBefore;
    var before := Chunks(text, h - 1);
    init, last := before[..|before| - 1], before[|before| - 1];
  }

  lemma FlatGrown(init: seq<string>, last: string, c: char, broken: bool)
    ensures Flat(Grown(init, last, c, broken)) == Flat(init + [last]) + [c]
  {
    hide Flat;
    FlatAppend(init + [last], [c]);
    FlatAppend(init, last);
    FlatAppend(init, last + [c]);
    Reassociate(Flat(init), last, [c]);
  }

  /** The chunks make up the text. */
  lemma {:induction false} ChunksAreText(text: string, h: nat)
    requires h <= |text|
    ensures Flat(Chunks(text, h)) == text[..h]
  {
    if h > 0 {
      hide Flat, Chunks, Grown, BreakBefore, LastOf;
      ChunksAreText(text, h - 1);
      var init, last := ChunksStep(text, h);
      FlatGrown(init, last, text[h - 1], BreakBefore(text, h - 1, |last|));
      SplitAt(text, h - 1);
    } else {
      assert Flat([""]) == "";
    }
  }

  ghost predicate AllWithinLimits(chunks: seq<string>) {
    forall c :: c in chunks ==> WithinLimits(c)
  }

  lemma LimitsOfAppended(chunks: seq<string>, c: string)
    ensures AllWithinLimits(chunks + [c]) <==> AllWithinLimits(chunks) && WithinLimits(c)
  {
    hide WithinLimits;
    assert c in chunks + [c];
    assert forall x :: x in chunks ==> x in chunks + [c];
  }

  lemma OneCharacterFits(c: char)
    ensures WithinLimits([c])
  {
  }

  /** The last chunk is the end of the text. */
  lemma LastIsEnd(text: string, h: nat)
    requires h <= |text|
    ensures var last := LastOf(Chunks(text, h)); |last| <= h && text[h - |last|..h] == last
  {
    hide Chunks;
    ChunksAreText(text, h);
    var c := Chunks(text, h);
    EndOf(text, h, Flat(c[..|c| - 1]), c[|c| - 1]);
  }

  lemma EndOf(text: string, h: nat, front: string, last: string)
    requires h <= |text| && text[..h] == front + last
    ensures |last| <= h && text[h - |last|..h] == last
  {
    assert |front| + |last| == h;
    assert text[|front|..h] == text[..h][|front|..];
    Rejoined(front, last);
  }

  /** Each chunk is within the limits. */
  lemma {:induction false} ChunksAreWithinLimits(text: string, h: nat)
    requires h <= |text|
    ensures AllWithinLimits(Chunks(text, h))
  {
    if h > 0 {
      hide Chunks, Grown, WithinLimits, AllWithinLimits, LastOf, BreakBefore;
      ChunksAreWithinLimits(text, h - 1);
      LastIsEnd(text, h - 1);
      var init, last := ChunksStep(text, h);
      var broken := BreakBefore(text, h - 1, |last|);
      LimitsOfAppended(init, last);
      if !broken {
        OneLonger(text, h, last);
      }
      LimitsOfGrown(init, last, text[h - 1], broken);
    } else {
      NothingWithinLimits();
    }
  }

  lemma NothingWithinLimits()
    ensures AllWithinLimits([""])
  {
  }

  lemma LimitsOfGrown(init: seq<string>, last: string, c: char, broken: bool)
    requires AllWithinLimits(init) && WithinLimits(last) && (!broken ==> WithinLimits(last + [c]))
    ensures AllWithinLimits(Grown(init, last, c, broken))
  {
    hide WithinLimits, AllWithinLimits;
    if broken {
      LimitsOfAppended(init, last);
      LimitsOfAppended(init + [last], [c]);
      OneCharacterFits(c);
    } else {
      LimitsOfAppended(init, last + [c]);
    }
  }

  /** A line is broken only behind an escaped newline, or in front of a space if it has more than 80 columns. */
  ghost predicate BrokenOnlyThere(chunks: seq<string>) {
    forall i :: 0 <= i < |chunks| - 1 ==>
      || (|chunks[i]| >= 2 && chunks[i][|chunks[i]| - 2] == '\\' && chunks[i][|chunks[i]| - 1] == 'n')
      || (|chunks[i]| > 80 && chunks[i + 1] != "" && chunks[i + 1][0] == ' ')
  }

  predicate EndsLine(last: string, c: char) {
    (|last| >= 2 && last[|last| - 2] == '\\' && last[|last| - 1] == 'n') || (|last| > 80 && c == ' ')
  }

  lemma LongerIsBrokenOnlyThere(init: seq<string>, last: string, c: char)
    requires BrokenOnlyThere(init + [last]) && (last == "" ==> init == [])
    ensures BrokenOnlyThere(init + [last + [c]])
  {
    var before, after := init + [last], init + [last + [c]];
    forall i | 0 <= i < |after| - 1
      ensures || (|after[i]| >= 2 && after[i][|after[i]| - 2] == '\\' && after[i][|after[i]| - 1] == 'n')
              || (|after[i]| > 80 && after[i + 1] != "" && after[i + 1][0] == ' ')
    {
      assert before[i] == after[i];
      assert i + 1 < |init| ==> before[i + 1] == after[i + 1];
      assert i + 1 == |init| ==> before[i + 1] == last && after[i + 1] == last + [c];
      assert last != "" ==> (last + [c])[0] == last[0];
    }
  }

  lemma NewIsBrokenOnlyThere(init: seq<string>, last: string, c: char)
    requires BrokenOnlyThere(init + [last])
    requires EndsLine(last, c)
    ensures BrokenOnlyThere(init + [last] + [[c]])
  {
    var before, after := init + [last], init + [last] + [[c]];
    forall i | 0 <= i < |after| - 1
      ensures || (|after[i]| >= 2 && after[i][|after[i]| - 2] == '\\' && after[i][|after[i]| - 1] == 'n')
              || (|after[i]| > 80 && after[i + 1] != "" && after[i + 1][0] == ' ')
    {
      assert before[i] == after[i];
      assert i + 1 < |before| ==> before[i + 1] == after[i + 1];
    }
  }

  /** A chunk of one character begins behind an escaped newline or with a space, but for the first. */
  lemma {:induction false} ShortChunk(text: string, h: nat)
    requires h <= |text|
    ensures var last := LastOf(Chunks(text, h));
            && (h > 0 ==> |last| > 0)
            && (h > 1 && |last| == 1 ==> NewlineBefore(text, h - 1) || text[h - 1] == ' ')
            && (last == "" ==> |Chunks(text, h)| == 1)
  {
    if h > 0 {
      ShortChunk(text, h - 1);
      var init, last := ChunksStep(text, h);
      hide Chunks, NewlineBefore, LastOf;
    }
  }

  /** Both characters of an escaped newline stand in the same chunk. */
  lemma NewlineInChunk(text: string, h: nat)
    requires h <= |text| && NewlineBefore(text, h)
    ensures var last := LastOf(Chunks(text, h));
            |last| >= 2 && last[|last| - 2] == '\\' && last[|last| - 1] == 'n'
  {
    hide Chunks, LastOf;
    ShortChunk(text, h);
    LastIsEnd(text, h);
    var last := LastOf(Chunks(text, h));
    assert last[|last| - 1] == text[h - 1];
    assert |last| >= 2 ==> last[|last| - 2] == text[h - 2];
  }

  lemma NothingBroken()
    ensures BrokenOnlyThere([""])
  {
  }

  lemma {:induction false} ChunksAreBrokenOnlyThere(text: string, h: nat)
    requires h <= |text|
    ensures BrokenOnlyThere(Chunks(text, h))
  {
    if h == 0 {
      NothingBroken();
    } else {
      hide Chunks, BrokenOnlyThere, LastOf, BreakBefore, NewlineBefore, Grown;
      ChunksAreBrokenOnlyThere(text, h - 1);
      ShortChunk(text, h - 1);
      var init, last := ChunksStep(text, h);
      var broken := BreakBefore(text, h - 1, |last|);
      if broken {
        BrokenHere(text, h - 1, last);
      }
      GrownIsBrokenOnlyThere(init, last, text[h - 1], broken);
    }
  }

  lemma GrownIsBrokenOnlyThere(init: seq<string>, last: string, c: char, broken: bool)
    requires BrokenOnlyThere(init + [last]) && (last == "" ==> |init + [last]| == 1)
    requires broken ==> EndsLine(last, c)
    ensures BrokenOnlyThere(Grown(init, last, c, broken))
  {
    hide BrokenOnlyThere;
    if broken {
      NewIsBrokenOnlyThere(init, last, c);
    } else {
      LongerIsBrokenOnlyThere(init, last, c);
    }
  }

  lemma BrokenHere(text: string, h: nat, last: string)
    requires h < |text| && last == LastOf(Chunks(text, h)) && BreakBefore(text, h, |last|)
    ensures EndsLine(last, text[h])
  {
    hide Chunks, LastOf, NewlineBefore;
    if NewlineBefore(text, h) {
      NewlineInChunk(text, h);
    }
  }

  /** The lines of the buffer, each chunk in quotes. */
  function QuotedLines(chunks: seq<string>): string
    requires chunks != []
  {
    "\"" + chunks[0] + "\"" + if |chunks| == 1 then "" else "\n" + QuotedLines(chunks[1..])
  }

  lemma {:induction false} JoinedFront(c: string, chunks: seq<string>)
    requires chunks != []
    ensures Joined([c] + chunks) == c + "\"\n\"" + Joined(chunks)
  {
    var all, n := [c] + chunks, |chunks|;
    assert all[|all| - 1] == chunks[n - 1];
    if n == 1 {
      assert all[..1] == [c] && chunks == [chunks[0]];
    } else {
      assert all[..n] == [c] + chunks[..n - 1];
      JoinedFront(c, chunks[..n - 1]);
      Reassociate(c + "\"\n\"", Joined(chunks[..n - 1]), BREAK);
      Reassociate(c + "\"\n\"", Joined(chunks[..n - 1]) + BREAK, chunks[n - 1]);
    }
  }

  /** The buffer has a line for each chunk, in quotes. */
  lemma {:induction false} BufferIsQuotedLines(chunks: seq<string>)
    requires chunks != []
    ensures QUOTE + Joined(chunks) + QUOTE == QuotedLines(chunks)
  {
    if |chunks| == 1 {
      NothingAdded("\"" + chunks[0] + "\"");
    } else {
      var rest := chunks[1..];
      BufferIsQuotedLines(rest);
      assert chunks == [chunks[0]] + rest;
      JoinedFront(chunks[0], rest);
      QuotesAround(chunks[0], Joined(rest));
    }
  }

  lemma QuotesAround(c: string, joined: string)
    ensures "\"" + (c + "\"\n\"" + joined) + "\"" == "\"" + c + "\"" + ("\n" + ("\"" + joined + "\""))
  {
  }

  lemma OneLonger(text: string, h: nat, last: string)
    requires 0 < h <= |text| && |last| <= h - 1 && text[h - 1 - |last|..h - 1] == last
    requires WithinLimits(last) && !BreakBefore(text, h - 1, |last|)
    ensures WithinLimits(last + [text[h - 1]])
    ensures text[h - 1 - |last|..h] == last + [text[h - 1]]
  {
    var longer := last + [text[h - 1]];
    if |last| >= 2 {
      assert last[|last| - 2] == text[h - 3] && last[|last| - 1] == text[h - 2];
    }
    forall i | 0 <= i < |longer|
      ensures !NewlineBefore(longer, i)
    {
      if i < |last| {
        assert NewlineBefore(longer, i) == NewlineBefore(last, i);
      }
    }
  }
}
