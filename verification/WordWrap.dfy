/** The word wrap of message texts. */
module WordWrap {
  import opened Seqs

  // ----- words -----

  predicate AllSpaces(s: string) {
    forall i :: 0 <= i < |s| ==> s[i] == ' '
  }

  /** The number of leading spaces. */
  function Leading(s: string): (n: nat)
    ensures n <= |s| && (n < |s| ==> s[n] != ' ')
    ensures forall i :: 0 <= i < n ==> s[i] == ' '
  {
    if s != "" && s[0] == ' ' then 1 + Leading(s[1..]) else 0
  }

  /** The length of the word at the start of a text: it ends before a space unless nothing but spaces follows, in which
      case they belong to it, and with a newline. */
  function WordLength(s: string): (n: nat)
    ensures n <= |s|
    ensures s != "" && s[0] != ' ' ==> n > 0
  {
    if s == "" then 0
    else if s[0] == ' ' then (if AllSpaces(s) then |s| else 0)
    else if s[0] == '\n' then 1
    else 1 + WordLength(s[1..])
  }

  /** Where the next word begins. */
  function Offset(text: string): (n: nat)
    ensures n <= |text| && n <= 1
    ensures n == 1 ==> text[0] == ' '
  {
    if Leading(text) == 1 then 1 else 0
  }

  /** The next word: all but one of several leading spaces, or else what follows a leading space. */
  function NextWord(text: string): (w: string)
    ensures Offset(text) + |w| <= |text|
    ensures text[Offset(text)..][..|w|] == w
    ensures Offset(text) == 1 && w != "" ==> w[0] != ' '
    ensures w == "" <==> text == "" || text == " "
  {
    var n := Leading(text);
    if n > 1 then
      if n == |text| then text else text[..n - 1]
    else
      text[n..][..WordLength(text[n..])]
  }

  /** What follows the next word. */
  function Behind(text: string): string {
    text[Offset(text)..][|NextWord(text)|..]
  }

  function Words(text: string): seq<string>
    decreases |text|
  {
    if NextWord(text) == "" then [] else [NextWord(text)] + Words(Behind(text))
  }

  method GetNextWord(text: string) returns (w: string)
    ensures w == NextWord(text)
  {
    var nrSpaces, start := 0, 0;
    while start < |text| && text[start] == ' '
      invariant nrSpaces == start <= |text|
      invariant forall i :: 0 <= i < start ==> text[i] == ' '
    {
      nrSpaces, start := nrSpaces + 1, start + 1;
    }
    LeadingIs(text, start);
    if nrSpaces > 1 {
      var i := 0;
      while i < |text|
        invariant 0 <= i <= Leading(text)
      {
        if text[i] != ' ' {
          return text[..i - 1];
        }
        i := i + 1;
      }
      return text;
    }
    w := GetWord(text[nrSpaces..]);
  }

  /** The word at the start of a text that does not start with a space. */
  method GetWord(p1: string) returns (w: string)
    ensures w == p1[..WordLength(p1)]
  {
    var i := 0;
    NothingAdded(p1);
    while i < |p1|
      invariant 0 <= i <= |p1| && WordLength(p1) == i + WordLength(p1[i..])
    {
      SplitAt(p1, i);
      if p1[i] == ' ' {
        var notLast := HasWord(p1, i);
        if notLast {
          return p1[..i];
        }
        return p1;
      }
      if p1[i] == '\n' {
        return p1[..i + 1];
      }
      Rejoined([p1[i]], p1[i + 1..]);
      i := i + 1;
    }
    return p1;
  }

  /** Does anything but spaces follow? */
  method HasWord(p1: string, i: nat) returns (notLast: bool)
    requires i <= |p1|
    ensures notLast <==> !AllSpaces(p1[i..])
  {
    notLast := false;
    var b := i;
    while b < |p1|
      invariant i <= b <= |p1|
      invariant forall k :: i <= k < b ==> p1[k] == ' '
    {
      if p1[b] != ' ' {
        assert p1[i..][b - i] == p1[b];
        return true;
      }
      b := b + 1;
    }
  }

  lemma {:induction false} LeadingIs(s: string, n: nat)
    requires n <= |s| && (n < |s| ==> s[n] != ' ')
    requires forall i :: 0 <= i < n ==> s[i] == ' '
    ensures Leading(s) == n
  {
    if n > 0 {
      LeadingIs(s[1..], n - 1);
    }
  }

  /** The position of the first occurrence of w, or -1. */
  function Strstr(s: string, w: string): (p: int)
    ensures -1 <= p && (p >= 0 ==> p + |w| <= |s|)
  {
    if w <= s then 0
    else if s == "" then -1
    else
      var p := Strstr(s[1..], w);
      if p < 0 then -1 else p + 1
  }

  /** Looking for the next word finds it where it was taken from. */
  lemma FoundWhereTaken(text: string)
    requires NextWord(text) != ""
    ensures Strstr(text, NextWord(text)) == Offset(text)
    ensures text[Offset(text) + |NextWord(text)|..] == Behind(text)
  {
    var w := NextWord(text);
    var rest := text[Offset(text)..];
    assert w == rest[..|w|];
    assert w <= rest;
    if Offset(text) == 1 {
      assert w[0] != text[0];
    } else {
      assert rest == text;
    }
    SliceOfSlice(text, Offset(text), |w|);
  }

  // ----- what is kept of a text -----

  const SPACE: set<char> := {' '}
  const BLANKS: set<char> := {' ', '\n'}

  /** A text without the characters of a set. */
  function Kept(s: string, gone: set<char>): string {
    if s == "" then "" else (if s[0] in gone then "" else [s[0]]) + Kept(s[1..], gone)
  }

  lemma {:induction false} KeptConcat(a: string, b: string, gone: set<char>)
    ensures Kept(a + b, gone) == Kept(a, gone) + Kept(b, gone)
  {
    if a == "" {
      assert a + b == b;
    } else {
      var first, rest := if a[0] in gone then "" else [a[0]], a[1..];
      DropWithin(a, b, 1);
      KeptConcat(rest, b, gone);
      Reassociate(first, Kept(rest, gone), Kept(b, gone));
    }
  }

  lemma {:induction false} NothingKept(s: string, gone: set<char>)
    requires forall i :: 0 <= i < |s| ==> s[i] in gone
    ensures Kept(s, gone) == ""
  {
    if s != "" {
      NothingKept(s[1..], gone);
    }
  }

  function Flat(words: seq<string>): string {
    if words == [] then "" else words[0] + Flat(words[1..])
  }

  lemma {:induction false} FlatConcat(a: seq<string>, b: seq<string>)
    ensures Flat(a + b) == Flat(a) + Flat(b)
  {
    if a == [] {
      assert a + b == b;
    } else {
      assert (a + b)[1..] == a[1..] + b;
      FlatConcat(a[1..], b);
      Reassociate(a[0], Flat(a[1..]), Flat(b));
    }
  }

  /** The words have every character of the text that is no space, newlines included. */
  lemma {:induction false} WordsKeepText(text: string, gone: set<char>)
    requires ' ' in gone
    ensures Kept(Flat(Words(text)), gone) == Kept(text, gone)
    decreases |text|
  {
    var w := NextWord(text);
    if w == "" {
      NothingKept(text, gone);
    } else {
      WordsKeepText(Behind(text), gone);
      FlatOne(w, Words(Behind(text)));
      KeptParts(text, gone);
      KeptConcat(w, Flat(Words(Behind(text))), gone);
    }
  }

  lemma FlatOne(w: string, ws: seq<string>)
    ensures Flat([w] + ws) == w + Flat(ws)
  {
    Rejoined([w], ws);
  }

  lemma KeptParts(text: string, gone: set<char>)
    requires ' ' in gone
    ensures Kept(text, gone) == Kept(NextWord(text), gone) + Kept(Behind(text), gone)
  {
    hide Kept, NextWord;
    var head, rest := text[..Offset(text)], text[Offset(text)..];
    Split(text, Offset(text));
    KeptConcat(head, rest, gone);
    NothingKept(head, gone);
    Split(rest, |NextWord(text)|);
    KeptConcat(NextWord(text), Behind(text), gone);
    NothingAdded(Kept(rest, gone));
  }

  // ----- lines -----

  /** A line: what stands in front, its words, and whether it is printed without a newline. */
  datatype Line = Line(prefix: string, words: seq<string>, quiet: bool)

  /** Words are set apart by a space, but for words of nothing but spaces. */
  function Gap(w: string): string {
    if AllSpaces(w) then "" else " "
  }

  function Spaced(words: seq<string>): string {
    if words == [] then ""
    else if |words| == 1 then words[0]
    else
      var last := words[|words| - 1];
      Spaced(words[..|words| - 1]) + Gap(last) + last
  }

  function TextOf(line: Line): string {
    line.prefix + Spaced(line.words)
  }

  /** Lengths are unsigned, so nothing exceeds a negative maximum. */
  predicate Exceeds(n: nat, max: int) {
    0 <= max < n
  }

  /** Is a line printed as soon as it has this text? */
  predicate Full(text: string, max: int) {
    Exceeds(|text|, max) || '\n' in text
  }

  datatype Layout = Layout(indent: string, max: int, quiet: bool)

  /** The lines that words make, taken is what the current line has of them. */
  function Wrapped(words: seq<string>, prefix: string, taken: seq<string>, y: Layout): seq<Line>
    decreases words
  {
    if words == [] then (if taken == [] then [] else [Line(prefix, taken, y.quiet)])
    else
      var now, rest := taken + [words[0]], words[1..];
      var text := prefix + Spaced(now);
      if Full(text, y.max) then [Line(prefix, now, rest != [])] + Wrapped(rest, y.indent, [], y)
      else if rest == [] then [Line(prefix, now, y.quiet)]
      else if Exceeds(|text| + |rest[0]| + 1, y.max) then [Line(prefix, now, false)] + Wrapped(rest, y.indent, [], y)
      else Wrapped(rest, prefix, now, y)
  }

  function AllWords(lines: seq<Line>): seq<string> {
    if lines == [] then [] else lines[0].words + AllWords(lines[1..])
  }

  /** The lines have all the words in order. */
  lemma {:induction false} LinesKeepWords(words: seq<string>, prefix: string, taken: seq<string>, y: Layout)
    ensures AllWords(Wrapped(words, prefix, taken, y)) == taken + words
    decreases words
  {
    if words == [] {
      assert taken + words == taken;
      assert taken + AllWords([]) == taken;
    } else {
      var now, rest := taken + [words[0]], words[1..];
      assert now + rest == taken + words;
      var text := prefix + Spaced(now);
      if Full(text, y.max) {
        LinesKeepWords(rest, y.indent, [], y);
        Rejoined([Line(prefix, now, rest != [])], Wrapped(rest, y.indent, [], y));
        NothingAdded(rest);
      } else if rest == [] {
        assert AllWords([]) == [] && now + [] == now;
      } else if Exceeds(|text| + |rest[0]| + 1, y.max) {
        LinesKeepWords(rest, y.indent, [], y);
        Rejoined([Line(prefix, now, false)], Wrapped(rest, y.indent, [], y));
        NothingAdded(rest);
      } else {
        LinesKeepWords(rest, prefix, now, y);
      }
    }
  }

  /** Could the current line still take the next word? */
  ghost predicate Fits(words: seq<string>, prefix: string, taken: seq<string>, y: Layout) {
    taken != [] && words != [] ==> !Exceeds(|prefix + Spaced(taken)| + |words[0]| + 1, y.max)
  }

  lemma OneMoreWord(taken: seq<string>, w: string)
    ensures Spaced(taken + [w]) == if taken == [] then w else Spaced(taken) + Gap(w) + w
  {
    assert (taken + [w])[..|taken|] == taken;
  }

  /** A line is only too long if its one word is; and a line that is not too long and has no newline was only ended
      because the next word did not fit. */
  lemma {:induction false} LinesAreFilled(words: seq<string>, prefix: string, taken: seq<string>, y: Layout, i: nat)
    requires words != [] && Fits(words, prefix, taken, y)
    requires i < |Wrapped(words, prefix, taken, y)|
    ensures var lines := Wrapped(words, prefix, taken, y);
            && lines[i].words != []
            && (Exceeds(|TextOf(lines[i])|, y.max) ==> |lines[i].words| == 1)
            && (i + 1 < |lines| && !Full(TextOf(lines[i]), y.max) ==>
                  lines[i + 1].words != [] && Exceeds(|TextOf(lines[i])| + |lines[i + 1].words[0]| + 1, y.max))
    decreases words
  {
    hide Spaced, AllSpaces, Full;
    var now, rest := taken + [words[0]], words[1..];
    var text := prefix + Spaced(now);
    OneMoreWord(taken, words[0]);
    if rest != [] {
      if Full(text, y.max) || Exceeds(|text| + |rest[0]| + 1, y.max) {
        FirstOfTail(rest, y.indent, [], y);
        if i > 0 {
          LinesAreFilled(rest, y.indent, [], y, i - 1);
        }
      } else {
        LinesAreFilled(rest, prefix, now, y, i);
      }
    }
  }

  lemma {:induction false} FirstOfTail(words: seq<string>, prefix: string, taken: seq<string>, y: Layout)
    requires words != []
    ensures var lines := Wrapped(words, prefix, taken, y);
            lines != [] && lines[0].words != [] && lines[0].words[0] == (taken + words)[0]
    decreases words
  {
    var now, rest := taken + [words[0]], words[1..];
    if rest != [] && !Full(prefix + Spaced(now), y.max) {
      FirstOfTail(rest, prefix, now, y);
    }
  }

  /** The first line has its own prefix, the others the indent. */
  lemma {:induction false} Prefixes(words: seq<string>, prefix: string, taken: seq<string>, y: Layout, i: nat)
    requires i < |Wrapped(words, prefix, taken, y)|
    ensures Wrapped(words, prefix, taken, y)[i].prefix == if i == 0 then prefix else y.indent
    decreases words
  {
    if words != [] {
      var now, rest := taken + [words[0]], words[1..];
      var text := prefix + Spaced(now);
      if Full(text, y.max) || (rest != [] && Exceeds(|text| + |rest[0]| + 1, y.max)) {
        if i > 0 {
          Prefixes(rest, y.indent, [], y, i - 1);
        }
      } else if rest != [] {
        Prefixes(rest, prefix, now, y, i);
      }
    }
  }

  /** A line that is printed early because it is too long or has a newline is followed by no newline of its own unless
      it is the last; the last of other lines follows the option, and the rest have a newline. */
  lemma {:induction false} NewlinesPrinted(words: seq<string>, prefix: string, taken: seq<string>, y: Layout, i: nat)
    requires i < |Wrapped(words, prefix, taken, y)|
    requires taken != [] ==> !Full(prefix + Spaced(taken), y.max)
    ensures var lines := Wrapped(words, prefix, taken, y);
            lines[i].quiet == if Full(TextOf(lines[i]), y.max) then i + 1 < |lines|
                              else i + 1 == |lines| && y.quiet
    decreases words
  {
    if words != [] {
      var now, rest := taken + [words[0]], words[1..];
      var text := prefix + Spaced(now);
      if Full(text, y.max) || (rest != [] && Exceeds(|text| + |rest[0]| + 1, y.max)) {
        if rest != [] {
          FirstOfTail(rest, y.indent, [], y);
        }
        if i > 0 {
          NewlinesPrinted(rest, y.indent, [], y, i - 1);
        }
      } else if rest != [] {
        NewlinesPrinted(rest, prefix, now, y, i);
      }
    }
  }

  // ----- printing -----

  /** Does a line with this text have any column? */
  predicate HasColumns(text: string) {
    exists i :: 0 <= i < |text| && text[i] != '\n'
  }

  function Output(text: string, quiet: bool): string {
    text + if !quiet && HasColumns(text) then "\n" else ""
  }

  function OutputOf(lines: seq<Line>): string {
    if lines == [] then "" else Output(TextOf(lines[0]), lines[0].quiet) + OutputOf(lines[1..])
  }

  method PrintLine(line: string, quiet: bool) returns (output: string)
    ensures output == Output(line, quiet)
    ensures output == line + if !quiet && exists k :: 0 <= k < |line| && line[k] != '\n' then "\n" else ""
  {
    var lineLength, lc := 0, 0;
    for i := 0 to |line|
      invariant 0 <= lc <= lineLength
      invariant lineLength > 0 <==> exists k :: 0 <= k < i && line[k] != '\n'
    {
      lc := lc + 1;
      if line[i] == '\n' {
        lc := 0;
      }
      if lineLength < lc {
        lineLength := lc;
      }
    }
    output := line;
    if !quiet && lineLength > 0 {
      output := output + "\n";
    }
  }

  function Spaces(n: nat): (r: string)
    ensures |r| == n && AllSpaces(r)
  {
    if n == 0 then "" else Spaces(n - 1) + " "
  }

  lemma PrintedFirst(line: Line, lines: seq<Line>, output: string)
    ensures output + OutputOf([line] + lines) == output + Output(TextOf(line), line.quiet) + OutputOf(lines)
  {
    Rejoined([line], lines);
    Reassociate(output, Output(TextOf(line), line.quiet), OutputOf(lines));
  }

  /** Wraps a text: prints its words in lines, finding each word again in what remains of the text. */
  method FormatOutput(text: string, dash: string, maxColumn: int, quietOption: bool) returns (output: string)
    ensures output == OutputOf(Wrapped(Words(text), dash, [], Layout(Spaces(|dash|), maxColumn, quietOption)))
  {
    hide Wrapped, OutputOf, Output, Words, NextWord, Behind, Spaced;
    ghost var y := Layout(Spaces(|dash|), maxColumn, quietOption);
    ghost var all := OutputOf(Wrapped(Words(text), dash, [], y));
    ghost var prefix, taken: seq<string> := dash, [];
    output := "";
    var indent := Indent(dash);
    var line, tp, nrWord, done := dash, text, 0, false;
    NothingSpaced(dash);
    NothingAdded(all);
    while !done
      invariant nrWord == |taken| && line == prefix + Spaced(taken)
      invariant !done ==> output + OutputOf(Wrapped(Words(tp), prefix, taken, y)) == all
      invariant done ==> output == all
      decreases !done, |tp|
    {
      var nextWord := GetNextWord(tp);
      WordsStep(tp);
      WrappedStep(Words(tp), prefix, taken, y, output);
      if nextWord == "" {
        if nrWord != 0 {
          var printed := PrintLine(line, quietOption);
          output := output + printed;
        }
        done := true;
        break;
      }
      line := AppendWord(line, nrWord, nextWord, prefix, taken);
      nrWord := nrWord + 1;
      taken := taken + [nextWord];
      tp := SkipWord(tp, nextWord);
      nextWord := GetNextWord(tp);
      WordsStep(tp);
      if Full(line, maxColumn) {
        var printed := PrintLine(line, nextWord != "");
        output := output + printed;
        nrWord, line := 0, indent;
        prefix, taken := indent, [];
        NothingSpaced(indent);
      } else {
        if nextWord == "" {
          var printed := PrintLine(line, quietOption);
          output := output + printed;
          done := true;
          break;
        }
        if Exceeds(|line| + |nextWord| + 1, maxColumn) && nrWord != 0 {
          var printed := PrintLine(line, false);
          output := output + printed;
          nrWord, line := 0, indent;
          prefix, taken := indent, [];
          NothingSpaced(indent);
        }
      }
    }
  }

  method Indent(dash: string) returns (indent: string)
    ensures indent == Spaces(|dash|)
  {
    indent := "";
    for i := 0 to |dash|
      invariant indent == Spaces(i)
    {
      indent := indent + " ";
    }
  }

  method AppendWord(start: string, nrWord: nat, nextWord: string, ghost prefix: string, ghost taken: seq<string>)
    returns (line: string)
    requires nrWord == |taken| && start == prefix + Spaced(taken)
    ensures line == prefix + Spaced(taken + [nextWord])
  {
    OneMoreWord(taken, nextWord);
    LineExtended(prefix, Spaced(taken), nextWord, taken == []);
    line := start;
    if nrWord != 0 {
      if !AllSpaces(nextWord) {
        line := line + " ";
      }
    }
    line := line + nextWord;
  }

  method SkipWord(text: string, nextWord: string) returns (rest: string)
    requires nextWord == NextWord(text) && nextWord != ""
    ensures rest == Behind(text)
  {
    FoundWhereTaken(text);
    SliceOfSlice(text, Offset(text), |nextWord|);
    rest := text[Strstr(text, nextWord)..];
    rest := rest[|nextWord|..];
  }

  lemma NothingSpaced(prefix: string)
    ensures prefix + Spaced([]) == prefix
  {
  }

  lemma WordsStep(text: string)
    ensures NextWord(text) == "" ==> Words(text) == []
    ensures NextWord(text) != "" ==> Words(text) != [] && Words(text)[0] == NextWord(text)
                                     && Words(text)[1..] == Words(Behind(text))
    ensures NextWord(text) != "" ==> |Behind(text)| < |text|
  {
    Rejoined([NextWord(text)], Words(Behind(text)));
  }

  lemma LineExtended(prefix: string, spaced: string, w: string, first: bool)
    requires first ==> spaced == ""
    ensures first ==> prefix + spaced + w == prefix + w
    ensures prefix + spaced + " " + w == prefix + (spaced + " " + w)
    ensures prefix + spaced + w == prefix + (spaced + "" + w)
  {
  }

  /** One step of wrapping, with what was printed before. */
  lemma WrappedStep(words: seq<string>, prefix: string, taken: seq<string>, y: Layout, output: string)
    ensures words == [] ==>
              output + OutputOf(Wrapped(words, prefix, taken, y))
              == output + if taken == [] then "" else Output(prefix + Spaced(taken), y.quiet)
    ensures words != [] ==>
              var now, rest := taken + [words[0]], words[1..];
              var text := prefix + Spaced(now);
              output + OutputOf(Wrapped(words, prefix, taken, y)) ==
              if Full(text, y.max) then
                output + Output(text, rest != []) + OutputOf(Wrapped(rest, y.indent, [], y))
              else if rest == [] then output + Output(text, y.quiet)
              else if Exceeds(|text| + |rest[0]| + 1, y.max) then
                output + Output(text, false) + OutputOf(Wrapped(rest, y.indent, [], y))
              else output + OutputOf(Wrapped(rest, prefix, now, y))
  {
    hide Full, Output;
    if words == [] {
      if taken != [] {
        PrintedFirst(Line(prefix, taken, y.quiet), [], output);
      }
    } else {
      var now, rest := taken + [words[0]], words[1..];
      var text := prefix + Spaced(now);
      PrintedFirst(Line(prefix, now, rest != []), Wrapped(rest, y.indent, [], y), output);
      PrintedFirst(Line(prefix, now, false), Wrapped(rest, y.indent, [], y), output);
      PrintedFirst(Line(prefix, now, y.quiet), [], output);
    }
  }

  // ----- nothing is lost -----

  lemma {:induction false} SpacedKeeps(words: seq<string>, gone: set<char>)
    requires ' ' in gone
    ensures Kept(Spaced(words), gone) == Kept(Flat(words), gone)
  {
    hide Kept, Spaced, Flat;
    if words == [] {
      NothingFlat();
    } else {
      var n := |words| - 1;
      var init, last := words[..n], words[n];
      SplitAt(words, n);
      NothingAdded(init + [last]);
      FlatConcat(init, [last]);
      FlatOne(last, []);
      NothingFlat();
      NothingAdded(last);
      SpacedKeeps(init, gone);
      KeptConcat(Flat(init), last, gone);
      OneMoreWord(init, last);
      NothingAdded(Kept(last, gone));
      if n > 0 {
        GapKeeps(Spaced(init), last, gone);
      } else {
        assert Flat(init) == "";
      }
    }
  }

  lemma NothingFlat()
    ensures Spaced([]) == Flat([]) == ""
  {
  }

  lemma GapKeeps(s: string, w: string, gone: set<char>)
    requires ' ' in gone
    ensures Kept(s + Gap(w) + w, gone) == Kept(s, gone) + Kept(w, gone)
  {
    hide Kept;
    KeptConcat(s + Gap(w), w, gone);
    KeptConcat(s, Gap(w), gone);
    NothingKept(Gap(w), gone);
    NothingAdded(Kept(s, gone));
  }

  /** The texts of all lines, as they are handed to printing. */
  function Handed(lines: seq<Line>): string {
    if lines == [] then "" else TextOf(lines[0]) + Handed(lines[1..])
  }

  /** All prefixes and words. */
  function FlatLines(lines: seq<Line>): string {
    if lines == [] then "" else lines[0].prefix + Flat(lines[0].words) + FlatLines(lines[1..])
  }

  lemma LineKeeps(line: Line, gone: set<char>)
    requires ' ' in gone
    ensures Kept(TextOf(line), gone) == Kept(line.prefix + Flat(line.words), gone)
    ensures '\n' in gone ==> Kept(Output(TextOf(line), line.quiet), gone) == Kept(TextOf(line), gone)
  {
    hide Kept, Spaced, Flat, HasColumns;
    var newline := if !line.quiet && HasColumns(TextOf(line)) then "\n" else "";
    KeptConcat(TextOf(line), newline, gone);
    if '\n' in gone {
      NothingKept(newline, gone);
    }
    KeptConcat(line.prefix, Spaced(line.words), gone);
    SpacedKeeps(line.words, gone);
    KeptConcat(line.prefix, Flat(line.words), gone);
  }

  lemma {:induction false} LinesKeep(lines: seq<Line>, gone: set<char>)
    requires ' ' in gone
    ensures Kept(Handed(lines), gone) == Kept(FlatLines(lines), gone)
    ensures '\n' in gone ==> Kept(OutputOf(lines), gone) == Kept(FlatLines(lines), gone)
  {
    if lines != [] {
      hide Kept, Output, TextOf, Flat;
      var line := lines[0];
      LinesKeep(lines[1..], gone);
      LineKeeps(line, gone);
      KeptConcat(TextOf(line), Handed(lines[1..]), gone);
      KeptConcat(Output(TextOf(line), line.quiet), OutputOf(lines[1..]), gone);
      KeptConcat(line.prefix + Flat(line.words), FlatLines(lines[1..]), gone);
    }
  }

  /** Behind the first prefix, indented lines have their words and nothing else. */
  lemma {:induction false} IndentedLines(lines: seq<Line>, gone: set<char>)
    requires ' ' in gone
    requires forall i :: 0 <= i < |lines| ==> AllSpaces(lines[i].prefix)
    ensures Kept(FlatLines(lines), gone) == Kept(Flat(AllWords(lines)), gone)
  {
    if lines != [] {
      var line := lines[0];
      IndentedLines(lines[1..], gone);
      KeptConcat(line.prefix + Flat(line.words), FlatLines(lines[1..]), gone);
      KeptConcat(line.prefix, Flat(line.words), gone);
      NothingKept(line.prefix, gone);
      FlatConcat(line.words, AllWords(lines[1..]));
      KeptConcat(Flat(line.words), Flat(AllWords(lines[1..])), gone);
      NothingAdded(Kept(Flat(line.words), gone));
    }
  }

  lemma LinesKeepAll(text: string, dash: string, y: Layout, gone: set<char>)
    requires ' ' in gone && AllSpaces(y.indent)
    ensures var lines := Wrapped(Words(text), dash, [], y);
            && Kept(FlatLines(lines), gone) == (if lines == [] then "" else Kept(dash, gone)) + Kept(text, gone)
            && (lines == [] <==> text == "" || text == " ")
  {
    hide Kept, Wrapped, Words, OutputOf, Flat, AllWords;
    var words := Words(text);
    var lines := Wrapped(words, dash, [], y);
    NothingWrapped(text, dash, y);
    WordsKeepText(text, gone);
    LinesKeepWords(words, dash, [], y);
    NothingAdded(words);
    if lines == [] {
      NothingOfNothing(text, gone);
    } else {
      forall i | 0 <= i < |lines|
        ensures lines[i].prefix == if i == 0 then dash else y.indent
      {
        Prefixes(words, dash, [], y, i);
      }
      IndentedTail(lines, dash, gone);
    }
  }

  /** The lines handed to printing have exactly the characters of the dash, if there is any line, and of the text,
      newlines included and spaces aside. */
  lemma WrappingKeepsText(text: string, dash: string, maxColumn: int, quietOption: bool)
    ensures var lines := Wrapped(Words(text), dash, [], Layout(Spaces(|dash|), maxColumn, quietOption));
            && Kept(Handed(lines), SPACE) == (if lines == [] then "" else Kept(dash, SPACE)) + Kept(text, SPACE)
            && (lines == [] <==> text == "" || text == " ")
  {
    hide Kept, Wrapped, Words, Handed, FlatLines;
    var y := Layout(Spaces(|dash|), maxColumn, quietOption);
    LinesKeepAll(text, dash, y, SPACE);
    LinesKeep(Wrapped(Words(text), dash, [], y), SPACE);
  }

  /** The printed output only has more newlines. */
  lemma OutputKeepsText(text: string, dash: string, maxColumn: int, quietOption: bool)
    ensures var lines := Wrapped(Words(text), dash, [], Layout(Spaces(|dash|), maxColumn, quietOption));
            Kept(OutputOf(lines), BLANKS) == (if lines == [] then "" else Kept(dash, BLANKS)) + Kept(text, BLANKS)
  {
    hide Kept, Wrapped, Words, OutputOf, FlatLines;
    var y := Layout(Spaces(|dash|), maxColumn, quietOption);
    LinesKeepAll(text, dash, y, BLANKS);
    LinesKeep(Wrapped(Words(text), dash, [], y), BLANKS);
  }

  // ----- the spacing is kept -----

  lemma {:induction false} SpacedFront(w: string, ws: seq<string>)
    ensures Spaced([w] + ws) == if ws == [] then w else w + Gap(ws[0]) + Spaced(ws)
  {
    if ws == [] {
      NothingAdded([w]);
    } else {
      var n := |ws| - 1;
      var init, last := ws[..n], ws[n];
      assert ws == init + [last];
      Reassociate([w], init, [last]);
      OneMoreWord([w] + init, last);
      OneMoreWord(init, last);
      SpacedFront(w, init);
      if n > 0 {
        SpacedGlued(w + Gap(ws[0]), Spaced(init), Gap(last), last);
      }
    }
  }

  lemma SpacedGlued(a: string, b: string, c: string, d: string)
    ensures a + b + c + d == a + (b + c + d)
  {
    Reassociate(a + b, c, d);
    Reassociate(a, b, c + d);
    Reassociate(b, c, d);
  }

  /** Without newlines, the next word is followed by nothing, or by spaces and something else. */
  lemma BehindWord(text: string)
    requires '\n' !in text && NextWord(text) != ""
    ensures var b := Behind(text);
            '\n' !in b && (b == "" || (b[0] == ' ' && !AllSpaces(b)))
    ensures AllSpaces(NextWord(text)) <==> Leading(text) > 1
    ensures text[Offset(text)..] == NextWord(text) + Behind(text)
  {
    var n := Leading(text);
    var rest := text[Offset(text)..];
    Split(rest, |NextWord(text)|);
    if n > 1 {
      if n < |text| {
        assert Behind(text)[1] == text[n];
      }
    } else {
      assert rest == text[n..];
      WordEnds(rest);
      assert NextWord(text)[0] == text[n];
    }
    forall c | c in Behind(text)
      ensures c in text
    {
      assert c in rest;
    }
  }

  lemma {:induction false} WordEnds(s: string)
    requires '\n' !in s
    ensures var b := s[WordLength(s)..]; s != "" && s[0] != ' ' ==> b == "" || (b[0] == ' ' && !AllSpaces(b))
  {
    if s != "" && s[0] != ' ' {
      var rest := s[1..];
      assert s[0] in s;
      if rest != "" && rest[0] == ' ' {
        assert AllSpaces(rest) ==> WordLength(rest) == |rest|;
      } else {
        WordEnds(rest);
      }
      assert s[WordLength(s)..] == rest[WordLength(rest)..];
    }
  }

  /** Words set apart as a line sets them apart are the text again: but for one leading space, a text without newlines
      keeps all its spaces. */
  lemma {:induction false} SpacingIsKept(text: string)
    requires '\n' !in text && text != " "
    ensures Spaced(Words(text)) == if Leading(text) == 1 then text[1..] else text
    decreases |text|
  {
    var w := NextWord(text);
    if w == "" {
      assert text == "";
    } else {
      var b := Behind(text);
      BehindWord(text);
      SpacedFront(w, Words(b));
      if b == "" {
        NothingAdded(w);
      } else {
        SpacingIsKept(b);
        WordsStep(b);
        BehindWord(b);
        NextIsGapped(w, b);
      }
    }
  }

  lemma NextIsGapped(w: string, b: string)
    requires b != "" && b[0] == ' ' && NextWord(b) != ""
    requires AllSpaces(NextWord(b)) <==> Leading(b) > 1
    ensures w + Gap(NextWord(b)) + (if Leading(b) == 1 then b[1..] else b) == w + b
  {
    if Leading(b) == 1 {
      assert b == " " + b[1..];
      Reassociate(w, " ", b[1..]);
    } else {
      NothingAdded(w);
    }
  }

  lemma NothingToWrap(dash: string, y: Layout)
    ensures Wrapped([], dash, [], y) == []
  {
  }

  lemma NothingWrapped(text: string, dash: string, y: Layout)
    ensures Wrapped(Words(text), dash, [], y) == [] <==> text == "" || text == " "
  {
    if NextWord(text) != "" {
      FirstOfTail(Words(text), dash, [], y);
    }
  }

  lemma NothingOfNothing(text: string, gone: set<char>)
    requires ' ' in gone && (text == "" || text == " ")
    ensures Kept(text, gone) == "" && Kept(FlatLines([]), gone) == "" && "" + Kept(text, gone) == ""
  {
    NothingKept(text, gone);
  }

  lemma IndentedTail(lines: seq<Line>, dash: string, gone: set<char>)
    requires ' ' in gone
    requires lines != [] && lines[0].prefix == dash
    requires forall i :: 1 <= i < |lines| ==> AllSpaces(lines[i].prefix)
    ensures Kept(FlatLines(lines), gone) == Kept(dash, gone) + Kept(Flat(AllWords(lines)), gone)
  {
    var line, tail := lines[0], lines[1..];
    IndentedLines(tail, gone);
    KeptConcat(dash + Flat(line.words), FlatLines(tail), gone);
    KeptConcat(dash, Flat(line.words), gone);
    FlatConcat(line.words, AllWords(tail));
    KeptConcat(Flat(line.words), Flat(AllWords(tail)), gone);
    Reassociate(Kept(dash, gone), Kept(Flat(line.words), gone), Kept(Flat(AllWords(tail)), gone));
  }

  // ----- what the lines look like -----

  /** A newline stands in a text only as its last character. */
  predicate NewlineLast(s: string) {
    forall i :: 0 <= i < |s| - 1 ==> s[i] != '\n'
  }

  lemma {:induction false} WordNewline(s: string)
    ensures NewlineLast(s[..WordLength(s)])
  {
    if s != "" && s[0] != ' ' && s[0] != '\n' {
      WordNewline(s[1..]);
      assert s[..WordLength(s)] == [s[0]] + s[1..][..WordLength(s[1..])];
    }
  }

  lemma {:induction false} WordsNewline(text: string)
    ensures forall w :: w in Words(text) ==> NewlineLast(w)
    decreases |text|
  {
    if NextWord(text) != "" {
      WordsNewline(Behind(text));
      WordNewline(text[Leading(text)..]);
    }
  }

  lemma OneMoreNewline(a: string, gap: string, w: string)
    requires '\n' !in a && '\n' !in gap && NewlineLast(w)
    ensures NewlineLast(a + gap + w)
  {
    var s := a + gap + w;
    forall i | 0 <= i < |s| - 1
      ensures s[i] != '\n'
    {
      assert s[i] == if i < |a + gap| then (a + gap)[i] else w[i - |a + gap|];
      assert i < |a + gap| ==> (a + gap)[i] in a + gap;
    }
  }

  lemma LineNewline(prefix: string, taken: seq<string>, w: string)
    requires '\n' !in prefix + Spaced(taken) && NewlineLast(w)
    ensures NewlineLast(prefix + Spaced(taken + [w]))
  {
    hide Spaced;
    OneMoreWord(taken, w);
    var gap := if taken == [] then "" else Gap(w);
    OneMoreNewline(prefix + Spaced(taken), gap, w);
    if taken == [] {
      NothingSpaced(prefix);
      NothingAdded(prefix);
    } else {
      Reassociate(prefix, Spaced(taken), gap);
      Reassociate(prefix, Spaced(taken) + gap, w);
    }
  }

  lemma {:induction false} LinesNewline(words: seq<string>, prefix: string, taken: seq<string>, y: Layout, i: nat)
    requires i < |Wrapped(words, prefix, taken, y)|
    requires '\n' !in prefix + Spaced(taken) && '\n' !in y.indent
    requires forall w :: w in words ==> NewlineLast(w)
    ensures NewlineLast(TextOf(Wrapped(words, prefix, taken, y)[i]))
    decreases words
  {
    hide Spaced, NewlineLast;
    if words == [] {
      NoNewlineLast(prefix + Spaced(taken));
    } else {
      var now, rest := taken + [words[0]], words[1..];
      assert words[0] in words && forall w :: w in rest ==> w in words;
      LineNewline(prefix, taken, words[0]);
      NothingSpaced(y.indent);
      var text := prefix + Spaced(now);
      if Full(text, y.max) || (rest != [] && Exceeds(|text| + |rest[0]| + 1, y.max)) {
        if i > 0 {
          LinesNewline(rest, y.indent, [], y, i - 1);
        }
      } else if rest != [] {
        LinesNewline(rest, prefix, now, y, i);
      }
    }
  }

  lemma NoNewlineLast(s: string)
    requires '\n' !in s
    ensures NewlineLast(s)
  {
  }

  /** Every line: the first has the dash in front, the others as many spaces; one that is longer than a non-negative
      maximum has a single word, and one that is not, and has no newline, is filled as far as the next word allows. No
      newline is printed behind a line that is too long or has one, unless it is the last; each of the others is
      followed by one, the last by option. */
  lemma LinesOfText(text: string, dash: string, maxColumn: int, quietOption: bool, i: nat)
    requires i < |Wrapped(Words(text), dash, [], Layout(Spaces(|dash|), maxColumn, quietOption))|
    ensures var lines := Wrapped(Words(text), dash, [], Layout(Spaces(|dash|), maxColumn, quietOption));
            var t := TextOf(lines[i]);
            var tooLong := maxColumn >= 0 && |t| > maxColumn;
            && (if i == 0 then lines[i].prefix == dash
                else |lines[i].prefix| == |dash| && forall k :: 0 <= k < |dash| ==> lines[i].prefix[k] == ' ')
            && (tooLong ==> |lines[i].words| == 1)
            && (i + 1 < |lines| && !tooLong && '\n' !in t ==>
                  lines[i + 1].words != [] && maxColumn >= 0 && |t| + |lines[i + 1].words[0]| + 1 > maxColumn)
            && (lines[i].quiet <==> if tooLong || '\n' in t then i + 1 < |lines| else i + 1 == |lines| && quietOption)
  {
    hide Wrapped, Words, Spaced, TextOf;
    var y := Layout(Spaces(|dash|), maxColumn, quietOption);
    NothingToWrap(dash, y);
    LinesAreFilled(Words(text), dash, [], y, i);
    NewlinesPrinted(Words(text), dash, [], y, i);
    Prefixes(Words(text), dash, [], y, i);
  }

  /** A newline in the text ends a line: with a dash without one, it stands in a line only as the last character. */
  lemma NewlinesEndLines(text: string, dash: string, maxColumn: int, quietOption: bool, i: nat)
    requires i < |Wrapped(Words(text), dash, [], Layout(Spaces(|dash|), maxColumn, quietOption))|
    requires '\n' !in dash
    ensures NewlineLast(TextOf(Wrapped(Words(text), dash, [], Layout(Spaces(|dash|), maxColumn, quietOption))[i]))
  {
    hide Wrapped, Words, Spaced, TextOf, NewlineLast;
    WordsNewline(text);
    NothingSpaced(dash);
    LinesNewline(Words(text), dash, [], Layout(Spaces(|dash|), maxColumn, quietOption), i);
  }
}
