/** Options embedded in a job script or listed in a defaults file, and their priority against the command line. */
module ScriptFile {
  import opened Machine
  import opened Optional
  import opened OptionList
  import opened JobParser
  import opened JobTheorems
  import opened Seqs

  // ----- lines -----

  /** The position of the first c, or -1. */
  function Find(s: string, c: char): (p: int)
    ensures -1 <= p < |s|
    ensures 0 <= p ==> s[p] == c
    ensures forall j :: 0 <= j < (if p < 0 then |s| else p) ==> s[j] != c
  {
    if s == "" then -1
    else if s[0] == c then 0
    else
      var p := Find(s[1..], c);
      if p < 0 then -1 else p + 1
  }

  /** The lines of a text; what follows the last newline is a line if it is not empty. */
  function Lines(text: string): (r: seq<string>)
    ensures forall line :: line in r ==> '\n' !in line
  {
    if text == "" then []
    else
      var p := Find(text, '\n');
      if p < 0 then [text] else [text[..p]] + Lines(text[p + 1..])
  }

  function Unlines(lines: seq<string>): string {
    if lines == [] then "" else lines[0] + "\n" + Unlines(lines[1..])
  }

  /** The lines make up the text, but for a missing newline at its end. */
  lemma {:induction false} LinesPartition(text: string)
    ensures Unlines(Lines(text)) == if text == "" || text[|text| - 1] == '\n' then text else text + "\n"
  {
    if text != "" {
      var p := Find(text, '\n');
      if p >= 0 {
        var rest := text[p + 1..];
        LinesPartition(rest);
        SplitAt(text, p);
        Rejoined([text[..p]], Lines(rest));
        Reassociate(text[..p], "\n", rest);
        Reassociate(text[..p] + "\n", rest, "\n");
      }
    }
  }

  // ----- the parameters on a line -----

  predicate Blank(s: string) {
    forall i :: 0 <= i < |s| ==> IsSpace(s[i])
  }

  function SkipSpaces(s: string): (r: string)
    ensures r == "" || !IsSpace(r[0])
  {
    if s != "" && IsSpace(s[0]) then SkipSpaces(s[1..]) else s
  }

  /** The text in front of the first '#'. */
  function Uncommented(s: string): string {
    if Find(s, '#') < 0 then s else s[..Find(s, '#')]
  }

  /** Without trailing space; a text of nothing but space stays as it is. */
  function Trimmed(s: string): string {
    if Blank(s) then s else TrimmedEnd(s)
  }

  function TrimmedEnd(s: string): (r: string)
    ensures r == "" || !IsSpace(r[|r| - 1])
    ensures |r| <= |s| && r == s[..|r|] && Blank(s[|r|..])
  {
    if s == "" || !IsSpace(s[|s| - 1]) then s else TrimmedEnd(s[..|s| - 1])
  }

  /** The parameters on a line, None if there are none to look at. Without prefix a line starting with '#' is skipped,
      with one only the lines starting with it are read. */
  function Parameters(line: string, prefix: string): Option<string> {
    if prefix == "" then
      if line != "" && line[0] == '#' then None else Some(Trimmed(Uncommented(line)))
    else if prefix <= line then Some(Trimmed(Uncommented(SkipSpaces(line[|prefix|..]))))
    else None
  }

  method StripLine(line: string, prefix: string) returns (r: Option<string>)
    ensures r == Parameters(line, prefix)
  {
    var parameters := line;
    if prefix == "" {
      if line != "" && line[0] == '#' {
        return None;
      }
    } else if prefix <= line {
      parameters := line[|prefix|..];
      while parameters != "" && IsSpace(parameters[0])
        invariant SkipSpaces(parameters) == SkipSpaces(line[|prefix|..])
        decreases |parameters|
      {
        parameters := parameters[1..];
      }
    } else {
      return None;
    }
    var comment := Find(parameters, '#');
    if comment >= 0 {
      parameters := parameters[..comment];
    }
    parameters := TrimEnd(parameters);
    return Some(parameters);
  }

  method TrimEnd(parameters: string) returns (r: string)
    ensures r == Trimmed(parameters)
  {
    r := parameters;
    var i := |parameters| - 1;
    Split(parameters, |parameters|);
    while i >= 0
      invariant -1 <= i < |parameters|
      invariant r == parameters
      invariant forall k :: i < k < |parameters| ==> IsSpace(parameters[k])
      invariant TrimmedEnd(parameters[..i + 1]) == TrimmedEnd(parameters)
    {
      SplitAt(parameters, i);
      if !IsSpace(parameters[i]) {
        return parameters[..i + 1];
      }
      Rejoined(parameters[..i], [parameters[i]]);
      i := i - 1;
    }
  }

  /** A directive line is its prefix, space, the parameters, and possibly more space and a comment. */
  ghost predicate Shape(line: string, prefix: string, lead: string, parameters: string, trail: string,
                        comment: string) {
    && line == prefix + lead + parameters + trail + comment
    && Blank(lead) && Blank(trail) && '#' !in parameters
    && (comment == "" || comment[0] == '#')
    && parameters != "" && !IsSpace(parameters[0]) && !IsSpace(parameters[|parameters| - 1])
  }

  lemma {:induction false} SkipSpacesIs(lead: string, s: string)
    requires Blank(lead) && (s == "" || !IsSpace(s[0]))
    ensures SkipSpaces(lead + s) == s
  {
    if lead == "" {
      assert lead + s == s;
    } else {
      assert (lead + s)[1..] == lead[1..] + s;
      SkipSpacesIs(lead[1..], s);
    }
  }

  lemma {:induction false} SpacesSkipped(s: string)
    ensures |SkipSpaces(s)| <= |s|
    ensures var n := |s| - |SkipSpaces(s)|; Blank(s[..n]) && s == s[..n] + SkipSpaces(s)
  {
    if s != "" && IsSpace(s[0]) {
      SpacesSkipped(s[1..]);
      var n := |s| - |SkipSpaces(s)|;
      assert s[..n] == [s[0]] + s[1..][..n - 1];
    } else {
      assert s[..0] + s == s;
    }
  }

  lemma {:induction false} TrimmedEndIs(s: string, trail: string)
    requires Blank(trail) && (s == "" || !IsSpace(s[|s| - 1]))
    ensures TrimmedEnd(s + trail) == s
  {
    if trail == "" {
      assert s + trail == s;
    } else {
      assert (s + trail)[..|s + trail| - 1] == s + trail[..|trail| - 1];
      TrimmedEndIs(s, trail[..|trail| - 1]);
    }
  }

  lemma UncommentedIs(s: string, comment: string)
    requires '#' !in s && (comment == "" || comment[0] == '#')
    ensures Uncommented(s + comment) == s
  {
    var p := Find(s + comment, '#');
    if comment == "" {
      assert s + comment == s;
    } else {
      assert (s + comment)[|s|] == '#';
      forall j | 0 <= j < |s|
        ensures (s + comment)[j] != '#'
      {
        assert s[j] in s;
      }
      assert (s + comment)[..|s|] == s;
    }
  }

  /** What is read off a line that starts with the prefix are the parameters of a directive, and vice versa. */
  lemma DirectiveIsRead(line: string, prefix: string, lead: string, parameters: string, trail: string, comment: string)
    requires prefix != "" && Shape(line, prefix, lead, parameters, trail, comment)
    ensures Parameters(line, prefix) == Some(parameters)
  {
    var rest := parameters + trail + comment;
    assert line == prefix + (lead + rest);
    assert line[|prefix|..] == lead + rest;
    assert rest[0] == parameters[0];
    SkipSpacesIs(lead, rest);
    assert '#' !in parameters + trail;
    UncommentedIs(parameters + trail, comment);
    assert !Blank(parameters + trail) by {
      assert (parameters + trail)[0] == parameters[0];
    }
    TrimmedEndIs(parameters, trail);
  }

  lemma ReadIsDirective(line: string, prefix: string) returns (lead: string, trail: string, comment: string)
    requires prefix != ""
    requires Parameters(line, prefix).Some? && Parameters(line, prefix).value != ""
    ensures Shape(line, prefix, lead, Parameters(line, prefix).value, trail, comment)
  {
    hide Find, SkipSpaces, TrimmedEnd, Uncommented, Trimmed;
    var body := line[|prefix|..];
    var s := SkipSpaces(body);
    SpacesSkipped(body);
    Split(line, |prefix|);
    lead := body[..|body| - |s|];
    var parameters;
    parameters, trail, comment := ShapeOfRest(s);
    Assembled(line, prefix, body, lead, s, parameters, trail, comment);
  }

  lemma Assembled(line: string, prefix: string, body: string, lead: string, s: string, parameters: string,
                  trail: string, comment: string)
    requires line == prefix + body && body == lead + s && s == parameters + trail + comment
    ensures line == prefix + lead + parameters + trail + comment
  {
    Reassociate5(prefix, lead, parameters, trail, comment);
  }

  lemma ShapeOfRest(s: string) returns (parameters: string, trail: string, comment: string)
    requires s == "" || !IsSpace(s[0])
    requires Trimmed(Uncommented(s)) != ""
    ensures parameters == Trimmed(Uncommented(s)) && s == parameters + trail + comment
    ensures Blank(trail) && '#' !in parameters && (comment == "" || comment[0] == '#')
    ensures !IsSpace(parameters[0]) && !IsSpace(parameters[|parameters| - 1])
  {
    var u := Uncommented(s);
    comment := s[|u|..];
    Split(s, |u|);
    assert u[0] == s[0] && !Blank(u);
    parameters := TrimmedEnd(u);
    trail := u[|parameters|..];
    Split(u, |parameters|);
  }

  /** Exactly the directives are read. */
  lemma DirectivesExactly(line: string, prefix: string, parameters: string)
    requires prefix != "" && parameters != ""
    ensures Parameters(line, prefix) == Some(parameters)
            <==> exists lead, trail, comment :: Shape(line, prefix, lead, parameters, trail, comment)
  {
    if Parameters(line, prefix) == Some(parameters) {
      var lead, trail, comment := ReadIsDirective(line, prefix);
      assert Shape(line, prefix, lead, parameters, trail, comment);
    }
    forall lead, trail, comment | Shape(line, prefix, lead, parameters, trail, comment)
      ensures Parameters(line, prefix) == Some(parameters)
    {
      DirectiveIsRead(line, prefix, lead, parameters, trail, comment);
    }
  }

  /** A line of a defaults file is its parameters, possibly space and a comment; it is no comment itself, and if its
      parameters are nothing but space, all the space belongs to them. */
  ghost predicate DefaultsShape(line: string, parameters: string, trail: string, comment: string) {
    && line == parameters + trail + comment
    && Blank(trail) && '#' !in parameters
    && (comment == "" || comment[0] == '#')
    && parameters != ""
    && if Blank(parameters) then trail == "" else !IsSpace(parameters[|parameters| - 1])
  }

  lemma DefaultsAreRead(line: string, parameters: string, trail: string, comment: string)
    requires DefaultsShape(line, parameters, trail, comment)
    ensures Parameters(line, "") == Some(parameters)
  {
    var u := parameters + trail;
    assert line[0] == parameters[0];
    assert '#' !in u;
    UncommentedIs(u, comment);
    if Blank(parameters) {
      NothingAdded(parameters);
    } else {
      var i :| 0 <= i < |parameters| && !IsSpace(parameters[i]);
      assert u[i] == parameters[i];
      TrimmedEndIs(parameters, trail);
    }
  }

  lemma ReadHasShape(line: string) returns (trail: string, comment: string)
    requires Parameters(line, "").Some? && Parameters(line, "").value != ""
    ensures DefaultsShape(line, Parameters(line, "").value, trail, comment)
  {
    hide SkipSpaces;
    var parameters, u := Parameters(line, "").value, Uncommented(line);
    comment := line[|u|..];
    Split(line, |u|);
    assert '#' !in u;
    trail := u[|parameters|..];
    Split(u, |parameters|);
  }

  /** Exactly the parameters of a line of a defaults file are read. */
  lemma DefaultsExactly(line: string, parameters: string)
    requires parameters != ""
    ensures Parameters(line, "") == Some(parameters)
            <==> exists trail, comment :: DefaultsShape(line, parameters, trail, comment)
  {
    if Parameters(line, "") == Some(parameters) {
      var trail, comment := ReadHasShape(line);
      assert DefaultsShape(line, parameters, trail, comment);
    }
    forall trail, comment | DefaultsShape(line, parameters, trail, comment)
      ensures Parameters(line, "") == Some(parameters)
    {
      DefaultsAreRead(line, parameters, trail, comment);
    }
  }

  // ----- the directive loop -----

  datatype Note = Opening | ReadingFile | ReadingInput | NoInput | FromParser(text: string, error: bool)

  /** The command line parser: the options it finds among the words of a line, and its remarks, which also depend
      on the options found before. */
  datatype Parser = Parser(found: string -> seq<Opt>, remarks: (seq<Opt>, string) -> seq<Note>)

  /** Found: all lines were read. Refused: the parser found an error.
      NoWords: a line has parameters but no word among them, for which the table of words is null. */
  datatype Reading = Found(opts: seq<Opt>, notes: seq<Note>) | Refused(notes: seq<Note>) | NoWords

  /** Nothing but characters that separate words. */
  predicate Wordless(s: string) {
    forall i :: 0 <= i < |s| ==> s[i] in {' ', '\t', '\n'}
  }

  predicate AnyError(notes: seq<Note>) {
    exists i :: 0 <= i < |notes| && notes[i].FromParser? && notes[i].error
  }

  function Read(lines: seq<string>, prefix: string, opts: seq<Opt>, notes: seq<Note>, parser: Parser): Reading {
    if lines == [] then Found(opts, notes)
    else
      var parameters := Parameters(lines[0], prefix);
      if parameters == None || parameters.value == "" then Read(lines[1..], prefix, opts, notes, parser)
      else if Wordless(parameters.value) then NoWords
      else
        var notes' := notes + parser.remarks(opts, parameters.value);
        if AnyError(parser.remarks(opts, parameters.value)) then Refused(notes')
        else Read(lines[1..], prefix, Drop(opts + parser.found(parameters.value), {C_OPT}), notes', parser)
  }

  /** Walks through the text line by line; left is the length of what remains. */
  method ReadDirectives(text: string, prefix: string, parser: Parser) returns (r: Reading)
    ensures r == Read(Lines(text), prefix, [], [], parser)
  {
    hide Parameters, Lines;
    var opts: seq<Opt>, notes: seq<Note> := [], [];
    var s, left := 0, |text|;
    assert text[0..] == text;
    while s < |text|
      invariant 0 <= s <= |text| && left == |text| - s
      invariant Read(Lines(text[s..]), prefix, opts, notes, parser) == Read(Lines(text), prefix, [], [], parser)
    {
      LinesOf(text, s);
      var newline := Find(text[s..], '\n');
      var line, length := text[s..], left;
      if newline != -1 {
        line, length := text[s..s + newline], newline + 1;
      }
      s := s + length;
      left := left - length;
      var parameters := StripLine(line, prefix);
      if parameters != None && parameters.value != "" {
        if Wordless(parameters.value) {
          return NoWords;
        }
        var remarks := parser.remarks(opts, parameters.value);
        notes := notes + remarks;
        if AnyError(remarks) {
          return Refused(notes);
        }
        var options := new Options(opts + parser.found(parameters.value));
        var skipped := options.DrainOne(C_OPT, (), Skip);
        opts := options.opts;
        assert options.gone == {C_OPT};
      }
    }
    NoLines(text, s);
    return Found(opts, notes);
  }

  lemma FirstLine(t: string)
    requires t != ""
    ensures var p := Find(t, '\n');
            if p < 0 then Lines(t) == [t] && Lines(t)[1..] == Lines("")
            else Lines(t) == [t[..p]] + Lines(t[p + 1..]) && Lines(t)[1..] == Lines(t[p + 1..])
  {
  }

  lemma LinesOf(text: string, s: nat)
    requires s < |text|
    ensures var p := Find(text[s..], '\n');
            var lines := Lines(text[s..]);
            if p < 0 then lines == [text[s..]] && lines[1..] == Lines(text[|text|..])
            else lines == [text[s..s + p]] + Lines(text[s + p + 1..]) && lines[1..] == Lines(text[s + p + 1..])
  {
    hide Lines;
    var p := Find(text[s..], '\n');
    FirstLine(text[s..]);
    if p >= 0 {
      SliceOfSlice(text, s, p);
      SliceOfSlice(text, s, p + 1);
    } else {
      assert text[|text|..] == "";
    }
  }

  lemma NoLines(text: string, s: nat)
    requires s == |text|
    ensures Lines(text[s..]) == []
  {
  }

  /** What the parser gets to see, line by line. */
  function Directives(lines: seq<string>, prefix: string): seq<string> {
    if lines == [] then []
    else
      var parameters := Parameters(lines[0], prefix);
      (if parameters == None || parameters.value == "" then [] else [parameters.value]) + Directives(lines[1..], prefix)
  }

  function FoundIn(ds: seq<string>, parser: Parser): seq<Opt> {
    if ds == [] then [] else parser.found(ds[0]) + FoundIn(ds[1..], parser)
  }

  /** If all lines are read, the options are those found in the directives, in order, without any -C. */
  lemma {:induction false} ReadIsConcatenation(lines: seq<string>, prefix: string, opts: seq<Opt>, notes: seq<Note>,
                                               parser: Parser)
    requires Drop(opts, {C_OPT}) == opts
    requires Read(lines, prefix, opts, notes, parser).Found?
    ensures Read(lines, prefix, opts, notes, parser).opts
            == Drop(opts + FoundIn(Directives(lines, prefix), parser), {C_OPT})
  {
    hide Parameters, Drop;
    if lines == [] {
      assert opts + [] == opts;
    } else {
      var parameters := Parameters(lines[0], prefix);
      var rest := Directives(lines[1..], prefix);
      if parameters == None || parameters.value == "" {
        assert [] + rest == rest;
        ReadIsConcatenation(lines[1..], prefix, opts, notes, parser);
      } else {
        var found := parser.found(parameters.value);
        var more := Drop(opts + found, {C_OPT});
        DropOfDrop(opts + found, {C_OPT}, {C_OPT});
        assert {C_OPT} + {C_OPT} == {C_OPT};
        ReadIsConcatenation(lines[1..], prefix, more, notes + parser.remarks(opts, parameters.value), parser);
        assert ([parameters.value] + rest)[1..] == rest;
        DropTwice(opts + found, FoundIn(rest, parser));
        assert opts + found + FoundIn(rest, parser) == opts + (found + FoundIn(rest, parser));
      }
    }
  }

  lemma DropTwice(a: seq<Opt>, b: seq<Opt>)
    ensures Drop(Drop(a, {C_OPT}) + b, {C_OPT}) == Drop(a + b, {C_OPT})
  {
    DropConcat(Drop(a, {C_OPT}), b, {C_OPT});
    DropConcat(a, b, {C_OPT});
    DropOfDrop(a, {C_OPT}, {C_OPT});
    assert {C_OPT} + {C_OPT} == {C_OPT};
  }

  /** The lines before line i are all read, and line i has only blanks in front of its comment or end. */
  ghost predicate BlanksAt(lines: seq<string>, prefix: string, opts: seq<Opt>, notes: seq<Note>, parser: Parser,
                           i: nat)
  {
    i < |lines| && OnlyBlanks(lines[i]) && Read(lines[..i], prefix, opts, notes, parser).Found?
  }

  /** Reading meets a directive without words exactly in a defaults file, at a line that has only blanks, at least one,
      in front of its first '#' or its end, all lines before it being read without an error. */
  lemma {:induction false} WordlessLines(lines: seq<string>, prefix: string, opts: seq<Opt>, notes: seq<Note>,
                                         parser: Parser)
    requires forall line :: line in lines ==> '\n' !in line
    ensures Read(lines, prefix, opts, notes, parser).NoWords?
            <==> prefix == "" && exists i: nat :: BlanksAt(lines, prefix, opts, notes, parser, i)
  {
    hide Parameters, OnlyBlanks, Wordless;
    if lines != [] {
      OneWordless(lines[0], prefix);
      var rest := lines[1..];
      var parameters := Parameters(lines[0], prefix);
      if parameters == None || parameters.value == "" {
        WordlessLines(rest, prefix, opts, notes, parser);
        BlanksLater(lines, prefix, opts, notes, parser, opts, notes);
      } else if Wordless(parameters.value) {
        assert Read(lines[..0], prefix, opts, notes, parser).Found?;
        assert BlanksAt(lines, prefix, opts, notes, parser, 0);
      } else {
        var remarks := parser.remarks(opts, parameters.value);
        if AnyError(remarks) {
          forall i: nat | BlanksAt(lines, prefix, opts, notes, parser, i)
            ensures i == 0
          {
          }
        } else {
          var more, notes' := Drop(opts + parser.found(parameters.value), {C_OPT}), notes + remarks;
          WordlessLines(rest, prefix, more, notes', parser);
          BlanksLater(lines, prefix, opts, notes, parser, more, notes');
        }
      }
    }
  }

  /** If reading goes on behind the first line, blanks are met there or nowhere, or at the first line itself. */
  lemma BlanksLater(lines: seq<string>, prefix: string, opts: seq<Opt>, notes: seq<Note>, parser: Parser,
                    more: seq<Opt>, notes': seq<Note>)
    requires lines != []
    requires forall tail ::
               Read([lines[0]] + tail, prefix, opts, notes, parser) == Read(tail, prefix, more, notes', parser)
    ensures (exists i: nat :: BlanksAt(lines, prefix, opts, notes, parser, i))
            <==> OnlyBlanks(lines[0]) || exists i: nat :: BlanksAt(lines[1..], prefix, more, notes', parser, i)
  {
    var rest := lines[1..];
    assert lines == [lines[0]] + rest;
    forall i: nat | i < |rest|
      ensures BlanksAt(lines, prefix, opts, notes, parser, i + 1) <==> BlanksAt(rest, prefix, more, notes', parser, i)
    {
      assert lines[..i + 1] == [lines[0]] + rest[..i];
    }
    if i: nat :| BlanksAt(lines, prefix, opts, notes, parser, i) {
      if i > 0 {
        assert BlanksAt(rest, prefix, more, notes', parser, i - 1);
      }
    }
    if i: nat :| BlanksAt(rest, prefix, more, notes', parser, i) {
      assert BlanksAt(lines, prefix, opts, notes, parser, i + 1);
    }
    if OnlyBlanks(lines[0]) {
      assert BlanksAt(lines, prefix, opts, notes, parser, 0);
    }
  }

  /** The same for the lines of a text, whatever the text and the parser. */
  lemma NoWordsExactly(text: string, prefix: string, parser: Parser)
    ensures Read(Lines(text), prefix, [], [], parser).NoWords?
            <==> prefix == "" && exists i: nat :: BlanksAt(Lines(text), prefix, [], [], parser, i)
  {
    WordlessLines(Lines(text), prefix, [], [], parser);
  }

  /** A defaults file that starts with a line of one blank. */
  lemma BlankLineHasNoWords(parser: Parser)
    ensures Read(Lines(" \n"), "", [], [], parser).NoWords?
  {
    FirstLine(" \n");
    assert Find(" \n", '\n') == 1;
    assert " \n"[..1] == " " && " \n"[2..] == "";
    assert Lines(" \n") == [" "];
    assert OnlyBlanks(" ");
    assert Read([" "][..0], "", [], [], parser).Found?;
    assert BlanksAt([" "], "", [], [], parser, 0);
    WordlessLines([" "], "", [], [], parser);
  }

  /** Spaces and tabs, at least one, and then nothing or a comment. */
  predicate OnlyBlanks(line: string) {
    var u := Uncommented(line);
    u != "" && forall i :: 0 <= i < |u| ==> u[i] == ' ' || u[i] == '\t'
  }

  lemma OneWordless(line: string, prefix: string)
    requires '\n' !in line
    ensures (var p := Parameters(line, prefix); p.Some? && p.value != "" && Wordless(p.value))
            <==> prefix == "" && OnlyBlanks(line)
  {
    if prefix == "" {
      var u := Uncommented(line);
      if u != "" && Blank(u) {
        assert forall i :: 0 <= i < |u| ==> u[i] == line[i] && line[i] in line;
      }
      if !Blank(u) {
        assert !Wordless(Trimmed(u)) by { TrimmedHasWord(u); }
        assert !OnlyBlanks(line);
      }
    } else if prefix <= line {
      var s := SkipSpaces(line[|prefix|..]);
      var u := Uncommented(s);
      if u != "" {
        assert !IsSpace(u[0]);
        TrimmedHasWord(u);
      }
    }
  }

  lemma TrimmedHasWord(s: string)
    requires !Blank(s)
    ensures !Wordless(Trimmed(s))
  {
    var r := TrimmedEnd(s);
    NothingAdded(s);
    assert r != "";
    assert !IsSpace(r[|r| - 1]);
  }

  // ----- parsing a file, and the priority of its options -----

  datatype Flag = LOWER_PRIOR | USE_NO_PSEUDOS | DONT_ADD_SCRIPT | IGNORE_EMBEDED_OPTS | IGN_NO_FILE

  /** What the file system has to say of the script, or of the standard input if there is none. */
  datatype Source = Source(isFile: bool, opens: bool, content: Option<string>)

  /** A content as a C string. */
  function CString(content: string): string {
    if Find(content, '\0') < 0 then content else content[..Find(content, '\0')]
  }

  predicate FromInput(name: Option<string>) {
    name == None || name.value == "-"
  }

  /** What getting hold of the script says, if it fails. */
  function Unavailable(name: Option<string>, source: Source): Option<Note> {
    if FromInput(name) then
      if source.content == None then Some(ReadingInput)
      else if CString(source.content.value) == "" then Some(NoInput)
      else None
    else if !source.opens then Some(Opening)
    else if source.content == None then Some(ReadingFile)
    else None
  }

  /** The pseudo-arguments made of the script. */
  function PseudoArgs(name: Option<string>, content: Option<string>, flags: set<Flag>, options: seq<Opt>): seq<Opt> {
    var size := if content == None then 0 else U32(|content.value|);
    var text := if content == None then None else Some(CString(content.value));
    if USE_NO_PSEUDOS in flags then []
    else
      (if DONT_ADD_SCRIPT in flags || Of(options, Script) != [] then []
       else [Pseudo(Script, 0, Some(if FromInput(name) then "STDIN" else name.value))])
      + [Pseudo(ScriptLen, size, None), Pseudo(ScriptPtr, 0, text)]
  }

  function Pseudo(sw: Switch, u: u32, s: Option<string>): Opt {
    Opt(sw, OtherArg, 0, {}, 0, u, s, None, None)
  }

  /** The pseudo-arguments name the script, unless they shall not or there is a name, and give its length and its text;
      the input is named STDIN. */
  lemma PseudoArgsExactly(name: Option<string>, content: Option<string>, flags: set<Flag>, options: seq<Opt>)
    ensures var p := PseudoArgs(name, content, flags, options);
            if USE_NO_PSEUDOS in flags then p == []
            else
              var n := |p|;
              && n == (if DONT_ADD_SCRIPT in flags || (exists e :: e in options && e.sw == Script) then 2 else 3)
              && p[n - 2].sw == ScriptLen && p[n - 1].sw == ScriptPtr
              && p[n - 2].u == (if content == None then 0 else |content.value| % 0x1_0000_0000)
              && (content == None ==> p[n - 1].s == None)
              && (content != None ==>
                    && p[n - 1].s != None && p[n - 1].s.value <= content.value && '\0' !in p[n - 1].s.value
                    && (p[n - 1].s.value == content.value || content.value[|p[n - 1].s.value|] == '\0'))
              && (n == 3 ==>
                    && p[0].sw == Script
                    && p[0].s == if name == None || name.value == "-" then Some("STDIN") else name)
  {
    hide Of;
    OfExists(options, Script);
    if content != None {
      CStringIs(content.value);
    }
  }

  lemma {:induction false} OfExists(es: seq<Opt>, sw: Switch)
    ensures Of(es, sw) != [] <==> exists e :: e in es && e.sw == sw
  {
    if es != [] {
      OfExists(es[1..], sw);
      assert es == [es[0]] + es[1..];
    }
  }

  lemma CStringIs(content: string)
    ensures var s := CString(content);
            s <= content && '\0' !in s && (s == content || content[|s|] == '\0')
  {
    hide Find;
    var p := Find(content, '\0');
    if p < 0 {
      assert forall c :: c in content ==> exists i :: 0 <= i < |content| && content[i] == c;
    } else {
      assert forall c :: c in content[..p] ==> exists i :: 0 <= i < p && content[i] == c;
    }
  }

  /** Which complaint there is about a script: about the input, that it cannot be read or has nothing before its end or
      a zero; about a file, that it cannot be opened or read. */
  lemma UnavailableExactly(name: Option<string>, source: Source)
    ensures var r, input := Unavailable(name, source), name == None || name.value == "-";
            && (r == Some(ReadingInput) <==> input && source.content == None)
            && (r == Some(NoInput)
                <==> input && source.content != None
                     && (source.content.value == "" || source.content.value[0] == '\0'))
            && (r == Some(Opening) <==> !input && !source.opens)
            && (r == Some(ReadingFile) <==> !input && source.opens && source.content == None)
            && (r == None || r.value in {ReadingInput, NoInput, Opening, ReadingFile})
  {
    hide Find;
    if source.content != None {
      CStringIs(source.content.value);
    }
  }

  /** What the embedded options read as. */
  function Embedded(source: Source, prefix: Option<string>, flags: set<Flag>, parser: Parser): Reading {
    if IGNORE_EMBEDED_OPTS in flags || prefix == None || source.content == None then Found([], [])
    else Read(Lines(CString(source.content.value)), prefix.value, [], [], parser)
  }

  /** Options are read from the content up to its first zero, and only if there are a content and a prefix and they are
      not to be ignored. */
  lemma EmbeddedExactly(source: Source, prefix: Option<string>, flags: set<Flag>, parser: Parser, text: string)
    requires source.content != None ==>
               && text <= source.content.value && '\0' !in text
               && (text == source.content.value || source.content.value[|text|] == '\0')
    ensures Embedded(source, prefix, flags, parser)
            == if IGNORE_EMBEDED_OPTS !in flags && prefix != None && source.content != None
               then Read(Lines(text), prefix.value, [], [], parser) else Found([], [])
  {
    hide Find, Read, Lines;
    if source.content != None {
      CStringIs(source.content.value);
      SameCString(source.content.value, text, CString(source.content.value));
    }
  }

  lemma SameCString(content: string, a: string, b: string)
    requires a <= content && '\0' !in a && (a == content || content[|a|] == '\0')
    requires b <= content && '\0' !in b && (b == content || content[|b|] == '\0')
    ensures a == b
  {
    assert forall k :: 0 <= k < |a| ==> a[k] == content[k] && a[k] in a;
    assert forall k :: 0 <= k < |b| ==> b[k] == content[k] && b[k] in b;
  }

  class CommandLine {
    var options: seq<Opt>

    /** Adds the options of a file to those of the command line, in front of them if they have lower priority. */
    method ParseScriptFile(name: Option<string>, source: Source, prefix: Option<string>, flags: set<Flag>,
                           parser: Parser) returns (r: Reading)
      modifies this
      ensures IGN_NO_FILE in flags && !source.isFile ==> r == Found([], []) && options == old(options)
      ensures !(IGN_NO_FILE in flags && !source.isFile) ==>
                if IGNORE_EMBEDED_OPTS !in flags && Unavailable(name, source).Some? then
                  r == Refused([Unavailable(name, source).value]) && options == old(options)
                else
                  r == Embedded(source, prefix, flags, parser)
                  && options ==
                     if !r.Found? then old(options)
                     else
                       var content := if IGNORE_EMBEDED_OPTS in flags then None else source.content;
                       var added := r.opts + PseudoArgs(name, content, flags, old(options));
                       if LOWER_PRIOR in flags then added + old(options) else old(options) + added
    {
      hide Read, Lines, Of;
      if IGN_NO_FILE in flags && !source.isFile {
        return Found([], []);
      }
      var content: Option<string> := None;
      r := Found([], []);
      if IGNORE_EMBEDED_OPTS !in flags {
        if FromInput(name) {
          if source.content == None {
            return Refused([ReadingInput]);
          } else if CString(source.content.value) == "" {
            return Refused([NoInput]);
          }
        } else if !source.opens {
          return Refused([Opening]);
        } else if source.content == None {
          return Refused([ReadingFile]);
        }
        content := source.content;
        if prefix != None {
          r := ReadDirectives(CString(content.value), prefix.value, parser);
          if !r.Found? {
            return;
          }
        }
      }
      var opts := r.opts + PseudoArgs(name, content, flags, options);
      if LOWER_PRIOR in flags {
        options := opts + options;
      } else {
        options := options + opts;
      }
    }
  }

  /** What of the first list the handlers after -clear still see behind a second one. */
  function Visible(first: seq<Opt>, second: seq<Opt>): seq<Opt> {
    if LastClear(second) < 0 then TailAfterClear(first) else []
  }

  lemma ClearOfBoth(first: seq<Opt>, second: seq<Opt>)
    ensures LastClear(first + second)
            == if LastClear(second) >= 0 then |first| + LastClear(second) else LastClear(first)
  {
    hide LastClear;
    var c := first + second;
    var q := if LastClear(second) >= 0 then |first| + LastClear(second) else LastClear(first);
    forall j | q < j < |c|
      ensures c[j].sw != clear_OPT
    {
      assert c[j] == if j < |first| then first[j] else second[j - |first|];
    }
    LastClearIs(c, q);
  }

  lemma TailBehind(first: seq<Opt>, second: seq<Opt>)
    requires LastClear(second) >= 0
    ensures TailAfterClear(first + second) == TailAfterClear(second)
  {
    hide LastClear;
    ClearOfBoth(first, second);
    var k: nat := LastClear(second) + 1;
    assert LastClear(first + second) + 1 == |first| + k;
    DropPast(first, second, k);
  }

  lemma TailAcross(first: seq<Opt>, second: seq<Opt>)
    requires LastClear(second) < 0
    ensures TailAfterClear(first + second) == TailAfterClear(first) + second
    ensures TailAfterClear(second) == second
  {
    hide LastClear;
    ClearOfBoth(first, second);
    DropWithin(first, second, LastClear(first) + 1);
    NothingAdded(second);
  }

  lemma TailOfBoth(first: seq<Opt>, second: seq<Opt>)
    ensures TailAfterClear(first + second) == Visible(first, second) + TailAfterClear(second)
  {
    hide LastClear, TailAfterClear;
    if LastClear(second) >= 0 {
      TailBehind(first, second);
      NothingAdded(TailAfterClear(second));
    } else {
      TailAcross(first, second);
    }
  }

  /** Priority: of the options of a file put in front of those of the command line, an overwriting switch uses the
      command line's last one, else the file's last one, else the value before; a -clear on the command line makes it
      ignore the file. With the roles exchanged this is the priority of a file put behind. */
  lemma SecondListWins<T>(first: seq<Opt>, second: seq<Opt>, sw: Switch, read: Opt -> T, v: T)
    requires sw !in EARLY && sw != clear_OPT && Dashed(sw)
    ensures LastOr(read, v, Of(AfterClear(EarlyRest(first + second)), sw)) ==
            if Of(TailAfterClear(second), sw) != [] then LastOr(read, v, Of(TailAfterClear(second), sw))
            else if Of(second, clear_OPT) != [] then v
            else LastOr(read, v, Of(TailAfterClear(first), sw))
  {
    hide Pick, LastClear, TailAfterClear, AfterClear, EarlyRest;
    SeenByHandlers(first + second, sw);
    TailOfBoth(first, second);
    PickConcat(Visible(first, second), TailAfterClear(second), {sw});
    NoClearIff(second);
    NothingToPick([], {sw});
  }

  /** The switches handled before -clear see both lists whole, and use the second list's last option. */
  lemma EarlySwitchesSeeBoth<T>(first: seq<Opt>, second: seq<Opt>, sw: Switch, read: Opt -> T, v: T)
    ensures LastOr(read, v, Of(first + second, sw)) ==
            if Of(second, sw) != [] then LastOr(read, v, Of(second, sw)) else LastOr(read, v, Of(first, sw))
  {
    PickConcat(first, second, {sw});
  }
}
