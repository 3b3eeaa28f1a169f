/** Reading the options embedded in a file with the command line tokenizer. */
module EmbeddedOptions {
  import opened Optional
  import opened OptionList
  import opened ScriptFile
  import opened Seqs
  import opened Tokenizer

  /** The options that a command line of these arguments appends. */
  function OptionsOn(c: Call, args: seq<string>): seq<Opt> {
    var bs := Blocks(c, args, 0);
    OptsOf(bs) + if FaultOf(c, args, 0) == None then DefaultHold(c, HoldGiven(c, bs)) else []
  }

  /** A fault is an error, and there are no other remarks. */
  function RemarksOn(c: Call, args: seq<string>): seq<Note> {
    var fault := FaultOf(c, args, 0);
    if fault == None then [] else [FromParser(fault.value.arg, true)]
  }

  /** Directive lines are split into words, which are read without pseudo-arguments and not as for qalter. */
  function LineParser(program: Program, parsers: Parsers, words: string -> seq<string>): Parser {
    var c := Call(program, false, false, parsers);
    Parser((line: string) => OptionsOn(c, words(line)), (opts: seq<Opt>, line: string) => RemarksOn(c, words(line)))
  }

  /** What the tokenizer's loop appends for a directive line is what the line parser finds. */
  method ParseDirective(program: Program, parsers: Parsers, words: string -> seq<string>, line: string,
                        before: seq<Opt>)
    returns (options: seq<Opt>, remarks: seq<Note>)
    ensures var p := LineParser(program, parsers, words);
            options == before + p.found(line) && remarks == p.remarks(before, line)
  {
    var c := Call(program, false, false, parsers);
    var fault;
    options, fault := ParseCommandLine(c, words(line), before);
    remarks := if fault == None then [] else [FromParser(fault.value.arg, true)];
    Reassociate(before, OptsOf(Blocks(c, words(line), 0)),
                if fault == None then DefaultHold(c, HoldGiven(c, Blocks(c, words(line), 0))) else []);
  }

  /** The directive has words, and the tokenizer finds no fault in them. */
  predicate Readable(c: Call, words: string -> seq<string>, directive: string) {
    !Wordless(directive) && FaultOf(c, words(directive), 0) == None
  }

  /** A file is read to its end exactly if every directive in it has words without a fault. */
  lemma {:induction false} ReadToEnd(lines: seq<string>, prefix: string, opts: seq<Opt>, notes: seq<Note>,
                                     program: Program, parsers: Parsers, words: string -> seq<string>)
    ensures Read(lines, prefix, opts, notes, LineParser(program, parsers, words)).Found?
            <==> forall d :: d in Directives(lines, prefix) ==>
                   Readable(Call(program, false, false, parsers), words, d)
    decreases lines
  {
    hide Parameters, FaultOf, Wordless, OptionsOn;
    if lines != [] {
      var parser, c := LineParser(program, parsers, words), Call(program, false, false, parsers);
      var parameters := Parameters(lines[0], prefix);
      if parameters == None || parameters.value == "" {
        ReadToEnd(lines[1..], prefix, opts, notes, program, parsers, words);
      } else {
        var d := parameters.value;
        assert Directives(lines, prefix) == [d] + Directives(lines[1..], prefix);
        RemarksAreErrors(c, words(d));
        assert parser.remarks(opts, d) == RemarksOn(c, words(d));
        if Readable(c, words, d) {
          ReadToEnd(lines[1..], prefix, Drop(opts + parser.found(d), {C_OPT}), notes + parser.remarks(opts, d),
                    program, parsers, words);
        } else {
          assert d in Directives(lines, prefix);
        }
      }
    }
  }

  /** Directive number i is the first that is not readable. */
  ghost predicate FirstUnreadable(c: Call, words: string -> seq<string>, ds: seq<string>, i: nat) {
    i < |ds| && !Readable(c, words, ds[i]) && forall j :: 0 <= j < i ==> Readable(c, words, ds[j])
  }

  lemma OneReadableMore(c: Call, words: string -> seq<string>, d: string, ds: seq<string>, i: nat)
    requires Readable(c, words, d) && FirstUnreadable(c, words, ds, i)
    ensures FirstUnreadable(c, words, [d] + ds, i + 1) && ([d] + ds)[i + 1] == ds[i]
  {
    hide Readable;
    forall j | 0 <= j < i + 1
      ensures Readable(c, words, ([d] + ds)[j])
    {
      assert ([d] + ds)[j] == if j == 0 then d else ds[j - 1];
    }
  }

  /** A file is refused for its first directive that is not readable, if that has words, and their fault is all that is
      remarked. */
  lemma {:induction false} RefusedExactly(lines: seq<string>, prefix: string, opts: seq<Opt>, notes: seq<Note>,
                                          program: Program, parsers: Parsers, words: string -> seq<string>)
    returns (i: nat)
    requires Read(lines, prefix, opts, notes, LineParser(program, parsers, words)).Refused?
    ensures var c := Call(program, false, false, parsers);
            var ds := Directives(lines, prefix);
            && FirstUnreadable(c, words, ds, i) && !Wordless(ds[i])
            && FaultOf(c, words(ds[i]), 0) != None
            && Read(lines, prefix, opts, notes, LineParser(program, parsers, words)).notes
               == notes + [FromParser(FaultOf(c, words(ds[i]), 0).value.arg, true)]
    decreases lines
  {
    hide Parameters, FaultOf, Wordless, OptionsOn, FirstUnreadable;
    var parser, c := LineParser(program, parsers, words), Call(program, false, false, parsers);
    var rest := Directives(lines[1..], prefix);
    var parameters := Parameters(lines[0], prefix);
    if parameters == None || parameters.value == "" {
      NothingAdded(rest);
      i := RefusedExactly(lines[1..], prefix, opts, notes, program, parsers, words);
    } else {
      var d := parameters.value;
      RemarksAreErrors(c, words(d));
      assert parser.remarks(opts, d) == RemarksOn(c, words(d));
      if Readable(c, words, d) {
        NothingAdded(notes);
        i := RefusedExactly(lines[1..], prefix, Drop(opts + parser.found(d), {C_OPT}), notes, program, parsers, words);
        OneReadableMore(c, words, d, rest, i);
        i := i + 1;
      } else {
        i := 0;
        FirstIsUnreadable(c, words, d, rest);
      }
    }
  }

  lemma FirstIsUnreadable(c: Call, words: string -> seq<string>, d: string, ds: seq<string>)
    requires !Readable(c, words, d)
    ensures FirstUnreadable(c, words, [d] + ds, 0) && ([d] + ds)[0] == d
  {
    hide Readable;
  }

  lemma RemarksAreErrors(c: Call, args: seq<string>)
    ensures AnyError(RemarksOn(c, args)) <==> FaultOf(c, args, 0) != None
  {
    if FaultOf(c, args, 0) != None {
      assert RemarksOn(c, args)[0].error;
    }
  }

  /** The options of each directive, one behind the other. */
  function OptionsOfAll(c: Call, words: string -> seq<string>, ds: seq<string>): seq<Opt> {
    if ds == [] then [] else OptionsOn(c, words(ds[0])) + OptionsOfAll(c, words, ds[1..])
  }

  lemma {:induction false} FoundByTokenizer(ds: seq<string>, program: Program, parsers: Parsers,
                                            words: string -> seq<string>)
    ensures FoundIn(ds, LineParser(program, parsers, words))
            == OptionsOfAll(Call(program, false, false, parsers), words, ds)
  {
    if ds != [] {
      FoundByTokenizer(ds[1..], program, parsers, words);
    }
  }

  /** A text all of whose directives have words without a fault yields what the tokenizer makes of each, in order,
      without any -C. */
  lemma TextIsTokenized(text: string, prefix: string, program: Program, parsers: Parsers, words: string -> seq<string>)
    ensures var c := Call(program, false, false, parsers);
            var ds := Directives(Lines(text), prefix);
            var r := Read(Lines(text), prefix, [], [], LineParser(program, parsers, words));
            && (r.Found? <==> forall d :: d in ds ==> Readable(c, words, d))
            && (r.Found? ==> r.opts == Drop(OptionsOfAll(c, words, ds), {C_OPT}))
  {
    hide Read, Lines, Directives, FoundIn, OptionsOfAll, LineParser, Readable;
    var parser := LineParser(program, parsers, words);
    var lines := Lines(text);
    ReadToEnd(lines, prefix, [], [], program, parsers, words);
    if Read(lines, prefix, [], [], parser).Found? {
      assert Drop([], {C_OPT}) == [];
      ReadIsConcatenation(lines, prefix, [], [], parser);
      FoundByTokenizer(Directives(lines, prefix), program, parsers, words);
      NothingAdded(FoundIn(Directives(lines, prefix), parser));
    }
  }
}
