/** From the command line to the job: what the tokenizer makes of the arguments, handed to the job parser. */
module Submission {
  import opened EmbeddedOptions
  import opened JobDefinitions
  import opened JobMeaning
  import opened JobParser
  import opened JobTheorems
  import opened Optional
  import opened OptionList
  import opened Seqs
  import opened Switches
  import opened Tokenizer

  // ----- the switches of a block -----

  predicate StartsWith(b: Block, t: string) {
    b.args != [] && b.args[0] == t
  }

  /** Does a block start with the string of the switch? */
  predicate Starts(b: Block, sw: Switch) {
    b.args != [] && Spells(sw, b.args[0])
  }

  lemma StepSwitch(c: Call, kind: Kind, args: seq<string>, register: int, e: Opt)
    requires args != [] && kind != File && StepOf(c, kind, args, register).Took?
    requires e in StepOf(c, kind, args, register).opts
    ensures if SwitchOf(kind) != None then Some(e.sw) == SwitchOf(kind)
            else e.sw in {Script, JobArg, Other("--"), Other(""), Other("jobid")}
    ensures kind != Unknown
  {
    match kind
    case Separator => if c.pseudos { JobArgSwitch(args[1..], e); }
    case Plain => if c.pseudos && !c.qalter { JobArgSwitch(args[1..], e); }
    case _ =>
  }

  lemma JobArgSwitch(args: seq<string>, e: Opt)
    ensures e in JobArgs(args) ==> e.sw == JobArg
  {
  }

  /** No option of the command line comes from a file of options. */
  predicate NoFiles(bs: seq<Block>) {
    forall i :: 0 <= i < |bs| ==> !StartsWith(bs[i], "-@")
  }

  lemma BlockSwitch(c: Call, args: seq<string>, i: nat, e: Opt)
    requires i < |Blocks(c, args, 0)| && !StartsWith(Blocks(c, args, 0)[i], "-@")
    requires e in Blocks(c, args, 0)[i].opts
    ensures var b := Blocks(c, args, 0)[i];
            && b.args != [] && KindOf(c.qalter, b.args[0]) != Unknown
            && var sw := SwitchOf(KindOf(c.qalter, b.args[0]));
               if sw != None then Some(e.sw) == sw
               else e.sw in {Script, JobArg, Other("--"), Other(""), Other("jobid")}
  {
    hide KindOf, StepOf, Blocks, SwitchOf;
    BlockIsStep(c, args, 0, i);
    var rest := Remaining(c, args, 0, i);
    KindIsSpelled(c.qalter, rest[0]);
    StepSwitch(c, KindOf(c.qalter, rest[0]), rest, Register(c, Blocks(c, args, 0)[..i], 0), e);
  }

  // ----- no known switch in disguise -----

  /** The tokenizer never makes an unknown switch of one that the job parser knows. */
  lemma SwitchesAreGenuine(c: Call, args: seq<string>, i: nat, e: Opt)
    requires i < |Blocks(c, args, 0)| && !StartsWith(Blocks(c, args, 0)[i], "-@")
    requires e in Blocks(c, args, 0)[i].opts
    ensures Genuine(e.sw)
  {
    hide KindOf, Blocks, OtherName, NameOf, Dashed, TakenAs;
    BlockSwitch(c, args, i, e);
    SwitchIsSpelled(c.qalter, Blocks(c, args, 0)[i].args[0]);
    if e.sw.Other? {
      OthersAreNamed(e.sw);
      PlainNames();
      forall known: Switch | !known.Other?
        ensures NameOf(known) != e.sw.name
      {
        NotKnown(known, e.sw.name);
      }
    }
  }

  lemma OthersAreNamed(sw: Switch)
    requires sw.Other?
    ensures NameOf(sw) == sw.name
  {
  }

  lemma PlainNames()
    ensures OtherName("--") && OtherName("") && OtherName("jobid")
  {
  }

  // ----- the options of a switch, block by block -----

  /** A block has options of a known switch exactly if it starts with its string. */
  lemma SwitchOfBlock(c: Call, args: seq<string>, i: nat, sw: Switch, e: Opt)
    requires i < |Blocks(c, args, 0)| && !StartsWith(Blocks(c, args, 0)[i], "-@")
    requires e in Blocks(c, args, 0)[i].opts && !sw.Other? && Dashed(sw)
    ensures e.sw == sw <==> Starts(Blocks(c, args, 0)[i], sw)
  {
    hide KindOf, Blocks, NameOf, SwitchOf, Spells;
    BlockSwitch(c, args, i, e);
    KindTells(c.qalter, Blocks(c, args, 0)[i].args[0], sw);
  }

  lemma {:induction false} OfUniform(es: seq<Opt>, sw: Switch, all: bool)
    requires forall e :: e in es ==> (e.sw == sw) == all
    ensures Of(es, sw) == if all then es else []
  {
    if es != [] {
      assert es == [es[0]] + es[1..];
      OfUniform(es[1..], sw, all);
    }
  }

  lemma OfConcat(a: seq<Opt>, b: seq<Opt>, sw: Switch)
    ensures Of(a + b, sw) == Of(a, sw) + Of(b, sw)
  {
    PickConcat(a, b, {sw});
  }

  lemma OfBlock(c: Call, args: seq<string>, i: nat, sw: Switch)
    requires i < |Blocks(c, args, 0)| && !StartsWith(Blocks(c, args, 0)[i], "-@")
    requires !sw.Other? && Dashed(sw)
    ensures var b := Blocks(c, args, 0)[i];
            Of(b.opts, sw) == if Starts(b, sw) then b.opts else []
  {
    hide Blocks, Of, Starts;
    var b := Blocks(c, args, 0)[i];
    forall e | e in b.opts
      ensures (e.sw == sw) == Starts(b, sw)
    {
      SwitchOfBlock(c, args, i, sw, e);
    }
    OfUniform(b.opts, sw, Starts(b, sw));
  }

  /** The blocks that start with the string of the switch. */
  function Starting(bs: seq<Block>, sw: Switch): seq<Block> {
    if bs == [] then [] else (if Starts(bs[0], sw) then [bs[0]] else []) + Starting(bs[1..], sw)
  }

  /** The options of a known switch are those of the blocks that start with its string, in order. */
  lemma {:induction false} OptionsOfSwitch(c: Call, args: seq<string>, n: nat, sw: Switch)
    requires NoFiles(Blocks(c, args, 0)) && n <= |Blocks(c, args, 0)| && !sw.Other? && Dashed(sw)
    ensures var bs := Blocks(c, args, 0); Of(OptsOf(bs[n..]), sw) == OptsOf(Starting(bs[n..], sw))
    decreases |Blocks(c, args, 0)| - n
  {
    hide Blocks, Starts, Of;
    var bs := Blocks(c, args, 0);
    if n < |bs| {
      OptionsOfSwitch(c, args, n + 1, sw);
      OptsStep(bs, n);
      OfBlock(c, args, n, sw);
      OfConcat(bs[n].opts, OptsOf(bs[n + 1..]), sw);
      SplitAt(bs, n);
      StartingStep(bs[n], bs[n + 1..], sw);
    } else {
      assert bs[n..] == [];
      NothingOf(sw);
    }
  }

  lemma StartingStep(b: Block, bs: seq<Block>, sw: Switch)
    ensures OptsOf(Starting([b] + bs, sw)) == (if Starts(b, sw) then b.opts else []) + OptsOf(Starting(bs, sw))
  {
    hide Starts;
    Rejoined([b], bs);
    Rejoined([b], Starting(bs, sw));
    NothingAdded(Starting(bs, sw));
    NothingAdded(OptsOf(Starting(bs, sw)));
  }

  // ----- the last -clear -----

  /** The last block that is a -clear, or -1. */
  function LastClearBlock(bs: seq<Block>): (q: int)
    ensures -1 <= q < |bs|
    ensures 0 <= q ==> StartsWith(bs[q], "-clear")
    ensures forall i :: q < i < |bs| ==> !StartsWith(bs[i], "-clear")
  {
    if bs == [] then -1
    else if StartsWith(bs[|bs| - 1], "-clear") then |bs| - 1
    else LastClearBlock(bs[..|bs| - 1])
  }

  lemma ClearString(b: Block)
    ensures Starts(b, clear_OPT) <==> StartsWith(b, "-clear")
  {
  }

  lemma {:induction false} OptsConcat(a: seq<Block>, b: seq<Block>)
    ensures OptsOf(a + b) == OptsOf(a) + OptsOf(b)
  {
    if a == [] {
      NothingAdded(b);
    } else {
      DropWithin(a, b, 1);
      OptsConcat(a[1..], b);
      Reassociate(a[0].opts, OptsOf(a[1..]), OptsOf(b));
    }
  }

  lemma OptsStep(bs: seq<Block>, n: nat)
    requires n < |bs|
    ensures OptsOf(bs[n..]) == bs[n].opts + OptsOf(bs[n + 1..])
  {
    SplitAt(bs, n);
    Rejoined([bs[n]], bs[n + 1..]);
  }

  lemma {:induction false} NoneStarts(bs: seq<Block>, sw: Switch)
    requires forall b :: b in bs ==> !Starts(b, sw)
    ensures Starting(bs, sw) == []
  {
    hide Starts;
    if bs != [] {
      assert bs[0] in bs;
      NoneStarts(bs[1..], sw);
    }
  }

  lemma NoClearBehind(c: Call, args: seq<string>)
    requires NoFiles(Blocks(c, args, 0))
    ensures var bs := Blocks(c, args, 0); Of(OptsOf(bs[LastClearBlock(bs) + 1..]), clear_OPT) == []
  {
    hide Blocks, Starts, StartsWith, Of, LastClearBlock, NoFiles;
    var bs := Blocks(c, args, 0);
    var n := LastClearBlock(bs) + 1;
    OptionsOfSwitch(c, args, n, clear_OPT);
    forall b | b in bs[n..]
      ensures !Starts(b, clear_OPT)
    {
      var i :| n <= i < |bs| && bs[i] == b;
      ClearString(b);
    }
    NoneStarts(bs[n..], clear_OPT);
    NothingOf(clear_OPT);
    assert OptsOf([]) == [];
  }

  lemma NothingOf(sw: Switch)
    ensures Of(OptsOf([]), sw) == []
  {
  }

  /** Behind the last -clear on the list stand the options of the blocks behind the last -clear. */
  lemma TailOfBlocks(c: Call, args: seq<string>)
    requires NoFiles(Blocks(c, args, 0)) && FaultOf(c, args, 0) == None
    ensures var bs := Blocks(c, args, 0);
            TailAfterClear(OptionsOn(c, args))
            == OptsOf(bs[LastClearBlock(bs) + 1..]) + DefaultHold(c, HoldGiven(c, bs))
  {
    hide Blocks, LastClear, HoldGiven, DefaultHold, OptsOf, OptionsOn, TailAfterClear, LastClearBlock, NoFiles, FaultOf;
    var bs := Blocks(c, args, 0);
    var hold := DefaultHold(c, HoldGiven(c, bs));
    OptionsAre(c, args);
    NoClearInTail(c, args);
    if LastClearBlock(bs) < 0 {
      NothingAdded(bs);
      NoClearAtAll(OptsOf(bs) + hold);
    } else {
      var k := OptionsAround(c, args, hold);
      TailBehindClear(OptsOf(bs[..LastClearBlock(bs)]), k, OptsOf(bs[LastClearBlock(bs) + 1..]) + hold);
    }
  }

  lemma NoClearAtAll(c: seq<Opt>)
    requires LastClear(c) < 0
    ensures TailAfterClear(c) == c
  {
    NothingBeforeClear(c);
  }

  lemma OptionsAround(c: Call, args: seq<string>, hold: seq<Opt>) returns (k: Opt)
    requires LastClearBlock(Blocks(c, args, 0)) >= 0
    ensures var bs := Blocks(c, args, 0);
            var q := LastClearBlock(bs);
            k.sw == clear_OPT && OptsOf(bs) + hold == OptsOf(bs[..q]) + [k] + (OptsOf(bs[q + 1..]) + hold)
  {
    hide Blocks, OptsOf, LastClearBlock;
    var bs := Blocks(c, args, 0);
    var q := LastClearBlock(bs);
    k := ClearBlock(c, args, q);
    Split(bs, q);
    OptsConcat(bs[..q], bs[q..]);
    OptsStep(bs, q);
    Regrouped(OptsOf(bs[..q]), [k], OptsOf(bs[q + 1..]), hold);
  }

  lemma OptionsAre(c: Call, args: seq<string>)
    requires FaultOf(c, args, 0) == None
    ensures OptionsOn(c, args) == OptsOf(Blocks(c, args, 0)) + DefaultHold(c, HoldGiven(c, Blocks(c, args, 0)))
  {
    hide Blocks, FaultOf, OptsOf, HoldGiven, DefaultHold;
  }

  lemma NoClearInTail(c: Call, args: seq<string>)
    requires NoFiles(Blocks(c, args, 0))
    ensures var bs := Blocks(c, args, 0);
            LastClear(OptsOf(bs[LastClearBlock(bs) + 1..]) + DefaultHold(c, HoldGiven(c, bs))) < 0
  {
    hide Blocks, Of, LastClear, HoldGiven, DefaultHold, OptsOf, LastClearBlock, NoFiles;
    var bs := Blocks(c, args, 0);
    var es, hold := OptsOf(bs[LastClearBlock(bs) + 1..]), DefaultHold(c, HoldGiven(c, bs));
    NoClearBehind(c, args);
    HoldIsHold(c, HoldGiven(c, bs), clear_OPT);
    OfConcat(es, hold, clear_OPT);
    assert Of(es + hold, clear_OPT) == [];
    NoClearIff(es + hold);
  }

  lemma Regrouped(a: seq<Opt>, b: seq<Opt>, c: seq<Opt>, d: seq<Opt>)
    ensures a + (b + c) + d == a + b + (c + d)
  {
    Reassociate(a, b, c);
    Reassociate(a + b, c, d);
  }

  lemma TailBehindClear(head: seq<Opt>, k: Opt, tail: seq<Opt>)
    requires k.sw == clear_OPT && LastClear(tail) < 0
    ensures TailAfterClear(head + [k] + tail) == tail
  {
    hide LastClear;
    LastClearBetween(head, k, tail);
    Around(head, k, tail);
  }

  lemma ClearBlock(c: Call, args: seq<string>, i: nat) returns (k: Opt)
    requires i < |Blocks(c, args, 0)| && StartsWith(Blocks(c, args, 0)[i], "-clear")
    ensures Blocks(c, args, 0)[i].opts == [k] && k.sw == clear_OPT
  {
    hide Blocks, KindOf, Tokenizer.Answer;
    ClearFlag(c.qalter);
    BlockHasItsOption(c, args, 0, i);
    k := Blocks(c, args, 0)[i].opts[0];
  }

  lemma ClearFlag(qalter: bool)
    ensures KindOf(qalter, "-clear") == Flag(clear_OPT)
  {
    hide KindOf;
    KnownIsTaken(qalter, clear_OPT);
  }

  /** What the handler of a known switch sees of a command line: the options of the blocks behind the last -clear that
      start with its string, for -h followed by the default hold; or of all blocks, for a handler of the whole list. */
  lemma OptionsOnLine(c: Call, args: seq<string>, sw: Switch)
    requires NoFiles(Blocks(c, args, 0)) && FaultOf(c, args, 0) == None && !sw.Other? && Dashed(sw)
    ensures var bs := Blocks(c, args, 0);
            var hold := if sw == h_OPT then DefaultHold(c, HoldGiven(c, bs)) else [];
            && Of(OptionsOn(c, args), sw) == OptsOf(Starting(bs, sw)) + hold
            && Of(TailAfterClear(OptionsOn(c, args)), sw) == OptsOf(Starting(bs[LastClearBlock(bs) + 1..], sw)) + hold
  {
    hide Blocks, Of, HoldGiven, DefaultHold, OptsOf, OptionsOn, TailAfterClear, LastClearBlock, NoFiles, Starting;
    var bs := Blocks(c, args, 0);
    var n := LastClearBlock(bs) + 1;
    var given := HoldGiven(c, bs);
    OptionsAre(c, args);
    TailOfBlocks(c, args);
    OptionsOfSwitch(c, args, 0, sw);
    OptionsOfSwitch(c, args, n, sw);
    NothingAdded(bs);
    OfConcat(OptsOf(bs), DefaultHold(c, given), sw);
    OfConcat(OptsOf(bs[n..]), DefaultHold(c, given), sw);
    if sw == h_OPT {
      AllHold(c, given);
    } else {
      HoldIsHold(c, given, sw);
    }
  }

  lemma AllHold(c: Call, given: bool)
    ensures Of(DefaultHold(c, given), h_OPT) == DefaultHold(c, given)
  {
    OfUniform(DefaultHold(c, given), h_OPT, true);
  }

  lemma HoldIsHold(c: Call, given: bool, sw: Switch)
    requires sw != h_OPT
    ensures Of(DefaultHold(c, given), sw) == []
  {
    OfUniform(DefaultHold(c, given), sw, false);
  }

  // ----- requests by mode -----

  /** Is the last -hard or -soft block a -soft? */
  predicate SoftMode(bs: seq<Block>) {
    bs != []
    && (StartsWith(bs[|bs| - 1], "-soft") || (!StartsWith(bs[|bs| - 1], "-hard") && SoftMode(bs[..|bs| - 1])))
  }

  /** What the blocks from number n on request with the switch, in soft mode, or else in any other. */
  function Requested(bs: seq<Block>, n: nat, sw: Switch, soft: bool): seq<Item>
    requires n <= |bs|
    decreases |bs| - n
  {
    if n == |bs| then []
    else
      (if StartsWith(bs[n], NameOf(sw)) && SoftMode(bs[..n]) == soft then AllItems(bs[n].opts) else [])
      + Requested(bs, n + 1, sw, soft)
  }

  lemma {:induction false} InModeConcat(a: seq<Opt>, b: seq<Opt>, soft: bool)
    ensures InMode(a + b, soft) == InMode(a, soft) + InMode(b, soft)
  {
    if a == [] {
      NothingAdded(b);
    } else {
      DropWithin(a, b, 1);
      InModeConcat(a[1..], b, soft);
      Reassociate(if (a[0].i >= 2) == soft then [a[0]] else [], InMode(a[1..], soft), InMode(b, soft));
    }
  }

  lemma {:induction false} AllItemsConcat(a: seq<Opt>, b: seq<Opt>)
    ensures AllItems(a + b) == AllItems(a) + AllItems(b)
  {
    if a == [] {
      NothingAdded(b);
    } else {
      DropWithin(a, b, 1);
      AllItemsConcat(a[1..], b);
      Reassociate(Items(a[0].list), AllItems(a[1..]), AllItems(b));
    }
  }

  lemma ModeFlags(qalter: bool, t: string)
    ensures KindOf(qalter, t) == Flag(soft_OPT) <==> t == "-soft"
    ensures KindOf(qalter, t) == Flag(hard_OPT) <==> t == "-hard"
  {
    hide KindOf;
    KnownIsTaken(qalter, soft_OPT);
    KnownIsTaken(qalter, hard_OPT);
    KindTells(qalter, t, soft_OPT);
    KindTells(qalter, t, hard_OPT);
  }

  lemma {:induction false} RegisterIsMode(c: Call, bs: seq<Block>)
    ensures Register(c, bs, 0) in {0, 1, 2} && (Register(c, bs, 0) == 2 <==> SoftMode(bs))
  {
    hide KindOf;
    if bs != [] {
      RegisterIsMode(c, bs[..|bs| - 1]);
      if bs[|bs| - 1].args != [] {
        ModeFlags(c.qalter, bs[|bs| - 1].args[0]);
      }
    }
  }

  lemma RequestString(b: Block, sw: Switch)
    requires sw == l_OPT || sw == q_OPT
    ensures Starts(b, sw) <==> StartsWith(b, NameOf(sw))
  {
    hide NameOf;
  }

  lemma RequestKind(qalter: bool, sw: Switch)
    requires sw == l_OPT || sw == q_OPT
    ensures KindOf(qalter, NameOf(sw)) == Valued(sw)
  {
    hide KindOf, NameOf;
    KnownIsTaken(qalter, sw);
  }

  /** What one block requests. */
  lemma RequestOfBlock(c: Call, args: seq<string>, i: nat, sw: Switch, soft: bool)
    requires i < |Blocks(c, args, 0)| && !StartsWith(Blocks(c, args, 0)[i], "-@") && (sw == l_OPT || sw == q_OPT)
    ensures var bs := Blocks(c, args, 0);
            AllItems(InMode(Of(bs[i].opts, sw), soft))
            == if StartsWith(bs[i], NameOf(sw)) && SoftMode(bs[..i]) == soft then AllItems(bs[i].opts) else []
  {
    hide Blocks, KindOf, Of, Register, NameOf, Starts, SoftMode;
    var bs := Blocks(c, args, 0);
    OfBlock(c, args, i, sw);
    RequestString(bs[i], sw);
    if StartsWith(bs[i], NameOf(sw)) {
      RequestKind(c.qalter, sw);
      RequestsCarryRegister(c, args, i);
      RegisterIsMode(c, bs[..i]);
      OneInMode(bs[i].opts, soft);
    }
  }

  lemma OneInMode(es: seq<Opt>, soft: bool)
    requires |es| == 1
    ensures InMode(es, soft) == if (es[0].i >= 2) == soft then es else []
  {
    assert es[1..] == [] && es == [es[0]];
  }

  lemma {:induction false} RequestsOfBlocks(c: Call, args: seq<string>, n: nat, sw: Switch, soft: bool)
    requires NoFiles(Blocks(c, args, 0)) && n <= |Blocks(c, args, 0)| && (sw == l_OPT || sw == q_OPT)
    ensures var bs := Blocks(c, args, 0);
            AllItems(InMode(Of(OptsOf(bs[n..]), sw), soft)) == Requested(bs, n, sw, soft)
    decreases |Blocks(c, args, 0)| - n
  {
    hide Blocks, Of, SoftMode, InMode, AllItems, NameOf, StartsWith;
    var bs := Blocks(c, args, 0);
    if n == |bs| {
      assert bs[n..] == [];
      NothingRequested(sw, soft);
    } else {
      var opts, rest := bs[n].opts, OptsOf(bs[n + 1..]);
      RequestsOfBlocks(c, args, n + 1, sw, soft);
      OptsStep(bs, n);
      RequestOfBlock(c, args, n, sw, soft);
      OfConcat(opts, rest, sw);
      InModeConcat(Of(opts, sw), Of(rest, sw), soft);
      AllItemsConcat(InMode(Of(opts, sw), soft), InMode(Of(rest, sw), soft));
    }
  }

  lemma NothingRequested(sw: Switch, soft: bool)
    ensures AllItems(InMode(Of(OptsOf([]), sw), soft)) == []
  {
  }

  /** What the options of a switch behind the last -clear request is what the blocks behind the last -clear do; the mode
      is that of the last -hard or -soft before, be it in front of the -clear. */
  lemma RequestsOnCommandLine(c: Call, args: seq<string>, sw: Switch, soft: bool)
    requires NoFiles(Blocks(c, args, 0)) && FaultOf(c, args, 0) == None && (sw == l_OPT || sw == q_OPT)
    ensures var bs := Blocks(c, args, 0);
            AllItems(InMode(Of(TailAfterClear(OptionsOn(c, args)), sw), soft))
            == Requested(bs, LastClearBlock(bs) + 1, sw, soft)
  {
    hide Blocks, Of, InMode, AllItems, TailAfterClear, OptionsOn, Requested, LastClearBlock, DefaultHold, NoFiles,
         HoldGiven, OptsOf, FaultOf;
    var bs := Blocks(c, args, 0);
    var n := LastClearBlock(bs) + 1;
    var hold := DefaultHold(c, HoldGiven(c, bs));
    TailOfBlocks(c, args);
    RequestsOfBlocks(c, args, n, sw, soft);
    OfConcat(OptsOf(bs[n..]), hold, sw);
    HoldIsHold(c, HoldGiven(c, bs), sw);
    NothingAdded(Of(OptsOf(bs[n..]), sw));
  }

  /** -soft in front of a -clear makes the queues behind it soft: -clear forgets options, but not the mode. */
  lemma SoftOutlivesClear(c: Call, queues: string)
    requires c.parsers.value(q_OPT, queues) != None
    ensures var bs := Blocks(c, ["-soft", "-clear", "-q", queues], 0);
            && |bs| == 3 && LastClearBlock(bs) == 1
            && Requested(bs, 2, q_OPT, true) == Items(c.parsers.value(q_OPT, queues).value.list)
            && Requested(bs, 2, q_OPT, false) == []
  {
    hide KindOf;
    ModeFlags(c.qalter, "-soft");
    ClearFlag(c.qalter);
    RequestKind(c.qalter, q_OPT);
    var args := ["-soft", "-clear", "-q", queues];
    var e := c.parsers.value(q_OPT, queues).value.(sw := q_OPT, text := Some(queues), i := 2);
    var b0, b1 := Block(["-soft"], [Plainly(soft_OPT, None)]), Block(["-clear"], [Plainly(clear_OPT, None)]);
    var b2 := Block(["-q", queues], [e]);
    assert args[..1] == ["-soft"] && args[1..] == ["-clear", "-q", queues];
    assert args[1..][..1] == ["-clear"] && args[1..][1..] == ["-q", queues];
    assert ["-q", queues][..2] == ["-q", queues] && ["-q", queues][2..] == [];
    assert Blocks(c, ["-q", queues], 2) == [b2];
    assert Blocks(c, args[1..], 2) == [b1, b2];
    var bs := Blocks(c, args, 0);
    assert bs == [b0, b1, b2];
    ModeBehindClear(bs);
    assert [e][1..] == [];
    assert AllItems([e]) == Items(e.list);
  }

  lemma ModeBehindClear(bs: seq<Block>)
    requires |bs| == 3
    requires StartsWith(bs[0], "-soft") && StartsWith(bs[1], "-clear") && StartsWith(bs[2], "-q")
    ensures SoftMode(bs[..2]) && LastClearBlock(bs) == 1
  {
    assert bs[..2][..1] == bs[..1];
    assert SoftMode(bs[..1]);
  }

  // ----- the job of a command line -----

  /** A command line without a fault and without files of options, and a job: its queues are its own followed by those
      of the -q behind the last -clear, soft exactly behind -soft; and of each resource and mode it requests the last
      among its own and those of the -l behind the last -clear. */
  lemma RequestsOfJob(c: Call, args: seq<string>, job: Job, env: Env, key: string)
    requires NoFiles(Blocks(c, args, 0)) && FaultOf(c, args, 0) == None
    ensures var cmdline := OptionsOn(c, args);
            var j := BuiltJob(job, cmdline, AfterClear(EarlyRest(cmdline)), env);
            var bs := Blocks(c, args, 0);
            var n := LastClearBlock(bs) + 1;
            && Items(j.queues.hard) == Items(job.queues.hard) + Requested(bs, n, q_OPT, false)
            && Items(j.queues.soft) == Items(job.queues.soft) + Requested(bs, n, q_OPT, true)
            && Last(Items(j.resources.hard), Some(key))
               == Last(Items(job.resources.hard) + Requested(bs, n, l_OPT, false), Some(key))
            && Last(Items(j.resources.soft), Some(key))
               == Last(Items(job.resources.soft) + Requested(bs, n, l_OPT, true), Some(key))
  {
    hide Blocks, Of, InMode, AllItems, TailAfterClear, OptionsOn, Requested, LastClearBlock, BuiltJob, Last,
         AfterClear, EarlyRest, NoFiles;
    var cmdline := OptionsOn(c, args);
    QueuesOfJob(job, cmdline, env);
    ResourcesOfJob(job, cmdline, env, key);
    RequestsOnCommandLine(c, args, q_OPT, false);
    RequestsOnCommandLine(c, args, q_OPT, true);
    RequestsOnCommandLine(c, args, l_OPT, false);
    RequestsOnCommandLine(c, args, l_OPT, true);
  }

  /** Reads a command line, and hands its options to the job parser if there is no fault. */
  method Submit(c: Call, args: seq<string>, job: Job, env: Env) returns (fault: Option<Fault>, outcome: Option<Outcome>)
    ensures fault == FaultOf(c, args, 0) && (outcome == None <==> fault != None)
    ensures outcome.Some? ==> outcome.value == OutcomeOf(job, OptionsOn(c, args), env)
    ensures outcome.Some? && outcome.value.Parsed? && NoFiles(Blocks(c, args, 0)) ==>
              var bs := Blocks(c, args, 0);
              var queues := outcome.value.job.queues;
              && Items(queues.hard)
                 == Items(job.queues.hard) + Requested(bs, LastClearBlock(bs) + 1, q_OPT, false)
              && Items(queues.soft)
                 == Items(job.queues.soft) + Requested(bs, LastClearBlock(bs) + 1, q_OPT, true)
  {
    hide Blocks, BuiltJob, AfterClear, EarlyRest, Requested, LastClearBlock, NoFiles, EarlyJob, Of, LostDirectory,
         LacksCommand, Complaints, Leftover, OptsOf, DefaultHold, HoldGiven;
    var cmdline;
    cmdline, fault := ParseCommandLine(c, args, []);
    if fault != None {
      return fault, None;
    }
    NothingAdded(OptsOf(Blocks(c, args, 0)));
    var options := new Options(cmdline);
    var r := Parse(options, job, env);
    if NoFiles(Blocks(c, args, 0)) {
      RequestsOfJob(c, args, job, env, "");
    }
    return None, Some(r);
  }
}
