/** Splitting a command line into options: the cursor loop, the arity of each switch, and the hard/soft register. */
module Tokenizer {
  import opened Optional
  import opened OptionList
  import opened Seqs

  // ----- what an argument stands for -----

  /** How the arguments behind a switch are read. */
  datatype Kind =
    | Flag(sw: Switch)      // none
    | Valued(sw: Switch)    // one
    | YesNo(sw: Switch)     // y[es] or n[o]
    | Restart               // -r, y[es] or n[o]
    | Hold                  // -h, one for qalter only
    | ParallelEnv           // -pe, a name and a range
    | Binding               // -binding, one behind an optional set, env or pe
    | Environment           // -V, none
    | File                  // -@, a file of options
    | Unknown               // any other argument starting with '-'
    | Separator             // --
    | Plain                 // anything else

  /** Switches are compared in this order. Not being qalter, -b and -shell are known. */
  function KindOf(qalter: bool, t: string): Kind {
    if t == "-a" then Valued(a_OPT) else if t == "-A" then Valued(A_OPT) else if t == "-ar" then Valued(ar_OPT)
    else if t == "-ac" then Valued(ac_OPT) else if !qalter && t == "-b" then YesNo(b_OPT)
    else if t == "-binding" then Binding else if t == "-c" then Valued(c_OPT)
    else if t == "-cat" then Valued(Other("-cat"))
    else KindFromCell(qalter, t)
  }

  function KindFromCell(qalter: bool, t: string): Kind {
    if t == "-cell" then Valued(Other("-cell")) else if t == "-ckpt" then Valued(ckpt_OPT)
    else if t == "-clear" then Flag(clear_OPT) else if t == "-explain" then Flag(Other("-explain"))
    else if t == "-xml" then Flag(Other("-xml")) else if t == "-cwd" then Flag(wd_OPT)
    else if t == "-C" then Valued(C_OPT) else if t == "-d" then Valued(Other("-d"))
    else KindFromDc(qalter, t)
  }

  function KindFromDc(qalter: bool, t: string): Kind {
    if t == "-dc" then Valued(dc_OPT) else if t == "-display" then Valued(Other("-display"))
    else if t == "-dl" then Valued(dl_OPT) else if t == "-e" then Valued(e_OPT) else if t == "-i" then Valued(i_OPT)
    else if t == "-h" then Hold else if t == "-hard" then Flag(hard_OPT) else if t == "-he" then YesNo(Other("-he"))
    else KindFromHelp(qalter, t)
  }

  function KindFromHelp(qalter: bool, t: string): Kind {
    if t == "-help" then Flag(help_OPT) else if t == "-hold_jid" then Valued(hold_jid_OPT)
    else if t == "-hold_jid_ad" then Valued(hold_jid_ad_OPT) else if t == "-j" then YesNo(j_OPT)
    else if t == "-js" then Valued(js_OPT) else if t == "-jsv" then Valued(jsv_OPT)
    else if t == "-l" then Valued(l_OPT) else if t == "-m" then Valued(m_OPT)
    else KindFromMasterq(qalter, t)
  }

  function KindFromMasterq(qalter: bool, t: string): Kind {
    if t == "-masterq" then Valued(masterq_OPT) else if t == "-M" then Valued(M_OPT)
    else if t == "-N" then Valued(N_OPT) else if t == "-notify" then Flag(notify_OPT)
    else if t == "-now" then YesNo(now_OPT) else if t == "-o" then Valued(o_OPT)
    else if t == "-ot" then Valued(Other("-ot"))
    else KindFromP(qalter, t)
  }

  function KindFromP(qalter: bool, t: string): Kind {
    if t == "-p" then Valued(p_OPT) else if t == "-P" then Valued(P_OPT) else if t == "-pe" then ParallelEnv
    else if t == "-q" then Valued(q_OPT) else if t == "-r" then Restart else if t == "-R" then YesNo(R_OPT)
    else if t == "-sc" then Valued(sc_OPT)
    else KindFromSoft(qalter, t)
  }

  function KindFromSoft(qalter: bool, t: string): Kind {
    if t == "-soft" then Flag(soft_OPT) else if !qalter && t == "-shell" then YesNo(shell_OPT)
    else if t == "-sync" then YesNo(Other("-sync")) else if t == "-S" then Valued(S_OPT)
    else if t == "-t" then Valued(t_OPT) else if t == "-tc" then Valued(tc_OPT)
    else KindFromTerse(qalter, t)
  }

  function KindFromTerse(qalter: bool, t: string): Kind {
    if t == "-terse" then Flag(terse_OPT) else if t == "-u" then Valued(u_OPT)
    else if t == "-uall" then Flag(Other("-uall")) else if t == "-v" then Valued(v_OPT)
    else if t == "-verify" then Flag(verify_OPT) else if t == "-V" then Environment
    else if t == "-w" then Valued(w_OPT) else if t == "-wd" then Valued(wd_OPT) else if t == "-@" then File
    else KindFromVerbose(qalter, t)
  }

  function KindFromVerbose(qalter: bool, t: string): Kind {
    if t == "-verbose" then Flag(Other("-verbose")) else if t == "-inherit" then Flag(Other("-inherit"))
    else if t == "-pty" then YesNo(pty_OPT)
    else KindFromSuspendRemote(t)
  }

  function KindFromSuspendRemote(t: string): Kind {
    if t == "-suspend_remote" then YesNo(Other("-suspend_remote"))
    else if t == "-nostdin" then Flag(Other("-nostdin")) else if t == "-noshell" then Flag(Other("-noshell"))
    else KindOfOthers(t)
  }

  function KindOfOthers(t: string): Kind {
    if t != "" && t[0] == '-' && t != "--" then Unknown else if t == "--" then Separator else Plain
  }

  // ----- the context of a call -----

  datatype Program = QHOLD | QRLS | OtherProgram

  /** The parsers of argument values; None is a complaint about the argument. */
  datatype Parsers = Parsers(
    value: (Switch, string) -> Option<Opt>, hold: string -> Option<set<int>>, range: string -> ItemList,
    binding: string -> Option<ItemList>, environment: Option<ItemList>, jobIds: string -> Option<ItemList>,
    file: string -> Option<seq<Opt>>)

  datatype Call = Call(program: Program, pseudos: bool, qalter: bool, parsers: Parsers)

  datatype Fault = MustHaveArgument(arg: string) | BadArgument(arg: string, val: string) | InvalidOption(arg: string)

  const TARGET_USER := 1
  const COMMAND_SUB := 16

  function Plainly(sw: Switch, text: Option<string>): Opt {
    Opt(sw, OtherArg, 0, {}, 0, 0, None, None, text)
  }

  function WithString(sw: Switch, s: string): Opt {
    Plainly(sw, None).(s := Some(s))
  }

  function JobArgs(args: seq<string>): (r: seq<Opt>)
    ensures |r| == |args| && forall i :: 0 <= i < |args| ==> r[i] == WithString(JobArg, args[i])
  {
    if args == [] then [] else [WithString(JobArg, args[0])] + JobArgs(args[1..])
  }

  function HoldOpt(flags: set<int>, text: string): Opt {
    Plainly(h_OPT, Some(text)).(argtype := IntArg, flags := flags)
  }

  function Lower(c: char): char {
    if 'A' <= c <= 'Z' then c - 'A' + 'a' else c
  }

  /** y[es] is true, n[o] false, whatever the case. */
  function Answer(v: string): Option<bool> {
    if (|v| == 1 && Lower(v[0]) == 'y') || (|v| == 3 && Lower(v[0]) == 'y' && Lower(v[1]) == 'e' && Lower(v[2]) == 's')
    then Some(true)
    else if (|v| == 1 && Lower(v[0]) == 'n') || (|v| == 2 && Lower(v[0]) == 'n' && Lower(v[1]) == 'o')
    then Some(false)
    else None
  }

  function IntOpt(sw: Switch, i: nat, text: string): Opt
    requires i <= 2
  {
    Plainly(sw, Some(text)).(argtype := IntArg, i := i)
  }

  // ----- one block -----

  /** The outcome of reading at the cursor: options made of the first n arguments, or a fault. */
  datatype Step = Took(n: nat, opts: seq<Opt>) | Failed(fault: Fault)

  /** The value of a one-argument switch; -l and -q carry the hard/soft register, -masterq carries 0. */
  function ValueStep(p: Parsers, sw: Switch, arg: string, val: string, register: int): Step {
    var e := p.value(sw, val);
    if e == None then Failed(BadArgument(arg, val))
    else
      var i := if sw in {l_OPT, q_OPT} then register else if sw == masterq_OPT then 0 else e.value.i;
      Took(2, [e.value.(sw := sw, text := Some(val), i := i)])
  }

  function AnswerStep(sw: Switch, arg: string, val: string): Step {
    var a := Answer(val);
    if a == None then Failed(BadArgument(arg, val))
    else Took(2, [IntOpt(sw, if a.value then 1 else 0, val).(u := if a.value then 1 else 0)])
  }

  function RestartStep(arg: string, val: string): Step {
    var a := Answer(val);
    if a == None then Failed(BadArgument(arg, val)) else Took(2, [IntOpt(r_OPT, if a.value then 1 else 2, val)])
  }

  function HoldStep(c: Call, args: seq<string>): Step
    requires args != []
  {
    if !c.qalter then Took(1, [HoldOpt({TARGET_USER}, "")])
    else if |args| < 2 then Failed(MustHaveArgument(args[0]))
    else
      var flags := c.parsers.hold(args[1]);
      if flags == None then Failed(BadArgument(args[0], args[1])) else Took(2, [HoldOpt(flags.value, args[1])])
  }

  function PeStep(p: Parsers, args: seq<string>): Step
    requires args != []
  {
    if |args| < 3 then Failed(MustHaveArgument(args[0]))
    else
      var range := p.range(args[2]);
      if range == None then Failed(BadArgument(args[0], args[2]))
      else Took(3, [WithString(pe_OPT, args[1]).(list := range, text := Some(args[1] + " " + args[2]))])
  }

  predicate BindingType(t: string) {
    t == "set" || t == "env" || t == "pe"
  }

  function BindingStep(p: Parsers, args: seq<string>): Step
    requires args != []
  {
    if |args| < 2 || (BindingType(args[1]) && |args| < 3) then Failed(MustHaveArgument(args[0]))
    else
      var n := if BindingType(args[1]) then 3 else 2;
      var val := if n == 3 then args[1] + " " + args[2] else args[1];
      var list := p.binding(val);
      if list == None then Failed(BadArgument(args[0], val))
      else Took(n, [Plainly(binding_OPT, Some(val)).(list := list.value)])
  }

  function EnvironmentStep(p: Parsers, arg: string): Step {
    if p.environment == None then Failed(BadArgument(arg, ""))
    else Took(1, [Plainly(V_OPT, Some("")).(list := p.environment.value)])
  }

  function FileStep(p: Parsers, args: seq<string>): Step
    requires args != []
  {
    if |args| < 2 then Failed(MustHaveArgument(args[0]))
    else
      var opts := p.file(args[1]);
      if opts == None then Failed(BadArgument(args[0], args[1])) else Took(2, opts.value)
  }

  function SeparatorStep(c: Call, args: seq<string>): Step
    requires args != []
  {
    if !c.pseudos then Took(1, [Plainly(Other("--"), None)])
    else if |args| < 2 then Failed(MustHaveArgument(args[0]))
    else Took(|args|, JobArgs(args[1..]))
  }

  function PlainStep(c: Call, args: seq<string>): Step
    requires args != []
  {
    if !c.pseudos then Took(1, [WithString(Other(""), args[0])])
    else if !c.qalter then Took(|args|, [WithString(Script, args[0])] + JobArgs(args[1..]))
    else
      var ids := c.parsers.jobIds(args[0]);
      if ids == None then Failed(BadArgument("", args[0]))
      else Took(1, [Plainly(Other("jobid"), Some(args[0])).(list := ids.value)])
  }

  function StepOf(c: Call, kind: Kind, args: seq<string>, register: int): (r: Step)
    requires args != []
    ensures r.Took? ==> 1 <= r.n <= |args|
  {
    match kind
    case Flag(sw) => Took(1, [Plainly(sw, None)])
    case Valued(sw) =>
      if |args| < 2 then Failed(MustHaveArgument(args[0])) else ValueStep(c.parsers, sw, args[0], args[1], register)
    case YesNo(sw) =>
      if |args| < 2 then Failed(MustHaveArgument(args[0])) else AnswerStep(sw, args[0], args[1])
    case Restart =>
      if |args| < 2 then Failed(MustHaveArgument(args[0])) else RestartStep(args[0], args[1])
    case Hold => HoldStep(c, args)
    case ParallelEnv => PeStep(c.parsers, args)
    case Binding => BindingStep(c.parsers, args)
    case Environment => EnvironmentStep(c.parsers, args[0])
    case File => FileStep(c.parsers, args)
    case Unknown => Failed(InvalidOption(args[0]))
    case Separator => SeparatorStep(c, args)
    case Plain => PlainStep(c, args)
  }

  /** How many arguments belong to the first one. */
  function Arity(c: Call, args: seq<string>): nat
    requires args != []
  {
    match KindOf(c.qalter, args[0])
    case Flag(_) | Environment | Unknown => 0
    case Valued(_) | YesNo(_) | Restart | File => 1
    case Hold => if c.qalter then 1 else 0
    case ParallelEnv => 2
    case Binding => if |args| > 1 && BindingType(args[1]) then 2 else 1
    case Separator => if c.pseudos then |args| - 1 else 0
    case Plain => if c.pseudos && !c.qalter then |args| - 1 else 0
  }

  // ----- the blocks of a command line -----

  datatype Block = Block(args: seq<string>, opts: seq<Opt>)

  function NextRegister(kind: Kind, register: int): int {
    if kind == Flag(hard_OPT) then 1 else if kind == Flag(soft_OPT) then 2 else register
  }

  /** The blocks up to the end or to the first fault. */
  function Blocks(c: Call, args: seq<string>, register: int): seq<Block>
    decreases |args|
  {
    if args == [] then []
    else
      var kind := KindOf(c.qalter, args[0]);
      var step := StepOf(c, kind, args, register);
      if step.Failed? then []
      else [Block(args[..step.n], step.opts)] + Blocks(c, args[step.n..], NextRegister(kind, register))
  }

  function FaultOf(c: Call, args: seq<string>, register: int): Option<Fault>
    decreases |args|
  {
    if args == [] then None
    else
      var kind := KindOf(c.qalter, args[0]);
      var step := StepOf(c, kind, args, register);
      if step.Failed? then Some(step.fault)
      else FaultOf(c, args[step.n..], NextRegister(kind, register))
  }

  function ArgsOf(bs: seq<Block>): seq<string> {
    if bs == [] then [] else bs[0].args + ArgsOf(bs[1..])
  }

  function OptsOf(bs: seq<Block>): seq<Opt> {
    if bs == [] then [] else bs[0].opts + OptsOf(bs[1..])
  }

  predicate HoldGiven(c: Call, bs: seq<Block>) {
    bs != [] && (StartsHold(c, bs[0]) || HoldGiven(c, bs[1..]))
  }

  predicate StartsHold(c: Call, b: Block) {
    b.args != [] && KindOf(c.qalter, b.args[0]) == Hold
  }

  /** The hold of qhold and qrls if none was given. */
  function DefaultHold(c: Call, given: bool): seq<Opt> {
    if given || c.program == OtherProgram then []
    else if c.program == QHOLD then [HoldOpt({TARGET_USER}, "u")]
    else [HoldOpt({COMMAND_SUB, TARGET_USER}, "u")]
  }

  /** A step takes the first argument and what belongs to it. */
  lemma StepTakesArity(c: Call, args: seq<string>, register: int)
    requires args != []
    ensures var step := StepOf(c, KindOf(c.qalter, args[0]), args, register);
            step.Took? ==> step.n == 1 + Arity(c, args) && step.n <= |args|
  {
    hide KindOf;
  }

  // ----- the cursor loop -----

  /** Reads one block at the cursor sp: appends its options, and moves the cursor behind it. */
  method ParseBlock(c: Call, args: seq<string>, sp0: nat, kind: Kind, register: int)
    returns (sp: nat, opts: seq<Opt>, fault: Option<Fault>)
    requires sp0 < |args|
    ensures var step := StepOf(c, kind, args[sp0..], register);
            if step.Failed? then fault == Some(step.fault) && opts == []
            else fault == None && sp == sp0 + step.n && opts == step.opts
  {
    hide SeparatorStep, PlainStep;
    sp, opts, fault := sp0, [], None;
    match kind
    case Flag(sw) =>
      opts := [Plainly(sw, None)];
      sp := sp + 1;
    case Valued(sw) =>
      sp := sp + 1;
      if sp == |args| {
        return sp, [], Some(MustHaveArgument(args[sp - 1]));
      }
      var e := c.parsers.value(sw, args[sp]);
      if e == None {
        return sp, [], Some(BadArgument(args[sp - 1], args[sp]));
      }
      var opt := e.value.(sw := sw, text := Some(args[sp]));
      if sw in {l_OPT, q_OPT} {
        opt := opt.(i := register);
      } else if sw == masterq_OPT {
        opt := opt.(i := 0);
      }
      opts := [opt];
      sp := sp + 1;
    case YesNo(sw) =>
      sp := sp + 1;
      if sp == |args| {
        return sp, [], Some(MustHaveArgument(args[sp - 1]));
      }
      var answer := Answer(args[sp]);
      if answer == None {
        return sp, [], Some(BadArgument(args[sp - 1], args[sp]));
      }
      opts := [IntOpt(sw, if answer.value then 1 else 0, args[sp]).(u := if answer.value then 1 else 0)];
      sp := sp + 1;
    case Restart =>
      sp := sp + 1;
      if sp == |args| {
        return sp, [], Some(MustHaveArgument(args[sp - 1]));
      }
      var answer := Answer(args[sp]);
      if answer == None {
        return sp, [], Some(BadArgument(args[sp - 1], args[sp]));
      }
      opts := [IntOpt(r_OPT, if answer.value then 1 else 2, args[sp])];
      sp := sp + 1;
    case Hold =>
      var flags, text := {TARGET_USER}, "";
      if c.qalter {
        sp := sp + 1;
        if sp == |args| {
          return sp, [], Some(MustHaveArgument(args[sp - 1]));
        }
        var hold := c.parsers.hold(args[sp]);
        if hold == None {
          return sp, [], Some(BadArgument(args[sp - 1], args[sp]));
        }
        flags, text := hold.value, args[sp];
      }
      opts := [HoldOpt(flags, text)];
      sp := sp + 1;
    case ParallelEnv =>
      sp := sp + 1;
      if sp == |args| {
        return sp, [], Some(MustHaveArgument(args[sp - 1]));
      }
      sp := sp + 1;
      if sp == |args| {
        return sp, [], Some(MustHaveArgument(args[sp - 2]));
      }
      var range := c.parsers.range(args[sp]);
      if range == None {
        return sp, [], Some(BadArgument(args[sp - 2], args[sp]));
      }
      opts := [WithString(pe_OPT, args[sp - 1]).(list := range, text := Some(args[sp - 1] + " " + args[sp]))];
      sp := sp + 1;
    case Binding =>
      sp := sp + 1;
      if sp == |args| {
        return sp, [], Some(MustHaveArgument(args[sp - 1]));
      }
      var val := args[sp];
      if BindingType(args[sp]) {
        sp := sp + 1;
        if sp == |args| {
          return sp, [], Some(MustHaveArgument(args[sp - 2]));
        }
        val := val + " " + args[sp];
      }
      var list := c.parsers.binding(val);
      if list == None {
        return sp, [], Some(BadArgument(args[sp0], val));
      }
      opts := [Plainly(binding_OPT, Some(val)).(list := list.value)];
      sp := sp + 1;
    case Environment =>
      if c.parsers.environment == None {
        return sp, [], Some(BadArgument(args[sp], ""));
      }
      opts := [Plainly(V_OPT, Some("")).(list := c.parsers.environment.value)];
      sp := sp + 1;
    case File =>
      sp := sp + 1;
      if sp == |args| {
        return sp, [], Some(MustHaveArgument(args[sp - 1]));
      }
      var found := c.parsers.file(args[sp]);
      if found == None {
        return sp, [], Some(BadArgument(args[sp - 1], args[sp]));
      }
      opts := found.value;
      sp := sp + 1;
    case Unknown =>
      fault := Some(InvalidOption(args[sp]));
    case Separator =>
      sp, opts, fault := ParseSeparator(c, args, sp0);
    case Plain =>
      sp, opts, fault := ParsePlain(c, args, sp0);
  }

  method ParseSeparator(c: Call, args: seq<string>, sp0: nat) returns (sp: nat, opts: seq<Opt>, fault: Option<Fault>)
    requires sp0 < |args|
    ensures var step := SeparatorStep(c, args[sp0..]);
            if step.Failed? then fault == Some(step.fault) && opts == []
            else fault == None && sp == sp0 + step.n && opts == step.opts
  {
    sp, opts, fault := sp0, [], None;
    if c.pseudos {
      sp := sp + 1;
      if sp == |args| {
        return sp, [], Some(MustHaveArgument(args[sp - 1]));
      }
      sp, opts := TakeJobArgs(args, sp);
      assert args[sp0..][1..] == args[sp0 + 1..];
    } else {
      opts := [Plainly(Other("--"), None)];
      sp := sp + 1;
    }
  }

  /** A script with its arguments, job ids for qalter, or an operand without meaning. */
  method ParsePlain(c: Call, args: seq<string>, sp0: nat) returns (sp: nat, opts: seq<Opt>, fault: Option<Fault>)
    requires sp0 < |args|
    ensures var step := PlainStep(c, args[sp0..]);
            if step.Failed? then fault == Some(step.fault) && opts == []
            else fault == None && sp == sp0 + step.n && opts == step.opts
  {
    sp, opts, fault := sp0, [], None;
    if !c.pseudos {
      opts := [WithString(Other(""), args[sp])];
      sp := sp + 1;
    } else if !c.qalter {
      var more;
      sp, more := TakeJobArgs(args, sp + 1);
      opts := [WithString(Script, args[sp0])] + more;
      assert args[sp0..][1..] == args[sp0 + 1..];
    } else {
      var ids := c.parsers.jobIds(args[sp]);
      if ids == None {
        return sp, [], Some(BadArgument("", args[sp]));
      }
      opts := [Plainly(Other("jobid"), Some(args[sp])).(list := ids.value)];
      sp := sp + 1;
    }
  }

  /** Takes all remaining arguments as job arguments. */
  method TakeJobArgs(args: seq<string>, from: nat) returns (sp: nat, opts: seq<Opt>)
    requires from <= |args|
    ensures sp == |args| && opts == JobArgs(args[from..])
  {
    sp, opts := from, [];
    while sp < |args|
      invariant from <= sp <= |args| && |opts| == sp - from
      invariant forall i :: 0 <= i < |opts| ==> opts[i] == WithString(JobArg, args[from + i])
    {
      opts := opts + [WithString(JobArg, args[sp])];
      sp := sp + 1;
    }
  }

  /** Reads a whole command line and appends its options. */
  method ParseCommandLine(c: Call, args: seq<string>, before: seq<Opt>)
    returns (cmdline: seq<Opt>, fault: Option<Fault>)
    ensures fault == FaultOf(c, args, 0)
    ensures var bs := Blocks(c, args, 0);
            cmdline == before + OptsOf(bs) + if fault == None then DefaultHold(c, HoldGiven(c, bs)) else []
  {
    hide KindOf, StepOf, Blocks, FaultOf, OptsOf, HoldGiven, DefaultHold;
    var sp, register, isHold := 0, 0, false;
    cmdline := before;
    ghost var bs := Blocks(c, args, 0);
    NothingAdded(args);
    while sp < |args|
      invariant sp <= |args|
      invariant FaultOf(c, args[sp..], register) == FaultOf(c, args, 0)
      invariant cmdline + OptsOf(Blocks(c, args[sp..], register)) == before + OptsOf(bs)
      invariant HoldGiven(c, bs) <==> isHold || HoldGiven(c, Blocks(c, args[sp..], register))
      decreases |args| - sp
    {
      var kind := KindOf(c.qalter, args[sp]);
      var next, opts;
      next, opts, fault := ParseBlock(c, args, sp, kind, register);
      BlocksStep(c, args, sp, register);
      if fault != None {
        NoBlocks(cmdline);
        return;
      }
      Reassociate(cmdline, opts, OptsOf(Blocks(c, args[next..], NextRegister(kind, register))));
      cmdline := cmdline + opts;
      sp := next;
      if kind == Hold {
        isHold := true;
      }
      if kind == Flag(hard_OPT) {
        register := 1;
      } else if kind == Flag(soft_OPT) {
        register := 2;
      }
    }
    fault := None;
    NoMoreBlocks(c, register);
    assert args[sp..] == [];
    NoBlocks(cmdline);
    var hold := AddDefaultHold(c, isHold);
    cmdline := cmdline + hold;
  }

  method AddDefaultHold(c: Call, isHold: bool) returns (opts: seq<Opt>)
    ensures opts == DefaultHold(c, isHold)
  {
    opts := [];
    if !isHold {
      if c.program == QHOLD {
        opts := [HoldOpt({TARGET_USER}, "u")];
      } else if c.program == QRLS {
        opts := [HoldOpt({COMMAND_SUB, TARGET_USER}, "u")];
      }
    }
  }

  lemma NoBlocks(cmdline: seq<Opt>)
    ensures cmdline + OptsOf([]) == cmdline && cmdline + [] == cmdline
  {
  }

  lemma NoMoreBlocks(c: Call, register: int)
    ensures Blocks(c, [], register) == [] && FaultOf(c, [], register) == None && !HoldGiven(c, [])
  {
  }

  lemma BlocksStep(c: Call, args: seq<string>, sp: nat, register: int)
    requires sp < |args|
    ensures var kind := KindOf(c.qalter, args[sp]);
            var step := StepOf(c, kind, args[sp..], register);
            var bs := Blocks(c, args[sp..], register);
            if step.Failed? then
              bs == [] && !HoldGiven(c, bs) && FaultOf(c, args[sp..], register) == Some(step.fault)
            else
              var rest := args[sp + step.n..];
              var tail := Blocks(c, rest, NextRegister(kind, register));
              && OptsOf(bs) == step.opts + OptsOf(tail)
              && FaultOf(c, args[sp..], register) == FaultOf(c, rest, NextRegister(kind, register))
              && (HoldGiven(c, bs) <==> kind == Hold || HoldGiven(c, tail))
  {
    hide KindOf, StepOf;
    var kind := KindOf(c.qalter, args[sp]);
    var step := StepOf(c, kind, args[sp..], register);
    if step.Took? {
      SliceOfSlice(args, sp, step.n);
      var tail := Blocks(c, args[sp + step.n..], NextRegister(kind, register));
      var b := Block(args[sp..][..step.n], step.opts);
      Rejoined([b], tail);
      HoldInFront(c, b, tail);
    }
  }

  lemma HoldInFront(c: Call, b: Block, tail: seq<Block>)
    ensures HoldGiven(c, [b] + tail) <==> StartsHold(c, b) || HoldGiven(c, tail)
  {
    Rejoined([b], tail);
  }

  // ----- what the blocks are -----

  /** Without a fault the blocks cut the whole command line into consecutive pieces; with one, a part of it. */
  lemma {:induction false} BlocksCover(c: Call, args: seq<string>, register: int)
    ensures var taken := ArgsOf(Blocks(c, args, register));
            && taken <= args && (taken == args <==> FaultOf(c, args, register) == None)
    decreases |args|
  {
    if args != [] {
      hide KindOf, StepOf;
      var kind := KindOf(c.qalter, args[0]);
      var step := StepOf(c, kind, args, register);
      if step.Took? {
        var rest := args[step.n..];
        var tail := Blocks(c, rest, NextRegister(kind, register));
        BlocksCover(c, rest, NextRegister(kind, register));
        Rejoined([Block(args[..step.n], step.opts)], tail);
        Split(args, step.n);
        PrefixBehind(args[..step.n], ArgsOf(tail), rest);
      }
    }
  }

  lemma PrefixBehind<T>(a: seq<T>, b: seq<T>, c: seq<T>)
    requires b <= c
    ensures a + b <= a + c && (a + b == a + c <==> b == c)
  {
    Rejoined(a, b);
    Rejoined(a, c);
  }

  /** The arguments not yet in one of the first i blocks. */
  function Remaining(c: Call, args: seq<string>, register: int, i: nat): seq<string>
    requires i <= |Blocks(c, args, register)|
    ensures |Remaining(c, args, register, i)| <= |args|
    decreases i
  {
    if i == 0 then args
    else
      var kind := KindOf(c.qalter, args[0]);
      var step := StepOf(c, kind, args, register);
      Remaining(c, args[step.n..], NextRegister(kind, register), i - 1)
  }

  /** The register as the last -hard or -soft block before leaves it. */
  function Register(c: Call, bs: seq<Block>, register: int): int {
    if bs == [] then register
    else
      var last := bs[|bs| - 1];
      if last.args != [] && KindOf(c.qalter, last.args[0]) == Flag(hard_OPT) then 1
      else if last.args != [] && KindOf(c.qalter, last.args[0]) == Flag(soft_OPT) then 2
      else Register(c, bs[..|bs| - 1], register)
  }

  lemma {:induction false} RegisterInFront(c: Call, b: Block, bs: seq<Block>, register: int)
    requires b.args != []
    ensures Register(c, [b] + bs, register)
            == Register(c, bs, NextRegister(KindOf(c.qalter, b.args[0]), register))
    decreases bs
  {
    hide KindOf;
    if bs == [] {
      assert [b] + bs == [b];
      assert [b][..0] == [];
    } else {
      var init := bs[..|bs| - 1];
      assert ([b] + bs)[..|bs|] == [b] + init;
      RegisterInFront(c, b, init, register);
    }
  }

  /** Each block is made by reading what remains, with the register of the last -hard or -soft before it; it has its
      first argument and exactly those that belong to it. */
  lemma {:induction false} BlockIsStep(c: Call, args: seq<string>, register: int, i: nat)
    requires i < |Blocks(c, args, register)|
    ensures var bs := Blocks(c, args, register);
            var rest := Remaining(c, args, register, i);
            && rest != []
            && bs[i].args <= rest && |bs[i].args| == 1 + Arity(c, rest)
            && StepOf(c, KindOf(c.qalter, rest[0]), rest, Register(c, bs[..i], register))
               == Took(|bs[i].args|, bs[i].opts)
    decreases i
  {
    hide KindOf, StepOf, Arity;
    var kind := KindOf(c.qalter, args[0]);
    var step := StepOf(c, kind, args, register);
    var b := Block(args[..step.n], step.opts);
    var tail := Blocks(c, args[step.n..], NextRegister(kind, register));
    var bs := Blocks(c, args, register);
    assert bs == [b] + tail;
    if i == 0 {
      StepTakesArity(c, args, register);
      assert bs[..0] == [];
    } else {
      BlockIsStep(c, args[step.n..], NextRegister(kind, register), i - 1);
      assert bs[..i] == [b] + tail[..i - 1];
      RegisterInFront(c, b, tail[..i - 1], register);
    }
  }

  /** Every -l and -q carries 0, 1 or 2 as there was no -hard or -soft before it, or the last one was -hard or -soft. */
  lemma RequestsCarryRegister(c: Call, args: seq<string>, i: nat)
    requires i < |Blocks(c, args, 0)|
    ensures var bs := Blocks(c, args, 0);
            && bs[i].args != []
            && (KindOf(c.qalter, bs[i].args[0]) in {Valued(l_OPT), Valued(q_OPT)} ==>
                  |bs[i].opts| == 1 && bs[i].opts[0].i == Register(c, bs[..i], 0)
                  && bs[i].opts[0].sw == KindOf(c.qalter, bs[i].args[0]).sw
                  && |bs[i].args| == 2 && bs[i].opts[0].text == Some(bs[i].args[1]))
  {
    hide KindOf, Blocks, Register;
    BlockIsStep(c, args, 0, i);
  }

  /** Every switch with a plain value or an answer has one option: of that switch, with its argument as text, and with
      the answer as its number, where -r counts no as 2; a flag has one option and no text. */
  lemma BlockHasItsOption(c: Call, args: seq<string>, register: int, i: nat)
    requires i < |Blocks(c, args, register)|
    ensures var b := Blocks(c, args, register)[i];
            && b.args != []
            && match KindOf(c.qalter, b.args[0])
               case Flag(sw) => |b.args| == 1 && |b.opts| == 1 && b.opts[0].sw == sw && b.opts[0].text == None
               case Valued(sw) =>
                 OneOption(b, sw) && (sw == masterq_OPT ==> b.opts[0].i == 0) && HasValue(c.parsers, b, sw)
               case YesNo(sw) => OneOption(b, sw) && Answer(b.args[1]) == Some(b.opts[0].i == 1) && b.opts[0].i < 2
               case Restart => OneOption(b, r_OPT) && Answer(b.args[1]) == Some(b.opts[0].i == 1) && b.opts[0].i > 0
               case _ => true
  {
    hide KindOf, Blocks, Register, Answer;
    BlockIsStep(c, args, register, i);
  }

  /** The option has what the parser of the switch makes of the argument. */
  predicate HasValue(p: Parsers, b: Block, sw: Switch)
    requires |b.args| == 2 && |b.opts| == 1
  {
    var e := p.value(sw, b.args[1]);
    && e != None && b.opts[0].list == e.value.list && b.opts[0].s == e.value.s && b.opts[0].u == e.value.u
    && b.opts[0].l == e.value.l && b.opts[0].flags == e.value.flags && b.opts[0].argtype == e.value.argtype
    && (sw !in {l_OPT, q_OPT, masterq_OPT} ==> b.opts[0].i == e.value.i)
  }

  predicate OneOption(b: Block, sw: Switch) {
    |b.args| == 2 && |b.opts| == 1 && b.opts[0].sw == sw && b.opts[0].text == Some(b.args[1])
  }

  lemma LoneDashIsUnknown(qalter: bool)
    ensures KindOf(qalter, "-") == Unknown
  {
  }

  /** No block starts with a lone dash, and one in front is refused, whatever the mode. */
  lemma LoneDashIsRefused(c: Call, args: seq<string>, register: int, i: nat)
    ensures args != [] && args[0] == "-" ==> FaultOf(c, args, register) == Some(InvalidOption("-"))
    ensures var bs := Blocks(c, args, register);
            i < |bs| ==> bs[i].args != [] && bs[i].args[0] != "-"
  {
    hide KindOf;
    LoneDashIsUnknown(c.qalter);
    if i < |Blocks(c, args, register)| {
      BlockIsStep(c, args, register, i);
    }
  }
}
