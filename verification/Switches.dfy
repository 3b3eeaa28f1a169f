/** How switches are spelled: which string is read as which switch. */
module Switches {
  import opened Optional
  import opened OptionList
  import opened Seqs
  import opened Tokenizer

  /** Switches that are read but not known to the job parser, and plain arguments. */
  predicate OtherName(name: string) {
    || name == "-cat" || name == "-cell" || name == "-explain" || name == "-xml" || name == "-d" || name == "-display"
    || name == "-he" || name == "-ot" || name == "-sync" || name == "-uall" || name == "-verbose" || name == "-inherit"
    || name == "-suspend_remote" || name == "-nostdin" || name == "-noshell"
    || name == "--" || name == "" || name == "jobid"
  }

  // ----- known switches have different strings -----

  /** The known switch with a string of this length, second and third character. */
  function SwitchAt(length: nat, second: char, third: char): Switch {
    if length == 2 then
      if second == 'a' then a_OPT else if second == 'A' then A_OPT else if second == 'b' then b_OPT
      else if second == 'c' then c_OPT else if second == 'C' then C_OPT else if second == 'e' then e_OPT
      else if second == 'h' then h_OPT else if second == 'i' then i_OPT else if second == 'j' then j_OPT
      else if second == 'l' then l_OPT else if second == 'm' then m_OPT else if second == 'M' then M_OPT
      else if second == 'N' then N_OPT else if second == 'o' then o_OPT else if second == 'p' then p_OPT
      else if second == 'P' then P_OPT else if second == 'q' then q_OPT else if second == 'r' then r_OPT
      else if second == 'R' then R_OPT else if second == 'S' then S_OPT else if second == 't' then t_OPT
      else if second == 'u' then u_OPT else if second == 'v' then v_OPT else if second == 'V' then V_OPT
      else if second == 'w' then w_OPT
      else Script
    else LongSwitchAt(length, second, third)
  }

  function LongSwitchAt(length: nat, second: char, third: char): Switch {
    if length == 3 then
      if second == 'a' && third == 'c' then ac_OPT else if second == 'a' && third == 'r' then ar_OPT
      else if second == 'd' && third == 'c' then dc_OPT else if second == 'd' && third == 'l' then dl_OPT
      else if second == 'j' && third == 's' then js_OPT else if second == 'p' && third == 'e' then pe_OPT
      else if second == 's' && third == 'c' then sc_OPT else if second == 't' && third == 'c' then tc_OPT
      else if second == 'w' && third == 'd' then wd_OPT
      else Script
    else if length == 4 then
      if second == 'j' && third == 'i' then jid_OPT else if second == 'j' && third == 's' then jsv_OPT
      else if second == 'n' && third == 'o' then now_OPT else if second == 'p' && third == 't' then pty_OPT
      else Script
    else if length == 5 then
      if second == 'c' && third == 'k' then ckpt_OPT else if second == 'h' && third == 'a' then hard_OPT
      else if second == 'h' && third == 'e' then help_OPT else if second == 's' && third == 'o' then soft_OPT
      else Script
    else if length == 6 then
      if second == 'c' && third == 'l' then clear_OPT else if second == 's' && third == 'h' then shell_OPT
      else if second == 't' && third == 'e' then terse_OPT
      else Script
    else if length == 7 then
      if second == 'n' && third == 'o' then notify_OPT else if second == 'v' && third == 'e' then verify_OPT
      else Script
    else if length == 8 then
      if second == 'b' && third == 'i' then binding_OPT else if second == 'm' && third == 'a' then masterq_OPT
      else Script
    else if length == 9 then hold_jid_OPT
    else if length == 12 then hold_jid_ad_OPT
    else Script
  }

  lemma NameTells(sw: Switch)
    requires !sw.Other? && Dashed(sw)
    ensures |NameOf(sw)| > 1 && NameOf(sw)[0] == '-'
    ensures SwitchAt(|NameOf(sw)|, NameOf(sw)[1], if |NameOf(sw)| > 2 then NameOf(sw)[2] else '-') == sw
  {
  }

  /** Other strings than those of known switches are not found by length and characters. */
  lemma OtherNameTells(name: string)
    requires OtherName(name) || name == "-cwd" || name == "-@"
    ensures |name| > 1 && name[0] == '-' ==>
              SwitchAt(|name|, name[1], if |name| > 2 then name[2] else '-') == Script
  {
  }

  lemma NotKnown(known: Switch, name: string)
    requires !known.Other? && (OtherName(name) || name == "-cwd" || name == "-@")
    ensures NameOf(known) != name
  {
    hide NameOf, SwitchAt;
    if Dashed(known) {
      NameTells(known);
      OtherNameTells(name);
    } else {
      PseudoName(known);
    }
  }

  lemma PseudoName(known: Switch)
    requires !known.Other? && !Dashed(known)
    ensures var name := NameOf(known); |name| > 5 && name[0] != '-'
  {
  }

  /** No two known switches have the same string. */
  lemma NamesDiffer(a: Switch, b: Switch)
    requires !a.Other? && Dashed(a) && !b.Other? && Dashed(b)
    ensures NameOf(a) == NameOf(b) <==> a == b
  {
    hide NameOf, SwitchAt;
    NameTells(a);
    NameTells(b);
  }

  // ----- what is read as which switch -----

  /** How a known switch is read. */
  function TakenAs(sw: Switch): Kind {
    match sw
    case clear_OPT | hard_OPT | help_OPT | notify_OPT | soft_OPT | terse_OPT | verify_OPT => Flag(sw)
    case b_OPT | j_OPT | now_OPT | R_OPT | shell_OPT | pty_OPT => YesNo(sw)
    case r_OPT => Restart
    case h_OPT => Hold
    case pe_OPT => ParallelEnv
    case binding_OPT => Binding
    case V_OPT => Environment
    case _ => Valued(sw)
  }

  predicate DashedName(t: string) {
    |t| > 1 && t[0] == '-' && t[1] != '-'
  }

  /** A switch is read from its own string, in its own way; and -cwd is the flag form of -wd. */
  predicate SpelledAs(kind: Kind, sw: Switch, t: string) {
    || (NameOf(sw) == t && if sw.Other? then OtherName(t) && DashedName(t) else Dashed(sw) && kind == TakenAs(sw))
    || (kind == Flag(wd_OPT) && t == "-cwd")
  }

  /** The strings of each kind. */
  predicate Spelled(kind: Kind, t: string) {
    match kind
    case Flag(sw) => SpelledAs(kind, sw, t)
    case Valued(sw) => SpelledAs(kind, sw, t)
    case YesNo(sw) => SpelledAs(kind, sw, t)
    case Restart => t == "-r"
    case Hold => t == "-h"
    case ParallelEnv => t == "-pe"
    case Binding => t == "-binding"
    case Environment => t == "-V"
    case File => t == "-@"
    case Unknown => t != "" && t[0] == '-' && t != "--"
    case Separator => t == "--"
    case Plain => t == "" || t[0] != '-'
  }

  lemma KindsFromA(qalter: bool, t: string)
    ensures var kind, later := KindOf(qalter, t), KindFromCell(qalter, t); kind == later || Spelled(kind, t)
  {
    hide KindFromCell;
  }

  lemma KindsFromCell(qalter: bool, t: string)
    ensures var kind, later := KindFromCell(qalter, t), KindFromDc(qalter, t); kind == later || Spelled(kind, t)
  {
    hide KindFromDc;
  }

  lemma KindsFromDc(qalter: bool, t: string)
    ensures var kind, later := KindFromDc(qalter, t), KindFromHelp(qalter, t); kind == later || Spelled(kind, t)
  {
    hide KindFromHelp;
  }

  lemma KindsFromHelp(qalter: bool, t: string)
    ensures var kind, later := KindFromHelp(qalter, t), KindFromMasterq(qalter, t); kind == later || Spelled(kind, t)
  {
    hide KindFromMasterq;
  }

  lemma KindsFromMasterq(qalter: bool, t: string)
    ensures var kind, later := KindFromMasterq(qalter, t), KindFromP(qalter, t); kind == later || Spelled(kind, t)
  {
    hide KindFromP;
  }

  lemma KindsFromP(qalter: bool, t: string)
    ensures var kind, later := KindFromP(qalter, t), KindFromSoft(qalter, t); kind == later || Spelled(kind, t)
  {
    hide KindFromSoft;
  }

  lemma KindsFromSoft(qalter: bool, t: string)
    ensures var kind, later := KindFromSoft(qalter, t), KindFromTerse(qalter, t); kind == later || Spelled(kind, t)
  {
    hide KindFromTerse;
  }

  lemma KindsFromTerse(qalter: bool, t: string)
    ensures var kind, later := KindFromTerse(qalter, t), KindFromVerbose(qalter, t); kind == later || Spelled(kind, t)
  {
    hide KindFromVerbose;
  }

  lemma KindsFromVerbose(qalter: bool, t: string)
    ensures var kind, later := KindFromVerbose(qalter, t), KindFromSuspendRemote(t);
            kind == later || Spelled(kind, t)
  {
    hide KindFromSuspendRemote;
  }

  lemma KindsFromSuspendRemote(t: string)
    ensures var kind, later := KindFromSuspendRemote(t), KindOfOthers(t); kind == later || Spelled(kind, t)
  {
    hide KindOfOthers;
  }

  lemma KindsOfOthers(t: string)
    ensures Spelled(KindOfOthers(t), t)
  {
  }

  /** Every string is read as what it spells. */
  lemma KindIsSpelled(qalter: bool, t: string)
    ensures Spelled(KindOf(qalter, t), t)
  {
    hide KindOf, KindFromCell, KindFromDc, KindFromHelp, KindFromMasterq, KindFromP, KindFromSoft, KindFromTerse,
         KindFromVerbose, KindFromSuspendRemote, KindOfOthers, Spelled;
    KindsFromA(qalter, t);
    KindsFromCell(qalter, t);
    KindsFromDc(qalter, t);
    KindsFromHelp(qalter, t);
    KindsFromMasterq(qalter, t);
    KindsFromP(qalter, t);
    KindsFromSoft(qalter, t);
    KindsFromTerse(qalter, t);
    KindsFromVerbose(qalter, t);
    KindsFromSuspendRemote(t);
    KindsOfOthers(t);
  }

  // ----- every known switch is read -----

  lemma UnknownFromA(qalter: bool, t: string)
    ensures KindOf(qalter, t) == Unknown ==>
              KindFromCell(qalter, t) == Unknown && t != "-a" && t != "-A" && t != "-ar" && t != "-ac"
              && t != "-binding" && t != "-c" && (qalter || t != "-b")
  {
    hide KindFromCell;
  }

  lemma UnknownFromCell(qalter: bool, t: string)
    ensures KindFromCell(qalter, t) == Unknown ==>
              KindFromDc(qalter, t) == Unknown && t != "-ckpt" && t != "-clear" && t != "-C"
  {
    hide KindFromDc;
  }

  lemma UnknownFromDc(qalter: bool, t: string)
    ensures KindFromDc(qalter, t) == Unknown ==>
              KindFromHelp(qalter, t) == Unknown && t != "-dc" && t != "-dl" && t != "-e" && t != "-i" && t != "-h"
              && t != "-hard"
  {
    hide KindFromHelp;
  }

  lemma UnknownFromHelp(qalter: bool, t: string)
    ensures KindFromHelp(qalter, t) == Unknown ==>
              KindFromMasterq(qalter, t) == Unknown && t != "-help" && t != "-hold_jid" && t != "-hold_jid_ad"
              && t != "-j" && t != "-js" && t != "-jsv" && t != "-l" && t != "-m"
  {
    hide KindFromMasterq;
  }

  lemma UnknownFromMasterq(qalter: bool, t: string)
    ensures KindFromMasterq(qalter, t) == Unknown ==>
              KindFromP(qalter, t) == Unknown && t != "-masterq" && t != "-M" && t != "-N" && t != "-notify"
              && t != "-now" && t != "-o"
  {
    hide KindFromP;
  }

  lemma UnknownFromP(qalter: bool, t: string)
    ensures KindFromP(qalter, t) == Unknown ==>
              KindFromSoft(qalter, t) == Unknown && t != "-p" && t != "-P" && t != "-pe" && t != "-q" && t != "-r"
              && t != "-R" && t != "-sc"
  {
    hide KindFromSoft;
  }

  lemma UnknownFromSoft(qalter: bool, t: string)
    ensures KindFromSoft(qalter, t) == Unknown ==>
              KindFromTerse(qalter, t) == Unknown && t != "-soft" && t != "-S" && t != "-t" && t != "-tc"
              && (qalter || t != "-shell")
  {
    hide KindFromTerse;
  }

  lemma UnknownFromTerse(qalter: bool, t: string)
    ensures KindFromTerse(qalter, t) == Unknown ==>
              KindFromVerbose(qalter, t) == Unknown && t != "-terse" && t != "-u" && t != "-v" && t != "-verify"
              && t != "-V" && t != "-w" && t != "-wd"
  {
    hide KindFromVerbose;
  }

  lemma UnknownFromVerbose(qalter: bool, t: string)
    ensures KindFromVerbose(qalter, t) == Unknown ==>
              t != "-pty"
  {
  }

  lemma Recognised(qalter: bool, sw: Switch)
    requires !sw.Other? && Dashed(sw) && sw != jid_OPT && (qalter ==> sw != b_OPT && sw != shell_OPT)
    ensures KindOf(qalter, NameOf(sw)) != Unknown
  {
    hide KindOf, KindFromCell, KindFromDc, KindFromHelp, KindFromMasterq, KindFromP, KindFromSoft, KindFromTerse,
         KindFromVerbose;
    UnknownFromA(qalter, NameOf(sw));
    UnknownFromCell(qalter, NameOf(sw));
    UnknownFromDc(qalter, NameOf(sw));
    UnknownFromHelp(qalter, NameOf(sw));
    UnknownFromMasterq(qalter, NameOf(sw));
    UnknownFromP(qalter, NameOf(sw));
    UnknownFromSoft(qalter, NameOf(sw));
    UnknownFromTerse(qalter, NameOf(sw));
    UnknownFromVerbose(qalter, NameOf(sw));
  }

  lemma SpecialNames()
    ensures NameOf(r_OPT) == "-r" && NameOf(h_OPT) == "-h" && NameOf(pe_OPT) == "-pe"
    ensures NameOf(binding_OPT) == "-binding" && NameOf(V_OPT) == "-V"
  {
  }

  /** The switch that a kind is for, and the string it has. */
  function SwitchOf(kind: Kind): Option<Switch> {
    match kind
    case Flag(sw) => Some(sw)
    case Valued(sw) => Some(sw)
    case YesNo(sw) => Some(sw)
    case Restart => Some(r_OPT)
    case Hold => Some(h_OPT)
    case ParallelEnv => Some(pe_OPT)
    case Binding => Some(binding_OPT)
    case Environment => Some(V_OPT)
    case _ => None
  }

  lemma SwitchIsSpelled(qalter: bool, t: string)
    ensures var kind := KindOf(qalter, t);
            && (SwitchOf(kind) != None ==>
                  NameOf(SwitchOf(kind).value) == t || (kind == Flag(wd_OPT) && t == "-cwd"))
            && (SwitchOf(kind) != None && !SwitchOf(kind).value.Other? ==>
                  Dashed(SwitchOf(kind).value) && kind in {TakenAs(SwitchOf(kind).value), Flag(wd_OPT)})
            && (SwitchOf(kind) != None && SwitchOf(kind).value.Other? ==> OtherName(t) && DashedName(t))
  {
    hide KindOf, NameOf, OtherName;
    SpecialNames();
    KindIsSpelled(qalter, t);
  }

  /** The strings of a switch: its own, and -cwd for -wd. */
  predicate Spells(sw: Switch, t: string) {
    t == NameOf(sw) || (sw == wd_OPT && t == "-cwd")
  }

  /** A string is read as a known switch exactly if it spells it, but what is not known in the mode. */
  lemma KindTells(qalter: bool, t: string, sw: Switch)
    requires !sw.Other? && Dashed(sw)
    ensures SwitchOf(KindOf(qalter, t)) == Some(sw) ==> Spells(sw, t)
    ensures Spells(sw, t) ==> SwitchOf(KindOf(qalter, t)) == Some(sw) || KindOf(qalter, t) == Unknown
  {
    hide KindOf, NameOf, OtherName, SwitchAt, TakenAs;
    var kind := KindOf(qalter, t);
    SwitchIsSpelled(qalter, t);
    if Spells(sw, t) && kind != Unknown {
      SpellsOnly(qalter, t, sw);
    }
  }

  lemma SpellsOnly(qalter: bool, t: string, sw: Switch)
    requires !sw.Other? && Dashed(sw) && Spells(sw, t) && KindOf(qalter, t) != Unknown
    ensures SwitchOf(KindOf(qalter, t)) == Some(sw)
  {
    hide KindOf, NameOf, OtherName, SwitchAt, TakenAs;
    var kind := KindOf(qalter, t);
    KindIsSpelled(qalter, t);
    SwitchIsSpelled(qalter, t);
    DashedString(sw, t);
    if SwitchOf(kind) != None {
      var other := SwitchOf(kind).value;
      NotKnown(sw, "-cwd");
      if other.Other? {
        OtherIsNot(sw, t);
      } else {
        NotKnown(other, "-cwd");
        NamesDiffer(other, sw);
      }
    }
  }

  lemma DashedString(sw: Switch, t: string)
    requires !sw.Other? && Dashed(sw) && Spells(sw, t)
    ensures |t| > 1 && t[0] == '-' && t != "--" && t != "-@"
  {
    hide NameOf, SwitchAt, OtherName;
    NameTells(sw);
    NotKnown(sw, "-@");
    NoDashes(sw);
  }

  lemma NoDashes(sw: Switch)
    requires !sw.Other?
    ensures NameOf(sw) != "--"
  {
    hide NameOf;
    NotKnown(sw, "--");
  }

  lemma OtherIsNot(sw: Switch, t: string)
    requires !sw.Other? && OtherName(t)
    ensures !Spells(sw, t)
  {
    hide NameOf;
    NotKnown(sw, t);
  }

  /** Every known switch but -jid is read from its string as that switch, for qalter all but -b and -shell, too. */
  lemma KnownIsTaken(qalter: bool, sw: Switch)
    requires !sw.Other? && Dashed(sw) && sw != jid_OPT && (qalter ==> sw != b_OPT && sw != shell_OPT)
    ensures KindOf(qalter, NameOf(sw)) == TakenAs(sw)
  {
    hide KindOf, NameOf, OtherName;
    var t := NameOf(sw);
    Recognised(qalter, sw);
    SpellsOnly(qalter, t, sw);
    SwitchIsSpelled(qalter, t);
    NotKnown(sw, "-cwd");
    KindIsSpelled(qalter, t);
  }

  // ----- arguments that are no switches -----

  lemma TwoDashes(qalter: bool)
    ensures KindOf(qalter, "--") == Separator
  {
  }

  /** What is read as a plain argument does not start with a dash, and only "--" is a separator, so nothing that starts
      with a dash is taken for a script, a job or an operand. */
  lemma DashesAreSwitches(qalter: bool, t: string)
    ensures KindOf(qalter, t) == Plain ==> t == "" || t[0] != '-'
    ensures KindOf(qalter, t) == Separator <==> t == "--"
  {
    hide KindOf;
    KindIsSpelled(qalter, t);
    TwoDashes(qalter);
  }

  /** And nothing else is a switch. */
  lemma UndashedIsPlain(qalter: bool, t: string)
    requires t == "" || t[0] != '-'
    ensures KindOf(qalter, t) == Plain
  {
    hide KindOf, NameOf;
    var kind := KindOf(qalter, t);
    KindIsSpelled(qalter, t);
    SwitchIsSpelled(qalter, t);
    if SwitchOf(kind) != None && !SwitchOf(kind).value.Other? {
      DashedString(SwitchOf(kind).value, NameOf(SwitchOf(kind).value));
    }
  }

  lemma FileKind(qalter: bool)
    ensures KindOf(qalter, "-@") == File
  {
  }

  // ----- what each block is made of -----

  lemma SpecialKinds(qalter: bool)
    ensures KindOf(qalter, "-h") == Hold && KindOf(qalter, "-pe") == ParallelEnv
    ensures KindOf(qalter, "-binding") == Binding && KindOf(qalter, "-V") == Environment
  {
    hide KindOf;
    SpecialNames();
    KnownIsTaken(qalter, h_OPT);
    KnownIsTaken(qalter, pe_OPT);
    KnownIsTaken(qalter, binding_OPT);
    KnownIsTaken(qalter, V_OPT);
  }

  /** -h is a user hold, or for qalter the holds its argument says; -pe has a name and a range, -binding an argument
      behind the kind of binding, -V the environment, and -@ the options of a file. */
  lemma SpecialBlock(c: Call, args: seq<string>, register: int, i: nat)
    requires i < |Blocks(c, args, register)|
    ensures var b, p := Blocks(c, args, register)[i], c.parsers;
            && b.args != []
            && (b.args[0] == "-h" ==>
                  && |b.opts| == 1 && b.opts[0].sw == h_OPT
                  && if c.qalter then |b.args| == 2 && p.hold(b.args[1]) == Some(b.opts[0].flags)
                     else |b.args| == 1 && b.opts[0].flags == {1})
            && (b.args[0] == "-pe" ==>
                  && |b.args| == 3 && |b.opts| == 1 && b.opts[0].sw == pe_OPT
                  && b.opts[0].s == Some(b.args[1]) && b.opts[0].list == p.range(b.args[2]) != None)
            && (b.args[0] == "-binding" ==>
                  && |b.args| > 1 && |b.opts| == 1 && b.opts[0].sw == binding_OPT
                  && (|b.args| == 3 <==> b.args[1] == "set" || b.args[1] == "env" || b.args[1] == "pe")
                  && p.binding(if |b.args| == 3 then b.args[1] + " " + b.args[2] else b.args[1])
                     == Some(b.opts[0].list))
            && (b.args[0] == "-V" ==>
                  |b.args| == 1 && |b.opts| == 1 && b.opts[0].sw == V_OPT && p.environment == Some(b.opts[0].list))
            && (b.args[0] == "-@" ==> |b.args| == 2 && p.file(b.args[1]) == Some(b.opts))
  {
    hide KindOf, Blocks, Register, NameOf;
    BlockIsStep(c, args, register, i);
    SpecialKinds(c.qalter);
    FileKind(c.qalter);
  }

  /** Where pseudo-arguments are made, the first argument without a dash is the script, and all behind it are arguments
      of the job, in order. */
  lemma PlainBlock(c: Call, args: seq<string>, register: int, i: nat)
    requires i < |Blocks(c, args, register)| && c.pseudos && !c.qalter
    ensures var b := Blocks(c, args, register)[i];
            && b.args != []
            && (b.args[0] == "" || b.args[0][0] != '-' ==>
                  && |b.opts| == |b.args| && b.opts[0].sw == Script && b.opts[0].s == Some(b.args[0])
                  && forall k :: 1 <= k < |b.opts| ==> b.opts[k].sw == JobArg && b.opts[k].s == Some(b.args[k]))
  {
    hide KindOf, Blocks, Register;
    BlockIsStep(c, args, register, i);
    var b := Blocks(c, args, register)[i];
    if b.args[0] == "" || b.args[0][0] != '-' {
      UndashedIsPlain(c.qalter, b.args[0]);
    }
  }

  /** For qalter it is a list of jobs. */
  lemma JobsBlock(c: Call, args: seq<string>, register: int, i: nat)
    requires i < |Blocks(c, args, register)| && c.pseudos && c.qalter
    ensures var b := Blocks(c, args, register)[i];
            && b.args != []
            && (b.args[0] == "" || b.args[0][0] != '-' ==>
                  |b.args| == |b.opts| == 1 && c.parsers.jobIds(b.args[0]) == Some(b.opts[0].list))
  {
    hide KindOf, Blocks, Register;
    BlockIsStep(c, args, register, i);
    var b := Blocks(c, args, register)[i];
    if b.args[0] == "" || b.args[0][0] != '-' {
      UndashedIsPlain(c.qalter, b.args[0]);
    }
  }

  /** All behind "--" are arguments of the job, in order. */
  lemma SeparatorBlock(c: Call, args: seq<string>, register: int, i: nat)
    requires i < |Blocks(c, args, register)| && c.pseudos
    ensures var b := Blocks(c, args, register)[i];
            && b.args != []
            && (b.args[0] == "--" ==>
                  && |b.opts| == |b.args| - 1 > 0
                  && forall k :: 0 <= k < |b.opts| ==> b.opts[k].sw == JobArg && b.opts[k].s == Some(b.args[k + 1]))
  {
    hide KindOf, Blocks, Register, NameOf;
    BlockIsStep(c, args, register, i);
    TwoDashes(c.qalter);
  }

  /** qhold gives a user hold, and qrls removes one, if the command line has no -h; others add nothing. */
  lemma DefaultHolds(c: Call, bs: seq<Block>)
    ensures var opts := DefaultHold(c, HoldGiven(c, bs));
            if c.program == OtherProgram || exists i :: 0 <= i < |bs| && bs[i].args != [] && bs[i].args[0] == "-h"
            then opts == []
            else
              && |opts| == 1 && opts[0].sw == h_OPT
              && opts[0].flags == if c.program == QHOLD then {1} else {1, 16}
  {
    hide HoldGiven;
    HoldIsGiven(c, bs);
  }

  lemma {:induction false} HoldIsGiven(c: Call, bs: seq<Block>)
    ensures HoldGiven(c, bs) <==> exists i :: 0 <= i < |bs| && bs[i].args != [] && bs[i].args[0] == "-h"
  {
    hide KindOf;
    if bs != [] {
      HoldIsGiven(c, bs[1..]);
      if bs[0].args != [] {
        KindIsSpelled(c.qalter, bs[0].args[0]);
        SpecialKinds(c.qalter);
      }
      if i :| 0 <= i < |bs[1..]| && bs[1..][i].args != [] && bs[1..][i].args[0] == "-h" {
        assert bs[i + 1].args[0] == "-h";
      }
      if i :| 0 <= i < |bs| && bs[i].args != [] && bs[i].args[0] == "-h" {
        assert i > 0 ==> bs[1..][i - 1].args[0] == "-h";
      }
    }
  }

  // ----- answers and faults -----

  /** Does a string read as the word, whatever the case of its letters? */
  predicate ReadsAs(v: string, word: string) {
    |v| == |word| && forall i :: 0 <= i < |v| ==> v[i] == word[i] || v[i] as int == word[i] as int - 32
  }

  /** Yes is y or yes, no is n or no, in any case; nothing else is an answer. */
  lemma AnswersExactly(v: string)
    ensures Answer(v) == Some(true) <==> ReadsAs(v, "y") || ReadsAs(v, "yes")
    ensures Answer(v) == Some(false) <==> ReadsAs(v, "n") || ReadsAs(v, "no")
  {
    forall c: char
      ensures Lower(c) == 'y' <==> c == 'y' || c as int == 'y' as int - 32
      ensures Lower(c) == 'e' <==> c == 'e' || c as int == 'e' as int - 32
      ensures Lower(c) == 's' <==> c == 's' || c as int == 's' as int - 32
      ensures Lower(c) == 'n' <==> c == 'n' || c as int == 'n' as int - 32
      ensures Lower(c) == 'o' <==> c == 'o' || c as int == 'o' as int - 32
    {
    }
  }

  /** What is left of the command line behind the blocks. */
  function Left(c: Call, args: seq<string>, register: int): seq<string>
    decreases |args|
  {
    if args == [] then []
    else
      var kind := KindOf(c.qalter, args[0]);
      var step := StepOf(c, kind, args, register);
      if step.Failed? then args else Left(c, args[step.n..], NextRegister(kind, register))
  }

  lemma {:induction false} LeftIsBehind(c: Call, args: seq<string>, register: int)
    ensures ArgsOf(Blocks(c, args, register)) + Left(c, args, register) == args
    ensures FaultOf(c, args, register) == None <==> Left(c, args, register) == []
    decreases |args|
  {
    hide KindOf, StepOf;
    if args != [] {
      var kind := KindOf(c.qalter, args[0]);
      var step := StepOf(c, kind, args, register);
      if step.Took? {
        var rest := args[step.n..];
        var tail := Blocks(c, rest, NextRegister(kind, register));
        LeftIsBehind(c, rest, NextRegister(kind, register));
        Rejoined([Block(args[..step.n], step.opts)], tail);
        Reassociate(args[..step.n], ArgsOf(tail), Left(c, rest, NextRegister(kind, register)));
        Split(args, step.n);
      } else {
        NothingAdded(args);
      }
    }
  }

  /** The fault of reading at the start of these arguments, and when there is one. */
  predicate FaultAt(c: Call, args: seq<string>, fault: Fault)
    requires args != []
  {
    var kind, t := KindOf(c.qalter, args[0]), args[0];
    match fault
    case InvalidOption(arg) => arg == t && kind == Unknown
    case MustHaveArgument(arg) =>
      && arg == t && |args| <= 2
      && (|args| == 2 ==> t == "-pe" || (t == "-binding" && BindingType(args[1])))
      && !kind.Flag? && t != "-V" && (t == "-h" ==> c.qalter)
    case BadArgument(arg, val) =>
      && (arg == t || (arg == "" && val == t && kind == Plain && c.qalter && c.parsers.jobIds(t) == None))
      && (kind.Valued? ==> |args| > 1 && val == args[1] && c.parsers.value(kind.sw, args[1]) == None)
      && (kind.YesNo? || t == "-r" ==> |args| > 1 && val == args[1] && Answer(args[1]) == None)
      && (t == "-h" ==> c.qalter && |args| > 1 && val == args[1] && c.parsers.hold(args[1]) == None)
      && (t == "-pe" ==> |args| > 2 && val == args[2] && c.parsers.range(args[2]) == None)
      && (t == "-binding" ==> c.parsers.binding(val) == None)
      && (t == "-V" ==> c.parsers.environment == None)
      && (t == "-@" ==> |args| > 1 && val == args[1] && c.parsers.file(args[1]) == None)
      && !kind.Flag? && kind != Unknown
  }

  /** A command line is only refused for what stands behind its blocks: an unknown option, an argument that is missing,
      or one that its parser refuses. */
  lemma {:induction false} FaultIsFound(c: Call, args: seq<string>, register: int)
    requires FaultOf(c, args, register) != None
    ensures Left(c, args, register) != [] && FaultAt(c, Left(c, args, register), FaultOf(c, args, register).value)
    decreases |args|
  {
    hide KindOf, StepOf, FaultAt;
    var kind := KindOf(c.qalter, args[0]);
    var step := StepOf(c, kind, args, register);
    if step.Took? {
      FaultIsFound(c, args[step.n..], NextRegister(kind, register));
    } else {
      FaultOfStep(c, args, register);
    }
  }

  lemma FaultOfStep(c: Call, args: seq<string>, register: int)
    requires args != [] && StepOf(c, KindOf(c.qalter, args[0]), args, register).Failed?
    ensures FaultAt(c, args, StepOf(c, KindOf(c.qalter, args[0]), args, register).fault)
  {
    hide KindOf, Answer, NameOf, SpelledAs;
    KindIsSpelled(c.qalter, args[0]);
    SpecialKinds(c.qalter);
    FileKind(c.qalter);
    RestartKind(c.qalter);
  }

  lemma RestartKind(qalter: bool)
    ensures KindOf(qalter, "-r") == Restart
  {
    hide KindOf;
    SpecialNames();
    KnownIsTaken(qalter, r_OPT);
  }
}
