/** The values the built job takes from its options, field by field. */
module JobMeaning {
  import opened Machine
  import opened Optional
  import opened OptionList
  import opened JobDefinitions
  import opened JobParser
  import opened JobTheorems
  import opened Seqs

  // ----- switches that overwrite -----

  function BoolOf(e: Opt): bool { e.i != 0 }
  function IntOf(e: Opt): u32 { U32(e.i) }
  function PriorityOf(e: Opt): u32 { U32(1024 + e.i) }
  function PeOf(e: Opt): Pe { Pe(e.s, e.list) }
  function TrueOf(e: Opt): bool { true }

  /** Of every overwriting switch the job takes the last value given behind the last -clear (-tc: given anywhere),
      and keeps its own value if none is given. */
  lemma LastValueWins(job: Job, c: seq<Opt>, env: Env)
    ensures var rest := AfterClear(EarlyRest(c));
            var tail := TailAfterClear(c);
            var j := BuiltJob(job, c, rest, env);
            && j.concurrency == LastOr(UlongOf, job.concurrency, Of(c, tc_OPT))
            && j.executionTime == LastOr(UlongOf, job.executionTime, Of(tail, a_OPT))
            && j.account == LastOr(StringOf, job.account, Of(tail, A_OPT))
            && j.ar == LastOr(UlongOf, job.ar, Of(tail, ar_OPT))
            && j.deadline == LastOr(UlongOf, job.deadline, Of(tail, dl_OPT))
            && j.checkpointName == LastOr(StringOf, job.checkpointName, Of(tail, ckpt_OPT))
            && j.directivePrefix == LastOr(StringOf, job.directivePrefix, Of(tail, C_OPT))
  {
    hide Of, Pick, LastClear, AfterClear, EarlyRest, TailAfterClear, LastOr, Fold, Compressed, ArrayType, OneTask,
         Append, DefaultMail, Requests, WdAfter, FirstOr, U32;
    SeenByHandlers(c, a_OPT);
    SeenByHandlers(c, A_OPT);
    SeenByHandlers(c, ar_OPT);
    SeenByHandlers(c, dl_OPT);
    SeenByHandlers(c, ckpt_OPT);
    SeenByHandlers(c, C_OPT);
    forall v, es { LastUlong(v, es); }
    forall v, es { LastString(v, es); }
  }

  /** The same for the switches that name and rate the job. */
  lemma LastNameWins(job: Job, c: seq<Opt>, env: Env)
    ensures var rest := AfterClear(EarlyRest(c));
            var tail := TailAfterClear(c);
            var j := BuiltJob(job, c, rest, env);
            && j.mergeStderr == LastOr(BoolOf, job.mergeStderr, Of(tail, j_OPT))
            && j.jobName == LastOr(StringOf, job.jobName, Of(tail, N_OPT))
            && j.notify == LastOr(TrueOf, job.notify, Of(tail, notify_OPT))
            && j.priority == LastOr(PriorityOf, 1024, Of(tail, p_OPT))
            && j.jobshare == LastOr(UlongOf, 0, Of(tail, js_OPT))
            && j.project == LastOr(StringOf, job.project, Of(tail, P_OPT))
            && j.pe == LastOr(PeOf, job.pe, Of(tail, pe_OPT))
  {
    hide Of, Pick, LastClear, AfterClear, EarlyRest, TailAfterClear, LastOr, Fold, Compressed, ArrayType, OneTask,
         Append, DefaultMail, Requests, WdAfter, FirstOr, U32;
    SeenByHandlers(c, j_OPT);
    SeenByHandlers(c, N_OPT);
    SeenByHandlers(c, notify_OPT);
    SeenByHandlers(c, p_OPT);
    SeenByHandlers(c, js_OPT);
    SeenByHandlers(c, P_OPT);
    SeenByHandlers(c, pe_OPT);
    forall v, es { LastUlong(v, es); }
    forall v, es { LastString(v, es); }
    forall v, es { LastBool(v, es); }
    forall v, es { LastTrue(v, es); }
    forall v, es { LastPriority(v, es); }
    forall v, es { LastPe(v, es); }
  }

  /** The same for the remaining overwriting switches. */
  lemma LastSettingWins(job: Job, c: seq<Opt>, env: Env)
    ensures var rest := AfterClear(EarlyRest(c));
            var tail := TailAfterClear(c);
            var j := BuiltJob(job, c, rest, env);
            && j.reserve == LastOr(BoolOf, job.reserve, Of(tail, R_OPT))
            && j.pty == LastOr(IntOf, job.pty, Of(tail, pty_OPT))
            && j.restart == LastOr(IntOf, job.restart, Of(tail, r_OPT))
            && j.verify == LastOr(TrueOf, job.verify, Of(tail, verify_OPT))
            && j.suitableQueues == LastOr(IntOf, job.suitableQueues, Of(tail, w_OPT))
  {
    hide Of, Pick, LastClear, AfterClear, EarlyRest, TailAfterClear, LastOr, Fold, Compressed, ArrayType, OneTask,
         Append, DefaultMail, Requests, WdAfter, FirstOr, U32;
    SeenByHandlers(c, R_OPT);
    SeenByHandlers(c, pty_OPT);
    SeenByHandlers(c, r_OPT);
    SeenByHandlers(c, verify_OPT);
    SeenByHandlers(c, w_OPT);
    forall v, es { LastBool(v, es); }
    forall v, es { LastInt(v, es); }
    forall v, es { LastTrue(v, es); }
  }

  lemma LastUlong(v: u32, es: seq<Opt>)
    ensures Fold(SetUlong, v, es) == LastOr(UlongOf, v, es)
  {
    LastWins(SetUlong, UlongOf, v, es);
  }

  lemma LastString(v: Option<string>, es: seq<Opt>)
    ensures Fold(SetString, v, es) == LastOr(StringOf, v, es)
  {
    LastWins(SetString, StringOf, v, es);
  }

  lemma LastBool(v: bool, es: seq<Opt>)
    ensures Fold(SetBool, v, es) == LastOr(BoolOf, v, es)
  {
    LastWins(SetBool, BoolOf, v, es);
  }

  lemma LastInt(v: u32, es: seq<Opt>)
    ensures Fold(SetInt, v, es) == LastOr(IntOf, v, es)
  {
    LastWins(SetInt, IntOf, v, es);
  }

  lemma LastTrue(v: bool, es: seq<Opt>)
    ensures Fold(SetTrue, v, es) == LastOr(TrueOf, v, es)
  {
    LastWins(SetTrue, TrueOf, v, es);
  }

  lemma LastPriority(v: u32, es: seq<Opt>)
    ensures Fold(StepPriority, v, es) == LastOr(PriorityOf, v, es)
  {
    LastWins(StepPriority, PriorityOf, v, es);
  }

  lemma LastPe(v: Pe, es: seq<Opt>)
    ensures Fold(StepPe, v, es) == LastOr(PeOf, v, es)
  {
    LastWins(StepPe, PeOf, v, es);
  }

  // ----- job type flags -----

  predicate SaysBinary(e: Opt) { e.i == 1 }
  predicate SaysNoShell(e: Opt) { e.i != 1 }
  predicate SaysNow(e: Opt) { e.i != 0 }

  /** The loop of -b sets its flag by the last option and leaves the other flags alone. */
  lemma {:induction false} BinaryLoop(t: set<int>, es: seq<Opt>)
    ensures JOB_TYPE_BINARY in Fold(StepBinary, t, es) <==> LastOr(SaysBinary, JOB_TYPE_BINARY in t, es)
    ensures Fold(StepBinary, t, es) - {JOB_TYPE_BINARY} == t - {JOB_TYPE_BINARY}
    decreases es
  {
    if es != [] {
      BinaryLoop(StepBinary(t, es[0]), es[1..]);
    }
  }

  lemma {:induction false} ShellLoop(t: set<int>, es: seq<Opt>)
    ensures JOB_TYPE_NO_SHELL in Fold(StepShell, t, es) <==> LastOr(SaysNoShell, JOB_TYPE_NO_SHELL in t, es)
    ensures Fold(StepShell, t, es) - {JOB_TYPE_NO_SHELL} == t - {JOB_TYPE_NO_SHELL}
    decreases es
  {
    if es != [] {
      ShellLoop(StepShell(t, es[0]), es[1..]);
    }
  }

  lemma {:induction false} NowLoop(t: set<int>, es: seq<Opt>)
    ensures JOB_TYPE_IMMEDIATE in Fold(StepNow, t, es) <==> LastOr(SaysNow, JOB_TYPE_IMMEDIATE in t, es)
    ensures Fold(StepNow, t, es) - {JOB_TYPE_IMMEDIATE} == t - {JOB_TYPE_IMMEDIATE}
    decreases es
  {
    if es != [] {
      NowLoop(StepNow(t, es[0]), es[1..]);
    }
  }

  lemma BuiltType(job: Job, c: seq<Opt>, rest: seq<Opt>, env: Env)
    ensures var t2 := Fold(StepShell, Fold(StepBinary, job.jobType, Of(c, b_OPT)), Of(c, shell_OPT));
            BuiltJob(job, c, rest, env).jobType
            == Fold(StepNow, if Of(c, t_OPT) == [] then t2 else ArrayType(t2), Of(rest, now_OPT))
  {
    hide Fold, Of, ArrayType, Compress;
  }

  /** The job type of the built job: -b and -shell count wherever they are given, -now behind the last -clear. */
  lemma JobTypeFlags(job: Job, c: seq<Opt>, env: Env)
    ensures var t := BuiltJob(job, c, AfterClear(EarlyRest(c)), env).jobType;
            && (JOB_TYPE_BINARY in t <==> LastOr(SaysBinary, JOB_TYPE_BINARY in job.jobType, Of(c, b_OPT)))
            && (JOB_TYPE_NO_SHELL in t <==> LastOr(SaysNoShell, JOB_TYPE_NO_SHELL in job.jobType, Of(c, shell_OPT)))
            && (JOB_TYPE_ARRAY in t <==> Of(c, t_OPT) != [] || JOB_TYPE_ARRAY in job.jobType)
            && (JOB_TYPE_IMMEDIATE in t
                <==> LastOr(SaysNow, JOB_TYPE_IMMEDIATE in job.jobType, Of(TailAfterClear(c), now_OPT)))
            && (forall flag :: flag !in {JOB_TYPE_BINARY, JOB_TYPE_NO_SHELL, JOB_TYPE_ARRAY, JOB_TYPE_IMMEDIATE} ==>
                  (flag in t <==> flag in job.jobType))
  {
    hide Fold, Of, LastOr, BuiltJob, AfterClear, EarlyRest, TailAfterClear;
    var rest := AfterClear(EarlyRest(c));
    var t0 := job.jobType;
    var t1 := Fold(StepBinary, t0, Of(c, b_OPT));
    var t2 := Fold(StepShell, t1, Of(c, shell_OPT));
    var t3 := if Of(c, t_OPT) == [] then t2 else ArrayType(t2);
    var t4 := Fold(StepNow, t3, Of(rest, now_OPT));
    BuiltType(job, c, rest, env);
    SeenByHandlers(c, now_OPT);
    BinaryLoop(t0, Of(c, b_OPT));
    ShellLoop(t1, Of(c, shell_OPT));
    NowLoop(t3, Of(rest, now_OPT));
    forall flag
      ensures flag != JOB_TYPE_BINARY ==> (flag in t1 <==> flag in t0)
      ensures flag != JOB_TYPE_NO_SHELL ==> (flag in t2 <==> flag in t1)
      ensures flag != JOB_TYPE_IMMEDIATE ==> (flag in t4 <==> flag in t3)
    {
      assert flag != JOB_TYPE_BINARY ==> (flag in t1 <==> flag in t1 - {JOB_TYPE_BINARY});
      assert flag != JOB_TYPE_NO_SHELL ==> (flag in t2 <==> flag in t2 - {JOB_TYPE_NO_SHELL});
      assert flag != JOB_TYPE_IMMEDIATE ==> (flag in t4 <==> flag in t4 - {JOB_TYPE_IMMEDIATE});
    }
  }

  // ----- mail options -----

  ghost function AllFlags(es: seq<Opt>): set<int> {
    if es == [] then {} else es[0].flags + AllFlags(es[1..])
  }

  /** The position of the last -m that says no mail, or -1. */
  ghost function LastNoMail(es: seq<Opt>): (q: int)
    ensures -1 <= q < |es|
    ensures 0 <= q ==> NO_MAIL in es[q].flags
    ensures forall k :: q < k < |es| ==> NO_MAIL !in es[k].flags
  {
    if es == [] then -1
    else if NO_MAIL in es[|es| - 1].flags then |es| - 1
    else LastNoMail(es[..|es| - 1])
  }

  lemma {:induction false} MailLoop(m: set<int>, es: seq<Opt>)
    requires forall k :: 0 <= k < |es| ==> NO_MAIL !in es[k].flags
    ensures Fold(StepMail, m, es) == m + AllFlags(es)
    decreases es
  {
    if es != [] {
      MailLoop(m + es[0].flags, es[1..]);
    }
  }

  /** The mail options are all those given after the last "no mail", with the job's earlier ones if there is none. */
  lemma MailOptions(m: set<int>, es: seq<Opt>)
    ensures var q := LastNoMail(es);
            Fold(StepMail, m, es) == if q < 0 then m + AllFlags(es) else AllFlags(es[q + 1..])
  {
    var q := LastNoMail(es);
    if q < 0 {
      MailLoop(m, es);
    } else {
      var n := Fold(StepMail, m, es[..q]);
      assert es == es[..q] + ([es[q]] + es[q + 1..]);
      FoldConcat(StepMail, m, es[..q], [es[q]] + es[q + 1..]);
      assert ([es[q]] + es[q + 1..])[1..] == es[q + 1..];
      assert StepMail(n, es[q]) == {};
      MailLoop({}, es[q + 1..]);
    }
  }

  lemma BuiltMail(job: Job, c: seq<Opt>, rest: seq<Opt>, env: Env)
    ensures BuiltJob(job, c, rest, env).mailOptions == Fold(StepMail, job.mailOptions, Of(rest, m_OPT))
  {
    hide Fold, Of, ArrayType, Compress, OneTask, Append;
  }

  /** The mail options of the built job are those of -m behind the last -clear and behind its last "no mail". */
  lemma MailOfJob(job: Job, c: seq<Opt>, env: Env)
    ensures var es := Of(TailAfterClear(c), m_OPT);
            var q := LastNoMail(es);
            BuiltJob(job, c, AfterClear(EarlyRest(c)), env).mailOptions
            == if q < 0 then job.mailOptions + AllFlags(es) else AllFlags(es[q + 1..])
  {
    hide BuiltJob, Of, Fold, AfterClear, EarlyRest, TailAfterClear, LastNoMail, AllFlags;
    BuiltMail(job, c, AfterClear(EarlyRest(c)), env);
    SeenByHandlers(c, m_OPT);
    MailOptions(job.mailOptions, Of(TailAfterClear(c), m_OPT));
  }

  // ----- hard and soft requests -----

  /** The options given in soft mode, or those that were not. */
  function InMode(es: seq<Opt>, soft: bool): (r: seq<Opt>)
    ensures forall e :: e in r ==> e in es && (e.i >= 2) == soft
  {
    if es == [] then []
    else (if (es[0].i >= 2) == soft then [es[0]] else []) + InMode(es[1..], soft)
  }

  /** Each side collects the lists of the options of its mode, one behind the other. */
  lemma {:induction false} HardSoftLoop(hs: HardSoft, es: seq<Opt>)
    ensures var r := Fold(StepHardSoft, hs, es);
            && Items(r.hard) == Items(hs.hard) + AllItems(InMode(es, false))
            && Items(r.soft) == Items(hs.soft) + AllItems(InMode(es, true))
    decreases es
  {
    if es == [] {
      NothingAdded(Items(hs.hard));
      NothingAdded(Items(hs.soft));
    } else {
      var e, rest := es[0], es[1..];
      var next := StepHardSoft(hs, e);
      HardSoftLoop(next, rest);
      var soft := e.i >= 2;
      var before := if soft then hs.soft else hs.hard;
      AppendedItems(before, e.list);
      Rejoined([e], InMode(rest, soft));
      NothingAdded(InMode(rest, !soft));
      Reassociate(Items(before), Items(e.list), AllItems(InMode(rest, soft)));
    }
  }

  lemma AppendedItems(l: ItemList, m: ItemList)
    ensures Items(Append(l, m)) == Items(l) + Items(m)
  {
  }

  lemma BuiltQueues(job: Job, c: seq<Opt>, rest: seq<Opt>, env: Env)
    ensures BuiltJob(job, c, rest, env).queues == Fold(StepHardSoft, job.queues, Of(rest, q_OPT))
  {
    hide Fold, Of, ArrayType, Compress, OneTask, Append;
  }

  /** The hard queues of the built job are its own and those of every -q behind the last -clear that is not soft;
      the soft queues likewise. */
  lemma QueuesOfJob(job: Job, c: seq<Opt>, env: Env)
    ensures var es := Of(TailAfterClear(c), q_OPT);
            var j := BuiltJob(job, c, AfterClear(EarlyRest(c)), env);
            && Items(j.queues.hard) == Items(job.queues.hard) + AllItems(InMode(es, false))
            && Items(j.queues.soft) == Items(job.queues.soft) + AllItems(InMode(es, true))
  {
    hide BuiltJob, Of, Fold, AfterClear, EarlyRest, TailAfterClear, InMode, AllItems;
    BuiltQueues(job, c, AfterClear(EarlyRest(c)), env);
    SeenByHandlers(c, q_OPT);
    HardSoftLoop(job.queues, Of(TailAfterClear(c), q_OPT));
  }

  lemma BuiltResources(job: Job, c: seq<Opt>, rest: seq<Opt>, env: Env)
    ensures var r := Fold(StepHardSoft, job.resources, Of(rest, l_OPT));
            BuiltJob(job, c, rest, env).resources == HardSoft(Compressed(r.hard), Compressed(r.soft))
  {
    hide Fold, Of, ArrayType, Compress, OneTask, Append;
  }

  /** Of every resource and mode the built job has one request, the last of its own and those of -l
      behind the last -clear. */
  lemma ResourcesOfJob(job: Job, c: seq<Opt>, env: Env, key: string)
    ensures var es := Of(TailAfterClear(c), l_OPT);
            var r := BuiltJob(job, c, AfterClear(EarlyRest(c)), env).resources;
            && Times(Items(r.hard), Some(key)) <= 1 && Times(Items(r.soft), Some(key)) <= 1
            && Last(Items(r.hard), Some(key))
               == Last(Items(job.resources.hard) + AllItems(InMode(es, false)), Some(key))
            && Last(Items(r.soft), Some(key))
               == Last(Items(job.resources.soft) + AllItems(InMode(es, true)), Some(key))
  {
    hide BuiltJob, Of, Fold, AfterClear, EarlyRest, TailAfterClear, InMode, AllItems, Compress, Last, Times;
    var es := Of(TailAfterClear(c), l_OPT);
    var r := Fold(StepHardSoft, job.resources, es);
    BuiltResources(job, c, AfterClear(EarlyRest(c)), env);
    SeenByHandlers(c, l_OPT);
    HardSoftLoop(job.resources, es);
    CompressedItems(r.hard, key);
    CompressedItems(r.soft, key);
  }

  lemma CompressedItems(l: ItemList, key: string)
    ensures Last(Items(Compressed(l)), Some(key)) == Last(Items(l), Some(key))
    ensures Times(Items(Compressed(l)), Some(key)) <= 1
  {
    if l == None {
      NothingDefined(key);
    } else {
      CompressKeepsLast(l.value, key);
    }
  }

  // ----- lists that are appended -----

  lemma {:induction false} AppendLoop(l: ItemList, es: seq<Opt>)
    ensures Items(Fold(StepAppend, l, es)) == Items(l) + AllItems(es)
    decreases es
  {
    if es == [] {
      NothingAdded(Items(l));
    } else {
      AppendLoop(Append(l, es[0].list), es[1..]);
      AppendedItems(l, es[0].list);
      Reassociate(Items(l), Items(es[0].list), AllItems(es[1..]));
    }
  }

  lemma BuiltContext(job: Job, c: seq<Opt>, rest: seq<Opt>, env: Env)
    ensures BuiltJob(job, c, rest, env).context == Fold(StepAppend, job.context, Pick(rest, Contexts()))
  {
    hide Fold, Of, Pick, ArrayType, Compress, OneTask, Append;
  }

  /** The context of the built job is its own, followed by those of -ac, -dc and -sc behind the last -clear
      in the order in which they are given. */
  lemma ContextOfJob(job: Job, c: seq<Opt>, env: Env)
    ensures Items(BuiltJob(job, c, AfterClear(EarlyRest(c)), env).context)
            == Items(job.context) + AllItems(Pick(TailAfterClear(c), Contexts()))
  {
    hide BuiltJob, Pick, Fold, AfterClear, EarlyRest, TailAfterClear, AllItems;
    BuiltContext(job, c, AfterClear(EarlyRest(c)), env);
    DashedGroups();
    HandlersSee(c, Contexts(), true);
    AppendLoop(job.context, Pick(TailAfterClear(c), Contexts()));
  }

  // ----- checkpointing and the working directory -----

  /** The options with a value of this type. */
  function OfType(es: seq<Opt>, t: ArgType): (r: seq<Opt>)
    ensures forall e :: e in r ==> e in es && e.argtype == t
  {
    if es == [] then []
    else OfType(es[..|es| - 1], t) + if es[|es| - 1].argtype == t then [es[|es| - 1]] else []
  }

  function IntervalOf(e: Opt): u32 { U32(e.l) }

  /** The interval is that of the last -c with one, the occasions those of the last -c with occasions. */
  lemma CheckpointLoop(c: Checkpoint, es: seq<Opt>)
    ensures var r := Fold(StepCheckpoint, c, es);
            && r.interval == LastOr(IntervalOf, c.interval, OfType(es, LongArg))
            && r.attr == LastOr(IntOf, c.attr, OfType(es, IntArg))
  {
    IntervalLoop(c, es);
    OccasionsLoop(c, es);
  }

  lemma {:induction false} IntervalLoop(c: Checkpoint, es: seq<Opt>)
    ensures Fold(StepCheckpoint, c, es).interval == LastOr(IntervalOf, c.interval, OfType(es, LongArg))
  {
    if es != [] {
      IntervalLoop(c, es[..|es| - 1]);
      LastCheckpoint(c, es);
    }
  }

  lemma {:induction false} OccasionsLoop(c: Checkpoint, es: seq<Opt>)
    ensures Fold(StepCheckpoint, c, es).attr == LastOr(IntOf, c.attr, OfType(es, IntArg))
  {
    if es != [] {
      OccasionsLoop(c, es[..|es| - 1]);
      LastCheckpoint(c, es);
    }
  }

  lemma LastCheckpoint(c: Checkpoint, es: seq<Opt>)
    requires es != []
    ensures var n := |es| - 1;
            Fold(StepCheckpoint, c, es) == StepCheckpoint(Fold(StepCheckpoint, c, es[..n]), es[n])
  {
    var n := |es| - 1;
    FoldConcat(StepCheckpoint, c, es[..n], [es[n]]);
    assert es == es[..n] + [es[n]];
  }

  /** Is there an option without a path? */
  predicate AnyHere(es: seq<Opt>) {
    es != [] && (es[0].s == None || AnyHere(es[1..]))
  }

  /** The last -wd or -cwd decides, and no relative one may meet an unknown directory. */
  lemma {:induction false} WdLoop(w: Wd, es: seq<Opt>)
    requires !w.failed
    ensures var r := Fold(StepWd, w, es);
            && (r.failed <==> w.here == None && AnyHere(es))
            && (!r.failed && es != [] ==>
                  r.cwd == (if es[|es| - 1].s == None then w.here else es[|es| - 1].s) && r.aliases == w.known)
            && (es == [] ==> r == w)
    decreases es
  {
    if es != [] {
      var next := StepWd(w, es[0]);
      if next.failed {
        LostStays(next, es[1..]);
      } else {
        WdLoop(next, es[1..]);
      }
    }
  }

  lemma {:induction false} LostStays(w: Wd, es: seq<Opt>)
    requires w.failed
    ensures Fold(StepWd, w, es) == w
    decreases es
  {
    if es != [] {
      LostStays(w, es[1..]);
    }
  }

  // ----- holds -----

  ghost function UserHolds(es: seq<Opt>): nat {
    if es == [] then 0 else (if MINUS_H_TGT_USER in es[0].flags then 1 else 0) + UserHolds(es[1..])
  }

  /** One user hold moves the unheld tasks to the user hold list; from the second on, both lists are empty. */
  lemma {:induction false} HoldLoop(h: Holds, es: seq<Opt>)
    ensures Fold(StepHold, h, es) ==
            if UserHolds(es) == 0 then h else if UserHolds(es) == 1 then Holds(h.none, None) else Holds(None, None)
    decreases es
  {
    if es != [] {
      HoldLoop(StepHold(h, es[0]), es[1..]);
    }
  }

  /** The tasks of the built job are on one of its two hold lists, and on one only,
      exactly when at most one user hold is given behind the last -clear. */
  lemma TasksStayListed(job: Job, c: seq<Opt>, env: Env)
    requires EarlyJob(job, c).structure != None
    ensures var j := BuiltJob(job, c, AfterClear(EarlyRest(c)), env);
            var tasks := EarlyJob(job, c).structure;
            ((j.noHold == tasks && j.userHold == None) || (j.noHold == None && j.userHold == tasks))
            <==> UserHolds(Of(TailAfterClear(c), h_OPT)) <= 1
  {
    var rest := AfterClear(EarlyRest(c));
    var j0 := EarlyJob(job, c);
    BuiltHolds(job, c, rest, env);
    hide BuiltJob, Fold, Of, EarlyJob, AfterClear, EarlyRest, TailAfterClear;
    SeenByHandlers(c, h_OPT);
    HoldLoop(Holds(None, j0.structure), Of(rest, h_OPT));
  }

  /** After -h given twice the tasks of any job are on no list at all. */
  lemma SecondHoldLosesTasks(job: Job, env: Env, hold: Opt)
    requires hold.sw == h_OPT && MINUS_H_TGT_USER in hold.flags
    ensures var c := [hold, hold];
            var j := BuiltJob(job, c, AfterClear(EarlyRest(c)), env);
            EarlyJob(job, c).structure != None && j.noHold == None && j.userHold == None
  {
    hide BuiltJob, Of, Fold, EarlyJob, AfterClear, EarlyRest, TailAfterClear;
    var c := [hold, hold];
    var rest := AfterClear(EarlyRest(c));
    BuiltHolds(job, c, rest, env);
    SeenByHandlers(c, h_OPT);
    HoldLoop(Holds(None, EarlyJob(job, c).structure), Of(rest, h_OPT));
    NoTasksGiven(job, hold);
    TwoHolds(hold);
  }

  lemma NoTasksGiven(job: Job, hold: Opt)
    requires hold.sw == h_OPT
    ensures EarlyJob(job, [hold, hold]).structure != None
  {
    assert [hold] + [hold] == [hold, hold];
    PickConcat([hold], [hold], {t_OPT});
  }

  lemma TwoHolds(hold: Opt)
    requires hold.sw == h_OPT && MINUS_H_TGT_USER in hold.flags
    ensures TailAfterClear([hold, hold]) == [hold, hold]
    ensures UserHolds(Of([hold, hold], h_OPT)) == 2
  {
    assert [hold, hold][..1] == [hold] && [hold, hold][1..] == [hold];
    assert LastClear([hold]) == -1;
    assert LastClear([hold, hold]) == -1;
    assert [hold] + [hold] == [hold, hold];
    PickConcat([hold], [hold], {h_OPT});
    assert UserHolds([hold]) == 1;
  }

  lemma BuiltHolds(job: Job, c: seq<Opt>, rest: seq<Opt>, env: Env)
    ensures var j := BuiltJob(job, c, rest, env);
            Holds(j.userHold, j.noHold)
            == Fold(StepHold, Holds(None, EarlyJob(job, c).structure), Of(rest, h_OPT))
  {
    hide Fold, Of, ArrayType, Compress;
  }
}
