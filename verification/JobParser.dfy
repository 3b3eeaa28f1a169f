/** Building a job element from the option list. */
module JobParser {
  import opened Machine
  import opened Optional
  import opened OptionList

  // ----- flags and other constants -----

  const JOB_TYPE_IMMEDIATE := 0x01
  const JOB_TYPE_BINARY := 0x40
  const JOB_TYPE_ARRAY := 0x80
  const JOB_TYPE_NO_SHELL := 0x100
  const NO_MAIL := 0x0020_0000
  const MINUS_H_TGT_USER := 1
  const BASE_PRIORITY: u32 := 1024

  /** The fields of a job element that options set. Unsigned fields hold 32 bits; a list may be NULL.
      A word of flags is the set of its flags. */
  datatype Job = Job(
    jobType: set<int>, priority: u32, jobshare: u32,
    binding: ItemList, structure: ItemList,
    noHold: ItemList, userHold: ItemList, otherHold: ItemList, systemHold: ItemList, arrayHold: ItemList,
    concurrency: u32,
    executionTime: u32, account: Option<string>, ar: u32, deadline: u32,
    checkpoint: Checkpoint, checkpointName: Option<string>, directivePrefix: Option<string>,
    stderrPaths: ItemList, stdoutPaths: ItemList, stdinPaths: ItemList, shells: ItemList,
    jidRequests: ItemList, arrayRequests: ItemList, jobIds: ItemList,
    mergeStderr: bool, resources: HardSoft, mailOptions: set<int>, mailList: ItemList,
    jobName: Option<string>, notify: bool, project: Option<string>, pe: Pe,
    queues: HardSoft, masterQueues: HardSoft, reserve: bool, pty: u32, restart: u32,
    users: ItemList, env: ItemList, context: ItemList, verify: bool, suitableQueues: u32,
    cwd: Option<string>, pathAliases: ItemList,
    scriptFile: Option<string>, scriptSize: u32, scriptPtr: Option<string>, jobArgs: ItemList)

  datatype Checkpoint = Checkpoint(interval: u32, attr: u32)
  datatype HardSoft = HardSoft(hard: ItemList, soft: ItemList)
  datatype Pe = Pe(name: Option<string>, range: ItemList)
  datatype Holds = Holds(user: ItemList, none: ItemList)

  /** What the parser reads from its surroundings: the submitting user and host, the path aliases,
      and the rerooted current directory as a function of the job's environment list. */
  datatype Env = Env(user: string, host: string, aliases: ItemList, reroot: ItemList -> Option<string>)

  datatype Answer =
    | NoMemory
    | HelpNotAllowed
    | NoWorkingDirectory
    | UnknownOption(sw: Switch, text: Option<string>)
    | CommandRequired

  /** Stopped: parsing was given up on the way. Parsed: it went to the end, with these complaints. */
  datatype Outcome = Stopped(reason: Answer) | Parsed(job: Job, answers: seq<Answer>)

  // ----- the bodies of the option loops -----

  function SetUlong(v: u32, e: Opt): u32 { e.u }
  function SetString(v: Option<string>, e: Opt): Option<string> { e.s }
  function SetInt(v: u32, e: Opt): u32 { U32(e.i) }
  function SetBool(v: bool, e: Opt): bool { e.i != 0 }
  function SetTrue(v: bool, e: Opt): bool { true }
  function Skip(v: (), e: Opt): () { v }

  function StepBinary(t: set<int>, e: Opt): set<int> {
    if e.i == 1 then t + {JOB_TYPE_BINARY} else t - {JOB_TYPE_BINARY}
  }

  function StepShell(t: set<int>, e: Opt): set<int> {
    if e.i == 1 then t - {JOB_TYPE_NO_SHELL} else t + {JOB_TYPE_NO_SHELL}
  }

  function ArrayType(t: set<int>): set<int> { t + {JOB_TYPE_ARRAY} }

  function StepNow(t: set<int>, e: Opt): set<int> {
    if e.i != 0 then t + {JOB_TYPE_IMMEDIATE} else t - {JOB_TYPE_IMMEDIATE}
  }

  function StepCheckpoint(c: Checkpoint, e: Opt): Checkpoint {
    Checkpoint(if e.argtype == LongArg then U32(e.l) else c.interval,
               if e.argtype == IntArg then U32(e.i) else c.attr)
  }

  /** Moves the tasks without hold to the user hold list. */
  function StepHold(h: Holds, e: Opt): Holds {
    if MINUS_H_TGT_USER in e.flags then Holds(h.none, None) else h
  }

  function Names(items: seq<Item>): (r: seq<Item>)
    ensures |r| == |items|
  {
    if items == [] then [] else [Pair(KeyOf(items[0]), None)] + Names(items[1..])
  }

  function KeyOf(item: Item): Option<string> {
    if item.Pair? then item.key else None
  }

  /** Appends the names in the option's list; a list is only created by its first element. */
  function StepNames(l: ItemList, e: Opt): ItemList {
    if e.list == None || e.list.value == [] then l
    else Append(l, Some(Names(e.list.value)))
  }

  function Append(l: ItemList, m: ItemList): ItemList {
    if m == None then l else if l == None then m else Some(l.value + m.value)
  }

  function StepAppend(l: ItemList, e: Opt): ItemList { Append(l, e.list) }

  /** Redefines key in the list, or adds the definition at its end. */
  function Define(l: seq<Item>, item: Item): seq<Item> {
    if l == [] then [item]
    else if KeyOf(l[0]) == KeyOf(item) then
      [if l[0].Pair? && item.Pair? then Pair(l[0].key, item.val) else l[0]] + l[1..]
    else [l[0]] + Define(l[1..], item)
  }

  function Merge(l: seq<Item>, items: seq<Item>): seq<Item>
    decreases items
  {
    if items == [] then l else Merge(Define(l, items[0]), items[1..])
  }

  /** The first list is taken over as it is, later ones are merged into it. */
  function StepMerge(l: ItemList, e: Opt): ItemList {
    if e.list == None then l
    else if l == None then e.list
    else Some(Merge(l.value, e.list.value))
  }

  /** Lists go to the soft side for a soft mode of 2 or more, else to the hard side. */
  function StepHardSoft(hs: HardSoft, e: Opt): HardSoft {
    if e.i < 2 then hs.(hard := Append(hs.hard, e.list))
    else hs.(soft := Append(hs.soft, e.list))
  }

  function StepHardOnly(hs: HardSoft, e: Opt): HardSoft {
    hs.(hard := Append(hs.hard, e.list))
  }

  function StepMail(m: set<int>, e: Opt): set<int> {
    if NO_MAIL in e.flags then {} else m + e.flags
  }

  function StepPriority(p: u32, e: Opt): u32 { U32(BASE_PRIORITY + e.i) }

  function StepPe(pe: Pe, e: Opt): Pe { Pe(e.s, e.list) }

  /** A NULL path stands for the current directory, here, which may be unknown. */
  datatype Wd = Wd(here: Option<string>, known: ItemList, cwd: Option<string>, aliases: ItemList, failed: bool)

  function StepWd(w: Wd, e: Opt): Wd {
    if w.failed then w
    else if e.s == None && w.here == None then w.(failed := true)
    else w.(cwd := if e.s == None then w.here else e.s, aliases := w.known)
  }

  function StepArg(l: ItemList, e: Opt): ItemList {
    Append(l, Some([Pair(e.s, None)]))
  }

  /** Drops every definition whose key is defined again later. */
  function Compress(l: seq<Item>): seq<Item> {
    if l == [] then []
    else if KeyOf(l[0]) != None && exists i :: 1 <= i < |l| && KeyOf(l[i]) == KeyOf(l[0]) then Compress(l[1..])
    else [l[0]] + Compress(l[1..])
  }

  function Compressed(l: ItemList): ItemList {
    if l == None then None else Some(Compress(l.value))
  }

  function Basename(name: Option<string>): Option<string> {
    if name == None || name.value == "" then None
    else
      var slash := LastSlash(name.value);
      if slash + 1 == |name.value| then None else Some(name.value[slash + 1..])
  }

  /** The position of the last '/', or -1. */
  function LastSlash(name: string): (p: int)
    ensures -1 <= p < |name|
    ensures 0 <= p ==> name[p] == '/'
    ensures forall j :: p < j < |name| ==> name[j] != '/'
  {
    if name == "" then -1
    else if name[|name| - 1] == '/' then |name| - 1
    else LastSlash(name[..|name| - 1])
  }

  /** The single task 1-1:1; an existing list keeps its later ranges. */
  function OneTask(l: ItemList): ItemList {
    var one := Range(1, 1, 1);
    if l == None || l.value == [] then Some([one]) else Some([one] + l.value[1..])
  }

  // ----- what the options make of a job, switch by switch -----

  /** The value of the first option only. */
  function FirstOr<T>(read: Opt -> T, v: T, es: seq<Opt>): T {
    if es == [] then v else read(es[0])
  }

  function ListOf(e: Opt): ItemList { e.list }
  function StringOf(e: Opt): Option<string> { e.s }
  function UlongOf(e: Opt): u32 { e.u }

  /** Handled before -clear is looked at. */
  function EarlyJob(j: Job, c: seq<Opt>): Job {
    var tasks := Of(c, t_OPT);
    var typed := Fold(StepShell, Fold(StepBinary, j.jobType, Of(c, b_OPT)), Of(c, shell_OPT));
    var structure := if tasks == [] then OneTask(j.structure) else tasks[0].list;
    j.(priority := BASE_PRIORITY, jobshare := 0,
       jobType := if tasks == [] then typed else ArrayType(typed),
       binding := FirstOr(ListOf, j.binding, Of(c, binding_OPT)),
       structure := structure, noHold := structure,
       userHold := None, otherHold := None, systemHold := None, arrayHold := None,
       concurrency := Fold(SetUlong, j.concurrency, Of(c, tc_OPT)))
  }

  function TimingSwitches(): set<Switch> {
    {a_OPT, A_OPT, ar_OPT, dl_OPT, c_OPT, ckpt_OPT, C_OPT, jsv_OPT, e_OPT, h_OPT, hard_OPT}
  }

  function TimingJob(j: Job, c: seq<Opt>): Job {
    var holds := Fold(StepHold, Holds(j.userHold, j.noHold), Of(c, h_OPT));
    j.(executionTime := Fold(SetUlong, j.executionTime, Of(c, a_OPT)),
       account := Fold(SetString, j.account, Of(c, A_OPT)),
       ar := Fold(SetUlong, j.ar, Of(c, ar_OPT)),
       deadline := Fold(SetUlong, j.deadline, Of(c, dl_OPT)),
       checkpoint := Fold(StepCheckpoint, j.checkpoint, Of(c, c_OPT)),
       checkpointName := Fold(SetString, j.checkpointName, Of(c, ckpt_OPT)),
       directivePrefix := Fold(SetString, j.directivePrefix, Of(c, C_OPT)),
       stderrPaths := Fold(StepMerge, j.stderrPaths, Of(c, e_OPT)),
       userHold := holds.user, noHold := holds.none)
  }

  function RequestSwitches(): set<Switch> {
    {hold_jid_OPT, hold_jid_ad_OPT, j_OPT, jid_OPT, l_OPT, m_OPT, M_OPT}
  }

  function Requests(l: ItemList, es: seq<Opt>): ItemList {
    if es == [] then l else Fold(StepNames, None, es)
  }

  function DefaultMail(l: ItemList, env: Env): ItemList {
    if l == None then Some([Pair(Some(env.host), Some(env.user))]) else l
  }

  function RequestJob(j: Job, c: seq<Opt>, env: Env): Job {
    var resources := Fold(StepHardSoft, j.resources, Of(c, l_OPT));
    j.(jidRequests := Requests(j.jidRequests, Of(c, hold_jid_OPT)),
       arrayRequests := Requests(j.arrayRequests, Of(c, hold_jid_ad_OPT)),
       mergeStderr := Fold(SetBool, j.mergeStderr, Of(c, j_OPT)),
       jobIds := Fold(StepAppend, j.jobIds, Of(c, jid_OPT)),
       resources := HardSoft(Compressed(resources.hard), Compressed(resources.soft)),
       mailOptions := Fold(StepMail, j.mailOptions, Of(c, m_OPT)),
       mailList := DefaultMail(Fold(StepMerge, j.mailList, Of(c, M_OPT)), env))
  }

  function NamingSwitches(): set<Switch> {
    {N_OPT, notify_OPT, now_OPT, o_OPT, i_OPT, p_OPT, js_OPT, P_OPT, pe_OPT}
  }

  function NamingJob(j: Job, c: seq<Opt>): Job {
    j.(jobName := Fold(SetString, j.jobName, Of(c, N_OPT)),
       notify := Fold(SetTrue, j.notify, Of(c, notify_OPT)),
       jobType := Fold(StepNow, j.jobType, Of(c, now_OPT)),
       stdoutPaths := Fold(StepMerge, j.stdoutPaths, Of(c, o_OPT)),
       stdinPaths := Fold(StepMerge, j.stdinPaths, Of(c, i_OPT)),
       priority := Fold(StepPriority, j.priority, Of(c, p_OPT)),
       jobshare := Fold(SetUlong, j.jobshare, Of(c, js_OPT)),
       project := Fold(SetString, j.project, Of(c, P_OPT)),
       pe := Fold(StepPe, j.pe, Of(c, pe_OPT)))
  }

  function QueueSwitches(): set<Switch> {
    {q_OPT, masterq_OPT, R_OPT, pty_OPT, r_OPT, soft_OPT, S_OPT, terse_OPT, u_OPT}
  }

  function QueueJob(j: Job, c: seq<Opt>): Job {
    j.(queues := Fold(StepHardSoft, j.queues, Of(c, q_OPT)),
       masterQueues := Fold(StepHardOnly, j.masterQueues, Of(c, masterq_OPT)),
       reserve := Fold(SetBool, j.reserve, Of(c, R_OPT)),
       pty := Fold(SetInt, j.pty, Of(c, pty_OPT)),
       restart := Fold(SetInt, j.restart, Of(c, r_OPT)),
       shells := Fold(StepMerge, j.shells, Of(c, S_OPT)),
       users := Fold(StepAppend, j.users, Of(c, u_OPT)))
  }

  function MiddleJob(j: Job, rest: seq<Opt>, env: Env): Job {
    QueueJob(NamingJob(RequestJob(TimingJob(j, rest), rest, env), rest), rest)
  }

  function Variables(): set<Switch> {
    {v_OPT, V_OPT}
  }

  function Contexts(): set<Switch> {
    {ac_OPT, dc_OPT, sc_OPT}
  }

  function LastSwitches(): set<Switch> {
    {verify_OPT, w_OPT, wd_OPT}
  }

  function WdAfter(j: Job, wds: seq<Opt>, env: Env): Wd {
    Fold(StepWd, Wd(env.reroot(j.env), env.aliases, j.cwd, j.pathAliases, false), wds)
  }

  /** The variables of -v and -V, and the contexts of -ac, -dc and -sc, each in their common order. */
  function ContextJob(j: Job, c: seq<Opt>, env: Env): Job {
    var j' := j.(env := Compressed(Fold(StepMerge, j.env, Pick(c, Variables()))));
    var wd := WdAfter(j', Of(c, wd_OPT), env);
    j'.(context := Fold(StepAppend, j.context, Pick(c, Contexts())),
        verify := Fold(SetTrue, j.verify, Of(c, verify_OPT)),
        suitableQueues := Fold(SetInt, j.suitableQueues, Of(c, w_OPT)),
        cwd := wd.cwd, pathAliases := wd.aliases)
  }

  /** Is a relative directory asked for while the current one is unknown? */
  predicate LostDirectory(j: Job, c: seq<Opt>, env: Env) {
    WdAfter(j.(env := Compressed(Fold(StepMerge, j.env, Pick(c, Variables())))), Of(c, wd_OPT), env).failed
  }

  function ScriptJob(j: Job, c: seq<Opt>): Job {
    j.(scriptFile := FirstOr(StringOf, j.scriptFile, Of(c, Script)),
       scriptSize := FirstOr(UlongOf, j.scriptSize, Of(c, ScriptLen)),
       scriptPtr := FirstOr(StringOf, j.scriptPtr, Of(c, ScriptPtr)),
       jobArgs := Fold(StepArg, j.jobArgs, Of(c, JobArg)))
  }

  /** The names given to a job that has none. */
  function NamedJob(j: Job): Job {
    var script := if j.scriptFile == None || j.scriptFile.value == "-" then Some("STDIN") else j.scriptFile;
    j.(scriptFile := script, jobName := if j.jobName == None then Basename(script) else j.jobName)
  }

  predicate IsBinary(t: set<int>) { JOB_TYPE_BINARY in t }

  predicate LacksCommand(j: Job) {
    (j.scriptFile == None || j.scriptFile.value == "-") && IsBinary(j.jobType)
  }

  function Complaints(c: seq<Opt>): (r: seq<Answer>)
    ensures |r| == |c|
    ensures forall i :: 0 <= i < |c| ==> r[i] == UnknownOption(c[i].sw, c[i].text)
  {
    if c == [] then [] else [UnknownOption(c[0].sw, c[0].text)] + Complaints(c[1..])
  }

  /** Handled for every occurrence after -clear. */
  function LateSwitches(): set<Switch> {
    TimingSwitches() + RequestSwitches() + NamingSwitches() + QueueSwitches() + Variables()
    + Contexts() + LastSwitches() + {JobArg}
  }

  /** What nobody handles of the list -clear leaves: unknown switches, and all but the first script pseudo-argument. */
  function Leftover(c: seq<Opt>): seq<Opt> {
    Drop(WithoutFirst(WithoutFirst(WithoutFirst(c, Script), ScriptLen), ScriptPtr), LateSwitches())
  }

  /** What the early handlers leave of the list. */
  function EarlyRest(c: seq<Opt>): seq<Opt> {
    Drop(WithoutFirst(WithoutFirst(c, binding_OPT), t_OPT), {b_OPT, shell_OPT, tc_OPT})
  }

  /** The job, in terms of the whole list c and of the list rest that -clear leaves. */
  function BuiltJob(job: Job, c: seq<Opt>, rest: seq<Opt>, env: Env): Job {
    ScriptJob(ContextJob(MiddleJob(EarlyJob(job, c), rest, env), rest, env), rest)
  }

  function Expected(job: Job, c: seq<Opt>, rest: seq<Opt>, env: Env): Outcome {
    if EarlyJob(job, c).structure == None then Stopped(NoMemory)
    else if Of(rest, help_OPT) != [] then Stopped(HelpNotAllowed)
    else if LostDirectory(job, rest, env) then Stopped(NoWorkingDirectory)
    else
      var j := BuiltJob(job, c, rest, env);
      if LacksCommand(j) then Parsed(j, Complaints(Leftover(rest)) + [CommandRequired])
      else Parsed(NamedJob(j), Complaints(Leftover(rest)))
  }

  // ----- the parser -----

  method ParseEarly(options: Options, job: Job) returns (j: Job)
    modifies options
    ensures j == EarlyJob(job, old(options.opts))
    ensures options.opts == EarlyRest(old(options.opts))
  {
    hide Of, Drop, WithoutFirst, Fold, OneTask, ArrayType;
    ghost var c := options.opts;
    options.Restart();
    var jobType := options.DrainOne(b_OPT, job.jobType, StepBinary);
    assert options.gone == {b_OPT};
    var e := options.TakeFirst(binding_OPT);
    var binding := if e.Some? then e.value.list else job.binding;
    EarlyBinding(c);
    options.Restart();
    jobType := options.DrainOne(shell_OPT, jobType, StepShell);
    assert options.gone == {shell_OPT};
    e := options.TakeFirst(t_OPT);
    var structure := OneTask(job.structure);
    if e.Some? {
      structure := e.value.list;
      jobType := ArrayType(jobType);
    }
    EarlyTasks(c);
    options.Restart();
    var concurrency := options.DrainOne(tc_OPT, job.concurrency, SetUlong);
    assert options.gone == {tc_OPT};
    EarlyConcurrency(c);
    j := job.(priority := BASE_PRIORITY, jobshare := 0, jobType := jobType, binding := binding,
              structure := structure, noHold := structure,
              userHold := None, otherHold := None, systemHold := None, arrayHold := None,
              concurrency := concurrency);
  }

  lemma EarlyBinding(c: seq<Opt>)
    ensures Of(Drop(c, {b_OPT}), binding_OPT) == Of(c, binding_OPT)
    ensures var c1 := WithoutFirst(Drop(c, {b_OPT}), binding_OPT);
            && c1 == Drop(WithoutFirst(c, binding_OPT), {b_OPT})
            && Of(c1, shell_OPT) == Of(c, shell_OPT)
  {
    PickOfDrop(c, {b_OPT}, {binding_OPT});
    PickOfDrop(c, {b_OPT}, {shell_OPT});
    WithoutFirstOfDrop(c, binding_OPT, {b_OPT});
    WithoutFirstOther(Drop(c, {b_OPT}), binding_OPT, {shell_OPT});
  }

  lemma EarlyTasks(c: seq<Opt>)
    ensures var c2 := Drop(Drop(WithoutFirst(c, binding_OPT), {b_OPT}), {shell_OPT});
            && Of(c2, t_OPT) == Of(c, t_OPT)
            && WithoutFirst(c2, t_OPT) == Drop(WithoutFirst(WithoutFirst(c, binding_OPT), t_OPT), {b_OPT, shell_OPT})
            && Of(WithoutFirst(c2, t_OPT), tc_OPT) == Of(c, tc_OPT)
  {
    var c1 := WithoutFirst(c, binding_OPT);
    var c2 := Drop(c1, {b_OPT, shell_OPT});
    DropOfDrop(c1, {b_OPT}, {shell_OPT});
    assert {b_OPT} + {shell_OPT} == {b_OPT, shell_OPT};
    PickOfDrop(c1, {b_OPT, shell_OPT}, {t_OPT});
    PickOfDrop(c1, {b_OPT, shell_OPT}, {tc_OPT});
    WithoutFirstOther(c, binding_OPT, {t_OPT});
    WithoutFirstOther(c, binding_OPT, {tc_OPT});
    WithoutFirstOther(c2, t_OPT, {tc_OPT});
    WithoutFirstOfDrop(c1, t_OPT, {b_OPT, shell_OPT});
  }

  lemma EarlyConcurrency(c: seq<Opt>)
    ensures Drop(Drop(WithoutFirst(WithoutFirst(c, binding_OPT), t_OPT), {b_OPT, shell_OPT}), {tc_OPT}) == EarlyRest(c)
  {
    DropOfDrop(WithoutFirst(WithoutFirst(c, binding_OPT), t_OPT), {b_OPT, shell_OPT}, {tc_OPT});
    assert {b_OPT, shell_OPT} + {tc_OPT} == {b_OPT, shell_OPT, tc_OPT};
  }

  method ParseTiming(options: Options, job: Job) returns (j: Job)
    requires options.Valid() && options.gone == {}
    modifies options`opts, options`gone
    ensures options.Valid() && options.gone == TimingSwitches()
    ensures j == TimingJob(job, options.origin)
  {
    hide Of, Drop, Fold;
    var executionTime := options.DrainOne(a_OPT, job.executionTime, SetUlong);
    var account := options.DrainOne(A_OPT, job.account, SetString);
    var ar := options.DrainOne(ar_OPT, job.ar, SetUlong);
    var deadline := options.DrainOne(dl_OPT, job.deadline, SetUlong);
    var checkpoint := options.DrainOne(c_OPT, job.checkpoint, StepCheckpoint);
    var checkpointName := options.DrainOne(ckpt_OPT, job.checkpointName, SetString);
    var directivePrefix := options.DrainOne(C_OPT, job.directivePrefix, SetString);
    var skipped := options.DrainOne(jsv_OPT, (), Skip);
    var stderrPaths := options.DrainOne(e_OPT, job.stderrPaths, StepMerge);
    var holds := options.DrainOne(h_OPT, Holds(job.userHold, job.noHold), StepHold);
    skipped := options.DrainOne(hard_OPT, (), Skip);
    j := job.(executionTime := executionTime, account := account, ar := ar, deadline := deadline,
              checkpoint := checkpoint, checkpointName := checkpointName, directivePrefix := directivePrefix,
              stderrPaths := stderrPaths, userHold := holds.user, noHold := holds.none);
  }

  /** The names of all options of the switch replace the list, if there is such an option. */
  method DrainNames(options: Options, sw: Switch, before: ItemList) returns (l: ItemList)
    requires options.Valid() && sw !in options.gone
    modifies options`opts, options`gone
    ensures options.Valid() && options.gone == old(options.gone) + {sw}
    ensures l == Requests(before, Of(options.origin, sw))
  {
    l := before;
    var some := options.Has(sw);
    var names := options.DrainOne(sw, None, StepNames);
    if some {
      l := names;
    }
  }

  method ParseRequests(options: Options, job: Job, env: Env) returns (j: Job)
    requires options.Valid() && options.gone == {}
    modifies options`opts, options`gone
    ensures options.Valid() && options.gone == RequestSwitches()
    ensures j == RequestJob(job, options.origin, env)
  {
    hide Of, Drop, Fold, Compress, Requests;
    var jidRequests := DrainNames(options, hold_jid_OPT, job.jidRequests);
    var arrayRequests := DrainNames(options, hold_jid_ad_OPT, job.arrayRequests);
    var mergeStderr := options.DrainOne(j_OPT, job.mergeStderr, SetBool);
    var jobIds := options.DrainOne(jid_OPT, job.jobIds, StepAppend);
    var resources := options.DrainOne(l_OPT, job.resources, StepHardSoft);
    var mailOptions := options.DrainOne(m_OPT, job.mailOptions, StepMail);
    var mailList := options.DrainOne(M_OPT, job.mailList, StepMerge);
    j := job.(jidRequests := jidRequests, arrayRequests := arrayRequests, mergeStderr := mergeStderr, jobIds := jobIds,
              resources := HardSoft(Compressed(resources.hard), Compressed(resources.soft)),
              mailOptions := mailOptions, mailList := DefaultMail(mailList, env));
  }

  method ParseNaming(options: Options, job: Job) returns (j: Job)
    requires options.Valid() && options.gone == {}
    modifies options`opts, options`gone
    ensures options.Valid() && options.gone == NamingSwitches()
    ensures j == NamingJob(job, options.origin)
  {
    hide Of, Drop, Fold;
    var jobName := options.DrainOne(N_OPT, job.jobName, SetString);
    var notify := options.DrainOne(notify_OPT, job.notify, SetTrue);
    var jobType := options.DrainOne(now_OPT, job.jobType, StepNow);
    var stdoutPaths := options.DrainOne(o_OPT, job.stdoutPaths, StepMerge);
    var stdinPaths := options.DrainOne(i_OPT, job.stdinPaths, StepMerge);
    var priority := options.DrainOne(p_OPT, job.priority, StepPriority);
    var jobshare := options.DrainOne(js_OPT, job.jobshare, SetUlong);
    var project := options.DrainOne(P_OPT, job.project, SetString);
    var pe := options.DrainOne(pe_OPT, job.pe, StepPe);
    j := job.(jobName := jobName, notify := notify, jobType := jobType, stdoutPaths := stdoutPaths,
              stdinPaths := stdinPaths, priority := priority, jobshare := jobshare, project := project, pe := pe);
  }

  method ParseQueues(options: Options, job: Job) returns (j: Job)
    requires options.Valid() && options.gone == {}
    modifies options`opts, options`gone
    ensures options.Valid() && options.gone == QueueSwitches()
    ensures j == QueueJob(job, options.origin)
  {
    hide Of, Drop, Fold;
    var queues := options.DrainOne(q_OPT, job.queues, StepHardSoft);
    var masterQueues := options.DrainOne(masterq_OPT, job.masterQueues, StepHardOnly);
    var reserve := options.DrainOne(R_OPT, job.reserve, SetBool);
    var pty := options.DrainOne(pty_OPT, job.pty, SetInt);
    var restart := options.DrainOne(r_OPT, job.restart, SetInt);
    var skipped := options.DrainOne(soft_OPT, (), Skip);
    var shells := options.DrainOne(S_OPT, job.shells, StepMerge);
    skipped := options.DrainOne(terse_OPT, (), Skip);
    var users := options.DrainOne(u_OPT, job.users, StepAppend);
    j := job.(queues := queues, masterQueues := masterQueues, reserve := reserve, pty := pty, restart := restart,
              shells := shells, users := users);
  }

  /** Returns no job if the current directory is needed but unknown. */
  method ParseContext(options: Options, job: Job, env: Env) returns (j: Option<Job>)
    requires options.Valid() && options.gone == {}
    modifies options
    ensures j == if LostDirectory(job, old(options.origin), env) then None
                 else Some(ContextJob(job, old(options.origin), env))
    ensures options.opts == Drop(old(options.origin), Variables() + Contexts() + LastSwitches())
  {
    hide Of, Drop, Fold, Pick, Compress;
    ghost var c := options.origin;
    NothingToDrop(c);
    options.Rename(V_OPT, v_OPT);
    options.Restart();
    RenamedContext(c, job.env);
    var vars := options.DrainOne(v_OPT, job.env, StepMerge);
    vars := Compressed(vars);
    var context := options.Drain(Contexts(), job.context, StepAppend);
    var verify := options.DrainOne(verify_OPT, job.verify, SetTrue);
    var suitableQueues := options.DrainOne(w_OPT, job.suitableQueues, SetInt);
    var wd := options.DrainOne(wd_OPT, Wd(env.reroot(vars), env.aliases, job.cwd, job.pathAliases, false), StepWd);
    assert options.gone == {v_OPT} + Contexts() + LastSwitches();
    if wd.failed {
      return None;
    }
    j := Some(job.(env := vars, context := context, verify := verify, suitableQueues := suitableQueues,
                   cwd := wd.cwd, pathAliases := wd.aliases));
  }

  /** Renaming -V to -v hands the -v handler the options of both, and changes nothing for the others. */
  lemma RenamedContext(c: seq<Opt>, l: ItemList)
    ensures var c' := Renamed(c, V_OPT, v_OPT);
            && Fold(StepMerge, l, Of(c', v_OPT)) == Fold(StepMerge, l, Pick(c, Variables()))
            && Pick(c', Contexts()) == Pick(c, Contexts())
            && Of(c', verify_OPT) == Of(c, verify_OPT) && Of(c', w_OPT) == Of(c, w_OPT)
            && Of(c', wd_OPT) == Of(c, wd_OPT)
            && Drop(c', {v_OPT} + Contexts() + LastSwitches()) == Drop(c, Variables() + Contexts() + LastSwitches())
  {
    RenamedFold(StepMerge, l, c, V_OPT, v_OPT);
    assert {V_OPT, v_OPT} == Variables();
    RenamedPick(c, V_OPT, v_OPT, Contexts());
    RenamedPick(c, V_OPT, v_OPT, {verify_OPT});
    RenamedPick(c, V_OPT, v_OPT, {w_OPT});
    RenamedPick(c, V_OPT, v_OPT, {wd_OPT});
    RenamedDrop(c, V_OPT, v_OPT, {v_OPT} + Contexts() + LastSwitches());
    assert {v_OPT} + Contexts() + LastSwitches() + {V_OPT} == Variables() + Contexts() + LastSwitches();
  }

  method ParseScripts(options: Options, job: Job) returns (j: Job)
    modifies options
    ensures j == ScriptJob(job, old(options.opts))
    ensures options.opts
            == Drop(WithoutFirst(WithoutFirst(WithoutFirst(old(options.opts), Script), ScriptLen), ScriptPtr), {JobArg})
  {
    hide Drop, Fold, WithoutFirst;
    ghost var c := options.opts;
    ScriptPicks(c);
    var script := options.TakeFirst(Script);
    var len := options.TakeFirst(ScriptLen);
    var ptr := options.TakeFirst(ScriptPtr);
    options.Restart();
    var jobArgs := options.DrainOne(JobArg, job.jobArgs, StepArg);
    assert options.gone == {JobArg};
    j := job.(scriptFile := if script.Some? then script.value.s else job.scriptFile,
              scriptSize := if len.Some? then len.value.u else job.scriptSize,
              scriptPtr := if ptr.Some? then ptr.value.s else job.scriptPtr,
              jobArgs := jobArgs);
  }

  lemma ScriptPicks(c: seq<Opt>)
    ensures var c1 := WithoutFirst(c, Script);
            var c2 := WithoutFirst(c1, ScriptLen);
            && Of(c1, ScriptLen) == Of(c, ScriptLen)
            && Of(c2, ScriptPtr) == Of(c, ScriptPtr)
            && Of(WithoutFirst(c2, ScriptPtr), JobArg) == Of(c, JobArg)
  {
    var c1 := WithoutFirst(c, Script);
    var c2 := WithoutFirst(c1, ScriptLen);
    WithoutFirstOther(c, Script, {ScriptLen});
    WithoutFirstOther(c, Script, {ScriptPtr});
    WithoutFirstOther(c, Script, {JobArg});
    WithoutFirstOther(c1, ScriptLen, {ScriptPtr});
    WithoutFirstOther(c1, ScriptLen, {JobArg});
    WithoutFirstOther(c2, ScriptPtr, {JobArg});
  }

  /** Reports every option still on the list. */
  method Complain(options: Options) returns (answers: seq<Answer>)
    ensures answers == Complaints(options.opts)
  {
    answers := [];
    for i := 0 to |options.opts|
      invariant |answers| == i
      invariant forall k :: 0 <= k < i ==> answers[k] == UnknownOption(options.opts[k].sw, options.opts[k].text)
    {
      answers := answers + [UnknownOption(options.opts[i].sw, options.opts[i].text)];
    }
  }

  // ----- lists that agree switch by switch -----

  /** The two lists have the same options of each of these switches, in the same order. */
  ghost predicate SameOf(c: seq<Opt>, d: seq<Opt>, sws: set<Switch>) {
    forall sw :: sw in sws ==> Of(c, sw) == Of(d, sw)
  }

  lemma TimingAgrees(j: Job, c: seq<Opt>, d: seq<Opt>)
    requires SameOf(c, d, TimingSwitches())
    ensures TimingJob(j, c) == TimingJob(j, d)
  {
    hide Of, Fold;
  }

  lemma RequestsAgree(j: Job, c: seq<Opt>, d: seq<Opt>, env: Env)
    requires SameOf(c, d, RequestSwitches())
    ensures RequestJob(j, c, env) == RequestJob(j, d, env)
  {
    hide Of, Fold, Compress;
  }

  lemma NamingAgrees(j: Job, c: seq<Opt>, d: seq<Opt>)
    requires SameOf(c, d, NamingSwitches())
    ensures NamingJob(j, c) == NamingJob(j, d)
  {
    hide Of, Fold;
  }

  lemma QueuesAgree(j: Job, c: seq<Opt>, d: seq<Opt>)
    requires SameOf(c, d, QueueSwitches())
    ensures QueueJob(j, c) == QueueJob(j, d)
  {
    hide Of, Fold;
  }

  lemma ContextAgrees(j: Job, c: seq<Opt>, d: seq<Opt>, env: Env)
    requires Pick(c, Variables()) == Pick(d, Variables()) && Pick(c, Contexts()) == Pick(d, Contexts())
    requires SameOf(c, d, LastSwitches())
    ensures ContextJob(j, c, env) == ContextJob(j, d, env)
    ensures LostDirectory(j, c, env) <==> LostDirectory(j, d, env)
  {
    hide Of, Fold, Compress;
  }

  lemma ScriptAgrees(j: Job, c: seq<Opt>, d: seq<Opt>)
    requires SameOf(c, d, {Script, ScriptLen, ScriptPtr, JobArg})
    ensures ScriptJob(j, c) == ScriptJob(j, d)
  {
    hide Of, Fold;
  }

  lemma DroppedAgrees(c: seq<Opt>, gone: set<Switch>, sws: set<Switch>)
    requires gone !! sws
    ensures SameOf(Drop(c, gone), c, sws)
  {
    forall sw | sw in sws {
      PickOfDrop(c, gone, {sw});
    }
  }

  // ----- the whole parser -----

  function MiddleSwitches(): set<Switch> {
    TimingSwitches() + RequestSwitches() + NamingSwitches() + QueueSwitches()
  }

  /** The stage at which a switch is handled. */
  function Stage(sw: Switch): nat {
    match sw
    case b_OPT | binding_OPT | shell_OPT | t_OPT | tc_OPT => 0
    case clear_OPT => 1
    case a_OPT | A_OPT | ar_OPT | dl_OPT | c_OPT | ckpt_OPT | C_OPT | jsv_OPT | e_OPT | h_OPT | hard_OPT => 2
    case hold_jid_OPT | hold_jid_ad_OPT | j_OPT | jid_OPT | l_OPT | m_OPT | M_OPT => 3
    case N_OPT | notify_OPT | now_OPT | o_OPT | i_OPT | p_OPT | js_OPT | P_OPT | pe_OPT => 4
    case q_OPT | masterq_OPT | R_OPT | pty_OPT | r_OPT | soft_OPT | S_OPT | terse_OPT | u_OPT => 5
    case v_OPT | V_OPT => 6
    case ac_OPT | dc_OPT | sc_OPT => 7
    case verify_OPT | w_OPT | wd_OPT => 8
    case _ => 9
  }

  ghost predicate AtStage(sws: set<Switch>, n: nat) {
    forall sw :: sw in sws ==> Stage(sw) == n
  }

  lemma StageOfTiming()
    ensures AtStage(TimingSwitches(), 2)
  {
  }

  lemma StageOfRequests()
    ensures AtStage(RequestSwitches(), 3)
  {
  }

  lemma StageOfNaming()
    ensures AtStage(NamingSwitches(), 4)
  {
  }

  lemma StageOfQueues()
    ensures AtStage(QueueSwitches(), 5)
  {
  }

  lemma StageOfVariables()
    ensures AtStage(Variables(), 6)
  {
  }

  lemma StageOfContexts()
    ensures AtStage(Contexts(), 7)
  {
  }

  lemma StageOfLast()
    ensures AtStage(LastSwitches(), 8)
  {
  }

  lemma StageOfScripts()
    ensures AtStage({Script, ScriptLen, ScriptPtr, JobArg}, 9)
  {
  }

  /** No switch is handled in two of the groups. */
  lemma GroupsAreApart()
    ensures TimingSwitches() !! RequestSwitches()
    ensures TimingSwitches() + RequestSwitches() !! NamingSwitches()
    ensures TimingSwitches() + RequestSwitches() + NamingSwitches() !! QueueSwitches()
    ensures MiddleSwitches() !! Variables() && MiddleSwitches() !! Contexts() && MiddleSwitches() !! LastSwitches()
    ensures MiddleSwitches() + (Variables() + Contexts() + LastSwitches()) !! {Script, ScriptLen, ScriptPtr, JobArg}
  {
    hide TimingSwitches, RequestSwitches, NamingSwitches, QueueSwitches, Variables, Contexts, LastSwitches, Stage;
    StageOfTiming();
    StageOfRequests();
    StageOfNaming();
    StageOfQueues();
    StageOfVariables();
    StageOfContexts();
    StageOfLast();
    StageOfScripts();
  }

  lemma DropMore(rest: seq<Opt>, gone: set<Switch>, more: set<Switch>)
    requires gone !! more
    ensures Drop(Drop(rest, gone), more) == Drop(rest, gone + more)
    ensures SameOf(Drop(rest, gone), rest, more)
  {
    DropOfDrop(rest, gone, more);
    DroppedAgrees(rest, gone, more);
  }

  lemma AfterTiming(rest: seq<Opt>)
    ensures Drop(Drop(rest, TimingSwitches()), RequestSwitches()) == Drop(rest, TimingSwitches() + RequestSwitches())
    ensures SameOf(Drop(rest, TimingSwitches()), rest, RequestSwitches())
  {
    hide TimingSwitches, RequestSwitches, NamingSwitches, QueueSwitches, SameOf, Drop;
    GroupsAreApart();
    DropMore(rest, TimingSwitches(), RequestSwitches());
  }

  lemma AfterRequests(rest: seq<Opt>)
    ensures Drop(Drop(rest, TimingSwitches() + RequestSwitches()), NamingSwitches())
            == Drop(rest, TimingSwitches() + RequestSwitches() + NamingSwitches())
    ensures SameOf(Drop(rest, TimingSwitches() + RequestSwitches()), rest, NamingSwitches())
  {
    hide TimingSwitches, RequestSwitches, NamingSwitches, QueueSwitches, SameOf, Drop;
    GroupsAreApart();
    DropMore(rest, TimingSwitches() + RequestSwitches(), NamingSwitches());
  }

  lemma AfterNaming(rest: seq<Opt>)
    ensures Drop(Drop(rest, TimingSwitches() + RequestSwitches() + NamingSwitches()), QueueSwitches())
            == Drop(rest, MiddleSwitches())
    ensures SameOf(Drop(rest, TimingSwitches() + RequestSwitches() + NamingSwitches()), rest, QueueSwitches())
  {
    hide TimingSwitches, RequestSwitches, NamingSwitches, QueueSwitches, SameOf, Drop;
    GroupsAreApart();
    DropMore(rest, TimingSwitches() + RequestSwitches() + NamingSwitches(), QueueSwitches());
  }

  lemma MiddleIsStaged(timing: Job, requests: Job, naming: Job, queues: Job, rest: seq<Opt>, env: Env)
    requires var d := Drop(rest, TimingSwitches()); requests == RequestJob(timing, d, env)
    requires var d := Drop(rest, TimingSwitches() + RequestSwitches()); naming == NamingJob(requests, d)
    requires var d := Drop(rest, TimingSwitches() + RequestSwitches() + NamingSwitches()); queues == QueueJob(naming, d)
    ensures queues == QueueJob(NamingJob(RequestJob(timing, rest, env), rest), rest)
  {
    hide Of, Drop, TimingJob, RequestJob, NamingJob, QueueJob, SameOf;
    AfterTiming(rest);
    RequestsAgree(timing, Drop(rest, TimingSwitches()), rest, env);
    AfterRequests(rest);
    NamingAgrees(requests, Drop(rest, TimingSwitches() + RequestSwitches()), rest);
    AfterNaming(rest);
    QueuesAgree(naming, Drop(rest, TimingSwitches() + RequestSwitches() + NamingSwitches()), rest);
  }

  /** The handlers between -clear and the variables. */
  method ParseMiddle(options: Options, job: Job, env: Env) returns (j: Option<Job>)
    modifies options
    ensures j == if Of(old(options.opts), help_OPT) != [] then None
                 else Some(MiddleJob(job, old(options.opts), env))
    ensures j.Some? ==> options.opts == Drop(old(options.opts), MiddleSwitches())
  {
    hide Of, Drop, TimingJob, RequestJob, NamingJob, QueueJob;
    ghost var rest := options.opts;
    options.Restart();
    var timing := ParseTiming(options, job);
    var help := options.Has(help_OPT);
    if help {
      return None;
    }
    options.Restart();
    var requests := ParseRequests(options, timing, env);
    AfterTiming(rest);
    options.Restart();
    var naming := ParseNaming(options, requests);
    AfterRequests(rest);
    options.Restart();
    var queues := ParseQueues(options, naming);
    AfterNaming(rest);
    MiddleIsStaged(timing, requests, naming, queues, rest, env);
    j := Some(queues);
  }

  lemma DirectoryUntouched(job: Job, c: seq<Opt>, rest: seq<Opt>, env: Env)
    ensures LostDirectory(MiddleJob(EarlyJob(job, c), rest, env), rest, env) == LostDirectory(job, rest, env)
  {
    hide Of, Fold, Compress, Pick;
  }

  lemma LeftoverIsStaged(rest: seq<Opt>)
    ensures var c := Drop(Drop(rest, MiddleSwitches()), Variables() + Contexts() + LastSwitches());
            && SameOf(c, rest, {Script, ScriptLen, ScriptPtr, JobArg})
            && Drop(WithoutFirst(WithoutFirst(WithoutFirst(c, Script), ScriptLen), ScriptPtr), {JobArg})
               == Leftover(rest)
  {
    hide Of, Drop, Pick, WithoutFirst, SameOf, MiddleSwitches, Variables, Contexts, LastSwitches;
    var last := Variables() + Contexts() + LastSwitches();
    var all := MiddleSwitches() + last;
    GroupsAreApart();
    DropOfDrop(rest, MiddleSwitches(), last);
    DroppedAgrees(rest, all, {Script, ScriptLen, ScriptPtr, JobArg});
    NotOneOf(all);
    ScriptsLeft(rest, all);
    LateIsAll();
  }

  lemma NotOneOf(all: set<Switch>)
    requires all !! {Script, ScriptLen, ScriptPtr, JobArg}
    ensures Script !in all && ScriptLen !in all && ScriptPtr !in all
  {
    assert Script in {Script, ScriptLen, ScriptPtr, JobArg};
  }

  lemma LateIsAll()
    ensures MiddleSwitches() + (Variables() + Contexts() + LastSwitches()) + {JobArg} == LateSwitches()
  {
    hide TimingSwitches, RequestSwitches, NamingSwitches, QueueSwitches, Variables, Contexts, LastSwitches;
  }

  lemma ContextUntouched(rest: seq<Opt>)
    ensures var d := Drop(rest, MiddleSwitches());
            && Pick(d, Variables()) == Pick(rest, Variables()) && Pick(d, Contexts()) == Pick(rest, Contexts())
            && SameOf(d, rest, LastSwitches())
  {
    hide Of, Drop, Pick, SameOf, MiddleSwitches, Variables, Contexts, LastSwitches, TimingSwitches, RequestSwitches,
         NamingSwitches, QueueSwitches;
    GroupsAreApart();
    PickOfDrop(rest, MiddleSwitches(), Variables());
    PickOfDrop(rest, MiddleSwitches(), Contexts());
    DroppedAgrees(rest, MiddleSwitches(), LastSwitches());
  }

  lemma ScriptsLeft(rest: seq<Opt>, gone: set<Switch>)
    requires Script !in gone && ScriptLen !in gone && ScriptPtr !in gone
    ensures Drop(WithoutFirst(WithoutFirst(WithoutFirst(Drop(rest, gone), Script), ScriptLen), ScriptPtr), {JobArg})
            == Drop(WithoutFirst(WithoutFirst(WithoutFirst(rest, Script), ScriptLen), ScriptPtr), gone + {JobArg})
  {
    var c1 := WithoutFirst(rest, Script);
    var c2 := WithoutFirst(c1, ScriptLen);
    WithoutFirstOfDrop(rest, Script, gone);
    WithoutFirstOfDrop(c1, ScriptLen, gone);
    WithoutFirstOfDrop(c2, ScriptPtr, gone);
    DropOfDrop(WithoutFirst(c2, ScriptPtr), gone, {JobArg});
  }

  /** The job parser: the outcome is the expected one, and what stays on the list is what nobody handles. */
  method Parse(options: Options, job: Job, env: Env) returns (r: Outcome)
    modifies options
    ensures var c := old(options.opts);
            var rest := AfterClear(EarlyRest(c));
            && r == Expected(job, c, rest, env)
            && (r.Parsed? ==> options.opts == Leftover(rest))
  {
    hide Of, Drop, Pick, EarlyJob, EarlyRest, MiddleJob, ContextJob, ScriptJob, AfterClear, Leftover, NamedJob, WdAfter,
         LostDirectory, WithoutFirst;
    ghost var c := options.opts;
    var early := ParseEarly(options, job);
    if early.structure == None {
      return Stopped(NoMemory);
    }
    options.Clear();
    ghost var rest := options.opts;
    LeftoverIsStaged(rest);
    ContextUntouched(rest);
    var middle := ParseMiddle(options, early, env);
    if middle == None {
      return Stopped(HelpNotAllowed);
    }
    options.Restart();
    var context := ParseContext(options, middle.value, env);
    ContextAgrees(middle.value, Drop(rest, MiddleSwitches()), rest, env);
    DirectoryUntouched(job, c, rest, env);
    if context == None {
      return Stopped(NoWorkingDirectory);
    }
    ScriptAgrees(context.value, options.opts, rest);
    var j := ParseScripts(options, context.value);
    var answers := Complain(options);
    if LacksCommand(j) {
      return Parsed(j, answers + [CommandRequired]);
    }
    return Parsed(NamedJob(j), answers);
  }
}
