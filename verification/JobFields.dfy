/** The remaining fields of the built job, and how parsing ends: arguments, script and name, tasks, checkpoints, and the
    working directory, in terms of the options given. */
module JobFields {
  import opened Machine
  import opened Optional
  import opened OptionList
  import opened JobDefinitions
  import opened JobMeaning
  import opened JobParser
  import opened JobTheorems
  import opened Seqs

  // ----- arguments -----

  lemma {:induction false} ArgsLoop(l: ItemList, es: seq<Opt>)
    ensures var args := Items(Fold(StepArg, l, es));
            && |args| == |Items(l)| + |es| && args[..|Items(l)|] == Items(l)
            && forall k :: 0 <= k < |es| ==> args[|Items(l)| + k] == Pair(es[k].s, None)
    decreases es
  {
    var args, own := Items(Fold(StepArg, l, es)), Items(l);
    if es == [] {
      NothingAdded(own);
    } else {
      var next := StepArg(l, es[0]);
      ArgsLoop(next, es[1..]);
      OneMoreArg(l, es[0]);
      assert own == (own + [Pair(es[0].s, None)])[..|own|] == args[..|own| + 1][..|own|];
      assert args[|own|] == args[..|own| + 1][|own|];
      forall k | 1 <= k < |es|
        ensures args[|own| + k] == Pair(es[k].s, None)
      {
        assert es[k] == es[1..][k - 1];
      }
    }
  }

  lemma OneMoreArg(l: ItemList, e: Opt)
    ensures Items(StepArg(l, e)) == Items(l) + [Pair(e.s, None)]
  {
  }

  lemma BuiltScript(job: Job, c: seq<Opt>, rest: seq<Opt>, env: Env)
    ensures var j := BuiltJob(job, c, rest, env);
            && j.jobArgs == Fold(StepArg, job.jobArgs, Of(rest, JobArg))
            && j.scriptFile == FirstOr(StringOf, job.scriptFile, Of(rest, Script))
            && j.scriptSize == FirstOr(UlongOf, job.scriptSize, Of(rest, ScriptLen))
            && j.scriptPtr == FirstOr(StringOf, job.scriptPtr, Of(rest, ScriptPtr))
  {
    hide Fold, Of, Pick, ArrayType, Compress, OneTask, Append, DefaultMail, FirstOr;
  }

  /** The built job has its own arguments, followed by all arguments of the list in the order given. */
  lemma ArgumentsOfJob(job: Job, c: seq<Opt>, env: Env)
    ensures var args := Items(BuiltJob(job, c, AfterClear(EarlyRest(c)), env).jobArgs);
            var own, given := Items(job.jobArgs), Of(c, JobArg);
            && |args| == |own| + |given| && args[..|own|] == own
            && forall k :: 0 <= k < |given| ==> args[|own| + k] == Pair(given[k].s, None)
  {
    hide BuiltJob, Of, Fold, AfterClear, EarlyRest, TailAfterClear;
    BuiltScript(job, c, AfterClear(EarlyRest(c)), env);
    PseudoSeen(c, JobArg);
    ArgsLoop(job.jobArgs, Of(c, JobArg));
  }

  lemma PseudoSeen(c: seq<Opt>, sw: Switch)
    requires sw == Script || sw == ScriptLen || sw == ScriptPtr || sw == JobArg
    ensures Of(AfterClear(EarlyRest(c)), sw) == Of(c, sw)
  {
    hide Of, AfterClear, EarlyRest, TailAfterClear;
    SeenByHandlers(c, sw);
  }

  lemma FirstString(v: Option<string>, es: seq<Opt>)
    ensures FirstOr(StringOf, v, es) == if es == [] then v else es[0].s
  {
  }

  lemma FirstUlong(v: u32, es: seq<Opt>)
    ensures FirstOr(UlongOf, v, es) == if es == [] then v else es[0].u
  {
  }

  /** The script of the built job is the first one of the list, and so are its size and text; without one the job
      keeps its own. */
  lemma ScriptOfJob(job: Job, c: seq<Opt>, env: Env)
    ensures var j := BuiltJob(job, c, AfterClear(EarlyRest(c)), env);
            && j.scriptFile == (if Of(c, Script) == [] then job.scriptFile else Of(c, Script)[0].s)
            && j.scriptSize == (if Of(c, ScriptLen) == [] then job.scriptSize else Of(c, ScriptLen)[0].u)
            && j.scriptPtr == (if Of(c, ScriptPtr) == [] then job.scriptPtr else Of(c, ScriptPtr)[0].s)
  {
    hide BuiltJob, Of, AfterClear, EarlyRest, TailAfterClear, Fold, FirstOr;
    var rest := AfterClear(EarlyRest(c));
    FirstString(job.scriptFile, Of(rest, Script));
    FirstString(job.scriptPtr, Of(rest, ScriptPtr));
    FirstUlong(job.scriptSize, Of(rest, ScriptLen));
    BuiltScript(job, c, rest, env);
    PseudoSeen(c, Script);
    PseudoSeen(c, ScriptLen);
    PseudoSeen(c, ScriptPtr);
  }

  // ----- the name -----

  lemma BasenameBehind(dir: string, name: string)
    requires '/' !in name
    ensures LastSlash(dir + "/" + name) == |dir|
    ensures Basename(Some(dir + "/" + name)) == if name == "" then None else Some(name)
  {
    hide LastSlash;
    var path := dir + "/" + name;
    Rejoined(dir + "/", name);
    assert path[|dir|] == '/';
    forall j | |dir| < j < |path|
      ensures path[j] != '/'
    {
      assert path[j] == name[j - |dir| - 1] && path[j] in name;
    }
  }

  lemma BasenameWhole(name: string)
    requires '/' !in name
    ensures Basename(Some(name)) == if name == "" then None else Some(name)
  {
    hide LastSlash;
    NothingAdded(name);
    SlashIsThere(name);
  }

  lemma SlashIsThere(path: string)
    ensures LastSlash(path) >= 0 ==> '/' in path
  {
    hide LastSlash;
  }

  /** A name is what stands behind the last slash of a path. */
  lemma BasenameExactly(path: string, name: string)
    ensures Basename(Some(path)) == Some(name)
            <==> name != "" && '/' !in name && (path == name || exists dir: string :: path == dir + "/" + name)
  {
    hide LastSlash, Basename;
    var p := LastSlash(path);
    var dir, base := PathParts(path);
    if p >= 0 {
      BasenameBehind(dir, base);
    } else {
      BasenameWhole(path);
    }
    if d: string :| '/' !in name && path == d + "/" + name {
      BasenameBehind(d, name);
    } else if '/' !in name && path == name {
      BasenameWhole(name);
    }
  }

  lemma PathParts(path: string) returns (dir: string, base: string)
    ensures '/' !in base
    ensures LastSlash(path) >= 0 ==> path == dir + "/" + base
    ensures LastSlash(path) < 0 ==> path == base
  {
    hide LastSlash;
    var p := LastSlash(path);
    if p >= 0 {
      dir, base := path[..p], path[p + 1..];
      SplitAt(path, p);
    } else {
      dir, base := "", path;
    }
  }

  /** An empty path has no name, nor has one that ends with a slash. */
  lemma NoBasename(path: string)
    ensures Basename(Some(path)) == None <==> path == "" || path[|path| - 1] == '/'
  {
    hide LastSlash;
  }

  /** How parsing ends with the names: a job without a script, or with "-", reads it from the input, unless it is
      binary and lacks a command; and a job without a name has that of its script. */
  lemma NamesOfJob(job: Job, c: seq<Opt>, env: Env)
    requires OutcomeOf(job, c, env).Parsed?
    ensures var j := BuiltJob(job, c, AfterClear(EarlyRest(c)), env);
            var Parsed(f, answers) := OutcomeOf(job, c, env);
            var none := j.scriptFile == None || j.scriptFile == Some("-");
            if none && JOB_TYPE_BINARY in j.jobType then
              f == j && answers != [] && answers[|answers| - 1] == CommandRequired
            else
              && CommandRequired !in answers
              && f.scriptFile == (if none then Some("STDIN") else j.scriptFile)
              && f.jobName == (if j.jobName != None then j.jobName else Basename(f.scriptFile))
              && f == j.(scriptFile := f.scriptFile, jobName := f.jobName)
  {
    hide BuiltJob, AfterClear, EarlyRest, EarlyJob, Of, LostDirectory, Leftover, Basename;
  }

  // ----- tasks and binding -----

  /** The tasks are those of the first -t of the whole list; without one there is a single task, number 1, which takes
      the place of the first range. The binding is that of the first -binding. */
  lemma TasksOfJob(job: Job, c: seq<Opt>, env: Env)
    ensures var j := BuiltJob(job, c, AfterClear(EarlyRest(c)), env);
            && (if Of(c, t_OPT) != [] then j.structure == Of(c, t_OPT)[0].list
                else
                  var own := Items(job.structure);
                  j.structure == Some([Range(1, 1, 1)] + if own == [] then [] else own[1..]))
            && j.binding == (if Of(c, binding_OPT) == [] then job.binding else Of(c, binding_OPT)[0].list)
            && j.otherHold == j.systemHold == j.arrayHold == None
  {
    BuiltTasks(job, c, AfterClear(EarlyRest(c)), env);
    hide BuiltJob, Of, AfterClear, EarlyRest;
    NothingAdded([Range(1, 1, 1)]);
  }

  lemma BuiltTasks(job: Job, c: seq<Opt>, rest: seq<Opt>, env: Env)
    ensures var j := BuiltJob(job, c, rest, env);
            && j.structure == (if Of(c, t_OPT) == [] then OneTask(job.structure) else Of(c, t_OPT)[0].list)
            && j.binding == FirstOr(ListOf, job.binding, Of(c, binding_OPT))
            && j.otherHold == j.systemHold == j.arrayHold == None
  {
    hide Fold, Of, Pick, ArrayType, Compress, OneTask, Append, DefaultMail, FirstOr;
  }

  // ----- checkpoints -----

  lemma BuiltCheckpoint(job: Job, c: seq<Opt>, rest: seq<Opt>, env: Env)
    ensures BuiltJob(job, c, rest, env).checkpoint == Fold(StepCheckpoint, job.checkpoint, Of(rest, c_OPT))
  {
    hide Fold, Of, Pick, ArrayType, Compress, OneTask, Append, DefaultMail, FirstOr;
  }

  /** The interval of the built job is that of the last -c with one behind the last -clear, the occasions those of the
      last -c with occasions. */
  lemma CheckpointOfJob(job: Job, c: seq<Opt>, env: Env)
    ensures var checkpoint := BuiltJob(job, c, AfterClear(EarlyRest(c)), env).checkpoint;
            var es := Of(TailAfterClear(c), c_OPT);
            && checkpoint.interval == LastOr(IntervalOf, job.checkpoint.interval, OfType(es, LongArg))
            && checkpoint.attr == LastOr(IntOf, job.checkpoint.attr, OfType(es, IntArg))
  {
    hide BuiltJob, Of, Fold, AfterClear, EarlyRest, TailAfterClear, OfType, LastOr;
    BuiltCheckpoint(job, c, AfterClear(EarlyRest(c)), env);
    SeenByHandlers(c, c_OPT);
    CheckpointLoop(job.checkpoint, Of(TailAfterClear(c), c_OPT));
  }

  // ----- the working directory -----

  lemma BuiltDirectory(job: Job, c: seq<Opt>, rest: seq<Opt>, env: Env)
    ensures var j := BuiltJob(job, c, rest, env);
            var before := Wd(env.reroot(j.env), env.aliases, job.cwd, job.pathAliases, false);
            var w := Fold(StepWd, before, Of(rest, wd_OPT));
            j.cwd == w.cwd && j.pathAliases == w.aliases && LostDirectory(job, rest, env) == w.failed
  {
    hide Fold, Of, Pick, ArrayType, Compress, OneTask, Append, DefaultMail, FirstOr;
  }

  /** The directory of the built job is that of the last -wd or -cwd behind the last -clear, the current one if that has
      none; without an option the job keeps its own. The current directory is looked up with the variables of the built
      job, and is missed exactly if it is unknown and any of the options has none. */
  lemma DirectoryOfJob(job: Job, c: seq<Opt>, env: Env)
    ensures var rest := AfterClear(EarlyRest(c));
            var j := BuiltJob(job, c, rest, env);
            var es := Of(TailAfterClear(c), wd_OPT);
            var here := env.reroot(j.env);
            && (LostDirectory(job, rest, env) <==> here == None && exists i :: 0 <= i < |es| && es[i].s == None)
            && (!LostDirectory(job, rest, env) ==>
                  if es == [] then j.cwd == job.cwd && j.pathAliases == job.pathAliases
                  else
                    && j.cwd == (if es[|es| - 1].s == None then here else es[|es| - 1].s)
                    && j.pathAliases == env.aliases)
  {
    hide BuiltJob, Of, Fold, AfterClear, EarlyRest, TailAfterClear, LostDirectory;
    var rest := AfterClear(EarlyRest(c));
    var j := BuiltJob(job, c, rest, env);
    BuiltDirectory(job, c, rest, env);
    SeenByHandlers(c, wd_OPT);
    var es := Of(TailAfterClear(c), wd_OPT);
    WdLoop(Wd(env.reroot(j.env), env.aliases, job.cwd, job.pathAliases, false), es);
    AnyHereIs(es);
  }

  lemma {:induction false} AnyHereIs(es: seq<Opt>)
    ensures AnyHere(es) <==> exists i :: 0 <= i < |es| && es[i].s == None
  {
    if es != [] {
      AnyHereIs(es[1..]);
      if i :| 0 <= i < |es[1..]| && es[1..][i].s == None {
        assert es[i + 1].s == None;
      }
      if i :| 0 <= i < |es| && es[i].s == None {
        assert i > 0 ==> es[1..][i - 1].s == None;
      }
    }
  }

  // ----- how parsing ends -----

  /** Parsing is given up for the first -t of the list if it has no tasks; else for any -help behind the last -clear;
      else for a missing current directory; and for nothing else. */
  lemma GivenUpExactly(job: Job, c: seq<Opt>, env: Env)
    ensures var o := OutcomeOf(job, c, env);
            var tail := TailAfterClear(c);
            var here := env.reroot(BuiltJob(job, c, AfterClear(EarlyRest(c)), env).env);
            var noTasks := Of(c, t_OPT) != [] && Of(c, t_OPT)[0].list == None;
            var noHere := here == None && exists i :: 0 <= i < |Of(tail, wd_OPT)| && Of(tail, wd_OPT)[i].s == None;
            o == (if noTasks then Stopped(NoMemory)
                  else if Of(tail, help_OPT) != [] then Stopped(HelpNotAllowed)
                  else if noHere then Stopped(NoWorkingDirectory)
                  else o)
            && (o.Parsed? <==> !noTasks && Of(tail, help_OPT) == [] && !noHere)
  {
    var rest := AfterClear(EarlyRest(c));
    EarlyTasks(job, c);
    hide BuiltJob, Of, AfterClear, EarlyRest, TailAfterClear, LostDirectory, EarlyJob, Leftover, LacksCommand, NamedJob;
    SeenByHandlers(c, help_OPT);
    DirectoryOfJob(job, c, env);
  }

  lemma EarlyTasks(job: Job, c: seq<Opt>)
    ensures EarlyJob(job, c).structure == None <==> Of(c, t_OPT) != [] && Of(c, t_OPT)[0].list == None
  {
    hide Of, Fold;
  }
}
