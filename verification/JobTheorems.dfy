/** What the job parser's outcome means for the options a user gives. */
module JobTheorems {
  import opened Optional
  import opened OptionList
  import opened JobParser
  import opened Seqs

  // ----- which options the handlers after -clear see -----

  const EARLY: set<Switch> := {b_OPT, binding_OPT, shell_OPT, t_OPT, tc_OPT}

  /** The options after the last -clear; all of them if there is none. */
  function TailAfterClear(c: seq<Opt>): seq<Opt> {
    c[LastClear(c) + 1..]
  }

  /** The options up to the last -clear. */
  function HeadToClear(c: seq<Opt>): seq<Opt> {
    c[..LastClear(c) + 1]
  }

  lemma NothingBeforeClear(c: seq<Opt>)
    requires LastClear(c) < 0
    ensures HeadToClear(c) == [] && TailAfterClear(c) == c
  {
    NothingAdded(c);
  }

  /** A list around its last -clear. */
  lemma SplitAtClear(c: seq<Opt>) returns (h: seq<Opt>, k: Opt, t: seq<Opt>)
    requires LastClear(c) >= 0
    ensures c == h + [k] + t && k.sw == clear_OPT && LastClear(t) < 0
    ensures HeadToClear(c) == h + [k] && TailAfterClear(c) == t
  {
    hide LastClear;
    var q := LastClear(c);
    h, k, t := c[..q], c[q], c[q + 1..];
    SplitAt(c, q);
    LastClearIs(t, -1);
  }

  /** All switches of the set start with '-', or none does. */
  ghost predicate AllDashed(sws: set<Switch>, dashed: bool) {
    forall sw :: sw in sws ==> Dashed(sw) == dashed
  }

  lemma {:induction false} UndashedPick(c: seq<Opt>, sws: set<Switch>, dashed: bool)
    requires AllDashed(sws, dashed)
    ensures Pick(Undashed(c), sws) == if dashed then [] else Pick(c, sws)
  {
    if c != [] {
      UndashedPick(c[1..], sws, dashed);
      if !Dashed(c[0].sw) {
        assert ([c[0]] + Undashed(c[1..]))[1..] == Undashed(c[1..]);
      }
    }
  }

  lemma {:induction false} NoClearIff(c: seq<Opt>)
    ensures Of(c, clear_OPT) == [] <==> LastClear(c) < 0
  {
    if c != [] {
      var n := |c| - 1;
      assert c == c[..n] + [c[n]];
      NoClearIff(c[..n]);
      PickConcat(c[..n], [c[n]], {clear_OPT});
    }
  }

  lemma WithoutFirstStep(e: Opt, c: seq<Opt>, sw: Switch)
    ensures WithoutFirst([e] + c, sw) == if e.sw == sw then c else [e] + WithoutFirst(c, sw)
    ensures Of([e] + c, sw) == (if e.sw == sw then [e] else []) + Of(c, sw)
  {
    assert ([e] + c)[1..] == c;
  }

  lemma {:induction false} WithoutFirstConcat(a: seq<Opt>, b: seq<Opt>, sw: Switch)
    ensures WithoutFirst(a + b, sw)
            == if Of(a, sw) != [] then WithoutFirst(a, sw) + b else a + WithoutFirst(b, sw)
    decreases a
  {
    if a == [] {
      assert a + b == b;
      assert [] + WithoutFirst(b, sw) == WithoutFirst(b, sw);
    } else {
      hide WithoutFirst, Of;
      var e, rest := a[0], a[1..];
      Reassociate([e], rest, b);
      Reassociate([e], rest, WithoutFirst(b, sw));
      Reassociate([e], WithoutFirst(rest, sw), b);
      assert a == [e] + rest;
      WithoutFirstStep(e, rest, sw);
      WithoutFirstStep(e, rest + b, sw);
      WithoutFirstConcat(rest, b, sw);
    }
  }

  /** Removing a first occurrence around a -clear leaves a list around the same -clear. */
  lemma WithoutFirstAround(h: seq<Opt>, k: Opt, t: seq<Opt>, first: Switch) returns (h': seq<Opt>, t': seq<Opt>)
    requires k.sw != first
    ensures WithoutFirst(h + [k] + t, first) == h' + [k] + t'
    ensures forall sws :: first !in sws ==> Pick(h', sws) == Pick(h, sws) && Pick(t', sws) == Pick(t, sws)
    ensures Pick(t', {first}) == if Pick(h, {first}) == [] then ButFirst(Pick(t, {first})) else Pick(t, {first})
  {
    hide Pick, WithoutFirst;
    WithoutFirstSplit(h, k, t, first);
    FirstGone(t, first, first);
    if Of(h, first) != [] {
      h', t' := WithoutFirst(h, first), t;
      forall sws | first !in sws { WithoutFirstOther(h, first, sws); }
    } else {
      h', t' := h, WithoutFirst(t, first);
      forall sws | first !in sws { WithoutFirstOther(t, first, sws); }
    }
  }

  lemma WithoutFirstSplit(h: seq<Opt>, k: Opt, t: seq<Opt>, first: Switch)
    requires k.sw != first
    ensures WithoutFirst(h + [k] + t, first)
            == if Of(h, first) != [] then WithoutFirst(h, first) + [k] + t else h + [k] + WithoutFirst(t, first)
  {
    hide Of, WithoutFirst;
    WithoutFirstConcat(h, [k] + t, first);
    WithoutFirstStep(k, t, first);
    Reassociate(h, [k], t);
    Reassociate(WithoutFirst(h, first), [k], t);
    Reassociate(h, [k], WithoutFirst(t, first));
  }

  lemma EarlyRestPick(c: seq<Opt>, sws: set<Switch>)
    requires sws !! EARLY
    ensures Pick(EarlyRest(c), sws) == Pick(c, sws)
  {
    var c1 := WithoutFirst(c, binding_OPT);
    WithoutFirstOther(c, binding_OPT, sws);
    WithoutFirstOther(c1, t_OPT, sws);
    PickOfDrop(WithoutFirst(c1, t_OPT), {b_OPT, shell_OPT, tc_OPT}, sws);
  }

  function ButFirst(es: seq<Opt>): seq<Opt> {
    if es == [] then [] else es[1..]
  }

  lemma DropAround(h: seq<Opt>, k: Opt, t: seq<Opt>, gone: set<Switch>)
    requires k.sw !in gone
    ensures Drop(h + [k] + t, gone) == Drop(h, gone) + [k] + Drop(t, gone)
  {
    DropConcat(h + [k], t, gone);
    DropConcat(h, [k], gone);
    assert Drop([k], gone) == [k];
  }

  lemma EarlyRestAround(h: seq<Opt>, k: Opt, t: seq<Opt>) returns (h': seq<Opt>, t': seq<Opt>)
    requires k.sw == clear_OPT
    ensures EarlyRest(h + [k] + t) == h' + [k] + t'
    ensures forall sws :: sws !! EARLY ==> Pick(h', sws) == Pick(h, sws) && Pick(t', sws) == Pick(t, sws)
    ensures forall sw :: sw in {binding_OPT, t_OPT} ==>
              Pick(t', {sw}) == if Pick(h, {sw}) == [] then ButFirst(Pick(t, {sw})) else Pick(t, {sw})
  {
    var gone := {b_OPT, shell_OPT, tc_OPT};
    hide Pick, Drop, WithoutFirst, ButFirst;
    var h1, t1 := WithoutFirstAround(h, k, t, binding_OPT);
    var h2, t2 := WithoutFirstAround(h1, k, t1, t_OPT);
    h', t' := Drop(h2, gone), Drop(t2, gone);
    PickOfDrop(t2, gone, {binding_OPT});
    PickOfDrop(t2, gone, {t_OPT});
    DropAround(h2, k, t2, gone);
    forall sws | sws !! EARLY
      ensures Pick(h', sws) == Pick(h, sws) && Pick(t', sws) == Pick(t, sws)
    {
      PickOfDrop(h2, gone, sws);
      PickOfDrop(t2, gone, sws);
    }
  }

  /** What the handlers of some switches get to see after -clear: the dash options behind the last -clear,
      and every pseudo-argument. */
  lemma HandlersSee(c: seq<Opt>, sws: set<Switch>, dashed: bool)
    requires sws !! EARLY && clear_OPT !in sws && AllDashed(sws, dashed)
    ensures Pick(AfterClear(EarlyRest(c)), sws) == Pick(if dashed then TailAfterClear(c) else c, sws)
  {
    hide Pick, EarlyRest, AfterClear, AllDashed, LastClear, TailAfterClear, HeadToClear;
    NoClearIff(c);
    if LastClear(c) < 0 {
      NothingBeforeClear(c);
      EarlyRestPick(c, {clear_OPT});
      EarlyRestPick(c, sws);
      NoClearIff(EarlyRest(c));
      NothingCleared(EarlyRest(c));
    } else {
      var h, k, t := SplitAtClear(c);
      var h', t' := EarlyRestAround(h, k, t);
      assert {clear_OPT} !! EARLY;
      ClearedAround(h', k, t', h, t, sws, dashed);
    }
  }

  lemma NothingCleared(c: seq<Opt>)
    requires LastClear(c) < 0
    ensures AfterClear(c) == c
  {
  }

  lemma ClearedAround(h': seq<Opt>, k: Opt, t': seq<Opt>, h: seq<Opt>, t: seq<Opt>, sws: set<Switch>, dashed: bool)
    requires k.sw == clear_OPT && clear_OPT !in sws && AllDashed(sws, dashed)
    requires Of(t', clear_OPT) == Of(t, clear_OPT) && LastClear(t) < 0
    requires Pick(h', sws) == Pick(h, sws) && Pick(t', sws) == Pick(t, sws)
    ensures Pick(AfterClear(h' + [k] + t'), sws) == if dashed then Pick(t, sws) else Pick(h + [k] + t, sws)
  {
    hide Pick, AfterClear, Undashed, LastClear, AllDashed;
    NoClearIff(t);
    NoClearIff(t');
    ClearBeforeTail(h', k, t');
    PickConcat(Undashed(h'), t', sws);
    UndashedPick(h', sws, dashed);
    PickConcat(h + [k], t, sws);
    PickConcat(h, [k], sws);
    NotPicked(k, sws);
    NothingAdded(Pick(h, sws));
    NothingAdded(Pick(t, sws));
  }

  lemma NotPicked(k: Opt, sws: set<Switch>)
    requires k.sw !in sws
    ensures Pick([k], sws) == []
  {
  }

  lemma SeenByHandlers(c: seq<Opt>, sw: Switch)
    requires sw !in EARLY && sw != clear_OPT
    ensures Of(AfterClear(EarlyRest(c)), sw) == Of(if Dashed(sw) then TailAfterClear(c) else c, sw)
  {
    HandlersSee(c, {sw}, Dashed(sw));
  }

  // ----- order only matters within a switch -----

  /** The same options of every late switch in the same order, taking -v with -V, and -ac with -dc and -sc. */
  ghost predicate SameSubsequences(c: seq<Opt>, d: seq<Opt>) {
    && Pick(c, Variables()) == Pick(d, Variables())
    && Pick(c, Contexts()) == Pick(d, Contexts())
    && forall sw :: Alone(sw) ==> Of(c, sw) == Of(d, sw)
  }

  /** Neither early nor -clear nor handled together with another switch. */
  predicate Alone(sw: Switch) {
    sw !in EARLY && sw != clear_OPT && sw !in Variables() && sw !in Contexts()
  }

  ghost function JobOf(o: Outcome): Option<Job> {
    if o.Parsed? then Some(o.job) else None
  }

  /** The outcome of parsing a list from the start. */
  function OutcomeOf(job: Job, c: seq<Opt>, env: Env): Outcome {
    Expected(job, c, AfterClear(EarlyRest(c)), env)
  }

  /** The job depends on no more than the subsequence of each early switch and of each pseudo-argument,
      and the subsequences behind the last -clear: lists that agree on these build the same job,
      or are given up for the same reason. */
  lemma ReorderingKeepsJob(job: Job, env: Env, c: seq<Opt>, d: seq<Opt>)
    requires SameOf(c, d, EARLY)
    requires forall sw :: !Dashed(sw) ==> Of(c, sw) == Of(d, sw)
    requires SameSubsequences(TailAfterClear(c), TailAfterClear(d))
    ensures JobOf(OutcomeOf(job, c, env)) == JobOf(OutcomeOf(job, d, env))
    ensures OutcomeOf(job, c, env).Stopped? ==> OutcomeOf(job, c, env) == OutcomeOf(job, d, env)
  {
    hide Of, Pick, Dashed, Expected, EarlyRest, AfterClear, TailAfterClear, SameOf;
    assert AllDashed(Variables(), true) && AllDashed(Contexts(), true) by { DashedGroups(); }
    HandlersSee(c, Variables(), true);
    HandlersSee(d, Variables(), true);
    HandlersSee(c, Contexts(), true);
    HandlersSee(d, Contexts(), true);
    var rest, rest' := AfterClear(EarlyRest(c)), AfterClear(EarlyRest(d));
    forall sw | Alone(sw)
      ensures Of(rest, sw) == Of(rest', sw)
    {
      SeenByHandlers(c, sw);
      SeenByHandlers(d, sw);
    }
    OrderIsIrrelevant(job, env, c, d, rest, rest');
  }

  lemma DashedGroups()
    ensures AllDashed(Variables(), true) && AllDashed(Contexts(), true)
  {
  }

  lemma OrderIsIrrelevant(job: Job, env: Env, c: seq<Opt>, d: seq<Opt>, rest: seq<Opt>, rest': seq<Opt>)
    requires SameOf(c, d, EARLY)
    requires SameSubsequences(rest, rest')
    ensures JobOf(Expected(job, c, rest, env)) == JobOf(Expected(job, d, rest', env))
    ensures Expected(job, c, rest, env).Stopped? ==> Expected(job, c, rest, env) == Expected(job, d, rest', env)
  {
    hide Of, Pick, EarlyJob, MiddleJob, ContextJob, ScriptJob, LostDirectory, NamedJob, Complaints, Leftover,
         LacksCommand, SameOf, SameSubsequences;
    SameGroups(rest, rest');
    EarlyAgrees(job, c, d);
    var early := EarlyJob(job, c);
    MiddleAgrees(early, rest, rest', env);
    ContextAgrees(MiddleJob(early, rest, env), rest, rest', env);
    ContextAgrees(job, rest, rest', env);
    ScriptAgrees(ContextJob(MiddleJob(early, rest, env), rest, env), rest, rest');
  }

  ghost predicate AllAlone(sws: set<Switch>) {
    forall sw :: sw in sws ==> Alone(sw)
  }

  lemma EarlyStages()
    ensures AtStage(EARLY, 0) && AtStage({clear_OPT}, 1)
  {
  }

  lemma AloneByStage(sws: set<Switch>, n: nat)
    requires AtStage(sws, n) && n !in {0, 1, 6, 7}
    ensures AllAlone(sws)
  {
    hide Stage, Variables, Contexts;
    EarlyStages();
    StageOfVariables();
    StageOfContexts();
    assert clear_OPT in {clear_OPT};
  }

  lemma GroupsAreAlone()
    ensures AllAlone(TimingSwitches()) && AllAlone(RequestSwitches())
    ensures AllAlone(NamingSwitches()) && AllAlone(QueueSwitches())
    ensures AllAlone(LastSwitches()) && AllAlone({Script, ScriptLen, ScriptPtr, JobArg})
    ensures Alone(help_OPT)
  {
    hide AllAlone, AtStage, TimingSwitches, RequestSwitches, NamingSwitches, QueueSwitches, LastSwitches;
    StageOfTiming();
    StageOfRequests();
    StageOfNaming();
    StageOfQueues();
    StageOfLast();
    StageOfScripts();
    AloneByStage(TimingSwitches(), 2);
    AloneByStage(RequestSwitches(), 3);
    AloneByStage(NamingSwitches(), 4);
    AloneByStage(QueueSwitches(), 5);
    AloneByStage(LastSwitches(), 8);
    AloneByStage({Script, ScriptLen, ScriptPtr, JobArg}, 9);
  }

  lemma SameGroups(c: seq<Opt>, d: seq<Opt>)
    requires SameSubsequences(c, d)
    ensures SameOf(c, d, TimingSwitches()) && SameOf(c, d, RequestSwitches())
    ensures SameOf(c, d, NamingSwitches()) && SameOf(c, d, QueueSwitches())
    ensures SameOf(c, d, LastSwitches()) && SameOf(c, d, {Script, ScriptLen, ScriptPtr, JobArg})
    ensures Pick(c, Variables()) == Pick(d, Variables()) && Pick(c, Contexts()) == Pick(d, Contexts())
    ensures Of(c, help_OPT) == Of(d, help_OPT)
  {
    hide Of, Pick, TimingSwitches, RequestSwitches, NamingSwitches, QueueSwitches, LastSwitches, Alone;
    GroupsAreAlone();
    SameIfAlone(c, d, TimingSwitches());
    SameIfAlone(c, d, RequestSwitches());
    SameIfAlone(c, d, NamingSwitches());
    SameIfAlone(c, d, QueueSwitches());
    SameIfAlone(c, d, LastSwitches());
    SameIfAlone(c, d, {Script, ScriptLen, ScriptPtr, JobArg});
  }

  lemma SameIfAlone(c: seq<Opt>, d: seq<Opt>, sws: set<Switch>)
    requires SameSubsequences(c, d) && AllAlone(sws)
    ensures SameOf(c, d, sws)
  {
    hide Of, Pick, Alone;
  }

  lemma EarlyAgrees(j: Job, c: seq<Opt>, d: seq<Opt>)
    requires SameOf(c, d, EARLY)
    ensures EarlyJob(j, c) == EarlyJob(j, d)
  {
    hide Of, Fold, ArrayType;
  }

  lemma MiddleAgrees(j: Job, c: seq<Opt>, d: seq<Opt>, env: Env)
    requires SameSubsequences(c, d)
    ensures MiddleJob(j, c, env) == MiddleJob(j, d, env)
  {
    hide Of, Pick, SameOf, SameSubsequences, TimingJob, RequestJob, NamingJob, QueueJob;
    SameGroups(c, d);
    TimingAgrees(j, c, d);
    RequestsAgree(TimingJob(j, c), c, d, env);
    NamingAgrees(RequestJob(TimingJob(j, c), c, env), c, d);
    QueuesAgree(NamingJob(RequestJob(TimingJob(j, c), c, env), c), c, d);
  }

  // ----- every option is handled or reported -----

  /** What is reported of a switch: nothing if every occurrence is handled; of the script pseudo-arguments all but
      the first, of -t and -binding the ones behind the last -clear but the first of the whole list; of any other
      switch every occurrence that no -clear removed. */
  function Reported(c: seq<Opt>, sw: Switch): seq<Opt> {
    match sw
    case Other(_) => Of(if Dashed(sw) then TailAfterClear(c) else c, sw)
    case help_OPT => Of(TailAfterClear(c), sw)
    case Script | ScriptLen | ScriptPtr => ButFirst(Of(c, sw))
    case binding_OPT | t_OPT =>
      if Of(HeadToClear(c), sw) == [] then ButFirst(Of(TailAfterClear(c), sw)) else Of(TailAfterClear(c), sw)
    case _ => []
  }

  /** The switches handled behind -clear are all known ones but those handled before it, -help, and the script. */
  lemma LateSwitchesAre(sw: Switch)
    ensures sw in LateSwitches()
            <==> !sw.Other? && sw !in {b_OPT, shell_OPT, tc_OPT, clear_OPT, binding_OPT, t_OPT, help_OPT}
                 && sw !in {Script, ScriptLen, ScriptPtr}
  {
    hide TimingSwitches, RequestSwitches, NamingSwitches, QueueSwitches, Variables, Contexts, LastSwitches, Stage;
    StageOfTiming();
    StageOfRequests();
    StageOfNaming();
    StageOfQueues();
    StageOfVariables();
    StageOfContexts();
    StageOfLast();
    TimingIsStage(sw);
    RequestsAreStage(sw);
    NamingIsStage(sw);
    QueuesAreStage(sw);
    LastAreStages(sw);
    LateStages(sw);
  }

  lemma LateStages(sw: Switch)
    ensures 2 <= Stage(sw) <= 8 || sw == JobArg
            <==> !sw.Other? && sw !in {b_OPT, shell_OPT, tc_OPT, clear_OPT, binding_OPT, t_OPT, help_OPT}
                 && sw !in {Script, ScriptLen, ScriptPtr}
  {
  }

  lemma TimingIsStage(sw: Switch)
    ensures Stage(sw) == 2 ==> sw in TimingSwitches()
  {
  }

  lemma RequestsAreStage(sw: Switch)
    ensures Stage(sw) == 3 ==> sw in RequestSwitches()
  {
  }

  lemma NamingIsStage(sw: Switch)
    ensures Stage(sw) == 4 ==> sw in NamingSwitches()
  {
  }

  lemma QueuesAreStage(sw: Switch)
    ensures Stage(sw) == 5 ==> sw in QueueSwitches()
  {
  }

  lemma LastAreStages(sw: Switch)
    ensures Stage(sw) == 6 ==> sw in Variables()
    ensures Stage(sw) == 7 ==> sw in Contexts()
    ensures Stage(sw) == 8 ==> sw in LastSwitches()
  {
  }

  /** The parser complains about exactly the options reported, each once. */
  lemma ReportedOnce(c: seq<Opt>, sw: Switch)
    ensures Of(Leftover(AfterClear(EarlyRest(c))), sw) == Reported(c, sw)
  {
    hide Pick, Drop, Of, WithoutFirst, EarlyRest, AfterClear, Leftover, LastClear, TailAfterClear, HeadToClear,
         ButFirst, LateSwitches;
    var rest := AfterClear(EarlyRest(c));
    LeftoverOf(rest, sw);
    LateSwitchesAre(sw);
    if sw in LateSwitches() {
    } else if sw !in EARLY && sw != clear_OPT {
      SeenByHandlers(c, sw);
    } else if sw == clear_OPT {
      ClearGone(EarlyRest(c));
    } else if sw in {b_OPT, shell_OPT, tc_OPT} {
      EarlyGone(c, sw);
    } else {
      TasksSeen(c, sw);
    }
  }

  lemma LeftoverOf(rest: seq<Opt>, sw: Switch)
    ensures Of(Leftover(rest), sw) ==
            if sw in LateSwitches() then []
            else if sw in {Script, ScriptLen, ScriptPtr} then ButFirst(Of(rest, sw))
            else Of(rest, sw)
  {
    var c1 := WithoutFirst(rest, Script);
    var c2 := WithoutFirst(c1, ScriptLen);
    var c3 := WithoutFirst(c2, ScriptPtr);
    if sw in LateSwitches() {
      NothingToPick(Leftover(rest), {sw});
    } else {
      PickOfDrop(c3, LateSwitches(), {sw});
      FirstGone(rest, Script, sw);
      FirstGone(c1, ScriptLen, sw);
      FirstGone(c2, ScriptPtr, sw);
    }
  }

  lemma FirstGone(c: seq<Opt>, first: Switch, sw: Switch)
    ensures Of(WithoutFirst(c, first), sw) == if sw == first then ButFirst(Of(c, sw)) else Of(c, sw)
  {
    if sw == first {
      WithoutFirstPick(c, sw);
    } else {
      WithoutFirstOther(c, first, {sw});
    }
  }

  lemma {:induction false} UndashedSubset(c: seq<Opt>)
    ensures forall e :: e in Undashed(c) ==> e in c
  {
    if c != [] {
      UndashedSubset(c[1..]);
    }
  }

  lemma ClearGone(c: seq<Opt>)
    ensures Of(AfterClear(c), clear_OPT) == []
  {
    UndashedSubset(c[..if LastClear(c) < 0 then 0 else LastClear(c)]);
    NothingToPick(AfterClear(c), {clear_OPT});
  }

  lemma EarlyGone(c: seq<Opt>, sw: Switch)
    requires sw in {b_OPT, shell_OPT, tc_OPT}
    ensures Of(AfterClear(EarlyRest(c)), sw) == []
  {
    var rest := EarlyRest(c);
    UndashedSubset(rest[..if LastClear(rest) < 0 then 0 else LastClear(rest)]);
    NothingToPick(AfterClear(rest), {sw});
  }

  lemma TasksSeen(c: seq<Opt>, sw: Switch)
    requires sw in {binding_OPT, t_OPT}
    ensures Of(AfterClear(EarlyRest(c)), sw)
            == if Of(HeadToClear(c), sw) == [] then ButFirst(Of(TailAfterClear(c), sw))
               else Of(TailAfterClear(c), sw)
  {
    hide Pick, EarlyRest, AfterClear, LastClear, TailAfterClear, HeadToClear;
    if LastClear(c) < 0 {
      NothingBeforeClear(c);
      NoClearIff(c);
      EarlyRestPick(c, {clear_OPT});
      NoClearIff(EarlyRest(c));
      NothingCleared(EarlyRest(c));
      OfEarlyRest(c, sw);
      NothingToPick([], {sw});
    } else {
      var h, k, t := SplitAtClear(c);
      TasksSeenAround(h, k, t, sw);
    }
  }

  lemma TasksSeenAround(h: seq<Opt>, k: Opt, t: seq<Opt>, sw: Switch)
    requires sw in {binding_OPT, t_OPT}
    requires k.sw == clear_OPT && LastClear(t) < 0
    ensures Of(AfterClear(EarlyRest(h + [k] + t)), sw)
            == if Of(h + [k], sw) == [] then ButFirst(Of(t, sw)) else Of(t, sw)
  {
    hide Pick, EarlyRest, AfterClear, LastClear, Undashed;
    var h', t' := EarlyRestAround(h, k, t);
    assert {clear_OPT} !! EARLY;
    NoClearIff(t);
    NoClearIff(t');
    ClearedAround(h', k, t', h', t', {sw}, true);
    PickConcat(h, [k], {sw});
    NothingToPick([k], {sw});
  }

  /** -binding and -t lose their first option to the early handlers. */
  lemma OfEarlyRest(c: seq<Opt>, sw: Switch)
    requires sw in {binding_OPT, t_OPT}
    ensures Of(EarlyRest(c), sw) == ButFirst(Of(c, sw))
  {
    var c1 := WithoutFirst(c, binding_OPT);
    FirstGone(c, binding_OPT, sw);
    FirstGone(c1, t_OPT, sw);
    PickOfDrop(WithoutFirst(c1, t_OPT), {b_OPT, shell_OPT, tc_OPT}, {sw});
  }
}
