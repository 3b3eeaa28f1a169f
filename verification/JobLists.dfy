/** The lists of the built job: paths, recipients and shells that are merged, job names, and lists that are appended. */
module JobLists {
  import opened Optional
  import opened OptionList
  import opened JobDefinitions
  import opened JobMeaning
  import opened JobParser
  import opened JobTheorems
  import opened Seqs

  // ----- merged lists -----

  /** Of lists of pairs: r has the last of all definitions of key in l and in the options, exactly unless the list
      merged into defines the key twice and a later one has another value. */
  ghost predicate LastUnlessDoubled(r: ItemList, l: ItemList, es: seq<Opt>, key: Option<string>) {
    var first, later := TakenOver(l, es), MergedIn(l, es);
    Keyed(Items(l) + AllItems(es), key) ==>
    (Last(Items(r), key) == Last(Items(l) + AllItems(es), key)
     <==> !(Times(first, key) >= 2 && Last(later, key).Some? && Last(later, key) != Last(first, key)))
  }

  lemma LastOfMerged(l: ItemList, es: seq<Opt>, key: Option<string>)
    ensures LastUnlessDoubled(Fold(StepMerge, l, es), l, es, key)
  {
    hide Last, Times, Merge, Fold, TakenOver, MergedIn, AllItems, Keyed;
    var first, later := TakenOver(l, es), MergedIn(l, es);
    MergeLoop(l, es);
    AllTakenOrMerged(l, es);
    LastConcat(first, later, key);
    if Keyed(Items(l) + AllItems(es), key) {
      KeyedParts(first, later, key);
      MergeMany(first, later, key);
    }
  }

  lemma KeyedParts(a: seq<Item>, b: seq<Item>, key: Option<string>)
    requires Keyed(a + b, key)
    ensures Keyed(a, key) && Keyed(b, key)
  {
    Rejoined(a, b);
  }

  lemma BuiltPaths(job: Job, c: seq<Opt>, rest: seq<Opt>, env: Env)
    ensures var j := BuiltJob(job, c, rest, env);
            && j.stderrPaths == Fold(StepMerge, job.stderrPaths, Of(rest, e_OPT))
            && j.stdoutPaths == Fold(StepMerge, job.stdoutPaths, Of(rest, o_OPT))
            && j.stdinPaths == Fold(StepMerge, job.stdinPaths, Of(rest, i_OPT))
            && j.shells == Fold(StepMerge, job.shells, Of(rest, S_OPT))
            && j.mailList == DefaultMail(Fold(StepMerge, job.mailList, Of(rest, M_OPT)), env)
  {
    hide Fold, Of, Pick, ArrayType, Compress, OneTask, Append, DefaultMail;
  }

  /** For each host, and for none, the built job has the last path of -e, -o and -i and the last shell of -S among its
      own and those behind the last -clear. */
  lemma PathsOfJob(job: Job, c: seq<Opt>, env: Env, host: Option<string>)
    ensures var j := BuiltJob(job, c, AfterClear(EarlyRest(c)), env);
            var tail := TailAfterClear(c);
            && LastUnlessDoubled(j.stderrPaths, job.stderrPaths, Of(tail, e_OPT), host)
            && LastUnlessDoubled(j.stdoutPaths, job.stdoutPaths, Of(tail, o_OPT), host)
            && LastUnlessDoubled(j.stdinPaths, job.stdinPaths, Of(tail, i_OPT), host)
            && LastUnlessDoubled(j.shells, job.shells, Of(tail, S_OPT), host)
  {
    hide BuiltJob, Of, Fold, AfterClear, EarlyRest, TailAfterClear, LastUnlessDoubled;
    BuiltPaths(job, c, AfterClear(EarlyRest(c)), env);
    SeenByHandlers(c, e_OPT);
    SeenByHandlers(c, o_OPT);
    SeenByHandlers(c, i_OPT);
    SeenByHandlers(c, S_OPT);
    LastOfMerged(job.stderrPaths, Of(TailAfterClear(c), e_OPT), host);
    LastOfMerged(job.stdoutPaths, Of(TailAfterClear(c), o_OPT), host);
    LastOfMerged(job.stdinPaths, Of(TailAfterClear(c), i_OPT), host);
    LastOfMerged(job.shells, Of(TailAfterClear(c), S_OPT), host);
  }

  predicate NoList(l: ItemList, es: seq<Opt>) {
    l == None && forall e :: e in es ==> e.list == None
  }

  lemma {:induction false} MergedNone(l: ItemList, es: seq<Opt>)
    ensures Fold(StepMerge, l, es) == None <==> NoList(l, es)
    decreases es
  {
    if es != [] {
      MergedNone(StepMerge(l, es[0]), es[1..]);
      assert es == [es[0]] + es[1..];
    }
  }

  // ----- recipients -----

  /** What stands behind the first definition of key. */
  function BehindFirst(l: seq<Item>, key: Option<string>): seq<Item> {
    if l == [] then [] else if HasKey(l[0], key) then l[1..] else BehindFirst(l[1..], key)
  }

  lemma {:induction false} BehindDefined(l: seq<Item>, item: Item, x: Item)
    requires x.Pair? && item.Pair? && Keyed(l, None)
    ensures x in BehindFirst(Define(l, item), x.key) <==> x in BehindFirst(l, x.key)
    ensures x in Define(l, item)
            <==> if HasKey(item, x.key) then x == item || x in BehindFirst(l, x.key) else x in l
  {
    if l == [] {
      assert BehindFirst([item], x.key) == [];
    } else if KeyOf(l[0]) == KeyOf(item) {
      assert Define(l, item)[1..] == l[1..];
    } else {
      assert Define(l, item)[1..] == Define(l[1..], item);
      BehindDefined(l[1..], item, x);
    }
  }

  /** Does a definition outlive the merge of later ones into the first list? It does if there is no later one of its
      key, if it has the last value, or if it stands in the first list behind another of its key. */
  predicate Outlives(first: seq<Item>, later: seq<Item>, x: Item)
    requires x.Pair?
  {
    || Last(later, x.key) in {None, Some(x.val)}
    || x in BehindFirst(first, x.key)
  }

  /** What a merged list holds: of the first list and later ones, what outlives the merge. */
  lemma {:induction false} MergedHolds(first: seq<Item>, later: seq<Item>, x: Item)
    requires x.Pair? && Keyed(first, None) && Keyed(later, None)
    ensures x in Merge(first, later)
            <==> if Last(later, x.key) == None then x in first
                 else Last(later, x.key) == Some(x.val) || x in BehindFirst(first, x.key)
    decreases later
  {
    if later != [] {
      var item := later[0];
      DefineKeepsKeyed(first, item, None);
      BehindDefined(first, item, x);
      MergedHolds(Define(first, item), later[1..], x);
    }
  }

  lemma {:induction false} FirstOrBehind(l: seq<Item>, x: Item)
    requires x.Pair? && x in BehindFirst(l, x.key)
    ensures x in l
  {
    if !HasKey(l[0], x.key) {
      FirstOrBehind(l[1..], x);
    }
  }

  lemma {:induction false} LastIsThere(l: seq<Item>, x: Item)
    requires x.Pair? && Last(l, x.key) == Some(x.val)
    ensures x in l
  {
    if Last(l[1..], x.key) == Some(x.val) {
      LastIsThere(l[1..], x);
    }
  }

  /** Mail of the built job goes to the submitting user exactly if neither the job nor a -M behind the last -clear names
      anybody; else to exactly those of its own and of the -M options that outlive the merge. */
  lemma RecipientsOfJob(job: Job, c: seq<Opt>, env: Env, x: Item)
    requires x.Pair?
    requires Keyed(Items(job.mailList) + AllItems(Of(TailAfterClear(c), M_OPT)), None)
    ensures var mail := BuiltJob(job, c, AfterClear(EarlyRest(c)), env).mailList;
            var es := Of(TailAfterClear(c), M_OPT);
            var named := Items(job.mailList) + AllItems(es);
            if NoList(job.mailList, es) then mail == Some([Pair(Some(env.host), Some(env.user))])
            else x in Items(mail)
                 <==> x in named && Outlives(TakenOver(job.mailList, es), MergedIn(job.mailList, es), x)
  {
    hide BuiltJob, Of, Fold, AfterClear, EarlyRest, TailAfterClear, NoList, AllItems, TakenOver, MergedIn, Merge, Keyed,
         Last, BehindFirst;
    BuiltPaths(job, c, AfterClear(EarlyRest(c)), env);
    SeenByHandlers(c, M_OPT);
    var es := Of(TailAfterClear(c), M_OPT);
    MergedNone(job.mailList, es);
    MergedRecipients(job.mailList, es, x);
  }

  lemma MergedRecipients(l: ItemList, es: seq<Opt>, x: Item)
    requires x.Pair? && Keyed(Items(l) + AllItems(es), None)
    ensures x in Items(Fold(StepMerge, l, es))
            <==> x in Items(l) + AllItems(es) && Outlives(TakenOver(l, es), MergedIn(l, es), x)
  {
    hide Fold, Merge, AllItems, TakenOver, MergedIn, Keyed, Last, BehindFirst;
    var first, later := TakenOver(l, es), MergedIn(l, es);
    MergeLoop(l, es);
    AllTakenOrMerged(l, es);
    KeyedParts(first, later, None);
    MergedHolds(first, later, x);
    if Last(later, x.key) == Some(x.val) {
      LastIsThere(later, x);
    }
    if x in BehindFirst(first, x.key) {
      FirstOrBehind(first, x);
    }
    LastOfMember(later, x);
  }

  lemma {:induction false} LastOfMember(l: seq<Item>, x: Item)
    requires x.Pair?
    ensures x in l ==> Last(l, x.key) != None
  {
    if l != [] {
      LastOfMember(l[1..], x);
    }
  }

  /** No two recipients of one host differ. */
  ghost predicate OnePerHost(l: seq<Item>) {
    forall x, y :: x in l && y in l && x.Pair? && y.Pair? && x.key == y.key ==> x == y
  }

  lemma {:induction false} BehindIsTwice(l: seq<Item>, x: Item)
    requires x.Pair? && x in BehindFirst(l, x.key)
    ensures Times(l, x.key) >= 2
  {
    if HasKey(l[0], x.key) {
      LastOfMember(l[1..], x);
    } else {
      BehindIsTwice(l[1..], x);
    }
  }

  lemma {:induction false} OneIsBehind(l: seq<Item>, x: Item, y: Item)
    requires x.Pair? && y.Pair? && x.key == y.key && x != y && x in l && y in l
    ensures x in BehindFirst(l, x.key) || y in BehindFirst(l, x.key)
  {
    if HasKey(l[0], x.key) {
      assert x in l[1..] || y in l[1..];
    } else {
      OneIsBehind(l[1..], x, y);
    }
  }

  /** If the list merged into has no host twice, all definitions outlive the merge exactly if none of the same host
      differ. */
  lemma OutliveIfSame(first: seq<Item>, later: seq<Item>)
    requires Keyed(first + later, None)
    requires forall x :: x in first && x.Pair? ==> Times(first, x.key) <= 1
    ensures (forall x :: x in first + later && x.Pair? ==> Outlives(first, later, x)) <==> OnePerHost(first + later)
  {
    hide Last, Times, BehindFirst, Keyed;
    forall x | x in first + later && x.Pair?
      ensures x !in BehindFirst(first, x.key)
      ensures x in later ==> Last(later, x.key) != None
      ensures Last(later, x.key) != None ==> Pair(x.key, Last(later, x.key).value) in later
    {
      if x in BehindFirst(first, x.key) {
        BehindIsTwice(first, x);
        FirstOrBehind(first, x);
      }
      LastOfMember(later, x);
      if Last(later, x.key) != None {
        LastIsThere(later, Pair(x.key, Last(later, x.key).value));
      }
    }
    if forall x :: x in first + later && x.Pair? ==> Outlives(first, later, x) {
      forall x, y | x in first + later && y in first + later && x.Pair? && y.Pair? && x.key == y.key
        ensures x == y
      {
        if x != y && x in first && y in first {
          OneIsBehind(first, x, y);
        }
      }
    }
  }

  /** Everybody named stays on the mail list exactly if everybody outlives the merge; where the list merged into has no
      host twice, exactly if no two of the same host differ. */
  lemma EverybodyStays(job: Job, c: seq<Opt>, env: Env)
    requires Keyed(Items(job.mailList) + AllItems(Of(TailAfterClear(c), M_OPT)), None)
    ensures var mail := BuiltJob(job, c, AfterClear(EarlyRest(c)), env).mailList;
            var es := Of(TailAfterClear(c), M_OPT);
            var named := Items(job.mailList) + AllItems(es);
            var first, later := TakenOver(job.mailList, es), MergedIn(job.mailList, es);
            && ((forall x :: x in named && x.Pair? ==> x in Items(mail))
                <==> forall x :: x in named && x.Pair? ==> Outlives(first, later, x))
            && ((forall x :: x in first && x.Pair? ==> Times(first, x.key) <= 1) ==>
                  ((forall x :: x in named && x.Pair? ==> x in Items(mail)) <==> OnePerHost(named)))
  {
    hide BuiltJob, Of, AfterClear, EarlyRest, TailAfterClear, AllItems, TakenOver, MergedIn, Keyed, Outlives, Times,
         OnePerHost, NoList;
    var es := Of(TailAfterClear(c), M_OPT);
    var named := Items(job.mailList) + AllItems(es);
    var first, later := TakenOver(job.mailList, es), MergedIn(job.mailList, es);
    AllTakenOrMerged(job.mailList, es);
    if NoList(job.mailList, es) {
      NobodyNamed(job.mailList, es);
    }
    forall x | x in named && x.Pair?
      ensures x in Items(BuiltJob(job, c, AfterClear(EarlyRest(c)), env).mailList) <==> Outlives(first, later, x)
    {
      RecipientsOfJob(job, c, env, x);
    }
    if forall x :: x in first && x.Pair? ==> Times(first, x.key) <= 1 {
      OutliveIfSame(first, later);
    }
  }

  lemma {:induction false} NobodyNamed(l: ItemList, es: seq<Opt>)
    requires NoList(l, es)
    ensures Items(l) + AllItems(es) == []
  {
    if es != [] {
      assert es[0] in es;
      NobodyNamed(l, es[1..]);
    }
  }

  function Mailing(user: string): Opt {
    Opt(M_OPT, OtherArg, 0, {}, 0, 0, None, Some([Pair(None, Some(user))]), None)
  }

  /** -M alice -M bob leaves bob alone, for a job without recipients of its own. */
  lemma OnlyLastRecipient(job: Job, env: Env)
    requires job.mailList == None
    ensures BuiltJob(job, [Mailing("alice"), Mailing("bob")],
                     AfterClear(EarlyRest([Mailing("alice"), Mailing("bob")])), env).mailList
            == Some([Pair(None, Some("bob"))])
  {
    var a, b := Mailing("alice"), Mailing("bob");
    hide BuiltJob, Of, Fold, AfterClear, EarlyRest, TailAfterClear;
    BuiltPaths(job, [a, b], AfterClear(EarlyRest([a, b])), env);
    SeenByHandlers([a, b], M_OPT);
    TwoRecipients(a, b);
    TwoLists(a, b);
    assert Define([Pair(None, Some("alice"))], Pair(None, Some("bob"))) == [Pair(None, Some("bob"))];
    assert [Pair(None, Some("bob"))][1..] == [];
  }

  lemma TwoRecipients(a: Opt, b: Opt)
    requires a.sw == M_OPT && b.sw == M_OPT
    ensures Of(TailAfterClear([a, b]), M_OPT) == [a, b]
  {
    assert [a, b][..1] == [a];
    assert LastClear([a]) == -1;
    assert LastClear([a, b]) == -1;
    assert [a] + [b] == [a, b];
    PickConcat([a], [b], {M_OPT});
  }

  // ----- job names -----

  lemma {:induction false} NamesConcat(a: seq<Item>, b: seq<Item>)
    ensures Names(a + b) == Names(a) + Names(b)
  {
    if a == [] {
      NothingAdded(b);
    } else {
      DropWithin(a, b, 1);
      NamesConcat(a[1..], b);
      Reassociate([Pair(KeyOf(a[0]), None)], Names(a[1..]), Names(b));
    }
  }

  lemma {:induction false} NamesLoop(l: ItemList, es: seq<Opt>)
    ensures Items(Fold(StepNames, l, es)) == Items(l) + Names(AllItems(es))
    decreases es
  {
    hide Names;
    if es == [] {
      NoNames();
      NothingAdded(Items(l));
    } else {
      var e, rest := es[0], es[1..];
      NamesLoop(StepNames(l, e), rest);
      NamesStep(l, e);
      NamesConcat(Items(e.list), AllItems(rest));
      Reassociate(Items(l), Names(Items(e.list)), Names(AllItems(rest)));
    }
  }

  lemma NoNames()
    ensures Names([]) == []
  {
  }

  lemma NamesStep(l: ItemList, e: Opt)
    ensures Items(StepNames(l, e)) == Items(l) + Names(Items(e.list))
  {
    NothingAdded(Items(l));
    NothingAdded(Names(Items(e.list)));
  }

  /** The jobs requested are those of the job if there is no option; else one for each item of the options' lists, in
      order, of which only the name is taken. */
  ghost predicate Requesting(r: seq<Item>, l: ItemList, es: seq<Opt>) {
    if es == [] then r == Items(l)
    else
      && |r| == |AllItems(es)|
      && forall k :: 0 <= k < |r| ==> r[k] == Pair(if AllItems(es)[k].Pair? then AllItems(es)[k].key else None, None)
  }

  lemma {:induction false} NamesAt(items: seq<Item>, k: nat)
    requires k < |items|
    ensures Names(items)[k] == Pair(if items[k].Pair? then items[k].key else None, None)
  {
    if k > 0 {
      NamesAt(items[1..], k - 1);
    }
  }

  lemma BuiltRequests(job: Job, c: seq<Opt>, rest: seq<Opt>, env: Env)
    ensures var j := BuiltJob(job, c, rest, env);
            && j.jidRequests == Requests(job.jidRequests, Of(rest, hold_jid_OPT))
            && j.arrayRequests == Requests(job.arrayRequests, Of(rest, hold_jid_ad_OPT))
            && j.jobIds == Fold(StepAppend, job.jobIds, Of(rest, jid_OPT))
            && j.users == Fold(StepAppend, job.users, Of(rest, u_OPT))
            && j.masterQueues == Fold(StepHardOnly, job.masterQueues, Of(rest, masterq_OPT))
  {
    hide Fold, Of, Pick, ArrayType, Compress, OneTask, Append, DefaultMail, Requests;
  }

  lemma NamesRequested(l: ItemList, es: seq<Opt>)
    ensures Requesting(Items(Requests(l, es)), l, es)
  {
    hide Fold, Names, AllItems;
    NamesLoop(None, es);
    NothingAdded(Names(AllItems(es)));
    forall k | 0 <= k < |AllItems(es)| {
      NamesAt(AllItems(es), k);
    }
  }

  /** The jobs to wait for are all those named by -hold_jid behind the last -clear, in place of the job's own;
      the same goes for -hold_jid_ad. */
  lemma PredecessorsOfJob(job: Job, c: seq<Opt>, env: Env)
    ensures var j := BuiltJob(job, c, AfterClear(EarlyRest(c)), env);
            var tail := TailAfterClear(c);
            && Requesting(Items(j.jidRequests), job.jidRequests, Of(tail, hold_jid_OPT))
            && Requesting(Items(j.arrayRequests), job.arrayRequests, Of(tail, hold_jid_ad_OPT))
  {
    hide BuiltJob, Of, Fold, AfterClear, EarlyRest, TailAfterClear, Requesting, Requests;
    BuiltRequests(job, c, AfterClear(EarlyRest(c)), env);
    SeenByHandlers(c, hold_jid_OPT);
    SeenByHandlers(c, hold_jid_ad_OPT);
    NamesRequested(job.jidRequests, Of(TailAfterClear(c), hold_jid_OPT));
    NamesRequested(job.arrayRequests, Of(TailAfterClear(c), hold_jid_ad_OPT));
  }

  // ----- appended lists -----

  lemma {:induction false} HardOnlyLoop(hs: HardSoft, es: seq<Opt>)
    ensures var r := Fold(StepHardOnly, hs, es);
            r.soft == hs.soft && Items(r.hard) == Items(hs.hard) + AllItems(es)
    decreases es
  {
    if es == [] {
      NothingAdded(Items(hs.hard));
    } else {
      HardOnlyLoop(StepHardOnly(hs, es[0]), es[1..]);
      AppendedItems(hs.hard, es[0].list);
      Reassociate(Items(hs.hard), Items(es[0].list), AllItems(es[1..]));
    }
  }

  /** Job numbers, users and queues of the master task are the job's own followed by all those behind the last -clear;
      queues of the master task are hard whatever mode -masterq is given in. */
  lemma AppendedOfJob(job: Job, c: seq<Opt>, env: Env)
    ensures var j := BuiltJob(job, c, AfterClear(EarlyRest(c)), env);
            var tail := TailAfterClear(c);
            && Items(j.jobIds) == Items(job.jobIds) + AllItems(Of(tail, jid_OPT))
            && Items(j.users) == Items(job.users) + AllItems(Of(tail, u_OPT))
            && Items(j.masterQueues.hard) == Items(job.masterQueues.hard) + AllItems(Of(tail, masterq_OPT))
            && j.masterQueues.soft == job.masterQueues.soft
  {
    hide BuiltJob, Of, Fold, AfterClear, EarlyRest, TailAfterClear, AllItems;
    BuiltRequests(job, c, AfterClear(EarlyRest(c)), env);
    SeenByHandlers(c, jid_OPT);
    SeenByHandlers(c, u_OPT);
    SeenByHandlers(c, masterq_OPT);
    AppendLoop(job.jobIds, Of(TailAfterClear(c), jid_OPT));
    AppendLoop(job.users, Of(TailAfterClear(c), u_OPT));
    HardOnlyLoop(job.masterQueues, Of(TailAfterClear(c), masterq_OPT));
  }
}
