/** The value a variable ends up with in the merged and compressed definition lists. */
module JobDefinitions {
  import opened Optional
  import opened OptionList
  import opened JobParser
  import opened JobTheorems

  /** Definitions without a key, such as paths for every host, share the key None. */
  predicate HasKey(item: Item, key: Option<string>) {
    item.Pair? && item.key == key
  }

  /** The value of the last definition of key, if there is one. */
  function Last(l: seq<Item>, key: Option<string>): Option<Option<string>> {
    if l == [] then None
    else
      var later := Last(l[1..], key);
      if later.Some? then later
      else if HasKey(l[0], key) then Some(l[0].val)
      else None
  }

  /** How often key is defined. */
  function Times(l: seq<Item>, key: Option<string>): (n: nat)
    ensures n > 0 <==> Last(l, key).Some?
  {
    if l == [] then 0 else (if HasKey(l[0], key) then 1 else 0) + Times(l[1..], key)
  }

  lemma {:induction false} LastConcat(a: seq<Item>, b: seq<Item>, key: Option<string>)
    ensures Last(a + b, key) == if Last(b, key).Some? then Last(b, key) else Last(a, key)
  {
    if a == [] {
      assert a + b == b;
    } else {
      assert (a + b)[1..] == a[1..] + b;
      LastConcat(a[1..], b, key);
    }
  }

  /** A list of definitions; among task ranges nothing is defined without a key. */
  predicate Keyed(l: seq<Item>, key: Option<string>) {
    key != None || forall i :: 0 <= i < |l| ==> l[i].Pair?
  }

  lemma {:induction false} DefineKeepsKeyed(l: seq<Item>, item: Item, key: Option<string>)
    requires Keyed(l, key) && Keyed([item], key)
    ensures Keyed(Define(l, item), key)
  {
    assert [item][0] == item;
    if l != [] && KeyOf(l[0]) != KeyOf(item) {
      DefineKeepsKeyed(l[1..], item, key);
    }
  }

  /** Defining redefines the first of several definitions, so a key defined twice keeps its last value. */
  lemma {:induction false} DefineOne(l: seq<Item>, item: Item, key: Option<string>)
    requires Keyed(l, key) && Keyed([item], key)
    ensures Times(Define(l, item), key) == if HasKey(item, key) && Times(l, key) == 0 then 1 else Times(l, key)
    ensures Last(Define(l, item), key)
            == if HasKey(item, key) && Times(l, key) <= 1 then Some(item.val) else Last(l, key)
  {
    assert [item][0] == item;
    if l != [] {
      if KeyOf(l[0]) == KeyOf(item) {
        assert Define(l, item)[1..] == l[1..];
      } else {
        DefineOne(l[1..], item, key);
        assert Define(l, item)[1..] == Define(l[1..], item);
      }
    }
  }

  lemma {:induction false} MergeMany(l: seq<Item>, items: seq<Item>, key: Option<string>)
    requires Keyed(l, key) && Keyed(items, key)
    ensures Last(Merge(l, items), key)
            == if Times(l, key) <= 1 && Last(items, key).Some? then Last(items, key) else Last(l, key)
    decreases items
  {
    if items != [] {
      DefineKeepsKeyed(l, items[0], key);
      DefineOne(l, items[0], key);
      MergeMany(Define(l, items[0]), items[1..], key);
    }
  }

  lemma {:induction false} MergeConcat(l: seq<Item>, a: seq<Item>, b: seq<Item>)
    ensures Merge(l, a + b) == Merge(Merge(l, a), b)
    decreases a
  {
    if a == [] {
      assert a + b == b;
    } else {
      assert (a + b)[1..] == a[1..] + b;
      MergeConcat(Define(l, a[0]), a[1..], b);
    }
  }

  // ----- the lists of several options -----

  function Items(l: ItemList): seq<Item> {
    if l == None then [] else l.value
  }

  /** Everything the options define, in order. */
  function AllItems(es: seq<Opt>): seq<Item> {
    if es == [] then [] else Items(es[0].list) + AllItems(es[1..])
  }

  /** The list the merge starts from: the job's own one or else that of the first option having one. */
  function TakenOver(l: ItemList, es: seq<Opt>): seq<Item>
    decreases es
  {
    if l != None then l.value
    else if es == [] then []
    else TakenOver(es[0].list, es[1..])
  }

  /** What is merged into it. */
  function MergedIn(l: ItemList, es: seq<Opt>): seq<Item>
    decreases es
  {
    if l != None then AllItems(es)
    else if es == [] then []
    else MergedIn(es[0].list, es[1..])
  }

  lemma {:induction false} AllTakenOrMerged(l: ItemList, es: seq<Opt>)
    ensures TakenOver(l, es) + MergedIn(l, es) == Items(l) + AllItems(es)
    decreases es
  {
    if l == None && es != [] {
      AllTakenOrMerged(es[0].list, es[1..]);
    }
  }

  lemma {:induction false} MergeLoop(l: ItemList, es: seq<Opt>)
    ensures Items(Fold(StepMerge, l, es)) == Merge(TakenOver(l, es), MergedIn(l, es))
    decreases es
  {
    if es != [] {
      MergeLoop(StepMerge(l, es[0]), es[1..]);
      if l != None {
        MergeConcat(l.value, Items(es[0].list), AllItems(es[1..]));
      }
    }
  }

  // ----- compressing -----

  lemma {:induction false} DefinedLater(l: seq<Item>, key: string)
    ensures Times(l, Some(key)) > 0 <==> exists i :: 0 <= i < |l| && KeyOf(l[i]) == Some(key)
  {
    if l != [] {
      DefinedLater(l[1..], key);
      if Times(l[1..], Some(key)) > 0 {
        var i :| 0 <= i < |l[1..]| && KeyOf(l[1..][i]) == Some(key);
        assert KeyOf(l[i + 1]) == Some(key);
      }
      if i :| 0 <= i < |l| && KeyOf(l[i]) == Some(key) {
        if i > 0 {
          assert KeyOf(l[1..][i - 1]) == Some(key);
        }
      }
    }
  }

  /** Compressing leaves one definition of each key, the last. */
  lemma {:induction false} CompressKeepsLast(l: seq<Item>, key: string)
    ensures Last(Compress(l), Some(key)) == Last(l, Some(key))
    ensures Times(Compress(l), Some(key)) == if Times(l, Some(key)) == 0 then 0 else 1
  {
    if l != [] {
      CompressKeepsLast(l[1..], key);
      if KeyOf(l[0]) == Some(key) {
        DefinedLater(l[1..], key);
        if i :| 1 <= i < |l| && KeyOf(l[i]) == KeyOf(l[0]) {
          assert KeyOf(l[1..][i - 1]) == Some(key);
        }
        if i :| 0 <= i < |l[1..]| && KeyOf(l[1..][i]) == Some(key) {
          assert KeyOf(l[i + 1]) == Some(key);
        }
      }
      if Compress(l) != Compress(l[1..]) {
        assert Compress(l)[1..] == Compress(l[1..]);
      }
    }
  }

  // ----- the environment of the built job -----

  function EnvItems(job: Job, c: seq<Opt>, env: Env): seq<Item> {
    Items(BuiltJob(job, c, AfterClear(EarlyRest(c)), env).env)
  }

  lemma BuiltEnv(job: Job, c: seq<Opt>, rest: seq<Opt>, env: Env)
    ensures BuiltJob(job, c, rest, env).env == Compressed(Fold(StepMerge, job.env, Pick(rest, Variables())))
  {
    hide Fold, Of, Pick, ArrayType, Compress;
  }

  /** In the environment of the built job a variable is defined at most once. Of the definitions of the job and of
      the -v and -V options behind the last -clear it has the last one, unless the list merged into defines the
      variable twice and a later list has another value: then later lists only changed a definition that was
      overridden within the first list. */
  lemma LastDefinitionWins(job: Job, c: seq<Opt>, env: Env, key: string)
    ensures Times(EnvItems(job, c, env), Some(key)) <= 1
    ensures var es := Pick(TailAfterClear(c), Variables());
            var first, later := TakenOver(job.env, es), MergedIn(job.env, es);
            Last(EnvItems(job, c, env), Some(key)) == Last(Items(job.env) + AllItems(es), Some(key))
            <==> !(Times(first, Some(key)) >= 2
                   && Last(later, Some(key)).Some? && Last(later, Some(key)) != Last(first, Some(key)))
  {
    hide BuiltJob, Pick, AfterClear, EarlyRest, TailAfterClear, Fold, Last, Times, Compress, Merge;
    var rest := AfterClear(EarlyRest(c));
    var es := Pick(TailAfterClear(c), Variables());
    DashedGroups();
    HandlersSee(c, Variables(), true);
    BuiltEnv(job, c, rest, env);
    var first, later := TakenOver(job.env, es), MergedIn(job.env, es);
    MergeLoop(job.env, es);
    MergeMany(first, later, Some(key));
    AllTakenOrMerged(job.env, es);
    LastConcat(first, later, Some(key));
    var merged := Fold(StepMerge, job.env, es);
    if merged == None {
      NothingDefined(key);
    } else {
      CompressKeepsLast(merged.value, key);
    }
  }

  function Defining(vars: seq<Item>): Opt {
    Opt(v_OPT, OtherArg, 0, {}, 0, 0, None, Some(vars), None)
  }

  /** -v x=1,x=2 -v x=3 leaves a job without variables of its own with x=2. */
  lemma DoubledVariableStays(job: Job, env: Env)
    requires job.env == None
    ensures var x1, x2, x3 := Pair(Some("x"), Some("1")), Pair(Some("x"), Some("2")), Pair(Some("x"), Some("3"));
            Last(EnvItems(job, [Defining([x1, x2]), Defining([x3])], env), Some("x")) == Some(Some("2"))
  {
    var x1, x2, x3 := Pair(Some("x"), Some("1")), Pair(Some("x"), Some("2")), Pair(Some("x"), Some("3"));
    var d, e := Defining([x1, x2]), Defining([x3]);
    hide BuiltJob, Pick, Fold, AfterClear, EarlyRest, TailAfterClear, Compress, Merge, Last;
    DashedGroups();
    HandlersSee([d, e], Variables(), true);
    BuiltEnv(job, [d, e], AfterClear(EarlyRest([d, e])), env);
    VariablesOnly(d, e);
    TwoLists(d, e);
    FirstChanges(x1, x2, x3);
    CompressKeepsLast([x3, x2], "x");
  }

  lemma VariablesOnly(d: Opt, e: Opt)
    requires d.sw == v_OPT && e.sw == v_OPT
    ensures Pick(TailAfterClear([d, e]), Variables()) == [d, e]
  {
    assert [d, e][1..] == [e] && [d, e][..1] == [d];
    assert LastClear([d]) == -1;
    assert LastClear([d, e]) == -1;
    assert Pick([e], Variables()) == [e];
  }

  lemma FirstChanges(x1: Item, x2: Item, x3: Item)
    requires KeyOf(x1) == KeyOf(x2) == KeyOf(x3) == Some("x") && x3.val == Some("3") && x2.val == Some("2")
    ensures Merge([x1, x2], [x3]) == [x3, x2] && Last([x3, x2], Some("x")) == Some(Some("2"))
  {
    assert Define([x1, x2], x3) == [x3, x2];
    assert [x3, x2][1..] == [x2];
    assert Last([x2], Some("x")) == Some(Some("2"));
  }

  lemma TwoLists(d: Opt, e: Opt)
    requires d.list != None && e.list != None
    ensures Fold(StepMerge, None, [d, e]) == Some(Merge(d.list.value, e.list.value))
  {
    assert Fold(StepMerge, d.list, [e]) == StepMerge(d.list, e);
  }

  lemma NothingDefined(key: string)
    ensures Last([], Some(key)) == None && Times([], Some(key)) == 0
  {
  }
}
