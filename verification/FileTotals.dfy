/** From the lines of an accounting file to the cells of its tables. */
module FileTotals {
  import opened Accounting
  import opened Counting
  import opened Debits
  import opened Seqs

  // ----- which lines are runs -----

  /** The runs of a task are its lines with a start and an end, but for those that are over before the window begins or
      not even submitted when it ends. */
  lemma {:induction false} LinesOfTask(lines: seq<Line>, w: Window, job: int, task: int, e: Line)
    ensures e in Chain(lines, w, job, task)
            <==> && e in lines && e.Entry? && e.job == job && e.task == task && e.start != 0 && e.ende != 0
                 && (w.first.At? ==> w.first.time <= e.submit || w.first.time <= e.start || w.first.time <= e.ende)
                 && (w.last.At? ==> e.submit <= w.last.time || e.start <= w.last.time || e.ende <= w.last.time)
  {
    if lines != [] {
      var n := |lines| - 1;
      LinesOfTask(lines[..n], w, job, task, e);
      assert lines == lines[..n] + [lines[n]];
    }
  }

  /** Runs come in the order of the file. */
  lemma {:induction false} RunsInOrder(a: seq<Line>, b: seq<Line>, w: Window, job: int, task: int)
    ensures Chain(a + b, w, job, task) == Chain(a, w, job, task) + Chain(b, w, job, task)
  {
    if b == [] {
      NothingAdded(a);
      NothingAdded(Chain(a, w, job, task));
    } else {
      var n := |b| - 1;
      assert (a + b)[..|a + b| - 1] == a + b[..n] && (a + b)[|a + b| - 1] == b[n];
      RunsInOrder(a, b[..n], w, job, task);
      Reassociate(Chain(a, w, job, task), Chain(b[..n], w, job, task), [b[n]]);
    }
  }

  /** The dates of a run are those of its line, and the end of the run before. */
  lemma DatesOfRun(lines: seq<Line>, w: Window, rec: map<Key, Record>, k: Key)
    requires HoldsChains(rec, lines, w) && k in rec
    ensures var c := Chain(lines, w, k.job, k.task);
            && 1 <= k.run <= |c|
            && rec[k].qd == c[k.run - 1].submit && rec[k].sd == c[k.run - 1].start && rec[k].ed == c[k.run - 1].ende
            && rec[k].rd == if k.run == 1 then 0 else c[k.run - 2].ende
  {
    assert k == Key(k.job, k.task, k.run);
  }

  // ----- what the lines add up to -----

  function GroupOfLine(g: Grouping, e: Line): string
    requires e.Entry?
  {
    match g
    case ByQueue => e.queue
    case ByUser => e.user
    case ByProject => e.project
    case ByHost => e.host
    case ByParallel => e.parallel
    case ByCategory => e.cat
  }

  function ChargeOfLine(m: Measure, e: Line): int
    requires e.Entry? && m != Pending
  {
    match m
    case Jobs => 1
    case Wallclock => e.wallclock
    case Cpu => e.cpu
    case MaxVmem => e.maxvmem
    case MaxRss => e.maxrss
  }

  /** The sum over the accepted lines of a group. */
  ghost function SumOfLines(lines: seq<Line>, w: Window, g: Grouping, name: string, m: Measure): int
    requires m != Pending
  {
    if lines == [] then 0
    else
      var e := lines[|lines| - 1];
      SumOfLines(lines[..|lines| - 1], w, g, name, m)
      + if Accepted(e, w) && GroupOfLine(g, e) == name then ChargeOfLine(m, e) else 0
  }

  ghost function Contribution(r: Record, g: Grouping, name: string, m: Measure): int {
    if GroupOf(g, r) == name then Charge(m, r) else 0
  }

  lemma {:induction false} DebitedConcat(rec: map<Key, Record>, a: seq<Key>, b: seq<Key>, g: Grouping, name: string,
                                         m: Measure)
    requires Known(rec, a) && Known(rec, b)
    ensures Known(rec, a + b)
    ensures DebitedTo(rec, a + b, g, name, m) == DebitedTo(rec, a, g, name, m) + DebitedTo(rec, b, g, name, m)
  {
    if b == [] {
      NothingAdded(a);
    } else {
      var n := |b| - 1;
      assert (a + b)[..|a + b| - 1] == a + b[..n] && (a + b)[|a + b| - 1] == b[n];
      DebitedConcat(rec, a, b[..n], g, name, m);
    }
  }

  lemma DebitedAround(rec: map<Key, Record>, a: seq<Key>, k: Key, b: seq<Key>, g: Grouping, name: string, m: Measure)
    requires Known(rec, a) && k in rec && Known(rec, b)
    ensures Known(rec, a + b) && Known(rec, a + [k] + b)
    ensures DebitedTo(rec, a + [k] + b, g, name, m)
            == DebitedTo(rec, a + b, g, name, m) + Contribution(rec[k], g, name, m)
  {
    hide GroupOf, Charge;
    DebitedConcat(rec, a, [k], g, name, m);
    DebitedConcat(rec, a + [k], b, g, name, m);
    DebitedConcat(rec, a, b, g, name, m);
    assert [k][..0] == [];
    assert DebitedTo(rec, [k][..0], g, name, m) == 0;
  }

  lemma {:induction false} DebitedSame(rec: map<Key, Record>, rec': map<Key, Record>, ks: seq<Key>, g: Grouping,
                                       name: string, m: Measure)
    requires Known(rec, ks) && Known(rec', ks) && forall k :: k in ks ==> rec[k] == rec'[k]
    ensures DebitedTo(rec, ks, g, name, m) == DebitedTo(rec', ks, g, name, m)
  {
    if ks != [] {
      assert ks == ks[..|ks| - 1] + [ks[|ks| - 1]];
      DebitedSame(rec, rec', ks[..|ks| - 1], g, name, m);
    }
  }

  /** The records without those of the last line. */
  lemma WithoutLast(lines: seq<Line>, w: Window, rec: map<Key, Record>, last: Key)
    requires lines != [] && HoldsChains(rec, lines, w)
    requires var e := lines[|lines| - 1];
             Accepted(e, w) && last == Key(e.job, e.task, |Chain(lines, w, e.job, e.task)|)
    ensures last in rec && HoldsChains(rec - {last}, lines[..|lines| - 1], w)
  {
    var e, before := lines[|lines| - 1], lines[..|lines| - 1];
    forall j, t, k: nat
      ensures Key(j, t, k) in rec - {last} <==> 1 <= k <= |Chain(before, w, j, t)|
      ensures Key(j, t, k) in rec - {last} ==> (rec - {last})[Key(j, t, k)] == ChainedRun(Chain(before, w, j, t), k)
    {
      assert Key(j, t, k) in rec <==> 1 <= k <= |Chain(lines, w, j, t)|;
    }
  }

  lemma SameChains(lines: seq<Line>, w: Window, rec: map<Key, Record>)
    requires lines != [] && HoldsChains(rec, lines, w) && !Accepted(lines[|lines| - 1], w)
    ensures HoldsChains(rec, lines[..|lines| - 1], w)
  {
    var before := lines[..|lines| - 1];
    forall j, t, k: nat
      ensures Key(j, t, k) in rec <==> 1 <= k <= |Chain(before, w, j, t)|
      ensures Key(j, t, k) in rec ==> rec[Key(j, t, k)] == ChainedRun(Chain(before, w, j, t), k)
    {
      assert Chain(lines, w, j, t) == Chain(before, w, j, t);
    }
  }

  lemma {:induction false} NoRuns(rec: map<Key, Record>, ks: seq<Key>, w: Window)
    requires HoldsChains(rec, [], w) && Enumerates(ks, rec)
    ensures ks == []
  {
    forall k
      ensures k !in rec
    {
      assert Chain([], w, k.job, k.task) == [];
      assert k == Key(k.job, k.task, k.run);
    }
    if ks != [] {
      HeadIsMember(ks);
      assert false;
    }
  }

  lemma LastRun(lines: seq<Line>, w: Window, rec: map<Key, Record>, last: Key)
    requires lines != [] && HoldsChains(rec, lines, w)
    requires var e := lines[|lines| - 1];
             Accepted(e, w) && last == Key(e.job, e.task, |Chain(lines, w, e.job, e.task)|)
    ensures last in rec
    ensures forall g, name, m :: m != Pending ==>
              Contribution(rec[last], g, name, m)
              == if GroupOfLine(g, lines[|lines| - 1]) == name then ChargeOfLine(m, lines[|lines| - 1]) else 0
  {
    var e := lines[|lines| - 1];
    var c := Chain(lines, w, e.job, e.task);
    assert |c| > 0 && c[|c| - 1] == e;
    assert Key(e.job, e.task, |c|) in rec;
  }

  lemma RemovedKey(rec: map<Key, Record>, ks: seq<Key>, i: nat)
    requires Enumerates(ks, rec) && i < |ks|
    ensures Enumerates(ks[..i] + ks[i + 1..], rec - {ks[i]})
    ensures ks == ks[..i] + [ks[i]] + ks[i + 1..]
  {
    SplitAt(ks, i);
    DropOne(ks, i);
  }

  lemma OneLineLess(lines: seq<Line>, w: Window, rec: map<Key, Record>, ks: seq<Key>, g: Grouping, name: string,
                    m: Measure) returns (others: map<Key, Record>, keys: seq<Key>)
    requires HoldsChains(rec, lines, w) && Enumerates(ks, rec) && Known(rec, ks) && m != Pending
    requires lines != [] && Accepted(lines[|lines| - 1], w)
    ensures HoldsChains(others, lines[..|lines| - 1], w) && Enumerates(keys, others) && Known(others, keys)
    ensures var e := lines[|lines| - 1];
            DebitedTo(rec, ks, g, name, m)
            == DebitedTo(others, keys, g, name, m) + if GroupOfLine(g, e) == name then ChargeOfLine(m, e) else 0
  {
    hide HoldsChains, GroupOf, Charge, GroupOfLine, ChargeOfLine, Contribution, DebitedTo, Chain;
    var e := lines[|lines| - 1];
    var last := Key(e.job, e.task, |Chain(lines, w, e.job, e.task)|);
    WithoutLast(lines, w, rec, last);
    LastRun(lines, w, rec, last);
    assert last in ks;
    var i :| 0 <= i < |ks| && ks[i] == last;
    RemovedKey(rec, ks, i);
    others, keys := rec - {last}, ks[..i] + ks[i + 1..];
    assert Known(rec, ks[..i]) && Known(rec, ks[i + 1..]);
    DebitedAround(rec, ks[..i], last, ks[i + 1..], g, name, m);
    DebitedSame(rec, others, keys, g, name, m);
  }

  /** Every cell of a group table is the sum over the lines of the file that are runs of the group: nothing is lost, and
      nothing is charged to another group or column, on the way from the columns of the file. */
  lemma {:induction false} CellsAreSumsOfLines(lines: seq<Line>, w: Window, rec: map<Key, Record>, ks: seq<Key>,
                                               g: Grouping, name: string, m: Measure)
    requires HoldsChains(rec, lines, w) && Enumerates(ks, rec) && Known(rec, ks) && m != Pending
    ensures DebitedTo(rec, ks, g, name, m) == SumOfLines(lines, w, g, name, m)
    decreases |lines|
  {
    hide HoldsChains, GroupOf, Charge, GroupOfLine, ChargeOfLine, Enumerates;
    if lines == [] {
      NoRuns(rec, ks, w);
    } else if !Accepted(lines[|lines| - 1], w) {
      SameChains(lines, w, rec);
      CellsAreSumsOfLines(lines[..|lines| - 1], w, rec, ks, g, name, m);
    } else {
      var others, keys := OneLineLess(lines, w, rec, ks, g, name, m);
      CellsAreSumsOfLines(lines[..|lines| - 1], w, others, keys, g, name, m);
    }
  }
}
