/** The accounting record table: runs of a job are chained by requeue date. */
module Accounting {

  /** Runs are keyed by job number, task number and a run index counted from 1. */
  datatype Key = Key(job: int, task: int, run: nat)

  datatype Record = Record(
    user: string, project: string, queue: string, host: string, parallel: string, cat: string,
    qd: int, sd: int, ed: int, rd: int,
    wallclock: int, cpu: int, maxvmem: int, maxrss: int)

  /** A line of the accounting file, after splitting at ':' and converting the numeric columns. */
  datatype Line =
    | Comment
    | Entry(job: int, task: int, submit: int, start: int, ende: int,
            user: string, project: string, queue: string, host: string, parallel: string, cat: string,
            wallclock: int, cpu: int, maxvmem: int, maxrss: int)

  /** The -t option: "first"/"last" leave the window open on that side. */
  datatype Bound = Open | At(time: int)

  datatype Window = Window(first: Bound, last: Bound)

  predicate InScope(submit: int, start: int, ende: int, w: Window) {
    && !(w.first.At? && submit < w.first.time && start < w.first.time && ende < w.first.time)
    && !(w.last.At? && submit > w.last.time && start > w.last.time && ende > w.last.time)
  }

  predicate Accepted(line: Line, w: Window) {
    line.Entry? && line.start != 0 && line.ende != 0 && InScope(line.submit, line.start, line.ende, w)
  }

  function ToRecord(e: Line, rd: int): Record
    requires e.Entry?
  {
    Record(e.user, e.project, e.queue, e.host, e.parallel, e.cat,
           e.submit, e.start, e.ende, rd, e.wallclock, e.cpu, e.maxvmem, e.maxrss)
  }

  /** The accepted lines of one task, in file order: the runs the table must hold for it. */
  ghost function Chain(lines: seq<Line>, w: Window, job: int, task: int): (c: seq<Line>)
    ensures forall i :: 0 <= i < |c| ==> Accepted(c[i], w) && c[i].job == job && c[i].task == task
  {
    if lines == [] then []
    else
      var e := lines[|lines| - 1];
      var c := Chain(lines[..|lines| - 1], w, job, task);
      if Accepted(e, w) && e.job == job && e.task == task then c + [e] else c
  }

  ghost function AcceptedCount(lines: seq<Line>, w: Window): nat {
    if lines == [] then 0
    else AcceptedCount(lines[..|lines| - 1], w) + if Accepted(lines[|lines| - 1], w) then 1 else 0
  }

  /** The k-th run of a chain: its requeue date is the end of the run before, or 0. */
  ghost function ChainedRun(c: seq<Line>, k: nat): Record
    requires 1 <= k <= |c|
    requires forall i :: 0 <= i < |c| ==> c[i].Entry?
  {
    ToRecord(c[k - 1], if k == 1 then 0 else c[k - 2].ende)
  }

  /** rec holds, for every task, exactly the runs of its chain. */
  ghost predicate HoldsChains(rec: map<Key, Record>, lines: seq<Line>, w: Window) {
    forall j, t, k: nat {:trigger Key(j, t, k) in rec} ::
      && (Key(j, t, k) in rec <==> 1 <= k <= |Chain(lines, w, j, t)|)
      && (Key(j, t, k) in rec ==> rec[Key(j, t, k)] == ChainedRun(Chain(lines, w, j, t), k))
  }

  /** All of ks are keys of rec. */
  ghost predicate Known(rec: map<Key, Record>, ks: seq<Key>) {
    forall k :: k in ks ==> k in rec
  }

  /** ks lists the keys of rec, each once: any order a hash may be walked in. */
  ghost predicate Enumerates(ks: seq<Key>, rec: map<Key, Record>) {
    && (forall k :: k in rec <==> k in ks)
    && (forall i, j :: 0 <= i < j < |ks| ==> ks[i] != ks[j])
  }

  class RecordTable {
    var rec: map<Key, Record>
    var order: seq<Key>   // insertion order

    constructor (lines: seq<Line>, w: Window)
      ensures HoldsChains(rec, lines, w)
      ensures Enumerates(order, rec)
      ensures |order| == AcceptedCount(lines, w)
    {
      rec, order := map[], [];
      new;
      for n := 0 to |lines|
        invariant HoldsChains(rec, lines[..n], w)
        invariant Enumerates(order, rec)
        invariant |order| == AcceptedCount(lines[..n], w)
      {
        assert lines[..n + 1][..n] == lines[..n];
        var line := lines[n];
        if Accepted(line, w) {
          ghost var c := Chain(lines[..n], w, line.job, line.task);
          var key, rd := NextRun(line.job, line.task, c);
          ExtendChain(rec, lines, w, n);
          rec := rec[key := ToRecord(line, rd)];
          order := order + [key];
        } else {
          KeepChains(rec, lines, w, n);
        }
      }
      assert lines[..|lines|] == lines;
    }

    /** The next free run index of a task, and the end of its last run. */
    method NextRun(job: int, task: int, ghost c: seq<Line>) returns (key: Key, rd: int)
      requires forall i :: 0 <= i < |c| ==> c[i].Entry?
      requires forall k: nat :: Key(job, task, k) in rec <==> 1 <= k <= |c|
      requires forall k: nat :: 1 <= k <= |c| ==> rec[Key(job, task, k)] == ChainedRun(c, k)
      ensures key == Key(job, task, |c| + 1)
      ensures rd == if c == [] then 0 else c[|c| - 1].ende
    {
      var index := 1;
      rd := 0;
      while Key(job, task, index) in rec
        invariant 1 <= index <= |c| + 1
        invariant rd == if index == 1 then 0 else c[index - 2].ende
        decreases |c| + 1 - index
      {
        rd := rec[Key(job, task, index)].ed;
        index := index + 1;
      }
      assert index == |c| + 1;
      key := Key(job, task, index);
    }
  }

  lemma ExtendChain(rec: map<Key, Record>, lines: seq<Line>, w: Window, n: nat)
    requires n < |lines| && Accepted(lines[n], w)
    requires HoldsChains(rec, lines[..n], w)
    ensures var e := lines[n];
            var c := Chain(lines[..n], w, e.job, e.task);
            HoldsChains(rec[Key(e.job, e.task, |c| + 1) := ToRecord(e, if c == [] then 0 else c[|c| - 1].ende)],
                        lines[..n + 1], w)
  {
    assert lines[..n + 1][..n] == lines[..n];
  }

  lemma KeepChains(rec: map<Key, Record>, lines: seq<Line>, w: Window, n: nat)
    requires n < |lines| && !Accepted(lines[n], w)
    requires HoldsChains(rec, lines[..n], w)
    ensures HoldsChains(rec, lines[..n + 1], w)
  {
    assert lines[..n + 1][..n] == lines[..n];
  }

  /** What the chains mean for the table: no gaps, linked requeue dates, and rd == 0 on first runs only. */
  ghost predicate Linked(rec: map<Key, Record>) {
    forall k :: k in rec ==>
      && 1 <= k.run
      && (rec[k].rd == 0 <==> k.run == 1)
      && rec[k].ed != 0
      && (k.run > 1 ==> k.(run := k.run - 1) in rec && rec[k].rd == rec[k.(run := k.run - 1)].ed)
  }

  lemma ChainsAreLinked(rec: map<Key, Record>, lines: seq<Line>, w: Window)
    requires HoldsChains(rec, lines, w)
    ensures Linked(rec)
  {
    forall k | k in rec
      ensures 1 <= k.run && (rec[k].rd == 0 <==> k.run == 1) && rec[k].ed != 0
      ensures k.run > 1 ==> k.(run := k.run - 1) in rec && rec[k].rd == rec[k.(run := k.run - 1)].ed
    {
      var c := Chain(lines, w, k.job, k.task);
      assert Key(k.job, k.task, k.run) in rec;
      assert rec[k] == ChainedRun(c, k.run);
      if k.run > 1 {
        assert Key(k.job, k.task, k.run - 1) in rec;
      }
    }
  }
}
