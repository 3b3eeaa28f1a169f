/** The analyzer's two sweeps over a timestep table: entering categories, and printing the table. */
module Report {
  import opened Accounting
  import opened Timesteps
  import opened Counting
  import opened Optional
  import opened Seqs
  import opened Sweep
  import Debits

  /** The printed columns of one timestep. */
  datatype Row = Row(time: int, npend: nat, npcat: nat, nrunn: nat, nrcat: nat, delta: int)

  predicate InWindow(w: Window, t: int) {
    (w.first.At? ==> w.first.time <= t) && (w.last.At? ==> t <= w.last.time)
  }

  ghost function Categories(rec: map<Key, Record>, jobs: seq<Key>): set<string>
    requires Known(rec, jobs)
  {
    set k | k in jobs :: rec[k].cat
  }

  ghost function JobsOf(rec: map<Key, Record>, jobs: seq<Key>, cat: string): seq<Key>
    requires Known(rec, jobs)
  {
    if jobs == [] then []
    else
      var k := jobs[|jobs| - 1];
      JobsOf(rec, jobs[..|jobs| - 1], cat) + if rec[k].cat == cat then [k] else []
  }

  /** m files the jobs under their categories, keeping their order. */
  ghost predicate ByCategory(rec: map<Key, Record>, jobs: seq<Key>, m: map<string, seq<Key>>)
    requires Known(rec, jobs)
  {
    && m.Keys == Categories(rec, jobs)
    && forall cat :: cat in m ==> m[cat] == JobsOf(rec, jobs, cat)
  }

  /** The jobs of a category, in order. */
  lemma {:induction false} JobsOfConcat(rec: map<Key, Record>, a: seq<Key>, b: seq<Key>, cat: string)
    requires Known(rec, a) && Known(rec, b)
    ensures Known(rec, a + b)
    ensures JobsOf(rec, a + b, cat) == JobsOf(rec, a, cat) + JobsOf(rec, b, cat)
  {
    if b == [] {
      NothingAdded(a);
      NothingAdded(JobsOf(rec, a, cat));
    } else {
      var n := |b| - 1;
      assert (a + b)[..|a + b| - 1] == a + b[..n] && (a + b)[|a + b| - 1] == b[n];
      JobsOfConcat(rec, a, b[..n], cat);
    }
  }

  lemma JobsOfOne(rec: map<Key, Record>, k: Key, cat: string)
    requires Known(rec, [k])
    ensures k in rec && JobsOf(rec, [k], cat) == if rec[k].cat == cat then [k] else []
  {
    assert k in [k] && [k][..0] == [];
    assert JobsOf(rec, [k][..0], cat) == [];
  }

  method FileByCategory(rec: map<Key, Record>, jobs: seq<Key>) returns (m: map<string, seq<Key>>)
    requires Known(rec, jobs)
    ensures ByCategory(rec, jobs, m)
  {
    m := map[];
    for n := 0 to |jobs|
      invariant ByCategory(rec, jobs[..n], m)
    {
      OneMoreJob(rec, jobs, n, m);
      var cat := rec[jobs[n]].cat;
      if cat !in m {
        m := m[cat := []];
      }
      m := m[cat := m[cat] + [jobs[n]]];
    }
    assert jobs[..|jobs|] == jobs;
  }

  lemma OneMoreJob(rec: map<Key, Record>, jobs: seq<Key>, n: nat, m: map<string, seq<Key>>)
    requires Known(rec, jobs)
    requires n < |jobs|
    requires ByCategory(rec, jobs[..n], m)
    ensures var cat := rec[jobs[n]].cat;
            ByCategory(rec, jobs[..n + 1], m[cat := (if cat in m then m[cat] else []) + [jobs[n]]])
  {
    var cat := rec[jobs[n]].cat;
    assert jobs[..n + 1][..n] == jobs[..n];
    assert jobs[..n + 1] == jobs[..n] + [jobs[n]];
    assert Categories(rec, jobs[..n + 1]) == Categories(rec, jobs[..n]) + {cat};
    if cat !in m {
      OtherJobs(rec, jobs[..n], cat);
    }
  }

  lemma {:induction false} OtherJobs(rec: map<Key, Record>, jobs: seq<Key>, cat: string)
    requires Known(rec, jobs)
    requires cat !in Categories(rec, jobs)
    ensures JobsOf(rec, jobs, cat) == []
  {
    if jobs != [] {
      assert jobs == jobs[..|jobs| - 1] + [jobs[|jobs| - 1]];
      OtherJobs(rec, jobs[..|jobs| - 1], cat);
    }
  }

  lemma ListKnown(mode: Mode, rec: map<Key, Record>, ks: seq<Key>, ts: seq<int>, n: nat)
    requires Schedule(rec, ks, ts)
    requires n <= |ts|
    ensures Known(rec, ListAfter(mode, rec, ks, ts, n))
  {
    if n > 0 {
      forall k { ListMember(mode, rec, ks, ts, n, k); }
    }
  }

  /** now holds the values of the timesteps, in time order. */
  ghost predicate Snapshot(table: TimestepTable, ts: seq<int>, now: seq<Fields>)
    reads table, table.Objects()
  {
    |now| == |ts| && forall i :: 0 <= i < |ts| ==>
      ts[i] in table.steps && table.steps[ts[i]] in table.Objects() && table.steps[ts[i]].Value() == now[i]
  }

  /** A timestep whose events are those of f, with the categories of the running jobs,
      and of the pending ones if it is inside the window. */
  ghost predicate Categorised(f: Fields, events: Fields, rec: map<Key, Record>, pending: seq<Key>, running: seq<Key>,
                              inside: bool) {
    && f == events.(pcats := f.pcats, rcats := f.rcats)
    && Known(rec, pending) && Known(rec, running)
    && ByCategory(rec, running, f.rcats)
    && if inside then ByCategory(rec, pending, f.pcats) else f.pcats == map[]
  }

  /** The first n timesteps hold their categories, the others none. */
  ghost predicate CategorisedUpTo(now: seq<Fields>, rec: map<Key, Record>, ks: seq<Key>, ts: seq<int>, w: Window,
                                  n: nat)
    requires Known(rec, ks)
    requires n <= |ts| == |now|
  {
    && (forall i :: 0 <= i < n ==>
          Categorised(now[i], Filed(rec, ks, ts[i]), rec, ListAfter(Pending, rec, ks, ts, i + 1),
                      ListAfter(Running, rec, ks, ts, i + 1), InWindow(w, ts[i])))
    && (forall i :: n <= i < |ts| ==> now[i] == Filed(rec, ks, ts[i]))
  }

  method EnterCategories(rec: map<Key, Record>, step: Timestep, pending: seq<Key>, running: seq<Key>, inside: bool)
    requires Known(rec, pending) && Known(rec, running)
    requires step.pcats == map[]
    modifies step
    ensures Categorised(step.Value(), old(step.Value()), rec, pending, running, inside)
  {
    if inside {
      step.pcats := FileByCategory(rec, pending);
    }
    step.rcats := FileByCategory(rec, running);
  }

  lemma NextList(mode: Mode, rec: map<Key, Record>, ks: seq<Key>, ts: seq<int>, n: nat)
    requires Schedule(rec, ks, ts)
    requires n < |ts|
    ensures ListAfter(mode, rec, ks, ts, n + 1) == Advance(mode, ListAfter(mode, rec, ks, ts, n), Filed(rec, ks, ts[n]))
    ensures Known(rec, ListAfter(mode, rec, ks, ts, n + 1))
  {
    ListKnown(mode, rec, ks, ts, n + 1);
  }

  method AdvanceLists(ghost rec: map<Key, Record>, ghost ks: seq<Key>, ghost ts: seq<int>, ghost n: nat,
                      step: Timestep, pjobs: seq<Key>, rjobs: seq<Key>)
    returns (pending: seq<Key>, running: seq<Key>)
    requires Schedule(rec, ks, ts) && n < |ts|
    requires step.SameEvents(Filed(rec, ks, ts[n]))
    requires pjobs == ListAfter(Pending, rec, ks, ts, n) && rjobs == ListAfter(Running, rec, ks, ts, n)
    ensures pending == ListAfter(Pending, rec, ks, ts, n + 1) && Known(rec, pending)
    ensures running == ListAfter(Running, rec, ks, ts, n + 1) && Known(rec, running)
  {
    NextList(Pending, rec, ks, ts, n);
    NextList(Running, rec, ks, ts, n);
    pending := Minus(pjobs + step.queued + step.requeued, step.started);
    running := Minus(Minus(rjobs + step.started, step.requeued), step.ended);
  }

  lemma StartEmpty(rec: map<Key, Record>, ks: seq<Key>, ts: seq<int>)
    requires Known(rec, ks)
    ensures forall mode :: ListAfter(mode, rec, ks, ts, 0) == []
  {
  }

  method InitCategories(rec: map<Key, Record>, ghost ks: seq<Key>, table: TimestepTable, keys: seq<int>, w: Window)
    returns (ghost ts: seq<int>, ghost now: seq<Fields>)
    requires Known(rec, ks)
    requires table.Separate() && table.Files(rec, ks)
    requires forall t :: t in keys <==> t in table.steps
    modifies table.Objects()
    ensures Schedule(rec, ks, ts)
    ensures Snapshot(table, ts, now) && CategorisedUpTo(now, rec, ks, ts, w, |ts|)
    ensures AllPendingShown(now, rec, ks, ts, w)
  {
    hide ListAfter, Categorised, CategorisedUpTo, EventTime, Filed, InWindow, AllPendingShown;
    var times := SortUniq(keys);
    ts := times;
    assert forall i :: 0 <= i < |ts| ==> ts[i] in ts && ts[i] in table.steps;
    now := Uncategorised(rec, ks, ts);
    var pjobs: seq<Key>, rjobs: seq<Key> := [], [];
    StartEmpty(rec, ks, ts);
    NoneCategorised(rec, ks, ts, w);
    for n := 0 to |times|
      invariant Snapshot(table, ts, now)
      invariant CategorisedUpTo(now, rec, ks, ts, w, n)
      invariant pjobs == ListAfter(Pending, rec, ks, ts, n)
      invariant rjobs == ListAfter(Running, rec, ks, ts, n)
    {
      var e := table.steps[times[n]];
      NotYetCategorised(now, rec, ks, ts, w, n);
      pjobs, rjobs := AdvanceLists(rec, ks, ts, n, e, pjobs, rjobs);
      EnterCategories(rec, e, pjobs, rjobs, InWindow(w, times[n]));
      OneMoreCategorised(now, rec, ks, ts, w, n, e.Value());
      now := now[n := e.Value()];
    }
    PendingInside(now, rec, ks, ts, w);
  }

  /** A timestep has the categories of the pending jobs exactly if it is inside the bounds that are given. */
  ghost predicate PendingShown(f: Fields, rec: map<Key, Record>, pending: seq<Key>, w: Window, t: int) {
    && Known(rec, pending)
    && f.pcats.Keys == if (w.first.At? ==> w.first.time <= t) && (w.last.At? ==> t <= w.last.time)
                       then Categories(rec, pending) else {}
  }

  ghost predicate AllPendingShown(now: seq<Fields>, rec: map<Key, Record>, ks: seq<Key>, ts: seq<int>, w: Window) {
    && Known(rec, ks) && |ts| == |now|
    && forall i :: 0 <= i < |ts| ==> PendingShown(now[i], rec, ListAfter(Pending, rec, ks, ts, i + 1), w, ts[i])
  }

  lemma PendingInside(now: seq<Fields>, rec: map<Key, Record>, ks: seq<Key>, ts: seq<int>, w: Window)
    requires Known(rec, ks) && |ts| == |now| && CategorisedUpTo(now, rec, ks, ts, w, |ts|)
    ensures AllPendingShown(now, rec, ks, ts, w)
  {
    hide ListAfter, PendingShown;
    forall i | 0 <= i < |ts|
      ensures PendingShown(now[i], rec, ListAfter(Pending, rec, ks, ts, i + 1), w, ts[i])
    {
      CategoriesInside(now[i], Filed(rec, ks, ts[i]), rec, ListAfter(Pending, rec, ks, ts, i + 1),
                       ListAfter(Running, rec, ks, ts, i + 1), w, ts[i]);
    }
  }

  lemma CategoriesInside(f: Fields, events: Fields, rec: map<Key, Record>, pending: seq<Key>, running: seq<Key>,
                         w: Window, t: int)
    requires Categorised(f, events, rec, pending, running, InWindow(w, t))
    ensures PendingShown(f, rec, pending, w, t)
  {
  }

  ghost function Uncategorised(rec: map<Key, Record>, ks: seq<Key>, ts: seq<int>): (now: seq<Fields>)
    requires Known(rec, ks)
    ensures |now| == |ts| && forall i :: 0 <= i < |ts| ==> now[i] == Filed(rec, ks, ts[i])
  {
    seq(|ts|, i requires 0 <= i < |ts| => Filed(rec, ks, ts[i]))
  }

  lemma NoneCategorised(rec: map<Key, Record>, ks: seq<Key>, ts: seq<int>, w: Window)
    requires Known(rec, ks)
    ensures CategorisedUpTo(Uncategorised(rec, ks, ts), rec, ks, ts, w, 0)
  {
  }

  lemma NotYetCategorised(now: seq<Fields>, rec: map<Key, Record>, ks: seq<Key>, ts: seq<int>, w: Window, n: nat)
    requires Known(rec, ks)
    requires n < |ts| == |now|
    requires CategorisedUpTo(now, rec, ks, ts, w, n)
    ensures now[n] == Filed(rec, ks, ts[n]) && now[n].pcats == map[]
  {
  }

  lemma OneMoreCategorised(now: seq<Fields>, rec: map<Key, Record>, ks: seq<Key>, ts: seq<int>, w: Window, n: nat,
                           f: Fields)
    requires Known(rec, ks)
    requires n < |ts| == |now|
    requires CategorisedUpTo(now, rec, ks, ts, w, n)
    requires Categorised(f, Filed(rec, ks, ts[n]), rec, ListAfter(Pending, rec, ks, ts, n + 1),
                         ListAfter(Running, rec, ks, ts, n + 1), InWindow(w, ts[n]))
    ensures CategorisedUpTo(now[n := f], rec, ks, ts, w, n + 1)
  {
    hide Categorised, ListAfter;
  }

  /** The rows printed for the first n timesteps: those inside the window, with the gap to the row before. */
  ghost function PrintedRows(rec: map<Key, Record>, ks: seq<Key>, ts: seq<int>, w: Window, n: nat): seq<Row>
    requires Known(rec, ks)
    requires n <= |ts|
  {
    if n == 0 then []
    else
      var rows, t := PrintedRows(rec, ks, ts, w, n - 1), ts[n - 1];
      if !InWindow(w, t) then rows
      else
        var pending, running := ListAfter(Pending, rec, ks, ts, n), ListAfter(Running, rec, ks, ts, n);
        rows + [RowAt(rec, t, pending, running, rows)]
  }

  ghost function RowAt(rec: map<Key, Record>, t: int, pending: seq<Key>, running: seq<Key>, rows: seq<Row>): Row {
    Row(t, |pending|, CategoryCount(rec, pending), |running|, CategoryCount(rec, running),
        if rows == [] then 0 else t - rows[|rows| - 1].time)
  }

  ghost function CategoryCount(rec: map<Key, Record>, jobs: seq<Key>): nat {
    if Known(rec, jobs) then |Categories(rec, jobs)| else 0
  }

  method PrintTimesteps(rec: map<Key, Record>, ghost ks: seq<Key>, table: TimestepTable, keys: seq<int>, w: Window,
                        ghost ts: seq<int>, ghost now: seq<Fields>)
    returns (rows: seq<Row>)
    requires Schedule(rec, ks, ts)
    requires forall t :: t in keys <==> t in ts
    requires Snapshot(table, ts, now) && CategorisedUpTo(now, rec, ks, ts, w, |ts|)
    ensures rows == PrintedRows(rec, ks, ts, w, |ts|)
  {
    var times := SortUniq(keys);
    SameElementsSameOrder(times, ts);
    rows := PrintInOrder(rec, ks, table, times, w, now);
  }

  method PrintInOrder(rec: map<Key, Record>, ghost ks: seq<Key>, table: TimestepTable, ts: seq<int>, w: Window,
                      ghost now: seq<Fields>)
    returns (rows: seq<Row>)
    requires Schedule(rec, ks, ts)
    requires Snapshot(table, ts, now) && CategorisedUpTo(now, rec, ks, ts, w, |ts|)
    ensures rows == PrintedRows(rec, ks, ts, w, |ts|)
  {
    hide ListAfter, EventTime, Filed, CategoryCount, Increasing, RowAt, CategorisedUpTo, PrintedRows, InWindow;
    var pjobs: seq<Key>, rjobs: seq<Key> := [], [];
    var first, prev := true, 0;
    rows := [];
    StartEmpty(rec, ks, ts);
    NoRowsYet(rec, ks, ts, w);
    for n := 0 to |ts|
      invariant pjobs == ListAfter(Pending, rec, ks, ts, n)
      invariant rjobs == ListAfter(Running, rec, ks, ts, n)
      invariant rows == PrintedRows(rec, ks, ts, w, n)
      invariant first <==> rows == []
      invariant !first ==> prev == rows[|rows| - 1].time
    {
      SnapshotAt(table, ts, now, n);
      var time, step := ts[n], table.steps[ts[n]];
      CategorySizes(now, rec, ks, ts, w, n);
      pjobs, rjobs := AdvanceLists(rec, ks, ts, n, step, pjobs, rjobs);
      NextRow(rec, ks, ts, w, n);
      if InWindow(w, time) {
        var delta := if first then 0 else time - prev;
        var row := Row(time, |pjobs|, |step.pcats|, |rjobs|, |step.rcats|, delta);
        assert row == RowAt(rec, time, pjobs, rjobs, rows) by { RowIs(rec, time, pjobs, rjobs, rows); }
        rows := rows + [row];
        first := false;
        prev := time;
      }
    }
  }

  lemma NoRowsYet(rec: map<Key, Record>, ks: seq<Key>, ts: seq<int>, w: Window)
    requires Known(rec, ks)
    ensures PrintedRows(rec, ks, ts, w, 0) == []
  {
  }

  lemma NextRow(rec: map<Key, Record>, ks: seq<Key>, ts: seq<int>, w: Window, n: nat)
    requires Known(rec, ks)
    requires n < |ts|
    ensures var rows, t := PrintedRows(rec, ks, ts, w, n), ts[n];
            var pending, running := ListAfter(Pending, rec, ks, ts, n + 1), ListAfter(Running, rec, ks, ts, n + 1);
            PrintedRows(rec, ks, ts, w, n + 1)
            == if InWindow(w, t) then rows + [RowAt(rec, t, pending, running, rows)] else rows
  {
  }

  lemma RowIs(rec: map<Key, Record>, t: int, pending: seq<Key>, running: seq<Key>, rows: seq<Row>)
    ensures RowAt(rec, t, pending, running, rows)
            == Row(t, |pending|, CategoryCount(rec, pending), |running|, CategoryCount(rec, running),
                   if rows == [] then 0 else t - rows[|rows| - 1].time)
  {
  }

  lemma SnapshotAt(table: TimestepTable, ts: seq<int>, now: seq<Fields>, n: nat)
    requires Snapshot(table, ts, now)
    requires n < |ts|
    ensures |now| == |ts| && ts[n] in table.steps && table.steps[ts[n]].Value() == now[n]
  {
  }

  lemma CategorySizes(now: seq<Fields>, rec: map<Key, Record>, ks: seq<Key>, ts: seq<int>, w: Window, n: nat)
    requires Known(rec, ks)
    requires n < |ts| == |now|
    requires CategorisedUpTo(now, rec, ks, ts, w, |ts|)
    ensures now[n].queued == Filed(rec, ks, ts[n]).queued && now[n].requeued == Filed(rec, ks, ts[n]).requeued
    ensures now[n].started == Filed(rec, ks, ts[n]).started && now[n].ended == Filed(rec, ks, ts[n]).ended
    ensures |now[n].rcats| == CategoryCount(rec, ListAfter(Running, rec, ks, ts, n + 1))
    ensures InWindow(w, ts[n]) ==> |now[n].pcats| == CategoryCount(rec, ListAfter(Pending, rec, ks, ts, n + 1))
  {
    hide ListAfter;
    assert |now[n].rcats| == |now[n].rcats.Keys| && |now[n].pcats| == |now[n].pcats.Keys|;
  }

  /** An increasing sequence is determined by its elements. */
  lemma {:induction false} SameElementsSameOrder(a: seq<int>, b: seq<int>)
    requires Increasing(a) && Increasing(b)
    requires forall t :: t in a <==> t in b
    ensures a == b
  {
    if a == [] {
      if |b| > 0 {
        FirstIsMember(b);
        assert false;
      }
    } else {
      var t := a[0];
      assert t in a && t in b;
      var u := b[0];
      assert u in b && u in a;
      EndsBound(a);
      EndsBound(b);
      assert a == [a[0]] + a[1..] && b == [b[0]] + b[1..];
      assert a[0] !in a[1..] && b[0] !in b[1..];
      forall x
        ensures x in a[1..] <==> x in b[1..]
      {
        assert x in a[1..] <==> x in a && x != t;
        assert x in b[1..] <==> x in b && x != u;
      }
      SameElementsSameOrder(a[1..], b[1..]);
    }
  }

  // ----- reading the totals off the printed table -----

  /** The number of listed jobs that a row shows. */
  function Shown(mode: Mode, row: Row): int {
    if mode == Pending then row.npend else row.nrunn
  }

  /** Each row's count times the delta printed in the next row. */
  ghost function TableArea(mode: Mode, rows: seq<Row>): int {
    if |rows| <= 1 then 0
    else TableArea(mode, rows[..|rows| - 1]) + Shown(mode, rows[|rows| - 2]) * rows[|rows| - 1].delta
  }

  lemma OneMoreRow(mode: Mode, rows: seq<Row>, row: Row)
    ensures TableArea(mode, rows + [row])
            == TableArea(mode, rows) + if rows == [] then 0 else Shown(mode, rows[|rows| - 1]) * row.delta
  {
    assert (rows + [row])[..|rows|] == rows;
  }

  ghost predicate Covers(w: Window, ts: seq<int>) {
    forall t :: t in ts ==> InWindow(w, t)
  }

  lemma {:induction false} PrintedAreaIsArea(mode: Mode, rec: map<Key, Record>, ks: seq<Key>, ts: seq<int>,
                                                   w: Window, n: nat)
    requires Known(rec, ks)
    requires Covers(w, ts)
    requires n <= |ts|
    ensures var rows := PrintedRows(rec, ks, ts, w, n);
            && |rows| == n
            && (n > 0 ==> rows[n - 1].time == ts[n - 1]
                          && Shown(mode, rows[n - 1]) == |ListAfter(mode, rec, ks, ts, n)|)
            && TableArea(mode, rows) == Area(Lists(mode, rec, ks, ts), ts, n)
  {
    hide ListAfter, CategoryCount, TableArea;
    if n == 0 {
      NoRows(mode);
    } else {
      PrintedAreaIsArea(mode, rec, ks, ts, w, n - 1);
      assert ts[n - 1] in ts;
      var rows := PrintedRows(rec, ks, ts, w, n - 1);
      var row := RowAt(rec, ts[n - 1], ListAfter(Pending, rec, ks, ts, n), ListAfter(Running, rec, ks, ts, n), rows);
      OneMoreRow(mode, rows, row);
    }
  }

  lemma NoRows(mode: Mode)
    ensures TableArea(mode, []) == 0
  {
  }

  // ----- the whole analysis -----

  ghost function AllTimes(rec: map<Key, Record>, ks: seq<Key>): seq<int>
    requires Known(rec, ks)
  {
    if ks == [] then []
    else
      var k := ks[|ks| - 1];
      AllTimes(rec, ks[..|ks| - 1]) + [QueueTime(k, rec[k]), rec[k].sd, rec[k].ed]
  }

  lemma {:induction false} AllTimesAreEventTimes(rec: map<Key, Record>, ks: seq<Key>, t: int)
    requires Known(rec, ks)
    ensures t in AllTimes(rec, ks) <==> EventTime(rec, ks, t)
  {
    if ks != [] {
      AllTimesAreEventTimes(rec, ks[..|ks| - 1], t);
      assert ks == ks[..|ks| - 1] + [ks[|ks| - 1]];
    }
  }

  /** The points in time at which anything happens, in order. */
  ghost function EventTimes(rec: map<Key, Record>, ks: seq<Key>): seq<int>
    requires Known(rec, ks)
  {
    SortUniq(AllTimes(rec, ks))
  }

  lemma EventTimesAreScheduled(rec: map<Key, Record>, ks: seq<Key>)
    requires Known(rec, ks)
    ensures Schedule(rec, ks, EventTimes(rec, ks))
  {
    forall t
      ensures t in EventTimes(rec, ks) <==> EventTime(rec, ks, t)
    {
      AllTimesAreEventTimes(rec, ks, t);
    }
  }

  /** All the rows printed for the records. */
  ghost function PrintedTable(rec: map<Key, Record>, ks: seq<Key>, w: Window): seq<Row>
    requires Known(rec, ks)
  {
    var ts := EventTimes(rec, ks);
    PrintedRows(rec, ks, ts, w, |ts|)
  }

  /** Windows that agree on the timesteps print the same rows. */
  lemma {:induction false} SameRows(rec: map<Key, Record>, ks: seq<Key>, ts: seq<int>, w: Window, v: Window, n: nat)
    requires Known(rec, ks)
    requires n <= |ts|
    requires forall t :: t in ts ==> (InWindow(w, t) <==> InWindow(v, t))
    ensures PrintedRows(rec, ks, ts, w, n) == PrintedRows(rec, ks, ts, v, n)
  {
    hide ListAfter, InWindow, RowAt;
    if n > 0 {
      assert ts[n - 1] in ts;
      SameRows(rec, ks, ts, w, v, n - 1);
    }
  }

  /** Is there no first or last timestep to take the place of an open bound? Then the length of the table
      cannot be computed. */
  predicate NoDuration(ks: seq<Key>, w: Window) {
    ks == [] && (w.first.Open? || w.last.Open?)
  }

  /** An open bound is the first or last timestep, if there is one. */
  function Resolved(b: Bound, end: Option<int>): Option<int> {
    if b.At? then Some(b.time) else end
  }

  lemma BoundsResolved(rec: map<Key, Record>, ks: seq<Key>, table: TimestepTable, w: Window)
    requires Known(rec, ks) && table.Files(rec, ks) && table.Spanned()
    ensures var first, last := Resolved(w.first, table.first), Resolved(w.last, table.last);
            && (first == None || last == None <==> NoDuration(ks, w))
            && (first.Some? && last.Some? ==>
                  forall t :: EventTime(rec, ks, t) ==>
                    (InWindow(w, t) <==> InWindow(Window(At(first.value), At(last.value)), t)))
  {
    if ks == [] {
      assert forall t :: !EventTime(rec, ks, t);
      assert forall t :: t !in table.steps;
    } else {
      var t := rec[ks[0]].sd;
      assert ks[0] in ks && TimeOf(ks[0], rec[ks[0]], t);
      assert EventTime(rec, ks, t) && t in table.steps;
    }
  }

  /** Builds the timestep table of the records, resolves the window, enters the categories and prints the table.
      Prints none if the length of the table cannot be computed. */
  method Timetable(rec: map<Key, Record>, ks: seq<Key>, w: Window) returns (rows: Option<seq<Row>>)
    requires Known(rec, ks)
    ensures rows == if NoDuration(ks, w) then None else Some(PrintedTable(rec, ks, w))
  {
    hide EventTime, EventTimes, Filed, CategorisedUpTo, PrintedRows, ListAfter, InWindow;
    var table := new TimestepTable(rec, ks);
    BoundsResolved(rec, ks, table, w);
    var first, last := Resolved(w.first, table.first), Resolved(w.last, table.last);
    if first == None || last == None {
      return None;
    }
    var v := Window(At(first.value), At(last.value));
    ghost var ts, now := InitCategories(rec, ks, table, table.order, v);
    var printed := PrintTimesteps(rec, ks, table, table.order, v, ts, now);
    EventTimesAreScheduled(rec, ks);
    SameElementsSameOrder(ts, EventTimes(rec, ks));
    SameRows(rec, ks, ts, w, v, |ts|);
    rows := Some(printed);
  }

  /** The whole analysis: reads the records, builds one group table, and prints the timestep table. */
  method Analyze(lines: seq<Line>, w: Window, g: Debits.Grouping)
    returns (records: RecordTable, groups: Debits.GroupTable, rows: Option<seq<Row>>)
    ensures HoldsChains(records.rec, lines, w) && Enumerates(records.order, records.rec)
    ensures Known(records.rec, records.order) && groups.Holds(records.rec, records.order, g)
    ensures rows == if NoDuration(records.order, w) then None else Some(PrintedTable(records.rec, records.order, w))
  {
    records := new RecordTable(lines, w);
    rows := Timetable(records.rec, records.order, w);
    groups := new Debits.GroupTable(records.rec, records.order, g);
  }

  /** The pending area printed for an accounting file is the pending column of any group table of that file,
      exactly when every run was queued before it started. */
  lemma PrintedPendingIsGroupTotal(lines: seq<Line>, rec: map<Key, Record>, ks: seq<Key>, w: Window,
                                   g: Debits.Grouping, names: seq<string>)
    requires HoldsChains(rec, lines, w) && Enumerates(ks, rec)
    requires Debits.OncePerName(names) && Known(rec, ks)
    requires Covers(w, EventTimes(rec, ks))
    requires forall name :: Debits.HasGroup(rec, ks, g, name) ==> name in names
    ensures TableArea(Pending, PrintedTable(rec, ks, w)) == Debits.SumOfRows(rec, ks, g, names, Debits.Pending)
            <==> forall k :: k in rec ==> QueueTime(k, rec[k]) <= rec[k].sd
  {
    hide EventTimes;
    var ts := EventTimes(rec, ks);
    EventTimesAreScheduled(rec, ks);
    ChainsAreLinked(rec, lines, w);
    PrintedAreaIsArea(Pending, rec, ks, ts, w, |ts|);
    Debits.RowsAddUp(rec, ks, g, names, Debits.Pending);
    PendingAreaIsDebited(rec, ks, ts);
  }

  /** Likewise the running area is the sum of end minus start over all runs and of what they exceed it by:
      if no run ends before it starts, exactly the sum when no rerun was requeued between its start and its end. */
  lemma PrintedRunningIsRuntime(lines: seq<Line>, rec: map<Key, Record>, ks: seq<Key>, w: Window)
    requires HoldsChains(rec, lines, w) && Enumerates(ks, rec) && Known(rec, ks)
    requires Covers(w, EventTimes(rec, ks))
    ensures TableArea(Running, PrintedTable(rec, ks, w))
            == Total(Running, rec, ks) + SumOfExcess(rec, ks, EndOf(EventTimes(rec, ks)))
    ensures (forall k :: k in rec ==> rec[k].sd <= rec[k].ed) ==>
              (TableArea(Running, PrintedTable(rec, ks, w)) == Total(Running, rec, ks)
               <==> forall k :: k in rec ==> k.run == 1 || !(rec[k].sd <= rec[k].rd < rec[k].ed))
  {
    hide EventTimes;
    var ts := EventTimes(rec, ks);
    EventTimesAreScheduled(rec, ks);
    PrintedAreaIsArea(Running, rec, ks, ts, w, |ts|);
    RunningAreaIsRuntime(rec, ks, ts);
  }

  // ----- a rerun that starts when it was requeued -----

  function RunOf(start: int, ende: int): Line {
    Entry(1, 0, 1, start, ende, "u", "p", "q", "h", "NONE", "c", 0, 0, 0, 0)
  }

  /** Two lines of one task, the second run starting at the end of the first: the table holds a rerun requeued at its
      start, the sweep leaves it off the running list, and the running area lacks its ten seconds. */
  lemma RerunMissing(rec: map<Key, Record>, ks: seq<Key>, w: Window)
    requires w == Window(Open, Open)
    requires HoldsChains(rec, [RunOf(5, 10), RunOf(10, 20)], w) && Enumerates(ks, rec) && Known(rec, ks)
    ensures Key(1, 0, 2) in rec && rec[Key(1, 0, 2)].sd <= rec[Key(1, 0, 2)].rd < rec[Key(1, 0, 2)].ed
    ensures TableArea(Running, PrintedTable(rec, ks, w)) != Total(Running, rec, ks)
  {
    var a, b := RunOf(5, 10), RunOf(10, 20);
    assert [a, b][..1] == [a];
    assert Chain([], w, 1, 0) == [];
    assert Chain([a], w, 1, 0) == [a];
    assert Chain([a, b], w, 1, 0) == [a] + [b];
    var k := Key(1, 0, 2);
    assert k in rec && rec[k] == ChainedRun([a, b], 2);
    forall k | k in rec
      ensures rec[k].sd <= rec[k].ed
    {
      RunIsOneOf(rec, w, k);
    }
    PrintedRunningIsRuntime([a, b], rec, ks, w);
  }

  lemma RunIsOneOf(rec: map<Key, Record>, w: Window, k: Key)
    requires HoldsChains(rec, [RunOf(5, 10), RunOf(10, 20)], w) && k in rec
    ensures rec[k].sd <= rec[k].ed
  {
    var lines := [RunOf(5, 10), RunOf(10, 20)];
    var c := Chain(lines, w, k.job, k.task);
    assert Key(k.job, k.task, k.run) in rec;
    ChainOfLines(lines, w, k.job, k.task);
    assert c[k.run - 1] in c;
  }

  lemma {:induction false} ChainOfLines(lines: seq<Line>, w: Window, job: int, task: int)
    ensures forall e :: e in Chain(lines, w, job, task) ==> e in lines
  {
    if lines != [] {
      ChainOfLines(lines[..|lines| - 1], w, job, task);
    }
  }
}
