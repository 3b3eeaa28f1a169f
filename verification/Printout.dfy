/** What the printed table of timesteps shows: which rows it has, and what each of them counts. */
module Printout {
  import opened Accounting
  import opened Counting
  import opened Report
  import opened Sweep
  import opened Timesteps

  ghost predicate HasRow(rows: seq<Row>, t: int) {
    exists i :: 0 <= i < |rows| && rows[i].time == t
  }

  lemma OneRowMore(rows: seq<Row>, row: Row, t: int)
    ensures HasRow(rows + [row], t) <==> HasRow(rows, t) || row.time == t
  {
    if i :| 0 <= i < |rows| && rows[i].time == t {
      assert (rows + [row])[i].time == t;
    }
    assert (rows + [row])[|rows|] == row;
  }

  lemma {:induction false} RowTimes(rec: map<Key, Record>, ks: seq<Key>, ts: seq<int>, w: Window, n: nat, t: int)
    requires Known(rec, ks) && n <= |ts|
    ensures HasRow(PrintedRows(rec, ks, ts, w, n), t)
            <==> t in ts[..n] && (w.first.At? ==> w.first.time <= t) && (w.last.At? ==> t <= w.last.time)
  {
    hide ListAfter, CategoryCount, HasRow;
    if n == 0 {
      assert !HasRow([], t) by { NoRow(t); }
    } else {
      RowTimes(rec, ks, ts, w, n - 1, t);
      assert ts[..n] == ts[..n - 1] + [ts[n - 1]];
      var rows := PrintedRows(rec, ks, ts, w, n - 1);
      var pending, running := ListAfter(Pending, rec, ks, ts, n), ListAfter(Running, rec, ks, ts, n);
      OneRowMore(rows, RowAt(rec, ts[n - 1], pending, running, rows), t);
    }
  }

  lemma NoRow(t: int)
    ensures !HasRow([], t)
  {
  }

  /** A run is queued, or if it is not the first requeued, started or ended at the time. */
  ghost predicate SomethingAt(rec: map<Key, Record>, ks: seq<Key>, t: int)
    requires Known(rec, ks)
  {
    exists k :: k in ks && (t == rec[k].sd || t == rec[k].ed || t == if k.run == 1 then rec[k].qd else rec[k].rd)
  }

  lemma EventTimeIs(rec: map<Key, Record>, ks: seq<Key>, t: int)
    requires Known(rec, ks)
    ensures EventTime(rec, ks, t) <==> SomethingAt(rec, ks, t)
  {
    if k :| k in ks && TimeOf(k, rec[k], t) {
      assert t == rec[k].sd || t == rec[k].ed || t == if k.run == 1 then rec[k].qd else rec[k].rd;
    }
    if k :| k in ks && (t == rec[k].sd || t == rec[k].ed || t == if k.run == 1 then rec[k].qd else rec[k].rd) {
      assert TimeOf(k, rec[k], t);
    }
  }

  /** The table has a row for a time exactly if something happens to a run then and the time is inside the bounds that
      are given. */
  lemma RowsExactly(rec: map<Key, Record>, ks: seq<Key>, w: Window, t: int)
    requires Known(rec, ks)
    ensures HasRow(PrintedTable(rec, ks, w), t)
            <==> SomethingAt(rec, ks, t) && (w.first.At? ==> w.first.time <= t) && (w.last.At? ==> t <= w.last.time)
  {
    hide HasRow, SomethingAt, EventTime, PrintedRows, EventTimes;
    var ts := EventTimes(rec, ks);
    EventTimesAreScheduled(rec, ks);
    RowTimes(rec, ks, ts, w, |ts|, t);
    assert ts[..|ts|] == ts;
    assert t in ts <==> EventTime(rec, ks, t);
    EventTimeIs(rec, ks, t);
  }

  /** The runs that are on the list at a time. */
  ghost function ListedAt(mode: Mode, rec: map<Key, Record>, ks: seq<Key>, t: int): set<Key>
    requires Known(rec, ks)
  {
    set k | k in ks && Listed(mode, k, rec[k], t)
  }

  /** Their categories. */
  ghost function CategoriesAt(mode: Mode, rec: map<Key, Record>, ks: seq<Key>, t: int): set<string>
    requires Known(rec, ks)
  {
    set k | k in ListedAt(mode, rec, ks, t) :: rec[k].cat
  }

  lemma {:induction false} SizeOfOnce(s: seq<Key>)
    requires Once(s)
    ensures |set k | k in s| == |s|
  {
    if s != [] {
      var n := |s| - 1;
      var init := s[..n];
      SizeOfOnce(init);
      assert s == init + [s[n]];
      assert (set k | k in s) == (set k | k in init) + {s[n]};
    }
  }

  lemma ListSize(mode: Mode, rec: map<Key, Record>, ks: seq<Key>, ts: seq<int>, n: nat)
    requires Schedule(rec, ks, ts) && Once(ks) && 1 <= n <= |ts|
    ensures var list := ListAfter(mode, rec, ks, ts, n);
            && (set k | k in list) == ListedAt(mode, rec, ks, ts[n - 1])
            && |list| == |ListedAt(mode, rec, ks, ts[n - 1])|
            && CategoryCount(rec, list) == |CategoriesAt(mode, rec, ks, ts[n - 1])|
  {
    hide ListAfter, Listed;
    var list := ListAfter(mode, rec, ks, ts, n);
    forall k { ListMember(mode, rec, ks, ts, n, k); }
    ListOnce(mode, rec, ks, ts, n);
    SizeOfOnce(list);
    assert (set k | k in list) == ListedAt(mode, rec, ks, ts[n - 1]);
    assert Categories(rec, list) == CategoriesAt(mode, rec, ks, ts[n - 1]);
  }

  /** A row counts the runs that are listed at its time, and their categories. */
  ghost predicate Counts(row: Row, rec: map<Key, Record>, ks: seq<Key>)
    requires Known(rec, ks)
  {
    && row.npend == |ListedAt(Pending, rec, ks, row.time)|
    && row.nrunn == |ListedAt(Running, rec, ks, row.time)|
    && row.npcat == |CategoriesAt(Pending, rec, ks, row.time)|
    && row.nrcat == |CategoriesAt(Running, rec, ks, row.time)|
  }

  /** Rows in the order of time, each with the gap to the one before. */
  ghost predicate Spaced(rows: seq<Row>) {
    && (forall i :: 1 <= i < |rows| ==> rows[i - 1].time < rows[i].time)
    && (forall i :: 0 <= i < |rows| ==> rows[i].delta == if i == 0 then 0 else rows[i].time - rows[i - 1].time)
  }

  ghost predicate AllCount(rows: seq<Row>, rec: map<Key, Record>, ks: seq<Key>)
    requires Known(rec, ks)
  {
    forall i :: 0 <= i < |rows| ==> Counts(rows[i], rec, ks)
  }

  lemma {:induction false} RowsCount(rec: map<Key, Record>, ks: seq<Key>, ts: seq<int>, w: Window, n: nat)
    requires Schedule(rec, ks, ts) && Once(ks) && n <= |ts|
    ensures var rows := PrintedRows(rec, ks, ts, w, n);
            && AllCount(rows, rec, ks) && Spaced(rows)
            && (rows != [] ==> n > 0 && rows[|rows| - 1].time <= ts[n - 1])
  {
    hide ListAfter, CategoryCount, ListedAt, CategoriesAt, EventTime, InWindow;
    if n > 0 {
      RowsCount(rec, ks, ts, w, n - 1);
      ListSize(Pending, rec, ks, ts, n);
      ListSize(Running, rec, ks, ts, n);
      assert n > 1 ==> ts[n - 2] < ts[n - 1];
    }
  }

  /** Every row of the table shows the numbers of runs listed at its time, and of their categories; rows come in the
      order of time, each with the gap to the one before. */
  lemma RowsShow(rec: map<Key, Record>, ks: seq<Key>, w: Window)
    requires Known(rec, ks) && Once(ks)
    ensures AllCount(PrintedTable(rec, ks, w), rec, ks) && Spaced(PrintedTable(rec, ks, w))
  {
    hide EventTimes, PrintedRows, AllCount, Spaced;
    EventTimesAreScheduled(rec, ks);
    RowsCount(rec, ks, EventTimes(rec, ks), w, |EventTimes(rec, ks)|);
  }

  /** With all runs in order the numbers are those of the runs that wait and that run at the time. */
  lemma RowsShowIntervals(mode: Mode, rec: map<Key, Record>, ks: seq<Key>, t: int)
    requires Known(rec, ks) && forall k :: k in ks ==> InOrder(mode, k, rec[k])
    ensures ListedAt(mode, rec, ks, t)
            == if mode == Pending then set k | k in ks && (if k.run == 1 then rec[k].qd else rec[k].rd) <= t < rec[k].sd
               else set k | k in ks && rec[k].sd <= t < rec[k].ed
  {
  }
}
