/**
 The sweep over the timestep table that keeps the lists of pending and of running jobs.
 Its lists are compared with an interval definition, and its counts with the debited totals.
 */
module Sweep {
  import opened Accounting
  import opened Timesteps
  import opened Counting
  import opened Optional
  import Debits

  datatype Mode = Pending | Running

  /** Array difference: drops every element of a that occurs in b. */
  function Minus(a: seq<Key>, b: seq<Key>): (r: seq<Key>)
    ensures forall x :: x in r <==> x in a && x !in b
    ensures Once(a) ==> Once(r)
  {
    if a == [] then []
    else
      var last := |a| - 1;
      assert a == a[..last] + [a[last]];
      var rest := Minus(a[..last], b);
      if a[last] in b then rest else rest + [a[last]]
  }

  /** What one timestep does to a list of jobs. */
  function Advance(mode: Mode, jobs: seq<Key>, f: Fields): seq<Key> {
    match mode
    case Pending => Minus(jobs + f.queued + f.requeued, f.started)
    case Running => Minus(Minus(jobs + f.started, f.requeued), f.ended)
  }

  /** ts lists the times at which something happens to a run in ks, in order. */
  ghost predicate Schedule(rec: map<Key, Record>, ks: seq<Key>, ts: seq<int>) {
    Known(rec, ks) && Increasing(ts) && forall t :: t in ts <==> EventTime(rec, ks, t)
  }

  /** The list after the first n timesteps. */
  ghost function ListAfter(mode: Mode, rec: map<Key, Record>, ks: seq<Key>, ts: seq<int>, n: nat): seq<Key>
    requires Known(rec, ks)
    requires n <= |ts|
  {
    if n == 0 then []
    else Advance(mode, ListAfter(mode, rec, ks, ts, n - 1), Filed(rec, ks, ts[n - 1]))
  }

  // ----- when a run is on a list -----

  /** The time at which the sweep enters a run into the list. */
  function Enter(mode: Mode, k: Key, r: Record): int {
    if mode == Pending then QueueTime(k, r) else r.sd
  }

  /** The time at which the sweep removes it again: the first removing event not before its entry, if any. */
  function Leave(mode: Mode, k: Key, r: Record): Option<int> {
    if mode == Pending then
      if QueueTime(k, r) <= r.sd then Some(r.sd) else None
    else if k.run != 1 && r.sd <= r.rd && (r.ed < r.sd || r.rd <= r.ed) then Some(r.rd)
    else if r.sd <= r.ed then Some(r.ed)
    else None
  }

  predicate Listed(mode: Mode, k: Key, r: Record, t: int) {
    Enter(mode, k, r) <= t && (Leave(mode, k, r) == None || t < Leave(mode, k, r).value)
  }

  /** The interval a reader of the table expects: from queueing to start, and from start to end. */
  predicate Expected(mode: Mode, k: Key, r: Record, t: int) {
    if mode == Pending then QueueTime(k, r) <= t < r.sd else r.sd <= t < r.ed
  }

  /** When the sweep meets that expectation for a run. */
  predicate InOrder(mode: Mode, k: Key, r: Record) {
    if mode == Pending then QueueTime(k, r) <= r.sd
    else if r.sd <= r.ed then k.run == 1 || r.rd < r.sd || r.ed <= r.rd
    else k.run != 1 && r.rd == r.sd
  }

  lemma {:induction false} EventsMember(rec: map<Key, Record>, ks: seq<Key>, kind: Kind, t: int, k: Key)
    requires Known(rec, ks)
    ensures k in EventsAt(rec, ks, kind, t) <==> k in ks && Happens(k, rec[k], kind, t)
  {
    if ks != [] {
      var last := |ks| - 1;
      assert ks == ks[..last] + [ks[last]];
      EventsMember(rec, ks[..last], kind, t, k);
    }
  }

  lemma {:induction false} EventsOnce(rec: map<Key, Record>, ks: seq<Key>, kind: Kind, t: int)
    requires Known(rec, ks)
    requires Once(ks)
    ensures Once(EventsAt(rec, ks, kind, t))
  {
    if ks != [] {
      var last := |ks| - 1;
      EventsOnce(rec, ks[..last], kind, t);
      EventsMember(rec, ks[..last], kind, t, ks[last]);
    }
  }

  /** No event falls strictly between two neighbouring timesteps, or before the first. */
  lemma NoEventBetween(rec: map<Key, Record>, ks: seq<Key>, ts: seq<int>, n: nat, t: int)
    requires Schedule(rec, ks, ts)
    requires 1 <= n <= |ts|
    requires EventTime(rec, ks, t)
    ensures t <= ts[n - 1] <==> t == ts[n - 1] || (n > 1 && t <= ts[n - 2])
  {
    assert t in ts;
    var i :| 0 <= i < |ts| && ts[i] == t;
  }

  lemma AdvanceMember(mode: Mode, jobs: seq<Key>, rec: map<Key, Record>, ks: seq<Key>, t: int, k: Key)
    requires Known(rec, ks)
    requires k in jobs ==> k in ks
    ensures k in Advance(mode, jobs, Filed(rec, ks, t)) <==>
            && k in ks
            && (k in jobs || Enter(mode, k, rec[k]) == t)
            && !(if mode == Pending then rec[k].sd == t else (k.run != 1 && rec[k].rd == t) || rec[k].ed == t)
  {
    EventsMember(rec, ks, Queued, t, k);
    EventsMember(rec, ks, Requeued, t, k);
    EventsMember(rec, ks, Started, t, k);
    EventsMember(rec, ks, Ended, t, k);
  }

  /** The sweep, characterised without any assumption on the dates of the records. */
  lemma {:induction false} ListMember(mode: Mode, rec: map<Key, Record>, ks: seq<Key>, ts: seq<int>, n: nat, k: Key)
    requires Schedule(rec, ks, ts)
    requires 1 <= n <= |ts|
    ensures k in ListAfter(mode, rec, ks, ts, n) <==> k in ks && Listed(mode, k, rec[k], ts[n - 1])
  {
    if n > 1 {
      ListMember(mode, rec, ks, ts, n - 1, k);
    }
    AdvanceMember(mode, ListAfter(mode, rec, ks, ts, n - 1), rec, ks, ts[n - 1], k);
    if k in ks {
      NoEventBetween(rec, ks, ts, n, QueueTime(k, rec[k]));
      NoEventBetween(rec, ks, ts, n, rec[k].sd);
      NoEventBetween(rec, ks, ts, n, rec[k].ed);
    }
  }

  /** The runs a timestep enters into the list. */
  ghost function Entering(mode: Mode, rec: map<Key, Record>, ks: seq<Key>, t: int): seq<Key>
    requires Known(rec, ks)
  {
    if mode == Pending then EventsAt(rec, ks, Queued, t) + EventsAt(rec, ks, Requeued, t)
    else EventsAt(rec, ks, Started, t)
  }

  lemma EnteringMember(mode: Mode, rec: map<Key, Record>, ks: seq<Key>, t: int, k: Key)
    requires Known(rec, ks)
    ensures k in Entering(mode, rec, ks, t) <==> k in ks && Enter(mode, k, rec[k]) == t
  {
    EventsMember(rec, ks, Queued, t, k);
    EventsMember(rec, ks, Requeued, t, k);
    EventsMember(rec, ks, Started, t, k);
  }

  lemma EnteringOnce(mode: Mode, rec: map<Key, Record>, ks: seq<Key>, t: int)
    requires Known(rec, ks)
    requires Once(ks)
    ensures Once(Entering(mode, rec, ks, t))
  {
    EventsOnce(rec, ks, Queued, t);
    EventsOnce(rec, ks, Requeued, t);
    EventsOnce(rec, ks, Started, t);
    forall k | k in EventsAt(rec, ks, Queued, t)
      ensures k !in EventsAt(rec, ks, Requeued, t)
    {
      EventsMember(rec, ks, Queued, t, k);
      EventsMember(rec, ks, Requeued, t, k);
    }
    JoinOnce(EventsAt(rec, ks, Queued, t), EventsAt(rec, ks, Requeued, t));
  }

  lemma ListedNotEntering(mode: Mode, rec: map<Key, Record>, ks: seq<Key>, ts: seq<int>, n: nat, k: Key)
    requires Schedule(rec, ks, ts)
    requires 2 <= n <= |ts|
    requires k in ListAfter(mode, rec, ks, ts, n - 1)
    ensures k !in Entering(mode, rec, ks, ts[n - 1])
  {
    hide ListAfter, Entering, EventTime;
    ListMember(mode, rec, ks, ts, n - 1, k);
    EnteringMember(mode, rec, ks, ts[n - 1], k);
    assert ts[n - 2] < ts[n - 1];
  }

  lemma {:induction false} ListOnce(mode: Mode, rec: map<Key, Record>, ks: seq<Key>, ts: seq<int>, n: nat)
    requires Schedule(rec, ks, ts)
    requires Once(ks)
    requires n <= |ts|
    ensures Once(ListAfter(mode, rec, ks, ts, n))
  {
    hide Entering, Advance, Filed, EventTime;
    if n > 0 {
      var jobs, entering := ListAfter(mode, rec, ks, ts, n - 1), Entering(mode, rec, ks, ts[n - 1]);
      ListOnce(mode, rec, ks, ts, n - 1);
      EnteringOnce(mode, rec, ks, ts[n - 1]);
      forall k | k in jobs { ListedNotEntering(mode, rec, ks, ts, n, k); }
      JoinOnce(jobs, entering);
      AdvanceEnters(mode, jobs, rec, ks, ts[n - 1]);
    }
  }

  lemma AdvanceEnters(mode: Mode, jobs: seq<Key>, rec: map<Key, Record>, ks: seq<Key>, t: int)
    requires Known(rec, ks)
    requires Once(jobs + Entering(mode, rec, ks, t))
    ensures Once(Advance(mode, jobs, Filed(rec, ks, t)))
  {
    var f := Filed(rec, ks, t);
    assert jobs + f.queued + f.requeued == jobs + (f.queued + f.requeued);
  }

  // ----- the lists are the intervals a reader expects -----

  ghost predicate ShowsExpected(mode: Mode, rec: map<Key, Record>, ks: seq<Key>, ts: seq<int>)
    requires Schedule(rec, ks, ts)
  {
    forall n, k :: 1 <= n <= |ts| && k in ks ==>
      (k in ListAfter(mode, rec, ks, ts, n) <==> Expected(mode, k, rec[k], ts[n - 1]))
  }

  /** Where a run that is out of order shows up wrongly. */
  function WrongTime(mode: Mode, k: Key, r: Record): int {
    if mode == Running && r.sd <= r.ed then r.rd else Enter(mode, k, r)
  }

  lemma WronglyListed(mode: Mode, k: Key, r: Record)
    requires !InOrder(mode, k, r)
    ensures var t := WrongTime(mode, k, r);
            && t in {QueueTime(k, r), r.sd, r.ed}
            && !(Listed(mode, k, r, t) <==> Expected(mode, k, r, t))
  {
  }

  /** A run that is out of order shows up wrongly at one timestep at least. */
  lemma Misplaced(mode: Mode, rec: map<Key, Record>, ks: seq<Key>, ts: seq<int>, k: Key) returns (n: nat)
    requires Schedule(rec, ks, ts)
    requires k in ks && !InOrder(mode, k, rec[k])
    ensures 1 <= n <= |ts|
    ensures !(k in ListAfter(mode, rec, ks, ts, n) <==> Expected(mode, k, rec[k], ts[n - 1]))
  {
    hide ListAfter, Listed, Expected, WrongTime;
    WronglyListed(mode, k, rec[k]);
    var t := WrongTime(mode, k, rec[k]);
    assert EventTime(rec, ks, t);
    var i :| 0 <= i < |ts| && ts[i] == t;
    n := i + 1;
    ListMember(mode, rec, ks, ts, n, k);
  }

  /** The incremental lists agree with the intervals at every timestep exactly when every run is in order. */
  lemma SweepShowsIntervals(mode: Mode, rec: map<Key, Record>, ks: seq<Key>, ts: seq<int>)
    requires Schedule(rec, ks, ts)
    ensures ShowsExpected(mode, rec, ks, ts) <==> forall k :: k in ks ==> InOrder(mode, k, rec[k])
  {
    if forall k :: k in ks ==> InOrder(mode, k, rec[k]) {
      forall n, k | 1 <= n <= |ts| && k in ks
        ensures k in ListAfter(mode, rec, ks, ts, n) <==> Expected(mode, k, rec[k], ts[n - 1])
      {
        ListMember(mode, rec, ks, ts, n, k);
      }
    } else {
      var k :| k in ks && !InOrder(mode, k, rec[k]);
      var n := Misplaced(mode, rec, ks, ts, k);
    }
  }

  /** With runs in order, no run is pending and running at once. */
  lemma ListsAreApart(rec: map<Key, Record>, ks: seq<Key>, ts: seq<int>, n: nat, k: Key)
    requires Schedule(rec, ks, ts)
    requires n <= |ts|
    requires k in ks ==> InOrder(Pending, k, rec[k]) && InOrder(Running, k, rec[k])
    ensures !(k in ListAfter(Pending, rec, ks, ts, n) && k in ListAfter(Running, rec, ks, ts, n))
  {
    if n > 0 {
      ListMember(Pending, rec, ks, ts, n, k);
      ListMember(Running, rec, ks, ts, n, k);
    }
  }

  /** With runs in order, nothing is left on a list after the last timestep. */
  lemma ListsEndEmpty(mode: Mode, rec: map<Key, Record>, ks: seq<Key>, ts: seq<int>)
    requires Schedule(rec, ks, ts)
    requires forall k :: k in ks ==> InOrder(mode, k, rec[k])
    ensures ListAfter(mode, rec, ks, ts, |ts|) == []
  {
    var list := ListAfter(mode, rec, ks, ts, |ts|);
    if list != [] {
      forall k { NotListedAtEnd(mode, rec, ks, ts, k); }
      HeadIsMember(list);
      assert false;
    }
  }

  lemma NotListedAtEnd(mode: Mode, rec: map<Key, Record>, ks: seq<Key>, ts: seq<int>, k: Key)
    requires Schedule(rec, ks, ts) && ts != []
    requires k in ks ==> InOrder(mode, k, rec[k])
    ensures k !in ListAfter(mode, rec, ks, ts, |ts|)
  {
    ListMember(mode, rec, ks, ts, |ts|, k);
    EndsBound(ts);
    if k in ks {
      assert EventTime(rec, ks, rec[k].sd) && EventTime(rec, ks, rec[k].ed);
    }
  }

  // ----- the area under the counts -----

  /** The list as it is after each timestep. */
  ghost function Lists(mode: Mode, rec: map<Key, Record>, ks: seq<Key>, ts: seq<int>): seq<seq<Key>>
    requires Known(rec, ks)
  {
    seq(|ts|, i requires 0 <= i < |ts| => ListAfter(mode, rec, ks, ts, i + 1))
  }

  function Min(a: int, b: int): int { if a < b then a else b }

  /** The time a run spends on the list, when the table ends at time end. */
  function Stay(mode: Mode, k: Key, r: Record, end: int): int {
    (if Leave(mode, k, r) == None then end else Leave(mode, k, r).value) - Enter(mode, k, r)
  }

  lemma ListedOverGap(mode: Mode, k: Key, r: Record, from: int, to: int)
    requires from <= to
    requires Enter(mode, k, r) <= from || to <= Enter(mode, k, r)
    requires var l := Leave(mode, k, r); l.Some? ==> l.value <= from || to <= l.value
    ensures UpTo(mode, k, r, to) == UpTo(mode, k, r, from) + if Listed(mode, k, r, from) then to - from else 0
  {
  }

  /** The time a run has spent on the list by time t. */
  function UpTo(mode: Mode, k: Key, r: Record, t: int): int {
    (if Leave(mode, k, r) == None then t else Min(Leave(mode, k, r).value, t)) - Min(Enter(mode, k, r), t)
  }

  /** Runs enter and leave at timesteps, so never strictly between two of them. */
  lemma EnterAndLeaveAtTimes(mode: Mode, rec: map<Key, Record>, ks: seq<Key>, ts: seq<int>, n: nat, k: Key)
    requires Schedule(rec, ks, ts)
    requires 1 <= n <= |ts|
    requires k in ks
    ensures n == 1 ==> UpTo(mode, k, rec[k], ts[0]) == 0
    ensures n > 1 ==>
      var enter, leave := Enter(mode, k, rec[k]), Leave(mode, k, rec[k]);
      && ts[n - 2] < ts[n - 1]
      && (enter <= ts[n - 2] || ts[n - 1] <= enter)
      && (leave.Some? ==> leave.value <= ts[n - 2] || ts[n - 1] <= leave.value)
  {
    NoEventBetween(rec, ks, ts, n, QueueTime(k, rec[k]));
    NoEventBetween(rec, ks, ts, n, rec[k].sd);
    NoEventBetween(rec, ks, ts, n, rec[k].ed);
  }

  lemma {:induction false} PresenceIsStay(mode: Mode, rec: map<Key, Record>, ks: seq<Key>, ts: seq<int>, n: nat, k: Key)
    requires Schedule(rec, ks, ts)
    requires 1 <= n <= |ts|
    requires k in ks
    ensures Presence(Lists(mode, rec, ks, ts), ts, n, k) == UpTo(mode, k, rec[k], ts[n - 1])
  {
    hide ListAfter, Enter, Leave, Listed, UpTo;
    EnterAndLeaveAtTimes(mode, rec, ks, ts, n, k);
    if n > 1 {
      PresenceIsStay(mode, rec, ks, ts, n - 1, k);
      ListMember(mode, rec, ks, ts, n - 1, k);
      ListedOverGap(mode, k, rec[k], ts[n - 2], ts[n - 1]);
    }
  }

  ghost function SumOfStays(mode: Mode, rec: map<Key, Record>, ks: seq<Key>, end: int): int
    requires Known(rec, ks)
  {
    if ks == [] then 0
    else SumOfStays(mode, rec, ks[..|ks| - 1], end) + Stay(mode, ks[|ks| - 1], rec[ks[|ks| - 1]], end)
  }

  lemma {:induction false} PresencesAreStays(mode: Mode, rec: map<Key, Record>, ks: seq<Key>, ts: seq<int>,
                                                   some: seq<Key>)
    requires Schedule(rec, ks, ts) && ts != []
    requires forall k :: k in some ==> k in ks
    ensures SumOfPresence(Lists(mode, rec, ks, ts), ts, |ts|, some)
            == SumOfStays(mode, rec, some, ts[|ts| - 1])
  {
    if some != [] {
      PresencesAreStays(mode, rec, ks, ts, some[..|some| - 1]);
      PresenceIsStay(mode, rec, ks, ts, |ts|, some[|some| - 1]);
      AllByTheEnd(mode, rec, ks, ts, some[|some| - 1]);
    }
  }

  lemma AllByTheEnd(mode: Mode, rec: map<Key, Record>, ks: seq<Key>, ts: seq<int>, k: Key)
    requires Schedule(rec, ks, ts) && ts != []
    requires k in ks
    ensures UpTo(mode, k, rec[k], ts[|ts| - 1]) == Stay(mode, k, rec[k], ts[|ts| - 1])
    ensures Enter(mode, k, rec[k]) <= ts[|ts| - 1]
    ensures rec[k].sd <= ts[|ts| - 1]
  {
    EndsBound(ts);
    var r := rec[k];
    assert EventTime(rec, ks, QueueTime(k, r)) && EventTime(rec, ks, r.sd) && EventTime(rec, ks, r.ed);
  }

  /** The area under the counts, for arbitrary records: every run adds the time it stays listed. */
  lemma AreaIsSumOfStays(mode: Mode, rec: map<Key, Record>, ks: seq<Key>, ts: seq<int>)
    requires Schedule(rec, ks, ts) && ts != []
    requires Once(ks)
    ensures Area(Lists(mode, rec, ks, ts), ts, |ts|) == SumOfStays(mode, rec, ks, ts[|ts| - 1])
  {
    hide ListAfter, Listed, Area, SumOfPresence, SumOfStays;
    var lists := Lists(mode, rec, ks, ts);
    forall list | list in lists
      ensures Once(list)
      ensures forall k :: k in list ==> k in ks
    {
      var i :| 0 <= i < |lists| && lists[i] == list;
      ListOnce(mode, rec, ks, ts, i + 1);
      forall k { ListMember(mode, rec, ks, ts, i + 1, k); }
    }
    AreaByJobs(lists, ts, |ts|, ks);
    PresencesAreStays(mode, rec, ks, ts, ks);
  }

  // ----- the counts against the debited totals -----

  /** What a reader takes the column total to be: pending time, or time from start to end. */
  ghost function Total(mode: Mode, rec: map<Key, Record>, ks: seq<Key>): int
    requires Known(rec, ks)
  {
    if ks == [] then 0
    else
      var k := ks[|ks| - 1];
      Total(mode, rec, ks[..|ks| - 1])
      + if mode == Pending then rec[k].sd - QueueTime(k, rec[k]) else rec[k].ed - rec[k].sd
  }

  /** Judging by rd == 0, as the debit does, or by run index, as the sweep does, gives the same queue time. */
  lemma {:induction false} PendingTotalIsDebited(rec: map<Key, Record>, ks: seq<Key>)
    requires Known(rec, ks)
    requires Linked(rec)
    ensures Total(Pending, rec, ks) == Debits.Debited(rec, ks, Debits.Pending)
  {
    if ks != [] {
      PendingTotalIsDebited(rec, ks[..|ks| - 1]);
    }
  }

  /** How far one run's stay exceeds what the reader expects. */
  lemma StayDeviation(mode: Mode, k: Key, r: Record, end: int)
    requires Enter(mode, k, r) <= end && r.sd <= end
    ensures var expected := if mode == Pending then r.sd - QueueTime(k, r) else r.ed - r.sd;
            && (InOrder(mode, k, r) && (mode == Running ==> r.sd <= r.ed) ==> Stay(mode, k, r, end) == expected)
            && (mode == Pending && !InOrder(mode, k, r) ==> Stay(mode, k, r, end) > expected)
            && (mode == Running && r.sd <= r.ed && !InOrder(mode, k, r) ==> Stay(mode, k, r, end) < expected)
  {
  }

  /** A reversed queueing only ever adds area, so the sums agree exactly when no run is out of order. */
  lemma {:induction false} PendingDeviation(rec: map<Key, Record>, ks: seq<Key>, end: int)
    requires Known(rec, ks)
    requires forall k :: k in ks ==> Enter(Pending, k, rec[k]) <= end && rec[k].sd <= end
    ensures SumOfStays(Pending, rec, ks, end) >= Total(Pending, rec, ks)
    ensures SumOfStays(Pending, rec, ks, end) == Total(Pending, rec, ks)
            <==> forall k :: k in ks ==> InOrder(Pending, k, rec[k])
  {
    if ks != [] {
      var k := ks[|ks| - 1];
      assert ks == ks[..|ks| - 1] + [k];
      PendingDeviation(rec, ks[..|ks| - 1], end);
      StayDeviation(Pending, k, rec[k], end);
    }
  }

  lemma {:induction false} RunningDeviation(rec: map<Key, Record>, ks: seq<Key>, end: int)
    requires Known(rec, ks)
    requires forall k :: k in ks ==> rec[k].sd <= rec[k].ed && rec[k].sd <= end
    ensures SumOfStays(Running, rec, ks, end) <= Total(Running, rec, ks)
    ensures SumOfStays(Running, rec, ks, end) == Total(Running, rec, ks)
            <==> forall k :: k in ks ==> InOrder(Running, k, rec[k])
  {
    if ks != [] {
      var k := ks[|ks| - 1];
      assert ks == ks[..|ks| - 1] + [k];
      RunningDeviation(rec, ks[..|ks| - 1], end);
      StayDeviation(Running, k, rec[k], end);
    }
  }

  /** The area under the pending counts is the debited pending time exactly when every run was queued
      before it started. */
  lemma PendingAreaIsDebited(rec: map<Key, Record>, ks: seq<Key>, ts: seq<int>)
    requires Schedule(rec, ks, ts) && Once(ks) && Linked(rec)
    ensures Area(Lists(Pending, rec, ks, ts), ts, |ts|) == Debits.Debited(rec, ks, Debits.Pending)
            <==> forall k :: k in ks ==> QueueTime(k, rec[k]) <= rec[k].sd
  {
    PendingTotalIsDebited(rec, ks);
    if ks != [] {
      RunsGiveTimes(rec, ks, ts);
      forall k | k in ks { AllByTheEnd(Pending, rec, ks, ts, k); }
      AreaIsSumOfStays(Pending, rec, ks, ts);
      PendingDeviation(rec, ks, ts[|ts| - 1]);
    } else {
      NoRunsNoTimes(rec, ts);
    }
  }

  /** How far the listed time of a run exceeds end minus start: a run that ends before it starts stays until
      its requeue date or the end of the table, and one requeued between start and end is cut off there. */
  function Excess(k: Key, r: Record, end: int): int {
    if r.ed < r.sd then (if k.run != 1 && r.sd <= r.rd then r.rd else end) - r.ed
    else if k.run != 1 && r.sd <= r.rd < r.ed then r.rd - r.ed
    else 0
  }

  ghost function SumOfExcess(rec: map<Key, Record>, ks: seq<Key>, end: int): int
    requires Known(rec, ks)
  {
    if ks == [] then 0
    else SumOfExcess(rec, ks[..|ks| - 1], end) + Excess(ks[|ks| - 1], rec[ks[|ks| - 1]], end)
  }

  lemma {:induction false} StaysExceed(rec: map<Key, Record>, ks: seq<Key>, end: int)
    requires Known(rec, ks)
    ensures SumOfStays(Running, rec, ks, end) == Total(Running, rec, ks) + SumOfExcess(rec, ks, end)
  {
    if ks != [] {
      StaysExceed(rec, ks[..|ks| - 1], end);
    }
  }

  /** The last time of a schedule. */
  function EndOf(ts: seq<int>): int {
    if ts == [] then 0 else ts[|ts| - 1]
  }

  /** The area under the running counts is the sum of end minus start and of what the runs exceed it by.
      If no run ends before it starts, it is the sum of end minus start exactly when no rerun's requeue date
      falls into [start, end). */
  lemma RunningAreaIsRuntime(rec: map<Key, Record>, ks: seq<Key>, ts: seq<int>)
    requires Schedule(rec, ks, ts) && Once(ks)
    ensures Area(Lists(Running, rec, ks, ts), ts, |ts|)
            == Total(Running, rec, ks) + SumOfExcess(rec, ks, EndOf(ts))
    ensures (forall k :: k in ks ==> rec[k].sd <= rec[k].ed) ==>
              (Area(Lists(Running, rec, ks, ts), ts, |ts|) == Total(Running, rec, ks)
               <==> forall k :: k in ks ==> k.run == 1 || !(rec[k].sd <= rec[k].rd < rec[k].ed))
  {
    if ks != [] {
      RunsGiveTimes(rec, ks, ts);
      AreaIsSumOfStays(Running, rec, ks, ts);
      StaysExceed(rec, ks, EndOf(ts));
      forall k | k in ks { AllByTheEnd(Running, rec, ks, ts, k); }
      if forall k :: k in ks ==> rec[k].sd <= rec[k].ed {
        RunningDeviation(rec, ks, ts[|ts| - 1]);
        assert forall k :: k in ks ==>
          (InOrder(Running, k, rec[k]) <==> k.run == 1 || !(rec[k].sd <= rec[k].rd < rec[k].ed));
      }
    } else {
      NoRunsNoTimes(rec, ts);
    }
  }

  lemma RunsGiveTimes(rec: map<Key, Record>, ks: seq<Key>, ts: seq<int>)
    requires Schedule(rec, ks, ts) && ks != []
    ensures ts != []
  {
    assert ks[0] in ks;
    assert EventTime(rec, ks, rec[ks[0]].sd);
  }

  lemma NoRunsNoTimes(rec: map<Key, Record>, ts: seq<int>)
    requires Schedule(rec, [], ts)
    ensures |ts| == 0
  {
    if |ts| > 0 {
      FirstIsMember(ts);
      assert false;
    }
  }

  lemma FirstIsMember(ts: seq<int>)
    requires |ts| > 0
    ensures exists t :: t in ts
  {
    var t := ts[0];
    assert t in ts;
  }
}
