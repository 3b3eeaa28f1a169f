/** The timestep table: which runs are queued, requeued, started and ended at each point in time. */
module Timesteps {
  import opened Accounting
  import opened Optional

  datatype Kind = Queued | Requeued | Started | Ended

  /** First runs wait from submission, later ones from the end of the run before. */
  function QueueTime(k: Key, r: Record): int {
    if k.run == 1 then r.qd else r.rd
  }

  predicate Happens(k: Key, r: Record, kind: Kind, t: int) {
    match kind
    case Queued => k.run == 1 && r.qd == t
    case Requeued => k.run != 1 && r.rd == t
    case Started => r.sd == t
    case Ended => r.ed == t
  }

  /** The runs of ks with an event of this kind at time t, in the order of ks. */
  ghost function EventsAt(rec: map<Key, Record>, ks: seq<Key>, kind: Kind, t: int): seq<Key>
    requires Known(rec, ks)
  {
    if ks == [] then []
    else
      var k := ks[|ks| - 1];
      EventsAt(rec, ks[..|ks| - 1], kind, t) + if Happens(k, rec[k], kind, t) then [k] else []
  }

  /** Events of two lists of runs, in their order. */
  lemma {:induction false} EventsConcat(rec: map<Key, Record>, a: seq<Key>, b: seq<Key>, kind: Kind, t: int)
    requires Known(rec, a) && Known(rec, b)
    ensures Known(rec, a + b)
    ensures EventsAt(rec, a + b, kind, t) == EventsAt(rec, a, kind, t) + EventsAt(rec, b, kind, t)
  {
    if b == [] {
      assert a + b == a;
    } else {
      var n := |b| - 1;
      assert (a + b)[..|a + b| - 1] == a + b[..n] && (a + b)[|a + b| - 1] == b[n];
      EventsConcat(rec, a, b[..n], kind, t);
    }
  }

  predicate TimeOf(k: Key, r: Record, t: int) {
    t == QueueTime(k, r) || t == r.sd || t == r.ed
  }

  ghost predicate EventTime(rec: map<Key, Record>, ks: seq<Key>, t: int)
    requires Known(rec, ks)
  {
    exists k :: k in ks && TimeOf(k, rec[k], t)
  }

  predicate Increasing(s: seq<int>) {
    forall i, j :: 0 <= i < j < |s| ==> s[i] < s[j]
  }

  lemma EndsBound(s: seq<int>)
    requires Increasing(s)
    ensures forall x :: x in s ==> s[0] <= x <= s[|s| - 1]
  {
    forall x | x in s
      ensures s[0] <= x <= s[|s| - 1]
    {
      var i :| 0 <= i < |s| && s[i] == x;
    }
  }

  function Insert(t: int, s: seq<int>): (r: seq<int>)
    requires Increasing(s)
    ensures Increasing(r)
    ensures forall x :: x in r <==> x == t || x in s
  {
    if s == [] || t < s[0] then [t] + s
    else if t == s[0] then s
    else
      var rest := Insert(t, s[1..]);
      assert forall x :: x in s[1..] ==> s[0] < x by { EndsBound(s); EndsBound(s[1..]); }
      assert forall i :: 0 <= i < |rest| ==> rest[i] in rest;
      [s[0]] + rest
  }

  /** Sorting and dropping duplicates. */
  function SortUniq(s: seq<int>): (r: seq<int>)
    ensures Increasing(r)
    ensures forall x :: x in r <==> x in s
  {
    if s == [] then [] else Insert(s[0], SortUniq(s[1..]))
  }

  /** The least and the greatest of the times, if there are any. */
  ghost predicate Ends(times: seq<int>, first: Option<int>, last: Option<int>) {
    if times == [] then first == last == None
    else
      && first.Some? && last.Some? && first.value in times && last.value in times
      && forall t :: t in times ==> first.value <= t <= last.value
  }

  method FirstAndLast(times: seq<int>) returns (first: Option<int>, last: Option<int>)
    requires Increasing(times)
    ensures Ends(times, first, last)
  {
    first, last := None, None;
    if times != [] {
      first, last := Some(times[0]), Some(times[|times| - 1]);
      EndsBound(times);
    }
  }

  datatype Event = Event(job: Key, time: int)

  ghost function JobsAt(events: seq<Event>, t: int): seq<Key> {
    if events == [] then []
    else
      var e := events[|events| - 1];
      JobsAt(events[..|events| - 1], t) + if e.time == t then [e.job] else []
  }

  /** events are the events of one kind of the runs in ks, in the order of ks. */
  ghost predicate Records(events: seq<Event>, rec: map<Key, Record>, ks: seq<Key>, kind: Kind)
    requires Known(rec, ks)
  {
    && (forall t :: JobsAt(events, t) == EventsAt(rec, ks, kind, t))
    && (forall e :: e in events ==> EventTime(rec, ks, e.time))
  }

  lemma OneMoreTimeAt(rec: map<Key, Record>, ks: seq<Key>, n: nat, t: int)
    requires n < |ks|
    requires Known(rec, ks)
    ensures EventTime(rec, ks[..n + 1], t) <==> EventTime(rec, ks[..n], t) || TimeOf(ks[n], rec[ks[n]], t)
  {
    hide TimeOf;
    var before, after := ks[..n], ks[..n + 1];
    assert after == before + [ks[n]];
    if k :| k in after && TimeOf(k, rec[k], t) {
      if k != ks[n] {
        assert k in before;
      }
    }
    if k :| k in before && TimeOf(k, rec[k], t) {
      assert k in after;
    }
    assert ks[n] in after;
  }

  lemma OneMoreTime(rec: map<Key, Record>, ks: seq<Key>, n: nat)
    requires n < |ks|
    requires Known(rec, ks)
    ensures forall t :: EventTime(rec, ks[..n + 1], t)
                        <==> EventTime(rec, ks[..n], t) || TimeOf(ks[n], rec[ks[n]], t)
  {
    hide EventTime, TimeOf;
    forall t {
      OneMoreTimeAt(rec, ks, n, t);
    }
  }

  lemma ThreeMoreTimes(times: seq<int>, rec: map<Key, Record>, ks: seq<Key>, n: nat)
    requires n < |ks|
    requires Known(rec, ks)
    requires forall t :: t in times <==> EventTime(rec, ks[..n], t)
    ensures var k, r := ks[n], rec[ks[n]];
            forall t :: t in times + [QueueTime(k, r)] + [r.sd] + [r.ed] <==> EventTime(rec, ks[..n + 1], t)
  {
    OneMoreTime(rec, ks, n);
  }

  lemma OneMoreEvent(events: seq<Event>, rec: map<Key, Record>, ks: seq<Key>, n: nat, kind: Kind, time: int)
    requires n < |ks|
    requires Known(rec, ks)
    requires Records(events, rec, ks[..n], kind)
    requires Happens(ks[n], rec[ks[n]], kind, time)
    ensures Records(events + [Event(ks[n], time)], rec, ks[..n + 1], kind)
  {
    assert ks[..n + 1][..n] == ks[..n];
    OneMoreTime(rec, ks, n);
    forall t {
      OneMoreEventAt(events, rec, ks, n, kind, time, t);
    }
  }

  lemma OneMoreEventAt(events: seq<Event>, rec: map<Key, Record>, ks: seq<Key>, n: nat, kind: Kind, time: int, t: int)
    requires n < |ks|
    requires Known(rec, ks)
    requires JobsAt(events, t) == EventsAt(rec, ks[..n], kind, t)
    requires Happens(ks[n], rec[ks[n]], kind, time)
    ensures JobsAt(events + [Event(ks[n], time)], t) == EventsAt(rec, ks[..n + 1], kind, t)
  {
    assert (events + [Event(ks[n], time)])[..|events|] == events;
    assert ks[..n + 1][..n] == ks[..n];
  }

  lemma NoMoreEvent(events: seq<Event>, rec: map<Key, Record>, ks: seq<Key>, n: nat, kind: Kind)
    requires n < |ks|
    requires Known(rec, ks)
    requires Records(events, rec, ks[..n], kind)
    requires forall t :: !Happens(ks[n], rec[ks[n]], kind, t)
    ensures Records(events, rec, ks[..n + 1], kind)
  {
    assert ks[..n + 1][..n] == ks[..n];
    OneMoreTime(rec, ks, n);
  }

  /** The value of a timestep. */
  datatype Fields = Fields(queued: seq<Key>, requeued: seq<Key>, started: seq<Key>, ended: seq<Key>,
                           pcats: map<string, seq<Key>>, rcats: map<string, seq<Key>>)

  const BLANK := Fields([], [], [], [], map[], map[])

  class Timestep {
    var queued: seq<Key>
    var requeued: seq<Key>
    var started: seq<Key>
    var ended: seq<Key>
    var pcats: map<string, seq<Key>>
    var rcats: map<string, seq<Key>>

    function List(kind: Kind): seq<Key>
      reads this
    {
      match kind
      case Queued => queued
      case Requeued => requeued
      case Started => started
      case Ended => ended
    }

    ghost function Value(): Fields
      reads this
    {
      Fields(queued, requeued, started, ended, pcats, rcats)
    }

    /** Every field but the list of this kind is as in f. */
    ghost predicate SameBut(kind: Kind, f: Fields)
      reads this
    {
      && (kind == Queued || queued == f.queued)
      && (kind == Requeued || requeued == f.requeued)
      && (kind == Started || started == f.started)
      && (kind == Ended || ended == f.ended)
      && pcats == f.pcats && rcats == f.rcats
    }

    /** The four event lists are as in f. */
    ghost predicate SameEvents(f: Fields)
      reads this
    {
      queued == f.queued && requeued == f.requeued && started == f.started && ended == f.ended
    }

    constructor ()
      ensures Value() == BLANK
    {
      queued, requeued, started, ended := [], [], [], [];
      pcats, rcats := map[], map[];
    }

    method Push(kind: Kind, job: Key)
      modifies this
      ensures List(kind) == old(List(kind)) + [job]
      ensures SameBut(kind, old(Value()))
    {
      match kind
      case Queued => queued := queued + [job];
      case Requeued => requeued := requeued + [job];
      case Started => started := started + [job];
      case Ended => ended := ended + [job];
    }
  }

  /** The timestep of time t, before any categories are entered. */
  ghost function Filed(rec: map<Key, Record>, ks: seq<Key>, t: int): Fields
    requires Known(rec, ks)
  {
    Fields(EventsAt(rec, ks, Queued, t), EventsAt(rec, ks, Requeued, t),
           EventsAt(rec, ks, Started, t), EventsAt(rec, ks, Ended, t), map[], map[])
  }

  class TimestepTable {
    var steps: map<int, Timestep>
    var order: seq<int>   // the keys of steps, in insertion order
    var first: Option<int>
    var last: Option<int>

    ghost predicate Separate()
      reads this
    {
      forall a, b :: a in steps && b in steps && a != b ==> steps[a] != steps[b]
    }

    function Objects(): set<Timestep>
      reads this
    {
      set t | t in steps :: steps[t]
    }

    /** Every event is filed under its time, and every time has an event. */
    ghost predicate Files(rec: map<Key, Record>, ks: seq<Key>)
      requires Known(rec, ks)
      reads this, Objects()
    {
      && (forall t :: t in steps <==> EventTime(rec, ks, t))
      && (forall t :: t in steps <==> t in order)
      && (forall t :: t in steps ==> steps[t].Value() == Filed(rec, ks, t))
    }

    /** first and last are the ends of the timesteps, if there are any. */
    ghost predicate Spanned()
      reads this
    {
      && (first.Some? ==> first.value in steps)
      && (last.Some? ==> last.value in steps)
      && (forall t :: t in steps ==> first.Some? && last.Some? && first.value <= t <= last.value)
    }

    constructor (rec: map<Key, Record>, ks: seq<Key>)
      requires Known(rec, ks)
      ensures Separate() && Files(rec, ks)
      ensures forall t :: t in steps ==> fresh(steps[t])
      ensures Spanned()
    {
      steps, order := map[], [];
      new;
      var times, queued, requeued, started, ended := CollectEvents(rec, ks);
      times := SortUniq(times);
      first, last := FirstAndLast(times);
      Fill(rec, ks, times, queued, requeued, started, ended);
    }

    method Fill(ghost rec: map<Key, Record>, ghost ks: seq<Key>, times: seq<int>,
                queued: seq<Event>, requeued: seq<Event>, started: seq<Event>, ended: seq<Event>)
      requires Known(rec, ks)
      requires forall t :: t in times <==> EventTime(rec, ks, t)
      requires Records(queued, rec, ks, Queued) && Records(requeued, rec, ks, Requeued)
      requires Records(started, rec, ks, Started) && Records(ended, rec, ks, Ended)
      requires steps == map[] && order == []
      modifies this`steps, this`order
      ensures Separate() && Files(rec, ks)
      ensures forall t :: t in steps ==> fresh(steps[t])
      ensures forall t :: t in steps <==> t in times
    {
      OpenSteps(times);
      FileAll(queued, requeued, started, ended);
    }

    method FileAll(queued: seq<Event>, requeued: seq<Event>, started: seq<Event>, ended: seq<Event>)
      requires Separate()
      requires forall e :: e in queued || e in requeued || e in started || e in ended ==> e.time in steps
      requires forall t :: t in steps ==> steps[t].Value() == BLANK
      modifies Objects()
      ensures forall t :: t in steps ==>
                steps[t].Value() == Fields(JobsAt(queued, t), JobsAt(requeued, t),
                                            JobsAt(started, t), JobsAt(ended, t), map[], map[])
    {
      hide JobsAt;
      File(Queued, queued);
      File(Requeued, requeued);
      File(Started, started);
      File(Ended, ended);
    }

    method OpenSteps(times: seq<int>)
      requires steps == map[] && order == []
      modifies this`steps, this`order
      ensures Separate() && forall t :: t in steps ==> fresh(steps[t])
      ensures forall t :: t in steps <==> t in times
      ensures order == times
      ensures forall t :: t in steps ==> steps[t].Value() == BLANK
    {
      for i := 0 to |times|
        invariant Separate() && forall t :: t in steps ==> fresh(steps[t])
        invariant forall t :: t in steps <==> t in times[..i]
        invariant order == times[..i]
        invariant forall t :: t in steps ==> steps[t].Value() == BLANK
      {
        var step := new Timestep();
        steps, order := steps[times[i] := step], order + [times[i]];
        assert times[..i + 1] == times[..i] + [times[i]];
      }
      assert times[..|times|] == times;
    }

    /** Files the events of one kind, leaving everything else as it is. */
    method File(kind: Kind, events: seq<Event>)
      requires Separate()
      requires forall e :: e in events ==> e.time in steps
      requires forall t :: t in steps ==> steps[t].List(kind) == []
      modifies Objects()
      ensures forall t :: t in steps ==> steps[t].List(kind) == JobsAt(events, t)
      ensures forall t :: t in steps ==> steps[t].SameBut(kind, old(steps[t].Value()))
    {
      NothingFiled();
      hide JobsAt;
      for i := 0 to |events|
        invariant forall t :: t in steps ==> steps[t].List(kind) == JobsAt(events[..i], t)
        invariant forall t :: t in steps ==> steps[t].SameBut(kind, old(steps[t].Value()))
      {
        forall t {
          OneMoreFiled(events, i, t);
        }
        steps[events[i].time].Push(kind, events[i].job);
      }
      assert events[..|events|] == events;
    }
  }

  lemma NothingFiled()
    ensures forall t :: JobsAt([], t) == []
  {
  }

  lemma OneMoreFiled(events: seq<Event>, i: nat, t: int)
    requires i < |events|
    ensures JobsAt(events[..i + 1], t) == JobsAt(events[..i], t) + if events[i].time == t then [events[i].job] else []
  {
    assert events[..i + 1][..i] == events[..i];
  }

  method CollectEvents(rec: map<Key, Record>, ks: seq<Key>)
    returns (times: seq<int>, queued: seq<Event>, requeued: seq<Event>, started: seq<Event>, ended: seq<Event>)
    requires Known(rec, ks)
    ensures forall t :: t in times <==> EventTime(rec, ks, t)
    ensures Records(queued, rec, ks, Queued) && Records(requeued, rec, ks, Requeued)
    ensures Records(started, rec, ks, Started) && Records(ended, rec, ks, Ended)
  {
    times, queued, requeued, started, ended := [], [], [], [], [];
    NoEventsYet(rec);
    hide EventsAt, JobsAt;
    for n := 0 to |ks|
      invariant forall t :: t in times <==> EventTime(rec, ks[..n], t)
      invariant Records(queued, rec, ks[..n], Queued) && Records(requeued, rec, ks[..n], Requeued)
      invariant Records(started, rec, ks[..n], Started) && Records(ended, rec, ks[..n], Ended)
    {
      var key, r := ks[n], rec[ks[n]];
      ThreeMoreTimes(times, rec, ks, n);
      if key.run == 1 {
        OneMoreEvent(queued, rec, ks, n, Queued, r.qd);
        NoMoreEvent(requeued, rec, ks, n, Requeued);
        times, queued := times + [r.qd], queued + [Event(key, r.qd)];
      } else {
        NoMoreEvent(queued, rec, ks, n, Queued);
        OneMoreEvent(requeued, rec, ks, n, Requeued, r.rd);
        times, requeued := times + [r.rd], requeued + [Event(key, r.rd)];
      }
      OneMoreEvent(started, rec, ks, n, Started, r.sd);
      times, started := times + [r.sd], started + [Event(key, r.sd)];
      OneMoreEvent(ended, rec, ks, n, Ended, r.ed);
      times, ended := times + [r.ed], ended + [Event(key, r.ed)];
    }
    assert ks[..|ks|] == ks;
  }

  lemma NoEventsYet(rec: map<Key, Record>)
    ensures forall kind :: Records([], rec, [], kind)
  {
  }
}
