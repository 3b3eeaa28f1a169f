/** Counting the jobs of a sequence of lists: list by list, or job by job. */
module Counting {
  import opened Accounting

  ghost predicate Once(s: seq<Key>) {
    forall i, j :: 0 <= i < j < |s| ==> s[i] != s[j]
  }

  lemma JoinOnce(a: seq<Key>, b: seq<Key>)
    requires Once(a) && Once(b)
    requires forall k :: k in a ==> k !in b
    ensures Once(a + b)
  {
    forall i, j | 0 <= i < j < |a + b|
      ensures (a + b)[i] != (a + b)[j]
    {
      if i < |a| <= j {
        assert a[i] in a && b[j - |a|] in b;
      }
    }
  }

  lemma HeadIsMember(s: seq<Key>)
    requires s != []
    ensures exists k :: k in s
  {
    assert s[0] in s;
  }

  /** The number of elements of ks that are on the list. */
  ghost function Tally(ks: seq<Key>, list: seq<Key>): nat {
    if ks == [] then 0
    else Tally(ks[..|ks| - 1], list) + if ks[|ks| - 1] in list then 1 else 0
  }

  lemma {:induction false} TallyIsSize(ks: seq<Key>, list: seq<Key>)
    requires Once(ks) && Once(list)
    requires forall k :: k in list ==> k in ks
    ensures Tally(ks, list) == |list|
  {
    if ks == [] {
      if list != [] {
        HeadIsMember(list);
        assert false;
      }
    } else {
      var last := |ks| - 1;
      assert ks == ks[..last] + [ks[last]];
      if ks[last] in list {
        var i :| 0 <= i < |list| && list[i] == ks[last];
        var others := list[..i] + list[i + 1..];
        DropOne(list, i);
        assert forall k :: k in others ==> k in list && k != ks[last];
        TallyIsSize(ks[..last], others);
        TallyOfSame(ks[..last], list, others);
      } else {
        TallyIsSize(ks[..last], list);
      }
    }
  }

  lemma DropOne(list: seq<Key>, i: nat)
    requires Once(list)
    requires i < |list|
    ensures Once(list[..i] + list[i + 1..])
    ensures forall k :: k in list[..i] + list[i + 1..] <==> k in list && k != list[i]
  {
    assert list == list[..i] + [list[i]] + list[i + 1..];
  }

  lemma {:induction false} TallyOfSame(ks: seq<Key>, a: seq<Key>, b: seq<Key>)
    requires forall k :: k in ks ==> (k in a <==> k in b)
    ensures Tally(ks, a) == Tally(ks, b)
  {
    if ks != [] {
      assert ks == ks[..|ks| - 1] + [ks[|ks| - 1]];
      TallyOfSame(ks[..|ks| - 1], a, b);
    }
  }

  /** List sizes times the gap to the next time, summed over the first n times. */
  ghost function Area(lists: seq<seq<Key>>, ts: seq<int>, n: nat): int
    requires n <= |ts| == |lists|
  {
    if n <= 1 then 0 else Area(lists, ts, n - 1) + |lists[n - 2]| * (ts[n - 1] - ts[n - 2])
  }

  /** How long one job is listed, up to the n-th time. */
  ghost function Presence(lists: seq<seq<Key>>, ts: seq<int>, n: nat, k: Key): int
    requires n <= |ts| == |lists|
  {
    if n <= 1 then 0
    else Presence(lists, ts, n - 1, k) + if k in lists[n - 2] then ts[n - 1] - ts[n - 2] else 0
  }

  ghost function SumOfPresence(lists: seq<seq<Key>>, ts: seq<int>, n: nat, ks: seq<Key>): int
    requires n <= |ts| == |lists|
  {
    if ks == [] then 0
    else SumOfPresence(lists, ts, n, ks[..|ks| - 1]) + Presence(lists, ts, n, ks[|ks| - 1])
  }

  /** Counting time by time adds up to the same as counting job by job. */
  lemma {:induction false} AreaByJobs(lists: seq<seq<Key>>, ts: seq<int>, n: nat, ks: seq<Key>)
    requires n <= |ts| == |lists|
    requires Once(ks)
    requires forall list :: list in lists ==> Once(list)
    requires forall list, k :: list in lists && k in list ==> k in ks
    ensures Area(lists, ts, n) == SumOfPresence(lists, ts, n, ks)
  {
    if n <= 1 {
      NoPresence(lists, ts, n, ks);
    } else {
      AreaByJobs(lists, ts, n - 1, ks);
      OneMoreGap(lists, ts, n, ks);
      assert lists[n - 2] in lists;
      TallyIsSize(ks, lists[n - 2]);
    }
  }

  lemma {:induction false} NoPresence(lists: seq<seq<Key>>, ts: seq<int>, n: nat, ks: seq<Key>)
    requires n <= |ts| == |lists| && n <= 1
    ensures SumOfPresence(lists, ts, n, ks) == 0
  {
    if ks != [] {
      NoPresence(lists, ts, n, ks[..|ks| - 1]);
    }
  }

  lemma {:induction false} OneMoreGap(lists: seq<seq<Key>>, ts: seq<int>, n: nat, ks: seq<Key>)
    requires 2 <= n <= |ts| == |lists|
    ensures SumOfPresence(lists, ts, n, ks)
            == SumOfPresence(lists, ts, n - 1, ks) + Tally(ks, lists[n - 2]) * (ts[n - 1] - ts[n - 2])
  {
    if ks != [] {
      var rest, gap := Tally(ks[..|ks| - 1], lists[n - 2]), ts[n - 1] - ts[n - 2];
      OneMoreGap(lists, ts, n, ks[..|ks| - 1]);
      assert (rest + 1) * gap == rest * gap + gap;
    }
  }
}
