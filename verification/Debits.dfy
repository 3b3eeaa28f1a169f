/** The per-queue, user, project, host, parallel environment and category tables. */
module Debits {
  import opened Accounting

  datatype Grouping = ByQueue | ByUser | ByProject | ByHost | ByParallel | ByCategory

  function GroupOf(g: Grouping, r: Record): string {
    match g
    case ByQueue => r.queue
    case ByUser => r.user
    case ByProject => r.project
    case ByHost => r.host
    case ByParallel => r.parallel
    case ByCategory => r.cat
  }

  /** The columns a table row accumulates. */
  datatype Measure = Jobs | Wallclock | Cpu | MaxVmem | MaxRss | Pending

  /** What one run contributes to a column. */
  function Charge(m: Measure, r: Record): int {
    match m
    case Jobs => 1
    case Wallclock => r.wallclock
    case Cpu => r.cpu
    case MaxVmem => r.maxvmem
    case MaxRss => r.maxrss
    case Pending => if r.rd == 0 then r.sd - r.qd else r.sd - r.rd
  }

  class Debitable {
    var jobs: int
    var wallclock: int
    var cpu: int
    var maxvmem: int
    var maxrss: int
    var pending: int

    ghost function Value(m: Measure): int
      reads this
    {
      match m
      case Jobs => jobs
      case Wallclock => wallclock
      case Cpu => cpu
      case MaxVmem => maxvmem
      case MaxRss => maxrss
      case Pending => pending
    }

    constructor ()
      ensures forall m :: Value(m) == 0
    {
      jobs, wallclock, cpu, pending, maxvmem, maxrss := 0, 0, 0, 0, 0, 0;
    }

    method DebitRecord(r: Record)
      modifies this
      ensures forall m :: Value(m) == old(Value(m)) + Charge(m, r)
    {
      jobs := jobs + 1;
      wallclock := wallclock + r.wallclock;
      cpu := cpu + r.cpu;
      maxvmem := maxvmem + r.maxvmem;
      maxrss := maxrss + r.maxrss;
      if r.rd == 0 {
        pending := pending + r.sd - r.qd;
      } else {
        pending := pending + r.sd - r.rd;
      }
    }
  }

  /** The column total over the runs in ks. */
  ghost function Debited(rec: map<Key, Record>, ks: seq<Key>, m: Measure): int
    requires Known(rec, ks)
  {
    if ks == [] then 0
    else Debited(rec, ks[..|ks| - 1], m) + Charge(m, rec[ks[|ks| - 1]])
  }

  /** The column total over the runs in ks whose group is name. */
  ghost function DebitedTo(rec: map<Key, Record>, ks: seq<Key>, g: Grouping, name: string, m: Measure): int
    requires Known(rec, ks)
  {
    if ks == [] then 0
    else
      var r := rec[ks[|ks| - 1]];
      DebitedTo(rec, ks[..|ks| - 1], g, name, m) + if GroupOf(g, r) == name then Charge(m, r) else 0
  }

  ghost predicate HasGroup(rec: map<Key, Record>, ks: seq<Key>, g: Grouping, name: string)
    requires Known(rec, ks)
  {
    exists i :: 0 <= i < |ks| && GroupOf(g, rec[ks[i]]) == name
  }

  class GroupTable {
    var groups: map<string, Debitable>

    ghost predicate Separate()
      reads this
    {
      forall a, b :: a in groups && b in groups && a != b ==> groups[a] != groups[b]
    }

    /** Every group of the runs in ks has a row, and each row holds the totals of its runs. */
    ghost predicate Holds(rec: map<Key, Record>, ks: seq<Key>, g: Grouping)
      requires Known(rec, ks)
      reads this, groups.Values
    {
      && (forall name :: name in groups <==> HasGroup(rec, ks, g, name))
      && (forall name, m :: name in groups ==> groups[name].Value(m) == DebitedTo(rec, ks, g, name, m))
    }

    /** The value of a cell; a row that does not exist yet counts as 0. */
    ghost function Cell(name: string, m: Measure): int
      reads this, groups.Values
    {
      if name in groups then groups[name].Value(m) else 0
    }

    constructor (rec: map<Key, Record>, ks: seq<Key>, g: Grouping)
      requires Known(rec, ks)
      ensures Separate() && Holds(rec, ks, g)
    {
      groups := map[];
      new;
      for n := 0 to |ks|
        invariant Separate()
        invariant forall name :: name in groups ==> fresh(groups[name])
        invariant forall name :: name in groups <==> HasGroup(rec, ks[..n], g, name)
        invariant forall name, m :: Cell(name, m) == DebitedTo(rec, ks[..n], g, name, m)
      {
        OneMoreRun(rec, ks, g, n);
        Enter(GroupOf(g, rec[ks[n]]), rec[ks[n]]);
      }
      assert ks[..|ks|] == ks;
    }

    method Enter(group: string, r: Record)
      requires Separate()
      modifies this, groups.Values
      ensures Separate()
      ensures groups.Keys == old(groups.Keys) + {group}
      ensures forall name :: name in groups ==>
                (name in old(groups) && groups[name] == old(groups[name])) || fresh(groups[name])
      ensures forall name, m :: Cell(name, m) == old(Cell(name, m)) + if name == group then Charge(m, r) else 0
    {
      if group !in groups {
        var d := new Debitable();
        groups := groups[group := d];
      }
      groups[group].DebitRecord(r);
    }
  }

  lemma OneMoreRun(rec: map<Key, Record>, ks: seq<Key>, g: Grouping, n: nat)
    requires n < |ks|
    requires Known(rec, ks)
    ensures forall name :: HasGroup(rec, ks[..n + 1], g, name)
                      <==> HasGroup(rec, ks[..n], g, name) || name == GroupOf(g, rec[ks[n]])
    ensures var r := rec[ks[n]];
            forall name, m :: DebitedTo(rec, ks[..n + 1], g, name, m)
              == DebitedTo(rec, ks[..n], g, name, m) + if GroupOf(g, r) == name then Charge(m, r) else 0
  {
    var before, after := ks[..n], ks[..n + 1];
    assert after[..n] == before;
    forall name
      ensures HasGroup(rec, after, g, name) <==> HasGroup(rec, before, g, name) || name == GroupOf(g, rec[ks[n]])
    {
      assert after[n] == ks[n];
      if HasGroup(rec, before, g, name) {
        var i :| 0 <= i < n && GroupOf(g, rec[before[i]]) == name;
        assert after[i] == before[i];
      }
      if HasGroup(rec, after, g, name) {
        var i :| 0 <= i <= n && GroupOf(g, rec[after[i]]) == name;
        assert i < n ==> before[i] == after[i];
      }
    }
  }

  /** The column total over the rows of a printed table, the rows being named by names. */
  ghost function SumOfRows(rec: map<Key, Record>, ks: seq<Key>, g: Grouping, names: seq<string>, m: Measure): int
    requires Known(rec, ks)
  {
    if names == [] then 0
    else SumOfRows(rec, ks, g, names[..|names| - 1], m) + DebitedTo(rec, ks, g, names[|names| - 1], m)
  }

  ghost predicate OncePerName(names: seq<string>) {
    forall i, j :: 0 <= i < j < |names| ==> names[i] != names[j]
  }

  /** One more run changes the sum of rows by its charge once, if its group is among the rows. */
  lemma {:induction false} OneRunOneRow(rec: map<Key, Record>, ks: seq<Key>, g: Grouping, names: seq<string>,
                                              m: Measure)
    requires Known(rec, ks)
    requires ks != []
    requires OncePerName(names)
    ensures var r := rec[ks[|ks| - 1]];
            SumOfRows(rec, ks, g, names, m)
            == SumOfRows(rec, ks[..|ks| - 1], g, names, m) + if GroupOf(g, r) in names then Charge(m, r) else 0
  {
    if names != [] {
      OneRunOneRow(rec, ks, g, names[..|names| - 1], m);
      assert names == names[..|names| - 1] + [names[|names| - 1]];
    }
  }

  lemma {:induction false} NoRunsNoRows(rec: map<Key, Record>, g: Grouping, names: seq<string>, m: Measure)
    ensures SumOfRows(rec, [], g, names, m) == 0
  {
    if names != [] {
      NoRunsNoRows(rec, g, names[..|names| - 1], m);
    }
  }

  /** Every table distributes the same grand total over its rows, whatever it groups by. */
  lemma {:induction false} RowsAddUp(rec: map<Key, Record>, ks: seq<Key>, g: Grouping, names: seq<string>, m: Measure)
    requires Known(rec, ks)
    requires forall name :: HasGroup(rec, ks, g, name) ==> name in names
    requires OncePerName(names)
    ensures SumOfRows(rec, ks, g, names, m) == Debited(rec, ks, m)
  {
    if ks == [] {
      NoRunsNoRows(rec, g, names, m);
    } else {
      var last := |ks| - 1;
      OneMoreRun(rec, ks, g, last);
      assert ks[..last + 1] == ks;
      RowsAddUp(rec, ks[..last], g, names, m);
      OneRunOneRow(rec, ks, g, names, m);
    }
  }
}
