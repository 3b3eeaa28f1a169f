/** Wall times by user and application, and the edits of a project list. */
module GepMatrix {
  import opened Optional
  import opened Seqs

  // ----- the accounting matrix -----

  /** A line of the accounting file: a comment, or its owner, account and wall time. */
  datatype Line = Comment | Job(owner: string, account: string, wall: int)

  function IndexOf(names: seq<string>, name: string): (p: int)
    ensures -1 <= p < |names|
    ensures 0 <= p ==> names[p] == name
    ensures forall j :: 0 <= j < (if p < 0 then |names| else p) ==> names[j] != name
  {
    if names == [] then -1
    else if names[0] == name then 0
    else
      var p := IndexOf(names[1..], name);
      if p < 0 then -1 else p + 1
  }

  /** The column of an account; those not listed share the last one. */
  function Column(accounts: seq<string>, account: string): (a: nat)
    requires accounts != []
    ensures a < |accounts|
  {
    if IndexOf(accounts, account) < 0 then |accounts| - 1 else IndexOf(accounts, account)
  }

  /** An account has its own column exactly if it is listed, the first of its name; the last column takes all others. */
  lemma ColumnExactly(accounts: seq<string>, account: string)
    requires accounts != []
    ensures var a := Column(accounts, account);
            && (account in accounts ==>
                  accounts[a] == account && forall j :: 0 <= j < a ==> accounts[j] != account)
            && (account !in accounts ==> a == |accounts| - 1)
  {
    var p := IndexOf(accounts, account);
    assert p >= 0 ==> accounts[p] in accounts;
  }

  /** The owners in the order in which they come up first. */
  function Owners(lines: seq<Line>): seq<string> {
    if lines == [] then []
    else
      var before, last := Owners(lines[..|lines| - 1]), lines[|lines| - 1];
      if last.Comment? || last.owner in before then before else before + [last.owner]
  }

  /** Later lines only add owners behind those there are. */
  lemma {:induction false} OwnersGrow(a: seq<Line>, b: seq<Line>)
    ensures Owners(a) <= Owners(a + b)
    ensures forall owner :: owner in Owners(a + b) <==>
              owner in Owners(a) || exists i :: 0 <= i < |b| && b[i].Job? && b[i].owner == owner
  {
    if b == [] {
      NothingAdded(a);
    } else {
      var n := |b| - 1;
      assert (a + b)[..|a + b| - 1] == a + b[..n] && (a + b)[|a + b| - 1] == b[n];
      OwnersGrow(a, b[..n]);
    }
  }

  /** The wall time of an owner's jobs in a column. */
  function Cell(lines: seq<Line>, accounts: seq<string>, owner: string, a: nat): int
    requires accounts != []
  {
    if lines == [] then 0
    else
      var last := lines[|lines| - 1];
      Cell(lines[..|lines| - 1], accounts, owner, a)
      + if last.Job? && last.owner == owner && Column(accounts, last.account) == a then last.wall else 0
  }

  class Matrix {
    const account: seq<string>
    var user: seq<string>
    var time: seq<array<int>>
    ghost var lines: seq<Line>

    ghost function Rows(): set<array<int>>
      reads this`time
    {
      set t | t in time
    }

    /** The rows are different arrays, and their cells are those of the lines ls. */
    ghost predicate Holds(ls: seq<Line>)
      reads this`user, this`time, time
    {
      && account != [] && |user| == |time|
      && (forall u :: 0 <= u < |time| ==> time[u].Length == |account|)
      && (forall u, v :: 0 <= u < v < |time| ==> time[u] != time[v])
      && (forall u, a :: 0 <= u < |time| && 0 <= a < |account| ==> time[u][a] == Cell(ls, account, user[u], a))
    }

    ghost predicate Valid()
      reads this, time
    {
      Holds(lines) && user == Owners(lines)
    }

    /** The columns are the applications and one more for others. */
    constructor (applications: seq<string>)
      ensures Valid() && lines == [] && account == applications + ["sge"] && time == []
    {
      account := applications + ["sge"];
      user, time, lines := [], [], [];
    }

    /** Adds the wall time of one line of the file. */
    method Add(line: Line)
      requires Valid()
      modifies this`user, this`time, this`lines, Rows()
      ensures Valid() && lines == old(lines) + [line]
      ensures fresh(Rows() - old(Rows()))
    {
      hide Holds, Owners;
      OwnersOfOneMore(lines, line);
      if line.Comment? {
        CommentAdds(line);
        lines := lines + [line];
        return;
      }
      if line.owner !in user {
        AddRow(line.owner);
      }
      OwnersDistinct(lines + [line]);
      AddWall(line);
      lines := lines + [line];
    }

    lemma CommentAdds(line: Line)
      requires line.Comment? && Holds(lines)
      ensures Holds(lines + [line])
    {
      assert (lines + [line])[..|lines|] == lines;
    }

    method AddRow(owner: string)
      requires Holds(lines) && owner !in Owners(lines)
      modifies this`user, this`time
      ensures Holds(lines) && user == old(user) + [owner]
      ensures fresh(Rows() - old(Rows()))
    {
      var row := new int[|account|](_ => 0);
      NoCellsYet(lines, account, owner);
      user := user + [owner];
      time := time + [row];
    }

    method AddWall(line: Line)
      requires Holds(lines) && line.Job? && line.owner in user
      requires forall u, v :: 0 <= u < v < |user| ==> user[u] != user[v]
      modifies Rows()
      ensures Holds(lines + [line])
    {
      var uid := IndexOf(user, line.owner);
      assert uid >= 0;
      var aid := IndexOf(account, line.account);
      if aid == -1 {
        aid := |account| - 1;
      }
      time[uid][aid] := time[uid][aid] + line.wall;
      forall u, a | 0 <= u < |time| && 0 <= a < |account|
        ensures time[u][a] == Cell(lines + [line], account, user[u], a)
      {
        CellOfOneMore(lines, line, account, user[u], a);
        assert u != uid ==> user[u] != line.owner;
        assert u != uid ==> time[u] != time[uid];
      }
    }
  }

  lemma CellOfOneMore(lines: seq<Line>, line: Line, accounts: seq<string>, owner: string, a: nat)
    requires accounts != []
    ensures Cell(lines + [line], accounts, owner, a) == Cell(lines, accounts, owner, a)
            + if line.Job? && line.owner == owner && Column(accounts, line.account) == a then line.wall else 0
  {
    assert (lines + [line])[..|lines|] == lines;
  }

  lemma OwnersOfOneMore(lines: seq<Line>, line: Line)
    ensures Owners(lines + [line])
            == if line.Comment? || line.owner in Owners(lines) then Owners(lines) else Owners(lines) + [line.owner]
  {
    assert (lines + [line])[..|lines|] == lines;
  }

  /** The matrix of a whole file. */
  method Tabulate(applications: seq<string>, lines: seq<Line>) returns (m: Matrix)
    ensures fresh(m) && m.Valid() && m.lines == lines && m.account == applications + ["sge"]
  {
    m := new Matrix(applications);
    for i := 0 to |lines|
      invariant fresh(m) && m.Valid() && m.lines == lines[..i] && m.account == applications + ["sge"]
      invariant fresh(m.Rows())
    {
      SplitAt(lines, i);
      m.Add(lines[i]);
    }
    assert lines[..|lines|] == lines;
  }

  predicate Owns(line: Line, owner: string) {
    line.Job? && line.owner == owner
  }

  /** No owner has two rows, and whoever owns a job has one. */
  lemma {:induction false} OwnersDistinct(lines: seq<Line>)
    ensures var us := Owners(lines);
            && (forall i, j :: 0 <= i < j < |us| ==> us[i] != us[j])
            && (forall line :: line in lines && line.Job? ==> line.owner in us)
            && (forall o :: o in us ==> exists line :: line in lines && Owns(line, o))
  {
    if lines != [] {
      var n := |lines| - 1;
      var before := Owners(lines[..n]);
      OwnersDistinct(lines[..n]);
      SplitAt(lines, n);
      assert lines == lines[..n] + [lines[n]];
      forall o | o in Owners(lines)
        ensures exists line :: line in lines && Owns(line, o)
      {
        if o in before {
          var line :| line in lines[..n] && Owns(line, o);
          assert line in lines && Owns(line, o);
        } else {
          assert lines[n] in lines && Owns(lines[n], o);
        }
      }
    }
  }

  /** An owner without a row has no wall time in any column. */
  lemma {:induction false} NoCellsYet(lines: seq<Line>, accounts: seq<string>, owner: string)
    requires accounts != [] && owner !in Owners(lines)
    ensures forall a: nat :: Cell(lines, accounts, owner, a) == 0
  {
    if lines != [] {
      NoCellsYet(lines[..|lines| - 1], accounts, owner);
    }
  }

  // ----- totals -----

  function RowTotal(lines: seq<Line>, accounts: seq<string>, owner: string, n: nat): int
    requires accounts != []
  {
    if n == 0 then 0 else RowTotal(lines, accounts, owner, n - 1) + Cell(lines, accounts, owner, n - 1)
  }

  function GrandTotal(lines: seq<Line>, accounts: seq<string>, users: seq<string>): int
    requires accounts != []
  {
    if users == [] then 0
    else GrandTotal(lines, accounts, users[..|users| - 1]) + RowTotal(lines, accounts, users[|users| - 1], |accounts|)
  }

  function Walls(lines: seq<Line>): int {
    if lines == [] then 0
    else Walls(lines[..|lines| - 1]) + if lines[|lines| - 1].Job? then lines[|lines| - 1].wall else 0
  }

  /** A line adds its wall time to one cell of its owner's row. */
  lemma {:induction false} RowOfOneMore(lines: seq<Line>, accounts: seq<string>, owner: string, n: nat)
    requires accounts != [] && lines != []
    ensures var last := lines[|lines| - 1];
            RowTotal(lines, accounts, owner, n) == RowTotal(lines[..|lines| - 1], accounts, owner, n)
            + if last.Job? && last.owner == owner && Column(accounts, last.account) < n then last.wall else 0
  {
    if n > 0 {
      RowOfOneMore(lines, accounts, owner, n - 1);
    }
  }

  lemma {:induction false} TotalOfOneMore(lines: seq<Line>, accounts: seq<string>, users: seq<string>)
    requires accounts != [] && lines != []
    requires forall i, j :: 0 <= i < j < |users| ==> users[i] != users[j]
    ensures var last := lines[|lines| - 1];
            GrandTotal(lines, accounts, users) == GrandTotal(lines[..|lines| - 1], accounts, users)
            + if last.Job? && last.owner in users then last.wall else 0
  {
    if users != [] {
      var n := |users| - 1;
      TotalOfOneMore(lines, accounts, users[..n]);
      RowOfOneMore(lines, accounts, users[n], |accounts|);
      assert users == users[..n] + [users[n]];
    }
  }

  lemma {:induction false} RowOfStranger(lines: seq<Line>, accounts: seq<string>, owner: string, n: nat)
    requires accounts != [] && owner !in Owners(lines)
    ensures RowTotal(lines, accounts, owner, n) == 0
  {
    if n > 0 {
      RowOfStranger(lines, accounts, owner, n - 1);
      NoCellsYet(lines, accounts, owner);
    }
  }

  /** All cells together are the wall time of all lines. */
  lemma {:induction false} NothingIsLost(lines: seq<Line>, accounts: seq<string>)
    requires accounts != []
    ensures GrandTotal(lines, accounts, Owners(lines)) == Walls(lines)
  {
    if lines != [] {
      var n := |lines| - 1;
      var before, last := lines[..n], lines[n];
      NothingIsLost(before, accounts);
      OwnersDistinct(before);
      TotalOfOneMore(lines, accounts, Owners(before));
      if last.Job? && last.owner !in Owners(before) {
        assert Owners(lines)[..|Owners(before)|] == Owners(before);
        RowOfOneMore(lines, accounts, last.owner, |accounts|);
        RowOfStranger(before, accounts, last.owner, |accounts|);
      }
    }
  }

  // ----- the project list -----

  datatype Edit = ADD | DELETE | UPDATE

  /** The text up to the first tab. */
  function UpToTab(line: string): string {
    if line == "" || line[0] == '\t' then "" else [line[0]] + UpToTab(line[1..])
  }

  /** The first token of a line, tabs in front being skipped; a line of nothing but tabs has none. */
  function FirstToken(line: string): Option<string> {
    if line == "" then None
    else if line[0] == '\t' then FirstToken(line[1..])
    else Some(UpToTab(line))
  }

  predicate AllHaveTokens(file: seq<string>) {
    forall i :: 0 <= i < |file| ==> FirstToken(file[i]) != None
  }

  function Without(file: seq<string>, name: string): seq<string> {
    if file == [] then []
    else if FirstToken(file[0]) == Some(name) then Without(file[1..], name)
    else [file[0]] + Without(file[1..], name)
  }

  function ProjectLine(name: string, project: string): string {
    name + "\t" + project
  }

  /** The new list. Only DELETE and UPDATE look at the names, and they throw at a line without one. */
  function Edited(file: seq<string>, name: string, project: string, edit: Edit): Option<seq<string>> {
    if edit == ADD then Some(file + [ProjectLine(name, project)])
    else if !AllHaveTokens(file) then None
    else Some(Without(file, name) + if edit == UPDATE then [ProjectLine(name, project)] else [])
  }

  method UpdateProjectList(file: seq<string>, name: string, project: string, edit: Edit)
    returns (projects: Option<seq<string>>)
    ensures projects == Edited(file, name, project, edit)
  {
    hide FirstToken, ProjectLine;
    var kept: seq<string> := [];
    NothingAdded(file);
    NothingAdded(Without(file, name));
    for i := 0 to |file|
      invariant kept + (if edit == ADD then file[i..] else Without(file[i..], name))
                == if edit == ADD then file else Without(file, name)
      invariant edit != ADD ==> AllHaveTokens(file[..i])
    {
      SplitAt(file, i);
      Rejoined([file[i]], file[i + 1..]);
      Reassociate(kept, [file[i]], if edit == ADD then file[i + 1..] else Without(file[i + 1..], name));
      if edit == DELETE || edit == UPDATE {
        var token := FirstToken(file[i]);
        if token == None {
          return None;
        }
        if token.value != name {
          kept := kept + [file[i]];
        }
      } else {
        kept := kept + [file[i]];
      }
    }
    NothingAdded(kept);
    assert file[..|file|] == file;
    if edit == ADD || edit == UPDATE {
      kept := kept + [ProjectLine(name, project)];
    }
    projects := Some(kept);
  }

  /** The lines of a name. */
  function Named(file: seq<string>, name: string): seq<string> {
    if file == [] then [] else (if FirstToken(file[0]) == Some(name) then [file[0]] else []) + Named(file[1..], name)
  }

  lemma {:induction false} NamedConcat(a: seq<string>, b: seq<string>, name: string)
    ensures Named(a + b, name) == Named(a, name) + Named(b, name)
  {
    hide FirstToken;
    if a == [] {
      assert a + b == b;
    } else {
      assert (a + b)[1..] == a[1..] + b;
      NamedConcat(a[1..], b, name);
      Reassociate(if FirstToken(a[0]) == Some(name) then [a[0]] else [], Named(a[1..], name), Named(b, name));
    }
  }

  lemma {:induction false} NamedWithout(file: seq<string>, name: string, other: string)
    ensures Named(Without(file, name), other) == if other == name then [] else Named(file, other)
  {
    hide FirstToken;
    if file != [] {
      NamedWithout(file[1..], name, other);
      Rejoined([file[0]], Without(file[1..], name));
      NothingAdded(Named(file[1..], other));
    }
  }

  lemma {:induction false} UpToFirstTab(name: string, rest: string)
    ensures UpToTab(name + "\t" + rest) == name <==> '\t' !in name
  {
    var line := name + "\t" + rest;
    if name == "" {
      assert line[0] == '\t';
    } else {
      assert line[1..] == name[1..] + "\t" + rest;
      UpToFirstTab(name[1..], rest);
      assert name == [name[0]] + name[1..];
      assert '\t' in name <==> name[0] == '\t' || '\t' in name[1..];
    }
  }

  lemma {:induction false} NoTabInFront(line: string)
    ensures FirstToken(line) != None ==> FirstToken(line).value != "" && FirstToken(line).value[0] != '\t'
  {
    if line != "" && line[0] == '\t' {
      NoTabInFront(line[1..]);
    }
  }

  /** The line added for a name is found under it exactly if the name is not empty and has no tab. */
  lemma LineOfName(name: string, project: string)
    ensures FirstToken(ProjectLine(name, project)) == Some(name) <==> name != "" && '\t' !in name
  {
    var line := ProjectLine(name, project);
    UpToFirstTab(name, project);
    NoTabInFront(line);
    assert name != "" ==> line[0] == name[0];
    assert name != "" && name[0] == '\t' ==> '\t' in name;
  }

  /** What an edit leaves of each name: DELETE and UPDATE remove the lines of the edited one and no other, ADD and
      UPDATE put a line behind the rest, and it belongs to the name that is read off it. */
  lemma EditOfName(file: seq<string>, name: string, project: string, edit: Edit, other: string)
    ensures edit != ADD ==> (Edited(file, name, project, edit) == None <==> !AllHaveTokens(file))
    ensures var r := Edited(file, name, project, edit);
            var line := ProjectLine(name, project);
            r != None ==>
              Named(r.value, other) == (if edit != ADD && other == name then [] else Named(file, other))
                                       + if edit != DELETE && FirstToken(line) == Some(other) then [line] else []
  {
    hide FirstToken, AllHaveTokens;
    var line := ProjectLine(name, project);
    var kept := if edit == ADD then file else Without(file, name);
    NamedConcat(kept, [line], other);
    NamedConcat(kept, [], other);
    NamedWithout(file, name, other);
    assert Named([line], other) == if FirstToken(line) == Some(other) then [line] else [];
  }

  /** Updating is deleting and adding again. */
  lemma UpdateIsDeleteAndAdd(file: seq<string>, name: string, project: string)
    ensures var deleted := Edited(file, name, project, DELETE);
            Edited(file, name, project, UPDATE)
            == if deleted == None then None else Edited(deleted.value, name, project, ADD)
  {
    NothingAdded(Without(file, name));
  }

  /** Behind an empty line of the list, a project can be added but neither changed nor deleted. */
  lemma EmptyLineThrows(name: string, project: string)
    ensures Edited([""], name, project, ADD) != None
    ensures Edited([""], name, project, DELETE) == Edited([""], name, project, UPDATE) == None
  {
    assert FirstToken([""][0]) == None;
  }
}
