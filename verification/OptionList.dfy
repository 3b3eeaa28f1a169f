/** The list of parsed options, and the ways in which it is consumed in place. */
module OptionList {
  import opened Machine
  import opened Optional
  import opened Seqs

  /** An element of a value list: a variable, path or mail recipient with its key, or a task range. */
  datatype Item =
    | Pair(key: Option<string>, val: Option<string>)
    | Range(min: u32, max: u32, step: u32)

  /** A list reference, None being NULL. */
  type ItemList = Option<seq<Item>>

  /** The switches the job parser knows, and the pseudo-arguments; any other switch string is an Other. */
  datatype Switch =
    | a_OPT | A_OPT | ac_OPT | ar_OPT | b_OPT | binding_OPT | c_OPT | C_OPT | ckpt_OPT | clear_OPT
    | dc_OPT | dl_OPT | e_OPT | h_OPT | hard_OPT | help_OPT | hold_jid_OPT | hold_jid_ad_OPT | i_OPT
    | j_OPT | jid_OPT | js_OPT | jsv_OPT | l_OPT | m_OPT | M_OPT | masterq_OPT | N_OPT | notify_OPT
    | now_OPT | o_OPT | p_OPT | P_OPT | pe_OPT | pty_OPT | q_OPT | r_OPT | R_OPT | S_OPT | sc_OPT
    | shell_OPT | soft_OPT | t_OPT | tc_OPT | terse_OPT | u_OPT | v_OPT | V_OPT | verify_OPT | w_OPT | wd_OPT
    | Script | ScriptLen | ScriptPtr | JobArg
    | Other(name: string)

  /** The switch string. */
  function NameOf(sw: Switch): string {
    match sw
    case a_OPT => "-a" case A_OPT => "-A" case ac_OPT => "-ac" case ar_OPT => "-ar" case b_OPT => "-b"
    case binding_OPT => "-binding" case c_OPT => "-c" case C_OPT => "-C" case ckpt_OPT => "-ckpt"
    case clear_OPT => "-clear" case dc_OPT => "-dc" case dl_OPT => "-dl" case e_OPT => "-e" case h_OPT => "-h"
    case hard_OPT => "-hard" case help_OPT => "-help" case hold_jid_OPT => "-hold_jid"
    case hold_jid_ad_OPT => "-hold_jid_ad" case i_OPT => "-i" case j_OPT => "-j" case jid_OPT => "-jid"
    case js_OPT => "-js" case jsv_OPT => "-jsv" case l_OPT => "-l" case m_OPT => "-m" case M_OPT => "-M"
    case masterq_OPT => "-masterq" case N_OPT => "-N" case notify_OPT => "-notify" case now_OPT => "-now"
    case o_OPT => "-o" case p_OPT => "-p" case P_OPT => "-P" case pe_OPT => "-pe" case pty_OPT => "-pty"
    case q_OPT => "-q" case r_OPT => "-r" case R_OPT => "-R" case S_OPT => "-S" case sc_OPT => "-sc"
    case shell_OPT => "-shell" case soft_OPT => "-soft" case t_OPT => "-t" case tc_OPT => "-tc"
    case terse_OPT => "-terse" case u_OPT => "-u" case v_OPT => "-v" case V_OPT => "-V" case verify_OPT => "-verify"
    case w_OPT => "-w" case wd_OPT => "-wd"
    case Script => "script" case ScriptLen => "scriptlen" case ScriptPtr => "scriptptr" case JobArg => "jobarg"
    case Other(name) => name
  }

  /** Only switch strings that the job parser does not know are Others. */
  ghost predicate Genuine(sw: Switch) {
    sw.Other? ==> forall known: Switch :: !known.Other? ==> NameOf(known) != sw.name
  }

  /** Does the switch string start with '-'? */
  predicate Dashed(sw: Switch) {
    match sw
    case Script | ScriptLen | ScriptPtr | JobArg => false
    case Other(name) => name != "" && name[0] == '-'
    case _ => true
  }

  datatype ArgType = IntArg | LongArg | OtherArg

  /** One parsed option: its switch and the value fields of the element. The int argument of -m and -h is a word
      of flags; flags is the set of them. */
  datatype Opt = Opt(sw: Switch, argtype: ArgType, i: int, flags: set<int>, l: int, u: u32,
                     s: Option<string>, list: ItemList, text: Option<string>)

  // ----- selecting by switch -----

  /** The options whose switch is in sws, in order. */
  function Pick(c: seq<Opt>, sws: set<Switch>): (r: seq<Opt>)
    ensures forall e :: e in r ==> e.sw in sws
  {
    if c == [] then []
    else if c[0].sw in sws then [c[0]] + Pick(c[1..], sws)
    else Pick(c[1..], sws)
  }

  /** The options whose switch is not in sws, in order. */
  function Drop(c: seq<Opt>, sws: set<Switch>): (r: seq<Opt>)
    ensures forall e :: e in r ==> e.sw !in sws
  {
    if c == [] then []
    else if c[0].sw in sws then Drop(c[1..], sws)
    else [c[0]] + Drop(c[1..], sws)
  }

  /** The options of one switch, in order. */
  function Of(c: seq<Opt>, sw: Switch): seq<Opt> {
    Pick(c, {sw})
  }

  lemma {:induction false} PickConcat(a: seq<Opt>, b: seq<Opt>, sws: set<Switch>)
    ensures Pick(a + b, sws) == Pick(a, sws) + Pick(b, sws)
  {
    if a == [] {
      assert a + b == b;
    } else {
      assert (a + b)[1..] == a[1..] + b;
      PickConcat(a[1..], b, sws);
    }
  }

  lemma {:induction false} DropConcat(a: seq<Opt>, b: seq<Opt>, sws: set<Switch>)
    ensures Drop(a + b, sws) == Drop(a, sws) + Drop(b, sws)
  {
    if a == [] {
      assert a + b == b;
    } else {
      assert (a + b)[1..] == a[1..] + b;
      DropConcat(a[1..], b, sws);
    }
  }

  lemma {:induction false} PickOfDrop(c: seq<Opt>, gone: set<Switch>, sws: set<Switch>)
    requires gone !! sws
    ensures Pick(Drop(c, gone), sws) == Pick(c, sws)
  {
    if c != [] {
      PickOfDrop(c[1..], gone, sws);
      if c[0].sw !in gone {
        assert ([c[0]] + Drop(c[1..], gone))[1..] == Drop(c[1..], gone);
      }
    }
  }

  lemma {:induction false} DropOfDrop(c: seq<Opt>, gone: set<Switch>, sws: set<Switch>)
    ensures Drop(Drop(c, gone), sws) == Drop(c, gone + sws)
  {
    if c != [] {
      DropOfDrop(c[1..], gone, sws);
      if c[0].sw !in gone {
        assert ([c[0]] + Drop(c[1..], gone))[1..] == Drop(c[1..], gone);
      }
    }
  }

  /** Nothing of the kind: nothing to pick, nothing to drop. */
  lemma {:induction false} NothingToPick(c: seq<Opt>, sws: set<Switch>)
    requires forall e :: e in c ==> e.sw !in sws
    ensures Pick(c, sws) == [] && Drop(c, sws) == c
  {
    if c != [] {
      assert c[0] in c;
      NothingToPick(c[1..], sws);
      assert c == [c[0]] + c[1..];
    }
  }

  lemma {:induction false} NothingToDrop(c: seq<Opt>)
    ensures Drop(c, {}) == c
  {
    if c != [] {
      NothingToDrop(c[1..]);
      assert c == [c[0]] + c[1..];
    }
  }

  /** c without its first option of the switch. */
  function WithoutFirst(c: seq<Opt>, sw: Switch): seq<Opt> {
    if c == [] then []
    else if c[0].sw == sw then c[1..]
    else [c[0]] + WithoutFirst(c[1..], sw)
  }

  lemma {:induction false} WithoutFirstPick(c: seq<Opt>, sw: Switch)
    ensures Pick(WithoutFirst(c, sw), {sw}) == var p := Pick(c, {sw}); if p == [] then [] else p[1..]
  {
    if c != [] && c[0].sw != sw {
      WithoutFirstPick(c[1..], sw);
      assert ([c[0]] + WithoutFirst(c[1..], sw))[1..] == WithoutFirst(c[1..], sw);
    }
  }

  lemma {:induction false} WithoutFirstOther(c: seq<Opt>, sw: Switch, sws: set<Switch>)
    requires sw !in sws
    ensures Pick(WithoutFirst(c, sw), sws) == Pick(c, sws)
  {
    if c != [] && c[0].sw != sw {
      WithoutFirstOther(c[1..], sw, sws);
      assert ([c[0]] + WithoutFirst(c[1..], sw))[1..] == WithoutFirst(c[1..], sw);
    }
  }

  lemma {:induction false} WithoutFirstOfDrop(c: seq<Opt>, sw: Switch, gone: set<Switch>)
    requires sw !in gone
    ensures WithoutFirst(Drop(c, gone), sw) == Drop(WithoutFirst(c, sw), gone)
  {
    if c != [] && c[0].sw != sw {
      WithoutFirstOfDrop(c[1..], sw, gone);
      assert ([c[0]] + WithoutFirst(c[1..], sw))[1..] == WithoutFirst(c[1..], sw);
      if c[0].sw !in gone {
        assert ([c[0]] + Drop(c[1..], gone))[1..] == Drop(c[1..], gone);
      }
    } else if c != [] {
      assert ([c[0]] + Drop(c[1..], gone))[1..] == Drop(c[1..], gone);
    }
  }

  lemma {:induction false} WithoutFirstAt(c: seq<Opt>, sw: Switch, i: nat)
    requires i < |c| && c[i].sw == sw
    requires forall j :: 0 <= j < i ==> c[j].sw != sw
    ensures WithoutFirst(c, sw) == c[..i] + c[i + 1..]
  {
    if i > 0 {
      WithoutFirstAt(c[1..], sw, i - 1);
      assert c[..i] == [c[0]] + c[1..][..i - 1];
      assert c[1..][i..] == c[i + 1..];
    }
  }

  function Renamed(c: seq<Opt>, from: Switch, to: Switch): (r: seq<Opt>)
    ensures |r| == |c|
    ensures forall i :: 0 <= i < |c| ==> r[i] == if c[i].sw == from then c[i].(sw := to) else c[i]
  {
    if c == [] then []
    else [if c[0].sw == from then c[0].(sw := to) else c[0]] + Renamed(c[1..], from, to)
  }

  lemma RenamedAt(c: seq<Opt>, from: Switch, to: Switch, i: nat)
    requires from != to
    requires i < |c| && c[i].sw == from
    ensures Renamed(c[i := c[i].(sw := to)], from, to) == Renamed(c, from, to)
  {
  }

  lemma NothingRenamed(c: seq<Opt>, from: Switch, to: Switch)
    requires forall j :: 0 <= j < |c| ==> c[j].sw != from
    ensures Renamed(c, from, to) == c
  {
  }

  lemma {:induction false} RenamedPick(c: seq<Opt>, from: Switch, to: Switch, sws: set<Switch>)
    requires from !in sws && to !in sws
    ensures Pick(Renamed(c, from, to), sws) == Pick(c, sws)
  {
    if c != [] {
      RenamedPick(c[1..], from, to, sws);
      assert Renamed(c, from, to)[1..] == Renamed(c[1..], from, to);
    }
  }

  lemma {:induction false} RenamedDrop(c: seq<Opt>, from: Switch, to: Switch, gone: set<Switch>)
    requires to in gone
    ensures Drop(Renamed(c, from, to), gone) == Drop(c, gone + {from})
  {
    if c != [] {
      RenamedDrop(c[1..], from, to, gone);
      assert Renamed(c, from, to)[1..] == Renamed(c[1..], from, to);
    }
  }

  /** A step that does not look at the switch folds over renamed options as over the originals. */
  lemma {:induction false} RenamedFold<T(!new)>(step: (T, Opt) -> T, v: T, c: seq<Opt>, from: Switch, to: Switch)
    requires forall w, e: Opt, sw :: step(w, e.(sw := sw)) == step(w, e)
    ensures Fold(step, v, Pick(Renamed(c, from, to), {to})) == Fold(step, v, Pick(c, {from, to}))
  {
    if c != [] {
      var e, rest := c[0], c[1..];
      var e' := if e.sw == from then e.(sw := to) else e;
      RenamedStep(e, rest, from, to);
      PickStep(e, rest, {from, to});
      PickStep(e', Renamed(rest, from, to), {to});
      assert c == [e] + rest;
      hide Renamed, Pick, Fold;
      if e.sw in {from, to} {
        FoldStep(step, v, e, Pick(rest, {from, to}));
        FoldStep(step, v, e', Pick(Renamed(rest, from, to), {to}));
        assert step(v, e.(sw := to)) == step(v, e);
        RenamedFold(step, step(v, e), rest, from, to);
      } else {
        NothingAdded(Pick(rest, {from, to}));
        NothingAdded(Pick(Renamed(rest, from, to), {to}));
        RenamedFold(step, v, rest, from, to);
      }
    }
  }

  lemma RenamedStep(e: Opt, rest: seq<Opt>, from: Switch, to: Switch)
    ensures Renamed([e] + rest, from, to) == [if e.sw == from then e.(sw := to) else e] + Renamed(rest, from, to)
  {
    Rejoined([e], rest);
  }

  lemma PickStep(e: Opt, rest: seq<Opt>, sws: set<Switch>)
    ensures Pick([e] + rest, sws) == (if e.sw in sws then [e] else []) + Pick(rest, sws)
  {
    Rejoined([e], rest);
    NothingAdded(Pick(rest, sws));
  }

  lemma FoldStep<T>(step: (T, Opt) -> T, v: T, e: Opt, rest: seq<Opt>)
    ensures Fold(step, v, [e] + rest) == Fold(step, step(v, e), rest)
  {
    Rejoined([e], rest);
  }

  // ----- folding a step over options -----

  function Fold<T>(step: (T, Opt) -> T, v: T, es: seq<Opt>): T {
    if es == [] then v else Fold(step, step(v, es[0]), es[1..])
  }

  lemma {:induction false} FoldConcat<T>(step: (T, Opt) -> T, v: T, a: seq<Opt>, b: seq<Opt>)
    ensures Fold(step, v, a + b) == Fold(step, Fold(step, v, a), b)
  {
    if a == [] {
      assert a + b == b;
    } else {
      assert (a + b)[1..] == a[1..] + b;
      FoldConcat(step, step(v, a[0]), a[1..], b);
    }
  }

  /** The last value a sequence of options assigns, or the one before. */
  function LastOr<T>(read: Opt -> T, v: T, es: seq<Opt>): T {
    if es == [] then v else read(es[|es| - 1])
  }

  /** The value of a step that overwrites is that of the last option. */
  lemma {:induction false} LastWins<T(!new)>(step: (T, Opt) -> T, read: Opt -> T, v: T, es: seq<Opt>)
    requires forall w, e :: step(w, e) == read(e)
    ensures Fold(step, v, es) == LastOr(read, v, es)
  {
    if es != [] {
      LastWins(step, read, step(v, es[0]), es[1..]);
    }
  }

  // ----- -clear -----

  /** The pseudo-arguments and other elements whose switch does not start with '-'. */
  function Undashed(c: seq<Opt>): (r: seq<Opt>)
    ensures |r| <= |c|
    ensures forall e :: e in r ==> !Dashed(e.sw)
  {
    if c == [] then []
    else if Dashed(c[0].sw) then Undashed(c[1..])
    else [c[0]] + Undashed(c[1..])
  }

  /** The position of the last -clear, or -1. */
  function LastClear(c: seq<Opt>): (q: int)
    ensures -1 <= q < |c|
    ensures 0 <= q ==> c[q].sw == clear_OPT
    ensures forall j :: q < j < |c| ==> c[j].sw != clear_OPT
  {
    if c == [] then -1
    else if c[|c| - 1].sw == clear_OPT then |c| - 1
    else LastClear(c[..|c| - 1])
  }

  /** What -clear is to leave: all that follows the last one, and what of the rest is no dash switch. */
  function AfterClear(c: seq<Opt>): seq<Opt> {
    var q := LastClear(c);
    if q < 0 then c else Undashed(c[..q]) + c[q + 1..]
  }

  lemma {:induction false} UndashedConcat(a: seq<Opt>, b: seq<Opt>)
    ensures Undashed(a + b) == Undashed(a) + Undashed(b)
  {
    if a == [] {
      assert a + b == b;
    } else {
      assert (a + b)[1..] == a[1..] + b;
      UndashedConcat(a[1..], b);
    }
  }

  lemma {:induction false} UndashedTwice(c: seq<Opt>)
    ensures Undashed(Undashed(c)) == Undashed(c)
  {
    if c != [] {
      UndashedTwice(c[1..]);
      if !Dashed(c[0].sw) {
        assert ([c[0]] + Undashed(c[1..]))[1..] == Undashed(c[1..]);
      }
    }
  }

  lemma LastClearIs(c: seq<Opt>, q: int)
    requires -1 <= q < |c|
    requires 0 <= q ==> c[q].sw == clear_OPT
    requires forall j :: q < j < |c| ==> c[j].sw != clear_OPT
    ensures LastClear(c) == q
  {
  }

  /** If there is a -clear in the tail, only the dashless part of the head matters. */
  lemma ClearInTail(head: seq<Opt>, tail: seq<Opt>)
    requires LastClear(tail) >= 0
    ensures var q := LastClear(tail);
            AfterClear(head + tail) == Undashed(head) + (Undashed(tail[..q]) + tail[q + 1..])
  {
    hide Undashed, LastClear;
    var q := LastClear(tail);
    LastClearIs(head + tail, |head| + q);
    TakePast(head, tail, q);
    DropPast(head, tail, q + 1);
    UndashedConcat(head, tail[..q]);
    Reassociate(Undashed(head), Undashed(tail[..q]), tail[q + 1..]);
  }

  /** With no -clear in the tail, a -clear before it leaves the dashless part of the head and the tail. */
  lemma ClearBeforeTail(head: seq<Opt>, clear: Opt, tail: seq<Opt>)
    requires clear.sw == clear_OPT
    requires LastClear(tail) < 0
    ensures AfterClear(head + [clear] + tail) == Undashed(head) + tail
  {
    hide LastClear, Undashed;
    LastClearBetween(head, clear, tail);
    Around(head, clear, tail);
  }

  lemma LastClearBetween(head: seq<Opt>, clear: Opt, tail: seq<Opt>)
    requires clear.sw == clear_OPT
    requires LastClear(tail) < 0
    ensures LastClear(head + [clear] + tail) == |head|
  {
    hide LastClear;
    var c := head + [clear] + tail;
    forall j | |head| < j < |c|
      ensures c[j].sw != clear_OPT
    {
      assert c[j] == tail[j - |head| - 1];
    }
    LastClearIs(c, |head|);
  }

  lemma Around(head: seq<Opt>, clear: Opt, tail: seq<Opt>)
    ensures var c := head + [clear] + tail; c[..|head|] == head && c[|head| + 1..] == tail
  {
    Rejoined(head + [clear], tail);
    Rejoined(head, [clear]);
  }

  lemma NoClear(head: seq<Opt>, tail: seq<Opt>)
    requires LastClear(tail) < 0
    ensures AfterClear(Undashed(head) + tail) == Undashed(head) + tail
  {
    var c := Undashed(head) + tail;
    forall j | 0 <= j < |c|
      ensures c[j].sw != clear_OPT
    {
      if j < |Undashed(head)| {
        assert Undashed(head)[j] in Undashed(head);
      }
    }
    LastClearIs(c, -1);
  }

  /** Handling one -clear does not change what the last one leaves. */
  lemma ClearOnce(head: seq<Opt>, clear: Opt, tail: seq<Opt>)
    requires clear.sw == clear_OPT
    ensures AfterClear(Undashed(head) + tail) == AfterClear(head + [clear] + tail)
  {
    if LastClear(tail) >= 0 {
      ClearInTail(Undashed(head), tail);
      UndashedTwice(head);
      ClearInTail(head + [clear], tail);
      UndashedConcat(head, [clear]);
    } else {
      ClearBeforeTail(head, clear, tail);
      NoClear(head, tail);
    }
  }

  // ----- the list as it is consumed -----

  class Options {
    var opts: seq<Opt>
    ghost var origin: seq<Opt>      // the list handling started from
    ghost var gone: set<Switch>     // the switches handled since

    ghost predicate Valid()
      reads this
    {
      opts == Drop(origin, gone)
    }

    constructor (c: seq<Opt>)
      ensures Valid() && opts == origin == c && gone == {}
    {
      opts, origin, gone := c, c, {};
      new;
      NothingToDrop(c);
    }

    /** Starts counting handled switches afresh. */
    ghost method Restart()
      modifies this`origin, this`gone
      ensures Valid() && origin == opts && gone == {}
    {
      origin, gone := opts, {};
      NothingToDrop(opts);
    }

    /** The position of the first option with one of the switches, or the length of the list. */
    method First(sws: set<Switch>) returns (i: nat)
      ensures i <= |opts|
      ensures i < |opts| ==> opts[i].sw in sws
      ensures forall j :: 0 <= j < i ==> opts[j].sw !in sws
    {
      i := 0;
      while i < |opts| && opts[i].sw !in sws
        invariant i <= |opts|
        invariant forall j :: 0 <= j < i ==> opts[j].sw !in sws
      {
        i := i + 1;
      }
    }

    method Remove(i: nat)
      requires i < |opts|
      modifies this`opts
      ensures opts == old(opts[..i] + opts[i + 1..])
    {
      opts := opts[..i] + opts[i + 1..];
    }

    /** Handles and removes the first option of the switches, until there is none left. */
    method Drain<T>(sws: set<Switch>, v0: T, step: (T, Opt) -> T) returns (v: T)
      requires Valid() && gone !! sws
      modifies this`opts, this`gone
      ensures Valid() && gone == old(gone) + sws
      ensures v == Fold(step, v0, Pick(origin, sws))
    {
      PickOfDrop(origin, gone, sws);
      DropOfDrop(origin, gone, sws);
      v := v0;
      var i: nat := First(sws);
      while i < |opts|
        invariant i <= |opts|
        invariant i < |opts| ==> opts[i].sw in sws
        invariant forall j :: 0 <= j < i ==> opts[j].sw !in sws
        invariant Fold(step, v, Pick(opts, sws)) == Fold(step, v0, Pick(old(opts), sws))
        invariant Drop(opts, sws) == Drop(old(opts), sws)
        invariant gone == old(gone)
        decreases |opts|
      {
        FirstRemoved(opts, sws, i);
        v := step(v, opts[i]);
        Remove(i);
        i := First(sws);
      }
      NothingToPick(opts, sws);
      gone := gone + sws;
    }

    method DrainOne<T>(sw: Switch, v0: T, step: (T, Opt) -> T) returns (v: T)
      requires Valid() && sw !in gone
      modifies this`opts, this`gone
      ensures Valid() && gone == old(gone) + {sw}
      ensures v == Fold(step, v0, Of(origin, sw))
    {
      v := Drain({sw}, v0, step);
    }

    /** Gives every option of one switch another switch, first to last. */
    method Rename(from: Switch, to: Switch)
      requires from != to
      modifies this`opts
      ensures opts == Renamed(old(opts), from, to)
    {
      hide Renamed;
      var i: nat := First({from});
      while i < |opts|
        invariant i <= |opts|
        invariant i < |opts| ==> opts[i].sw == from
        invariant forall j :: 0 <= j < i ==> opts[j].sw != from
        invariant Renamed(opts, from, to) == Renamed(old(opts), from, to)
        decreases |opts| - i
      {
        RenamedAt(opts, from, to, i);
        opts := opts[i := opts[i].(sw := to)];
        var next := First({from});
        i := next;
      }
      NothingRenamed(opts, from, to);
    }

    /** Is there an option of the switch? */
    method Has(sw: Switch) returns (b: bool)
      requires Valid() && sw !in gone
      ensures b <==> Of(origin, sw) != []
    {
      var i := First({sw});
      b := i < |opts|;
      PickOfDrop(origin, gone, {sw});
      if b {
        FirstRemoved(opts, {sw}, i);
      } else {
        NothingToPick(opts, {sw});
      }
    }

    /** Handles every -clear, first to last, each time walking the list from its head. */
    method Clear()
      modifies this`opts
      ensures opts == AfterClear(old(opts))
    {
      hide AfterClear, Undashed, LastClear;
      var ep: nat := First({clear_OPT});
      while ep < |opts|
        invariant ep <= |opts|
        invariant ep < |opts| ==> opts[ep].sw == clear_OPT
        invariant forall j :: 0 <= j < ep ==> opts[j].sw != clear_OPT
        invariant AfterClear(opts) == AfterClear(old(opts))
        decreases |opts|
      {
        ClearOnce(opts[..ep], opts[ep], opts[ep + 1..]);
        assert opts == opts[..ep] + [opts[ep]] + opts[ep + 1..];
        ClearUpTo(ep);
        ep := First({clear_OPT});
      }
      AllCleared(opts);
    }

    /** The inner walk: removes the dash switches before the -clear at ep, and then the -clear. */
    method ClearUpTo(at: nat)
      requires at < |opts|
      modifies this`opts
      ensures opts == old(Undashed(opts[..at]) + opts[at + 1..])
    {
      hide Undashed, Dashed;
      NothingWalked(opts);
      var ep, run := at, 0;
      ghost var start, k := opts, 0;
      while run != ep
        invariant 0 <= k <= at
        invariant run == |Undashed(start[..k])| && ep == run + (at - k)
        invariant opts == Undashed(start[..k]) + start[k..]
        decreases at - k
      {
        OneWalked(start, k);
        RemovedWithin(Undashed(start[..k]), start[k], start[k + 1..]);
        Reassociate(Undashed(start[..k]), [start[k]], start[k + 1..]);
        run := run + 1;
        if Dashed(opts[run - 1].sw) {
          Remove(run - 1);
          run, ep := run - 1, ep - 1;
        }
        k := k + 1;
      }
      assert k == at;
      SplitAt(start, at);
      RemovedWithin(Undashed(start[..at]), start[at], start[at + 1..]);
      Remove(run);
    }

    /** Removes the first option of the switch only, if there is one. */
    method TakeFirst(sw: Switch) returns (e: Option<Opt>)
      modifies this`opts
      ensures opts == WithoutFirst(old(opts), sw)
      ensures e == var p := Of(old(opts), sw); if p == [] then None else Some(p[0])
    {
      var i := First({sw});
      e := None;
      if i < |opts| {
        FirstRemoved(opts, {sw}, i);
        WithoutFirstAt(opts, sw, i);
        e := Some(opts[i]);
        Remove(i);
      } else {
        NothingToPick(opts, {sw});
        NothingWithoutFirst(opts, sw);
      }
    }
  }

  lemma {:induction false} FirstRemoved(c: seq<Opt>, sws: set<Switch>, i: nat)
    requires i < |c| && c[i].sw in sws
    requires forall j :: 0 <= j < i ==> c[j].sw !in sws
    ensures Pick(c, sws) == [c[i]] + Pick(c[..i] + c[i + 1..], sws)
    ensures Drop(c, sws) == Drop(c[..i] + c[i + 1..], sws)
  {
    var rest := c[..i] + c[i + 1..];
    if i == 0 {
      assert rest == c[1..];
    } else {
      FirstRemoved(c[1..], sws, i - 1);
      assert rest[1..] == c[1..][..i - 1] + c[1..][i..];
    }
  }

  lemma AllCleared(c: seq<Opt>)
    requires forall e :: e in c ==> e.sw != clear_OPT
    ensures AfterClear(c) == c
  {
    LastClearIs(c, -1);
  }

  lemma NothingWalked(c: seq<Opt>)
    ensures Undashed(c[..0]) == [] && c[0..] == c
  {
  }

  lemma OneWalked(c: seq<Opt>, k: nat)
    requires k < |c|
    ensures Undashed(c[..k + 1]) == Undashed(c[..k]) + if Dashed(c[k].sw) then [] else [c[k]]
    ensures c[k..] == [c[k]] + c[k + 1..]
  {
    assert c[..k + 1] == c[..k] + [c[k]];
    UndashedConcat(c[..k], [c[k]]);
  }

  lemma {:induction false} NothingWithoutFirst(c: seq<Opt>, sw: Switch)
    requires forall j :: 0 <= j < |c| ==> c[j].sw != sw
    ensures WithoutFirst(c, sw) == c
  {
    if c != [] {
      NothingWithoutFirst(c[1..], sw);
      assert c == [c[0]] + c[1..];
    }
  }
}
