/** The enumerator of strings over a range of characters: recursion over one shared buffer and index. */
module Permutations {
  import opened Seqs

  /** A character as the machine's signed char. */
  type char8 = x: int | -128 <= x < 128

  const CHAR_MAX: char8 := 127

  type text = seq<char8>

  /** Counting up a character wraps. */
  function NextChar(c: char8): char8 {
    if c == CHAR_MAX then -128 else c + 1
  }

  function CountedUp(c: char8, k: nat): char8 {
    if k == 0 then c else NextChar(CountedUp(c, k - 1))
  }

  lemma {:induction false} CountedUpIs(c: char8, k: nat)
    ensures CountedUp(c, k) == (c + 128 + k) % 256 - 128
  {
    if k > 0 {
      CountedUpIs(c, k - 1);
    }
  }

  function Pow(b: nat, n: nat): nat {
    if n == 0 then 1 else b * Pow(b, n - 1)
  }

  /** Each text behind a prefix. */
  function Prefixed(p: text, ts: seq<text>): (r: seq<text>)
    ensures |r| == |ts| && forall k :: 0 <= k < |ts| ==> r[k] == p + ts[k]
  {
    if ts == [] then [] else [p + ts[0]] + Prefixed(p, ts[1..])
  }

  // ----- what is printed of a text -----

  /** A text as a terminated string: the characters before the first zero. */
  function CText(t: text): (r: text)
    ensures |r| <= |t|
  {
    if t == [] || t[0] == 0 then [] else [t[0]] + CText(t[1..])
  }

  lemma {:induction false} NoZeroInside(t: text)
    ensures CText(t) == t <==> 0 !in t
    ensures 0 !in CText(t)
    ensures forall c :: c in CText(t) ==> c in t
    ensures |CText(t)| < |t| ==> 0 in t
  {
    if t != [] {
      NoZeroInside(t[1..]);
      assert t == [t[0]] + t[1..];
    }
  }

  lemma {:induction false} TextBeforeZero(t: text, rest: text)
    requires 0 !in t && (rest == [] || rest[0] == 0)
    ensures CText(t + rest) == t
  {
    if t == [] {
      NothingAdded(rest);
    } else {
      DropWithin(t, rest, 1);
      assert t == [t[0]] + t[1..];
      TextBeforeZero(t[1..], rest);
    }
  }

  /** The lines printed for texts. */
  function Printed(ts: seq<text>): (r: seq<text>)
    ensures |r| == |ts| && forall k :: 0 <= k < |ts| ==> r[k] == CText(ts[k])
  {
    if ts == [] then [] else [CText(ts[0])] + Printed(ts[1..])
  }

  lemma {:induction false} PrintedConcat(a: seq<text>, b: seq<text>)
    ensures Printed(a + b) == Printed(a) + Printed(b)
  {
    hide CText;
    if a == [] {
      NothingAdded(b);
    } else {
      DropWithin(a, b, 1);
      PrintedConcat(a[1..], b);
      Reassociate([CText(a[0])], Printed(a[1..]), Printed(b));
    }
  }

  /** A range of characters; its end is below the largest one, at which a counting loop would not stop. */
  datatype Range = Range(cmin: char8, cmax: char8) {
    predicate Valid() {
      cmin <= cmax < CHAR_MAX
    }

    /** The texts of length n that begin below c, in order. */
    function Below(c: char8, n: nat): seq<text>
      requires Valid() && cmin <= c <= cmax + 1 && n > 0
      decreases n, c - cmin
    {
      if c == cmin then [] else Below(c - 1, n) + Prefixed([c - 1], All(n - 1))
    }

    function All(n: nat): seq<text>
      requires Valid()
      decreases n, 0x1000
    {
      if n == 0 then [[]] else Below(cmax + 1, n)
    }

    predicate Over(t: text) {
      forall k :: 0 <= k < |t| ==> cmin <= t[k] <= cmax
    }

    /** The counting loop gets past the end of the range exactly if that is not the largest character. */
    lemma CountingEndsExactly()
      requires cmin <= cmax
      ensures (exists k: nat :: CountedUp(cmin, k) > cmax) <==> cmax < CHAR_MAX
    {
      CountedUpIs(cmin, cmax + 1 - cmin);
      assert cmax < CHAR_MAX ==> CountedUp(cmin, cmax + 1 - cmin) > cmax;
    }

    // ----- every text once, in order -----

    lemma {:induction false} CountBelow(c: char8, n: nat)
      requires Valid() && cmin <= c <= cmax + 1 && n > 0
      ensures |Below(c, n)| == (c - cmin) * Pow(cmax - cmin + 1, n - 1)
      decreases n, c - cmin
    {
      if c > cmin {
        CountBelow(c - 1, n);
        CountAll(n - 1);
        OneMoreTimes(c - 1 - cmin, Pow(cmax - cmin + 1, n - 1));
      }
    }

    lemma {:induction false} CountAll(n: nat)
      requires Valid()
      ensures |All(n)| == Pow(cmax - cmin + 1, n)
      decreases n, 0x1000
    {
      if n > 0 {
        CountBelow(cmax + 1, n);
      }
    }

    lemma {:induction false} BelowIsComplete(c: char8, n: nat, t: text)
      requires Valid() && cmin <= c <= cmax + 1 && n > 0
      ensures t in Below(c, n) <==> |t| == n && Over(t) && t[0] < c
      decreases n, c - cmin
    {
      if c > cmin {
        hide All, Prefixed, Over;
        BelowIsComplete(c - 1, n, t);
        InPrefixed(c - 1, All(n - 1), t);
        if t != [] {
          AllIsComplete(n - 1, t[1..]);
          OverTail(t);
        }
      }
    }

    lemma OverTail(t: text)
      requires t != []
      ensures Over(t) <==> cmin <= t[0] <= cmax && Over(t[1..])
    {
      assert forall k :: 1 <= k < |t| ==> t[k] == t[1..][k - 1];
    }

    /** The texts of length n over the range are all there, and nothing else is. */
    lemma {:induction false} AllIsComplete(n: nat, t: text)
      requires Valid()
      ensures t in All(n) <==> |t| == n && Over(t)
      decreases n, 0x1000
    {
      if n > 0 {
        BelowIsComplete(cmax + 1, n, t);
      }
    }

    lemma {:induction false} BelowIsOrdered(c: char8, n: nat, a: nat, b: nat)
      requires Valid() && cmin <= c <= cmax + 1 && n > 0
      requires a < b < |Below(c, n)|
      ensures Less(Below(c, n)[a], Below(c, n)[b])
      decreases n, c - cmin
    {
      hide All, Over;
      var before, block := Below(c - 1, n), Prefixed([c - 1], All(n - 1));
      var x, y := Below(c, n)[a], Below(c, n)[b];
      if b < |before| {
        BelowIsOrdered(c - 1, n, a, b);
      } else if a < |before| {
        assert x in before;
        BelowIsComplete(c - 1, n, x);
      } else {
        AllIsOrdered(n - 1, a - |before|, b - |before|);
        assert x[1..] == All(n - 1)[a - |before|] && y[1..] == All(n - 1)[b - |before|];
      }
    }

    /** Of two texts the earlier is lexicographically smaller. */
    lemma {:induction false} AllIsOrdered(n: nat, a: nat, b: nat)
      requires Valid() && a < b < |All(n)|
      ensures Less(All(n)[a], All(n)[b])
      decreases n, 0x1000
    {
      if n > 0 {
        BelowIsOrdered(cmax + 1, n, a, b);
      }
    }

    /** The texts are each printed whole exactly if the range does not contain the zero character. */
    lemma PrintedWhole(n: nat)
      requires Valid() && n > 0
      ensures Printed(All(n)) == All(n) <==> !HasZero()
    {
      hide All, Below, CText;
      if HasZero() {
        var t := Repeated(0, n);
        AllIsComplete(n, t);
        var k :| 0 <= k < |All(n)| && All(n)[k] == t;
        NoZeroInside(t);
        assert t[0] == 0;
        assert Printed(All(n))[k] != All(n)[k];
      } else {
        forall k | 0 <= k < |All(n)|
          ensures Printed(All(n))[k] == All(n)[k]
        {
          var t := All(n)[k];
          assert t in All(n);
          AllIsComplete(n, t);
          NoZeroInside(t);
        }
      }
    }

    predicate HasZero() {
      cmin <= 0 <= cmax
    }

    /** The lines printed are the texts over the range without a zero that have length n, and if the range contains
        the zero character, the shorter ones, too. */
    lemma PrintedLines(n: nat, line: text)
      requires Valid()
      ensures line in Printed(All(n))
              <==> Over(line) && 0 !in line && (|line| == n || (|line| < n && HasZero()))
    {
      hide All, Below, CText;
      if line in Printed(All(n)) {
        var k :| 0 <= k < |All(n)| && line == CText(All(n)[k]);
        var t := All(n)[k];
        assert t in All(n);
        AllIsComplete(n, t);
        LineIsOver(t);
      }
      if Over(line) && 0 !in line && (|line| == n || (|line| < n && HasZero())) {
        var rest := Repeated(0, n - |line|);
        TextBeforeZero(line, rest);
        AllIsComplete(n, line + rest);
        var k :| 0 <= k < |All(n)| && All(n)[k] == line + rest;
        assert Printed(All(n))[k] == line;
      }
    }

    lemma LineIsOver(t: text)
      requires Over(t)
      ensures Over(CText(t)) && 0 !in CText(t) && (|CText(t)| < |t| ==> HasZero())
    {
      hide CText;
      NoZeroInside(t);
      forall k | 0 <= k < |CText(t)|
        ensures cmin <= CText(t)[k] <= cmax
      {
        assert CText(t)[k] in t;
      }
    }

    /** No line is printed twice exactly if the range does not contain the zero character, or the texts have one
        character, or the range has. */
    lemma NoLineTwice(n: nat)
      requires Valid() && n > 0
      ensures (forall a, b :: 0 <= a < b < |All(n)| ==> Printed(All(n))[a] != Printed(All(n))[b])
              <==> !HasZero() || n == 1 || cmin == cmax
    {
      hide All, Below, CText, Less;
      if HasZero() && n > 1 && cmin < cmax {
        LinesTwice(n);
      } else {
        forall a, b | 0 <= a < b < |All(n)|
          ensures Printed(All(n))[a] != Printed(All(n))[b]
        {
          LinesApart(n, a, b);
        }
      }
    }

    lemma LinesTwice(n: nat)
      requires Valid() && HasZero() && n > 1 && cmin < cmax
      ensures exists a, b :: 0 <= a < b < |All(n)| && Printed(All(n))[a] == Printed(All(n))[b]
    {
      hide All, Below, Less;
      var t, u := [0] + Repeated(cmin, n - 1), [0] + Repeated(cmax, n - 1);
      AllIsComplete(n, t);
      AllIsComplete(n, u);
      var i :| 0 <= i < |All(n)| && All(n)[i] == t;
      var j :| 0 <= j < |All(n)| && All(n)[j] == u;
      assert t[1] == cmin && u[1] == cmax;
      assert CText(t) == CText(u) == [];
      var a, b := if i < j then i else j, if i < j then j else i;
      assert a < b && Printed(All(n))[a] == Printed(All(n))[b];
    }

    lemma LinesApart(n: nat, a: nat, b: nat)
      requires Valid() && n > 0 && a < b < |All(n)|
      requires !HasZero() || n == 1 || cmin == cmax
      ensures CText(All(n)[a]) != CText(All(n)[b])
    {
      hide All, Below, Less;
      var t, u := All(n)[a], All(n)[b];
      assert t in All(n) && u in All(n);
      AllIsComplete(n, t);
      AllIsComplete(n, u);
      NoneTwice(n, a, b);
      NoZeroInside(t);
      NoZeroInside(u);
      if HasZero() && n == 1 {
        assert t == [t[0]] && u == [u[0]];
      } else if HasZero() {
        assert forall k :: 0 <= k < n ==> t[k] == u[k];
      }
    }

    /** No text is there twice. */
    lemma NoneTwice(n: nat, a: nat, b: nat)
      requires Valid() && a < |All(n)| && b < |All(n)|
      ensures All(n)[a] == All(n)[b] <==> a == b
    {
      LessIsStrict(All(n)[a]);
      if a < b {
        AllIsOrdered(n, a, b);
      } else if b < a {
        AllIsOrdered(n, b, a);
      }
    }
  }

  function Repeated(c: char8, n: nat): (r: text)
    ensures |r| == n && forall k :: 0 <= k < n ==> r[k] == c
  {
    if n == 0 then [] else [c] + Repeated(c, n - 1)
  }

  /** From -1 to 1 with two characters, the empty line is printed for three texts. */
  lemma EmptyLines()
    ensures var r := Range(-1, 1);
            [0, -1] in r.All(2) && [0, 0] in r.All(2) && CText([0, -1]) == CText([0, 0]) == []
    ensures [-1, 0] in Range(-1, 1).All(2) && CText([-1, 0]) == [-1]
  {
    var r := Range(-1, 1);
    r.AllIsComplete(2, [0, -1]);
    r.AllIsComplete(2, [0, 0]);
    r.AllIsComplete(2, [-1, 0]);
    TextBeforeZero([-1], [0]);
    assert [-1] + [0] == [-1, 0];
  }

  /** In a range up to the largest character, that one is followed by the smallest, and counting starts over. */
  lemma CountingStartsOver()
    ensures CountedUp(97, 30) == CHAR_MAX && CountedUp(97, 31) == -128
    ensures !exists k: nat :: CountedUp(97, k) > CHAR_MAX
  {
    CountedUpIs(97, 30);
    CountedUpIs(97, 31);
    Range(97, CHAR_MAX).CountingEndsExactly();
  }

  lemma OneMoreTimes(k: nat, p: nat)
    ensures k * p + p == (k + 1) * p
  {
  }

  lemma {:induction false} InPrefixed(c: char8, ts: seq<text>, t: text)
    ensures t in Prefixed([c], ts) <==> t != [] && t[0] == c && t[1..] in ts
  {
    if ts != [] {
      InPrefixed(c, ts[1..], t);
      assert t != [] ==> t == [t[0]] + t[1..];
      assert ([c] + ts[0])[1..] == ts[0];
    }
  }

  predicate Less(a: text, b: text) {
    a != [] && b != [] && (a[0] < b[0] || (a[0] == b[0] && Less(a[1..], b[1..])))
  }

  lemma {:induction false} LessIsStrict(a: text)
    ensures !Less(a, a)
  {
    if a != [] {
      LessIsStrict(a[1..]);
    }
  }

  /** The static buffer and index, and what was printed. */
  class Enumerator {
    const range: Range
    var s: array?<char8>
    var i: nat
    var printed: seq<text>

    constructor (range: Range)
      ensures this.range == range && s == null && i == 0 && printed == []
    {
      this.range := range;
      s, i, printed := null, 0, [];
    }

    /** Prints the buffer, as a terminated string, with every text of length n behind the index; the index is as
        before. */
    method Permutation(n: nat)
      requires range.Valid() && n > 0
      requires if s == null then i == 0 else s.Length == i + n + 1 && s[i + n] == 0
      modifies this, s
      ensures s != null && s.Length == i + n + 1 && s[i + n] == 0
      ensures (old(s) == null ==> fresh(s)) && (old(s) != null ==> s == old(s))
      ensures i == old(i) && (old(s) != null ==> s[..i] == old(if s == null then [] else s[..i]))
      ensures printed == old(printed) + Printed(Prefixed(old(if s == null then [] else s[..i]), range.All(n)))
      decreases n, 1
    {
      hide Range.Below, Range.All, Range.Over, Prefixed, Printed, CText;
      NothingBelow(range, if s == null then [] else s[..i], n, printed);
      if s == null {
        s := new char8[n + 1];
        s[n] := 0;
      }
      ghost var head := s[..i];
      ghost var start := printed;
      label Loop:
      var c := range.cmin;
      while c <= range.cmax
        invariant range.cmin <= c <= range.cmax + 1
        invariant s != null && s == old@Loop(s) && s.Length == i + n + 1 && s[i + n] == 0
        invariant i == old(i) && s[..i] == head
        invariant printed == start + Printed(Prefixed(head, range.Below(c, n)))
        decreases range.cmax - c
      {
        Fill(c, n);
        OneMoreCharacter(range, head, c, n, start);
        c := NextChar(c);
      }
    }

    /** Puts the character at the index, and prints the buffer with every text behind it. */
    method Fill(c: char8, n: nat)
      requires range.Valid() && n > 0
      requires s != null && s.Length == i + n + 1 && s[i + n] == 0
      modifies this, s
      ensures s == old(s) && i == old(i) && s.Length == i + n + 1 && s[i + n] == 0
      ensures s[..i] == old(s[..i])
      ensures printed == old(printed) + Printed(Prefixed(old(s[..i]) + [c], range.All(n - 1)))
      decreases n, 0
    {
      hide Range.Below, Range.All, Range.Over, Prefixed, Printed, CText;
      ghost var head := s[..i];
      s[i] := c;
      assert s[..i + 1] == head + [c];
      if n != 1 {
        i := i + 1;
        Permutation(n - 1);
        i := i - 1;
        assert s[..i] == s[..i + 1][..i];
      } else {
        NothingBehind(range, head + [c]);
        printed := printed + [CText(s[..i + 1])];
      }
    }
  }

  lemma NothingBehind(range: Range, head: text)
    requires range.Valid()
    ensures Printed(Prefixed(head, range.All(0))) == [CText(head)]
  {
    NothingAdded(head);
    assert Prefixed(head, [[]]) == [head + []];
  }

  lemma {:induction false} PrefixedConcat(p: text, a: seq<text>, b: seq<text>)
    ensures Prefixed(p, a + b) == Prefixed(p, a) + Prefixed(p, b)
  {
    if a == [] {
      assert a + b == b;
    } else {
      assert (a + b)[1..] == a[1..] + b;
      PrefixedConcat(p, a[1..], b);
    }
  }

  lemma {:induction false} PrefixedTwice(p: text, q: text, ts: seq<text>)
    ensures Prefixed(p, Prefixed(q, ts)) == Prefixed(p + q, ts)
  {
    if ts != [] {
      Rejoined([q + ts[0]], Prefixed(q, ts[1..]));
      PrefixedTwice(p, q, ts[1..]);
      Reassociate(p, q, ts[0]);
    }
  }

  lemma NothingBelow(range: Range, head: text, n: nat, start: seq<text>)
    requires range.Valid() && n > 0
    ensures start + Printed(Prefixed(head, range.Below(range.cmin, n))) == start
    ensures range.Below(range.cmax + 1, n) == range.All(n)
  {
  }

  lemma OneMoreCharacter(range: Range, head: text, c: char8, n: nat, start: seq<text>)
    requires range.Valid() && range.cmin <= c <= range.cmax && n > 0
    ensures start + Printed(Prefixed(head, range.Below(c + 1, n)))
            == start + Printed(Prefixed(head, range.Below(c, n))) + Printed(Prefixed(head + [c], range.All(n - 1)))
  {
    PrefixedConcat(head, range.Below(c, n), Prefixed([c], range.All(n - 1)));
    PrefixedTwice(head, [c], range.All(n - 1));
    PrintedConcat(Prefixed(head, range.Below(c, n)), Prefixed(head + [c], range.All(n - 1)));
    Reassociate(start, Printed(Prefixed(head, range.Below(c, n))), Printed(Prefixed(head + [c], range.All(n - 1))));
  }
}
