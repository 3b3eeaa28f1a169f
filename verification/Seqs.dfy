/** Facts about slices and concatenations that proofs name where the verifier needs them. */
module Seqs {

  lemma NothingAdded<T>(a: seq<T>)
    ensures [] + a == a && a[0..] == a && a + [] == a
  {
  }

  lemma Reassociate<T>(a: seq<T>, b: seq<T>, c: seq<T>)
    ensures a + b + c == a + (b + c)
  {
  }

  lemma Reassociate5<T>(a: seq<T>, b: seq<T>, c: seq<T>, d: seq<T>, e: seq<T>)
    ensures a + b + c + d + e == a + (b + (c + d + e))
  {
    Reassociate(a, b, c);
    Reassociate(a, b + c, d);
    Reassociate(a, b + c + d, e);
    Reassociate(b, c, d);
    Reassociate(b, c + d, e);
  }

  lemma Split<T>(s: seq<T>, i: nat)
    requires i <= |s|
    ensures s[..i] + s[i..] == s
  {
  }

  lemma SplitAt<T>(s: seq<T>, i: nat)
    requires i < |s|
    ensures s[..i + 1] == s[..i] + [s[i]] && s[i..] == [s[i]] + s[i + 1..]
    ensures s == s[..i] + [s[i]] + s[i + 1..]
  {
  }

  lemma Rejoined<T>(a: seq<T>, b: seq<T>)
    ensures (a + b)[..|a|] == a && (a + b)[|a|..] == b
  {
  }

  lemma RemovedWithin<T>(a: seq<T>, x: T, b: seq<T>)
    ensures var c := a + ([x] + b); c[|a|] == x && c[..|a|] + c[|a| + 1..] == a + b
  {
    Rejoined(a, [x] + b);
    DropPast(a, [x] + b, 1);
  }

  lemma SliceOfSlice<T>(s: seq<T>, i: nat, j: nat)
    requires i + j <= |s|
    ensures s[i..][..j] == s[i..i + j] && s[i..][j..] == s[i + j..]
  {
  }

  lemma DropPast<T>(a: seq<T>, b: seq<T>, k: nat)
    requires k <= |b|
    ensures (a + b)[|a| + k..] == b[k..]
  {
  }

  lemma TakePast<T>(a: seq<T>, b: seq<T>, k: nat)
    requires k <= |b|
    ensures (a + b)[..|a| + k] == a + b[..k]
  {
  }

  lemma DropWithin<T>(a: seq<T>, b: seq<T>, k: nat)
    requires k <= |a|
    ensures (a + b)[k..] == a[k..] + b
  {
  }
}
