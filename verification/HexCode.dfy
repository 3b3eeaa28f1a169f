/** Hexadecimal coding of a sealed password, in zero-terminated strings. */
module HexCode {
  import opened Bytes
  import opened Machine
  import opened Seqs

  const DIGITS: string := "0123456789abcdef"

  function Digit(n: nat): (c: char)
    requires n < 16
    ensures c != '\0'
  {
    DIGITS[n]
  }

  /** The value of a hexadecimal digit, or -1. */
  function Value(c: char): (v: int)
    ensures -1 <= v < 16
  {
    if '0' <= c <= '9' then c as int - '0' as int
    else if 'a' <= c <= 'f' then c as int - 'a' as int + 10
    else if 'A' <= c <= 'F' then c as int - 'A' as int + 10
    else -1
  }

  lemma DigitValue(n: nat)
    requires n < 16
    ensures Value(Digit(n)) == n
  {
  }

  lemma ValueDigit(c: char)
    requires c in DIGITS
    ensures Value(c) >= 0 && Digit(Value(c)) == c
  {
    var i :| 0 <= i < 16 && DIGITS[i] == c;
    DigitValue(i);
  }

  function Pair(b: byte): (r: string)
    ensures |r| == 2 && r[0] != '\0' && r[1] != '\0'
  {
    [Digit(b / 16), Digit(b % 16)]
  }

  function Encoded(bs: bytes): (r: string)
    ensures |r| == 2 * |bs|
    ensures forall i :: 0 <= i < |r| ==> r[i] != '\0'
  {
    if bs == [] then "" else Pair(bs[0]) + Encoded(bs[1..])
  }

  /** What scanning a two-character string for a hexadecimal number of at most two characters yields:
      leading space is skipped, a sign and a prefix 0x count as characters, and 0 stands where there is no number. */
  function Scanned(a: char, b: char): byte {
    if IsSpace(a) || a == '+' then (if Value(b) >= 0 then Value(b) else 0)
    else if a == '-' then (if Value(b) > 0 then 0x100 - Value(b) else 0)
    else if Value(a) < 0 then 0
    else if Value(b) < 0 then Value(a)
    else 16 * Value(a) + Value(b)
  }

  /** The bytes of the complete pairs. */
  function Decoded(s: string): (r: bytes)
    ensures |r| == |s| / 2
  {
    if |s| < 2 then [] else [Scanned(s[0], s[1])] + Decoded(s[2..])
  }

  lemma PairScanned(b: byte)
    ensures Scanned(Pair(b)[0], Pair(b)[1]) == b
  {
    DigitValue(b / 16);
    DigitValue(b % 16);
    NoSpace(b / 16);
  }

  lemma NoSpace(n: nat)
    requires n < 16
    ensures !IsSpace(Digit(n)) && Digit(n) != '+' && Digit(n) != '-'
  {
  }

  /** The digit of a number below sixteen. */
  lemma DigitIs(n: nat)
    requires n < 16
    ensures Digit(n) as int == if n < 10 then '0' as int + n else 'a' as int + n - 10
  {
  }

  /** A byte is written as its high digit and its low one, in lower case. */
  lemma {:induction false} EncodedAt(bs: bytes, i: nat)
    requires i < |bs|
    ensures var high, low := bs[i] / 16, bs[i] % 16;
            && Encoded(bs)[2 * i] as int == (if high < 10 then '0' as int + high else 'a' as int + high - 10)
            && Encoded(bs)[2 * i + 1] as int == (if low < 10 then '0' as int + low else 'a' as int + low - 10)
  {
    hide Digit;
    if i == 0 {
      DigitIs(bs[0] / 16);
      DigitIs(bs[0] % 16);
    } else {
      EncodedAt(bs[1..], i - 1);
    }
  }

  function UpperCase(c: char): char {
    if 'a' <= c <= 'z' then c - 'a' + 'A' else c
  }

  /** Digits in upper case are read as those in lower case. */
  lemma {:induction false} UpperCaseToo(s: string, t: string)
    requires |s| == |t| && forall i :: 0 <= i < |s| ==> t[i] == UpperCase(s[i]) && s[i] in DIGITS
    ensures Decoded(t) == Decoded(s)
  {
    hide UpperCase, Scanned;
    if |s| >= 2 {
      UpperCaseToo(s[2..], t[2..]);
      UpperPair(s[0], s[1]);
    }
  }

  lemma UpperPair(a: char, b: char)
    requires a in DIGITS && b in DIGITS
    ensures Scanned(UpperCase(a), UpperCase(b)) == Scanned(a, b)
  {
    hide UpperCase, Value;
    UpperDigit(a);
    UpperDigit(b);
  }

  lemma UpperDigit(c: char)
    requires c in DIGITS
    ensures Value(UpperCase(c)) == Value(c) >= 0 && !IsSpace(c) && c != '+' && c != '-'
    ensures !IsSpace(UpperCase(c)) && UpperCase(c) != '+' && UpperCase(c) != '-'
  {
    var i :| 0 <= i < 16 && DIGITS[i] == c;
    DigitIs(i);
  }

  /** Decoding undoes encoding. */
  lemma {:induction false} DecodeEncoded(bs: bytes)
    ensures Decoded(Encoded(bs)) == bs
  {
    if bs != [] {
      PairScanned(bs[0]);
      DecodeEncoded(bs[1..]);
      Rejoined(Pair(bs[0]), Encoded(bs[1..]));
    }
  }

  /** Encoding undoes decoding exactly for an even number of lower-case digits. */
  lemma {:induction false} EncodeDecoded(s: string)
    ensures Encoded(Decoded(s)) == s <==> |s| % 2 == 0 && forall c :: c in s ==> c in DIGITS
  {
    if |s| >= 2 {
      var rest := s[2..];
      EncodeDecoded(rest);
      var b := Scanned(s[0], s[1]);
      Rejoined([b], Decoded(rest));
      Rejoined(Pair(b), Encoded(Decoded(rest)));
      assert s[..2] == [s[0], s[1]];
      Split(s, 2);
      PairKept(s[0], s[1]);
      assert forall c :: c in s <==> c == s[0] || c == s[1] || c in rest;
    } else if |s| == 1 {
      assert Encoded(Decoded(s)) == "";
    }
  }

  lemma PairKept(a: char, b: char)
    ensures Pair(Scanned(a, b)) == [a, b] <==> a in DIGITS && b in DIGITS
  {
    hide Value, Scanned, Digit;
    DigitIn(Scanned(a, b) / 16);
    DigitIn(Scanned(a, b) % 16);
    if a in DIGITS && b in DIGITS {
      ValueDigit(a);
      ValueDigit(b);
      TwoDigits(Value(a), Value(b));
    }
  }

  lemma DigitIn(n: nat)
    requires n < 16
    ensures Digit(n) in DIGITS
  {
  }

  lemma TwoDigits(x: nat, y: nat)
    requires x < 16 && y < 16
    ensures Scanned(Digit(x), Digit(y)) == 16 * x + y
  {
    hide Digit;
    DigitValue(x);
    DigitValue(y);
    NoSpace(x);
  }

  // ----- the coding loops -----

  /** A zero-terminated string in an array. */
  predicate Holds(output: array<char>, s: string)
    reads output
  {
    && |s| < output.Length && output[..|s|] == s
    && forall i :: |s| <= i < output.Length ==> output[i] == '\0'
  }

  method Concatenate(output: array<char>, ghost s: string, more: string)
    requires Holds(output, s) && (forall i :: 0 <= i < |s| ==> s[i] != '\0')
    requires |s| + |more| < output.Length
    modifies output
    ensures Holds(output, s + more)
  {
    forall i | 0 <= i < |s|
      ensures output[i] == s[i]
    {
      assert output[..|s|][i] == output[i];
    }
    var end := 0;
    while output[end] != '\0'
      invariant end <= |s|
      decreases |s| - end
    {
      end := end + 1;
    }
    forall i | 0 <= i < |more| {
      output[end + i] := more[i];
    }
    assert output[..|s + more|] == s + more;
  }

  method EncodeHex(input: bytes) returns (output: array<char>)
    ensures fresh(output) && output.Length == 2 * |input| + 1
    ensures Holds(output, Encoded(input))
  {
    output := new char[2 * |input| + 1](_ => '\0');
    for s := 0 to |input|
      invariant fresh(output) && output.Length == 2 * |input| + 1
      invariant Holds(output, Encoded(input[..s]))
    {
      OneEncoded(input, s);
      Concatenate(output, Encoded(input[..s]), Pair(input[s]));
    }
    assert input[..|input|] == input;
  }

  lemma {:induction false} EncodedConcat(a: bytes, b: bytes)
    ensures Encoded(a + b) == Encoded(a) + Encoded(b)
  {
    if a == [] {
      assert a + b == b;
    } else {
      assert (a + b)[1..] == a[1..] + b;
      EncodedConcat(a[1..], b);
    }
  }

  lemma OneEncoded(input: bytes, s: nat)
    requires s < |input|
    ensures Encoded(input[..s + 1]) == Encoded(input[..s]) + Pair(input[s])
  {
    SplitAt(input, s);
    EncodedConcat(input[..s], [input[s]]);
    assert Encoded([input[s]]) == Pair(input[s]);
  }

  /** Decodes a zero-terminated string of the given length. */
  method DecodeHex(input: array<char>, length: nat) returns (output: array<byte>, decoded: nat)
    requires length < input.Length && input[length] == '\0'
    ensures decoded == length / 2 && decoded < output.Length
    ensures fresh(output) && output[..decoded] == Decoded(input[..length])
  {
    output := new byte[length / 2 + 1](_ => 0);
    var s := 0;
    assert output[..0] == Decoded(input[..0]);
    hide Scanned, Decoded;
    while s < length
      invariant s % 2 == 0 && s <= length + 1
      invariant fresh(output) && output.Length == length / 2 + 1
      invariant s <= length ==> output[..s / 2] == Decoded(input[..s])
      invariant s > length ==> output[..length / 2] == Decoded(input[..length])
    {
      ghost var before := output[..s / 2];
      output[s / 2] := Scanned(input[s], input[s + 1]);
      assert output[..s / 2] == before;
      if s + 2 <= length {
        PairDecoded(input[..s + 2], s);
        assert input[..s + 2][..s] == input[..s];
        assert output[..s / 2 + 1] == before + [output[s / 2]];
      } else {
        OddEnd(input[..length]);
        assert input[..length][..s] == input[..s];
      }
      s := s + 2;
    }
    decoded := length / 2;
  }

  lemma {:induction false} PairDecoded(t: string, s: nat)
    requires s % 2 == 0 && |t| == s + 2
    ensures Decoded(t) == Decoded(t[..s]) + [Scanned(t[s], t[s + 1])]
  {
    if s > 0 {
      PairDecoded(t[2..], s - 2);
      assert t[2..][..s - 2] == t[..s][2..];
    }
  }

  /** A last single character decodes to nothing. */
  lemma {:induction false} OddEnd(t: string)
    requires |t| % 2 == 1
    ensures Decoded(t) == Decoded(t[..|t| - 1])
  {
    if |t| > 1 {
      OddEnd(t[2..]);
      assert t[2..][..|t| - 3] == t[..|t| - 1][2..];
    }
  }
}
