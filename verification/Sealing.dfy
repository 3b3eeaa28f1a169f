/** The growing byte buffer, and the sealed frame a password is kept in. */
module Sealing {
  import opened Bytes
  import opened Machine
  import opened Seqs

  /** A buffer that grows as bytes are appended; null until the first of them. */
  class Buffer {
    var data: array?<byte>
    var fill: nat

    ghost predicate Valid()
      reads this, data
    {
      if data == null then fill == 0
      else 512 <= data.Length && fill <= data.Length && forall i :: fill <= i < data.Length ==> data[i] == 0
    }

    ghost function Contents(): bytes
      requires Valid()
      reads this, data
    {
      if data == null then [] else data[..fill]
    }

    function Capacity(): nat
      reads this
    {
      if data == null then 0 else data.Length
    }

    constructor ()
      ensures Valid() && Contents() == [] && data == null
    {
      data, fill := null, 0;
    }

    method Append(bs: bytes)
      requires Valid()
      modifies this, data
      ensures Valid() && data != null && (data == old(data) || fresh(data))
      ensures Contents() == old(Contents()) + bs
      ensures Capacity() == GrownTo(old(Capacity()), old(fill), |bs|)
    {
      if data == null {
        var size := if |bs| > 512 then |bs| else 512;
        data := new byte[size](_ => 0);
      } else if fill + |bs| > data.Length {
        var grown := new byte[data.Length + |bs|](_ => 0);
        forall i | 0 <= i < data.Length {
          grown[i] := data[i];
        }
        data := grown;
      }
      ghost var before := data[..fill];
      forall i | 0 <= i < |bs| {
        data[fill + i] := bs[i];
      }
      fill := fill + |bs|;
      forall i | fill <= i < data.Length {
        data[i] := 0;
      }
      forall i | 0 <= i < fill
        ensures data[i] == (before + bs)[i]
      {
      }
      assert data[..fill] == before + bs;
    }
  }

  /** The capacity after an append: the first one reserves at least 512 bytes, later ones only grow when needed. */
  function GrownTo(capacity: nat, fill: nat, n: nat): nat {
    if capacity == 0 then (if n > 512 then n else 512)
    else if fill + n > capacity then capacity + n
    else capacity
  }

  /** There is room for what is appended, at least 512 bytes; and nothing grows that has the room. */
  lemma GrownEnough(capacity: nat, fill: nat, n: nat)
    requires fill <= capacity && (capacity == 0 || capacity >= 512)
    ensures GrownTo(capacity, fill, n) >= fill + n && GrownTo(capacity, fill, n) >= 512
    ensures capacity > 0 && fill + n <= capacity ==> GrownTo(capacity, fill, n) == capacity
    ensures GrownTo(capacity, fill, n) <= if capacity == 0 && n <= 512 then 512 else capacity + n
  {
  }

  // ----- the cipher -----

  /** A stream cipher: in each state it has a byte to mix in, and a next state. */
  datatype Stream<!S> = Stream(pad: S -> byte, next: S -> S)

  function Crypt<S>(c: Stream<S>, s: S, bs: bytes): (r: bytes)
    ensures |r| == |bs|
    decreases bs
  {
    if bs == [] then [] else [Xor(bs[0], c.pad(s))] + Crypt(c, c.next(s), bs[1..])
  }

  function Advanced<S>(c: Stream<S>, s: S, n: nat): S
    decreases n
  {
    if n == 0 then s else Advanced(c, c.next(s), n - 1)
  }

  /** Piecewise encryption is encryption of the whole. */
  lemma {:induction false} CryptConcat<S>(c: Stream<S>, s: S, a: bytes, b: bytes)
    ensures Crypt(c, s, a + b) == Crypt(c, s, a) + Crypt(c, Advanced(c, s, |a|), b)
    ensures Advanced(c, s, |a + b|) == Advanced(c, Advanced(c, s, |a|), |b|)
    decreases a
  {
    if a == [] {
      assert a + b == b;
    } else {
      assert (a + b)[1..] == a[1..] + b;
      CryptConcat(c, c.next(s), a[1..], b);
    }
  }

  lemma {:induction false} CryptTwice<S>(c: Stream<S>, s: S, bs: bytes)
    ensures Crypt(c, s, Crypt(c, s, bs)) == bs
    decreases bs
  {
    if bs != [] {
      XorTwice(bs[0], c.pad(s));
      CryptTwice(c, c.next(s), bs[1..]);
      Rejoined([Xor(bs[0], c.pad(s))], Crypt(c, c.next(s), bs[1..]));
    }
  }

  /** Each byte is mixed with that of the state the cipher has reached. */
  lemma {:induction false} CryptAt<S>(c: Stream<S>, s: S, bs: bytes, i: nat)
    requires i < |bs|
    ensures Crypt(c, s, bs)[i] == Xor(bs[i], c.pad(Advanced(c, s, i)))
    decreases i
  {
    if i > 0 {
      CryptAt(c, c.next(s), bs[1..], i - 1);
    }
  }

  /** A cipher context, advanced by each update. */
  class Context<S> {
    const cipher: Stream<S>
    var state: S

    constructor (cipher: Stream<S>, state: S)
      ensures this.cipher == cipher && this.state == state
    {
      this.cipher, this.state := cipher, state;
    }

    method Update(bs: bytes) returns (r: bytes)
      modifies this
      ensures r == Crypt(cipher, old(state), bs)
      ensures state == Advanced(cipher, old(state), |bs|)
    {
      r := Crypt(cipher, state, bs);
      state := Advanced(cipher, state, |bs|);
    }
  }

  // ----- the frame -----

  const IV_LENGTH := 16
  const CHUNK := 512

  /** What opening a seal for writing gives: the key length it reports, the encrypted session key,
      the initial vector and the start state. */
  datatype Seal<S> = Seal(reported: u32, ekey: bytes, iv: bytes, start: S)

  /** The private key: the length of encrypted keys, and the state such a key and initial vector stand for. */
  datatype PrivateKey<!S> = PrivateKey(size: u32, open: (bytes, bytes) -> S)

  /** A key length that cannot be is taken to be 128. */
  function KeyLength(reported: u32): u32 {
    if reported == 0 || reported > 10000 then 128 else reported
  }

  /** The vector is an array of this length. */
  predicate Sized<S>(seal: Seal<S>) {
    |seal.iv| == IV_LENGTH
  }

  /** The key has the length that is taken for its length. */
  predicate Usable<S>(seal: Seal<S>) {
    Sized(seal) && KeyLength(seal.reported) <= |seal.ekey|
  }

  /** The frame: length of the key, key, initial vector, encrypted text. */
  function Frame<S>(c: Stream<S>, seal: Seal<S>, plain: bytes): bytes
    requires Usable(seal)
  {
    ToNet(KeyLength(seal.reported)) + seal.ekey[..KeyLength(seal.reported)] + seal.iv + Crypt(c, seal.start, plain)
  }

  /** Seals at most a chunk, behind what the buffer holds; stops behind the key length where the program reads past
      the key. */
  method Encrypt<S>(c: Stream<S>, seal: Seal<S>, plain: bytes, out: Buffer) returns (past: bool)
    requires out.Valid() && Sized(seal) && |plain| <= CHUNK
    modifies out, out.data
    ensures out.Valid() && (past <==> !Usable(seal))
    ensures out.Contents() == old(out.Contents())
                              + if Usable(seal) then Frame(c, seal, plain) else ToNet(KeyLength(seal.reported))
  {
    ghost var before := out.Contents();
    var length := KeyLength(seal.reported);
    var context := new Context(c, seal.start);
    out.Append(ToNet(length));
    if length > |seal.ekey| {
      return true;
    }
    out.Append(seal.ekey[..length]);
    out.Append(seal.iv);
    var text := context.Update(plain);
    out.Append(text);
    out.Append([]);
    FrameAppended(before, ToNet(length), seal.ekey[..length], seal.iv, text);
    return false;
  }

  /** The program reads past the key exactly if it is shorter than the length reported, or than 128 bytes where that
      length is taken for impossible. */
  lemma ReadsPastKey<S>(seal: Seal<S>)
    requires Sized(seal)
    ensures !Usable(seal)
            <==> |seal.ekey| < seal.reported <= 10000
                 || (|seal.ekey| < 128 && (seal.reported == 0 || seal.reported > 10000))
  {
  }

  lemma FrameAppended(a: bytes, b: bytes, c: bytes, d: bytes, e: bytes)
    ensures a + b + c + d + e + [] == a + (b + c + d + e)
  {
    Reassociate5(a, b, c, d, e);
    Reassociate(b, c, d);
    Reassociate(b, c + d, e);
  }

  /** What opening a frame comes to: it was sealed for a key of another length, it is too short for what is read of it,
      or it has a text. */
  datatype Opened = WrongKeySize | ReadsPast | Plain(text: bytes)

  function Open<S>(c: Stream<S>, key: PrivateKey<S>, frame: bytes): Opened {
    if |frame| < 4 then ReadsPast
    else if FromNet(frame[..4]) != key.size then WrongKeySize
    else if |frame| < 4 + key.size + IV_LENGTH then ReadsPast
    else
      var rest := frame[4 + key.size..];
      Plain(Crypt(c, key.open(frame[4..4 + key.size], rest[..IV_LENGTH]), rest[IV_LENGTH..]))
  }

  /** The length that is counted down while key length, key and vector are taken off a frame. */
  function LengthLeft(length: int, keySize: u32): int {
    U64(U64(U64(length - 4) - keySize) - IV_LENGTH)
  }

  /** For a frame with room for the three the count ends the text where the frame ends; for a shorter one it wraps, and
      what is read as text ends a whole address space further on. */
  lemma LengthLeftExactly(length: int, keySize: u32)
    requires 0 <= length < 0x1_0000_0000_0000_0000
    ensures 4 + keySize + IV_LENGTH + LengthLeft(length, keySize)
            == if 4 + keySize + IV_LENGTH <= length then length else length + 0x1_0000_0000_0000_0000
  {
  }

  /** Decrypts what remains of a frame, chunk by chunk. */
  method DecryptText<S>(context: Context<S>, frame: bytes, start: nat, out: Buffer)
    requires out.Valid() && start <= |frame|
    modifies context, out, out.data
    ensures out.Valid() && (out.data == old(out.data) || fresh(out.data))
    ensures out.Contents() == old(out.Contents()) + Crypt(context.cipher, old(context.state), frame[start..])
  {
    hide Crypt, Advanced;
    ghost var before, c, s := out.Contents(), context.cipher, context.state;
    var curr, length := start, |frame| - start;
    NothingCrypted(c, s);
    assert before + [] == before;
    assert frame[start..start] == [];
    while length > 0
      invariant start <= curr <= |frame| && length == |frame| - curr
      invariant out.Valid() && (out.data == old(out.data) || fresh(out.data))
      invariant context.state == Advanced(c, s, curr - start)
      invariant out.Contents() == before + Crypt(c, s, frame[start..curr])
    {
      var n := if length < CHUNK then length else CHUNK;
      var chunk := frame[curr..curr + n];
      OneChunk(c, s, frame, start, curr, curr + n);
      curr, length := curr + n, length - n;
      var text := context.Update(chunk);
      Reassociate(before, Crypt(c, s, frame[start..curr - n]), text);
      out.Append(text);
    }
    assert frame[start..curr] == frame[start..];
  }

  lemma NothingCrypted<S>(c: Stream<S>, s: S)
    ensures Crypt(c, s, []) == [] && Advanced(c, s, 0) == s
  {
  }

  /** Opens a frame, and appends its text to what the buffer holds; stops where the program reads past the frame. */
  method Decrypt<S>(c: Stream<S>, key: PrivateKey<S>, frame: bytes, out: Buffer) returns (ok: bool, past: bool)
    requires out.Valid()
    modifies out, out.data
    ensures out.Valid()
    ensures ok <==> Open(c, key, frame).Plain?
    ensures past <==> Open(c, key, frame).ReadsPast?
    ensures out.Contents() == old(out.Contents()) + if ok then Open(c, key, frame).text else []
  {
    hide Crypt, FromNet;
    ghost var before := out.Contents();
    assert before + [] == before;
    if |frame| < 4 {
      return false, true;
    }
    var keyLength := FromNet(frame[..4]);
    if keyLength != key.size {
      return false, false;
    }
    var curr := 4;
    if |frame| < curr + keyLength + IV_LENGTH {
      return false, true;
    }
    var encryptKey := frame[curr..curr + keyLength];
    curr := curr + keyLength;
    var iv := frame[curr..curr + IV_LENGTH];
    TextStarts(frame, curr);
    curr := curr + IV_LENGTH;
    var context := new Context(c, key.open(encryptKey, iv));
    DecryptText(context, frame, curr, out);
    out.Append([]);
    return true, false;
  }

  lemma TextStarts(frame: bytes, i: nat)
    requires i + IV_LENGTH <= |frame|
    ensures frame[i..][..IV_LENGTH] == frame[i..i + IV_LENGTH] && frame[i..][IV_LENGTH..] == frame[i + IV_LENGTH..]
  {
    SliceOfSlice(frame, i, IV_LENGTH);
  }

  lemma OneChunk<S>(c: Stream<S>, s: S, frame: bytes, start: nat, from: nat, to: nat)
    requires start <= from <= to <= |frame|
    ensures Crypt(c, s, frame[start..to])
            == Crypt(c, s, frame[start..from]) + Crypt(c, Advanced(c, s, from - start), frame[from..to])
    ensures Advanced(c, s, to - start) == Advanced(c, Advanced(c, s, from - start), to - from)
  {
    assert frame[start..to] == frame[start..from] + frame[from..to];
    CryptConcat(c, s, frame[start..from], frame[from..to]);
  }

  /** Opening undoes sealing exactly if the length written is that of the private key. */
  lemma SealThenOpen<S>(c: Stream<S>, seal: Seal<S>, key: PrivateKey<S>, plain: bytes)
    requires Usable(seal) && |seal.ekey| == key.size
    requires seal.start == key.open(seal.ekey, seal.iv)
    ensures Open(c, key, Frame(c, seal, plain))
            == if KeyLength(seal.reported) == key.size then Plain(plain) else WrongKeySize
  {
    var n := KeyLength(seal.reported);
    var frame := Frame(c, seal, plain);
    var text := Crypt(c, seal.start, plain);
    FrameParts(ToNet(n), seal.ekey[..n], seal.iv, text);
    NetRoundTrip(n);
    if n == key.size {
      assert seal.ekey[..n] == seal.ekey;
      CryptTwice(c, seal.start, plain);
    }
  }

  /** Where the parts of a frame stand: the length of the key, highest byte first, the key, the vector, and the text. */
  lemma FrameLayout<S>(c: Stream<S>, seal: Seal<S>, plain: bytes, i: nat)
    requires Usable(seal) && i < |plain|
    ensures var f, n := Frame(c, seal, plain), KeyLength(seal.reported);
            && |f| == 4 + n + 16 + |plain|
            && 0x100_0000 * (f[0] as int) + 0x1_0000 * (f[1] as int) + 0x100 * (f[2] as int) + f[3] as int == n
            && f[4..4 + n] == seal.ekey[..n] && f[4 + n..][..16] == seal.iv
            && f[4 + n..][16 + i] == Xor(plain[i], c.pad(Advanced(c, seal.start, i)))
  {
    hide Crypt;
    var f, n := Frame(c, seal, plain), KeyLength(seal.reported);
    var text := Crypt(c, seal.start, plain);
    FrameParts(ToNet(n), seal.ekey[..n], seal.iv, text);
    CryptAt(c, seal.start, plain, i);
    assert f[0] == f[..4][0] && f[1] == f[..4][1] && f[2] == f[..4][2] && f[3] == f[..4][3];
    assert f[4 + n..][16 + i] == f[4 + n..][16..][i];
  }

  lemma FrameParts(a: bytes, b: bytes, c: bytes, d: bytes)
    requires |a| == 4
    ensures var f := a + b + c + d;
            && f[..4] == a && f[4..4 + |b|] == b && f[4 + |b|..][..|c|] == c && f[4 + |b|..][|c|..] == d
  {
    var f := a + b + c + d;
    Rejoined(a + b, c + d);
    Reassociate(a + b, c, d);
    Rejoined(c, d);
    Rejoined(a, b + (c + d));
    Reassociate(a, b, c + d);
    assert f[4..4 + |b|] == f[..4 + |b|][4..];
    Rejoined(a, b);
  }
}
