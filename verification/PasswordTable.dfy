/** The password table: parallel arrays of users and sealed passwords, closed by a null, and its changes. */
module PasswordTable {
  import opened Bytes
  import opened HexCode
  import opened Optional
  import opened Sealing

  datatype Entry = Entry(user: string, pwd: string)

  /** The position of the first entry of the user. */
  function Find(es: seq<Entry>, user: string): (r: Option<nat>)
    ensures r.Some? ==> r.value < |es| && es[r.value].user == user
    ensures forall j :: 0 <= j < (if r.Some? then r.value else |es|) ==> es[j].user != user
  {
    if es == [] then None
    else if es[0].user == user then Some(0)
    else
      var r := Find(es[1..], user);
      if r.Some? then Some(r.value + 1) else None
  }

  /** The sealed password of a user. */
  function Sealed(es: seq<Entry>, user: string): Option<string> {
    var r := Find(es, user);
    if r.Some? then Some(es[r.value].pwd) else None
  }

  /** Every entry of the user gets the password. */
  function Replaced(es: seq<Entry>, user: string, pwd: string): (r: seq<Entry>)
    ensures |r| == |es|
    ensures forall i :: 0 <= i < |es| ==> r[i] == if es[i].user == user then Entry(user, pwd) else es[i]
  {
    if es == [] then []
    else [if es[0].user == user then Entry(user, pwd) else es[0]] + Replaced(es[1..], user, pwd)
  }

  function AddedOrReplaced(es: seq<Entry>, user: string, pwd: string): seq<Entry> {
    if Find(es, user).Some? then Replaced(es, user, pwd) else es + [Entry(user, pwd)]
  }

  /** The first entry of the user has its name blanked. */
  function Blanked(es: seq<Entry>, user: string): seq<Entry> {
    var r := Find(es, user);
    if r.Some? then es[r.value := Entry("", es[r.value].pwd)] else es
  }

  /** The entries that go to the file: those with a name. */
  function Named(es: seq<Entry>): seq<Entry> {
    if es == [] then [] else (if es[0].user == "" then [] else [es[0]]) + Named(es[1..])
  }

  function Text(es: seq<Entry>): string {
    if es == [] then "" else es[0].user + " " + es[0].pwd + "\n" + Text(es[1..])
  }

  class Table {
    const users: array<Option<string>>
    const pwds: array<Option<string>>
    ghost var es: seq<Entry>

    ghost predicate Valid()
      reads this, users, pwds
    {
      && users != pwds && users.Length == pwds.Length && |es| < users.Length
      && (forall i :: 0 <= i < |es| ==> users[i] == Some(es[i].user) && pwds[i] == Some(es[i].pwd))
      && users[|es|] == None
    }

    /** The empty table with room for so many entries. */
    constructor (room: nat)
      ensures Valid() && es == [] && users.Length == room + 1 && fresh(users) && fresh(pwds)
    {
      users := new Option<string>[room + 1](_ => None);
      pwds := new Option<string>[room + 1](_ => None);
      es := [];
    }

    method FindEntry(user: string) returns (r: int)
      requires Valid()
      ensures r == if Find(es, user).Some? then Find(es, user).value else -1
    {
      var i := 0;
      while users[i] != None
        invariant i <= |es|
        invariant forall j :: 0 <= j < i ==> es[j].user != user
        decreases |es| - i
      {
        if users[i].value == user {
          return i;
        }
        i := i + 1;
      }
      r := -1;
    }

    method AddOrReplace(user: string, pwd: string)
      requires Valid() && (Find(es, user) == None ==> |es| + 1 < users.Length && users[|es| + 1] == None)
      modifies this`es, users, pwds
      ensures Valid() && es == AddedOrReplaced(old(es), user, pwd)
    {
      var i, done := 0, false;
      while users[i] != None
        invariant Valid() && i <= |es| == old(|es|)
        invariant forall j :: 0 <= j < |es| ==>
                    es[j] == if j < i && old(es[j].user) == user then Entry(user, pwd) else old(es[j])
        invariant done <==> exists j :: 0 <= j < i && old(es[j].user) == user
        invariant forall j :: |es| <= j < users.Length ==> users[j] == old(users[j])
        decreases |es| - i
      {
        if users[i].value == user {
          SetPassword(i, pwd);
          done := true;
        }
        i := i + 1;
      }
      if !done {
        Append(i, user, pwd);
      }
    }

    method SetPassword(i: nat, pwd: string)
      requires Valid() && i < |es|
      modifies this`es, pwds
      ensures Valid() && es == old(es)[i := Entry(old(es)[i].user, pwd)]
    {
      pwds[i] := Some(pwd);
      es := es[i := Entry(es[i].user, pwd)];
    }

    method Append(i: nat, user: string, pwd: string)
      requires Valid() && i == |es| && i + 1 < users.Length && users[i + 1] == None
      modifies this`es, users, pwds
      ensures Valid() && es == old(es) + [Entry(user, pwd)]
    {
      users[i], pwds[i] := Some(user), Some(pwd);
      es := es + [Entry(user, pwd)];
    }

    method Blank(user: string)
      requires Valid()
      modifies this`es, users
      ensures Valid() && es == Blanked(old(es), user)
    {
      var i := FindEntry(user);
      if i != -1 {
        users[i] := Some("");
        es := es[i := Entry("", es[i].pwd)];
      }
    }

    method WriteFile() returns (file: string)
      requires Valid()
      ensures file == Text(Named(es))
    {
      file := "";
      var i := 0;
      while users[i] != None
        invariant i <= |es|
        invariant file == Text(Named(es[..i]))
        decreases |es| - i
      {
        OneWritten(es, i);
        if users[i].value != "" {
          file := file + (users[i].value + " " + pwds[i].value + "\n");
        }
        i := i + 1;
      }
      assert es[..i] == es;
    }
  }

  /** Deletes a user and writes the file. */
  method Delete(table: Table, user: string) returns (file: string)
    requires table.Valid()
    modifies table`es, table.users
    ensures table.Valid() && table.es == Blanked(old(table.es), user)
    ensures file == Text(Named(Blanked(old(table.es), user)))
  {
    table.Blank(user);
    file := table.WriteFile();
  }

  lemma {:induction false} NamedConcat(a: seq<Entry>, b: seq<Entry>)
    ensures Named(a + b) == Named(a) + Named(b)
  {
    if a == [] {
      assert a + b == b;
    } else {
      assert (a + b)[1..] == a[1..] + b;
      NamedConcat(a[1..], b);
    }
  }

  lemma {:induction false} TextConcat(a: seq<Entry>, b: seq<Entry>)
    ensures Text(a + b) == Text(a) + Text(b)
  {
    if a == [] {
      assert a + b == b;
    } else {
      assert (a + b)[1..] == a[1..] + b;
      TextConcat(a[1..], b);
    }
  }

  lemma OneWritten(es: seq<Entry>, i: nat)
    requires i < |es|
    ensures Text(Named(es[..i + 1]))
            == Text(Named(es[..i])) + if es[i].user == "" then "" else es[i].user + " " + es[i].pwd + "\n"
  {
    assert es[..i + 1] == es[..i] + [es[i]];
    NamedConcat(es[..i], [es[i]]);
    assert Named([es[i]]) == if es[i].user == "" then [] else [es[i]];
    TextConcat(Named(es[..i]), Named([es[i]]));
    assert es[i].user != "" ==> Text([es[i]]) == es[i].user + " " + es[i].pwd + "\n";
  }

  // ----- what a change and a deletion mean for the users -----

  lemma {:induction false} FindIs(es: seq<Entry>, user: string, i: nat)
    requires i < |es| && es[i].user == user
    requires forall j :: 0 <= j < i ==> es[j].user != user
    ensures Find(es, user) == Some(i)
  {
    if i > 0 {
      FindIs(es[1..], user, i - 1);
    }
  }

  /** After a change the user has the new password, and everybody else the one of before. */
  lemma SealedAfterChange(es: seq<Entry>, user: string, pwd: string, other: string)
    ensures Sealed(AddedOrReplaced(es, user, pwd), other) == if other == user then Some(pwd) else Sealed(es, other)
  {
    var es' := AddedOrReplaced(es, user, pwd);
    var r := Find(es, other);
    if r.Some? {
      FindIs(es', other, r.value);
    } else if other == user {
      FindIs(es', user, |es|);
    }
  }

  function Entries(es: seq<Entry>, user: string): nat {
    if es == [] then 0 else (if es[0].user == user then 1 else 0) + Entries(es[1..], user)
  }

  lemma {:induction false} SealedNamed(es: seq<Entry>, user: string)
    requires user != ""
    ensures Sealed(Named(es), user) == Sealed(es, user)
  {
    if es != [] {
      SealedNamed(es[1..], user);
      if es[0].user != "" {
        assert ([es[0]] + Named(es[1..]))[1..] == Named(es[1..]);
      } else {
        assert [] + Named(es[1..]) == Named(es[1..]);
      }
    }
  }

  lemma {:induction false} NobodyUnnamed(es: seq<Entry>)
    ensures Sealed(Named(es), "") == None
  {
    if es != [] {
      NobodyUnnamed(es[1..]);
      if es[0].user != "" {
        assert ([es[0]] + Named(es[1..]))[1..] == Named(es[1..]);
      } else {
        assert [] + Named(es[1..]) == Named(es[1..]);
      }
    }
  }

  lemma {:induction false} BlankedEntries(es: seq<Entry>, user: string, other: string)
    requires other != ""
    ensures other != user ==> Sealed(Blanked(es, user), other) == Sealed(es, other)
    ensures other == user ==>
              Entries(Blanked(es, user), user) == if Entries(es, user) == 0 then 0 else Entries(es, user) - 1
  {
    if es != [] {
      if es[0].user == user {
        assert Blanked(es, user)[1..] == es[1..];
      } else {
        BlankedEntries(es[1..], user, other);
        assert Blanked(es, user)[1..] == Blanked(es[1..], user);
      }
    }
  }

  lemma {:induction false} NoEntries(es: seq<Entry>, user: string)
    ensures Sealed(es, user) == None <==> Entries(es, user) == 0
  {
    if es != [] {
      NoEntries(es[1..], user);
    }
  }

  /** After a deletion the file has no password for the user exactly if there was at most one entry;
      the other users keep theirs. */
  lemma SealedAfterDelete(es: seq<Entry>, user: string, other: string)
    ensures Sealed(Named(Blanked(es, user)), user) == None <==> user == "" || Entries(es, user) <= 1
    ensures other != user ==> Sealed(Named(Blanked(es, user)), other) == Sealed(Named(es), other)
  {
    hide Sealed, Named, Blanked, Entries;
    NobodyUnnamed(es);
    NobodyUnnamed(Blanked(es, user));
    if user != "" {
      SealedNamed(Blanked(es, user), user);
      BlankedEntries(es, user, user);
      NoEntries(Blanked(es, user), user);
    }
    if other != "" {
      SealedNamed(Blanked(es, user), other);
      SealedNamed(es, other);
      BlankedEntries(es, user, other);
    }
  }

  /** Of two entries of a user the second one survives the deletion. */
  lemma SecondEntryStays(user: string, first: string, second: string)
    requires user != ""
    ensures Sealed(Named(Blanked([Entry(user, first), Entry(user, second)], user)), user) == Some(second)
  {
    var es := [Entry(user, first), Entry(user, second)];
    assert Blanked(es, user) == [Entry("", first), Entry(user, second)];
    assert Named(Blanked(es, user)[1..]) == [Entry(user, second)];
  }

  // ----- changing a password -----

  /** A password as it can be typed: at most 127 bytes and none of them zero. */
  predicate Typed(p: bytes) {
    |p| < 128 && forall i :: 0 <= i < |p| ==> p[i] != 0
  }

  /** Comparing a zero-padded text with a typed password. */
  predicate Matches(text: bytes, typed: bytes) {
    |typed| <= |text| && text[..|typed|] == typed && (|text| > |typed| ==> text[|typed|] == 0)
  }

  /** What is typed at the prompts; None stands for an interrupted prompt. */
  datatype Typing = Typing(former: Option<bytes>, wanted: Option<bytes>, again: Option<bytes>)

  datatype Exit = Changed | Undecipherable | OutOfBounds | Aborted | WrongPassword | NoMatch | Empty

  /** Everybody but root has to know the old password, if there is one; its frame is read past if it is too short. */
  function Authorised<S>(c: Stream<S>, key: PrivateKey<S>, es: seq<Entry>, user: string, root: bool,
                         former: Option<bytes>): Option<Exit>
  {
    var sealed := Sealed(es, user);
    if root || sealed == None then None
    else if former == None then Some(Aborted)
    else
      var result := Open(c, key, Decoded(sealed.value));
      if result.WrongKeySize? then Some(Undecipherable)
      else if result.ReadsPast? then Some(OutOfBounds)
      else if !Matches(result.text, former.value) then Some(WrongPassword)
      else None
  }

  /** Root is always allowed, and so is a user without an entry; an interrupted prompt aborts; the stored frame must be
      long enough and sealed for the key, and then its text must be what was typed, up to a zero. */
  lemma AuthorisedExactly<S>(c: Stream<S>, key: PrivateKey<S>, es: seq<Entry>, user: string, root: bool,
                             former: Option<bytes>)
    ensures var r := Authorised(c, key, es, user, root, former);
            var known := exists i :: 0 <= i < |es| && es[i].user == user;
            && (root || !known ==> r == None)
            && (!root && known && former == None ==> r == Some(Aborted))
            && forall i :: !root && former != None && 0 <= i < |es| && es[i].user == user
                           && (forall j :: 0 <= j < i ==> es[j].user != user) ==>
                 var frame, typed := Decoded(es[i].pwd), former.value;
                 if |frame| < 4 then r == Some(OutOfBounds)
                 else if FromNet(frame[..4]) != key.size then r == Some(Undecipherable)
                 else if |frame| < 4 + key.size + 16 then r == Some(OutOfBounds)
                 else
                   var text := Crypt(c, key.open(frame[4..4 + key.size], frame[4 + key.size..][..16]),
                                     frame[4 + key.size..][16..]);
                   r == if typed <= text && (|typed| == |text| || text[|typed|] == 0) then None else Some(WrongPassword)
  {
    hide Decoded, FromNet, Crypt;
    forall i | 0 <= i < |es| && es[i].user == user && (forall j :: 0 <= j < i ==> es[j].user != user)
      ensures Find(es, user) == Some(i)
    {
      FindIs(es, user, i);
    }
  }

  method AuthoriseChange<S>(c: Stream<S>, key: PrivateKey<S>, table: Table, user: string, root: bool,
                            former: Option<bytes>) returns (r: Option<Exit>)
    requires table.Valid()
    ensures r == Authorised(c, key, table.es, user, root, former)
  {
    hide Decoded, Crypt, FromNet, Find, Matches;
    if root {
      return None;
    }
    var i := table.FindEntry(user);
    if i == -1 {
      return None;
    }
    if former == None {
      return Some(Aborted);
    }
    var pwd := table.pwds[i].value;
    var input := new char[|pwd| + 1]((k: nat) => if k < |pwd| then pwd[k] else '\0');
    assert input[..|pwd|] == pwd;
    var frame, decoded := DecodeHex(input, |pwd|);
    var buffer := new Buffer();
    var ok, past := Decrypt(c, key, frame[..decoded], buffer);
    if past {
      return Some(OutOfBounds);
    }
    if !ok {
      return Some(Undecipherable);
    }
    ghost var text := Open(c, key, Decoded(pwd)).text;
    assert [] + text == text;
    var matches := CompareStrings(buffer, former.value);
    if !matches {
      return Some(WrongPassword);
    }
    return None;
  }

  method CompareStrings(buffer: Buffer, typed: bytes) returns (same: bool)
    requires buffer.Valid()
    ensures same <==> Matches(buffer.Contents(), typed)
  {
    if buffer.data == null {
      return typed == [];
    }
    same := |typed| <= buffer.fill && buffer.data[..|typed|] == typed
            && (|typed| < buffer.fill ==> buffer.data[|typed|] == 0);
  }

  /** Changes a password; the table is only touched, and the file only written, if all goes well. */
  method Change<S>(c: Stream<S>, key: PrivateKey<S>, seal: Seal<S>, table: Table, user: string, root: bool,
                   typing: Typing) returns (r: Exit, file: Option<string>)
    requires table.Valid() && Sized(seal)
    requires |table.es| + 1 < table.users.Length && table.users[|table.es| + 1] == None
    requires typing.wanted.Some? ==> Typed(typing.wanted.value)
    modifies table`es, table.users, table.pwds
    ensures table.Valid()
    ensures var authorised := Authorised(c, key, old(table.es), user, root, typing.former);
            r == if authorised.Some? then authorised.value
                 else if typing.wanted == None || typing.again == None then Aborted
                 else if typing.wanted != typing.again then NoMatch
                 else if typing.wanted.value == [] then Empty
                 else if !Usable(seal) then OutOfBounds
                 else Changed
    ensures r.Changed? ==> typing.wanted != None && typing.again == typing.wanted && typing.wanted.value != []
    ensures r.Changed? ==>
              && table.es == AddedOrReplaced(old(table.es), user, Encoded(Frame(c, seal, typing.wanted.value)))
              && file == Some(Text(Named(table.es)))
    ensures !r.Changed? ==> table.es == old(table.es) && file == None
  {
    hide Decoded, Encoded, Crypt, AddedOrReplaced, Named, Text;
    file := None;
    var authorised := AuthoriseChange(c, key, table, user, root, typing.former);
    if authorised.Some? {
      return authorised.value, None;
    }
    if typing.wanted == None || typing.again == None {
      return Aborted, None;
    }
    if typing.wanted != typing.again {
      return NoMatch, None;
    }
    if typing.wanted.value == [] {
      return Empty, None;
    }
    var buffer := new Buffer();
    var past := Encrypt(c, seal, typing.wanted.value, buffer);
    if past {
      return OutOfBounds, None;
    }
    var frame := Frame(c, seal, typing.wanted.value);
    assert [] + frame == frame;
    var sealed := buffer.data[..buffer.fill];
    var encoded := EncodeHex(sealed);
    table.AddOrReplace(user, encoded[..2 * |sealed|]);
    var written := table.WriteFile();
    return Changed, Some(written);
  }

  /** The password that was changed to, and only that one, lets its owner in at the next change. */
  lemma OnlyNewPasswordMatches<S>(c: Stream<S>, key: PrivateKey<S>, seal: Seal<S>, es: seq<Entry>, user: string,
                                  wanted: bytes, typed: bytes)
    requires Usable(seal) && |seal.ekey| == key.size && seal.start == key.open(seal.ekey, seal.iv)
    requires Typed(wanted) && Typed(typed)
    ensures var es' := AddedOrReplaced(es, user, Encoded(Frame(c, seal, wanted)));
            Authorised(c, key, es', user, false, Some(typed))
            == if KeyLength(seal.reported) != key.size then Some(Undecipherable)
               else if typed == wanted then None
               else Some(WrongPassword)
  {
    hide Decoded, Encoded, Crypt, Frame, Find;
    var frame := Frame(c, seal, wanted);
    var pwd := Encoded(frame);
    DecodeEncoded(frame);
    SealThenOpen(c, seal, key, wanted);
    SealedAfterChange(es, user, pwd, user);
    OnlyItselfMatches(wanted, typed);
  }

  lemma OnlyItselfMatches(text: bytes, typed: bytes)
    requires Typed(text) && Typed(typed)
    ensures Matches(text, typed) <==> text == typed
  {
    if Matches(text, typed) {
      assert text[..|typed|] == typed;
    }
  }
}
