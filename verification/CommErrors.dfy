/** The communication errors of interactive jobs: bursts, sticky flags, and what is logged. */
module CommErrors {
  import opened Optional

  const READ_TIMEOUT := 30
  const OK := 1000
  const ENDPOINT_NOT_UNIQUE := 1061
  const ACCESS_DENIED := 1080

  /** A clock value in seconds; subtraction of such values is unsigned, modulo TWO_TO_64. */
  type Seconds = x: int | 0 <= x < 0x8000_0000_0000_0000

  const TWO_TO_64 := 0x1_0000_0000_0000_0000

  // ----- the state of one kind of error -----

  datatype State = State(time: Seconds, counter: nat, flag: bool)

  const INITIAL: State := State(0, 0, false)

  /** Forgets the burst if the last error is too long ago, or in the future. */
  function Recent(s: State, now: Seconds): State {
    if (now - s.time) % TWO_TO_64 > 3 * READ_TIMEOUT then State(0, 0, s.flag) else s
  }

  /** Counts the seconds of the burst. */
  function Counted(s: State, now: Seconds): State {
    if s.time < now then
      var counter := s.counter + if s.time == 0 then 1 else now - s.time;
      State(now, counter, counter > 2 * READ_TIMEOUT)
    else s
  }

  function Next(s: State, now: Seconds): State {
    if s.flag then s else Counted(Recent(s, now), now)
  }

  function After(ts: seq<Seconds>): State {
    if ts == [] then INITIAL else Next(After(ts[..|ts| - 1]), ts[|ts| - 1])
  }

  // ----- bursts -----

  /** Errors i to j come within the time limit of each other, with no clock step back and none at time 0. */
  ghost predicate Burst(ts: seq<Seconds>, i: nat, j: nat) {
    && i <= j < |ts| && ts[i] > 0
    && forall k :: i < k <= j ==> Follows(ts, k)
  }

  predicate Follows(ts: seq<Seconds>, k: nat) {
    0 < k < |ts| && ts[k - 1] <= ts[k] <= ts[k - 1] + 3 * READ_TIMEOUT
  }

  ghost predicate LongBurst(ts: seq<Seconds>, i: nat, j: nat) {
    Burst(ts, i, j) && ts[j] - ts[i] >= 2 * READ_TIMEOUT
  }

  ghost predicate AnyLongBurst(ts: seq<Seconds>) {
    exists i: nat, j: nat :: LongBurst(ts, i, j)
  }

  /** The first error of the burst that the last error belongs to. */
  function Start(ts: seq<Seconds>): (i: nat)
    requires ts != []
    ensures i < |ts|
  {
    var n := |ts| - 1;
    if n > 0 && ts[n - 1] > 0 && Follows(ts, n) then Start(ts[..n]) else n
  }

  lemma {:induction false} StartOfBurst(ts: seq<Seconds>)
    requires ts != [] && ts[|ts| - 1] > 0
    ensures Burst(ts, Start(ts), |ts| - 1)
    ensures ts[Start(ts)] <= ts[|ts| - 1]
  {
    var n := |ts| - 1;
    if n > 0 && ts[n - 1] > 0 && Follows(ts, n) {
      StartOfBurst(ts[..n]);
      BurstOfPrefix(ts, n, Start(ts), n - 1);
    }
  }

  lemma {:induction false} StartIsFirst(ts: seq<Seconds>, i: nat)
    requires ts != [] && Burst(ts, i, |ts| - 1)
    ensures Start(ts) <= i
  {
    var n := |ts| - 1;
    if i < n {
      assert Follows(ts, n);
      BurstIsPositive(ts, i, n - 1);
      BurstOfPrefix(ts, n, i, n - 1);
      StartIsFirst(ts[..n], i);
    }
  }

  lemma {:induction false} BurstIsPositive(ts: seq<Seconds>, i: nat, j: nat)
    requires i <= j < |ts| && ts[i] > 0
    requires forall k :: i < k <= j ==> Follows(ts, k)
    ensures ts[j] >= ts[i]
    decreases j
  {
    if i < j {
      assert Follows(ts, j);
      BurstIsPositive(ts, i, j - 1);
    }
  }

  lemma BurstOfPrefix(ts: seq<Seconds>, n: nat, i: nat, j: nat)
    requires n <= |ts| && j < n
    ensures Burst(ts[..n], i, j) <==> Burst(ts, i, j)
  {
    assert forall k :: i < k <= j ==> (Follows(ts[..n], k) <==> Follows(ts, k));
  }

  /** While there was no long burst, the state tells when the last error was and how long its burst lasts. */
  ghost predicate Tells(ts: seq<Seconds>, s: State) {
    if ts == [] || ts[|ts| - 1] == 0 then s.time == 0 && s.counter == 0
    else
      var last: int := ts[|ts| - 1];
      s.time == last && s.counter == last - ts[Start(ts)] + 1 && s.counter <= 2 * READ_TIMEOUT
  }

  /** The flag is set exactly if there was a burst of two read timeouts; until then, inside a burst,
      the counter is the time since its first error plus one. */
  lemma {:induction false} FlagMeansLongBurst(ts: seq<Seconds>)
    ensures After(ts).flag <==> AnyLongBurst(ts)
    ensures !After(ts).flag ==> Tells(ts, After(ts))
  {
    if ts != [] {
      var n := |ts| - 1;
      var before, now := ts[..n], ts[n];
      FlagMeansLongBurst(before);
      EarlierBursts(ts);
      if !After(before).flag {
        if now > 0 {
          StartOfBurst(ts);
          OneMoreError(ts, After(before));
          LastBurst(ts);
        }
      }
    }
  }

  lemma EarlierBursts(ts: seq<Seconds>)
    requires ts != []
    ensures var n := |ts| - 1;
            AnyLongBurst(ts) <==> AnyLongBurst(ts[..n]) || exists i: nat :: LongBurst(ts, i, n)
  {
    var n := |ts| - 1;
    if i: nat, j: nat :| LongBurst(ts[..n], i, j) {
      BurstOfPrefix(ts, n, i, j);
      assert LongBurst(ts, i, j);
    }
    if i: nat, j: nat :| LongBurst(ts, i, j) {
      if j < n {
        BurstOfPrefix(ts, n, i, j);
        assert LongBurst(ts[..n], i, j);
      }
    }
  }

  lemma LastBurst(ts: seq<Seconds>)
    requires ts != [] && ts[|ts| - 1] > 0
    ensures var n := |ts| - 1; (exists i: nat :: LongBurst(ts, i, n)) <==> LongBurst(ts, Start(ts), n)
  {
    var n := |ts| - 1;
    StartOfBurst(ts);
    if i: nat :| LongBurst(ts, i, n) {
      StartIsFirst(ts, i);
      BurstIsPositive(ts, Start(ts), i);
    }
  }

  lemma OneMoreError(ts: seq<Seconds>, s: State)
    requires ts != [] && ts[|ts| - 1] > 0
    requires s.flag == false && Tells(ts[..|ts| - 1], s)
    requires ts[Start(ts)] <= ts[|ts| - 1]
    ensures var n := |ts| - 1;
            var s' := Next(s, ts[n]);
            && (s'.flag <==> ts[n] - ts[Start(ts)] >= 2 * READ_TIMEOUT)
            && s'.time == ts[n] && s'.counter == ts[n] - ts[Start(ts)] + 1
  {
    hide Start;
    var n := |ts| - 1;
    StartGoesOn(ts);
    WrappedDifference(s.time, ts[n]);
  }

  lemma StartGoesOn(ts: seq<Seconds>)
    requires ts != []
    ensures var n := |ts| - 1;
            if n > 0 && ts[n - 1] > 0 && Follows(ts, n) then
              Start(ts) == Start(ts[..n]) && ts[Start(ts)] == ts[..n][Start(ts[..n])]
            else Start(ts) == n
  {
  }

  lemma WrappedDifference(time: Seconds, now: Seconds)
    ensures (now - time) % TWO_TO_64 == if now < time then now - time + TWO_TO_64 else now - time
  {
  }

  // ----- the error record -----

  /** An error as the communication library reports it. */
  datatype Event = Event(error: int, logged: bool, now: Seconds)

  /** The times of the errors of one kind. */
  function TimesOf(es: seq<Event>, error: int): seq<Seconds> {
    if es == [] then []
    else TimesOf(es[..|es| - 1], error) + if es[|es| - 1].error == error then [es[|es| - 1].now] else []
  }

  /** Was there an error that is not handled specially? */
  predicate OtherError(es: seq<Event>) {
    exists i :: 0 <= i < |es| && es[i].error !in {OK, ACCESS_DENIED, ENDPOINT_NOT_UNIQUE}
  }

  /** The last error logged, OK if none was. */
  function LastOf(log: seq<int>): int {
    if log == [] then OK else log[|log| - 1]
  }

  /** No error is logged twice in a row, and OK not at first. */
  ghost predicate Distinct(log: seq<int>) {
    log == [] || (Distinct(log[..|log| - 1]) && LastOf(log) != LastOf(log[..|log| - 1]))
  }

  datatype Answer = Fine | EndpointNotUnique | AccessDenied

  class CommunicationError {
    var error: int
    var wasError: bool
    var lastError: int
    var accessDenied: bool
    var accessDeniedCounter: nat
    var accessDeniedTime: Seconds
    var endpointNotUnique: bool
    var endpointNotUniqueCounter: nat
    var endpointNotUniqueTime: Seconds
    ghost var events: seq<Event>
    ghost var log: seq<int>

    ghost predicate Valid()
      reads this
    {
      && State(accessDeniedTime, accessDeniedCounter, accessDenied) == After(TimesOf(events, ACCESS_DENIED))
      && State(endpointNotUniqueTime, endpointNotUniqueCounter, endpointNotUnique)
         == After(TimesOf(events, ENDPOINT_NOT_UNIQUE))
      && (wasError <==> OtherError(events))
      && error == (if events == [] then OK else events[|events| - 1].error)
      && lastError == LastOf(log)
      && Distinct(log)
    }

    constructor ()
      ensures Valid() && events == [] && log == []
    {
      error, wasError, lastError := OK, false, OK;
      accessDenied, accessDeniedCounter, accessDeniedTime := false, 0, 0;
      endpointNotUnique, endpointNotUniqueCounter, endpointNotUniqueTime := false, 0, 0;
      events, log := [], [];
    }

    /** Updates a time and a counter, and tells whether the burst has become too long. */
    static method HandleTimeout(time: Seconds, counter: nat, now: Seconds)
      returns (newTime: Seconds, newCounter: nat, tooLong: bool)
      ensures State(newTime, newCounter, tooLong) == Next(State(time, counter, false), now)
    {
      newTime, newCounter, tooLong := time, counter, false;
      if (now - newTime) % TWO_TO_64 > 3 * READ_TIMEOUT {
        newTime, newCounter := 0, 0;
      }
      if newTime < now {
        var diff := 1;
        if newTime != 0 {
          diff := now - newTime;
        }
        newCounter := newCounter + diff;
        if newCounter > 2 * READ_TIMEOUT {
          tooLong := true;
        }
        newTime := now;
      }
    }

    /** Records an error, and says whether it is logged: not if it was already, nor twice in a row. */
    method Report(e: Event) returns (logged: bool)
      requires Valid()
      modifies this
      ensures Valid() && events == old(events) + [e]
      ensures logged <==> !e.logged && e.error != LastOf(old(log))
      ensures log == old(log) + if logged then [e.error] else []
    {
      hide After, Next, OtherError, Distinct;
      events := events + [e];
      assert events[..|events| - 1] == old(events);
      error := e.error;
      ReportedTime(old(events), e, ACCESS_DENIED);
      ReportedTime(old(events), e, ENDPOINT_NOT_UNIQUE);
      if e.error == OK {
      } else if e.error == ACCESS_DENIED {
        FlagStays(TimesOf(old(events), ACCESS_DENIED), e.now);
        if !accessDenied {
          accessDeniedTime, accessDeniedCounter, accessDenied :=
            HandleTimeout(accessDeniedTime, accessDeniedCounter, e.now);
        }
      } else if e.error == ENDPOINT_NOT_UNIQUE {
        FlagStays(TimesOf(old(events), ENDPOINT_NOT_UNIQUE), e.now);
        if !endpointNotUnique {
          endpointNotUniqueTime, endpointNotUniqueCounter, endpointNotUnique :=
            HandleTimeout(endpointNotUniqueTime, endpointNotUniqueCounter, e.now);
        }
      } else {
        wasError := true;
      }
      OneMoreOther(old(events), e);
      logged := Log(e.logged);
    }

    method Log(already: bool) returns (logged: bool)
      requires lastError == LastOf(log) && Distinct(log)
      modifies this`lastError, this`log
      ensures lastError == LastOf(log) && Distinct(log)
      ensures logged <==> !already && error != LastOf(old(log))
      ensures log == old(log) + if logged then [error] else []
    {
      logged := false;
      if !already && lastError != error {
        lastError := error;
        logged := true;
        log := log + [error];
        assert log[..|log| - 1] == old(log);
      }
    }

    /** The error for the application; denied access comes before an ambiguous endpoint. */
    method ApplicationError() returns (r: Answer)
      requires Valid()
      ensures r == if AnyLongBurst(TimesOf(events, ACCESS_DENIED)) then AccessDenied
                   else if AnyLongBurst(TimesOf(events, ENDPOINT_NOT_UNIQUE)) then EndpointNotUnique
                   else Fine
    {
      FlagMeansLongBurst(TimesOf(events, ACCESS_DENIED));
      FlagMeansLongBurst(TimesOf(events, ENDPOINT_NOT_UNIQUE));
      r := Fine;
      if endpointNotUnique {
        r := EndpointNotUnique;
      }
      if accessDenied {
        r := AccessDenied;
      }
    }
  }

  lemma ReportedTime(es: seq<Event>, e: Event, error: int)
    ensures After(TimesOf(es + [e], error))
            == if e.error == error then Next(After(TimesOf(es, error)), e.now) else After(TimesOf(es, error))
  {
    assert (es + [e])[..|es|] == es;
    var ts := TimesOf(es, error);
    assert (ts + [e.now])[..|ts|] == ts;
    assert ts + [] == ts;
  }

  lemma OneMoreOther(es: seq<Event>, e: Event)
    ensures OtherError(es + [e]) <==> OtherError(es) || e.error !in {OK, ACCESS_DENIED, ENDPOINT_NOT_UNIQUE}
  {
    var es' := es + [e];
    assert es'[|es|] == e;
    assert forall i :: 0 <= i < |es| ==> es'[i] == es[i];
  }

  lemma FlagStays(ts: seq<Seconds>, now: Seconds)
    ensures After(ts).flag ==> Next(After(ts), now) == After(ts)
  {
  }

  /** Once an application error, always one. */
  lemma {:induction false} ErrorsAreSticky(es: seq<Event>, more: seq<Event>, error: int)
    ensures AnyLongBurst(TimesOf(es, error)) ==> AnyLongBurst(TimesOf(es + more, error))
    decreases more
  {
    if more == [] {
      assert es + more == es;
    } else {
      var e, init := more[|more| - 1], more[..|more| - 1];
      assert es + more == es + init + [e];
      ErrorsAreSticky(es, init, error);
      FlagMeansLongBurst(TimesOf(es + init, error));
      FlagMeansLongBurst(TimesOf(es + init + [e], error));
      ReportedTime(es + init, e, error);
    }
  }
}
