/** The polling loops that wait for a client to come, for all clients to go, and for the send queue to drain. */
module CommWaits {
  import opened CommErrors
  import opened Machine
  import opened Optional

  /** What one round of polling finds: the result of triggering the library and of searching endpoints, how many there
      are (None for no list), and whether an interrupt was received by the end of the round. */
  datatype Look = Look(trigger: int, search: int, count: Option<nat>, interrupted: bool)

  /** How polling ends: after how many pauses of 10 milliseconds, what was seen last, and by an interrupt or not. */
  datatype Ending = Ending(slept: nat, look: Look, interrupted: bool)

  datatype Result = Ok | GotTimeout | CantTrigger | CantSearchEndpoint

  const PAUSE := 10000
  const SECOND := 1000000

  predicate NobodyYet(look: Look) {
    look.trigger != 99 && look.search == OK && look.count == Some(0)
  }

  predicate SomebodyLeft(look: Look) {
    look.search == OK && look.count.Some? && look.count.value > 0
  }

  /** The counter of microseconds is a signed word. */
  function Waited(slept: nat): int {
    Int32(slept * PAUSE)
  }

  /** Full seconds; division truncates. */
  function Seconds(usec: int): int {
    if usec >= 0 then usec / SECOND else -(-usec / SECOND)
  }

  /** Has the time not run out after so many pauses? */
  predicate InTime(slept: nat, waitSecs: int) {
    Seconds(Waited(slept)) < waitSecs
  }

  /** Has round i reason to pause? */
  ghost predicate Paused(goOn: Look -> bool, trace: nat -> Look, waitSecs: int, i: nat) {
    goOn(trace(i)) && InTime(i, waitSecs)
  }

  /** Round i has reason to pause, and no interrupt comes in it. */
  ghost predicate GoesOn(goOn: Look -> bool, trace: nat -> Look, waitSecs: int, i: nat) {
    Paused(goOn, trace, waitSecs, i) && !trace(i).interrupted
  }

  /** The last round; an interrupt comes at the end of a pause. */
  function Final(e: Ending): nat {
    if e.interrupted && e.slept > 0 then e.slept - 1 else e.slept
  }

  /** Polling ends this way: in the first round that does not go on. */
  ghost predicate Ends(goOn: Look -> bool, trace: nat -> Look, waitSecs: int, e: Ending) {
    var k := Final(e);
    && e.look == trace(k) && (e.interrupted ==> e.slept > 0)
    && !GoesOn(goOn, trace, waitSecs, k) && (e.interrupted <==> Paused(goOn, trace, waitSecs, k))
    && forall i: nat :: i < k ==> GoesOn(goOn, trace, waitSecs, i)
  }

  /** Some round does not go on. */
  ghost predicate Stops(goOn: Look -> bool, trace: nat -> Look, waitSecs: int) {
    exists k: nat :: !GoesOn(goOn, trace, waitSecs, k)
  }

  lemma {:induction false} EndsBy(goOn: Look -> bool, trace: nat -> Look, waitSecs: int, k: nat) returns (e: Ending)
    requires !GoesOn(goOn, trace, waitSecs, k)
    ensures Ends(goOn, trace, waitSecs, e) && Final(e) <= k
  {
    if i: nat :| i < k && !GoesOn(goOn, trace, waitSecs, i) {
      e := EndsBy(goOn, trace, waitSecs, i);
    } else {
      var interrupted := Paused(goOn, trace, waitSecs, k);
      e := Ending(if interrupted then k + 1 else k, trace(k), interrupted);
    }
  }

  /** Polling ends exactly if some round does not go on, and in one way only. */
  lemma EndsExactly(goOn: Look -> bool, trace: nat -> Look, waitSecs: int)
    ensures (exists e :: Ends(goOn, trace, waitSecs, e)) <==> Stops(goOn, trace, waitSecs)
    ensures forall e, f :: Ends(goOn, trace, waitSecs, e) && Ends(goOn, trace, waitSecs, f) ==> e == f
  {
    if k: nat :| !GoesOn(goOn, trace, waitSecs, k) {
      var e := EndsBy(goOn, trace, waitSecs, k);
    }
    if e :| Ends(goOn, trace, waitSecs, e) {
      assert !GoesOn(goOn, trace, waitSecs, Final(e));
    }
    forall e, f | Ends(goOn, trace, waitSecs, e) && Ends(goOn, trace, waitSecs, f)
      ensures e == f
    {
      assert Final(e) >= Final(f) && Final(f) >= Final(e);
    }
  }

  lemma CounterBelowOverflow(k: nat)
    requires k <= 214700
    ensures Seconds(Waited(k)) == k / 100
  {
  }

  lemma CounterNeverBeyond(k: nat)
    ensures Seconds(Waited(k)) <= 2147
  {
  }

  /** The time runs out exactly if at most 2147 seconds are to be waited: then after a hundred pauses for each second,
      and else never, since the counter overflows before. */
  lemma TimeRunsOutExactly(waitSecs: int)
    ensures (exists k: nat :: !InTime(k, waitSecs)) <==> waitSecs <= 2147
    ensures waitSecs <= 2147 ==>
              forall k: nat :: k <= 100 * waitSecs ==> (InTime(k, waitSecs) <==> k < 100 * waitSecs)
    ensures waitSecs <= 0 ==> !InTime(0, waitSecs)
  {
    hide Waited, Seconds;
    forall k: nat
      ensures InTime(k, waitSecs) || waitSecs <= 2147
    {
      CounterNeverBeyond(k);
    }
    CounterBelowOverflow(0);
    if waitSecs <= 2147 {
      forall k: nat | k <= 100 * waitSecs
        ensures InTime(k, waitSecs) <==> k < 100 * waitSecs
      {
        CounterBelowOverflow(k);
      }
      assert waitSecs >= 0 ==> !InTime(100 * waitSecs, waitSecs);
    }
  }

  /** Polling for at most 2147 seconds always ends, and pauses for no more than these. */
  lemma PollingEnds(goOn: Look -> bool, trace: nat -> Look, waitSecs: int)
    requires waitSecs <= 2147
    ensures Stops(goOn, trace, waitSecs)
    ensures forall e :: Ends(goOn, trace, waitSecs, e) ==> e.slept <= if waitSecs <= 0 then 0 else 100 * waitSecs
  {
    var limit: nat := if waitSecs <= 0 then 0 else 100 * waitSecs;
    TimeRunsOutExactly(waitSecs);
    assert !GoesOn(goOn, trace, waitSecs, limit);
    forall e | Ends(goOn, trace, waitSecs, e)
      ensures e.slept <= limit
    {
      assert Final(e) <= limit;
      assert e.interrupted ==> InTime(Final(e), waitSecs);
    }
  }

  /** Which rounds go on while there is time: those that find nobody connected, or somebody left, without an error that
      counts. */
  lemma RoundsExactly(trace: nat -> Look, waitSecs: int, i: nat)
    requires waitSecs <= 2147 && i <= 100 * waitSecs
    ensures var look := trace(i);
            && (GoesOn(NobodyYet, trace, waitSecs, i)
                <==> i < 100 * waitSecs && !look.interrupted
                     && look.trigger != 99 && look.search == 1000 && look.count == Some(0))
            && (GoesOn(SomebodyLeft, trace, waitSecs, i)
                <==> i < 100 * waitSecs && !look.interrupted
                     && look.search == 1000 && look.count.Some? && look.count.value > 0)
  {
    hide InTime;
    TimeRunsOutExactly(waitSecs);
  }

  function NobodyEver(k: nat): Look {
    Look(OK, OK, Some(0), false)
  }

  /** A wait of 2148 seconds for a client that never comes does not end. */
  lemma LongWaitNeverEnds()
    ensures !Stops(NobodyYet, NobodyEver, 2148)
  {
    TimeRunsOutExactly(2148);
    forall k: nat
      ensures GoesOn(NobodyYet, NobodyEver, 2148, k)
    {
      assert InTime(k, 2148);
    }
  }

  /** An interrupt comes in a round that pauses, after rounds that all pause. */
  ghost predicate Interrupted(goOn: Look -> bool, trace: nat -> Look, waitSecs: int) {
    exists k: nat :: trace(k).interrupted && forall i: nat :: i <= k ==> Paused(goOn, trace, waitSecs, i)
  }

  lemma InterruptedExactly(goOn: Look -> bool, trace: nat -> Look, waitSecs: int, e: Ending)
    requires Ends(goOn, trace, waitSecs, e)
    ensures e.interrupted <==> Interrupted(goOn, trace, waitSecs)
  {
    var f := Final(e);
    if e.interrupted {
      assert trace(f).interrupted;
      forall i: nat | i <= f
        ensures Paused(goOn, trace, waitSecs, i)
      {
        assert i < f ==> GoesOn(goOn, trace, waitSecs, i);
      }
    }
    forall k: nat
      ensures !e.interrupted && trace(k).interrupted ==> !forall i: nat :: i <= k ==> Paused(goOn, trace, waitSecs, i)
    {
      assert !e.interrupted ==> !Paused(goOn, trace, waitSecs, f);
      assert k < f ==> GoesOn(goOn, trace, waitSecs, k);
    }
  }

  /** Round k is the first without a reason to pause, and no interrupt came before it. */
  ghost predicate StopsAt(goOn: Look -> bool, trace: nat -> Look, waitSecs: int, k: nat) {
    !Paused(goOn, trace, waitSecs, k) && forall i: nat :: i < k ==> GoesOn(goOn, trace, waitSecs, i)
  }

  lemma StopsExactly(goOn: Look -> bool, trace: nat -> Look, waitSecs: int, e: Ending)
    requires Ends(goOn, trace, waitSecs, e)
    ensures forall k: nat :: StopsAt(goOn, trace, waitSecs, k) <==> !e.interrupted && k == e.slept
  {
    forall k: nat
      ensures StopsAt(goOn, trace, waitSecs, k) <==> !e.interrupted && k == e.slept
    {
      assert k < Final(e) ==> GoesOn(goOn, trace, waitSecs, k);
    }
  }

  // ----- waiting for a client -----

  function ConnectionResult(e: Ending, waitSecs: int): Result {
    if !InTime(e.slept, waitSecs) then GotTimeout
    else if e.look.trigger != OK then CantTrigger
    else if e.look.search != OK then CantSearchEndpoint
    else Ok
  }

  /** The host of a client is only known if there is one. */
  function ClientSeen(e: Ending): bool {
    !e.interrupted && e.look.trigger != 99 && e.look.search == OK && e.look.count.Some? && e.look.count.value > 0
  }

  /** Waits for a client. Only ends if some round does not go on. */
  method WaitForConnection(trace: nat -> Look, waitSecs: int) returns (r: Result, seen: bool)
    requires Stops(NobodyYet, trace, waitSecs)
    ensures exists e :: Ends(NobodyYet, trace, waitSecs, e) && r == ConnectionResult(e, waitSecs)
                        && seen == ClientSeen(e)
  {
    hide Waited, Seconds;
    EndsExactly(NobodyYet, trace, waitSecs);
    ghost var e :| Ends(NobodyYet, trace, waitSecs, e);
    NothingWaited();
    var waited, k, trigger, search := 0, 0, 0, 0;
    var list: Option<nat> := None;
    while true
      invariant waited == Waited(k) && list == None && k <= Final(e)
      decreases Final(e) - k
    {
      ghost var goesOn := GoesOn(NobodyYet, trace, waitSecs, k);
      trigger := trace(k).trigger;
      if trigger == 99 {
        break;
      }
      search := trace(k).search;
      if search != OK {
        break;
      }
      list := trace(k).count;
      if list == None || list.value != 0 || Seconds(waited) >= waitSecs {
        break;
      }
      list := None;
      OnePauseMore(k);
      waited := Int32(waited + PAUSE);
      k := k + 1;
      assert GoesOn(NobodyYet, trace, waitSecs, k - 1) == !trace(k - 1).interrupted;
      if trace(k - 1).interrupted {
        break;
      }
    }
    r := Ok;
    if Seconds(waited) >= waitSecs {
      r := GotTimeout;
    } else if trigger != OK {
      r := CantTrigger;
    } else if search != OK {
      r := CantSearchEndpoint;
    }
    seen := list.Some? && list.value > 0;
    assert e.slept == k;
    assert r == ConnectionResult(e, waitSecs) && seen == ClientSeen(e);
  }

  lemma NothingWaited()
    ensures Waited(0) == 0
  {
  }

  lemma OnePauseMore(k: nat)
    ensures Waited(k + 1) == Int32(Waited(k) + PAUSE)
  {
    hide Int32;
    WrapsOnce(k * PAUSE, PAUSE);
    assert (k + 1) * PAUSE == k * PAUSE + PAUSE;
  }

  /** Wrapping before an addition makes no difference to wrapping after it. */
  lemma WrapsOnce(x: int, y: int)
    ensures Int32(Int32(x) + y) == Int32(x + y)
  {
    var q := (x + 0x8000_0000) / 0x1_0000_0000;
    assert Int32(x) == x - 0x1_0000_0000 * q;
  }

  /** Success means that a client has connected, unless the wait was interrupted or there was no list to look at. */
  lemma ConnectedUnlessInterrupted(trace: nat -> Look, waitSecs: int, e: Ending)
    requires Ends(NobodyYet, trace, waitSecs, e) && ConnectionResult(e, waitSecs) == Ok
    ensures ClientSeen(e)
            <==> !Interrupted(NobodyYet, trace, waitSecs)
                 && !exists k: nat :: StopsAt(NobodyYet, trace, waitSecs, k) && trace(k).count == None
  {
    InterruptedExactly(NobodyYet, trace, waitSecs, e);
    StopsExactly(NobodyYet, trace, waitSecs, e);
  }

  function InterruptedAtOnce(k: nat): Look {
    Look(OK, OK, Some(0), true)
  }

  /** An interrupted wait succeeds without a client. */
  lemma SuccessWithoutClient()
    ensures var e := Ending(1, InterruptedAtOnce(0), true);
            Ends(NobodyYet, InterruptedAtOnce, 1, e) && ConnectionResult(e, 1) == Ok && !ClientSeen(e)
  {
  }

  // ----- waiting for no client -----

  function NoConnectionResult(e: Ending, waitSecs: int): Result {
    if e.look.search != OK then CantSearchEndpoint
    else if e.look.trigger != OK then CantTrigger
    else if !InTime(e.slept, waitSecs) then GotTimeout
    else Ok
  }

  /** Waits for the last client to go. Only ends if some round does not go on. */
  method WaitForNoConnection(trace: nat -> Look, waitSecs: int) returns (r: Result)
    requires Stops(SomebodyLeft, trace, waitSecs)
    ensures exists e :: Ends(SomebodyLeft, trace, waitSecs, e) && r == NoConnectionResult(e, waitSecs)
  {
    hide Waited, Seconds;
    EndsExactly(SomebodyLeft, trace, waitSecs);
    ghost var e :| Ends(SomebodyLeft, trace, waitSecs, e);
    NothingWaited();
    var waited, k, trigger, search := 0, 0, 0, 0;
    var doExit := false;
    while !doExit
      invariant waited == Waited(k)
      invariant !doExit ==> k <= Final(e)
      invariant doExit ==> e.slept == k && e.look.trigger == trigger && e.look.search == search
      decreases !doExit, Final(e) - k
    {
      trigger := trace(k).trigger;
      search := trace(k).search;
      var list := trace(k).count;
      if search == OK && list != None && list.value > 0 && Seconds(waited) < waitSecs {
        OnePauseMore(k);
        waited := Int32(waited + PAUSE);
        k := k + 1;
        assert Paused(SomebodyLeft, trace, waitSecs, k - 1);
        if trace(k - 1).interrupted {
          assert !GoesOn(SomebodyLeft, trace, waitSecs, k - 1);
          doExit := true;
        } else {
          assert GoesOn(SomebodyLeft, trace, waitSecs, k - 1);
        }
      } else {
        assert !GoesOn(SomebodyLeft, trace, waitSecs, k);
        doExit := true;
      }
    }
    r := Ok;
    if Seconds(waited) >= waitSecs {
      r := GotTimeout;
    }
    if trigger != OK {
      r := CantTrigger;
    }
    if search != OK {
      r := CantSearchEndpoint;
    }
  }

  /** Success means that no client is left exactly if the wait was not interrupted. */
  lemma GoneUnlessInterrupted(trace: nat -> Look, waitSecs: int, e: Ending)
    requires Ends(SomebodyLeft, trace, waitSecs, e) && NoConnectionResult(e, waitSecs) == Ok
    ensures !SomebodyLeft(e.look) <==> !Interrupted(SomebodyLeft, trace, waitSecs)
  {
    InterruptedExactly(SomebodyLeft, trace, waitSecs, e);
  }

  function OneClientStays(k: nat): Look {
    Look(OK, OK, Some(1), true)
  }

  /** An interrupted wait succeeds with a client left. */
  lemma SuccessWithClient()
    ensures var e := Ending(1, OneClientStays(0), true);
            && Ends(SomebodyLeft, OneClientStays, 1, e) && NoConnectionResult(e, 1) == Ok
            && SomebodyLeft(e.look)
  {
  }

  /** What each result says of a wait of at most 2147 seconds: the time was up, or else the last trigger failed, or else
      the last search; without a client to come the last search is looked at first, then the trigger, then the time. */
  lemma ResultsExactly(goOn: Look -> bool, trace: nat -> Look, waitSecs: int, e: Ending)
    requires Ends(goOn, trace, waitSecs, e) && waitSecs <= 2147
    ensures var timeUp := waitSecs <= 0 || e.slept == 100 * waitSecs;
            && ConnectionResult(e, waitSecs)
               == (if timeUp then GotTimeout
                   else if e.look.trigger != 1000 then CantTrigger
                   else if e.look.search != 1000 then CantSearchEndpoint
                   else Ok)
            && NoConnectionResult(e, waitSecs)
               == (if e.look.search != 1000 then CantSearchEndpoint
                   else if e.look.trigger != 1000 then CantTrigger
                   else if timeUp then GotTimeout
                   else Ok)
  {
    hide InTime;
    PollingEnds(goOn, trace, waitSecs);
    TimeRunsOutExactly(waitSecs);
    assert waitSecs > 0 ==> (InTime(e.slept, waitSecs) <==> e.slept < 100 * waitSecs);
  }

  // ----- flushing -----

  const SELECT_TIMEOUT := 1069
  const SELECT_INTERRUPT := 1070

  /** A result of triggering that ends flushing. */
  predicate Fatal(trigger: int) {
    trigger !in {OK, SELECT_TIMEOUT, SELECT_INTERRUPT}
  }

  /** All but success, a timeout and an interrupt of waiting for the network end flushing. */
  lemma FatalExactly(trigger: int)
    ensures Fatal(trigger) <==> trigger != 1000 && trigger != 1069 && trigger != 1070
  {
  }

  /** Round k is made: the queue was never empty before it, and no error was fatal. */
  ghost predicate Made(triggers: nat -> int, queue: nat -> nat, k: nat) {
    (forall i: nat :: i <= k ==> queue(i) > 0) && (forall i: nat :: i < k ==> !Fatal(triggers(i)))
  }

  /** Round n is the last one: a fatal error, or nothing left to send after it. */
  ghost predicate LastRound(triggers: nat -> int, queue: nat -> nat, n: nat) {
    Made(triggers, queue, n) && (Fatal(triggers(n)) || queue(n + 1) == 0)
  }

  /** Flushing goes on for ever exactly if there is something to send and no last round. */
  lemma {:induction false} FlushEndsExactly(triggers: nat -> int, queue: nat -> nat)
    ensures (forall k: nat :: Made(triggers, queue, k))
            <==> queue(0) > 0 && !exists n: nat :: LastRound(triggers, queue, n)
  {
    if forall k: nat :: Made(triggers, queue, k) {
      forall n: nat
        ensures !LastRound(triggers, queue, n)
      {
        assert Made(triggers, queue, n + 1);
      }
      assert Made(triggers, queue, 0);
    } else if queue(0) > 0 {
      var k: nat :| !Made(triggers, queue, k);
      LastBefore(triggers, queue, k);
    }
  }

  lemma {:induction false} LastBefore(triggers: nat -> int, queue: nat -> nat, k: nat)
    requires queue(0) > 0 && !Made(triggers, queue, k)
    ensures exists n: nat :: n < k && LastRound(triggers, queue, n)
  {
    if k > 0 {
      if Made(triggers, queue, k - 1) {
        assert LastRound(triggers, queue, k - 1);
      } else {
        LastBefore(triggers, queue, k - 1);
      }
    }
  }

  /** Triggers the library until the send queue is empty or cannot be sent. Only ends if there is a last round. */
  method Flush(triggers: nat -> int, queue: nat -> nat, ghost n: nat) returns (retries: int)
    requires queue(0) == 0 || LastRound(triggers, queue, n)
    ensures queue(0) == 0 ==> retries == 0
    ensures queue(0) > 0 ==> retries == if Fatal(triggers(n)) then triggers(n) else -(n as int)
  {
    retries := 0;
    var k: nat := 0;
    var elems := queue(k);
    while elems > 0
      invariant elems == queue(k)
      invariant elems > 0 ==> Made(triggers, queue, k)
      invariant queue(0) > 0 ==> k <= n + 1
      invariant queue(0) > 0 && k <= n ==> retries == -(k as int)
      invariant queue(0) > 0 && k == n + 1 ==> retries == -(n as int) && !Fatal(triggers(n))
      invariant queue(0) == 0 ==> k == 0 && retries == 0
      decreases n + 1 - k
    {
      var ret := triggers(k);
      if Fatal(ret) {
        retries := ret;
        break;
      }
      k := k + 1;
      elems := queue(k);
      if elems > 0 {
        retries := retries - 1;
      }
    }
  }
}
