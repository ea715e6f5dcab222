/**
 * The admission loop of the load-test client (worker): one semaphore slot
 * per connection attempt, the slot given back on a connection timeout,
 * ramp-up sleeps after the first `concurrent` attempts that connect, and a
 * final drain that takes every slot back. Whether a connection attempt
 * succeeds, and which in-flight sessions close while the worker is
 * suspended, are chosen nondeterministically: every property below holds
 * for every choice.
 */
module Admission {
  import Protocol

  /** One pass of the worker loop: did the connection come up within the
      timeout, and did the worker sleep for the ramp-up afterwards. */
  datatype Attempt = Attempt(connected: bool, rampUp: bool)

  /** What happens to the semaphore's slots, in order: the worker takes a
      slot (Take), gives it back after a connection timeout (GiveBack) or
      leaves it to the session it opened (Launch); a session gives its slot
      back in onClose (Closed). */
  datatype Event = Take | GiveBack | Launch | Closed

  function Count(trace: seq<Event>, e: Event): nat
  {
    if trace == [] then 0
    else Count(trace[..|trace| - 1], e) + (if trace[|trace| - 1] == e then 1 else 0)
  }

  /** Free slots after `trace`, starting from `capacity`. */
  function Free(capacity: int, trace: seq<Event>): int
  {
    capacity - Count(trace, Take) + Count(trace, GiveBack) + Count(trace, Closed)
  }

  /** Sessions in flight: opened and not yet closed. */
  function InFlight(trace: seq<Event>): int
  {
    Count(trace, Launch) - Count(trace, Closed)
  }

  /** Slots the worker holds: taken, and neither given back nor left to a
      session. */
  function Held(trace: seq<Event>): int
  {
    Count(trace, Take) - Count(trace, GiveBack) - Count(trace, Launch)
  }

  /** No count of slots is negative: the semaphore is never overdrawn, no
      session closes that was not opened, and the worker gives back or
      hands on only slots it took. */
  predicate Sound(capacity: int, trace: seq<Event>)
  {
    Free(capacity, trace) >= 0 && InFlight(trace) >= 0 && Held(trace) >= 0
  }

  predicate SoundThroughout(capacity: int, trace: seq<Event>)
  {
    forall k :: 0 <= k <= |trace| ==> Sound(capacity, trace[..k])
  }

  /** Along a sound trace, at most `capacity` sessions are ever in flight. */
  lemma InFlightBound(capacity: int, trace: seq<Event>, k: nat)
    requires SoundThroughout(capacity, trace) && k <= |trace|
    ensures 0 <= InFlight(trace[..k]) <= capacity
  {
    assert Sound(capacity, trace[..k]);
  }

  /** The worker's own steps: the trace without the sessions' closes. */
  function WorkerSteps(trace: seq<Event>): seq<Event>
  {
    if trace == [] then []
    else WorkerSteps(trace[..|trace| - 1]) + (if trace[|trace| - 1] == Closed then [] else [trace[|trace| - 1]])
  }

  /** The steps of the worker loop for the given attempts: take a slot, then
      leave it to the new session or give it back on a timeout. */
  function AttemptSteps(attempts: seq<Attempt>): seq<Event>
  {
    if attempts == [] then []
    else AttemptSteps(attempts[..|attempts| - 1]) + [Take, if attempts[|attempts| - 1].connected then Launch else GiveBack]
  }

  function Takes(n: nat): seq<Event>
  {
    seq(n, _ => Take)
  }

  function TimedOut(attempts: seq<Attempt>): nat
  {
    if attempts == [] then 0
    else TimedOut(attempts[..|attempts| - 1]) + (if attempts[|attempts| - 1].connected then 0 else 1)
  }

  function Launched(attempts: seq<Attempt>): nat
  {
    if attempts == [] then 0
    else Launched(attempts[..|attempts| - 1]) + (if attempts[|attempts| - 1].connected then 1 else 0)
  }

  /** One more event: the counts and the worker's steps grow by it, and a
      trace sound throughout stays so if the new end is sound. */
  lemma Append(capacity: int, trace: seq<Event>, e: Event)
    ensures forall x :: Count(trace + [e], x) == Count(trace, x) + (if x == e then 1 else 0)
    ensures WorkerSteps(trace + [e]) == WorkerSteps(trace) + (if e == Closed then [] else [e])
    ensures SoundThroughout(capacity, trace) && Sound(capacity, trace + [e]) ==> SoundThroughout(capacity, trace + [e])
  {
    assert (trace + [e])[..|trace|] == trace;
    if SoundThroughout(capacity, trace) && Sound(capacity, trace + [e]) {
      forall k | 0 <= k <= |trace + [e]|
        ensures Sound(capacity, (trace + [e])[..k])
      {
        if k <= |trace| {
          assert (trace + [e])[..k] == trace[..k];
        } else {
          assert (trace + [e])[..k] == trace + [e];
        }
      }
    }
  }

  lemma {:induction false} CountConcat(a: seq<Event>, b: seq<Event>, x: Event)
    ensures Count(a + b, x) == Count(a, x) + Count(b, x)
    decreases |b|
  {
    if b != [] {
      var init := b[..|b| - 1];
      CountConcat(a, init, x);
      assert (a + b)[..|a + b| - 1] == a + init;
      assert (a + b)[|a + b| - 1] == b[|b| - 1];
      assert Count(a + b, x) == Count(a + init, x) + (if b[|b| - 1] == x then 1 else 0);
    } else {
      assert a + b == a;
    }
  }

  /** The closes drop out of the worker's steps and nothing else does. */
  lemma {:induction false} CountWorkerSteps(trace: seq<Event>, x: Event)
    requires x != Closed
    ensures Count(WorkerSteps(trace), x) == Count(trace, x)
  {
    if trace != [] {
      var init := trace[..|trace| - 1];
      CountWorkerSteps(init, x);
      CountConcat(WorkerSteps(init), if trace[|trace| - 1] == Closed then [] else [trace[|trace| - 1]], x);
      assert Count([trace[|trace| - 1]], x) == if trace[|trace| - 1] == x then 1 else 0 by {
        assert [trace[|trace| - 1]][..0] == [];
      }
    }
  }

  /** Each attempt takes one slot, and then either opens a session or gives
      the slot back. */
  lemma {:induction false} AttemptCounts(attempts: seq<Attempt>)
    ensures Count(AttemptSteps(attempts), Take) == |attempts|
    ensures Count(AttemptSteps(attempts), GiveBack) == TimedOut(attempts)
    ensures Count(AttemptSteps(attempts), Launch) == Launched(attempts)
  {
    if attempts != [] {
      var init := attempts[..|attempts| - 1];
      var last := attempts[|attempts| - 1];
      var step := [Take, if last.connected then Launch else GiveBack];
      AttemptCounts(init);
      assert step[..1] == [Take] && [Take][..0] == [];
      CountConcat(AttemptSteps(init), step, Take);
      CountConcat(AttemptSteps(init), step, GiveBack);
      CountConcat(AttemptSteps(init), step, Launch);
    }
  }

  lemma {:induction false} CountTakes(n: nat, x: Event)
    ensures Count(Takes(n), x) == if x == Take then n else 0
  {
    if n > 0 {
      CountTakes(n - 1, x);
      assert Takes(n)[..n - 1] == Takes(n - 1);
    }
  }

  /** A worker that went through `attempts` and then drained `drained`
      slots took |attempts| + drained slots, gave back one per timeout and
      opened one session per connection. */
  lemma WorkerCounts(trace: seq<Event>, attempts: seq<Attempt>, drained: nat)
    requires WorkerSteps(trace) == AttemptSteps(attempts) + Takes(drained)
    ensures Count(trace, Take) == |attempts| + drained
    ensures Count(trace, GiveBack) == TimedOut(attempts)
    ensures Count(trace, Launch) == Launched(attempts)
  {
    AttemptCounts(attempts);
    forall x | x != Closed
      ensures Count(trace, x) == Count(AttemptSteps(attempts), x) + (if x == Take then drained else 0)
    {
      CountWorkerSteps(trace, x);
      CountConcat(AttemptSteps(attempts), Takes(drained), x);
      CountTakes(drained, x);
    }
  }

  /** The semaphore's state follows the trace: its permits are the free
      slots, and its acquire and release counts are the trace's takes and
      give-backs plus closes since `acquired0` and `released0`. */
  ghost predicate Tracks(sem: Protocol.Semaphore, capacity: int, trace: seq<Event>, acquired0: int, released0: int)
    reads sem
  {
    && sem.permits == Free(capacity, trace)
    && sem.acquired == acquired0 + Count(trace, Take)
    && sem.released == released0 + Count(trace, GiveBack) + Count(trace, Closed)
  }

  /** The semaphore follows `trace` and the trace is sound throughout. */
  ghost predicate Consistent(sem: Protocol.Semaphore, capacity: int, trace: seq<Event>, acquired0: int, released0: int)
    reads sem
  {
    Tracks(sem, capacity, trace, acquired0, released0) && SoundThroughout(capacity, trace)
  }

  /** At a suspension point, any number of the sessions in flight may reach
      onClose, each releasing its slot (a Closed event); with `someMust`,
      at least one does (the worker is blocked on an empty semaphore). The
      loop stands for those other sessions' onClose callbacks, not for a
      loop of the worker. */
  method SessionsClose(sem: Protocol.Semaphore, capacity: int, trace: seq<Event>, someMust: bool,
                       ghost acquired0: int, ghost released0: int)
    returns (after: seq<Event>)
    requires Consistent(sem, capacity, trace, acquired0, released0)
    requires someMust ==> InFlight(trace) >= 1
    modifies sem
    ensures Consistent(sem, capacity, after, acquired0, released0)
    ensures Held(after) == Held(trace) && WorkerSteps(after) == WorkerSteps(trace)
    ensures InFlight(after) <= InFlight(trace) && (someMust ==> InFlight(after) < InFlight(trace))
  {
    assert trace[..|trace|] == trace;
    assert Sound(capacity, trace[..|trace|]);
    var closing: nat :| closing <= InFlight(trace) && (someMust ==> closing >= 1);
    after := trace;
    var closed := 0;
    while closed < closing
      invariant closed <= closing
      invariant Consistent(sem, capacity, after, acquired0, released0)
      invariant Held(after) == Held(trace) && WorkerSteps(after) == WorkerSteps(trace)
      invariant InFlight(after) == InFlight(trace) - closed
    {
      sem.Release();
      Append(capacity, after, Closed);
      after := after + [Closed];
      closed := closed + 1;
    }
  }

  /** await sem.acquire(): while no slot is free, sessions must close; then
      the worker takes one (a Take event). */
  method AcquireSlot(sem: Protocol.Semaphore, capacity: int, trace: seq<Event>, ghost acquired0: int, ghost released0: int)
    returns (after: seq<Event>)
    requires Consistent(sem, capacity, trace, acquired0, released0)
    requires Held(trace) < capacity
    modifies sem
    ensures Consistent(sem, capacity, after, acquired0, released0)
    ensures Held(after) == Held(trace) + 1
    ensures WorkerSteps(after) == WorkerSteps(trace) + [Take]
  {
    after := trace;
    assert after[..|after|] == after;
    while sem.permits == 0
      invariant Consistent(sem, capacity, after, acquired0, released0)
      invariant Held(after) == Held(trace) && WorkerSteps(after) == WorkerSteps(trace)
      decreases InFlight(after)
    {
      assert after[..|after|] == after;
      assert Sound(capacity, after[..|after|]);
      assert Free(capacity, after) == capacity - Held(after) - InFlight(after);
      assert InFlight(after) >= 1;
      after := SessionsClose(sem, capacity, after, true, acquired0, released0);
    }
    assert after[..|after|] == after;
    assert Sound(capacity, after[..|after|]);
    assert sem.permits > 0;
    sem.Acquire();
    Append(capacity, after, Take);
    after := after + [Take];
  }

  /** sem.release() after a connection timeout (a GiveBack event). */
  method GiveSlotBack(sem: Protocol.Semaphore, capacity: int, trace: seq<Event>, ghost acquired0: int, ghost released0: int)
    returns (after: seq<Event>)
    requires Consistent(sem, capacity, trace, acquired0, released0)
    requires Held(trace) >= 1
    modifies sem
    ensures Consistent(sem, capacity, after, acquired0, released0)
    ensures Held(after) == Held(trace) - 1
    ensures WorkerSteps(after) == WorkerSteps(trace) + [GiveBack]
  {
    assert trace[..|trace|] == trace;
    assert Sound(capacity, trace[..|trace|]);
    sem.Release();
    Append(capacity, trace, GiveBack);
    after := trace + [GiveBack];
  }

  /** A connection came up: the new session keeps the worker's slot until
      its onClose (a Launch event). */
  method LaunchSession(sem: Protocol.Semaphore, capacity: int, trace: seq<Event>, ghost acquired0: int, ghost released0: int)
    returns (after: seq<Event>)
    requires Consistent(sem, capacity, trace, acquired0, released0)
    requires Held(trace) >= 1
    ensures Consistent(sem, capacity, after, acquired0, released0)
    ensures Held(after) == Held(trace) - 1
    ensures WorkerSteps(after) == WorkerSteps(trace) + [Launch]
  {
    assert trace[..|trace|] == trace;
    assert Sound(capacity, trace[..|trace|]);
    Append(capacity, trace, Launch);
    after := trace + [Launch];
  }

  /** One pass of the worker loop, attempt number `i`: take a slot, wait
      for the connection within the timeout; on a timeout give the slot
      back, otherwise leave it to the new session and, for the first
      `concurrent` attempts, sleep for the ramp-up. */
  method OneAttempt(sem: Protocol.Semaphore, concurrent: int, trace: seq<Event>, i: nat, rampUp: bool,
                    ghost acquired0: int, ghost released0: int)
    returns (attempt: Attempt, after: seq<Event>)
    requires Consistent(sem, concurrent, trace, acquired0, released0)
    requires Held(trace) == 0 && concurrent >= 1
    modifies sem
    ensures Consistent(sem, concurrent, after, acquired0, released0)
    ensures Held(after) == 0
    ensures WorkerSteps(after) == WorkerSteps(trace) + [Take, if attempt.connected then Launch else GiveBack]
    ensures attempt.rampUp <==> rampUp && attempt.connected && i < concurrent
  {
    after := AcquireSlot(sem, concurrent, trace, acquired0, released0);
    // await the connection, bounded by the connection timeout
    after := SessionsClose(sem, concurrent, after, false, acquired0, released0);
    var connected: bool :| true;
    if !connected {
      after := GiveSlotBack(sem, concurrent, after, acquired0, released0);
      attempt := Attempt(false, false);
      return;
    }
    // the new session holds the slot until its onClose
    after := LaunchSession(sem, concurrent, after, acquired0, released0);
    var ramp := rampUp && i < concurrent;
    if ramp {
      after := SessionsClose(sem, concurrent, after, false, acquired0, released0);
    }
    attempt := Attempt(true, ramp);
  }

  /** The final drain: acquire the semaphore `capacity` times, once per
      slot, so that it returns only once every session has closed. */
  method Drain(sem: Protocol.Semaphore, capacity: int, trace: seq<Event>, ghost acquired0: int, ghost released0: int)
    returns (after: seq<Event>)
    requires Consistent(sem, capacity, trace, acquired0, released0)
    requires Held(trace) == 0 && capacity >= 0
    modifies sem
    ensures Consistent(sem, capacity, after, acquired0, released0)
    ensures Held(after) == capacity
    ensures WorkerSteps(after) == WorkerSteps(trace) + Takes(capacity)
  {
    after := trace;
    var held := 0;
    while held < capacity
      invariant 0 <= held <= capacity
      invariant Consistent(sem, capacity, after, acquired0, released0) && Held(after) == held
      invariant WorkerSteps(after) == WorkerSteps(trace) + Takes(held)
    {
      after := AcquireSlot(sem, capacity, after, acquired0, released0);
      assert Takes(held + 1) == Takes(held) + [Take];
      held := held + 1;
    }
  }

  /** The loop of the worker up to `i == total`: `total` attempts, one
      after the other. */
  method AttemptLoop(sem: Protocol.Semaphore, total: int, concurrent: int, rampUp: bool,
                     ghost acquired0: int, ghost released0: int)
    returns (attempts: seq<Attempt>, trace: seq<Event>)
    requires total >= 1 && concurrent >= 1
    requires Consistent(sem, concurrent, [], acquired0, released0)
    modifies sem
    ensures |attempts| == total
    ensures forall k :: 0 <= k < |attempts| ==>
              (attempts[k].rampUp <==> rampUp && attempts[k].connected && k < concurrent)
    ensures Consistent(sem, concurrent, trace, acquired0, released0) && Held(trace) == 0
    ensures WorkerSteps(trace) == AttemptSteps(attempts)
  {
    var i := 0;
    attempts, trace := [], [];
    while true
      invariant 0 <= i < total && |attempts| == i
      invariant forall k :: 0 <= k < |attempts| ==>
                  (attempts[k].rampUp <==> rampUp && attempts[k].connected && k < concurrent)
      invariant Consistent(sem, concurrent, trace, acquired0, released0) && Held(trace) == 0
      invariant WorkerSteps(trace) == AttemptSteps(attempts)
      decreases total - i
    {
      var attempt;
      attempt, trace := OneAttempt(sem, concurrent, trace, i, rampUp, acquired0, released0);
      assert (attempts + [attempt])[..i] == attempts;
      attempts := attempts + [attempt];
      i := i + 1;
      if i == total {
        break;
      }
    }
  }

  /** A drained trace: the worker holds every slot, so none is free and no
      session is in flight, and each launched session has closed. */
  lemma Drained(capacity: int, trace: seq<Event>, attempts: seq<Attempt>)
    requires SoundThroughout(capacity, trace) && Held(trace) == capacity
    requires WorkerSteps(trace) == AttemptSteps(attempts) + Takes(capacity)
    ensures Free(capacity, trace) == 0 && InFlight(trace) == 0
    ensures Count(trace, Take) == |attempts| + capacity
    ensures Count(trace, GiveBack) == TimedOut(attempts)
    ensures Count(trace, Closed) == Launched(attempts)
  {
    assert trace[..|trace|] == trace;
    assert Sound(capacity, trace[..|trace|]);
    WorkerCounts(trace, attempts, capacity);
  }

  /** The worker. It needs total >= 1 (otherwise `i == total` never holds)
      and concurrent >= 1 (otherwise the first acquire never returns). It
      makes exactly `total` attempts; each takes a slot from the semaphore
      and either gives it back on a timeout or leaves it to the session it
      opened, and the drain then takes `concurrent` more. It sleeps for
      ramp-up exactly after the attempts that connected while their index
      was below `concurrent`. Along the way no count of slots goes
      negative, so at most `concurrent` sessions are ever in flight
      (InFlightBound), and it ends holding every slot, after every session
      it opened has closed. */
  method Worker(sem: Protocol.Semaphore, total: int, concurrent: int, rampUp: bool)
    returns (attempts: seq<Attempt>, trace: seq<Event>)
    requires total >= 1 && concurrent >= 1 && sem.permits == concurrent
    modifies sem
    ensures |attempts| == total
    ensures forall k :: 0 <= k < |attempts| ==>
              (attempts[k].rampUp <==> rampUp && attempts[k].connected && k < concurrent)
    ensures WorkerSteps(trace) == AttemptSteps(attempts) + Takes(concurrent)
    ensures SoundThroughout(concurrent, trace)
    ensures Tracks(sem, concurrent, trace, old(sem.acquired), old(sem.released))
    ensures sem.acquired == old(sem.acquired) + total + concurrent
    ensures sem.released == old(sem.released) + TimedOut(attempts) + Launched(attempts)
    ensures Count(trace, Closed) == Launched(attempts) && InFlight(trace) == 0
    ensures sem.permits == 0
  {
    ghost var acquired0, released0 := sem.acquired, sem.released;
    ghost var empty: seq<Event> := [];
    assert empty[..0] == empty;
    attempts, trace := AttemptLoop(sem, total, concurrent, rampUp, acquired0, released0);
    // wait for all of them to finish
    trace := Drain(sem, concurrent, trace, acquired0, released0);
    Drained(concurrent, trace, attempts);
  }
}
