/** The clock of the game's event loop (mp2/adventure.c): when the next tick is due, how late
    ticks are skipped, and which clock readings let the loop handle an event. */
module TickClock {

  const TICK_USEC := 50000
  const SECOND := 1000000

  datatype Timeval = Timeval(sec: int, usec: int)

  function Micros(t: Timeval): int {
    t.sec * SECOND + t.usec
  }

  /** A time as the operating system reports it. */
  predicate Reading(t: Timeval) {
    0 <= t.usec < SECOND
  }

  /** time_is_after. */
  predicate IsAfter(t1: Timeval, t2: Timeval) {
    if t1.sec == t2.sec then t1.usec >= t2.usec else t1.sec > t2.sec
  }

  /** Tick times may have a whole second in their microseconds.  Of all pairs of such times, the
      comparison is wrong for one kind only: a whole second, against the next second's start. */
  lemma IsAfterExact(t1: Timeval, t2: Timeval)
    requires 0 <= t1.usec <= SECOND && 0 <= t2.usec <= SECOND
    ensures (IsAfter(t1, t2) <==> Micros(t1) >= Micros(t2))
            <==> !(t1.usec == SECOND && t2.usec == 0 && t2.sec == t1.sec + 1)
  {
  }

  /** The wrong kind needs a whole second on the left, where the loop puts only readings. */
  lemma ReadingsCompareExactly(now: Timeval, tick: Timeval)
    requires Reading(now) && 0 <= tick.usec <= SECOND
    ensures IsAfter(now, tick) <==> Micros(now) >= Micros(tick)
  {
    IsAfterExact(now, tick);
  }

  // ----- the simple view: slots of one tick each -----

  /** The number of whole ticks between start and t. */
  function Slot(start: int, t: Timeval): int {
    (Micros(t) - start) / TICK_USEC
  }

  /** The readings that let the loop handle an event: each is the first past its predecessor's slot. */
  function Events(start: int, last: int, readings: seq<Timeval>): seq<Timeval>
    decreases |readings|
  {
    if readings == [] then []
    else if Slot(start, readings[0]) > last then
      [readings[0]] + Events(start, Slot(start, readings[0]), readings[1..])
    else
      Events(start, last, readings[1..])
  }

  /** At most one event in a slot, so n + 1 events take more than n - 1 ticks. */
  lemma {:induction false} OneEventPerSlot(start: int, last: int, readings: seq<Timeval>, i: nat, j: nat)
    requires i < j < |Events(start, last, readings)|
    ensures var events := Events(start, last, readings);
            && last + j - i < Slot(start, events[i]) + j - i <= Slot(start, events[j])
            && Micros(events[j]) - Micros(events[i]) > (j - i - 1) * TICK_USEC
    decreases |readings|
  {
    var events := Events(start, last, readings);
    if Slot(start, readings[0]) <= last {
      OneEventPerSlot(start, last, readings[1..], i, j);
    } else if i > 0 {
      OneEventPerSlot(start, Slot(start, readings[0]), readings[1..], i - 1, j - 1);
    } else {
      var later := Events(start, Slot(start, readings[0]), readings[1..]);
      EventsAreLate(start, Slot(start, readings[0]), readings[1..]);
      if j > 1 {
        OneEventPerSlot(start, Slot(start, readings[0]), readings[1..], 0, j - 1);
      }
      assert events[j] == later[j - 1];
    }
  }

  lemma {:induction false} EventsAreLate(start: int, last: int, readings: seq<Timeval>)
    ensures forall e | e in Events(start, last, readings) :: Slot(start, e) > last
    decreases |readings|
  {
    if readings != [] {
      EventsAreLate(start, if Slot(start, readings[0]) > last then Slot(start, readings[0]) else last, readings[1..]);
    }
  }

  /** As long as the clock does not go back, every slot in which it is read has an event. */
  lemma {:induction false} EverySlotRead(start: int, last: int, readings: seq<Timeval>, k: nat)
    requires k < |readings| && Slot(start, readings[k]) > last
    requires forall i, j | 0 <= i < j < |readings| :: Micros(readings[i]) <= Micros(readings[j])
    ensures exists e | e in Events(start, last, readings) :: Slot(start, e) == Slot(start, readings[k])
    decreases |readings|
  {
    var first := Slot(start, readings[0]);
    if first > last {
      if first == Slot(start, readings[k]) {
        assert readings[0] in Events(start, last, readings);
      } else {
        EverySlotRead(start, first, readings[1..], k - 1);
      }
    } else {
      EverySlotRead(start, last, readings[1..], k - 1);
    }
  }

  /** After an event at time e, the next event is at least a tick away, whatever the clock reads
      from then on. */
  ghost predicate NextIsATickAway(start: int, e: Timeval) {
    forall readings: seq<Timeval> |
      (forall r | r in readings :: Reading(r)) && Events(start, Slot(start, e), readings) != [] ::
      Micros(Events(start, Slot(start, e), readings)[0]) - Micros(e) >= TICK_USEC
  }

  /** A tick is the least time from an event to the next exactly for events handled right on a tick;
      an event handled late leaves less than a tick to the next. */
  lemma LeastTimeBetweenEvents(start: int, e: Timeval)
    ensures NextIsATickAway(start, e) <==> (Micros(e) - start) % TICK_USEC == 0
  {
    var slot := Slot(start, e);
    if (Micros(e) - start) % TICK_USEC == 0 {
      forall readings: seq<Timeval> | Events(start, slot, readings) != []
        ensures Micros(Events(start, slot, readings)[0]) - Micros(e) >= TICK_USEC
      {
        EventsAreLate(start, slot, readings);
        assert Slot(start, Events(start, slot, readings)[0]) > slot;
      }
    } else {
      var next := start + (slot + 1) * TICK_USEC;
      var r := Timeval(next / SECOND, next % SECOND);
      assert Micros(r) == next && Slot(start, r) == slot + 1;
      assert Events(start, slot, [r])[0] == r && Reading(r);
      assert Micros(r) - Micros(e) < TICK_USEC;
    }
  }

  // ----- the loop's clock -----

  class Clock {
    var tickTime: Timeval
    ghost const start: int
    /** The slot that the tick begins. */
    ghost var slot: nat

    ghost predicate Valid()
      reads this
    {
      && 0 < tickTime.usec <= SECOND && slot > 0
      && Micros(tickTime) == start + slot * TICK_USEC
    }

    constructor (now: Timeval)
      requires Reading(now)
      ensures Valid() && start == Micros(now) && slot == 1
    {
      start, slot := Micros(now), 1;
      var usec := now.usec + TICK_USEC;
      tickTime := if usec > SECOND then Timeval(now.sec + 1, usec - SECOND) else Timeval(now.sec, usec);
    }

    /** The loop that waits for the tick: how far it reads the clock. */
    method WaitForTick(readings: seq<Timeval>, from: nat) returns (at: nat)
      requires Valid() && from <= |readings| && forall r | r in readings :: Reading(r)
      ensures from <= at <= |readings|
      ensures forall k | from <= k < at :: Slot(start, readings[k]) < slot
      ensures at < |readings| ==> Slot(start, readings[at]) >= slot
    {
      at := from;
      while at < |readings| && !IsAfter(readings[at], tickTime)
        invariant from <= at <= |readings|
        invariant forall k | from <= k < at :: Slot(start, readings[k]) < slot
      {
        ReadingsCompareExactly(readings[at], tickTime);
        at := at + 1;
      }
      if at < |readings| {
        ReadingsCompareExactly(readings[at], tickTime);
      }
    }

    /** The loop that skips missed ticks: the next tick is the first one still to come. */
    method CatchUp(now: Timeval)
      requires Valid() && Reading(now) && Micros(tickTime) <= Micros(now)
      modifies this
      ensures Valid() && Micros(now) < Micros(tickTime) <= Micros(now) + TICK_USEC
      ensures slot == Slot(start, now) + 1
    {
      var again := true;
      while again
        invariant Valid() && (again ==> Micros(tickTime) <= Micros(now))
        invariant Micros(tickTime) <= Micros(now) + TICK_USEC
        invariant again <==> IsAfter(now, tickTime)
        decreases Micros(now) - Micros(tickTime) + TICK_USEC
      {
        var usec := tickTime.usec + TICK_USEC;
        tickTime := if usec > SECOND then Timeval(tickTime.sec + 1, usec - SECOND) else Timeval(tickTime.sec, usec);
        slot := slot + 1;
        again := IsAfter(now, tickTime);
        ReadingsCompareExactly(now, tickTime);
      }
    }

    /** The event loop's timing: it handles an event at the first reading in each slot. */
    method Run(readings: seq<Timeval>) returns (events: seq<Timeval>)
      requires Valid() && forall r | r in readings :: Reading(r)
      modifies this
      ensures Valid() && events == Events(start, old(slot) - 1, readings)
    {
      hide IsAfter;
      events := [];
      var at := 0;
      while at < |readings|
        invariant Valid() && at <= |readings|
        invariant Events(start, old(slot) - 1, readings) == events + Events(start, slot - 1, readings[at..])
      {
        var next := WaitForTick(readings, at);
        NothingDue(start, slot - 1, readings, at, next);
        at := next;
        if at < |readings| {
          assert readings[at..][1..] == readings[at + 1..];
          CatchUp(readings[at]);
          events := events + [readings[at]];
          at := at + 1;
        }
      }
    }
  }

  lemma {:induction false} NothingDue(start: int, last: int, readings: seq<Timeval>, from: nat, until: nat)
    requires from <= until <= |readings|
    requires forall k | from <= k < until :: Slot(start, readings[k]) <= last
    ensures Events(start, last, readings[from..]) == Events(start, last, readings[until..])
    decreases |readings| - from
  {
    if from < until {
      assert readings[from..][1..] == readings[from + 1..];
      NothingDue(start, last, readings, from + 1, until);
    }
  }
}
