/**
 * The special-offer countdown: once a second the displayed days, hours,
 * minutes and seconds go down by one second, borrowing from the larger
 * units; when everything is zero it starts again from 2d 14h 36m 51s,
 * which is also where it starts.
 */
module Countdown {

  datatype CountdownState = CountdownState(days: int, hours: int, minutes: int, seconds: int)

  /** The first value shown and the value the countdown restarts from. */
  const Start: CountdownState := CountdownState(2, 14, 36, 51)

  const Zero: CountdownState := CountdownState(0, 0, 0, 0)

  /** The time a state shows, in seconds. */
  function TotalSeconds(c: CountdownState): int {
    c.days * 86400 + c.hours * 3600 + c.minutes * 60 + c.seconds
  }

  /** Every unit within its clock range. */
  predicate InRange(c: CountdownState) {
    c.days >= 0 && 0 <= c.hours < 24 && 0 <= c.minutes < 60 && 0 <= c.seconds < 60
  }

  predicate NonNegative(c: CountdownState) {
    c.days >= 0 && c.hours >= 0 && c.minutes >= 0 && c.seconds >= 0
  }

  /**
   * One tick of the interval. It keeps a state in range, takes exactly one
   * second off any non-negative state but zero, and restarts zero.
   */
  function Tick(prev: CountdownState): (next: CountdownState)
    ensures InRange(prev) ==> InRange(next)
    ensures NonNegative(prev) && prev != Zero ==> TotalSeconds(next) == TotalSeconds(prev) - 1
    ensures prev == Zero ==> next == Start
  {
    var CountdownState(days, hours, minutes, seconds) := prev;
    if seconds > 0 then
      CountdownState(days, hours, minutes, seconds - 1)
    else if minutes > 0 then
      CountdownState(days, hours, minutes - 1, 59)
    else if hours > 0 then
      CountdownState(days, hours - 1, 59, 59)
    else if days > 0 then
      CountdownState(days - 1, 23, 59, 59)
    else
      Start
  }

  /** A positive seconds field is the only thing a tick changes. */
  lemma TickSecondsOnly(prev: CountdownState)
    requires prev.seconds > 0
    ensures Tick(prev) == prev.(seconds := prev.seconds - 1)
  {
  }

  /**
   * At zero seconds the seconds wrap to 59 and the tick borrows from the
   * first positive unit among minutes, hours and days, setting the units
   * below it to their maximum.
   */
  lemma TickBorrows(prev: CountdownState)
    requires prev.seconds <= 0 && !(prev.minutes <= 0 && prev.hours <= 0 && prev.days <= 0)
    ensures Tick(prev).seconds == 59
    ensures prev.minutes > 0 ==> Tick(prev) == prev.(minutes := prev.minutes - 1, seconds := 59)
    ensures prev.minutes <= 0 && prev.hours > 0 ==>
              Tick(prev) == prev.(hours := prev.hours - 1, minutes := 59, seconds := 59)
    ensures prev.minutes <= 0 && prev.hours <= 0 ==>
              Tick(prev) == CountdownState(prev.days - 1, 23, 59, 59)
  {
  }

  lemma TickStep(c: CountdownState)
    requires InRange(c) && c != Zero
    ensures InRange(Tick(c)) && TotalSeconds(Tick(c)) == TotalSeconds(c) - 1
  {
  }

  /** The state after `n` ticks. */
  function Ticks(c: CountdownState, n: nat): CountdownState {
    if n == 0 then c else Tick(Ticks(c, n - 1))
  }

  /** In range, only the zero state shows no time left. */
  lemma OnlyZeroIsEmpty(c: CountdownState)
    requires InRange(c) && TotalSeconds(c) == 0
    ensures c == Zero
  {
  }

  /** From an in-range state, every tick until zero takes off one second. */
  lemma {:induction false} TicksCountDown(c: CountdownState, n: nat)
    requires InRange(c) && n <= TotalSeconds(c)
    ensures InRange(Ticks(c, n)) && TotalSeconds(Ticks(c, n)) == TotalSeconds(c) - n
  {
    if n > 0 {
      TicksCountDown(c, n - 1);
      var before := Ticks(c, n - 1);
      assert before != Zero by {
        assert TotalSeconds(before) >= 1;
      }
      TickStep(before);
    }
  }

  /** An in-range countdown reaches zero after as many ticks as it has seconds. */
  lemma ReachesZero(c: CountdownState)
    requires InRange(c)
    ensures TotalSeconds(c) >= 0
    ensures Ticks(c, TotalSeconds(c)) == Zero
  {
    TicksCountDown(c, TotalSeconds(c));
    OnlyZeroIsEmpty(Ticks(c, TotalSeconds(c)));
  }

  /** The countdown repeats: it shows its start again every 225412 ticks. */
  lemma Cycles()
    ensures TotalSeconds(Start) == 225411
    ensures Ticks(Start, 225412) == Start
  {
    ReachesZero(Start);
  }
}
