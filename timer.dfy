/** utility.RecurringTimer on an integer millisecond clock: `Check` reports how
    many whole periods have elapsed since the previous check, carrying the
    remainder over. The current time is a parameter instead of a clock read. */
module Timer {
  import opened Wrappers

  class RecurringTimer {
    /** The period, in milliseconds (the source asserts it is positive). */
    const period: int
    /** The time of the last start or check, None before the first. */
    var lastTime: Option<int>
    /** Time elapsed since the last whole period was counted. */
    var accumulated: int

    ghost predicate Valid()
      reads this
    {
      period > 0 && 0 <= accumulated < period
    }

    constructor (p: int)
      requires p > 0
      ensures Valid() && period == p && lastTime == None && accumulated == 0
    {
      period := p;
      lastTime := None;
      accumulated := 0;
    }

    /** RecurringTimer.start. */
    method Start(now: int)
      modifies this
      ensures lastTime == Some(now) && accumulated == old(accumulated)
    {
      lastTime := Some(now);
    }

    /** RecurringTimer.check. The first call only starts the timer; a clock that
        went backwards counts nothing and changes nothing. Otherwise the elapsed
        time joins the accumulator and every whole period in it is counted: the
        accumulated time before plus the elapsed time is exactly `amount` periods
        plus what remains accumulated, and less than one period remains. */
    method Check(now: int) returns (amount: int)
      requires Valid()
      modifies this
      ensures Valid()
      ensures old(lastTime).None? ==> amount == 0 && lastTime == Some(now) && accumulated == old(accumulated)
      ensures old(lastTime).Some? && now < old(lastTime).value ==>
                amount == 0 && lastTime == old(lastTime) && accumulated == old(accumulated)
      ensures old(lastTime).Some? && now >= old(lastTime).value ==>
                && lastTime == Some(now)
                && amount >= 0
                && old(accumulated) + (now - old(lastTime).value) == amount * period + accumulated
    {
      if lastTime.None? {
        Start(now);
        return 0;
      }
      if now < lastTime.value {
        return 0;
      }
      var delta := now - lastTime.value;
      accumulated := accumulated + delta;
      amount := accumulated / period;
      if amount != 0 {
        var remainder := accumulated % period;
        accumulated := remainder;
        assert remainder < period;
      }
      lastTime := Some(now);
    }
  }
}
