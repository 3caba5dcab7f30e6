/** CPU usage fractions from jiffy counters: 64-bit counters with wrap-around, real fractions. */
module Usage {
  import opened Common
  import opened CpuStat

  /** The unbounded sum of all counters. */
  function Sum(c: CpuTimes): nat {
    c.user as int + c.nice as int + c.system as int + c.idle as int
    + c.iowait as int + c.irq as int + c.softirq as int + c.steal as int
  }

  function Rest(c: CpuTimes): nat { c.idle as int + c.iowait as int }

  function Busy(c: CpuTimes): nat { Sum(c) - Rest(c) }

  /** Jiffies that passed between two readings, and how many of them were busy. */
  function Elapsed(prev: CpuTimes, cur: CpuTimes): int { Sum(cur) - Sum(prev) }

  function BusyGained(prev: CpuTimes, cur: CpuTimes): int { Busy(cur) - Busy(prev) }

  /** CPUTimes.Total and CPUTimes.Idleness, as uint64 computes them. */
  function Total(c: CpuTimes): u64 { Wrap(Sum(c)) }

  function Idleness(c: CpuTimes): u64 { Wrap(Rest(c)) }

  function Clamp01(f: real): real { if f < 0.0 then 0.0 else if f > 1.0 then 1.0 else f }

  /** The fraction before clamping. */
  function Fraction(idle: nat, total: nat): real
    requires total > 0
  {
    1.0 - idle as real / total as real
  }

  lemma NoWrap(x: int)
    requires -TWO64 <= x < TWO64
    ensures Wrap(x) as int == if x < 0 then x + TWO64 else x
  {
  }

  /** The guards and the division, on the two readings' totals and idle counters. */
  function UsageBetween(pt: u64, ct: u64, prevIdle: u64, curIdle: u64): real {
    if ct <= pt then 0.0
    else
      NoWrap(ct as int - pt as int);
      var totalD := Wrap(ct as int - pt as int);
      var idleD := Wrap(curIdle as int - prevIdle as int);
      if idleD > totalD then 0.0
      else Clamp01(Fraction(idleD as int, totalD as int))
  }

  function UsageDelta(prev: CpuTimes, cur: CpuTimes): real {
    UsageBetween(Total(prev), Total(cur), Idleness(prev), Idleness(cur))
  }

  function UsageSinceBoot(c: CpuTimes): real {
    if Total(c) == 0 then 0.0 else Clamp01(Fraction(Idleness(c) as int, Total(c) as int))
  }

  lemma FractionRange(idle: nat, total: nat)
    requires total > 0 && idle <= total
    ensures 0.0 <= Fraction(idle, total) <= 1.0
    ensures Clamp01(Fraction(idle, total)) == Fraction(idle, total)
    ensures Fraction(idle, total) * total as real == (total - idle) as real
  {
    var i, t := idle as real, total as real;
    assert (i / t) * t == i;
    assert i / t <= 1.0 by { if i / t > 1.0 { assert (i / t) * t > 1.0 * t; } }
    assert (1.0 - i / t) * t == t - i;
  }

  /** Whatever the counters and however they wrap, the guards keep the fraction in [0, 1] before the clamp. */
  lemma GuardsBoundUsage(prev: CpuTimes, cur: CpuTimes)
    ensures 0.0 <= UsageDelta(prev, cur) <= 1.0
    ensures UsageDelta(prev, cur) != 0.0 ==>
              var totalD, idleD := Total(cur) as int - Total(prev) as int,
                                   Wrap(Idleness(cur) as int - Idleness(prev) as int) as int;
              && 0 < totalD && idleD <= totalD && UsageDelta(prev, cur) == Fraction(idleD, totalD)
  {
    hide Fraction, Sum, Rest;
    var pt, ct := Total(prev), Total(cur);
    var idleD := Wrap(Idleness(cur) as int - Idleness(prev) as int);
    assert ct > pt ==> Wrap(ct as int - pt as int) == ct as int - pt as int;
    if ct > pt && idleD as int <= ct as int - pt as int {
      FractionRange(idleD as int, ct as int - pt as int);
    }
  }

  /** The sum of the eight counters does not overflow. */
  predicate Fits(c: CpuTimes) {
    c.user as int + c.nice as int + c.system as int + c.idle as int
    + c.iowait as int + c.irq as int + c.softirq as int + c.steal as int < 0x1_0000_0000_0000_0000
  }

  /** Busy is everything but idle and iowait. */
  lemma CountersSpelledOut(c: CpuTimes)
    ensures Rest(c) == c.idle as int + c.iowait as int
    ensures Busy(c) ==
            c.user as int + c.nice as int + c.system as int + c.irq as int + c.softirq as int + c.steal as int
    ensures Sum(c) ==
            c.user as int + c.nice as int + c.system as int + c.idle as int
            + c.iowait as int + c.irq as int + c.softirq as int + c.steal as int
  {
  }

  /** What the counters look like to the code when their sums do not overflow. */
  lemma FittingCounters(c: CpuTimes)
    requires Fits(c)
    ensures Total(c) == Sum(c) && Idleness(c) == Rest(c) && Rest(c) <= Sum(c)
  {
    NoWrap(Sum(c));
    NoWrap(Rest(c));
  }

  /** An idle counter that fell wraps to more than any total difference. */
  lemma WrappedIdleExceedsTotal(prev: CpuTimes, cur: CpuTimes)
    requires Fits(prev) && Fits(cur) && Sum(prev) < Sum(cur) && Rest(cur) < Rest(prev)
    ensures Wrap(Idleness(cur) as int - Idleness(prev) as int) as int > Sum(cur) - Sum(prev)
  {
    FittingCounters(prev);
    FittingCounters(cur);
    hide Sum, Rest, Wrap;
    NoWrap(Rest(cur) - Rest(prev));
  }

  /** The guards, in terms of the unbounded counters. */
  lemma UsageCases(prev: CpuTimes, cur: CpuTimes)
    requires Fits(prev) && Fits(cur)
    ensures var totalD, idleD := Sum(cur) - Sum(prev), Rest(cur) - Rest(prev);
            totalD == Elapsed(prev, cur) && UsageDelta(prev, cur) ==
              if totalD <= 0 || idleD < 0 || idleD > totalD then 0.0 else Clamp01(Fraction(idleD, totalD))
  {
    FittingCounters(prev);
    FittingCounters(cur);
    hide Sum, Rest, Fraction, Clamp01, Wrap, Total, Idleness;
    if Sum(cur) > Sum(prev) {
      NoWrap(Sum(cur) - Sum(prev));
      NoWrap(Rest(cur) - Rest(prev));
      if Rest(cur) < Rest(prev) { WrappedIdleExceedsTotal(prev, cur); }
    }
  }

  /**
   usageDelta is 0 when the eight counters together did not advance, when idle and iowait
   together fell, or when the other six together fell.
   */
  lemma UsageZero(prev: CpuTimes, cur: CpuTimes)
    requires Fits(prev) && Fits(cur)
    requires var user, nice, system, idle := cur.user as int - prev.user as int, cur.nice as int - prev.nice as int,
                                             cur.system as int - prev.system as int, cur.idle as int - prev.idle as int;
             var iowait, irq := cur.iowait as int - prev.iowait as int, cur.irq as int - prev.irq as int;
             var softirq, steal := cur.softirq as int - prev.softirq as int, cur.steal as int - prev.steal as int;
             || user + nice + system + idle + iowait + irq + softirq + steal <= 0
             || idle + iowait < 0
             || user + nice + system + irq + softirq + steal < 0
    ensures UsageDelta(prev, cur) == 0.0
  {
    hide Sum, Rest, Busy, UsageDelta, Clamp01, Fraction;
    UsageCases(prev, cur);
    CountersSpelledOut(prev);
    CountersSpelledOut(cur);
    BusyIsRest(prev);
    BusyIsRest(cur);
  }

  lemma BusyIsRest(c: CpuTimes)
    ensures Busy(c) == Sum(c) - Rest(c)
  {
  }

  lemma ScaledBack(u: real, idle: nat, total: nat, busy: int)
    requires total > 0 && idle <= total && u == Clamp01(Fraction(idle, total)) && busy == total - idle
    ensures u * total as real == busy as real
  {
    FractionRange(idle, total);
  }

  lemma UsageRatio(prev: CpuTimes, cur: CpuTimes) returns (idle: nat)
    requires Fits(prev) && Fits(cur)
    requires Sum(cur) > Sum(prev) && Rest(cur) >= Rest(prev) && Busy(cur) >= Busy(prev)
    ensures idle <= Elapsed(prev, cur) && BusyGained(prev, cur) == Elapsed(prev, cur) - idle
    ensures Elapsed(prev, cur) > 0 && UsageDelta(prev, cur) == Clamp01(Fraction(idle, Elapsed(prev, cur)))
  {
    hide Sum, Rest, Fraction, Clamp01, UsageDelta, Fits;
    UsageCases(prev, cur);
    idle := Rest(cur) - Rest(prev);
  }

  lemma UsageScaled(prev: CpuTimes, cur: CpuTimes)
    requires Fits(prev) && Fits(cur)
    requires Sum(cur) > Sum(prev) && Rest(cur) >= Rest(prev) && Busy(cur) >= Busy(prev)
    ensures UsageDelta(prev, cur) * Elapsed(prev, cur) as real == BusyGained(prev, cur) as real
  {
    hide *;
    var idle := UsageRatio(prev, cur);
    ScaledBack(UsageDelta(prev, cur), idle, Elapsed(prev, cur), BusyGained(prev, cur));
  }

  /** Every counter at least as high as before. */
  predicate Advances(prev: CpuTimes, cur: CpuTimes) {
    && prev.user <= cur.user && prev.nice <= cur.nice && prev.system <= cur.system && prev.idle <= cur.idle
    && prev.iowait <= cur.iowait && prev.irq <= cur.irq && prev.softirq <= cur.softirq && prev.steal <= cur.steal
  }

  lemma AdvancesTogether(prev: CpuTimes, cur: CpuTimes)
    requires Advances(prev, cur)
    ensures Sum(prev) <= Sum(cur) && Rest(prev) <= Rest(cur) && Busy(prev) <= Busy(cur)
    ensures Elapsed(prev, cur) >= BusyGained(prev, cur) >= 0
  {
  }

  lemma UsageScales(prev: CpuTimes, cur: CpuTimes)
    requires Fits(prev) && Fits(cur) && Advances(prev, cur)
    ensures UsageDelta(prev, cur) * Elapsed(prev, cur) as real == BusyGained(prev, cur) as real
  {
    AdvancesTogether(prev, cur);
    hide Fits, Advances, UsageDelta, Sum, Rest, Busy;
    if Sum(cur) > Sum(prev) { UsageScaled(prev, cur); }
  }

  lemma BootScales(c: CpuTimes)
    requires Fits(c)
    ensures 0.0 <= UsageSinceBoot(c) <= 1.0
    ensures UsageSinceBoot(c) * Sum(c) as real == Busy(c) as real
  {
    FittingCounters(c);
    hide Sum, Rest, Fraction, Clamp01, Wrap;
    if Sum(c) > 0 { FractionRange(Rest(c), Sum(c)); }
  }

  lemma NothingCounted(c: CpuTimes)
    requires Fits(c)
    ensures Sum(c) == 0 ==> UsageSinceBoot(c) == 0.0
  {
    hide Rest, Fraction, Clamp01, Idleness;
    FittingCounters(c);
  }

  /** The jiffies between two readings, counter by counter. */
  lemma GainsSpelledOut(prev: CpuTimes, cur: CpuTimes)
    ensures Elapsed(prev, cur) ==
            (cur.user as int - prev.user as int) + (cur.nice as int - prev.nice as int)
            + (cur.system as int - prev.system as int) + (cur.idle as int - prev.idle as int)
            + (cur.iowait as int - prev.iowait as int) + (cur.irq as int - prev.irq as int)
            + (cur.softirq as int - prev.softirq as int) + (cur.steal as int - prev.steal as int)
    ensures BusyGained(prev, cur) ==
            (cur.user as int - prev.user as int) + (cur.nice as int - prev.nice as int)
            + (cur.system as int - prev.system as int) + (cur.irq as int - prev.irq as int)
            + (cur.softirq as int - prev.softirq as int) + (cur.steal as int - prev.steal as int)
  {
  }

  /**
   Usage times the jiffies gained by all eight counters is the jiffies gained by user, nice,
   system, irq, softirq and steal, also when none were gained: idle and iowait are not busy.
   */
  lemma UsageConserves(prev: CpuTimes, cur: CpuTimes)
    requires Fits(prev) && Fits(cur) && Advances(prev, cur)
    ensures var busy := (cur.user as int - prev.user as int) + (cur.nice as int - prev.nice as int)
                        + (cur.system as int - prev.system as int) + (cur.irq as int - prev.irq as int)
                        + (cur.softirq as int - prev.softirq as int) + (cur.steal as int - prev.steal as int);
            var waiting := (cur.idle as int - prev.idle as int) + (cur.iowait as int - prev.iowait as int);
            UsageDelta(prev, cur) * (busy + waiting) as real == busy as real
  {
    hide *;
    GainsSpelledOut(prev, cur);
    UsageScales(prev, cur);
  }

  /**
   The ratio itself: with some jiffies gained, and neither idle and iowait together nor the
   other six together fallen, usage is the gain of those six over the gain of all eight.
   */
  lemma UsageMeaning(prev: CpuTimes, cur: CpuTimes)
    requires Fits(prev) && Fits(cur)
    requires var busy := (cur.user as int - prev.user as int) + (cur.nice as int - prev.nice as int)
                         + (cur.system as int - prev.system as int) + (cur.irq as int - prev.irq as int)
                         + (cur.softirq as int - prev.softirq as int) + (cur.steal as int - prev.steal as int);
             var waiting := (cur.idle as int - prev.idle as int) + (cur.iowait as int - prev.iowait as int);
             busy >= 0 && waiting >= 0 && busy + waiting > 0
    ensures var busy := (cur.user as int - prev.user as int) + (cur.nice as int - prev.nice as int)
                        + (cur.system as int - prev.system as int) + (cur.irq as int - prev.irq as int)
                        + (cur.softirq as int - prev.softirq as int) + (cur.steal as int - prev.steal as int);
            var waiting := (cur.idle as int - prev.idle as int) + (cur.iowait as int - prev.iowait as int);
            UsageDelta(prev, cur) == busy as real / (busy + waiting) as real
  {
    hide Sum, Rest, Busy, UsageDelta, Fits, Elapsed, BusyGained;
    GainsSpelledOut(prev, cur);
    CountersSpelledOut(prev);
    CountersSpelledOut(cur);
    UsageScaled(prev, cur);
    Divided(UsageDelta(prev, cur), Elapsed(prev, cur), BusyGained(prev, cur));
  }

  lemma Divided(u: real, total: int, busy: int)
    requires total > 0 && u * total as real == busy as real
    ensures u == busy as real / total as real
  {
  }

  /** Usage since boot, on the eight counters. */
  lemma SinceBootMeaning(c: CpuTimes)
    requires Fits(c)
    ensures 0.0 <= UsageSinceBoot(c) <= 1.0
    ensures var busy := c.user as int + c.nice as int + c.system as int
                        + c.irq as int + c.softirq as int + c.steal as int;
            && UsageSinceBoot(c) * (busy + c.idle as int + c.iowait as int) as real == busy as real
            && (busy + c.idle as int + c.iowait as int == 0 ==> UsageSinceBoot(c) == 0.0)
  {
    hide Sum, Rest, Busy, UsageSinceBoot, Fits;
    CountersSpelledOut(c);
    BootScales(c);
    NothingCounted(c);
  }
}
