/** The metrics collector: usage over the interval since the previous successful read. */
module Collector {
  import opened Common
  import opened CpuStat
  import opened Usage

  /** What one Collect finds on disk: None where a source could not be read. */
  datatype Readings = Readings(stat: Option<Stat>, mem: bool, load: bool, uptime: bool, net: bool, disk: bool)

  predicate Complete(r: Readings) { r.stat.Some? && r.mem && r.load && r.uptime && r.net && r.disk }

  datatype CpuMetrics = CpuMetrics(usage: real, perCore: seq<real>)

  /** Usage of one line: against the previous reading if there is a usable one, else since boot. */
  function UsageOf(prev: Option<CpuTimes>, cur: CpuTimes): real {
    if prev.Some? then UsageDelta(prev.value, cur) else UsageSinceBoot(cur)
  }

  /** The baseline a reading is compared with: none after Reset or when the core count changed. */
  function Usable(prev: Option<Stat>, cur: Stat): Option<Stat> {
    if prev.Some? && |prev.value.perCpu| == |cur.perCpu| then prev else None
  }

  function AggregateOf(base: Option<Stat>): Option<CpuTimes> {
    if base.Some? then Some(base.value.total) else None
  }

  function CoreOf(base: Option<Stat>, i: nat): Option<CpuTimes>
    requires base.Some? ==> i < |base.value.perCpu|
  {
    if base.Some? then Some(base.value.perCpu[i]) else None
  }

  function CpuOf(prev: Option<Stat>, cur: Stat): (m: CpuMetrics)
    ensures |m.perCore| == |cur.perCpu|
  {
    var base := Usable(prev, cur);
    CpuMetrics(UsageOf(AggregateOf(base), cur.total),
               seq(|cur.perCpu|, i requires 0 <= i < |cur.perCpu| => UsageOf(CoreOf(base, i), cur.perCpu[i])))
  }

  class Collector {
    var prev: Stat
    var prevValid: bool

    constructor ()
      ensures Baseline() == None
    {
      prev, prevValid := Stat(ZERO, []), false;
    }

    ghost function Baseline(): Option<Stat>
      reads this
    {
      if prevValid then Some(prev) else None
    }

    method Reset()
      modifies this`prevValid
      ensures Baseline() == None
    {
      prevValid := false;
    }

    /** One frame; a read that fails leaves the baseline as it was. */
    method Collect(r: Readings) returns (m: Option<CpuMetrics>)
      modifies this
      ensures m.Some? <==> r.stat.Some? && r.mem && r.load && r.uptime && r.net && r.disk
      ensures m.None? ==> Baseline() == old(Baseline())
      ensures m.Some? ==> m.value == CpuOf(old(Baseline()), r.stat.value) && Baseline() == r.stat
    {
      if r.stat.None? { return None; }
      var cur := r.stat.value;
      if !r.mem { return None; }
      if !r.load { return None; }
      if !r.uptime { return None; }
      if !r.net { return None; }
      if !r.disk { return None; }
      var cpu := Cpu(cur);
      prev := Stat(cur.total, cur.perCpu);
      prevValid := true;
      return Some(cpu);
    }

    method Cpu(cur: Stat) returns (out: CpuMetrics)
      ensures out == CpuOf(Baseline(), cur)
    {
      var perCore := new real[|cur.perCpu|];
      if prevValid && |prev.perCpu| == |cur.perCpu| {
        var usage := UsageDelta(prev.total, cur.total);
        for i := 0 to |cur.perCpu|
          invariant forall k :: 0 <= k < i ==> perCore[k] == UsageDelta(prev.perCpu[k], cur.perCpu[k])
        {
          perCore[i] := UsageDelta(prev.perCpu[i], cur.perCpu[i]);
        }
        return CpuMetrics(usage, perCore[..]);
      }
      var usage := UsageSinceBoot(cur.total);
      for i := 0 to |cur.perCpu|
        invariant forall k :: 0 <= k < i ==> perCore[k] == UsageSinceBoot(cur.perCpu[k])
      {
        perCore[i] := UsageSinceBoot(cur.perCpu[i]);
      }
      return CpuMetrics(usage, perCore[..]);
    }
  }

  // ---------------------------------------------------------------- whole runs

  /** What the sampler does with the collector: Reset when it starts, then one Collect per tick. */
  method Drive(c: Collector, rs: seq<Readings>) returns (out: seq<CpuMetrics>)
    modifies c
    ensures out == Output(rs) && c.Baseline() == BaselineAfter(rs)
  {
    c.Reset();
    out := [];
    for k := 0 to |rs|
      invariant out == Output(rs[..k]) && c.Baseline() == BaselineAfter(rs[..k])
    {
      assert Front(rs[..k + 1]) == rs[..k] && Last(rs[..k + 1]) == rs[k];
      var m := c.Collect(rs[k]);
      if m.Some? { out := out + [m.value]; }
    }
    assert rs[..|rs|] == rs;
  }

  /** The stats of the successful reads. */
  function Stats(rs: seq<Readings>): seq<Stat> {
    if rs == [] then []
    else Stats(Front(rs)) + if Complete(Last(rs)) then [Last(rs).stat.value] else []
  }

  /** The collector's baseline after a run of Collects that began with Reset. */
  function BaselineAfter(rs: seq<Readings>): Option<Stat> {
    if rs == [] then None else if Complete(Last(rs)) then Last(rs).stat else BaselineAfter(Front(rs))
  }

  /** The frames the run produced. */
  function Output(rs: seq<Readings>): seq<CpuMetrics> {
    if rs == [] then []
    else Output(Front(rs)) + if Complete(Last(rs)) then [CpuOf(BaselineAfter(Front(rs)), Last(rs).stat.value)] else []
  }

  function Before(ss: seq<Stat>, k: nat): Option<Stat>
    requires k <= |ss|
  {
    if k == 0 then None else Some(ss[k - 1])
  }

  lemma LastReading(rs: seq<Readings>)
    requires rs != []
    ensures Stats(rs) == if Complete(Last(rs)) then Stats(Front(rs)) + [Last(rs).stat.value] else Stats(Front(rs))
    ensures BaselineAfter(rs) == if Complete(Last(rs)) then Last(rs).stat else BaselineAfter(Front(rs))
    ensures Output(rs) ==
            if Complete(Last(rs)) then Output(Front(rs)) + [CpuOf(BaselineAfter(Front(rs)), Last(rs).stat.value)]
            else Output(Front(rs))
  {
    hide CpuOf;
  }

  /** Failed reads do not show: every frame is computed from consecutive successful reads. */
  lemma {:induction false} FailuresDoNotShow(rs: seq<Readings>)
    ensures |Output(rs)| == |Stats(rs)|
    ensures BaselineAfter(rs) == Before(Stats(rs), |Stats(rs)|)
    ensures forall k :: 0 <= k < |Stats(rs)| ==> Output(rs)[k] == CpuOf(Before(Stats(rs), k), Stats(rs)[k])
  {
    hide CpuOf, Stats, Output, BaselineAfter;
    if rs == [] {
      NoReadings(rs);
    } else {
      FailuresDoNotShow(Front(rs));
      LastReading(rs);
    }
  }

  lemma NoReadings(rs: seq<Readings>)
    requires rs == []
    ensures Stats(rs) == [] && Output(rs) == [] && BaselineAfter(rs) == None
  {
  }

  /** One counter line followed through a run: every reading fits and advances from the one before. */
  predicate Climbs(ts: seq<CpuTimes>) {
    && (forall k :: 0 <= k < |ts| ==> Fits(ts[k]))
    && (forall k :: 0 < k < |ts| ==> Advances(ts[k - 1], ts[k]))
  }

  function Since(ts: seq<CpuTimes>): Option<CpuTimes> { if ts == [] then None else Some(Last(ts)) }

  /** Jiffies of all eight kinds covered by a reading: since the previous one, or since boot for the first. */
  function Weight(prev: Option<CpuTimes>, cur: CpuTimes): int {
    var p := if prev.Some? then prev.value else CpuTimes(0, 0, 0, 0, 0, 0, 0, 0);
    (cur.user as int - p.user as int) + (cur.nice as int - p.nice as int)
    + (cur.system as int - p.system as int) + (cur.idle as int - p.idle as int)
    + (cur.iowait as int - p.iowait as int) + (cur.irq as int - p.irq as int)
    + (cur.softirq as int - p.softirq as int) + (cur.steal as int - p.steal as int)
  }

  lemma WeightIsElapsed(prev: Option<CpuTimes>, cur: CpuTimes)
    ensures Weight(prev, cur) == if prev.Some? then Elapsed(prev.value, cur) else Sum(cur)
  {
  }

  /** The usages of a run, each weighted by the jiffies it covers. */
  function Weighted(us: seq<real>, ts: seq<CpuTimes>): real
    requires |us| == |ts|
  {
    if ts == [] then 0.0
    else Weighted(Front(us), Front(ts)) + Last(us) * Weight(Since(Front(ts)), Last(ts)) as real
  }

  lemma TermConserves(prev: Option<CpuTimes>, cur: CpuTimes)
    requires Fits(cur) && (prev.Some? ==> Fits(prev.value) && Advances(prev.value, cur))
    ensures UsageOf(prev, cur) * Weight(prev, cur) as real ==
            Busy(cur) as real - if prev.Some? then Busy(prev.value) as real else 0.0
  {
    hide Sum, UsageDelta, UsageSinceBoot, Rest, Weight, Fits, Advances;
    WeightIsElapsed(prev, cur);
    if prev.Some? {
      UsageScales(prev.value, cur);
    } else {
      BootScales(cur);
    }
  }

  lemma WeightedStep(us: seq<real>, ts: seq<CpuTimes>)
    requires |us| == |ts|
    ensures Weighted(us, ts) == if ts == [] then 0.0 else
              Weighted(Front(us), Front(ts)) + Last(us) * Weight(Since(Front(ts)), Last(ts)) as real
  {
  }

  lemma {:induction false} WeightedIsBusy(us: seq<real>, ts: seq<CpuTimes>)
    requires |us| == |ts| && Climbs(ts)
    requires forall k :: 0 <= k < |ts| ==> us[k] == UsageOf(Since(ts[..k]), ts[k])
    ensures Weighted(us, ts) == if ts == [] then 0.0 else Busy(Last(ts)) as real
  {
    hide Climbs, UsageOf, Weight, Busy, Weighted, Fits, Advances;
    WeightedStep(us, ts);
    if ts != [] {
      FrontClimbs(us, ts);
      WeightedIsBusy(Front(us), Front(ts));
      TermConserves(Since(Front(ts)), Last(ts));
    }
  }

  lemma FrontClimbs(us: seq<real>, ts: seq<CpuTimes>)
    requires ts != [] && |us| == |ts| && Climbs(ts)
    requires forall k :: 0 <= k < |ts| ==> us[k] == UsageOf(Since(ts[..k]), ts[k])
    ensures Climbs(Front(ts)) && Fits(Last(ts)) && Last(us) == UsageOf(Since(Front(ts)), Last(ts))
    ensures |ts| > 1 ==> Fits(Last(Front(ts))) && Advances(Last(Front(ts)), Last(ts))
    ensures forall k :: 0 <= k < |Front(ts)| ==> Front(us)[k] == UsageOf(Since(Front(ts)[..k]), Front(ts)[k])
  {
    hide Fits, Advances, UsageOf;
    forall k | 0 <= k < |Front(ts)| ensures Front(us)[k] == UsageOf(Since(Front(ts)[..k]), Front(ts)[k]) {
      assert Front(ts)[..k] == ts[..k];
    }
  }

  function Aggregates(ss: seq<Stat>): (r: seq<CpuTimes>)
    ensures |r| == |ss| && forall k :: 0 <= k < |ss| ==> r[k] == ss[k].total
  {
    seq(|ss|, k requires 0 <= k < |ss| => ss[k].total)
  }

  function Cores(ss: seq<Stat>, i: nat): (r: seq<CpuTimes>)
    requires forall k :: 0 <= k < |ss| ==> i < |ss[k].perCpu|
    ensures |r| == |ss| && forall k :: 0 <= k < |ss| ==> r[k] == ss[k].perCpu[i]
  {
    seq(|ss|, k requires 0 <= k < |ss| => ss[k].perCpu[i])
  }

  function Usages(ms: seq<CpuMetrics>): (r: seq<real>)
    ensures |r| == |ms| && forall k :: 0 <= k < |ms| ==> r[k] == ms[k].usage
  {
    seq(|ms|, k requires 0 <= k < |ms| => ms[k].usage)
  }

  function CoreUsages(ms: seq<CpuMetrics>, i: nat): (r: seq<real>)
    requires forall k :: 0 <= k < |ms| ==> i < |ms[k].perCore|
    ensures |r| == |ms| && forall k :: 0 <= k < |ms| ==> r[k] == ms[k].perCore[i]
  {
    seq(|ms|, k requires 0 <= k < |ms| => ms[k].perCore[i])
  }

  /** The run keeps one core count. */
  predicate Stable(ss: seq<Stat>, cores: nat) { forall k :: 0 <= k < |ss| ==> |ss[k].perCpu| == cores }

  lemma UsableBaseline(ss: seq<Stat>, cores: nat, k: nat)
    requires Stable(ss, cores) && k < |ss|
    ensures Usable(Before(ss, k), ss[k]) == Before(ss, k)
  {
  }

  lemma CoreUsage(ss: seq<Stat>, cores: nat, i: nat, k: nat)
    requires Stable(ss, cores) && k < |ss| && i < cores
    ensures CpuOf(Before(ss, k), ss[k]).perCore[i] ==
            UsageOf(if k == 0 then None else Some(ss[k - 1].perCpu[i]), ss[k].perCpu[i])
  {
  }

  lemma SinceBefore(ss: seq<Stat>, ts: seq<CpuTimes>, k: nat)
    requires |ts| == |ss| && k < |ss|
    ensures Since(ts[..k]) == if k == 0 then None else Some(ts[k - 1])
  {
  }

  lemma AggregateUsages(rs: seq<Readings>, cores: nat)
    requires Stable(Stats(rs), cores)
    ensures |Output(rs)| == |Stats(rs)|
    ensures forall k :: 0 <= k < |Output(rs)| ==>
              Output(rs)[k].usage == UsageOf(Since(Aggregates(Stats(rs))[..k]), Stats(rs)[k].total)
  {
    hide Output, Stats, UsageOf, BaselineAfter;
    FailuresDoNotShow(rs);
    var ss := Stats(rs);
    forall k | 0 <= k < |ss| ensures Output(rs)[k].usage == UsageOf(Since(Aggregates(ss)[..k]), ss[k].total) {
      UsableBaseline(ss, cores, k);
      SinceBefore(ss, Aggregates(ss), k);
    }
  }

  /**
   Conservation. After a Reset, over any run of Collects, failed ones among them, with one core
   count and counters that never fall or overflow, the aggregate usages weighted by the jiffies
   they cover add up to the final user, nice, system, irq, softirq and steal counters together.
   */
  lemma AggregateConserved(rs: seq<Readings>, cores: nat)
    requires Stable(Stats(rs), cores) && Climbs(Aggregates(Stats(rs))) && Stats(rs) != []
    ensures |Output(rs)| == |Stats(rs)|
    ensures var last := Last(Stats(rs)).total;
            Weighted(Usages(Output(rs)), Aggregates(Stats(rs))) ==
            (last.user as int + last.nice as int + last.system as int
             + last.irq as int + last.softirq as int + last.steal as int) as real
  {
    hide Climbs, UsageOf, Busy, Sum, Rest, Output, Stats, Weighted, Since;
    AggregateUsages(rs, cores);
    CountersSpelledOut(Last(Stats(rs)).total);
    WeightedIsBusy(Usages(Output(rs)), Aggregates(Stats(rs)));
  }

  lemma CoreCounts(rs: seq<Readings>, cores: nat, i: nat)
    requires Stable(Stats(rs), cores) && i < cores
    ensures |Output(rs)| == |Stats(rs)|
    ensures forall k :: 0 <= k < |Output(rs)| ==> i < |Output(rs)[k].perCore|
    ensures forall k :: 0 <= k < |Stats(rs)| ==> i < |Stats(rs)[k].perCpu|
    ensures forall k :: 0 <= k < |Output(rs)| ==>
              Output(rs)[k].perCore[i] == UsageOf(Since(Cores(Stats(rs), i)[..k]), Stats(rs)[k].perCpu[i])
  {
    hide Output, Stats, UsageOf, BaselineAfter;
    FailuresDoNotShow(rs);
    var ss := Stats(rs);
    forall k | 0 <= k < |ss|
      ensures i < |Output(rs)[k].perCore| == |ss[k].perCpu|
      ensures Output(rs)[k].perCore[i] == UsageOf(Since(Cores(ss, i)[..k]), ss[k].perCpu[i])
    {
      CoreUsage(ss, cores, i, k);
      SinceBefore(ss, Cores(ss, i), k);
    }
  }

  /** The same for every core. */
  lemma CoreConserved(rs: seq<Readings>, cores: nat, i: nat)
    requires Stable(Stats(rs), cores) && i < cores && Stats(rs) != [] && Climbs(Cores(Stats(rs), i))
    ensures |Output(rs)| == |Stats(rs)| && forall k :: 0 <= k < |Output(rs)| ==> i < |Output(rs)[k].perCore|
    ensures var last := Last(Stats(rs)).perCpu[i];
            Weighted(CoreUsages(Output(rs), i), Cores(Stats(rs), i)) ==
            (last.user as int + last.nice as int + last.system as int
             + last.irq as int + last.softirq as int + last.steal as int) as real
  {
    hide Climbs, UsageOf, Busy, Sum, Rest, Output, Stats, Weighted, Since;
    CoreCounts(rs, cores, i);
    CountersSpelledOut(Last(Stats(rs)).perCpu[i]);
    WeightedIsBusy(CoreUsages(Output(rs), i), Cores(Stats(rs), i));
  }
}
