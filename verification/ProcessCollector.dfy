/** The process table: per-process CPU fractions against the previous frame, sorted. */
module ProcessCollector {
  import opened Common
  import opened Sorting
  import Usage
  import CpuStat

  /** One raw process; Comm and Cmdline are already reduced to the display name. */
  datatype Proc = Proc(pid: int, ppid: int, name: string, state: string, jiffies: u64, rss: u64, threads: int)

  datatype Process = Process(pid: int, ppid: int, name: string, state: string, cpu: real, rss: u64, threads: int)

  /** What the collector remembers between frames. */
  datatype Base = Base(prev: map<int, u64>, prevTotal: u64, valid: bool)

  /** The CPU fraction of one process in a frame with aggregate total `total`. */
  function CpuOf(b: Base, total: u64, pid: int, jiffies: u64): real {
    if b.valid && total > b.prevTotal && pid in b.prev && jiffies >= b.prev[pid] then
      Usage.Clamp01((jiffies - b.prev[pid]) as real / (total - b.prevTotal) as real)
    else 0.0
  }

  function Project(b: Base, total: u64, p: Proc): Process {
    Process(p.pid, p.ppid, p.name, p.state, CpuOf(b, total, p.pid, p.jiffies), p.rss, p.threads)
  }

  function ProjectAll(b: Base, total: u64, ps: seq<Proc>): (r: seq<Process>)
    ensures |r| == |ps| && forall i :: 0 <= i < |ps| ==> r[i] == Project(b, total, ps[i])
  {
    if ps == [] then [] else ProjectAll(b, total, Front(ps)) + [Project(b, total, Last(ps))]
  }

  /** The jiffies a frame leaves behind; of two entries for one pid the later counts. */
  function Jiffies(ps: seq<Proc>): (m: map<int, u64>)
    ensures forall pid :: pid in m <==> exists i :: 0 <= i < |ps| && ps[i].pid == pid
  {
    if ps == [] then map[]
    else
      assert ps == Front(ps) + [Last(ps)];
      var m := Jiffies(Front(ps))[Last(ps).pid := Last(ps).jiffies];
      assert forall i :: 0 <= i < |ps| ==> (i < |ps| - 1 ==> ps[i] == Front(ps)[i]);
      m
  }

  lemma FrameStart(b: Base, total: u64)
    ensures Jiffies([]) == map[] && ProjectAll(b, total, []) == []
  {
  }

  lemma FrameStep(b: Base, total: u64, ps: seq<Proc>, k: nat)
    requires k < |ps|
    ensures Jiffies(ps[..k + 1]) == Jiffies(ps[..k])[ps[k].pid := ps[k].jiffies]
    ensures ProjectAll(b, total, ps[..k + 1]) == ProjectAll(b, total, ps[..k]) + [Project(b, total, ps[k])]
  {
    hide Project;
    assert Front(ps[..k + 1]) == ps[..k] && Last(ps[..k + 1]) == ps[k];
  }

  /** CPU descending, then memory descending. */
  function Busier(): (Process, Process) -> bool {
    (a: Process, b: Process) => if a.cpu != b.cpu then a.cpu > b.cpu else a.rss > b.rss
  }

  lemma BusierOrders()
    ensures StrictWeakOrder(Busier())
  {
  }

  class ProcessCollector {
    var prev: map<int, u64>
    var prevTotal: u64
    var prevValid: bool

    constructor ()
      ensures State() == Base(map[], 0, false)
    {
      prev, prevTotal, prevValid := map[], 0, false;
    }

    ghost function State(): Base
      reads this
    {
      Base(prev, prevTotal, prevValid)
    }

    method Reset()
      modifies this`prevValid
      ensures State() == old(State()).(valid := false)
    {
      prevValid := false;
    }

    /** One frame; a failed read (None) leaves the baseline as it was. */
    method Collect(stat: Option<CpuStat.CpuTimes>, procs: Option<seq<Proc>>) returns (r: Option<seq<Process>>)
      modifies this
      ensures r.Some? <==> stat.Some? && procs.Some?
      ensures r.None? ==> State() == old(State())
      ensures r.Some? ==>
                var total := Usage.Total(stat.value);
                && SortedPermutation(r.value, ProjectAll(old(State()), total, procs.value), Busier())
                && State() == Base(Jiffies(procs.value), total, true)
    {
      hide Jiffies, ProjectAll, Usage.Clamp01, Busier, Usage.Total, Wrap, SortedPermutation;
      if stat.None? || procs.None? {
        return None;
      }
      var total := Usage.Total(stat.value);
      var ps := procs.value;
      ghost var base := State();
      var usable := prevValid && total > prevTotal;
      var totalDelta := Wrap(total as int - prevTotal as int);
      Usage.NoWrap(total as int - prevTotal as int);
      var next: map<int, u64> := map[];
      var out: seq<Process> := [];
      FrameStart(base, total);
      for k := 0 to |ps|
        invariant State() == base
        invariant next == Jiffies(ps[..k]) && out == ProjectAll(base, total, ps[..k])
      {
        var p := ps[k];
        FrameStep(base, total, ps, k);
        next := next[p.pid := p.jiffies];
        var cpu := 0.0;
        if usable {
          if p.pid in prev && p.jiffies >= prev[p.pid] && totalDelta > 0 {
            cpu := Usage.Clamp01((p.jiffies - prev[p.pid]) as real / totalDelta as real);
          }
        }
        out := out + [Process(p.pid, p.ppid, p.name, p.state, cpu, p.rss, p.threads)];
      }
      assert ps[..|ps|] == ps;
      prev, prevTotal, prevValid := next, total, true;
      BusierOrders();
      out := Slice(out, Busier());
      return Some(out);
    }
  }

  // ---------------------------------------------------------------- one frame

  /** Every fraction lies in [0, 1], and is not zero only for a pid with a valid earlier reading. */
  lemma CpuInRange(b: Base, total: u64, p: Proc)
    ensures 0.0 <= Project(b, total, p).cpu <= 1.0
    ensures Project(b, total, p).cpu != 0.0 ==>
              && b.valid && p.pid in b.prev && b.prev[p.pid] < p.jiffies && b.prevTotal < total
  {
  }

  /** The row names the process and repeats its parent, state, memory and threads. */
  predicate Describes(x: Process, p: Proc) {
    && x.pid == p.pid && x.ppid == p.ppid && x.name == p.name
    && x.state == p.state && x.rss == p.rss && x.threads == p.threads
  }

  ghost predicate HasRow(rows: seq<Process>, p: Proc) { exists x :: x in rows && Describes(x, p) }

  ghost predicate OfProcess(x: Process, ps: seq<Proc>) { exists i :: 0 <= i < |ps| && Describes(x, ps[i]) }

  lemma RowOfProcess(b: Base, total: u64, ps: seq<Proc>, i: nat)
    requires i < |ps|
    ensures var x := ProjectAll(b, total, ps)[i]; x in ProjectAll(b, total, ps) && Describes(x, ps[i])
  {
    hide CpuOf;
  }

  lemma ProjectedRows(b: Base, total: u64, ps: seq<Proc>, x: Process)
    ensures x in ProjectAll(b, total, ps) <==> exists i :: 0 <= i < |ps| && x == Project(b, total, ps[i])
    ensures x in ProjectAll(b, total, ps) ==>
              && OfProcess(x, ps)
              && 0.0 <= x.cpu <= 1.0 && (x.cpu != 0.0 ==> b.valid && x.pid in b.prev)
  {
    hide Project;
    var all := ProjectAll(b, total, ps);
    if x in all {
      var i :| 0 <= i < |all| && all[i] == x;
      assert x == Project(b, total, ps[i]);
      RowOfProcess(b, total, ps, i);
      CpuInRange(b, total, ps[i]);
      SamePid(b, total, ps[i]);
    }
    if i :| 0 <= i < |ps| && x == Project(b, total, ps[i]) {
      assert all[i] == x;
    }
  }

  lemma SamePid(b: Base, total: u64, p: Proc)
    ensures Project(b, total, p).pid == p.pid
  {
  }

  /**
   What the contract of Collect means for a reader of the table: one row per process, showing
   that process, busiest first, every fraction in range, and a fraction only for pids of the
   frame before.
   */
  lemma RowsOfFrame(b: Base, total: u64, ps: seq<Proc>, rows: seq<Process>)
    requires SortedPermutation(rows, ProjectAll(b, total, ps), Busier())
    ensures |rows| == |ps|
    ensures forall x :: x in rows <==> exists i :: 0 <= i < |ps| && x == Project(b, total, ps[i])
    ensures forall x :: x in rows ==> OfProcess(x, ps)
    ensures forall i :: 0 <= i < |ps| ==> HasRow(rows, ps[i])
    ensures forall i, j :: 0 <= i < j < |rows| ==>
              rows[i].cpu > rows[j].cpu || (rows[i].cpu == rows[j].cpu && rows[i].rss >= rows[j].rss)
    ensures forall x :: x in rows ==> 0.0 <= x.cpu <= 1.0 && (x.cpu != 0.0 ==> b.valid && x.pid in b.prev)
  {
    hide Project, ProjectAll, OfProcess, HasRow, SortedPermutation, Busier;
    SortedRows(rows, ProjectAll(b, total, ps));
    forall x
      ensures x in rows <==> exists i :: 0 <= i < |ps| && x == Project(b, total, ps[i])
      ensures x in rows ==>
                OfProcess(x, ps) && 0.0 <= x.cpu <= 1.0 && (x.cpu != 0.0 ==> b.valid && x.pid in b.prev)
    {
      ProjectedRows(b, total, ps, x);
    }
    forall i | 0 <= i < |ps| ensures HasRow(rows, ps[i]) {
      RowOfProcess(b, total, ps, i);
      RowFound(rows, ProjectAll(b, total, ps)[i], ps[i]);
    }
  }

  lemma RowFound(rows: seq<Process>, x: Process, p: Proc)
    requires x in rows && Describes(x, p)
    ensures HasRow(rows, p)
  {
  }

  lemma SortedRows(rows: seq<Process>, all: seq<Process>)
    requires SortedPermutation(rows, all, Busier())
    ensures |rows| == |all| && forall x :: x in rows <==> x in all
    ensures forall i, j :: 0 <= i < j < |rows| ==>
              rows[i].cpu > rows[j].cpu || (rows[i].cpu == rows[j].cpu && rows[i].rss >= rows[j].rss)
  {
    MembersOfPermutation(rows, all);
    forall i, j | 0 <= i < j < |rows|
      ensures rows[i].cpu > rows[j].cpu || (rows[i].cpu == rows[j].cpu && rows[i].rss >= rows[j].rss)
    {
      assert !Busier()(rows[j], rows[i]);
    }
  }

  // ---------------------------------------------------------------- whole runs

  datatype Frame = Frame(total: u64, procs: seq<Proc>)

  /** What is remembered after a run of successful frames that began with Reset. */
  function After(fs: seq<Frame>): Base {
    if fs == [] then Base(map[], 0, false) else Base(Jiffies(Last(fs).procs), Last(fs).total, true)
  }

  /** What one Collect finds on disk: None where a source could not be read. */
  datatype Readings = Readings(stat: Option<CpuStat.CpuTimes>, procs: Option<seq<Proc>>)

  /** The frames of the successful reads. */
  function Frames(rs: seq<Readings>): seq<Frame> {
    if rs == [] then [] else Frames(Front(rs)) + FrameOf(Last(rs))
  }

  function FrameOf(r: Readings): seq<Frame> {
    if r.stat.Some? && r.procs.Some? then [Frame(Usage.Total(r.stat.value), r.procs.value)] else []
  }

  lemma FramesStep(rs: seq<Readings>, k: nat)
    requires k < |rs|
    ensures Frames(rs[..k + 1]) ==
            if rs[k].stat.Some? && rs[k].procs.Some?
            then Frames(rs[..k]) + [Frame(Usage.Total(rs[k].stat.value), rs[k].procs.value)] else Frames(rs[..k])
  {
    hide Usage.Total;
    assert Front(rs[..k + 1]) == rs[..k] && Last(rs[..k + 1]) == rs[k];
  }

  /** Every table is computed from its frame and the frame before it. */
  ghost predicate Emitted(fs: seq<Frame>, tables: seq<seq<Process>>) {
    && |tables| == |fs|
    && forall k :: 0 <= k < |fs| ==>
         SortedPermutation(tables[k], ProjectAll(After(fs[..k]), fs[k].total, fs[k].procs), Busier())
  }

  /** Baselines that no frame can tell apart: an unusable one may hold anything. */
  predicate Alike(a: Base, b: Base) { a == b || (!a.valid && !b.valid) }

  lemma {:induction false} AlikeRows(a: Base, b: Base, total: u64, ps: seq<Proc>)
    requires Alike(a, b)
    ensures ProjectAll(a, total, ps) == ProjectAll(b, total, ps)
  {
    if ps != [] { AlikeRows(a, b, total, Front(ps)); }
  }

  lemma EmittedStep(fs: seq<Frame>, tables: seq<seq<Process>>, b: Base, f: Frame, table: seq<Process>)
    requires Emitted(fs, tables) && Alike(b, After(fs))
    requires SortedPermutation(table, ProjectAll(b, f.total, f.procs), Busier())
    ensures Emitted(fs + [f], tables + [table]) && After(fs + [f]) == Base(Jiffies(f.procs), f.total, true)
  {
    hide ProjectAll, Jiffies, Busier, SortedPermutation, After;
    AlikeRows(b, After(fs), f.total, f.procs);
    var gs, us := fs + [f], tables + [table];
    assert gs[..|fs|] == fs;
    forall k | 0 <= k < |gs|
      ensures SortedPermutation(us[k], ProjectAll(After(gs[..k]), gs[k].total, gs[k].procs), Busier())
    {
      if k < |fs| { assert gs[..k] == fs[..k] && gs[k] == fs[k] && us[k] == tables[k]; }
    }
    AfterLast(fs, f);
  }

  lemma AfterLast(fs: seq<Frame>, f: Frame)
    ensures After(fs + [f]) == Base(Jiffies(f.procs), f.total, true)
  {
    hide Jiffies;
  }

  /**
   What the sampler does with the collector: Reset when it starts, then one Collect per tick.
   Reads that fail do not show: the tables are those of the successful reads, and the baseline
   is the last of them, keyed by exactly its pids.
   */
  method Drive(c: ProcessCollector, rs: seq<Readings>) returns (tables: seq<seq<Process>>)
    modifies c
    ensures Emitted(Frames(rs), tables)
    ensures Frames(rs) == [] ==> !c.State().valid
    ensures Frames(rs) != [] ==> c.State() == After(Frames(rs))
    ensures Frames(rs) != [] ==> forall pid ::
              pid in c.State().prev <==>
              exists i :: 0 <= i < |Last(Frames(rs)).procs| && Last(Frames(rs)).procs[i].pid == pid
  {
    hide ProjectAll, Jiffies, Busier, SortedPermutation, Usage.Total, Emitted, Frames, After;
    c.Reset();
    tables := [];
    NothingEmitted();
    assert rs[..0] == [];
    for k := 0 to |rs|
      invariant Emitted(Frames(rs[..k]), tables) && Alike(c.State(), After(Frames(rs[..k])))
    {
      FramesStep(rs, k);
      ghost var fs, base := Frames(rs[..k]), c.State();
      var r := c.Collect(rs[k].stat, rs[k].procs);
      if r.Some? {
        EmittedStep(fs, tables, base, Frame(Usage.Total(rs[k].stat.value), rs[k].procs.value), r.value);
        tables := tables + [r.value];
      }
    }
    assert rs[..|rs|] == rs;
    BaselineKeys(rs);
  }

  lemma NothingEmitted()
    ensures Emitted([], []) && Frames([]) == [] && !After([]).valid
  {
  }

  /** The baseline's keys are exactly the pids of the last successful frame. */
  lemma BaselineKeys(rs: seq<Readings>)
    ensures Frames(rs) != [] ==> After(Frames(rs)).valid && forall pid ::
              pid in After(Frames(rs)).prev <==>
              exists i :: 0 <= i < |Last(Frames(rs)).procs| && Last(Frames(rs)).procs[i].pid == pid
  {
  }

  /** How far a counter moved. */
  function Span(from: u64, to: u64): int { to as int - from as int }

  /** The jiffies of one pid along a run in which it appears in every frame. */
  ghost predicate Follows(fs: seq<Frame>, pid: int, js: seq<u64>) {
    && |js| == |fs|
    && (forall k :: 0 <= k < |fs| ==> pid in Jiffies(fs[k].procs) && Jiffies(fs[k].procs)[pid] == js[k])
  }

  /** Jiffies never fall, and never grow by more than the machine's total did. */
  ghost predicate Plausible(fs: seq<Frame>, js: seq<u64>)
    requires |js| == |fs|
  {
    forall k :: 0 < k < |fs| ==> 0 <= Span(js[k - 1], js[k]) <= Span(fs[k - 1].total, fs[k].total)
  }

  /** The pid's fractions, each times the jiffies the machine spent meanwhile. */
  ghost function Weighted(fs: seq<Frame>, pid: int, js: seq<u64>): real
    requires |js| == |fs|
  {
    if |fs| <= 1 then 0.0
    else
      Weighted(Front(fs), pid, Front(js)) +
      CpuOf(After(Front(fs)), Last(fs).total, pid, Last(js)) * Span(Last(Front(fs)).total, Last(fs).total) as real
  }

  lemma Quotient(gained: nat, spent: nat)
    requires spent > 0 && gained <= spent
    ensures Usage.Clamp01(gained as real / spent as real) * spent as real == gained as real
  {
    var g, s := gained as real, spent as real;
    assert (g / s) * s == g;
    if g / s > 1.0 { assert (g / s) * s > 1.0 * s; }
  }

  lemma CpuTerm(b: Base, total: u64, pid: int, jiffies: u64)
    requires b.valid && pid in b.prev && 0 <= Span(b.prev[pid], jiffies) <= Span(b.prevTotal, total)
    ensures CpuOf(b, total, pid, jiffies) * Span(b.prevTotal, total) as real == Span(b.prev[pid], jiffies) as real
  {
    if total > b.prevTotal { Quotient(Span(b.prev[pid], jiffies), Span(b.prevTotal, total)); }
  }

  lemma SpansAdd(a: u64, b: u64, c: u64)
    ensures Span(a, b) as real + Span(b, c) as real == Span(a, c) as real && Span(a, a) as real == 0.0
  {
  }

  lemma RunFront(fs: seq<Frame>, pid: int, js: seq<u64>)
    requires Follows(fs, pid, js) && Plausible(fs, js) && |fs| > 1
    ensures Follows(Front(fs), pid, Front(js)) && Plausible(Front(fs), Front(js))
    ensures var b := After(Front(fs));
            && b.valid && pid in b.prev && b.prev[pid] == Last(Front(js)) && b.prevTotal == Last(Front(fs)).total
            && 0 <= Span(Last(Front(js)), Last(js)) <= Span(b.prevTotal, Last(fs).total)
  {
    hide Span;
    var k := |fs| - 1;
    assert js[k - 1] == Last(Front(js)) && fs[k - 1] == Last(Front(fs));
  }

  lemma {:induction false} FractionsConserved(fs: seq<Frame>, pid: int, js: seq<u64>)
    requires Follows(fs, pid, js) && Plausible(fs, js) && fs != []
    ensures Weighted(fs, pid, js) == Span(js[0], Last(js)) as real
  {
    hide CpuOf, Span, Plausible, After, Jiffies;
    if |fs| > 1 {
      RunFront(fs, pid, js);
      FractionsConserved(Front(fs), pid, Front(js));
      CpuTerm(After(Front(fs)), Last(fs).total, pid, Last(js));
      SpansAdd(js[0], Last(Front(js)), Last(js));
    } else {
      SpansAdd(js[0], js[0], js[0]);
    }
  }

  /** The process table lists the pid once, as a directory listing does. */
  ghost predicate Once(ps: seq<Proc>, pid: int) {
    forall i, j :: 0 <= i < j < |ps| ==> !(ps[i].pid == pid && ps[j].pid == pid)
  }

  lemma {:induction false} JiffiesOf(ps: seq<Proc>, i: nat)
    requires i < |ps| && Once(ps, ps[i].pid)
    ensures ps[i].pid in Jiffies(ps) && Jiffies(ps)[ps[i].pid] == ps[i].jiffies
  {
    if i < |ps| - 1 {
      assert Front(ps)[i] == ps[i] && Last(ps).pid != ps[i].pid;
      JiffiesOf(Front(ps), i);
    }
  }

  /** The fraction shown in the pid's row. */
  lemma RowOfPid(b: Base, total: u64, ps: seq<Proc>, rows: seq<Process>, x: Process)
    requires SortedPermutation(rows, ProjectAll(b, total, ps), Busier())
    requires x in rows && Once(ps, x.pid)
    ensures x.pid in Jiffies(ps) && x.cpu == CpuOf(b, total, x.pid, Jiffies(ps)[x.pid])
  {
    hide CpuOf, Jiffies, Busier;
    MembersOfPermutation(rows, ProjectAll(b, total, ps));
    var i :| 0 <= i < |ps| && ProjectAll(b, total, ps)[i] == x;
    JiffiesOf(ps, i);
  }

  /** us[k] is the fraction in the pid's row of table k. */
  ghost predicate Shown(tables: seq<seq<Process>>, pid: int, us: seq<real>) {
    |us| == |tables| && forall k :: 0 <= k < |us| ==> exists x :: x in tables[k] && x.pid == pid && x.cpu == us[k]
  }

  /** Fractions after the first, each times the jiffies the machine spent since the frame before. */
  function Spent(fs: seq<Frame>, us: seq<real>): real
    requires |us| == |fs|
  {
    if |fs| <= 1 then 0.0
    else Spent(Front(fs), Front(us)) + Last(us) * Span(Last(Front(fs)).total, Last(fs).total) as real
  }

  lemma ShownFraction(fs: seq<Frame>, tables: seq<seq<Process>>, pid: int, js: seq<u64>, us: seq<real>, k: nat)
    requires Emitted(fs, tables) && Follows(fs, pid, js) && Shown(tables, pid, us) && k < |fs| && Once(fs[k].procs, pid)
    ensures us[k] == CpuOf(After(fs[..k]), fs[k].total, pid, js[k])
  {
    hide CpuOf, Jiffies, ProjectAll, Busier, After;
    var x :| x in tables[k] && x.pid == pid && x.cpu == us[k];
    RowOfPid(After(fs[..k]), fs[k].total, fs[k].procs, tables[k], x);
  }

  lemma {:induction false} SpentIsWeighted(fs: seq<Frame>, pid: int, js: seq<u64>, us: seq<real>)
    requires |js| == |us| == |fs|
    requires forall k :: 0 <= k < |fs| ==> us[k] == CpuOf(After(fs[..k]), fs[k].total, pid, js[k])
    ensures Spent(fs, us) == Weighted(fs, pid, js)
  {
    hide CpuOf, After, Span;
    if |fs| > 1 {
      var n := |fs| - 1;
      assert fs[..n] == Front(fs) && us[n] == Last(us);
      forall k | 0 <= k < n
        ensures Front(us)[k] == CpuOf(After(Front(fs)[..k]), Front(fs)[k].total, pid, Front(js)[k])
      {
        assert Front(fs)[..k] == fs[..k];
      }
      SpentIsWeighted(Front(fs), pid, Front(js), Front(us));
    }
  }

  /**
   Conservation per process. Over any run of the collector, failed reads among it, for a pid
   in every successful frame the fractions in its rows, times the machine's elapsed jiffies,
   add up to the jiffies the process gained.
   */
  lemma JiffiesConserved(rs: seq<Readings>, tables: seq<seq<Process>>, pid: int, js: seq<u64>, us: seq<real>)
    requires Emitted(Frames(rs), tables) && Shown(tables, pid, us) && Frames(rs) != []
    requires Follows(Frames(rs), pid, js) && Plausible(Frames(rs), js)
    requires forall k :: 0 <= k < |Frames(rs)| ==> Once(Frames(rs)[k].procs, pid)
    ensures |us| == |Frames(rs)| && Spent(Frames(rs), us) == Span(js[0], Last(js)) as real
  {
    hide CpuOf, After, Jiffies, ProjectAll, Busier, Frames, Span, Spent, Weighted, Plausible, Once;
    var fs := Frames(rs);
    forall k | 0 <= k < |fs| ensures us[k] == CpuOf(After(fs[..k]), fs[k].total, pid, js[k]) {
      ShownFraction(fs, tables, pid, js, us, k);
    }
    SpentIsWeighted(fs, pid, js, us);
    FractionsConserved(fs, pid, js);
  }
}
